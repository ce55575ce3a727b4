# A verified model of the node agent

This project models the parts of the sing-box node agent that keep state over unbounded runs, and
proves what they promise for every input, every run or every interleaving.

| file | what it models |
|---|---|
| `Machine.dfy` | Go's fixed-width integers and the types that several components share |
| `Varint.dfy`, `Wire.dfy`, `StatsApi.dfy`, `Counters.dfy` | the hand-written protobuf and gRPC codec of the stats collector, from bytes to the table of users |
| `Ledger.dfy`, `LocalStore.dfy`, `StoreRuns.dfy`, `Accounting.dfy` | the traffic meter, the local user store and any sequence of calls to it, and the pass that books readings to users |
| `Generator.dfy`, `Links.dfy` | the sing-box configuration, and the client links that must agree with it |
| `Quota.dfy`, `Passes.dfy`, `Restoration.dfy` | quota enforcement as a transition system of ticks, callbacks and regenerations: who is to be dropped, what every interleaving charges and writes, and who is to be brought back |
| `Supervisor.dfy` | the sing-box supervisor with its monitors, settle timers and processes |
| `Upgrade.dfy`, `Version.dfy` | the three files of a self-upgrade, and release numbers |
| `CommandExecutor.dfy`, `PollLoop.dfy`, `PollLaws.dfy`, `Protocol.dfy` | remote commands, the long-poll loop, what every run of it keeps, and the loop against an honest server |
| `UpgradeRuns.dfy`, `Lives.dfy`, `Mishaps.dfy` | the executable and its backup over whole runs, versions from one process to the next, and the lives in which it goes wrong |
| `WsConn.dfy` | message frames read as one byte stream |

Code that changes state is a method proved equal to a specification function; the lemmas are about
those functions. What the outside world answers (files, processes, the network, the clock, hashes,
random jitter) is a parameter of the operation that asks for it. `dafny verify dfyconfig.toml` checks
everything.

## What the proofs found

- `grpcUnframe` computes the slice bound `5+n` in 32 bits, so a declared length in the last five
  values below 2^32, with that many bytes present, makes Go panic. The frame round trip holds exactly
  for messages shorter than 2^32 - 5 (`StatsApi.FrameRoundTripIff`).
- Between `ListUsers` and the write of the file, nothing is queued for an over-quota user who is still
  in the old file (`Quota.ListedButNotWritten`), so the invariant needs the snapshot in hand as a further
  case. `Quota.ComingIff` says exactly when the other cases suffice.
- A failed write of the file loses a crossing (`Quota.FailedWriteLoses`), exactly when no other
  regeneration is queued and the tick has not just seen a crossing (`Quota.FailedWriteIff`). A failed save
  in the store loses a change of a user (`LocalStore.QuietlyUnwantedIff`). The next regeneration that is
  called for makes good whatever failed before it (`Quota.Recovers`).
- A pass between a restart and `Meter.Reset`, or two passes that hand their readings over in the wrong
  order, charge bytes twice; both amounts are stated exactly (`Ledger.PassBeforeReset`,
  `Ledger.OutOfOrder`).
- A link is given for a negative port, or for a TLS port whose certificate could not be made, although
  no inbound exists (`Links.LinkServedIff`).
- The process that prepared an upgrade clears the backup itself on the poll that confirms the ack, so
  the version that starts next has nothing to roll back to, against the comment at
  internal/enroll/upgrade.go:22-23 (`Lives.AckExitLeaves`). It can only undo an upgrade attempt of its
  own (`Lives.NewVersionCannotRollBack`).
- After the double failure that is reported as a node without an executable, the backup is the only
  copy, and the next answered poll removes it; the process may then exit for its upgrade with nothing left
  to start (`Mishaps.ExitWithNothingLeft`). `UpgradeRuns.MissingIff` says exactly when the executable, or
  every copy, is missing after any run.
- The attempt that repairs such a node also removes the backup first: it passes through a state with no
  executable and no backup, and a crash there leaves nothing to start (`Mishaps.RepairStripsNode`).
  `UpgradeRuns.CopyAtEveryStepIff` says exactly when no step of a run is like that.
- The server can hold the ack of an upgrade that works while the agent is the old version again: the
  process that prepared it sends the ack, hears no answer three times, and rolls back
  (`Mishaps.AckedButUndone`). `Protocol.AckReachesIff` says exactly which acks the server has.
- `ResetTraffic` does not start the callback, so a user who was stopped for quota stays out after a reset
  until something else regenerates (`Restoration.ResetIsForgotten`); nothing in the repository calls it yet.
  `Restoration.QuietlyDueIff` says that only this, and a 64-bit overflow of the usage, can shut a user out.
- When the removal of the backup fails, which the source ignores, the new version starts with the old
  one behind it and goes back to it after three failed polls (`Mishaps.FallingChain`). A version falls
  exactly when a life goes back to an older backup that it started with (`Lives.VersionsNeverFallIff`).
- A second upgrade before the restart drops the only copy of the binary that is running
  (`Upgrade.SecondUpgradeForgetsRunning`).
- `parseSemver` accepts a plus sign, and a minus sign in front of zero, where its comment asks for
  digits only (`Version.PartAcceptedIff`, `Version.SignsAreAccepted`).

## Model

| member | source | states |
|---|---|---|
| `Varint.AppendVarint` | internal/stats/collector.go:286-292 | appends the varint bytes of any uint64 after what is there |
| `Varint.ReadVarint` | internal/stats/collector.go:294-303 | returns the value, modulo 2^64, and the exact length of the varint at the front; zero length when there is none |
| `Varint.LengthIsExact` | internal/stats/collector.go:294-303 | a varint is found exactly when a prefix of at most ten bytes has the shape of one, and it is that prefix |
| `Varint.EncodingIsVarint` | internal/stats/collector.go:286-292 | every encoding has the varint shape and its base 128 digits stand for the number |
| `Varint.VarintRoundTrip` | internal/stats/collector.go:286-303 | encode, then decode in front of any bytes: the number and the exact length come back |
| `Varint.ReencodeIff` | internal/stats/collector.go:286-303 | decode, then encode gives the bytes back exactly when there is no zero padding and no bit past 64 |
| `Wire.WalkFields` | internal/stats/collector.go:241-284 | the loop stays in bounds, ends, and visits the fields that the one-field grammar gives, in order, up to the first error |
| `Wire.NextFieldLocal` | internal/stats/collector.go:241-284 | what a field means does not depend on the bytes after it |
| `Wire.WalkConcat` | internal/stats/collector.go:241-284 | walking a message that parses followed by anything is walking the two one after the other |
| `Wire.RecordIff` | internal/stats/collector.go:241-284 | the parser takes a byte string as one field exactly when it is a record of the declarative grammar |
| `Wire.RecordShows` | internal/stats/collector.go:241-284 | the one field of a record: its number and wire type from the key, and its value or its bytes |
| `Wire.WalkAcceptsIff` | internal/stats/collector.go:241-284 | exactly the concatenations of records are accepted, so every byte of an accepted input is accounted for |
| `Wire.FailsIff` | internal/stats/collector.go:241-284 | after a key: which error stands for which fault of the body, and that there is no other |
| `Wire.WalkStopsAt` | internal/stats/collector.go:241-284 | a walk that fails has visited an accepted front of its input, and the field after it is the one that fails |
| `StatsApi.DecodeQueryStatsResponse` | internal/stats/collector.go:216-239 | the two nested loops return the counters that decode before the first error, and that error |
| `StatsApi.CollectStat` | internal/stats/collector.go:222-231 | whatever the fields of a nested message: the name is the bytes of the last field 1 and empty without one, the value is the last field 2 as int64 and 0 without one, every other field is ignored |
| `StatsApi.StatMeans` | internal/stats/collector.go:222-231 | so a nested message stands for its last name and last value, with the zero entry for what is absent |
| `StatsApi.DecodeConcat` | internal/stats/collector.go:216-239 | decoding distributes over concatenation of messages that decode |
| `StatsApi.FirstFaultDecides` | internal/stats/collector.go:216-239 | the first fault, of a field or of the nested message in it, ends decoding with its error and the counters before it |
| `StatsApi.UnknownFieldIgnored` | internal/stats/collector.go:216-239 | a record whose key is not that of field 1 with wire type 2 is invisible wherever it is inserted at the top level |
| `StatsApi.DecodeEncode` | internal/stats/collector_test.go:19-30 | any list of counters, negative values included, survives encode and decode |
| `StatsApi.DecodeSparse` | internal/stats/collector.go:216-239 | the same for an encoder that sends no empty name and no zero value, as proto3 does: a counter that stands at 0 is read as 0 |
| `StatsApi.EncodeQueryStatsRequest` | internal/stats/collector.go:201-213 | the request parses back to exactly its pattern and reset flag, absent when empty or false |
| `StatsApi.GrpcFrame` | internal/stats/collector.go:175-181 | the filled buffer is flag, four-byte big-endian length modulo 2^32, message |
| `StatsApi.FrameRoundTripIff` | internal/stats/collector.go:175-198 | unframing a frame gives the message exactly when it is shorter than 2^32 - 5, and panics exactly in the five lengths below each multiple of 2^32 |
| `StatsApi.UnframeFailures` | internal/stats/collector.go:183-198 | the exact condition of each failure of grpcUnframe, the panic included |
| `StatsApi.UnframeSound` | internal/stats/collector.go:183-198 | any other non-empty input begins with the frame of the message returned |
| `Counters.ParseUserStats` | internal/stats/collector.go:149-170 | the loop over the entries builds the table that entering them one by one gives |
| `Counters.TableExact` | internal/stats/collector.go:149-170 | the table holds exactly the users that some counter names, each with the last value for either direction |
| `Counters.OwnerOfCounterIff` | internal/stats/collector.go:149-170 | a counter is credited to the user it was named for exactly when the uuid is non-empty, contains no separator and does not end in its character |
| `Counters.OwnerIff` | internal/stats/collector.go:149-160 | of all names exactly those of the form user, uuid, traffic, direction belong to a user, and to which one and direction |
| `Counters.CounterNamesAre` | internal/stats/collector.go:149-160 | the texts that those names are made of |
| `Counters.Collect` | internal/stats/collector.go:62-69 | unframe, decode and parse composed: each way of unframing and each decode error ends in its own result |
| `Counters.CollectRecoversReport` | internal/stats/collector.go:62-198 | from the framed bytes of any server table that fits in one frame, Collect recovers that table |
| `Ledger.Meter.Deltas` | internal/stats/meter.go:25-43 | in any visiting order: a delta for exactly the users that grew, and every reading remembered |
| `Ledger.Meter.Reset` | internal/stats/meter.go:60-64 | nothing is remembered any more |
| `Ledger.ChargedExactly` | internal/stats/meter.go:25-64 | for any history of readings, restarts and resets: charged plus lost equals the true total plus doubled |
| `Ledger.Conservation` | internal/stats/meter.go:55-64 | with one Reset at each restart and nowhere else, the deltas add up to the sum of the last readings of each epoch |
| `Ledger.NeverOverCharged` | internal/stats/meter.go:34-52 | restarts without Reset never over-count, and lose exactly the last reading where the next one is at least as large |
| `Ledger.PassBeforeReset` | cmd/agent/main.go:645-648 | a pass between restart and Reset charges its own reading a second time |
| `Ledger.OutOfOrder` | cmd/agent/main.go:580-590 | passes that hand readings over in the wrong order charge the last reading handed over plus every reading that a smaller one overtook |
| `LocalStore.Store.CreateUser` | internal/local/store.go:111-170 | the new record, defaults, the undo on a failed save, and when the callback fires |
| `LocalStore.Store.UpsertUser` | internal/local/store.go:175-244 | create or merge, conflict on another password, usage kept, and what a failed save leaves |
| `LocalStore.Store.UpdateUser` | internal/local/store.go:287-340 | the fields that change; memory keeps the change, without the callback, when the save fails |
| `LocalStore.Store.DeleteUser` | internal/local/store.go:343-364 | the user goes from memory; file and callback only when the save works |
| `LocalStore.Store.ResetUserTraffic` | internal/local/store.go:247-258 | usage zeroed, never a callback |
| `LocalStore.Store.ClearUsers` | internal/local/store.go:389-401 | no users left; file and callback only when the save works |
| `LocalStore.Store.AddTraffic` | internal/local/store.go:369-386 | credits with 64-bit wrap-around, and reports a crossing exactly when this call made the user over quota |
| `LocalStore.Store.ListUsers` | internal/local/store.go:275-284 | every user once, in an order that is not defined |
| `LocalStore.OpIsLocal` | internal/local/store.go:111-401 | an operation changes its own user only and keeps records under their own uuid |
| `LocalStore.OperationEnds` | internal/local/store.go:111-401 | for every operation: which answer stands for which reason, when the file and the callback follow, and which users are left |
| `LocalStore.OperationLeaves` | internal/local/store.go:111-401 | for every operation: each field of the record it leaves, defaults and the order of the three ways to set an expiry included |
| `LocalStore.QuietlyUnwantedIff` | internal/local/store.go:111-401 | the exact conditions under which an operation makes a user unwanted without the callback: always a failed save |
| `LocalStore.UpsertIdempotent` | internal/local/store.go:175-244 | a redelivered upsert changes nothing, and never the usage or the password |
| `StoreRuns.FileIsLastSave` | internal/local/store.go:88-108 | over any calls the file is the whole memory of the last save that worked, so one save makes good all failed ones before it |
| `StoreRuns.UsageIs` | internal/local/store.go:175-386 | a user's usage is exactly what was credited since the record was made or reset, in 64 bits, whatever else happened and failed in between |
| `StoreRuns.Perform` | internal/local/store.go:88-401 | each call leaves memory and file as the runs say |
| `Accounting.AccountLocalTraffic` | cmd/agent/main.go:576-595 | every stored user with a delta is credited with it, and crossed is reported exactly when some user went over |
| `Accounting.PassCredits` | cmd/agent/main.go:586-591 | a pass adds exactly the two deltas to a user and touches no other field |
| `Accounting.BooksFollowLedger` | cmd/agent/main.go:576-595 | over any run, usage grows by exactly what the ledger charges in both directions |
| `Accounting.TrafficConserved` | cmd/agent/main.go:598-660 | over serialised passes and any number of restarts, usage grows by exactly the sum of the last readings of each epoch |
| `Accounting.TrafficNeverOverCounted` | internal/stats/meter.go:34-63 | with restarts that nobody resets for, usage grows by the true total less exactly the lost readings, in both directions, and never by more |
| `Generator.ConfigGenerator.CollectLists` | internal/config/generator.go:77-150 | the loop that grows seven lists leaves in each what the active users ask for |
| `Generator.ConfigGenerator.BuildInbounds` | internal/config/generator.go:152-273 | which inbounds exist, in order, with ports, TLS and users |
| `Generator.ConfigGenerator.Generate` | internal/config/generator.go:67-290 | the configuration that the per-protocol specification gives |
| `Generator.PickAll` | internal/config/generator.go:77-150 | each list holds, in order, one entry per occurrence of its protocol among active users |
| `Generator.ActiveIdsExact` | internal/config/generator.go:77-91 | the stats list holds exactly the users that are enabled, under quota and not expired |
| `Generator.EntriesExact` | internal/config/credentials.go:18-54 | an entry is in an inbound exactly when an active user lists the protocol and has that credential |
| `Generator.InboundOrder` | internal/config/generator.go:152-273 | at most one inbound a protocol, in a fixed order |
| `Generator.NamesAreCounted` | internal/config/generator.go:77-273 | every name in every inbound is in the stats list |
| `Links.SubscriptionLinks` | internal/api/local.go:425-472 | all IPv4 links in protocol order, then all IPv6 ones |
| `Links.LinksOverExact` | internal/api/local.go:425-446 | a link is listed exactly when some listed protocol yields it |
| `Links.LinksLeadHome` | internal/api/local.go:425-472 | link by link: the IPv4 half leads to the IPv4 address and the rest to the IPv6 one, each to the port configured for its protocol |
| `Links.LinkParts` | internal/api/local.go:562-696 | the credential, TLS name, method, path and ALPN that a link of each protocol carries, as texts |
| `Links.TrimMeans` | internal/api/local.go:556-558 | the host of a link is the address without the brackets at its ends |
| `Links.LinkServedIff` | internal/api/local.go:425-472 | every link of an active user's subscription, IPv4 or IPv6, leads to an inbound with its port, credential, TLS name, short id and the public key of the inbound's private key, exactly when its protocol is well configured; only the links to self-signed inbounds skip the certificate check |
| `Links.EntryHasLink` | internal/config/generator.go:77-273 | on a node with any address, every inbound entry belongs to an active user who is given a link with that protocol, port and credential |
| `Links.V6Mirrors` | internal/api/local.go:46-58 | the IPv6 half is the IPv4 half with the address replaced |
| `Quota.Agent.RegenerateConfig` | cmd/agent/main.go:598-660 | a regeneration without interference writes and loads a configuration of exactly the users it listed, all of them to be served, and resets the meter; a failed write leaves file, process and readings |
| `Quota.ChangeQueues` | internal/local/store.go:303-364 | a user change that makes someone unwanted queues a regeneration when saves work |
| `Quota.NoLostCrossing` | cmd/agent/main.go:576-634 | in every interleaving, with any failures before some moment when a regeneration was on its way and none after it, an unwanted user in the file, in the snapshot or in the running sing-box is about to be dropped |
| `Quota.QuietMeansEnforced` | cmd/agent/main.go:576-660 | under the same hypotheses, whenever nothing is under way the running sing-box serves wanted users only |
| `Quota.Recovers` | cmd/agent/main.go:598-660 | from any state in which a regeneration is on its way, whatever failed earlier, the invariant holds at the end of every run without another failure |
| `Quota.ComingIff` | cmd/agent/main.go:576-634 | for an unwanted user in the file, something is coming exactly unless the snapshot is in hand with nothing queued and no crossing just seen |
| `Quota.ListedButNotWritten` | cmd/agent/main.go:607-634 | that exception is reached on a run without failures |
| `Quota.FailedWriteIff` | cmd/agent/main.go:631-634 | after a failed write the agent can come to rest, without another failure, with an unwanted user still in the file exactly when nothing was queued and no crossing just seen |
| `Quota.FailedWriteLoses` | cmd/agent/main.go:631-634 | a run from the start on which nothing fails and a user crosses the limit; one failed write then leaves the agent at rest with the user in the file |
| `Passes.TickPass` | cmd/agent/main.go:576-595 | a tick on its own, in any order of its deltas: every stored user credited with the delta of the reading, the reading remembered, and one regeneration queued exactly when some user went over |
| `Passes.RegenPass` | cmd/agent/main.go:598-606 | the pass inside a regeneration charges the same and queues nothing |
| `Passes.WholeRegeneration` | cmd/agent/main.go:598-660 | a regeneration on its own: which runs of its steps there are, and the users, the file, the process, the meter and the queue that it leaves, also when the write or the start fails |
| `Passes.InterleavingsConserve` | cmd/agent/main.go:576-660 | in every interleaving a kept user's usage, with the deltas still in hand, grows by exactly what the meter charged for that user |
| `Passes.InterleavingIsSerial` | cmd/agent/main.go:576-660 | from one settled moment to another an interleaved run leaves the usage that its readings leave one after the other |
| `Passes.AgentAccount` | cmd/agent/main.go:576-660 | over any interleaved run from an empty meter: usage plus what restarts lost is the start, the true total of both directions, and what a pass before a Reset doubled |
| `Passes.StoreFollows` | cmd/agent/main.go:576-660 | the users after any interleaving are what its calls to the store leave in their order |
| `Passes.RegenerationsBalance` | cmd/agent/main.go:592-603 | over any run, regenerations begun and still queued are those queued at first plus one for each callback, reload command and tick with a crossing |
| `Passes.FileIsOneListing` | cmd/agent/main.go:607-634 | the file is always the configuration of one whole listing, that of the last write that worked, whatever happened in between |
| `Passes.ListingMeans` | cmd/agent/main.go:607-629 | in terms of the stored users: exactly the enabled, unexpired users under their limit are metered, and may log in at each inbound whose protocol they list, with their own credential |
| `Passes.ProcessHasFile` | internal/singbox/process.go:89-335 | the running process has the file as it was at its last start; none runs after a crash or a failed restart until the next |
| `Restoration.QuietlyDueIff` | internal/local/store.go:247-258 | when nothing fails, a user becomes due without a regeneration being queued exactly by ResetTraffic, or by a credit that overflows, on a user stopped for quota |
| `Restoration.NoLostReturn` | cmd/agent/main.go:576-634 | in every interleaving without those two and without later failures, a wanted, unexpired user who is missing from the file, the snapshot or the running sing-box is about to be brought back |
| `Restoration.QuietMeansServed` | cmd/agent/main.go:576-660 | under the same hypotheses, whenever nothing is under way such a user is in the file and in the running sing-box |
| `Restoration.ResetIsForgotten` | internal/local/store.go:247-258 | a run from the start, without failures, that ends at rest with a user shut out after a reset |
| `Supervisor.Manager.StartLocked` | internal/singbox/process.go:89-154 | each way a start ends, and the fields it leaves |
| `Supervisor.Manager.Stop` | internal/singbox/process.go:195-233 | a new generation, not running, and which process is told |
| `Supervisor.Manager.MonitorWakes` | internal/singbox/process.go:277-315 | stale, give-up or wait, with the failure count and the one-shot reset |
| `Supervisor.Manager.BackoffEnds` | internal/singbox/process.go:316-335 | nothing when stale, otherwise the restart |
| `Supervisor.Manager.Settle` | internal/singbox/process.go:139-151 | clears failures and stopped only for the running current generation |
| `Supervisor.BackoffRange` | internal/singbox/process.go:307-315 | every wait is within 1..30 seconds and never shrinks as failures add up |
| `Supervisor.BackoffDoubles` | internal/singbox/process.go:307-315 | the first wait is a second, and each next one is the double, up to 30 |
| `Supervisor.CrashSchedule` | internal/singbox/process.go:290-315 | crashes in a row are retried after 1, 2, 4, 8, 16, 30, 30, 30 and 30 seconds, and the tenth is final |
| `Supervisor.DisabledIff` | internal/singbox/process.go:290-306 | residential.json is taken away exactly at a second or later failure, if it is there and the rename works |
| `Supervisor.DisablingStartsOver` | internal/singbox/process.go:290-306 | taking residential.json away starts the count of failures again |
| `Supervisor.StartIff` | internal/singbox/process.go:89-154 | a start brings up a process exactly when none is running and every step works |
| `Supervisor.RunKeepsInv` | internal/singbox/process.go:89-335 | the invariant holds over every interleaving of starts, stops, exits, wake-ups and timers |
| `Supervisor.SingleProcess` | internal/singbox/process.go:89-335 | at most one live process that nobody told to stop, it is the current one, and at most one current monitor |
| `Supervisor.StartServes` | internal/singbox/process.go:89-154 | a start that works leaves its process serving under a new generation, with a monitor and a settle timer, and touches the other processes only by telling strays |
| `Supervisor.CrashRecovers` | internal/singbox/process.go:277-335 | from any reachable state, the crash of the serving process can be followed by a new one that serves, unless it is the tenth in a row, which ends supervision |
| `Supervisor.StaleIsHarmless` | internal/singbox/process.go:277-335 | a monitor or timer of an earlier generation changes nothing but itself |
| `Supervisor.StopIsFinal` | internal/singbox/process.go:195-233 | after Stop nothing serves again until the next Start call, whatever was pending |
| `Supervisor.CrashFallsOrEnds` | internal/singbox/process.go:290-315 | each crash lowers the pair (residential.json present, failures left) or gives up for good |
| `Supervisor.BoundedRestarts` | internal/singbox/process.go:277-364 | without outside help at most twenty crashes, however events interleave |
| `Supervisor.FailedRestartEndsQuietly` | internal/singbox/process.go:329-334 | a failed restart ends supervision and leaves stopped as it was |
| `Upgrade.Disk.PrepareFrom` | internal/enroll/upgrade.go:71-107 | passes through exactly the specified file states, with the specified result, under any failures |
| `Upgrade.Disk.Rollback` | internal/enroll/upgrade.go:113-122 | the backup becomes the executable, or nothing changes |
| `Upgrade.OldNeverLost` | internal/enroll/upgrade.go:71-107 | at every step of one upgrade the old binary is the executable or the backup |
| `Upgrade.PrepareOutcome` | internal/enroll/upgrade.go:71-107 | when it succeeds and with what files; the old executable stays except after the reported double failure |
| `Upgrade.PrepareLeaves` | internal/enroll/upgrade.go:71-107 | the files after any attempt for each reported result, also when there is no executable to begin with |
| `Upgrade.PrepareResultIs` | internal/enroll/upgrade.go:71-107 | which result stands for which failure, and what becomes of the temporary file, when its removal works and when it does not |
| `Upgrade.RollbackUndoes` | internal/enroll/upgrade.go:71-122 | a rollback after a successful upgrade brings the old binary back |
| `Upgrade.SecondUpgradeForgetsRunning` | internal/enroll/upgrade.go:89-94 | after two upgrades no copy of the running binary is left, unless one of them was that binary |
| `Version.ParseSemver` | internal/enroll/version.go:11-28 | accepts and returns what the grammar of three parts gives |
| `Version.IsNewerRelease` | internal/enroll/version.go:30-45 | the first component that differs decides; false when either does not parse |
| `Version.NewerIsStrictOrder` | internal/enroll/version.go:30-45 | irreflexive, transitive, asymmetric, and total on different triples |
| `Version.ParsePrinted` | internal/enroll/version.go:11-28 | every printed triple of int64 numbers is read back, with or without the v |
| `Version.PrintedPrecedence` | internal/enroll/version.go:30-45 | of two printed releases the newer one has the greater number at the first difference |
| `Version.ParsedIff` | internal/enroll/version.go:11-28 | exactly the strings of three accepted parts between two dots, with an optional v, are parsed, and to these parts |
| `Version.PartAcceptedIff` | internal/enroll/version.go:11-28 | which parts are accepted: signs too, within int64; and the number they stand for |
| `Version.SignsAreAccepted` | internal/enroll/version.go:11-28 | two parts that the source's comment would refuse |
| `CommandExecutor.Executor.ExecuteCommand` | internal/enroll/executor.go:82-92 | a known id is replayed, any other is performed and remembered |
| `CommandExecutor.Executor.Dispatch` | internal/enroll/executor.go:94-118 | the ack, the files and the pending exit of each kind of command |
| `CommandExecutor.Executor.UpgradeTo` | internal/enroll/executor.go:203-238 | each refusal of an upgrade, and the pending exit exactly when the files were replaced |
| `CommandExecutor.Executor.RememberAck` | internal/enroll/executor.go:252-265 | the map and the list after the eviction loop |
| `CommandExecutor.AckSays` | internal/enroll/executor.go:94-238 | for every kind of command that is really performed: exactly when the ack says done, which error stands for which refusal, and the data it brings |
| `CommandExecutor.RememberNew` | internal/enroll/executor.go:252-265 | a new ack keeps the cache sound and its list the last 200 ids |
| `CommandExecutor.RunFollows` | internal/enroll/executor.go:62-92 | over any calls the list is the last 200 performed ids, and equal ids are more than 200 apart |
| `CommandExecutor.PerformedAgainOnlyAfter200` | internal/enroll/executor.go:82-92 | an id is performed again only after 200 different others |
| `CommandExecutor.ReplayIsOriginal` | internal/enroll/executor.go:242-250 | within fewer than 200 new commands a replay is the original ack |
| `PollLoop.AckQueue.DropAcked` | internal/enroll/runner.go:411-426 | the in-place compaction keeps exactly the acks that were not confirmed, in order |
| `PollLoop.Runner.ExecuteCommands` | internal/enroll/runner.go:285-291 | one ack for each command, appended in order |
| `PollLoop.Runner.TakeAnswer` | internal/enroll/runner.go:265-305 | counters reset, backup cleared, acks dropped, then exit or execute, and the next wait |
| `PollLoop.Runner.TakeFailure` | internal/enroll/runner.go:241-262 | failures counted, and when the rollback happens |
| `PollLoop.Runner.PollOnce` | internal/enroll/runner.go:359-373 | the request carries a copy of the queue and the wait that Poll clamps |
| `PollLoop.Runner.Run` | internal/enroll/runner.go:204-317 | for any script of polls the loop sends the requests and ends in the state and the exit that the specification gives |
| `PollLaws.BackoffRange` | internal/enroll/client.go:140-154 | the nominal backoff of 1, 2, 4, 8, 16, 32 and 64 s, times the jitter, cut at 60 s after it; within a fifth of nominal before the cut, at least 1 s from the first failure on |
| `PollLaws.PollsApart` | internal/enroll/runner.go:307-315 | whatever the server answers, polls start at least a second apart |
| `PollLaws.PollRate` | internal/enroll/runner.go:307-321 | at most T + 1 polls start within any T seconds |
| `PollLaws.CountersAre` | internal/enroll/runner.go:241-273 | attempt and failure count equal the failed polls since the last answer, boot conflicts left out |
| `PollLaws.WaitOfEveryPoll` | internal/enroll/runner.go:293-305 | each request's wait: 25 before any answer, 0 after one with commands, else what the last answer asked for if it lies in 1..25 and 25 otherwise, kept through failures |
| `PollLaws.GapOfEveryPoll` | internal/enroll/runner.go:218-321 | the exact time between any two polls in a row, by what became of the first: answer, boot conflict, or failure with the number of failures since the last answer |
| `PollLaws.RollbackIff` | internal/enroll/runner.go:244-255 | the rollback exit: exactly at a third or later failure since the last answer, with a backup |
| `PollLaws.PendingIs` | internal/enroll/runner.go:275-291 | the queue is all acks made so far, in order, less those whose id a later answer listed |
| `PollLaws.RequestCarries` | internal/enroll/runner.go:359-373 | every request carries exactly that queue |
| `PollLaws.AckLeavesOnlyConfirmed` | internal/enroll/runner.go:411-426 | an ack is in every request until one that carried it was answered with its id |
| `PollLaws.OneAckPerCommand` | internal/enroll/runner.go:285-291 | an answer's commands yield one ack each under their own ids, in order, at the end of the queue |
| `PollLaws.AckOfCommand` | internal/enroll/runner.go:285-291 | the ack of each command is what executing it after the commands before it gives |
| `PollLaws.RunIsLookups` | internal/enroll/executor.go:82-92 | over any polls the cache works as one sequence of lookups |
| `PollLaws.PerformedFarApart` | internal/enroll/executor.go:62-69 | over the life of a process the cache is the last 200 performed ids and equal ids are more than 200 apart |
| `PollLaws.ReplayAcrossPolls` | internal/enroll/executor.go:242-250 | a replayed ack is the original through any number of polls that perform fewer than 200 other commands |
| `Protocol.AcksAreConserved` | internal/enroll/runner.go:265-291 | against an honest server, what it had, what was queued and what was made is what it has and what is queued |
| `Protocol.ExitOnlyWhenAllAcked` | internal/enroll/runner.go:275-283 | an upgrade exit means that the server has every ack the process made |
| `Protocol.FullConfirmationExits` | internal/enroll/runner.go:277-283 | with an upgrade pending, an answer ends the process exactly when it confirms all that is queued |
| `Protocol.CandidatesAreDelivered` | internal/enroll/runner.go:285-291 | the commands handled are exactly those that the answers of a run brought, in order, less those of an answer that ends the process |
| `Protocol.ExactlyOnce` | internal/enroll/runner.go:277-291 | against an honest server every command that arrives is performed and acknowledged exactly once, in order, none the server had an ack for; only the commands of the answer that ends the process are neither performed nor acknowledged |
| `Protocol.AckReachesIff` | internal/enroll/runner.go:359-373 | the server has an ack exactly when some request after the poll that made it arrived, whatever became of the answer and however the run ended |
| `UpgradeRuns.PresenceIs` | internal/enroll/upgrade.go:71-133 | which of executable and backup there are after any run, under any failures, follows from the reported outcomes of its attempts, clearings and rollbacks |
| `UpgradeRuns.MissingIff` | internal/enroll/upgrade.go:94-100 | after any run the executable is missing exactly when a double failure was not made good, and every copy exactly when the backup was removed after it |
| `UpgradeRuns.CopyAtEveryStepIff` | internal/enroll/upgrade.go:91-100 | every step of every poll of a run leaves a copy exactly unless something, a successful attempt included, removes the backup while the executable is missing |
| `UpgradeRuns.AttemptCopies` | internal/enroll/upgrade.go:91-100 | one attempt has a step with no copy exactly when it finds no executable and removes the backup, also if it then succeeds |
| `UpgradeRuns.PendingIff` | internal/enroll/executor.go:213-237 | an upgrade is pending exactly when an attempt of this process replaced the executable |
| `Lives.RunEnds` | internal/enroll/runner.go:244-283 | for every way a run can end, under any failures: which version the executable has, or its backup while it is missing, and what became of the first backup |
| `Lives.AckExitLeaves` | internal/enroll/runner.go:265-283 | at an upgrade exit an attempt of this process has replaced the executable; one is there exactly when no double failure is left unrepaired, and is then another, newer release; when nothing is left at all; and that the exit clears the backup |
| `Lives.NewVersionCannotRollBack` | internal/enroll/upgrade.go:22-23 | started from the files of an upgrade exit that cleared the backup, a life rolls back only after an attempt of its own put the executable aside |
| `Lives.LinkIff` | internal/enroll/runner.go:244-283 | the next version is not older, and newer after a confirmed upgrade, exactly unless this life goes back to an older backup it started with |
| `Lives.ConfirmedUpgradesRise` | internal/enroll/executor.go:213-237 | along any chain of confirmed upgrades the version rises at every exit, whatever failed in between |
| `Lives.VersionsNeverFallIff` | internal/enroll/runner.go:244-283 | along any chain of lives, however they end, the version never falls exactly when none but the last goes back to an older backup it started with |
| `Mishaps.FallingChain` | internal/enroll/upgrade.go:131-133 | for any two releases, three lives whose version rises and falls because the backup could not be removed |
| `Mishaps.ExitWithNothingLeft` | internal/enroll/runner.go:267-283 | for any two releases, a life that exits for its upgrade with no executable and no backup |
| `Mishaps.RepairStripsNode` | internal/enroll/upgrade.go:91-100 | for any two releases, a life that ends with the new release in place and passes through a step with no copy |
| `Mishaps.AckedButUndone` | internal/enroll/runner.go:244-255 | for any two releases, a life against an honest server that ends by rollback to the old release while the server has the ack of the upgrade |
| `WsConn.Conn.Read` | internal/tunnel/wsconn.go:30-54 | returns the next bytes of the stream, skips empty frames, ends only when nothing is left, and fails only on a connection that breaks |
| `WsConn.Conn.ReadAll` | internal/tunnel/wsconn.go:30-54 | the chunks of any reads join to a prefix of the joined frames, and to all of them at the end, which one more read than there are bytes reaches on a sound connection |

## Left out

- HTTP, WebSocket dialling and TLS of the stats, command and tunnel connections, SSH, terminals: foreign libraries; their answers are parameters.
- Hashes, base64, JSON, certificates and random ids: function parameters; nothing is claimed about collisions. `TUICUUID`'s two patched bytes are inside such a parameter.
- Register and `Prepare` before the poll loop, node.json, the status and statistics that a poll reports, log text.
- Hybrid and remote mode, the reporter cache and the quota monitor, kicking users; expiry by itself does not regenerate the configuration and no claim covers it.
- The OTun subscription, node names and the text of links: a link is modelled by its parts.
- Creation and update times of users, and the calendar in AddDate: a day is 86400 seconds.
- Aliasing: the store hands out copies or pointers to records; records are values here.
- A save, a write of the configuration, a rename and a remove are each one step that works or fails; a half-written file is not modelled.
- The store's callback is set, as the local mode sets it, and starts regenerateConfig.
- Integer overflow of counters that count events (generation, failures, attempts).
- The time that reapStrays and SIGTERM take, and which processes they match: any set of processes may be told to stop.
- SIGKILL after a stop that is ignored: told is told, the process may stay alive.
- `os.Stat` on the backup failing for other reasons than its absence.
- Ack detail strings.
- A process killed in the middle of a poll: its files then are some step that `UpgradeRuns.CopyAtEveryStepIff` speaks of, but chains of lives go from poll to poll.
- Accounting.TrafficConserved: for serialised passes only, because the source itself breaks it otherwise (Ledger.PassBeforeReset, Ledger.OutOfOrder; without the Reset, Accounting.TrafficNeverOverCounted).
- Protocol.ExactlyOnce: for a server that looks at the acks of a request before it picks commands for the answer, and lists no id twice in one answer; for any other server PollLaws.PerformedFarApart says what holds.
- Lives.RunEnds: assumes releases that report their own tag, and so do Lives.AckExitLeaves, Lives.LinkIff and the chains.
- `wsConn.Write`: one frame for each call, nothing to prove.
