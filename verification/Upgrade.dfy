/** The files of a self-upgrade: internal/enroll/upgrade.go. The checksum is a parameter, and so
    is the outcome of every call that can fail. */
module Upgrade {
  import opened Machine

  /** `version` is what the binary reports once it runs. */
  datatype Binary = Binary(version: string, content: Bytes)

  /** The executable, its backup `.prev`, and the download `.new`. */
  datatype Files = Files(exe: Option<Binary>, prev: Option<Binary>, tmp: Option<Binary>)

  /** downloadTo: fails before it creates the file, fails half way, or brings a file. */
  datatype Download = Unreachable | Broken(part: Binary) | Fetched(whole: Binary)

  datatype Faults = Faults(
    download: Download, hashOk: bool, chmodOk: bool, removePrevOk: bool,
    backupOk: bool, installOk: bool, restoreOk: bool, cleanupOk: bool)

  datatype Prepared =
    | Ready | DownloadFailed | HashFailed | ChecksumMismatch | ChmodFailed
    | BackupFailed | InstallFailed | NoExecutableLeft

  type Checksum = Binary -> string

  // ----- The single calls -----

  function Downloaded(f: Files, d: Download): Files {
    match d
    case Unreachable => f
    case Broken(part) => f.(tmp := Some(part))
    case Fetched(whole) => f.(tmp := Some(whole))
  }

  function RemovedPrev(f: Files, ok: bool): Files {
    if ok then f.(prev := None) else f
  }

  function RemovedTmp(f: Files, ok: bool): Files {
    if ok then f.(tmp := None) else f
  }

  /** rename(exe, prev) replaces what is there. A missing executable is let pass. */
  function BackedUp(f: Files, ok: bool): Files {
    if f.exe.Some? && ok then f.(exe := None, prev := f.exe) else f
  }

  function Installed(f: Files, ok: bool): Files {
    if f.tmp.Some? && ok then f.(exe := f.tmp, tmp := None) else f
  }

  function Restored(f: Files, ok: bool): Files {
    if f.prev.Some? && ok then f.(exe := f.prev, prev := None) else f
  }

  // ----- prepareFrom as the list of states it passes through -----

  function Verified(f: Files, want: string, sha: Checksum, x: Faults): Prepared {
    if !x.download.Fetched? || f.tmp.None? then DownloadFailed
    else if !x.hashOk then HashFailed
    else if sha(f.tmp.value) != want then ChecksumMismatch
    else if !x.chmodOk then ChmodFailed
    else Ready
  }

  /** The states before the deferred removal, and the result. */
  function Steps(f: Files, want: string, sha: Checksum, x: Faults): (t: (seq<Files>, Prepared))
    ensures t.0 != []
  {
    var f1 := Downloaded(f, x.download);
    var v := Verified(f1, want, sha, x);
    if v != Ready then ([f1], v)
    else
      var f2 := RemovedPrev(f1, x.removePrevOk);
      var f3 := BackedUp(f2, x.backupOk);
      if f2.exe.Some? && !x.backupOk then ([f1, f2, f3], BackupFailed)
      else
        var f4 := Installed(f3, x.installOk);
        if x.installOk then ([f1, f2, f3, f4], Ready)
        else
          ([f1, f2, f3, f4, Restored(f4, x.restoreOk)],
           if f4.prev.Some? && x.restoreOk then InstallFailed else NoExecutableLeft)
  }

  function PrepareTrace(f: Files, want: string, sha: Checksum, x: Faults): (seq<Files>, Prepared) {
    var (t, r) := Steps(f, want, sha, x);
    (t + [RemovedTmp(t[|t| - 1], x.cleanupOk)], r)
  }

  function PrepareFiles(f: Files, want: string, sha: Checksum, x: Faults): Files {
    var t := Steps(f, want, sha, x).0;
    RemovedTmp(t[|t| - 1], x.cleanupOk)
  }

  class Disk {
    var exe: Option<Binary>
    var prev: Option<Binary>
    var tmp: Option<Binary>
    ghost var log: seq<Files> // the state after every call that may change it

    ghost function View(): Files
      reads this
    {
      Files(exe, prev, tmp)
    }

    constructor (f: Files)
      ensures View() == f && log == []
    {
      exe, prev, tmp := f.exe, f.prev, f.tmp;
      log := [];
    }

    ghost method Note()
      modifies this`log
      ensures log == old(log) + [View()]
    {
      log := log + [View()];
    }

    method DownloadTo(d: Download) returns (ok: bool)
      modifies this
      ensures View() == Downloaded(old(View()), d) && log == old(log) + [View()] && ok == d.Fetched?
    {
      match d {
        case Unreachable => ok := false;
        case Broken(part) => tmp := Some(part); ok := false;
        case Fetched(whole) => tmp := Some(whole); ok := true;
      }
      Note();
    }

    /** os.Rename; a missing source is its own kind of failure. */
    method RenameExeToPrev(osOk: bool) returns (ok: bool, notExist: bool)
      modifies this
      ensures View() == BackedUp(old(View()), osOk) && log == old(log) + [View()]
      ensures notExist == old(exe).None? && ok == (old(exe).Some? && osOk)
    {
      ok, notExist := exe.Some? && osOk, exe.None?;
      if ok {
        exe, prev := None, exe;
      }
      Note();
    }

    method RenameTmpToExe(osOk: bool) returns (ok: bool)
      modifies this
      ensures View() == Installed(old(View()), osOk) && log == old(log) + [View()]
      ensures ok == (old(tmp).Some? && osOk)
    {
      ok := tmp.Some? && osOk;
      if ok {
        exe, tmp := tmp, None;
      }
      Note();
    }

    method RenamePrevToExe(osOk: bool) returns (ok: bool)
      modifies this
      ensures View() == Restored(old(View()), osOk) && log == old(log) + [View()]
      ensures ok == (old(prev).Some? && osOk)
    {
      ok := prev.Some? && osOk;
      if ok {
        exe, prev := prev, None;
      }
      Note();
    }

    method RemovePrev(osOk: bool)
      modifies this
      ensures View() == RemovedPrev(old(View()), osOk) && log == old(log) + [View()]
    {
      if osOk {
        prev := None;
      }
      Note();
    }

    method RemoveTmp(osOk: bool)
      modifies this
      ensures View() == RemovedTmp(old(View()), osOk) && log == old(log) + [View()]
    {
      if osOk {
        tmp := None;
      }
      Note();
    }

    /** prepareFrom, with its deferred removal of the download. */
    method PrepareFrom(want: string, sha: Checksum, x: Faults) returns (r: Prepared)
      modifies this
      ensures log == old(log) + PrepareTrace(old(View()), want, sha, x).0
      ensures r == PrepareTrace(old(View()), want, sha, x).1
      ensures View() == PrepareFiles(old(View()), want, sha, x)
    {
      r := Replace(want, sha, x);
      RemoveTmp(x.cleanupOk);
    }

    method Replace(want: string, sha: Checksum, x: Faults) returns (r: Prepared)
      modifies this
      ensures var (t, result) := Steps(old(View()), want, sha, x);
              log == old(log) + t && View() == t[|t| - 1] && r == result
    {
      var fetched := DownloadTo(x.download);
      if !fetched {
        return DownloadFailed;
      }
      if !x.hashOk {
        return HashFailed;
      }
      if sha(tmp.value) != want {
        return ChecksumMismatch;
      }
      if !x.chmodOk {
        return ChmodFailed;
      }
      RemovePrev(x.removePrevOk);
      var backedUp, notExist := RenameExeToPrev(x.backupOk);
      if !backedUp && !notExist {
        return BackupFailed;
      }
      var installed := RenameTmpToExe(x.installOk);
      if !installed {
        var restored := RenamePrevToExe(x.restoreOk);
        return if restored then InstallFailed else NoExecutableLeft;
      }
      r := Ready;
    }

    /** Rollback. */
    method Rollback(osOk: bool) returns (ok: bool)
      modifies this
      ensures View() == Restored(old(View()), osOk) && ok == (old(prev).Some? && osOk)
    {
      if prev.None? {
        return false;
      }
      ok := RenamePrevToExe(osOk);
    }
  }

  /** At every step, wherever a crash stops it, the old binary is the executable or its backup. */
  lemma OldNeverLost(f: Files, want: string, sha: Checksum, x: Faults, k: nat)
    requires f.exe.Some? && k < |PrepareTrace(f, want, sha, x).0|
    ensures var s := PrepareTrace(f, want, sha, x).0[k]; s.exe == f.exe || s.prev == f.exe
  {
  }

  /** How an upgrade ends. Success needs every call that matters to succeed and the checksum to
      match, and leaves the verified download in place with the old binary behind it; any other
      end leaves the old binary in place, except the one that is reported as having lost it. */
  lemma PrepareOutcome(f: Files, want: string, sha: Checksum, x: Faults)
    requires f.exe.Some?
    ensures var (t, r) := PrepareTrace(f, want, sha, x);
            var end := PrepareFiles(f, want, sha, x);
            && (r.Ready? <==> x.download.Fetched? && x.hashOk && sha(x.download.whole) == want && x.chmodOk
                              && x.backupOk && x.installOk)
            && (r.Ready? ==> end == Files(Some(x.download.whole), f.exe, None))
            && (r.NoExecutableLeft? ==> end.exe == None && end.prev == f.exe)
            && (!r.Ready? && !r.NoExecutableLeft? ==> end.exe == f.exe && (end.prev == f.prev || end.prev == None))
            && (r.NoExecutableLeft? ==> !x.installOk && !x.restoreOk)
  {
  }

  /** The file that serves as the backup while a new executable is put in place. */
  function BackupInUse(f: Files, x: Faults): Option<Binary> {
    if f.exe.Some? then f.exe else RemovedPrev(f, x.removePrevOk).prev
  }

  /** The files after any attempt, also one that finds no executable to begin with. */
  lemma PrepareLeaves(f: Files, want: string, sha: Checksum, x: Faults)
    ensures var r := PrepareTrace(f, want, sha, x).1;
            var end := PrepareFiles(f, want, sha, x);
            match r
            case Ready => end == Files(Some(x.download.whole), BackupInUse(f, x), None) && sha(x.download.whole) == want
            case InstallFailed => end.exe == BackupInUse(f, x) && end.exe.Some? && end.prev == None
            case NoExecutableLeft => end.exe == None && end.prev == BackupInUse(f, x)
            case BackupFailed => f.exe.Some? && end.exe == f.exe && end.prev == RemovedPrev(f, x.removePrevOk).prev
            case _ => end.exe == f.exe && end.prev == f.prev
    ensures PrepareTrace(f, want, sha, x).1.Ready? ==> x.download.Fetched?
  {
  }

  /** Which of its results an attempt reports: the first step that fails decides. A missing
      executable needs no backup; what can be put back after a failed install is the backup in use. */
  lemma PrepareResultIs(f: Files, want: string, sha: Checksum, x: Faults)
    ensures var r := PrepareTrace(f, want, sha, x).1;
            var good := x.download.Fetched? && x.hashOk && sha(x.download.whole) == want && x.chmodOk;
            var inPlace := good && (x.backupOk || f.exe.None?);
            && (r.DownloadFailed? <==> !x.download.Fetched?)
            && (r.HashFailed? <==> x.download.Fetched? && !x.hashOk)
            && (r.ChecksumMismatch? <==> x.download.Fetched? && x.hashOk && sha(x.download.whole) != want)
            && (r.ChmodFailed? <==> x.download.Fetched? && x.hashOk && sha(x.download.whole) == want && !x.chmodOk)
            && (r.BackupFailed? <==> good && !inPlace)
            && (r.Ready? <==> inPlace && x.installOk)
            && (r.InstallFailed? <==> inPlace && !x.installOk && x.restoreOk && BackupInUse(f, x).Some?)
            && (r.NoExecutableLeft? <==> inPlace && !x.installOk && !(x.restoreOk && BackupInUse(f, x).Some?))
    ensures x.cleanupOk ==> PrepareFiles(f, want, sha, x).tmp == None
    ensures !x.cleanupOk ==>
              PrepareFiles(f, want, sha, x).tmp
              == match x.download
                 case Unreachable => f.tmp
                 case Broken(part) => Some(part)
                 case Fetched(whole) => if PrepareTrace(f, want, sha, x).1.Ready? then None else Some(whole)
  {
  }

  /** Rolling back right after a successful upgrade undoes it. */
  lemma RollbackUndoes(f: Files, want: string, sha: Checksum, x: Faults)
    requires f.exe.Some? && PrepareTrace(f, want, sha, x).1.Ready?
    ensures Restored(PrepareFiles(f, want, sha, x), true) == Files(f.exe, None, None)
  {
  }

  /** The backup is one deep: a second upgrade before a restart leaves no copy of the binary
      that is running, unless it is the same file again. */
  lemma SecondUpgradeForgetsRunning(f: Files, want1: string, x1: Faults, want2: string, x2: Faults, sha: Checksum)
    requires f.exe.Some?
    requires PrepareTrace(f, want1, sha, x1).1.Ready?
    requires PrepareTrace(PrepareFiles(f, want1, sha, x1), want2, sha, x2).1.Ready?
    ensures var end := PrepareFiles(PrepareFiles(f, want1, sha, x1), want2, sha, x2);
            && (end.exe == f.exe || end.prev == f.exe
                <==> f.exe == Some(x1.download.whole) || f.exe == Some(x2.download.whole))
  {
  }
}
