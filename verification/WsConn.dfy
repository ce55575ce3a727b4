/** Message frames read as one byte stream: internal/tunnel/wsconn.go. A frame's reader follows
    the io.Reader contract: it may return less than asked for, and may report the end of the
    frame together with its last bytes or after them. */
module WsConn {
  import opened Machine

  /** A read of one frame, or of the stream: no error, end of the frame, or a broken connection. */
  datatype End = Fine | FrameEnd | Broken

  /** What is left of the current frame. */
  function Left(reader: Option<Bytes>): Bytes {
    if reader.Some? then reader.value else []
  }

  class Conn {
    const sound: bool // the connection does not break before its end
    var frames: seq<Bytes> // still to arrive before the connection ends
    var reader: Option<Bytes> // what is left of the current frame

    constructor (frames: seq<Bytes>, sound: bool)
      ensures Remaining() == Flatten(frames) && this.sound == sound
    {
      this.frames, reader, this.sound := frames, None, sound;
    }

    ghost function Remaining(): Bytes
      reads this
    {
      Left(reader) + Flatten(frames)
    }

    method NextReader() returns (ok: bool)
      requires reader.None?
      modifies this
      ensures ok == (old(frames) != []) && Remaining() == old(Remaining())
      ensures if ok then reader.Some? && frames == old(frames)[1..] else reader.None? && frames == []
    {
      ok := frames != [];
      if ok {
        assert [] + Flatten(frames) == frames[0] + Flatten(frames[1..]);
        reader, frames := Some(frames[0]), frames[1..];
      }
    }

    /** The frame's own Read: any behaviour that io.Reader allows. */
    method ReadFrame(max: nat) returns (data: Bytes, end: End)
      requires reader.Some?
      modifies this`reader
      ensures reader.Some? && |data| <= max && data + reader.value == old(reader.value)
      ensures end == FrameEnd ==> reader.value == []
      ensures max > 0 && data == [] ==> end != Fine
      ensures sound ==> end != Broken
    {
      var rest := reader.value;
      var n: nat :| n <= max && n <= |rest| && (max > 0 && rest != [] ==> n > 0);
      var broken: bool :| sound ==> !broken;
      var early: bool :| true;
      data := rest[..n];
      reader := Some(rest[n..]);
      if broken {
        end := Broken;
      } else if n == |rest| && (early || (n == 0 && max > 0)) {
        end := FrameEnd;
      } else {
        end := Fine;
      }
    }

    /** Read. The bytes returned are the next bytes of the stream, whatever the frames, and
        frames that turn out empty are passed over. The stream ends only when nothing is left, and
        an error comes only from a connection that breaks. */
    method Read(max: nat) returns (data: Bytes, end: End)
      modifies this
      ensures |data| <= max && data + Remaining() == old(Remaining())
      ensures end == FrameEnd ==> data == [] && Remaining() == [] == old(Remaining())
      ensures max > 0 && end == Fine ==> data != []
      ensures sound ==> end != Broken
    {
      while true
        invariant Remaining() == old(Remaining())
        decreases |frames|, if reader.Some? then 1 else 0
      {
        if reader.None? {
          var ok := NextReader();
          if !ok {
            return [], FrameEnd;
          }
        }
        data, end := ReadFrame(max);
        Regroup(data, reader.value, Flatten(frames));
        if end == FrameEnd {
          reader := None;
          if data != [] {
            return data, Fine;
          }
        } else {
          return;
        }
      }
    }

    /** Any number of reads, with buffers of any sizes, up to the first error. On a connection that does
        not break, one more read than there are bytes, none with an empty buffer, brings them all. */
    method ReadAll(sizes: seq<nat>) returns (chunks: seq<Bytes>, end: End)
      modifies this
      ensures Flatten(chunks) + Remaining() == old(Remaining()) && Flatten(chunks) <= old(Remaining())
      ensures end == FrameEnd ==> Flatten(chunks) == old(Remaining())
      ensures end == Fine ==> |chunks| == |sizes|
      ensures sound && |sizes| > |old(Remaining())| && (forall i :: 0 <= i < |sizes| ==> sizes[i] > 0) ==>
                end == FrameEnd && Flatten(chunks) == old(Remaining())
    {
      chunks, end := [], Fine;
      for i := 0 to |sizes|
        invariant end == Fine && |chunks| == i && Flatten(chunks) + Remaining() == old(Remaining())
        invariant (forall k :: 0 <= k < i ==> sizes[k] > 0) ==> |Flatten(chunks)| >= i
      {
        var data;
        data, end := Read(sizes[i]);
        Extended(chunks, data, Remaining());
        chunks := chunks + [data];
        if end != Fine {
          assert end == FrameEnd ==> Flatten(chunks) + [] == Flatten(chunks);
          return;
        }
      }
    }
  }

  lemma {:induction false} FlattenSnoc(frames: seq<Bytes>, last: Bytes)
    ensures Flatten(frames + [last]) == Flatten(frames) + last
  {
    if frames == [] {
      assert [] + [last] == [last] && [last][1..] == [];
      assert last + [] == last == [] + last;
    } else {
      assert (frames + [last])[1..] == frames[1..] + [last];
      FlattenSnoc(frames[1..], last);
      assert frames[0] + (Flatten(frames[1..]) + last) == frames[0] + Flatten(frames[1..]) + last;
    }
  }

  lemma {:induction false} Extended(chunks: seq<Bytes>, data: Bytes, rest: Bytes)
    ensures Flatten(chunks + [data]) + rest == Flatten(chunks) + (data + rest)
  {
    FlattenSnoc(chunks, data);
    Regroup(Flatten(chunks), data, rest);
  }

  lemma Regroup(a: Bytes, b: Bytes, c: Bytes)
    ensures (a + b) + c == a + (b + c)
  {
  }
}
