/**
 The file writer under the MCAP sinks: it keeps writing until all is out or a write fails, and counts
 what it wrote, which is where the MCAP writer takes its file offsets from.
 */
module McapFileWriter {
  import opened Descriptors
  import StdoutSink

  /** How many of `len` bytes one handleWrite gets out: a write of nothing is simply repeated. */
  function Pushed(script: seq<WriteResult>, len: nat): (n: nat)
    ensures n <= len
    decreases |script|
  {
    if len == 0 || script == [] then 0
    else
      var r := Outcome(script, len);
      if r.Failed? then 0
      else if r.Wrote? then r.count + Pushed(script[1..], len - r.count)
      else Pushed(script[1..], len)
  }

  function PushedAfter(script: seq<WriteResult>, len: nat): seq<WriteResult>
    decreases |script|
  {
    if len == 0 || script == [] then script
    else
      var r := Outcome(script, len);
      if r.Failed? then script[1..]
      else if r.Wrote? then PushedAfter(script[1..], len - r.count)
      else PushedAfter(script[1..], len)
  }

  /** How many bytes the device will accept before a write fails. */
  function Offered(script: seq<WriteResult>): nat {
    if script == [] || script[0].Failed? then 0
    else (if script[0].Wrote? then script[0].count else 0) + Offered(script[1..])
  }

  /** Everything is written that the device accepts before a write fails: all of the data, if it accepts that much. */
  lemma {:induction false} PushedIsOffered(script: seq<WriteResult>, len: nat)
    ensures Pushed(script, len) == Min(len, Offered(script))
    decreases |script|
  {
    if len > 0 && script != [] {
      var r := Outcome(script, len);
      if !r.Failed? { PushedIsOffered(script[1..], if r.Wrote? then len - r.count else len); }
    }
  }

  class FileWriterCustom {
    const fd: Descriptor
    var size: nat
    ghost const preceding: nat  // the length of the file when it was opened

    /** size() is the length of the file. */
    ghost predicate Valid()
      reads this, fd
    {
      size == preceding + |fd.written|
    }

    /** A truncated file starts empty; otherwise the offsets continue behind what there is. */
    constructor (fd: Descriptor, length: nat, truncate: bool)
      requires fd.written == ""
      ensures Valid() && this.fd == fd && preceding == (if truncate then 0 else length)
    {
      this.fd, size := fd, if truncate then 0 else length;
      preceding := if truncate then 0 else length;
    }

    /** What is written is the front of the data, and all of it unless a write fails before that. */
    method HandleWrite(data: string)
      requires Valid()
      modifies this`size, fd
      ensures Valid()
      ensures fd.written == old(fd.written) + data[..Min(|data|, Offered(old(fd.script)))]
      ensures fd.script == PushedAfter(old(fd.script), |data|)
    {
      var remaining: nat := |data|;
      PushedIsOffered(fd.script, remaining);
      ghost var total := Pushed(fd.script, remaining);
      ghost var after := PushedAfter(fd.script, remaining);
      ghost var done: nat := 0;
      while remaining > 0
        invariant done + remaining == |data| && Valid()
        invariant done + Pushed(fd.script, remaining) == total && PushedAfter(fd.script, remaining) == after
        invariant fd.written == old(fd.written) + data[..done]
        decreases |fd.script|, remaining
      {
        var r := fd.Write(data[|data| - remaining..]);
        if r.Interrupted? || r.Nothing? { continue; }
        if r.Failed? { break; }
        StdoutSink.WrittenGrows(old(fd.written), data, done, r.count);
        done := done + r.count;
        remaining := remaining - r.count;
        size := size + r.count;
      }
    }
  }
}
