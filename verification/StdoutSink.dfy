/**
 The stdout sink: a fixed buffer in front of a non-blocking descriptor, which makes room for new
 text by writing and, when that does not help, by dropping the oldest bytes.
 */
module StdoutSink {
  import opened Descriptors

  const INTERNAL_BUF_SIZE: nat := 65536

  /** The retained text, what the descriptor will do, and what it has accepted. */
  datatype Sink = Sink(buffered: string, script: seq<WriteResult>, written: string)

  /** How many of `len` bytes the writes of one flush get rid of, and what is left of the script. */
  function Sent(script: seq<WriteResult>, len: nat): (n: nat)
    ensures n <= len
    decreases |script|
  {
    if len == 0 || script == [] then 0
    else
      var r := Outcome(script, len);
      if r.Interrupted? then Sent(script[1..], len)
      else if r.Stops() then 0
      else r.count + Sent(script[1..], len - r.count)
  }

  /** How many bytes the device accepts before a write fails or takes nothing; an interrupted write is repeated. */
  function Accepts(script: seq<WriteResult>): nat {
    if script == [] then 0
    else if script[0].Interrupted? then Accepts(script[1..])
    else if script[0].Wrote? && script[0].count > 0 then script[0].count + Accepts(script[1..])
    else 0
  }

  /** A flush gets rid of all that the device accepts. */
  lemma {:induction false} SentIsAccepted(script: seq<WriteResult>, len: nat)
    ensures Sent(script, len) == Min(len, Accepts(script))
    decreases |script|
  {
    if len > 0 && script != [] {
      var r := Outcome(script, len);
      if r.Interrupted? {
        SentIsAccepted(script[1..], len);
      } else if !r.Stops() {
        SentIsAccepted(script[1..], len - r.count);
      }
    }
  }

  function ScriptAfter(script: seq<WriteResult>, len: nat): seq<WriteResult>
    decreases |script|
  {
    if len == 0 || script == [] then script
    else
      var r := Outcome(script, len);
      if r.Interrupted? then ScriptAfter(script[1..], len)
      else if r.Stops() then script[1..]
      else ScriptAfter(script[1..], len - r.count)
  }

  /** What one write contributes to a flush. */
  lemma WriteStep(script: seq<WriteResult>, len: nat)
    requires len > 0
    ensures var r := Outcome(script, len);
            var n, after := Sent(script, len), ScriptAfter(script, len);
            if r.Interrupted? then
              && |Rest(script)| < |script|
              && n == Sent(Rest(script), len) && after == ScriptAfter(Rest(script), len)
            else if r.Stops() then
              n == 0 && after == Rest(script)
            else
              && |Rest(script)| < |script| && r.count <= len
              && n == r.count + Sent(Rest(script), len - r.count) && after == ScriptAfter(Rest(script), len - r.count)
  {
  }

  lemma PrefixGrows(text: string, done: nat, more: nat)
    requires done + more <= |text|
    ensures text[..done] + text[done..][..more] == text[..done + more]
  {
  }

  lemma WrittenGrows(was: string, text: string, done: nat, more: nat)
    requires done + more <= |text|
    ensures was + text[..done] + text[done..][..more] == was + text[..done + more]
  {
    PrefixGrows(text, done, more);
    assert was + text[..done] + text[done..][..more] == was + (text[..done] + text[done..][..more]);
  }

  function Flush(s: Sink): Sink {
    var n := Sent(s.script, |s.buffered|);
    Sink(s.buffered[n..], ScriptAfter(s.script, |s.buffered|), s.written + s.buffered[..n])
  }

  /** The part of new data that is kept: its tail, one byte shorter than the buffer, if it is too long. */
  function Kept(data: string): (k: string)
    ensures |k| == if |data| >= INTERNAL_BUF_SIZE then INTERNAL_BUF_SIZE - 1 else |data|
  {
    if |data| >= INTERNAL_BUF_SIZE then data[|data| - (INTERNAL_BUF_SIZE - 1)..] else data
  }

  /** The state in which there is room for `len` more bytes. */
  function MakeRoom(s: Sink, len: nat): (r: Sink)
    requires len <= INTERNAL_BUF_SIZE
    ensures |r.buffered| + len <= INTERNAL_BUF_SIZE
  {
    if |s.buffered| + len <= INTERNAL_BUF_SIZE then s
    else
      var f := Flush(s);
      if |f.buffered| + len <= INTERNAL_BUF_SIZE then f
      else f.(buffered := f.buffered[|f.buffered| + len - INTERNAL_BUF_SIZE..])
  }

  function Append(s: Sink, data: string): (r: Sink)
    ensures |s.buffered| <= INTERNAL_BUF_SIZE ==> |r.buffered| <= INTERNAL_BUF_SIZE
  {
    if data == "" then s
    else
      var room := MakeRoom(s, |Kept(data)|);
      room.(buffered := room.buffered + Kept(data))
  }

  class ColorStdoutSink {
    const buf: array<char>
    var pos: nat
    const fd: Descriptor

    ghost predicate Valid()
      reads this, buf, fd
    {
      buf.Length == INTERNAL_BUF_SIZE && pos <= INTERNAL_BUF_SIZE
    }

    ghost function Abs(): Sink
      requires Valid()
      reads this, buf, fd
    {
      Sink(buf[..pos], fd.script, fd.written)
    }

    constructor (fd: Descriptor)
      ensures Valid() && fresh(buf) && this.fd == fd
      ensures Abs() == Sink("", fd.script, fd.written)
    {
      this.fd := fd;
      buf := new char[INTERNAL_BUF_SIZE](i => ' ');
      pos := 0;
    }

    method FlushBuffer()
      requires Valid()
      modifies this`pos, buf, fd
      ensures Valid() && Abs() == Flush(old(Abs()))
    {
      if pos == 0 { return; }
      ghost var text := buf[..pos];
      var written := WriteOut();
      assert buf[written..pos] == text[written..];
      Slide(written);
    }

    /** The write loop: until all is written, a write fails, or the device takes nothing. */
    method WriteOut() returns (written: nat)
      requires Valid()
      modifies fd
      ensures written == Sent(old(fd.script), pos) <= pos
      ensures fd.script == ScriptAfter(old(fd.script), pos)
      ensures fd.written == old(fd.written) + buf[..written]
    {
      written := 0;
      ghost var text := buf[..pos];
      ghost var left: nat := pos;
      ghost var total := Sent(fd.script, left);
      ghost var after := ScriptAfter(fd.script, left);
      while written < pos
        invariant written + left == pos && text == buf[..pos]
        invariant written + Sent(fd.script, left) == total && ScriptAfter(fd.script, left) == after
        invariant fd.written == old(fd.written) + text[..written]
        decreases |fd.script|, left
      {
        WriteStep(fd.script, left);
        var r := WriteSome(written, text);
        if r.Interrupted? { continue; }
        if r.Stops() { break; }
        WrittenGrows(old(fd.written), text, written, r.count);
        written := written + r.count;
        left := left - r.count;
      }
    }

    method WriteSome(done: nat, ghost text: string) returns (r: WriteResult)
      requires Valid() && done < pos && text == buf[..pos]
      modifies fd
      ensures r == Outcome(old(fd.script), pos - done) && fd.script == Rest(old(fd.script))
      ensures fd.written == old(fd.written) + (if r.Wrote? then text[done..][..r.count] else "")
    {
      assert buf[done..pos] == text[done..];
      r := fd.Write(buf[done..pos]);
    }

    /** memmove of what is left to the front. */
    method Slide(start: nat)
      requires Valid() && start <= pos
      modifies this`pos, buf
      ensures Valid() && buf[..pos] == old(buf[start..pos]) && pos == old(pos) - start
    {
      ghost var text := buf[..pos];
      var remaining := pos - start;
      var i := 0;
      while i < remaining
        invariant i <= remaining && pos == old(pos)
        invariant forall k :: 0 <= k < i ==> buf[k] == text[start + k]
        invariant forall k :: i <= k < pos ==> buf[k] == text[k]
      {
        buf[i] := buf[start + i];
        i := i + 1;
      }
      pos := remaining;
    }

    method AppendData(data: string)
      requires Valid()
      modifies this`pos, buf, fd
      ensures Valid() && Abs() == Append(old(Abs()), data)
    {
      if |data| == 0 { return; }
      var kept := data;
      if |data| >= INTERNAL_BUF_SIZE {
        kept := data[|data| - (INTERNAL_BUF_SIZE - 1)..];
      }
      ReserveRoom(|kept|);
      Copy(kept);
    }

    /** Flushing when the new data does not fit, and sliding out the oldest bytes when it still does not. */
    method ReserveRoom(len: nat)
      requires Valid() && len <= INTERNAL_BUF_SIZE
      modifies this`pos, buf, fd
      ensures Valid() && Abs() == MakeRoom(old(Abs()), len)
    {
      if pos + len > INTERNAL_BUF_SIZE {
        FlushBuffer();
        if pos + len > INTERNAL_BUF_SIZE {
          ghost var text := buf[..pos];
          var discard := pos + len - INTERNAL_BUF_SIZE;
          assert buf[discard..pos] == text[discard..];
          Slide(discard);
        }
      }
    }

    /** memcpy of the data behind the retained bytes. */
    method Copy(data: string)
      requires Valid() && pos + |data| <= INTERNAL_BUF_SIZE
      modifies this`pos, buf
      ensures Valid() && buf[..pos] == old(buf[..pos]) + data
    {
      ghost var text := buf[..pos];
      var i := 0;
      while i < |data|
        invariant i <= |data| && pos == old(pos)
        invariant buf[..pos + i] == text + data[..i]
      {
        buf[pos + i] := data[i];
        i := i + 1;
      }
      pos := pos + |data|;
    }
  }
}
