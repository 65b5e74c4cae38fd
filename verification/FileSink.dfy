/**
 The file sink: a buffer in front of a log file, and the chain of renamed files behind it.
 */
module FileSink {
  import opened Descriptors
  import opened Files
  import opened Numerals
  import StdoutSink

  const INTERNAL_BUF_SIZE: nat := 65536

  /** File 0 is the log file itself; file i its i-th backup. */
  function Path(base: string, i: nat): string {
    if i == 0 then base else base + "." + Digits(i)
  }

  // ---- the disk ----

  type FileMap = map<string, string>

  function Moved(files: FileMap, src: string, dst: string): FileMap {
    if src in files then (files - {src})[dst := files[src]] else files
  }

  function Renamed(files: FileMap, renames: seq<bool>, src: string, dst: string): FileMap {
    if Succeeds(renames) then Moved(files, src, dst) else files
  }

  function Opened(files: FileMap, name: string, truncate: bool): FileMap {
    if truncate || name !in files then files[name := ""] else files
  }

  /** Files by name, and what the coming writes, opens and renames will do. */
  class Disk {
    var files: FileMap
    var script: seq<WriteResult>
    var opens: seq<bool>
    var renames: seq<bool>

    constructor (files: FileMap, script: seq<WriteResult>, opens: seq<bool>, renames: seq<bool>)
      ensures this.files == files && this.script == script && this.opens == opens && this.renames == renames
    {
      this.files, this.script, this.opens, this.renames := files, script, opens, renames;
    }

    /** ::write to an open file, which every write here extends at its end. */
    method Write(name: string, data: string) returns (r: WriteResult)
      requires name in files
      modifies `files, `script
      ensures r == Outcome(old(script), |data|) && script == Rest(old(script))
      ensures files == if r.Wrote? && r.count > 0 then old(files)[name := old(files)[name] + data[..r.count]]
                       else old(files)
    {
      if script == [] { return Failed; }
      r := script[0];
      script := script[1..];
      if r.Wrote? {
        r := Wrote(Min(r.count, |data|));
        if r.count > 0 { files := files[name := files[name] + data[..r.count]]; }
      }
    }

    method Unlink(name: string)
      modifies `files
      ensures files == old(files) - {name}
    {
      files := files - {name};
    }

    method Rename(src: string, dst: string)
      modifies `files, `renames
      ensures files == Renamed(old(files), old(renames), src, dst) && renames == After(old(renames))
    {
      if Succeeds(renames) && src in files {
        var text := files[src];
        files := files - {src};
        files := files[dst := text];
      }
      renames := After(renames);
    }

    method Open(name: string, truncate: bool) returns (ok: bool)
      modifies `files, `opens
      ensures ok == Succeeds(old(opens)) && opens == After(old(opens))
      ensures files == if ok then Opened(old(files), name, truncate) else old(files)
    {
      ok := Succeeds(opens);
      opens := After(opens);
      if ok && (truncate || name !in files) { files := files[name := ""]; }
    }
  }

  // ---- the sink on values ----

  datatype Config = Config(base: string, maxSize: nat, maxFiles: nat)

  datatype State = State(
    isOpen: bool, buffered: string, size: nat,
    files: FileMap, script: seq<WriteResult>, opens: seq<bool>, renames: seq<bool>)

  /** The counter is the length of the log file, whatever the writes, opens and renames did. */
  ghost predicate Sound(c: Config, s: State) {
    && c.maxFiles >= 1
    && |s.buffered| <= INTERNAL_BUF_SIZE
    && (s.isOpen ==> c.base in s.files && s.size == |s.files[c.base]|)
  }

  /** FlushBuffer: what cannot be written is discarded. */
  function Flush(c: Config, s: State): State
    requires s.isOpen ==> c.base in s.files
  {
    if !s.isOpen || s.buffered == "" then s
    else
      var n := StdoutSink.Sent(s.script, |s.buffered|);
      s.(buffered := "", size := s.size + n,
         files := s.files[c.base := s.files[c.base] + s.buffered[..n]],
         script := StdoutSink.ScriptAfter(s.script, |s.buffered|))
  }

  /** How much of a long message the direct write loop gets out; a stale EINTR makes it try again. */
  function DirectSent(script: seq<WriteResult>, len: nat): (n: nat)
    ensures n <= len
    decreases |script|
  {
    if len == 0 || script == [] then 0
    else
      var r := Outcome(script, len);
      if r.Interrupted? || (r.Nothing? && r.stale) then DirectSent(script[1..], len)
      else if r.Stops() then 0
      else r.count + DirectSent(script[1..], len - r.count)
  }

  /** How many bytes the device accepts before a write fails for another reason than EINTR. */
  function DirectAccepts(script: seq<WriteResult>): nat {
    if script == [] then 0
    else if script[0].Interrupted? || (script[0].Nothing? && script[0].stale) then DirectAccepts(script[1..])
    else if script[0].Wrote? && script[0].count > 0 then script[0].count + DirectAccepts(script[1..])
    else 0
  }

  lemma {:induction false} DirectSentIsAccepted(script: seq<WriteResult>, len: nat)
    ensures DirectSent(script, len) == Min(len, DirectAccepts(script))
    decreases |script|
  {
    if len > 0 && script != [] {
      var r := Outcome(script, len);
      if r.Interrupted? || (r.Nothing? && r.stale) {
        DirectSentIsAccepted(script[1..], len);
      } else if !r.Stops() {
        DirectSentIsAccepted(script[1..], len - r.count);
      }
    }
  }

  function DirectAfter(script: seq<WriteResult>, len: nat): seq<WriteResult>
    decreases |script|
  {
    if len == 0 || script == [] then script
    else
      var r := Outcome(script, len);
      if r.Interrupted? || (r.Nothing? && r.stale) then DirectAfter(script[1..], len)
      else if r.Stops() then script[1..]
      else DirectAfter(script[1..], len - r.count)
  }

  /** Backup i moves to i + 1; the last one is unlinked first. */
  function ShiftOne(c: Config, files: FileMap, renames: seq<bool>, i: nat): FileMap {
    var src, dst := Path(c.base, i), Path(c.base, i + 1);
    Renamed(if i == c.maxFiles - 1 then files - {dst} else files, renames, src, dst)
  }

  /** The same for i, i - 1, ... 1. */
  function ShiftFrom(c: Config, files: FileMap, renames: seq<bool>, i: nat): (FileMap, seq<bool>)
    decreases i
  {
    if i == 0 then (files, renames)
    else ShiftFrom(c, ShiftOne(c, files, renames, i), After(renames), i - 1)
  }

  function Shifted(c: Config, files: FileMap, renames: seq<bool>): (FileMap, seq<bool>)
    requires c.maxFiles >= 1
  {
    var moved := ShiftFrom(c, files, renames, c.maxFiles - 1).0;
    var left := ShiftFrom(c, files, renames, c.maxFiles - 1).1;
    (Renamed(moved, left, c.base, Path(c.base, 1)), After(left))
  }

  function Rotate(c: Config, s: State): State
    requires Sound(c, s)
  {
    var f := Flush(c, s);
    Reopen(c, f.(files := Shifted(c, f.files, f.renames).0, renames := Shifted(c, f.files, f.renames).1))
  }

  /** OpenFile(true). */
  function Reopen(c: Config, s: State): State {
    var ok := Succeeds(s.opens);
    s.(isOpen := ok, size := 0, opens := After(s.opens),
       files := if ok then Opened(s.files, c.base, true) else s.files)
  }

  predicate NeedsRotation(c: Config, s: State, msg: string) {
    c.maxSize > 0 && s.size + |s.buffered| + |msg| > c.maxSize
  }

  /** sink_it_ once the message is formatted. */
  function Log(c: Config, s: State, msg: string): State
    requires Sound(c, s)
  {
    if !s.isOpen then s
    else
      var r := if NeedsRotation(c, s, msg) then Rotate(c, s) else s;
      Store(c, r, msg)
  }

  function Store(c: Config, r: State, msg: string): State
    requires r.isOpen ==> c.base in r.files
  {
    if |msg| > INTERNAL_BUF_SIZE then
      var f := Flush(c, r);
      if !f.isOpen then f else WriteThrough(c, f, msg)
    else
      var f := if |r.buffered| + |msg| > INTERNAL_BUF_SIZE then Flush(c, r) else r;
      f.(buffered := f.buffered + msg)
  }

  function WriteThrough(c: Config, f: State, msg: string): State
    requires c.base in f.files
  {
    var n := DirectSent(f.script, |msg|);
    f.(size := f.size + n, script := DirectAfter(f.script, |msg|),
       files := f.files[c.base := f.files[c.base] + msg[..n]])
  }

  /** What one write contributes to the direct write loop. */
  lemma DirectStep(script: seq<WriteResult>, len: nat)
    requires len > 0
    ensures var r := Outcome(script, len);
            var n, after := DirectSent(script, len), DirectAfter(script, len);
            if script != [] && (r.Interrupted? || (r.Nothing? && r.stale)) then
              && |Rest(script)| < |script|
              && n == DirectSent(Rest(script), len) && after == DirectAfter(Rest(script), len)
            else if r.Stops() then
              n == 0 && after == Rest(script)
            else
              && |Rest(script)| < |script| && r.count <= len
              && n == r.count + DirectSent(Rest(script), len - r.count)
              && after == DirectAfter(Rest(script), len - r.count)
  {
  }

  class BasicFileSink {
    const config: Config
    const disk: Disk
    const buffer: array<char>
    var isOpen: bool
    var bufPos: nat
    var currentSize: nat

    ghost predicate Valid()
      reads this, buffer, disk
    {
      buffer.Length == INTERNAL_BUF_SIZE && bufPos <= INTERNAL_BUF_SIZE && Sound(config, Abs())
    }

    ghost function Abs(): State
      requires bufPos <= buffer.Length
      reads this, buffer, disk
    {
      State(isOpen, buffer[..bufPos], currentSize, disk.files, disk.script, disk.opens, disk.renames)
    }

    /** A maximum of 0 files means 1; the file is opened for appending, or truncated. */
    constructor (disk: Disk, base: string, maxSize: nat, maxFiles: nat, truncate: bool)
      modifies disk
      ensures Valid() && fresh(buffer) && this.disk == disk
      ensures config == Config(base, maxSize, if maxFiles == 0 then 1 else maxFiles)
      ensures bufPos == 0 && isOpen == Succeeds(old(disk.opens))
      ensures disk.files == if isOpen then Opened(old(disk.files), base, truncate) else old(disk.files)
      ensures disk.script == old(disk.script) && disk.renames == old(disk.renames)
    {
      this.disk := disk;
      config := Config(base, maxSize, if maxFiles == 0 then 1 else maxFiles);
      buffer := new char[INTERNAL_BUF_SIZE](i => ' ');
      isOpen, bufPos, currentSize := false, 0, 0;
      new;
      OpenFile(truncate);
    }

    method OpenFile(truncate: bool)
      modifies this`isOpen, this`currentSize, disk`files, disk`opens
      ensures isOpen == Succeeds(old(disk.opens)) && disk.opens == After(old(disk.opens))
      ensures disk.files == if isOpen then Opened(old(disk.files), config.base, truncate) else old(disk.files)
      ensures currentSize == if truncate || config.base !in old(disk.files) then 0 else |old(disk.files)[config.base]|
    {
      if truncate {
        currentSize := 0;
      } else if config.base in disk.files {
        currentSize := |disk.files[config.base]|;
      } else {
        currentSize := 0;
      }
      isOpen := disk.Open(config.base, truncate);
    }

    method FlushBuffer()
      requires Valid()
      modifies this`bufPos, this`currentSize, disk`files, disk`script
      ensures Valid() && Abs() == Flush(config, old(Abs()))
    {
      if !isOpen || bufPos == 0 { return; }
      ghost var text := buffer[..bufPos];
      var totalWritten := WriteOut();
      assert text[..totalWritten] == buffer[..totalWritten];
      if totalWritten > 0 { currentSize := currentSize + totalWritten; }
      bufPos := 0;
      assert buffer[..0] == "";
    }

    method WriteOut() returns (total: nat)
      requires Valid() && isOpen
      modifies disk`files, disk`script
      ensures total == StdoutSink.Sent(old(disk.script), bufPos) <= bufPos
      ensures disk.script == StdoutSink.ScriptAfter(old(disk.script), bufPos)
      ensures disk.files == old(disk.files)[config.base := old(disk.files)[config.base] + buffer[..total]]
    {
      total := 0;
      ghost var text := buffer[..bufPos];
      ghost var left: nat := bufPos;
      ghost var sent := StdoutSink.Sent(disk.script, left);
      ghost var after := StdoutSink.ScriptAfter(disk.script, left);
      ghost var was := disk.files;
      AppendNothing(was, config.base);
      while total < bufPos
        invariant total + left == bufPos && text == buffer[..bufPos]
        invariant total + StdoutSink.Sent(disk.script, left) == sent
        invariant StdoutSink.ScriptAfter(disk.script, left) == after
        invariant disk.files == was[config.base := was[config.base] + text[..total]]
        decreases |disk.script|, left
      {
        StdoutSink.WriteStep(disk.script, left);
        var r := WriteRest(was, text, total);
        if r.Interrupted? { continue; }
        if r.Stops() { break; }
        total := total + r.count;
        left := left - r.count;
      }
      assert text[..total] == buffer[..total];
    }

    /** One write of what is left of the text, whose first `done` characters are behind `was`. */
    method WriteMore(data: string, ghost was: FileMap, ghost text: string, ghost done: nat) returns (r: WriteResult)
      requires config.base in was && done <= |text| && data == text[done..]
      requires disk.files == was[config.base := was[config.base] + text[..done]]
      modifies disk`files, disk`script
      ensures r == Outcome(old(disk.script), |text| - done) && disk.script == Rest(old(disk.script))
      ensures r.Wrote? ==> r.count <= |text| - done
      ensures disk.files == was[config.base := was[config.base] + text[..if r.Wrote? then done + r.count else done]]
    {
      r := disk.Write(config.base, data);
      if r.Wrote? { AppendMore(was, config.base, text, done, r.count); }
    }

    method WriteRest(ghost was: FileMap, ghost text: string, done: nat) returns (r: WriteResult)
      requires config.base in was && done <= bufPos <= buffer.Length && text == buffer[..bufPos]
      requires disk.files == was[config.base := was[config.base] + text[..done]]
      modifies disk`files, disk`script
      ensures r == Outcome(old(disk.script), bufPos - done) && disk.script == Rest(old(disk.script))
      ensures r.Wrote? ==> r.count <= bufPos - done
      ensures disk.files == was[config.base := was[config.base] + text[..if r.Wrote? then done + r.count else done]]
    {
      assert buffer[done..bufPos] == text[done..];
      r := WriteMore(buffer[done..bufPos], was, text, done);
    }

    method RotateFiles()
      requires Valid()
      modifies this, disk
      ensures Valid() && Abs() == Rotate(config, old(Abs()))
    {
      FlushBuffer();
      isOpen := false;
      ShiftFiles();
      OpenFile(true);
    }

    method MoveBackup(i: nat)
      modifies disk`files, disk`renames
      ensures disk.files == ShiftOne(config, old(disk.files), old(disk.renames), i)
      ensures disk.renames == After(old(disk.renames))
    {
      var src, dst := Path(config.base, i), Path(config.base, i + 1);
      if i == config.maxFiles - 1 { disk.Unlink(dst); }
      disk.Rename(src, dst);
    }

    method ShiftFiles()
      requires config.maxFiles >= 1
      modifies disk`files, disk`renames
      ensures (disk.files, disk.renames) == Shifted(config, old(disk.files), old(disk.renames))
    {
      ShiftBackups();
      disk.Rename(config.base, Path(config.base, 1));
    }

    method ShiftBackups()
      requires config.maxFiles >= 1
      modifies disk`files, disk`renames
      ensures (disk.files, disk.renames) == ShiftFrom(config, old(disk.files), old(disk.renames), config.maxFiles - 1)
    {
      var i: nat := config.maxFiles - 1;
      while i > 0
        invariant ShiftFrom(config, disk.files, disk.renames, i)
               == ShiftFrom(config, old(disk.files), old(disk.renames), config.maxFiles - 1)
      {
        MoveBackup(i);
        i := i - 1;
      }
    }

    /** sink_it_ for a formatted message. */
    method SinkIt(msg: string)
      requires Valid()
      modifies this, buffer, disk
      ensures Valid() && Abs() == Log(config, old(Abs()), msg)
    {
      if !isOpen { return; }
      if config.maxSize > 0 && currentSize + bufPos + |msg| > config.maxSize {
        RotateFiles();
      }
      if |msg| > INTERNAL_BUF_SIZE {
        FlushBuffer();
        WriteDirectly(msg);
        return;
      }
      if bufPos + |msg| > INTERNAL_BUF_SIZE {
        FlushBuffer();
      }
      Copy(msg);
    }

    /** A message longer than the buffer; with no open file every write fails. */
    method WriteDirectly(msg: string)
      requires Valid() && |msg| > 0
      modifies this`currentSize, disk`files, disk`script
      ensures Valid()
      ensures Abs() == if isOpen then WriteThrough(config, old(Abs()), msg) else old(Abs())
    {
      if !isOpen { return; }
      var total := WriteMessage(msg);
      currentSize := currentSize + total;
    }

    method WriteMessage(msg: string) returns (total: nat)
      requires config.base in disk.files
      modifies disk`files, disk`script
      ensures total == DirectSent(old(disk.script), |msg|) <= |msg|
      ensures disk.script == DirectAfter(old(disk.script), |msg|)
      ensures disk.files == old(disk.files)[config.base := old(disk.files)[config.base] + msg[..total]]
    {
      total := 0;
      ghost var left: nat := |msg|;
      ghost var sent := DirectSent(disk.script, left);
      ghost var after := DirectAfter(disk.script, left);
      ghost var was := disk.files;
      AppendNothing(was, config.base);
      while total < |msg|
        invariant total + left == |msg|
        invariant total + DirectSent(disk.script, left) == sent && DirectAfter(disk.script, left) == after
        invariant disk.files == was[config.base := was[config.base] + msg[..total]]
        decreases |disk.script|, left
      {
        DirectStep(disk.script, left);
        var r := WriteMore(msg[total..], was, msg, total);
        if r.Interrupted? || (r.Nothing? && r.stale) { continue; }
        if r.Stops() { break; }
        total := total + r.count;
        left := left - r.count;
      }
    }

    method Copy(msg: string)
      requires Valid() && bufPos + |msg| <= INTERNAL_BUF_SIZE
      modifies this`bufPos, buffer
      ensures bufPos == old(bufPos) + |msg| && buffer[..bufPos] == old(buffer[..bufPos]) + msg
    {
      ghost var text := buffer[..bufPos];
      var i := 0;
      while i < |msg|
        invariant i <= |msg| && bufPos == old(bufPos)
        invariant buffer[..bufPos + i] == text + msg[..i]
      {
        buffer[bufPos + i] := msg[i];
        i := i + 1;
      }
      bufPos := bufPos + |msg|;
    }
  }

  lemma AppendNothing(files: FileMap, name: string)
    requires name in files
    ensures files[name := files[name] + ""] == files
  {
    assert files[name] + "" == files[name];
  }

  lemma AppendMore(files: FileMap, name: string, text: string, done: nat, more: nat)
    requires name in files && done + more <= |text|
    ensures var now := files[name := files[name] + text[..done]];
            now[name := now[name] + text[done..][..more]] == files[name := files[name] + text[..done + more]]
  {
    StdoutSink.PrefixGrows(text, done, more);
    assert (files[name] + text[..done]) + text[done..][..more] == files[name] + (text[..done] + text[done..][..more]);
  }
}
