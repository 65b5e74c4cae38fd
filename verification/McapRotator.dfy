/**
 The rotating MCAP sink: files by name, renamed upwards by one when the current one is full.
 */
module McapRotator {
  import opened FileNames
  import opened Files
  import Words

  type Message = string

  /** What a file holds of the messages given to it; other file contents are of no interest here. */
  type FileMap = map<string, seq<Message>>

  /** rename_file: the target is removed first, whether or not the rename then succeeds. */
  function RenameFile(files: FileMap, ok: bool, src: string, dst: string): FileMap {
    if ok && src in files then (files - {dst, src})[dst := files[src]] else files - {dst}
  }

  /** The renames, from file i - 1 to i down to 0 to 1; a file that is not there is passed over. */
  datatype Shift = Shift(files: FileMap, renames: seq<bool>, failed: bool)

  function ShiftDown(names: seq<string>, files: FileMap, renames: seq<bool>, i: nat): Shift
    requires i < |names|
    decreases i
  {
    if i == 0 then Shift(files, renames, false)
    else if names[i - 1] !in files then ShiftDown(names, files, renames, i - 1)
    else
      var moved := RenameFile(files, Succeeds(renames), names[i - 1], names[i]);
      if Succeeds(renames) then ShiftDown(names, moved, After(renames), i - 1)
      else Shift(moved, After(renames), true)
  }

  /**
   `renames` and `opens` are which of the coming ones succeed; `estimate` is the size the sink takes the
   current file to have; `isOpen` tells that it could be opened.
   */
  datatype State = State(files: FileMap, renames: seq<bool>, opens: seq<bool>, isOpen: bool, estimate: nat)

  /** A new, empty file under the base name. */
  function Create(names: seq<string>, s: State): State
    requires names != []
  {
    var ok := Succeeds(s.opens);
    s.(opens := After(s.opens), isOpen := ok, files := if ok then s.files[names[0] := []] else s.files)
  }

  /** The new file is created also when a rename fails, which then is an exception. */
  function Rotated(names: seq<string>, s: State): (State, bool)
    requires names != []
  {
    var shift := ShiftDown(names, s.files, s.renames, |names| - 1);
    (Create(names, s.(files := shift.files, renames := shift.renames)), shift.failed)
  }

  function Store(names: seq<string>, s: State, m: Message): State
    requires names != [] && (s.isOpen ==> names[0] in s.files)
  {
    if s.isOpen then s.(files := s.files[names[0] := s.files[names[0]] + [m]]) else s
  }

  predicate Sound(names: seq<string>, s: State) {
    names != [] && (s.isOpen ==> names[0] in s.files)
  }

  /** Publish and Write: a failed rotation leaves the message unwritten and the estimate as it was. */
  function Published(names: seq<string>, maxSize: nat, s: State, m: Message): State
    requires Sound(names, s)
  {
    if s.estimate + |m| > maxSize then
      var rotated := Rotated(names, s);
      if rotated.1 then rotated.0 else Store(names, rotated.0, m).(estimate := |m|)
    else Store(names, s, m).(estimate := s.estimate + |m|)
  }

  /** The names of a base name's files, by number. */
  predicate Numbered(fileName: string, names: seq<string>) {
    && 0 < |names| <= Words.WORD
    && forall i {:trigger Indexed(fileName, i)} :: 0 <= i < |names| ==> names[i] == Indexed(fileName, i)
  }

  class DataSinkPBMcapRotator {
    const fileName: string
    const maxFileSize: nat
    const maxFileCount: nat
    var currentFileSize: nat
    var isOpen: bool
    var files: FileMap
    var renames: seq<bool>
    var opens: seq<bool>
    ghost const names: seq<string>

    ghost predicate Valid()
      reads this
    {
      && |names| == maxFileCount + 1 && Numbered(fileName, names)
      && Sound(names, Abs())
    }

    ghost function Abs(): State
      reads this
    {
      State(files, renames, opens, isOpen, currentFileSize)
    }

    /** The first file is always truncated, whatever the caller asks for. */
    constructor (
      fileName: string, maxFileSize: nat, maxFileCount: nat, files: FileMap, renames: seq<bool>, opens: seq<bool>)
      requires maxFileCount < Words.WORD
      ensures Valid() && this.fileName == fileName && this.maxFileSize == maxFileSize
      ensures Abs() == Create(names, State(files, renames, opens, false, 0))
    {
      this.fileName, this.maxFileSize, this.maxFileCount := fileName, maxFileSize, maxFileCount;
      this.files, this.renames, this.opens := files, renames, opens;
      currentFileSize, isOpen := 0, false;
      names := seq(maxFileCount + 1, i requires 0 <= i <= maxFileCount => Indexed(fileName, i));
      new;
      OpenFile();
    }

    method OpenFile()
      requires names != [] && names[0] == fileName
      modifies this`isOpen, this`files, this`opens
      ensures Abs() == Create(names, old(Abs()))
    {
      isOpen := Succeeds(opens);
      opens := After(opens);
      if isOpen { files := files[fileName := []]; }
    }

    method RenameFileTo(src: string, dst: string) returns (ok: bool)
      requires src in files
      modifies this`files, this`renames
      ensures ok == Succeeds(old(renames)) && renames == After(old(renames))
      ensures files == RenameFile(old(files), ok, src, dst)
    {
      ok := Succeeds(renames);
      renames := After(renames);
      var data := files[src];
      files := files - {dst};
      if ok { files := (files - {src})[dst := data]; }
    }

    method Rotate() returns (thrown: bool)
      requires Valid()
      modifies this
      ensures Valid() && (Abs(), thrown) == Rotated(names, old(Abs()))
    {
      thrown := ShiftFiles();
      assert names[0] == Indexed(fileName, 0);
      OpenFile();
    }

    /** The loop over the indexes, down from the highest. */
    method ShiftFiles() returns (failed: bool)
      requires Valid()
      modifies this`files, this`renames
      ensures Shift(files, renames, failed) == ShiftDown(names, old(files), old(renames), maxFileCount)
    {
      var i: nat := maxFileCount;
      while i > 0
        invariant i <= maxFileCount
        invariant ShiftDown(names, files, renames, i) == ShiftDown(names, old(files), old(renames), maxFileCount)
      {
        var source := Indexed(fileName, i - 1);
        assert source == names[i - 1];
        if source in files {
          var target := Indexed(fileName, i);
          assert target == names[i];
          var ok := RenameFileTo(source, target);
          if !ok { return true; }
        }
        i := i - 1;
      }
      failed := false;
    }

    /** Publish, and likewise Write. */
    method Publish(msg: Message) returns (thrown: bool)
      requires Valid()
      modifies this
      ensures Valid() && Abs() == Published(names, maxFileSize, old(Abs()), msg)
      ensures thrown <==> old(currentFileSize) + |msg| > maxFileSize && Rotated(names, old(Abs())).1
    {
      assert names[0] == Indexed(fileName, 0) == fileName;
      var newSize := currentFileSize + |msg|;
      if newSize > maxFileSize {
        thrown := Rotate();
        if thrown { return; }
        newSize := |msg|;
      }
      if isOpen { files := files[fileName := files[fileName] + [msg]]; }
      currentFileSize := newSize;
      thrown := false;
    }
  }
}
