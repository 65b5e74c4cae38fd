/**
 What the chain of log files holds, over whole runs and for any behaviour of the disk.
 */
module FileSinkHistory {
  import opened Descriptors
  import opened Numerals
  import opened FileSink
  import opened Files
  import opened Seqs
  import StdoutSink

  // ---- rotation ----

  lemma PathInjective(base: string, i: nat, j: nat)
    requires Path(base, i) == Path(base, j)
    ensures i == j
  {
    if i != 0 && j != 0 {
      assert Path(base, i)[|base| + 1..] == Digits(i) && Path(base, j)[|base| + 1..] == Digits(j);
      DigitsInjective(i, j);
    }
  }

  /** A backup's name is the log file's, a dot and its number; the log file itself has no number. */
  lemma PathStands(base: string, i: nat)
    ensures Path(base, 0) == base
    ensures 0 < i ==> Path(base, i)[..|base|] == base && Path(base, i)[|base|..][..1] == "."
                      && IsDecimal(Path(base, i)[|base| + 1..], i)
  {
    DigitsAreDecimal(i);
    if 0 < i { assert Path(base, i)[|base| + 1..] == Digits(i); }
  }

  /** The names of the log file and its backups. */
  function Chain(c: Config): (names: set<string>)
    ensures forall i: nat :: i <= c.maxFiles ==> Path(c.base, i) in names
  {
    set i: nat | i <= c.maxFiles :: Path(c.base, i)
  }

  /** File i of before is file i + 1 of after. */
  predicate MovedUp(c: Config, before: FileMap, after: FileMap, i: nat) {
    At(after, Path(c.base, i + 1)) == At(before, Path(c.base, i))
  }

  /** Moving backup i fills place i + 1, frees place i and touches nothing else. */
  lemma OneMoves(c: Config, files: FileMap, renames: seq<bool>, i: nat)
    requires Succeeds(renames) && 0 < i < c.maxFiles
    requires i < c.maxFiles - 1 ==> Path(c.base, i + 1) !in files
    ensures var g := ShiftOne(c, files, renames, i);
            && At(g, Path(c.base, i + 1)) == At(files, Path(c.base, i)) && Path(c.base, i) !in g
            && forall n :: n != Path(c.base, i) && n != Path(c.base, i + 1) ==> At(g, n) == At(files, n)
  {
    if Path(c.base, i) == Path(c.base, i + 1) { PathInjective(c.base, i, i + 1); }
  }

  /** A name that none of the renames for i, ... 1 mentions. */
  ghost predicate Outside(c: Config, name: string, i: nat) {
    forall j: nat :: 1 <= j <= i + 1 ==> name != Path(c.base, j)
  }

  /** The renames for i, ... 1 touch no other name. */
  lemma {:induction false} OthersStay(c: Config, files: FileMap, renames: seq<bool>, i: nat, n: string)
    requires Outside(c, n, i)
    ensures At(ShiftFrom(c, files, renames, i).0, n) == At(files, n)
    decreases i
  {
    if i > 0 { OthersStay(c, ShiftOne(c, files, renames, i), After(renames), i - 1, n); }
  }

  lemma {:induction false} FirstIsFree(c: Config, files: FileMap, renames: seq<bool>, i: nat)
    requires AllSucceed(renames) && 0 < i < c.maxFiles
    requires i < c.maxFiles - 1 ==> Path(c.base, i + 1) !in files
    ensures Path(c.base, 1) !in ShiftFrom(c, files, renames, i).0
    decreases i
  {
    OneMoves(c, files, renames, i);
    if i > 1 { FirstIsFree(c, ShiftOne(c, files, renames, i), After(renames), i - 1); }
  }

  lemma {:induction false} RenamesLeft(c: Config, files: FileMap, renames: seq<bool>, i: nat)
    requires AllSucceed(renames)
    ensures AllSucceed(ShiftFrom(c, files, renames, i).1)
    decreases i
  {
    if i > 0 { RenamesLeft(c, ShiftOne(c, files, renames, i), After(renames), i - 1); }
  }

  /** The first of the renames for i, ... 1 puts backup i where it will stay. */
  lemma TopMoves(c: Config, files: FileMap, renames: seq<bool>, i: nat)
    requires AllSucceed(renames) && 1 <= i < c.maxFiles
    requires i < c.maxFiles - 1 ==> Path(c.base, i + 1) !in files
    ensures MovedUp(c, files, ShiftFrom(c, files, renames, i).0, i)
  {
    var next := ShiftOne(c, files, renames, i);
    OneMoves(c, files, renames, i);
    forall j: nat | 1 <= j <= i ensures Path(c.base, i + 1) != Path(c.base, j) { PathsDiffer(c.base, i + 1, j); }
    OthersStay(c, next, After(renames), i - 1, Path(c.base, i + 1));
  }

  /** After the renames for i, ... 1 backup j is backup j + 1. */
  lemma {:induction false} BackupMoves(c: Config, files: FileMap, renames: seq<bool>, i: nat, j: nat)
    requires AllSucceed(renames) && 1 <= j <= i < c.maxFiles
    requires i < c.maxFiles - 1 ==> Path(c.base, i + 1) !in files
    ensures MovedUp(c, files, ShiftFrom(c, files, renames, i).0, j)
    decreases i
  {
    if j == i {
      TopMoves(c, files, renames, i);
    } else {
      var next := ShiftOne(c, files, renames, i);
      OneMoves(c, files, renames, i);
      PathsDiffer(c.base, j, i);
      PathsDiffer(c.base, j, i + 1);
      BackupMoves(c, next, After(renames), i - 1, j);
    }
  }

  lemma PathsDiffer(base: string, i: nat, j: nat)
    requires i != j
    ensures Path(base, i) != Path(base, j)
  {
    if Path(base, i) == Path(base, j) { PathInjective(base, i, j); }
  }

  /**
   Rotation moves file i to i + 1, for every i; the last backup is the only one that is lost, the
   log file's place is free, and files outside the chain are as they were.
   */
  lemma RotationMoves(c: Config, files: FileMap, renames: seq<bool>)
    requires AllSucceed(renames) && c.maxFiles >= 1 && c.base in files
    ensures var g := Shifted(c, files, renames).0;
            && AllSucceed(Shifted(c, files, renames).1)
            && (forall i: nat :: i < c.maxFiles ==> MovedUp(c, files, g, i))
            && c.base !in g
            && (forall n :: n !in Chain(c) ==> At(g, n) == At(files, n))
  {
    var top := c.maxFiles - 1;
    var moved := ShiftFrom(c, files, renames, top).0;
    RenamesLeft(c, files, renames, top);
    OutsideShift(c, top);
    OthersStay(c, files, renames, top, c.base);
    LastMove(c, moved);
    forall i: nat | i < c.maxFiles
      ensures MovedUp(c, files, Moved(moved, c.base, Path(c.base, 1)), i)
    {
      if i > 0 { BackupMoves(c, files, renames, top, i); }
    }
    forall n | n !in Chain(c) ensures At(Moved(moved, c.base, Path(c.base, 1)), n) == At(files, n) {
      OthersStay(c, files, renames, top, n);
      assert Path(c.base, 0) in Chain(c) && Path(c.base, 1) in Chain(c);
    }
  }

  lemma OutsideShift(c: Config, i: nat)
    requires i < c.maxFiles
    ensures Outside(c, c.base, i) && forall n :: n !in Chain(c) ==> Outside(c, n, i)
  {
    forall j: nat | 1 <= j <= i + 1 ensures c.base != Path(c.base, j) {
      if Path(c.base, 0) == Path(c.base, j) { PathInjective(c.base, 0, j); }
    }
    forall n | n !in Chain(c) ensures Outside(c, n, i) {}
  }

  lemma LastMove(c: Config, files: FileMap)
    requires c.base in files
    ensures var g := Moved(files, c.base, Path(c.base, 1));
            && At(g, Path(c.base, 1)) == At(files, c.base) && c.base !in g
            && (forall n :: n != c.base && n != Path(c.base, 1) ==> At(g, n) == At(files, n))
            && (forall i: nat :: 2 <= i ==> At(g, Path(c.base, i)) == At(files, Path(c.base, i)))
  {
    if Path(c.base, 0) == Path(c.base, 1) { PathInjective(c.base, 0, 1); }
    var g := Moved(files, c.base, Path(c.base, 1));
    forall i: nat | 2 <= i ensures At(g, Path(c.base, i)) == At(files, Path(c.base, i)) {
      if Path(c.base, i) == Path(c.base, 0) { PathInjective(c.base, i, 0); }
      if Path(c.base, i) == Path(c.base, 1) { PathInjective(c.base, i, 1); }
    }
  }

  // ---- rotation when renames may fail ----

  /** Whether the rename that moves file i succeeds: the renames are for maxFiles - 1, ... 1, 0. */
  predicate Moves(renames: seq<bool>, k: nat) {
    k < |renames| ==> renames[k]
  }

  lemma LaterMoves(renames: seq<bool>, k: nat)
    ensures Moves(After(renames), k) == Moves(renames, k + 1)
  {
  }

  /** What a place holds afterwards: the file below it if that moves up, else its own unless the place is cleared. */
  function Settled(below: Option<string>, own: Option<string>, moves: bool, cleared: bool): Option<string> {
    if moves && below.Some? then below else if cleared then None else own
  }

  /** What is at place j once the renames for i, ... 1 were made. */
  function Placed(c: Config, files: FileMap, renames: seq<bool>, i: nat, j: nat): Option<string>
    requires 1 <= j <= i + 1
  {
    Settled(At(files, Path(c.base, j - 1)), At(files, Path(c.base, j)),
            j > 1 && Moves(renames, i + 1 - j), (i > 0 && j == c.maxFiles) || (j <= i && Moves(renames, i - j)))
  }

  lemma OneShifts(c: Config, files: FileMap, renames: seq<bool>, i: nat)
    requires i < c.maxFiles
    ensures var g := ShiftOne(c, files, renames, i);
            && At(g, Path(c.base, i)) == (if Succeeds(renames) then None else At(files, Path(c.base, i)))
            && At(g, Path(c.base, i + 1)) ==
                 Settled(At(files, Path(c.base, i)), At(files, Path(c.base, i + 1)),
                         Succeeds(renames), i == c.maxFiles - 1)
            && forall n :: n != Path(c.base, i) && n != Path(c.base, i + 1) ==> At(g, n) == At(files, n)
  {
    PathsDiffer(c.base, i, i + 1);
  }

  lemma TopPlaced(c: Config, files: FileMap, renames: seq<bool>, i: nat)
    requires 0 < i < c.maxFiles
    ensures At(ShiftFrom(c, files, renames, i).0, Path(c.base, i + 1)) == Placed(c, files, renames, i, i + 1)
  {
    OneShifts(c, files, renames, i);
    forall k: nat | 1 <= k <= i ensures Path(c.base, i + 1) != Path(c.base, k) { PathsDiffer(c.base, i + 1, k); }
    OthersStay(c, ShiftOne(c, files, renames, i), After(renames), i - 1, Path(c.base, i + 1));
  }

  /** Below the place that is filled, only the one that moves up changes. */
  lemma BelowStays(c: Config, files: FileMap, renames: seq<bool>, i: nat, k: nat)
    requires k < i < c.maxFiles
    ensures At(ShiftOne(c, files, renames, i), Path(c.base, k)) == At(files, Path(c.base, k))
  {
    OneShifts(c, files, renames, i);
    PathsDiffer(c.base, k, i);
    PathsDiffer(c.base, k, i + 1);
  }

  lemma PlacedStep(c: Config, files: FileMap, renames: seq<bool>, i: nat, j: nat)
    requires 1 <= j <= i < c.maxFiles
    ensures Placed(c, ShiftOne(c, files, renames, i), After(renames), i - 1, j) == Placed(c, files, renames, i, j)
  {
    BelowStays(c, files, renames, i, j - 1);
    LaterMoves(renames, i - j);
    if j < i {
      LaterMoves(renames, i - 1 - j);
      BelowStays(c, files, renames, i, j);
    } else {
      OneShifts(c, files, renames, i);
    }
  }

  lemma {:induction false} BackupsPlaced(c: Config, files: FileMap, renames: seq<bool>, i: nat, j: nat)
    requires i < c.maxFiles && 1 <= j <= i + 1
    ensures At(ShiftFrom(c, files, renames, i).0, Path(c.base, j)) == Placed(c, files, renames, i, j)
    decreases i
  {
    if i > 0 {
      if j == i + 1 {
        TopPlaced(c, files, renames, i);
      } else {
        BackupsPlaced(c, ShiftOne(c, files, renames, i), After(renames), i - 1, j);
        PlacedStep(c, files, renames, i, j);
      }
    }
  }

  lemma {:induction false} RenamesUsed(c: Config, files: FileMap, renames: seq<bool>, i: nat)
    ensures Succeeds(ShiftFrom(c, files, renames, i).1) == Moves(renames, i)
    decreases i
  {
    if i > 0 {
      RenamesUsed(c, ShiftOne(c, files, renames, i), After(renames), i - 1);
      LaterMoves(renames, i - 1);
    }
  }

  /** The last rename, of the log file itself, after those of the backups. */
  lemma LogFileMoves(c: Config, files: FileMap, renames: seq<bool>)
    requires c.maxFiles >= 1
    ensures var moved, g := ShiftFrom(c, files, renames, c.maxFiles - 1).0, Shifted(c, files, renames).0;
            var moves := Moves(renames, c.maxFiles - 1);
            && At(g, c.base) == (if moves then None else At(files, c.base))
            && At(g, Path(c.base, 1)) == Settled(At(files, c.base), At(moved, Path(c.base, 1)), moves, false)
            && forall n :: n != c.base && n != Path(c.base, 1) ==> At(g, n) == At(moved, n)
  {
    var top: nat := c.maxFiles - 1;
    RenamesUsed(c, files, renames, top);
    OutsideShift(c, top);
    OthersStay(c, files, renames, top, c.base);
    PathsDiffer(c.base, 0, 1);
    LastRename(ShiftFrom(c, files, renames, top).0, ShiftFrom(c, files, renames, top).1, c.base, Path(c.base, 1));
  }

  /**
   Rotation whatever the renames do.  Place j gets the file below it if there is one and its rename
   succeeds; otherwise its own file stays unless it moves up, and the last backup goes in any case, unless
   it is the only one.  The log file's place is free if its rename succeeds.
   */
  lemma RotationPlaces(c: Config, files: FileMap, renames: seq<bool>, j: nat)
    requires 1 <= j <= c.maxFiles
    ensures At(Shifted(c, files, renames).0, Path(c.base, j))
         == Settled(At(files, Path(c.base, j - 1)), At(files, Path(c.base, j)), Moves(renames, c.maxFiles - j),
                    j == c.maxFiles > 1 || (j < c.maxFiles && Moves(renames, c.maxFiles - 1 - j)))
    ensures At(Shifted(c, files, renames).0, c.base)
         == if Moves(renames, c.maxFiles - 1) then None else At(files, c.base)
  {
    LogFileMoves(c, files, renames);
    BackupsPlaced(c, files, renames, c.maxFiles - 1, j);
    if j > 1 {
      PathsDiffer(c.base, 0, j);
      PathsDiffer(c.base, 1, j);
    }
  }

  lemma LastRename(files: FileMap, renames: seq<bool>, src: string, dst: string)
    requires src != dst
    ensures var g := Renamed(files, renames, src, dst);
            && At(g, src) == (if Succeeds(renames) then None else At(files, src))
            && At(g, dst) == Settled(At(files, src), At(files, dst), Succeeds(renames), false)
            && forall n :: n != src && n != dst ==> At(g, n) == At(files, n)
  {
  }

  // ---- the text of the chain ----

  function Text(files: FileMap, name: string): string {
    if name in files then files[name] else ""
  }

  /** Backups k, ... 1, the oldest first. */
  function Backups(c: Config, files: FileMap, k: nat): string {
    if k == 0 then "" else Text(files, Path(c.base, k)) + Backups(c, files, k - 1)
  }

  /** Everything that is still there: the backups from the oldest on, the log file and the buffer. */
  function Total(c: Config, s: State): string {
    Backups(c, s.files, c.maxFiles) + Text(s.files, c.base) + s.buffered
  }

  lemma {:induction false} BackupsShift(c: Config, files: FileMap, g: FileMap, k: nat)
    requires k < c.maxFiles
    requires forall i: nat :: i < c.maxFiles ==> MovedUp(c, files, g, i)
    ensures Backups(c, g, k + 1) == Backups(c, files, k) + Text(files, c.base)
  {
    assert MovedUp(c, files, g, k);
    var own, newest := Text(files, Path(c.base, k)), Text(files, c.base);
    assert Text(g, Path(c.base, k + 1)) == own;
    assert Backups(c, g, k + 1) == own + Backups(c, g, k);
    if k == 0 {
      NothingMore(newest);
    } else {
      BackupsShift(c, files, g, k - 1);
      Regroup(own, Backups(c, files, k - 1), newest);
    }
  }

  lemma {:induction false} BackupsSame(c: Config, files: FileMap, text: string, k: nat)
    ensures Backups(c, files[c.base := text], k) == Backups(c, files, k)
  {
    if k > 0 {
      BackupsSame(c, files, text, k - 1);
      if Path(c.base, k) == Path(c.base, 0) { PathInjective(c.base, k, 0); }
    }
  }

  // ---- one operation ----

  /** The log file, the buffer and the message together are longer than the limit; a limit of 0 is none. */
  predicate Exceeds(c: Config, s: State, msg: string)
    requires Sound(c, s) && s.isOpen
  {
    c.maxSize > 0 && |s.files[c.base]| + |s.buffered| + |msg| > c.maxSize
  }

  /** The write loop of a flush gets everything out. */
  predicate FlushKeeps(s: State) {
    StdoutSink.Sent(s.script, |s.buffered|) == |s.buffered|
  }

  predicate StoreKeeps(c: Config, r: State, msg: string)
    requires r.isOpen ==> c.base in r.files
  {
    if |msg| > INTERNAL_BUF_SIZE then FlushKeeps(r) && DirectSent(Flush(c, r).script, |msg|) == |msg|
    else |r.buffered| + |msg| > INTERNAL_BUF_SIZE ==> FlushKeeps(r)
  }

  /** No write of this call loses anything, and the rotation, if there is one, succeeds. */
  predicate LogKeeps(c: Config, s: State, msg: string)
    requires Sound(c, s) && s.isOpen
  {
    if Exceeds(c, s, msg) then
      && FlushKeeps(s) && AllSucceed(s.renames) && Succeeds(s.opens)
      && StoreKeeps(c, Rotate(c, s), msg)
    else StoreKeeps(c, s, msg)
  }

  lemma FlushTotal(c: Config, s: State)
    requires s.isOpen && c.base in s.files && FlushKeeps(s)
    ensures Total(c, Flush(c, s)) == Total(c, s)
    ensures Flush(c, s).buffered == ""
    ensures Text(Flush(c, s).files, c.base) == Text(s.files, c.base) + s.buffered
    ensures Backups(c, Flush(c, s).files, c.maxFiles) == Backups(c, s.files, c.maxFiles)
  {
    if s.buffered != "" {
      var base := s.files[c.base] + s.buffered;
      assert s.buffered[..|s.buffered|] == s.buffered;
      BackupsSame(c, s.files, base, c.maxFiles);
      NothingMore(Backups(c, s.files, c.maxFiles) + base);
      Regroup(Backups(c, s.files, c.maxFiles), s.files[c.base], s.buffered);
    } else {
      NothingMore(s.files[c.base]);
    }
  }

  /** A rotation cuts the oldest backup off the front and loses nothing else. */
  lemma RotateTotal(c: Config, s: State)
    requires Sound(c, s) && s.isOpen && FlushKeeps(s) && AllSucceed(s.renames) && Succeeds(s.opens)
    ensures var r, oldest := Rotate(c, s), Text(Flush(c, s).files, Path(c.base, c.maxFiles));
            && r.isOpen && r.buffered == "" && r.files[c.base] == ""
            && Total(c, s) == oldest + Total(c, r)
  {
    var f := Flush(c, s);
    FlushTotal(c, s);
    RotationMoves(c, f.files, f.renames);
    var g := Shifted(c, f.files, f.renames).0;
    BackupsShift(c, f.files, g, c.maxFiles - 1);
    BackupsSame(c, g, "", c.maxFiles);
    var oldest, newest := Text(f.files, Path(c.base, c.maxFiles)), Text(f.files, c.base);
    var older := Backups(c, f.files, c.maxFiles - 1);
    assert Rotate(c, s).files == g[c.base := ""];
    Reassociate(oldest, older, newest);
  }

  lemma Reassociate(oldest: string, older: string, newest: string)
    ensures (oldest + older) + newest + "" == oldest + ((older + newest) + "" + "")
  {
    NothingMore(older + newest);
    NothingMore((oldest + older) + newest);
    Regroup(oldest, older, newest);
  }

  lemma StoreTotal(c: Config, r: State, msg: string)
    requires r.isOpen && c.base in r.files && StoreKeeps(c, r, msg)
    ensures Total(c, Store(c, r, msg)) == Total(c, r) + msg
  {
    var f := if |msg| > INTERNAL_BUF_SIZE || |r.buffered| + |msg| > INTERNAL_BUF_SIZE then Flush(c, r) else r;
    if |msg| > INTERNAL_BUF_SIZE || |r.buffered| + |msg| > INTERNAL_BUF_SIZE { FlushTotal(c, r); }
    var older, base := Backups(c, f.files, c.maxFiles), f.files[c.base];
    if |msg| > INTERNAL_BUF_SIZE {
      assert msg[..|msg|] == msg;
      BackupsSame(c, f.files, base + msg, c.maxFiles);
      NothingMore(older + (base + msg));
      NothingMore(older + base);
      Regroup(older, base, msg);
    } else {
      Regroup(older + base, f.buffered, msg);
    }
  }

  /** One logged message goes to the end of the chain's text; only the oldest backup may go from its front. */
  lemma LogTotal(c: Config, s: State, msg: string) returns (lost: nat)
    requires Sound(c, s) && s.isOpen && LogKeeps(c, s, msg)
    ensures Log(c, s, msg).isOpen
    ensures lost <= |Total(c, s)| && Total(c, Log(c, s, msg)) == (Total(c, s) + msg)[lost..]
    ensures !Exceeds(c, s, msg) ==> lost == 0
    ensures Exceeds(c, s, msg) ==> lost == |Text(Flush(c, s).files, Path(c.base, c.maxFiles))|
  {
    lost := 0;
    if Exceeds(c, s, msg) {
      var r, oldest := Rotate(c, s), Text(Flush(c, s).files, Path(c.base, c.maxFiles));
      RotateTotal(c, s);
      StoreTotal(c, r, msg);
      lost := |oldest|;
      Regroup(oldest, Total(c, r), msg);
      assert (oldest + (Total(c, r) + msg))[lost..] == Total(c, r) + msg;
    } else {
      StoreTotal(c, s, msg);
    }
  }

  /**
   A message within the limit: no backup and no other file changes, nothing is renamed or opened.  It
   goes behind the buffer, if it fits there, and then nothing is written either; if not, the buffer is
   written before it, and a message longer than the buffer is written directly.
   */
  lemma LogWithinLimit(c: Config, s: State, msg: string)
    requires Sound(c, s) && s.isOpen && !Exceeds(c, s, msg)
    ensures var r := Log(c, s, msg);
            r.isOpen && r.renames == s.renames && r.opens == s.opens
            && forall n :: n != c.base ==> At(r.files, n) == At(s.files, n)
    ensures var r, flushed := Log(c, s, msg), Flushed(c, s);
            if |s.buffered| + |msg| <= 65536 then
              r == s.(buffered := s.buffered + msg)
            else if |msg| <= 65536 then
              r.files[c.base] == flushed && r.buffered == msg
            else
              r.files[c.base] == flushed + Directly(s, msg) && r.buffered == ""
  {
    FlushedText(c, s);
    if |msg| > INTERNAL_BUF_SIZE { DirectSentIsAccepted(Flush(c, s).script, |msg|); }
  }

  /** The log file once the buffer is written to it: as much of it as the device accepts. */
  function Flushed(c: Config, s: State): string
    requires Sound(c, s) && s.isOpen
  {
    s.files[c.base] + s.buffered[..Min(|s.buffered|, StdoutSink.Accepts(s.script))]
  }

  /** What a direct write behind a flush gets out of a message. */
  function Directly(s: State, msg: string): string {
    msg[..Min(|msg|, DirectAccepts(StdoutSink.ScriptAfter(s.script, |s.buffered|)))]
  }

  lemma FlushedText(c: Config, s: State)
    requires Sound(c, s) && s.isOpen
    ensures Flush(c, s).files[c.base] == Flushed(c, s) && Flush(c, s).buffered == ""
    ensures Flush(c, s).script == StdoutSink.ScriptAfter(s.script, |s.buffered|)
    ensures forall n :: n != c.base ==> At(Flush(c, s).files, n) == At(s.files, n)
  {
    StdoutSink.SentIsAccepted(s.script, |s.buffered|);
    NothingMore(s.files[c.base]);
  }

  /**
   A message beyond the limit: the buffer is written, the files move up as the renames allow, and the log
   file starts again with this message.  When it cannot be opened, the message waits in the buffer if it
   fits there, and is lost if not.
   */
  lemma LogBeyondLimit(c: Config, s: State, msg: string)
    requires Sound(c, s) && s.isOpen && Exceeds(c, s, msg)
    ensures var r, f := Log(c, s, msg), Flush(c, s);
            && r.isOpen == Succeeds(s.opens) && r.opens == After(s.opens)
            && r.renames == Shifted(c, f.files, f.renames).1
            && (forall n :: n != c.base ==> At(r.files, n) == At(Shifted(c, f.files, f.renames).0, n))
    ensures var r := Log(c, s, msg);
            && r.buffered == (if |msg| <= 65536 then msg else "")
            && (r.isOpen ==> r.files[c.base] == if |msg| <= 65536 then "" else Directly(s, msg))
  {
    FlushedText(c, s);
    NothingMore(msg);
    if |msg| > INTERNAL_BUF_SIZE { DirectSentIsAccepted(Rotate(c, s).script, |msg|); }
  }

  // ---- whole runs ----

  datatype Op = Logging(msg: string) | Flushing

  function Step(c: Config, s: State, op: Op): (r: State)
    requires Sound(c, s)
    ensures Sound(c, r)
  {
    match op
    case Logging(msg) => LogIsSound(c, s, msg); Log(c, s, msg)
    case Flushing => Flush(c, s)
  }

  lemma LogIsSound(c: Config, s: State, msg: string)
    requires Sound(c, s)
    ensures Sound(c, Log(c, s, msg))
  {
  }

  function RunOps(c: Config, s: State, ops: seq<Op>): (r: State)
    requires Sound(c, s)
    ensures Sound(c, r)
    decreases |ops|
  {
    if ops == [] then s else RunOps(c, Step(c, s, ops[0]), ops[1..])
  }

  function Given(op: Op): string {
    if op.Logging? then op.msg else ""
  }

  function Input(ops: seq<Op>): string {
    if ops == [] then "" else Given(ops[0]) + Input(ops[1..])
  }

  predicate StepKeeps(c: Config, s: State, op: Op)
    requires Sound(c, s) && s.isOpen
  {
    match op
    case Logging(msg) => LogKeeps(c, s, msg)
    case Flushing => FlushKeeps(s)
  }

  predicate RunKeeps(c: Config, s: State, ops: seq<Op>)
    requires Sound(c, s)
    decreases |ops|
  {
    ops == [] || (s.isOpen && StepKeeps(c, s, ops[0]) && RunKeeps(c, Step(c, s, ops[0]), ops[1..]))
  }

  /**
   While every write, rename and open succeeds, the backups from the oldest on, the log file and the
   buffer are together the end of everything there was and everything logged; and all of it when
   there is no size limit.
   */
  lemma {:induction false} ChainIsSuffix(c: Config, s: State, ops: seq<Op>) returns (lost: nat)
    requires Sound(c, s) && RunKeeps(c, s, ops)
    ensures lost <= |Total(c, s) + Input(ops)|
    ensures Total(c, RunOps(c, s, ops)) == (Total(c, s) + Input(ops))[lost..]
    ensures c.maxSize == 0 ==> lost == 0
    decreases |ops|
  {
    if ops == [] {
      lost := 0;
      NothingMore(Total(c, s));
    } else {
      var next := Step(c, s, ops[0]);
      var first := StepTotal(c, s, ops[0]);
      var later := ChainIsSuffix(c, next, ops[1..]);
      lost := first + later;
      SuffixOfSuffix(Total(c, s), Given(ops[0]), Input(ops[1..]), first, later);
    }
  }

  /**
   While the log file and the buffer of the start and all that is logged are together within the limit,
   there is no rotation: no other file changes, nothing is renamed or opened, the log file only grows, and
   nothing is lost unless a write fails.
   */
  lemma {:induction false} NoRotationWithinLimit(c: Config, s: State, ops: seq<Op>)
    requires Sound(c, s) && s.isOpen
    requires c.maxSize == 0 || |s.files[c.base]| + |s.buffered| + |Input(ops)| <= c.maxSize
    ensures var r := RunOps(c, s, ops);
            && r.isOpen && r.renames == s.renames && r.opens == s.opens
            && s.files[c.base] <= r.files[c.base]
            && (forall n :: n != c.base ==> At(r.files, n) == At(s.files, n))
            && (RunKeeps(c, s, ops) ==> Total(c, r) == Total(c, s) + Input(ops))
    decreases |ops|
  {
    if ops == [] {
      NothingMore(Total(c, s));
    } else {
      var next := Step(c, s, ops[0]);
      StepWithinLimit(c, s, ops[0]);
      NoRotationWithinLimit(c, next, ops[1..]);
      Regroup(Total(c, s), Given(ops[0]), Input(ops[1..]));
    }
  }

  lemma StepWithinLimit(c: Config, s: State, op: Op)
    requires Sound(c, s) && s.isOpen && (op.Logging? ==> !Exceeds(c, s, op.msg))
    ensures var r := Step(c, s, op);
            && r.isOpen && r.renames == s.renames && r.opens == s.opens
            && s.files[c.base] <= r.files[c.base]
            && |r.files[c.base]| + |r.buffered| <= |s.files[c.base]| + |s.buffered| + |Given(op)|
            && (forall n :: n != c.base ==> At(r.files, n) == At(s.files, n))
            && (StepKeeps(c, s, op) ==> Total(c, r) == Total(c, s) + Given(op))
  {
    FlushedText(c, s);
    if op.Logging? {
      LogWithinLimit(c, s, op.msg);
      if StepKeeps(c, s, op) { StoreTotal(c, s, op.msg); }
    } else if StepKeeps(c, s, op) {
      FlushTotal(c, s);
      NothingMore(Total(c, s));
    }
  }

  lemma StepTotal(c: Config, s: State, op: Op) returns (lost: nat)
    requires Sound(c, s) && s.isOpen && StepKeeps(c, s, op)
    ensures lost <= |Total(c, s)| && Total(c, Step(c, s, op)) == (Total(c, s) + Given(op))[lost..]
    ensures c.maxSize == 0 ==> lost == 0
  {
    if op.Logging? {
      lost := LogTotal(c, s, op.msg);
    } else {
      lost := 0;
      FlushTotal(c, s);
      NothingMore(Total(c, s));
    }
  }

  lemma SuffixOfSuffix(was: string, one: string, more: string, first: nat, later: nat)
    requires first <= |was| && later <= |(was + one)[first..] + more|
    ensures first + later <= |was + (one + more)|
    ensures ((was + one)[first..] + more)[later..] == (was + (one + more))[first + later..]
  {
    assert (was + one)[first..] + more == (was + (one + more))[first..];
  }

  // ---- what holds for any behaviour of the disk ----

  /** What the files of the chain hold. */
  function Texts(chain: set<string>, files: FileMap): set<string> {
    set n | n in files && n in chain :: files[n]
  }

  /** Whatever is in the chain afterwards was in it before, and nothing else moves. */
  ghost predicate OnlyMoves(chain: set<string>, before: FileMap, after: FileMap) {
    Texts(chain, after) <= Texts(chain, before) && after - chain == before - chain
  }

  lemma MovesOne(chain: set<string>, files: FileMap, src: string, dst: string)
    requires src in chain && dst in chain && src in files
    ensures OnlyMoves(chain, files, Moved(files, src, dst))
  {
    var after := Moved(files, src, dst);
    forall text | text in Texts(chain, after) ensures text in Texts(chain, files) {
      var n :| n in after && n in chain && after[n] == text;
      var m := if n == dst then src else n;
      assert m in files && m in chain && files[m] == text;
    }
    assert after - chain == files - chain;
  }

  lemma RenameOnlyMoves(chain: set<string>, files: FileMap, renames: seq<bool>, src: string, dst: string)
    requires src in chain && dst in chain
    ensures OnlyMoves(chain, files, Renamed(files, renames, src, dst))
  {
    if src in files { MovesOne(chain, files, src, dst); }
  }

  lemma UnlinkOnlyMoves(chain: set<string>, files: FileMap, name: string)
    requires name in chain
    ensures OnlyMoves(chain, files, files - {name})
  {
    assert (files - {name}) - chain == files - chain;
  }

  lemma MovesCompose(chain: set<string>, a: FileMap, b: FileMap, d: FileMap)
    requires OnlyMoves(chain, a, b) && OnlyMoves(chain, b, d)
    ensures OnlyMoves(chain, a, d)
  {
  }

  lemma OutsideStays(chain: set<string>, before: FileMap, after: FileMap, name: string)
    requires OnlyMoves(chain, before, after) && name !in chain
    ensures At(after, name) == At(before, name)
  {
    assert name in after <==> name in after - chain;
    assert name in before <==> name in before - chain;
    if name in after { assert (after - chain)[name] == (before - chain)[name]; }
  }

  lemma OneOnlyMoves(c: Config, files: FileMap, renames: seq<bool>, i: nat)
    requires i < c.maxFiles
    ensures OnlyMoves(Chain(c), files, ShiftOne(c, files, renames, i))
  {
    var src, dst := Path(c.base, i), Path(c.base, i + 1);
    var cleared := if i == c.maxFiles - 1 then files - {dst} else files;
    if i == c.maxFiles - 1 { UnlinkOnlyMoves(Chain(c), files, dst); }
    RenameOnlyMoves(Chain(c), cleared, renames, src, dst);
    MovesCompose(Chain(c), files, cleared, Renamed(cleared, renames, src, dst));
  }

  lemma {:induction false} BackupsOnlyMove(c: Config, files: FileMap, renames: seq<bool>, i: nat)
    requires i < c.maxFiles
    ensures OnlyMoves(Chain(c), files, ShiftFrom(c, files, renames, i).0)
    decreases i
  {
    if i > 0 {
      var next := ShiftOne(c, files, renames, i);
      OneOnlyMoves(c, files, renames, i);
      BackupsOnlyMove(c, next, After(renames), i - 1);
      MovesCompose(Chain(c), files, next, ShiftFrom(c, files, renames, i).0);
    }
  }

  lemma LastOnlyMoves(c: Config, files: FileMap, renames: seq<bool>)
    requires c.maxFiles >= 1
    ensures OnlyMoves(Chain(c), files, Renamed(files, renames, c.base, Path(c.base, 1)))
  {
    assert Path(c.base, 0) == c.base && Path(c.base, 1) in Chain(c);
    RenameOnlyMoves(Chain(c), files, renames, c.base, Path(c.base, 1));
  }

  lemma RotationOnlyMoves(c: Config, files: FileMap, renames: seq<bool>)
    requires c.maxFiles >= 1
    ensures OnlyMoves(Chain(c), files, Shifted(c, files, renames).0)
  {
    var moved := ShiftFrom(c, files, renames, c.maxFiles - 1).0;
    BackupsOnlyMove(c, files, renames, c.maxFiles - 1);
    LastOnlyMoves(c, moved, ShiftFrom(c, files, renames, c.maxFiles - 1).1);
    MovesCompose(Chain(c), files, moved, Shifted(c, files, renames).0);
  }

  /** The text is part of one logged message; all of it, when `whole` tells that nothing written is lost. */
  ghost predicate FromOne(text: string, msgs: seq<string>, whole: bool) {
    exists m :: m in msgs && text <= m && (whole ==> text == m)
  }

  ghost predicate FilesBounded(c: Config, files: FileMap, msgs: seq<string>, inherited: set<string>, whole: bool) {
    forall n :: n in files && n in Chain(c) ==>
      |files[n]| <= c.maxSize || FromOne(files[n], msgs, whole) || files[n] in inherited
  }

  /**
   The log file with the buffer that will follow it: within the limit, from one message, which is then
   either written or still to be, or as it was at the start.
   */
  ghost predicate HeadBounded(
    c: Config, base: string, buffered: string, msgs: seq<string>, inherited: set<string>, whole: bool)
  {
    || |base + buffered| <= c.maxSize
    || (FromOne(base + buffered, msgs, whole) && (whole ==> base == "" || buffered == ""))
    || (buffered == "" && base in inherited)
  }

  ghost predicate Bounded(c: Config, s: State, msgs: seq<string>, inherited: set<string>, whole: bool) {
    && FilesBounded(c, if s.isOpen then s.files - {c.base} else s.files, msgs, inherited, whole)
    && (s.isOpen && c.base in s.files ==> HeadBounded(c, s.files[c.base], s.buffered, msgs, inherited, whole))
  }

  /** What reaches the file is a first part of the buffer, and all of it unless a write fails. */
  lemma HeadFlushed(
    c: Config, base: string, buffered: string, n: nat, msgs: seq<string>, inherited: set<string>, whole: bool)
    requires HeadBounded(c, base, buffered, msgs, inherited, whole)
    requires n <= |buffered| && (whole ==> n == |buffered|)
    ensures HeadBounded(c, base + buffered[..n], "", msgs, inherited, whole)
    ensures var text := base + buffered[..n];
            |text| <= c.maxSize || FromOne(text, msgs, whole) || text in inherited
  {
    var all, text := base + buffered, base + buffered[..n];
    NothingMore(text);
    assert text == all[..|base| + n];
    if |all| > c.maxSize && FromOne(all, msgs, whole) {
      var m :| m in msgs && all <= m && (whole ==> all == m);
      assert text <= m;
    } else if |all| > c.maxSize {
      NothingMore(base);
    }
  }

  lemma FlushBounded(c: Config, s: State, msgs: seq<string>, inherited: set<string>, whole: bool)
    requires Sound(c, s) && Bounded(c, s, msgs, inherited, whole) && (whole && s.isOpen ==> FlushKeeps(s))
    ensures Bounded(c, Flush(c, s), msgs, inherited, whole)
    ensures FilesBounded(c, Flush(c, s).files, msgs, inherited, whole)
  {
    if s.isOpen {
      var n := if s.buffered == "" then 0 else StdoutSink.Sent(s.script, |s.buffered|);
      HeadFlushed(c, s.files[c.base], s.buffered, n, msgs, inherited, whole);
      NothingMore(s.files[c.base]);
    }
  }

  lemma MovesBounded(c: Config, before: FileMap, after: FileMap, msgs: seq<string>, inherited: set<string>, whole: bool)
    requires OnlyMoves(Chain(c), before, after) && FilesBounded(c, before, msgs, inherited, whole)
    ensures FilesBounded(c, after, msgs, inherited, whole)
  {
    forall n | n in after && n in Chain(c)
      ensures |after[n]| <= c.maxSize || FromOne(after[n], msgs, whole) || after[n] in inherited
    {
      assert after[n] in Texts(Chain(c), after);
      var m :| m in before && m in Chain(c) && before[m] == after[n];
    }
  }

  lemma ReopenBounded(c: Config, s: State, msgs: seq<string>, inherited: set<string>, whole: bool)
    requires FilesBounded(c, s.files, msgs, inherited, whole) && s.buffered == ""
    ensures Bounded(c, Reopen(c, s), msgs, inherited, whole)
  {
    NothingMore("");
  }

  /** The state after a rotation: the log file is empty, or there is no open file. */
  lemma RotateBounded(c: Config, s: State, msgs: seq<string>, inherited: set<string>, whole: bool)
    requires Sound(c, s) && s.isOpen && Bounded(c, s, msgs, inherited, whole) && (whole ==> FlushKeeps(s))
    ensures var r := Rotate(c, s);
            && Bounded(c, r, msgs, inherited, whole) && Sound(c, r) && r.buffered == ""
            && (r.isOpen ==> r.files[c.base] == "")
  {
    var f := Flush(c, s);
    FlushBounded(c, s, msgs, inherited, whole);
    var shifted := Shifted(c, f.files, f.renames);
    RotationOnlyMoves(c, f.files, f.renames);
    MovesBounded(c, f.files, shifted.0, msgs, inherited, whole);
    ReopenBounded(c, f.(files := shifted.0, renames := shifted.1), msgs, inherited, whole);
  }

  /** A message stored behind an empty log file, or one that fits. */
  lemma StoreBounded(c: Config, r: State, msgs: seq<string>, inherited: set<string>, msg: string, whole: bool)
    requires Sound(c, r) && Bounded(c, r, msgs, inherited, whole) && msg in msgs
    requires r.isOpen ==> |r.files[c.base]| + |r.buffered| + |msg| <= c.maxSize || r.files[c.base] + r.buffered == ""
    requires whole && r.isOpen ==> StoreKeeps(c, r, msg)
    ensures Bounded(c, Store(c, r, msg), msgs, inherited, whole)
  {
    if r.isOpen {
      var after := Store(c, r, msg);
      var text := after.files[c.base] + after.buffered;
      assert after.files - {c.base} == r.files - {c.base};
      if r.files[c.base] + r.buffered == "" {
        assert text <= msg && (whole ==> text == msg);
        assert FromOne(text, msgs, whole);
      } else {
        assert |text| <= c.maxSize;
      }
    }
  }

  lemma LogBounded(c: Config, s: State, msgs: seq<string>, inherited: set<string>, msg: string, whole: bool)
    requires Sound(c, s) && c.maxSize > 0 && Bounded(c, s, msgs, inherited, whole) && msg in msgs
    requires whole && s.isOpen ==> LogKeeps(c, s, msg)
    ensures Bounded(c, Log(c, s, msg), msgs, inherited, whole)
  {
    if s.isOpen {
      if NeedsRotation(c, s, msg) {
        RotateBounded(c, s, msgs, inherited, whole);
        StoreBounded(c, Rotate(c, s), msgs, inherited, msg, whole);
      } else {
        StoreBounded(c, s, msgs, inherited, msg, whole);
      }
    }
  }

  function Messages(ops: seq<Op>): seq<string> {
    if ops == [] then [] else (if ops[0].Logging? then [ops[0].msg] else []) + Messages(ops[1..])
  }

  lemma {:induction false} RunBounded(
    c: Config, s: State, ops: seq<Op>, msgs: seq<string>, inherited: set<string>, whole: bool)
    requires Sound(c, s) && c.maxSize > 0 && Bounded(c, s, msgs, inherited, whole)
    requires forall m :: m in Messages(ops) ==> m in msgs
    requires whole ==> RunKeeps(c, s, ops)
    ensures Bounded(c, RunOps(c, s, ops), msgs, inherited, whole)
    decreases |ops|
  {
    if ops != [] {
      if ops[0].Logging? {
        assert ops[0].msg in Messages(ops);
        LogBounded(c, s, msgs, inherited, ops[0].msg, whole);
      } else {
        FlushBounded(c, s, msgs, inherited, whole);
      }
      RunBounded(c, Step(c, s, ops[0]), ops[1..], msgs, inherited, whole);
    }
  }

  /**
   With a size limit and whatever the disk does: a file of the chain that is longer than the limit
   holds one logged message or a first part of it, or is what some file held at the start; and as long
   as every write, rename and open succeeds, it holds the message whole.
   */
  lemma OverlongIsSingle(c: Config, s: State, ops: seq<Op>, name: string, whole: bool)
    requires Sound(c, s) && c.maxSize > 0 && s.buffered == ""
    requires whole ==> RunKeeps(c, s, ops)
    requires name in RunOps(c, s, ops).files && name in Chain(c)
    requires |RunOps(c, s, ops).files[name]| > c.maxSize
    ensures var text := RunOps(c, s, ops).files[name];
            FromOne(text, Messages(ops), whole) || text in s.files.Values
  {
    forall n | n in s.files ensures s.files[n] in s.files.Values {}
    if c.base in s.files { NothingMore(s.files[c.base]); }
    RunBounded(c, s, ops, Messages(ops), s.files.Values, whole);
    var r := RunOps(c, s, ops);
    if name == c.base && r.isOpen { HeadOverlong(c, r.files[name], r.buffered, Messages(ops), s.files.Values, whole); }
  }

  lemma HeadOverlong(c: Config, base: string, buffered: string, msgs: seq<string>, inherited: set<string>, whole: bool)
    requires HeadBounded(c, base, buffered, msgs, inherited, whole) && |base| > c.maxSize
    ensures FromOne(base, msgs, whole) || base in inherited
  {
    NothingMore(base);
    if FromOne(base + buffered, msgs, whole) && (whole ==> base == "" || buffered == "") {
      var m :| m in msgs && base + buffered <= m && (whole ==> base + buffered == m);
      assert base <= m;
    }
  }

  /** Files outside the chain are never touched. */
  lemma {:induction false} OthersUntouched(c: Config, s: State, ops: seq<Op>, name: string)
    requires Sound(c, s) && name !in Chain(c)
    ensures At(RunOps(c, s, ops).files, name) == At(s.files, name)
    decreases |ops|
  {
    if ops != [] {
      assert Path(c.base, 0) == c.base;
      if ops[0].Logging? && s.isOpen && NeedsRotation(c, s, ops[0].msg) {
        var f := Flush(c, s);
        RotationOnlyMoves(c, f.files, f.renames);
        OutsideStays(Chain(c), f.files, Shifted(c, f.files, f.renames).0, name);
      }
      OthersUntouched(c, Step(c, s, ops[0]), ops[1..], name);
    }
  }
}
