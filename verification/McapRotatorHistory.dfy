/**
 What rotation does to the files, and what they hold over whole runs.
 */
module McapRotatorHistory {
  import opened FileNames
  import opened Files
  import opened McapRotator
  import opened Seqs

  // ---- one rotation ----

  predicate Distinct(names: seq<string>) {
    forall i, j :: 0 <= i < j < |names| ==> names[i] != names[j]
  }

  /** A rotator never gives two of its files the same name. */
  lemma NamesAreDistinct(fileName: string, names: seq<string>)
    requires Numbered(fileName, names)
    ensures Distinct(names)
  {
    forall i, j | 0 <= i < j < |names| ensures names[i] != names[j] {
      if names[i] == names[j] { IndexedInjective(fileName, i, j); }
    }
  }

  /**
   File j afterwards is file j - 1 before; where there was none, it is gone, unless it is the last one,
   which stays.
   */
  predicate MovedUp(names: seq<string>, before: FileMap, after: FileMap, j: nat)
    requires 0 < j < |names|
  {
    At(after, names[j]) ==
      if names[j - 1] in before then At(before, names[j - 1])
      else if j == |names| - 1 then At(before, names[j]) else None
  }

  lemma {:induction false} ShiftMoves(names: seq<string>, files: FileMap, renames: seq<bool>, i: nat)
    requires Distinct(names) && AllSucceed(renames) && i < |names|
    requires i < |names| - 1 ==> names[i] !in files
    ensures var r := ShiftDown(names, files, renames, i);
            && !r.failed && AllSucceed(r.renames)
            && (forall j :: 0 < j <= i ==> MovedUp(names, files, r.files, j))
            && (0 < i ==> names[0] !in r.files)
            && (forall n :: n !in names[..i + 1] ==> At(r.files, n) == At(files, n))
    decreases i
  {
    if i > 0 {
      var r := ShiftDown(names, files, renames, i);
      if names[i - 1] !in files {
        ShiftMoves(names, files, renames, i - 1);
        assert names[i] !in names[..i];
      } else {
        var moved := RenameFile(files, true, names[i - 1], names[i]);
        ShiftMoves(names, moved, After(renames), i - 1);
        assert names[i] !in names[..i];
        forall j | 0 < j <= i ensures MovedUp(names, files, r.files, j) {
          if j < i { assert MovedUp(names, moved, r.files, j); }
        }
      }
    }
  }

  /** With successful renames every file moves up by one; the base name gets an empty file and others stay. */
  lemma RotationMovesUp(fileName: string, names: seq<string>, s: State)
    requires Numbered(fileName, names) && AllSucceed(s.renames) && Succeeds(s.opens)
    ensures var r := Rotated(names, s).0;
            && !Rotated(names, s).1 && AllSucceed(r.renames) && r.isOpen
            && (forall j :: 0 < j < |names| ==> MovedUp(names, s.files, r.files, j))
            && At(r.files, names[0]) == Some([])
            && (forall n :: n !in names ==> At(r.files, n) == At(s.files, n))
  {
    NamesAreDistinct(fileName, names);
    ShiftMoves(names, s.files, s.renames, |names| - 1);
    assert names[..|names| - 1 + 1] == names;
    var shifted := ShiftDown(names, s.files, s.renames, |names| - 1).files;
    var r := Rotated(names, s).0;
    forall j | 0 < j < |names| ensures MovedUp(names, s.files, r.files, j) {
      assert MovedUp(names, s.files, shifted, j);
    }
  }

  /** File j afterwards is file j - 1 before, or, like it, not there. */
  predicate Follows(names: seq<string>, before: FileMap, after: FileMap, j: nat)
    requires 0 < j < |names|
  {
    At(after, names[j]) == At(before, names[j - 1])
  }

  /** Files 0 to m are there and no more. */
  predicate Contiguous(names: seq<string>, files: FileMap, m: nat) {
    m < |names| && forall j :: 0 <= j < |names| ==> (names[j] in files <==> j <= m)
  }

  /**
   From files 0 to m, rotation gives files 0 to m + 1, or still to the last name, and overwrites none
   but the last.
   */
  lemma ContiguousMovesUp(fileName: string, names: seq<string>, s: State, m: nat)
    requires Numbered(fileName, names) && AllSucceed(s.renames) && Succeeds(s.opens) && Contiguous(names, s.files, m)
    ensures var r := Rotated(names, s).0;
            && (forall j :: 0 < j < |names| ==> Follows(names, s.files, r.files, j))
            && Contiguous(names, r.files, if m == |names| - 1 then m else m + 1)
  {
    RotationMovesUp(fileName, names, s);
    var r := Rotated(names, s).0;
    forall j | 0 < j < |names|
      ensures Follows(names, s.files, r.files, j) && (names[j] in r.files <==> j <= m + 1)
    {
      assert MovedUp(names, s.files, r.files, j);
      assert names[j - 1] in s.files <==> j - 1 <= m;
    }
  }

  /**
   A rename that fails, of file f - 1 to f: the files below are where they were, those above have moved,
   and file f is gone.
   */
  lemma {:induction false} FailedShift(names: seq<string>, files: FileMap, renames: seq<bool>, i: nat) returns (f: nat)
    requires Distinct(names) && i < |names| && ShiftDown(names, files, renames, i).failed
    requires i < |names| - 1 ==> names[i] !in files
    ensures 0 < f <= i && names[f - 1] in files
    ensures var g := ShiftDown(names, files, renames, i).files;
            && names[f] !in g
            && (forall j :: 0 <= j < f ==> At(g, names[j]) == At(files, names[j]))
            && (forall j :: f < j <= i ==> MovedUp(names, files, g, j))
            && (forall n :: n !in names[..i + 1] ==> At(g, n) == At(files, n))
    decreases i
  {
    var g := ShiftDown(names, files, renames, i).files;
    assert names[i] !in names[..i];
    if names[i - 1] !in files {
      f := FailedShift(names, files, renames, i - 1);
    } else if Succeeds(renames) {
      var moved := RenameFile(files, true, names[i - 1], names[i]);
      f := FailedShift(names, moved, After(renames), i - 1);
      forall j | f < j <= i ensures MovedUp(names, files, g, j) {
        if j < i { assert MovedUp(names, moved, g, j); }
      }
    } else {
      f := i;
    }
  }

  /** The new file under the base name is no other file of the chain. */
  lemma NewFileOver(names: seq<string>, before: FileMap, after: FileMap, g: FileMap, f: nat)
    requires 0 < f < |names| && Distinct(names)
    requires g == after[names[0] := []]
    requires forall j :: f < j < |names| ==> MovedUp(names, before, after, j)
    ensures forall j :: f < j < |names| ==> MovedUp(names, before, g, j)
  {
    forall j | f < j < |names| ensures MovedUp(names, before, g, j) {
      assert MovedUp(names, before, after, j);
    }
  }

  /**
   A rotation with a failing rename, of file f - 1 to f: files 1 to f - 1 are where they were, file f is
   gone, those above have moved, and what the base name held is lost, unless the new file cannot be
   opened there.
   */
  lemma FailedRotation(fileName: string, names: seq<string>, s: State) returns (f: nat)
    requires Numbered(fileName, names) && Rotated(names, s).1
    ensures 0 < f < |names| && names[f - 1] in s.files
    ensures var r := Rotated(names, s).0;
            && names[f] !in r.files
            && At(r.files, names[0]) == (if Succeeds(s.opens) then Some([]) else At(s.files, names[0]))
            && (forall j :: 0 < j < f ==> At(r.files, names[j]) == At(s.files, names[j]))
            && (forall j :: f < j < |names| ==> MovedUp(names, s.files, r.files, j))
            && (forall n :: n !in names ==> At(r.files, n) == At(s.files, n))
  {
    NamesAreDistinct(fileName, names);
    f := FailedShift(names, s.files, s.renames, |names| - 1);
    assert names[..|names| - 1 + 1] == names;
    var g := ShiftDown(names, s.files, s.renames, |names| - 1).files;
    var r := Rotated(names, s).0.files;
    if Succeeds(s.opens) { NewFileOver(names, s.files, g, r, f); } else { assert r == g; }
  }

  /**
   What publishing does.  While the estimate and the message are within the maximum, the message goes to
   the current file and nothing else changes.  Beyond it the files are rotated and the message is the first
   of the new file; but when the rotation fails it is stored nowhere and the estimate stays.
   */
  lemma PublishMeans(names: seq<string>, maxSize: nat, s: State, m: Message)
    requires Sound(names, s)
    ensures s.estimate + |m| <= maxSize ==>
              var r := Published(names, maxSize, s, m);
              && r.estimate == s.estimate + |m| && r.isOpen == s.isOpen && r.renames == s.renames && r.opens == s.opens
              && (s.isOpen ==> At(r.files, names[0]) == Some(s.files[names[0]] + [m]))
              && (forall n :: n != names[0] || !s.isOpen ==> At(r.files, n) == At(s.files, n))
    ensures s.estimate + |m| > maxSize ==>
              var r, rotated := Published(names, maxSize, s, m), Rotated(names, s);
              && r.estimate == (if rotated.1 then s.estimate else |m|)
              && r.isOpen == Succeeds(s.opens)
              && (r.isOpen ==> At(r.files, names[0]) == Some(if rotated.1 then [] else [m]))
              && (forall n :: n != names[0] || !r.isOpen ==> At(r.files, n) == At(rotated.0.files, n))
  {
    assert [] + [m] == [m];
  }

  // ---- sizes ----

  function Size(ms: seq<Message>): nat {
    if ms == [] then 0 else Size(ms[..|ms| - 1]) + |ms[|ms| - 1]|
  }

  lemma SizeGrows(ms: seq<Message>, m: Message)
    ensures Size(ms + [m]) == Size(ms) + |m|
  {
    assert (ms + [m])[..|ms|] == ms;
  }

  /** The file is within the limit or holds no more than one message. */
  predicate Fits(ms: seq<Message>, maxSize: nat) {
    Size(ms) <= maxSize || |ms| <= 1
  }

  /** A file is within the limit, or holds a single message, or was there before the sink was made. */
  ghost predicate FilesFit(names: seq<string>, maxSize: nat, files: FileMap, inherited: set<seq<Message>>) {
    forall n :: n in files && n in names ==> Fits(files[n], maxSize) || files[n] in inherited
  }

  /** The estimate is never below what the current file holds, and above the limit only for a single message. */
  ghost predicate Bounded(names: seq<string>, maxSize: nat, s: State, inherited: set<seq<Message>>) {
    && Sound(names, s)
    && FilesFit(names, maxSize, s.files, inherited)
    && (s.isOpen ==>
          && Size(s.files[names[0]]) <= s.estimate
          && (s.estimate > maxSize ==> |s.files[names[0]]| <= 1))
  }

  lemma {:induction false} ShiftFits(
    names: seq<string>, maxSize: nat, files: FileMap, renames: seq<bool>, i: nat, inherited: set<seq<Message>>)
    requires i < |names| && FilesFit(names, maxSize, files, inherited)
    ensures FilesFit(names, maxSize, ShiftDown(names, files, renames, i).files, inherited)
    decreases i
  {
    if i > 0 {
      if names[i - 1] !in files {
        ShiftFits(names, maxSize, files, renames, i - 1, inherited);
      } else if Succeeds(renames) {
        ShiftFits(names, maxSize, RenameFile(files, true, names[i - 1], names[i]), After(renames), i - 1, inherited);
      }
    }
  }

  lemma StoreFits(names: seq<string>, maxSize: nat, s: State, m: Message, inherited: set<seq<Message>>)
    requires Sound(names, s) && FilesFit(names, maxSize, s.files, inherited)
    requires s.isOpen ==> s.files[names[0]] == [] || Size(s.files[names[0]]) + |m| <= maxSize
    ensures FilesFit(names, maxSize, Store(names, s, m).files, inherited)
    ensures s.isOpen ==> Size(Store(names, s, m).files[names[0]]) == Size(s.files[names[0]]) + |m|
  {
    if s.isOpen { SizeGrows(s.files[names[0]], m); }
  }

  lemma RotatedFits(names: seq<string>, maxSize: nat, s: State, inherited: set<seq<Message>>)
    requires Sound(names, s) && FilesFit(names, maxSize, s.files, inherited)
    ensures var r := Rotated(names, s).0;
            && Sound(names, r) && FilesFit(names, maxSize, r.files, inherited)
            && (r.isOpen ==> r.files[names[0]] == [])
            && r.estimate == s.estimate
  {
    ShiftFits(names, maxSize, s.files, s.renames, |names| - 1, inherited);
  }

  lemma PublishBounded(names: seq<string>, maxSize: nat, s: State, m: Message, inherited: set<seq<Message>>)
    requires Bounded(names, maxSize, s, inherited)
    ensures Bounded(names, maxSize, Published(names, maxSize, s, m), inherited)
  {
    if s.estimate + |m| > maxSize {
      RotatedFits(names, maxSize, s, inherited);
      StoreFits(names, maxSize, Rotated(names, s).0, m, inherited);
    } else {
      StoreFits(names, maxSize, s, m, inherited);
    }
  }

  function PublishAll(names: seq<string>, maxSize: nat, s: State, ms: seq<Message>): (r: State)
    requires Sound(names, s)
    ensures Sound(names, r)
    decreases |ms|
  {
    if ms == [] then s else PublishAll(names, maxSize, Published(names, maxSize, s, ms[0]), ms[1..])
  }

  lemma {:induction false} RunBounded(
    names: seq<string>, maxSize: nat, s: State, ms: seq<Message>, inherited: set<seq<Message>>)
    requires Bounded(names, maxSize, s, inherited)
    ensures Bounded(names, maxSize, PublishAll(names, maxSize, s, ms), inherited)
    decreases |ms|
  {
    if ms != [] {
      PublishBounded(names, maxSize, s, ms[0], inherited);
      RunBounded(names, maxSize, Published(names, maxSize, s, ms[0]), ms[1..], inherited);
    }
  }

  /** The sink as its constructor leaves it, over the files that are there. */
  function Started(names: seq<string>, files: FileMap, renames: seq<bool>, opens: seq<bool>): (s: State)
    requires names != []
    ensures Sound(names, s)
  {
    Create(names, State(files, renames, opens, false, 0))
  }

  /**
   Over any run of a new sink, with any failures and whatever files there were: every file of the chain
   is within the limit, or holds a single message, or is one of those; and the estimate is at least the
   size of the current file, and above the limit only for a single message.
   */
  lemma SizesAreBounded(
    names: seq<string>, maxSize: nat, files: FileMap, renames: seq<bool>, opens: seq<bool>, ms: seq<Message>)
    requires names != []
    ensures Bounded(names, maxSize, PublishAll(names, maxSize, Started(names, files, renames, opens), ms), files.Values)
  {
    var s := Started(names, files, renames, opens);
    forall n | n in s.files && n in names ensures Fits(s.files[n], maxSize) || s.files[n] in files.Values {
      if n in files && s.files[n] == files[n] { assert files[n] in files.Values; }
    }
    RunBounded(names, maxSize, s, ms, files.Values);
  }

  /** The current file is open and its size is what the sink takes it to be. */
  predicate Exact(names: seq<string>, s: State) {
    Sound(names, s) && s.isOpen && Size(s.files[names[0]]) == s.estimate
  }

  /** A message that is stored keeps the estimate exact, and a rotation that succeeds makes it exact. */
  lemma PublishIsExact(names: seq<string>, maxSize: nat, s: State, m: Message)
    requires Sound(names, s) && Published(names, maxSize, s, m).isOpen
    requires if s.estimate + |m| > maxSize then !Rotated(names, s).1 else Exact(names, s)
    ensures Exact(names, Published(names, maxSize, s, m))
  {
    if s.estimate + |m| > maxSize {
      SizeGrows([], m);
      assert [] + [m] == [m];
    } else {
      SizeGrows(s.files[names[0]], m);
    }
  }

  /** No rotation of the run fails, and each leaves an open file. */
  predicate Undisturbed(names: seq<string>, maxSize: nat, s: State, ms: seq<Message>)
    requires Sound(names, s)
    decreases |ms|
  {
    ms == [] || (
      && (s.estimate + |ms[0]| > maxSize ==> !Rotated(names, s).1)
      && Published(names, maxSize, s, ms[0]).isOpen
      && Undisturbed(names, maxSize, Published(names, maxSize, s, ms[0]), ms[1..]))
  }

  /** Over any such run from an exact state, and so from the constructor's if it is open, the estimate stays exact. */
  lemma {:induction false} EstimateIsExact(names: seq<string>, maxSize: nat, s: State, ms: seq<Message>)
    requires Exact(names, s) && Undisturbed(names, maxSize, s, ms)
    ensures Exact(names, PublishAll(names, maxSize, s, ms))
    decreases |ms|
  {
    if ms != [] {
      PublishIsExact(names, maxSize, s, ms[0]);
      EstimateIsExact(names, maxSize, Published(names, maxSize, s, ms[0]), ms[1..]);
    }
  }

  lemma StartsExact(names: seq<string>, files: FileMap, renames: seq<bool>, opens: seq<bool>)
    requires names != [] && Succeeds(opens)
    ensures Exact(names, Started(names, files, renames, opens))
  {
  }

  // ---- what the chain holds ----

  function Held(files: FileMap, name: string): seq<Message> {
    if name in files then files[name] else []
  }

  /** The messages in files k, ... 0, the oldest first. */
  function Chain(names: seq<string>, files: FileMap, k: nat): seq<Message>
    requires k < |names|
  {
    if k == 0 then Held(files, names[0]) else Held(files, names[k]) + Chain(names, files, k - 1)
  }

  lemma HeldFollows(names: seq<string>, before: FileMap, after: FileMap, j: nat)
    requires 0 < j < |names| && Follows(names, before, after, j)
    ensures Held(after, names[j]) == Held(before, names[j - 1])
  {
  }

  lemma {:induction false} ChainMoves(names: seq<string>, before: FileMap, after: FileMap, k: nat)
    requires k < |names| && At(after, names[0]) == Some([])
    requires forall j :: 0 < j < |names| ==> Follows(names, before, after, j)
    ensures Chain(names, after, k) == if k == 0 then [] else Chain(names, before, k - 1)
  {
    if k == 1 {
      HeldFollows(names, before, after, 1);
      NothingMore(Held(before, names[0]));
    } else if k > 1 {
      var newer := Chain(names, before, k - 2);
      HeldFollows(names, before, after, k);
      ChainMoves(names, before, after, k - 1);
      assert Chain(names, after, k) == Held(after, names[k]) + newer;
    }
  }

  lemma {:induction false} ChainGrows(names: seq<string>, files: FileMap, m: Message, k: nat)
    requires k < |names| && Distinct(names) && names[0] in files
    ensures Chain(names, files[names[0] := files[names[0]] + [m]], k) == Chain(names, files, k) + [m]
  {
    if k > 0 {
      ChainGrows(names, files, m, k - 1);
      assert Held(files, names[k]) + Chain(names, files, k - 1) + [m]
          == Held(files, names[k]) + (Chain(names, files, k - 1) + [m]);
    }
  }

  predicate Healthy(fileName: string, names: seq<string>, s: State, m: nat) {
    && Numbered(fileName, names) && AllSucceed(s.renames) && AllSucceed(s.opens) && Contiguous(names, s.files, m)
    && Sound(names, s) && s.isOpen
  }

  function Total(names: seq<string>, s: State): seq<Message>
    requires names != []
  {
    Chain(names, s.files, |names| - 1)
  }

  lemma RotateHealthy(fileName: string, names: seq<string>, s: State, top: nat)
    requires Healthy(fileName, names, s, top)
    ensures !Rotated(names, s).1
    ensures Healthy(fileName, names, Rotated(names, s).0, if top == |names| - 1 then top else top + 1)
  {
    RotationMovesUp(fileName, names, s);
    ContiguousMovesUp(fileName, names, s, top);
  }

  lemma RotateTotal(fileName: string, names: seq<string>, s: State, top: nat)
    requires Healthy(fileName, names, s, top)
    ensures Total(names, s) == Held(s.files, names[|names| - 1]) + Total(names, Rotated(names, s).0)
  {
    var r := Rotated(names, s).0;
    RotationMovesUp(fileName, names, s);
    ContiguousMovesUp(fileName, names, s, top);
    AllMoveUp(names, s.files, r.files);
  }

  lemma AllMoveUp(names: seq<string>, before: FileMap, after: FileMap)
    requires names != [] && At(after, names[0]) == Some([])
    requires forall j :: 0 < j < |names| ==> Follows(names, before, after, j)
    ensures Chain(names, before, |names| - 1) ==
            Held(before, names[|names| - 1]) + Chain(names, after, |names| - 1)
  {
    var top := |names| - 1;
    ChainMoves(names, before, after, top);
    MoveOneUp(names, before, after, top);
  }

  /** What the chain up to file k held is what is now below it, behind what file k held. */
  lemma MoveOneUp(names: seq<string>, before: FileMap, after: FileMap, k: nat)
    requires k < |names| && Chain(names, after, k) == if k == 0 then [] else Chain(names, before, k - 1)
    ensures Chain(names, before, k) == Held(before, names[k]) + Chain(names, after, k)
  {
    NothingMore(Held(before, names[k]));
  }

  lemma StoreTotal(fileName: string, names: seq<string>, s: State, m: Message, estimate: nat, top: nat)
    requires Healthy(fileName, names, s, top)
    ensures var r := Store(names, s, m).(estimate := estimate);
            Healthy(fileName, names, r, top) && Total(names, r) == Total(names, s) + [m]
  {
    NamesAreDistinct(fileName, names);
    ChainGrows(names, s.files, m, |names| - 1);
  }

  /** A message goes to the end of the chain; when the sink rotates, the last file falls off its front. */
  lemma PublishTotal(fileName: string, names: seq<string>, maxSize: nat, s: State, m: Message, top: nat)
    returns (lost: nat, newTop: nat)
    requires Healthy(fileName, names, s, top)
    ensures Healthy(fileName, names, Published(names, maxSize, s, m), newTop)
    ensures lost == if s.estimate + |m| > maxSize then |Held(s.files, names[|names| - 1])| else 0
    ensures lost <= |Total(names, s)|
    ensures Total(names, Published(names, maxSize, s, m)) == (Total(names, s) + [m])[lost..]
  {
    lost, newTop := 0, top;
    if s.estimate + |m| > maxSize {
      var r, last := Rotated(names, s).0, Held(s.files, names[|names| - 1]);
      lost, newTop := |last|, if top == |names| - 1 then top else top + 1;
      RotateHealthy(fileName, names, s, top);
      RotateTotal(fileName, names, s, top);
      StoreTotal(fileName, names, r, m, |m|, newTop);
      DropsOldest(last, Total(names, r), m);
    } else {
      StoreTotal(fileName, names, s, m, s.estimate + |m|, top);
    }
  }

  lemma DropsOldest(last: seq<Message>, kept: seq<Message>, m: Message)
    ensures (last + kept + [m])[|last|..] == kept + [m]
  {
  }

  /**
   While renames and opens succeed, the files from the oldest on are the end of what they held at the
   start followed by everything published.
   */
  lemma {:induction false} ChainIsSuffix(
    fileName: string, names: seq<string>, maxSize: nat, s: State, ms: seq<Message>, top: nat)
    returns (lost: nat)
    requires Healthy(fileName, names, s, top)
    ensures lost <= |Total(names, s) + ms|
    ensures Total(names, PublishAll(names, maxSize, s, ms)) == (Total(names, s) + ms)[lost..]
    decreases |ms|
  {
    if ms == [] {
      lost := 0;
      NothingMore(Total(names, s));
    } else {
      var first, next := PublishTotal(fileName, names, maxSize, s, ms[0], top);
      var later := ChainIsSuffix(fileName, names, maxSize, Published(names, maxSize, s, ms[0]), ms[1..], next);
      lost := first + later;
      SuffixOfSuffix(Total(names, s), ms, first, later);
    }
  }

  lemma SuffixOfSuffix(was: seq<Message>, ms: seq<Message>, first: nat, later: nat)
    requires ms != [] && first <= |was| && later <= |(was + [ms[0]])[first..] + ms[1..]|
    ensures first + later <= |was + ms|
    ensures ((was + [ms[0]])[first..] + ms[1..])[later..] == (was + ms)[first + later..]
  {
    assert (was + [ms[0]])[first..] + ms[1..] == (was + ms)[first..];
  }
}
