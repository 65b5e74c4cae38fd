/**
 Collecting a message type's file descriptor with all the files it depends on.
 */
module DescriptorSet {
  import Seqs

  /** A file is known by its position in the pool; `deps` are positions too. */
  datatype File = File(name: string, deps: seq<nat>)

  type Pool = seq<File>

  predicate Closed(pool: Pool) {
    forall f :: 0 <= f < |pool| ==> forall i :: 0 <= i < |pool[f].deps| ==> pool[f].deps[i] < |pool|
  }

  /** Names identify files. */
  predicate Named(pool: Pool) {
    forall f, g :: 0 <= f < |pool| && 0 <= g < |pool| && pool[f].name == pool[g].name ==> f == g
  }

  // ---- reachability ----

  /** File i of the path depends on the next. */
  predicate Follows(pool: Pool, path: seq<nat>, i: nat)
    requires i + 1 < |path|
  {
    path[i] < |pool| && path[i + 1] in pool[path[i]].deps
  }

  /** Each file of the path depends on the next. */
  ghost predicate IsPath(pool: Pool, path: seq<nat>) {
    && path != [] && path[|path| - 1] < |pool|
    && (forall i: nat :: i + 1 < |path| ==> Follows(pool, path, i))
  }

  ghost predicate Reaches(pool: Pool, from: nat, to: nat) {
    exists path :: IsPathBetween(pool, path, from, to)
  }

  ghost predicate IsPathBetween(pool: Pool, path: seq<nat>, from: nat, to: nat) {
    IsPath(pool, path) && path[0] == from && path[|path| - 1] == to
  }

  lemma ReachesSelf(pool: Pool, f: nat)
    requires f < |pool|
    ensures Reaches(pool, f, f)
  {
    assert IsPathBetween(pool, [f], f, f);
  }

  lemma ReachesNext(pool: Pool, from: nat, f: nat, g: nat)
    requires Reaches(pool, from, f) && f < |pool| && g in pool[f].deps && g < |pool|
    ensures Reaches(pool, from, g)
  {
    var path :| IsPathBetween(pool, path, from, f);
    var longer := path + [g];
    forall i: nat | i + 1 < |longer| ensures Follows(pool, longer, i) {
      if i + 1 < |path| { assert Follows(pool, path, i); }
    }
    assert IsPathBetween(pool, longer, from, g);
  }

  /** A set with the start that holds every dependency of its members holds everything reachable. */
  lemma {:induction false} ClosedHoldsReachable(pool: Pool, found: seq<nat>, path: seq<nat>, from: nat, to: nat)
    requires from in found && forall f :: f in found ==> f < |pool| && forall g :: g in pool[f].deps ==> g in found
    requires IsPathBetween(pool, path, from, to)
    ensures to in found
    decreases |path|
  {
    if |path| > 1 {
      var rest := path[1..];
      assert Follows(pool, path, 0);
      forall i: nat | i + 1 < |rest| ensures Follows(pool, rest, i) { assert Follows(pool, path, i + 1); }
      ClosedHoldsReachable(pool, found, rest, path[1], to);
    }
  }

  // ---- the search ----

  ghost function Names(pool: Pool, found: seq<nat>): set<string> {
    set f | f in found && f < |pool| :: pool[f].name
  }

  ghost function AllNames(pool: Pool): set<string> {
    set f | 0 <= f < |pool| :: pool[f].name
  }

  /** No name twice. */
  ghost predicate NoRepeats(pool: Pool, found: seq<nat>) {
    && (forall i :: 0 <= i < |found| ==> found[i] < |pool|)
    && (forall i, j :: 0 <= i < j < |found| ==> pool[found[i]].name != pool[found[j]].name)
  }

  /** The names of all dependencies of f have been met. */
  ghost predicate Done(pool: Pool, f: nat, found: seq<nat>) {
    f < |pool| && forall g :: g in pool[f].deps && g < |pool| ==> pool[g].name in Names(pool, found)
  }

  /** The files of a list, each name once, where it is mentioned first. */
  ghost function Unique(pool: Pool, listed: seq<nat>): seq<nat> {
    if listed == [] then []
    else
      var init, last := Unique(pool, listed[..|listed| - 1]), listed[|listed| - 1];
      if last < |pool| && pool[last].name !in Names(pool, init) then init + [last] else init
  }

  /** All that these files depend on, file by file and in the order of each file's own list. */
  ghost function Mentions(pool: Pool, files: seq<nat>): seq<nat> {
    if files == [] then []
    else
      var last := files[|files| - 1];
      Mentions(pool, files[..|files| - 1]) + if last < |pool| then pool[last].deps else []
  }

  lemma UniqueOneMore(pool: Pool, listed: seq<nat>, g: nat)
    requires g < |pool|
    ensures var u := Unique(pool, listed);
            Unique(pool, listed + [g]) == if pool[g].name in Names(pool, u) then u else u + [g]
  {
    assert (listed + [g])[..|listed|] == listed;
  }

  lemma MentionsOneMore(pool: Pool, files: seq<nat>, f: nat)
    requires f < |pool|
    ensures Mentions(pool, files + [f]) == Mentions(pool, files) + pool[f].deps
  {
    assert (files + [f])[..|files|] == files;
  }

  lemma {:induction false} UniqueNoRepeats(pool: Pool, listed: seq<nat>)
    ensures NoRepeats(pool, Unique(pool, listed))
  {
    if listed != [] {
      var init := Unique(pool, listed[..|listed| - 1]);
      UniqueNoRepeats(pool, listed[..|listed| - 1]);
      forall i | 0 <= i < |init| ensures pool[init[i]].name in Names(pool, init) { assert init[i] in init; }
    }
  }

  lemma {:induction false} UniqueFirst(pool: Pool, listed: seq<nat>)
    requires listed != [] && listed[0] < |pool|
    ensures Unique(pool, listed) != [] && Unique(pool, listed)[0] == listed[0]
  {
    var init := listed[..|listed| - 1];
    if init == [] { assert Unique(pool, init) == []; } else { UniqueFirst(pool, init); }
  }

  ghost predicate AllReached(pool: Pool, top: nat, found: seq<nat>) {
    forall f :: f in found ==> Reaches(pool, top, f)
  }

  /**
   The files met so far, from all that was mentioned: those added to the result, and behind them those
   still in the queue.
   */
  ghost predicate Met(pool: Pool, top: nat, found: seq<nat>, seen: set<string>, listed: seq<nat>) {
    found == Unique(pool, listed) && seen == Names(pool, found) && AllReached(pool, top, found)
  }

  lemma Meet(pool: Pool, top: nat, found: seq<nat>, seen: set<string>, listed: seq<nat>, f: nat, g: nat)
    requires Met(pool, top, found, seen, listed) && f < |pool|
    requires f in found && g in pool[f].deps && g < |pool| && pool[g].name !in seen
    ensures Met(pool, top, found + [g], seen + {pool[g].name}, listed + [g])
  {
    UniqueOneMore(pool, listed, g);
    ReachesNext(pool, top, f, g);
    assert Names(pool, found + [g]) == seen + {pool[g].name};
  }

  lemma MeetAgain(pool: Pool, top: nat, found: seq<nat>, seen: set<string>, listed: seq<nat>, g: nat)
    requires Met(pool, top, found, seen, listed) && g < |pool| && pool[g].name in seen
    ensures Met(pool, top, found, seen, listed + [g])
  {
    UniqueOneMore(pool, listed, g);
  }

  /** The names of the first n of these files have been met. */
  ghost predicate Noted(pool: Pool, deps: seq<nat>, n: nat, seen: set<string>) {
    n <= |deps| && forall j :: 0 <= j < n ==> deps[j] < |pool| && pool[deps[j]].name in seen
  }

  lemma NotedIsDone(pool: Pool, top: nat, f: nat, found: seq<nat>, seen: set<string>, listed: seq<nat>)
    requires f < |pool| && Met(pool, top, found, seen, listed) && Noted(pool, pool[f].deps, |pool[f].deps|, seen)
    ensures Done(pool, f, found) && seen <= AllNames(pool)
  {
  }

  /** More has been met. */
  lemma StillDone(pool: Pool, f: nat, found: seq<nat>, more: seq<nat>)
    requires Done(pool, f, found) && found <= more
    ensures Done(pool, f, more)
  {
    assert forall g :: g in found ==> g in more;
  }

  /** What was there before the dependencies of file `next` are added. */
  datatype Before = Before(top: nat, next: nat, queue: seq<nat>, seen: set<string>, found: seq<nat>, listed: seq<nat>)

  ghost predicate Starts(pool: Pool, b: Before) {
    b.next < |pool| && b.next in b.found && Met(pool, b.top, b.found, b.seen, b.listed)
  }

  /** The first n dependencies have been added: `more` is new in the queue. */
  ghost predicate Adding(pool: Pool, b: Before, n: nat, queue: seq<nat>, seen: set<string>, more: seq<nat>) {
    && b.next < |pool| && b.next in b.found && n <= |pool[b.next].deps|
    && queue == b.queue + more && Met(pool, b.top, b.found + more, seen, b.listed + pool[b.next].deps[..n])
    && Noted(pool, pool[b.next].deps, n, seen)
    && b.seen <= seen && (seen == b.seen ==> more == [])
  }

  lemma AddingStarts(pool: Pool, b: Before)
    requires Starts(pool, b)
    ensures Adding(pool, b, 0, b.queue, b.seen, [])
  {
    Seqs.NothingMore(b.queue);
    Seqs.NothingMore(b.found);
    Seqs.NothingMore(b.listed);
  }

  lemma AddingNew(pool: Pool, b: Before, n: nat, queue: seq<nat>, seen: set<string>, more: seq<nat>, dep: nat)
    requires Adding(pool, b, n, queue, seen, more) && n < |pool[b.next].deps| && dep == pool[b.next].deps[n] < |pool|
    requires pool[dep].name !in seen
    ensures Adding(pool, b, n + 1, queue + [dep], seen + {pool[dep].name}, more + [dep])
  {
    Meet(pool, b.top, b.found + more, seen, b.listed + pool[b.next].deps[..n], b.next, dep);
    Seqs.Regroup(b.queue, more, [dep]);
    Seqs.Regroup(b.found, more, [dep]);
    TakeOneMore(b.listed, pool[b.next].deps, n);
  }

  lemma AddingAgain(pool: Pool, b: Before, n: nat, queue: seq<nat>, seen: set<string>, more: seq<nat>, dep: nat)
    requires Adding(pool, b, n, queue, seen, more) && n < |pool[b.next].deps| && dep == pool[b.next].deps[n] < |pool|
    requires pool[dep].name in seen
    ensures Adding(pool, b, n + 1, queue, seen, more)
  {
    MeetAgain(pool, b.top, b.found + more, seen, b.listed + pool[b.next].deps[..n], dep);
    TakeOneMore(b.listed, pool[b.next].deps, n);
  }

  lemma AddingEnds(pool: Pool, b: Before, queue: seq<nat>, seen: set<string>, more: seq<nat>)
    requires b.next < |pool| && Adding(pool, b, |pool[b.next].deps|, queue, seen, more)
    ensures queue == b.queue + more && Met(pool, b.top, b.found + more, seen, b.listed + pool[b.next].deps)
    ensures Done(pool, b.next, b.found + more)
    ensures b.seen <= seen <= AllNames(pool) && (seen == b.seen ==> more == [])
  {
    var deps := pool[b.next].deps;
    assert deps[..|deps|] == deps;
    NotedIsDone(pool, b.top, b.next, b.found + more, seen, b.listed + deps);
  }

  lemma TakeOneMore(listed: seq<nat>, deps: seq<nat>, n: nat)
    requires n < |deps|
    ensures listed + deps[..n + 1] == listed + deps[..n] + [deps[n]]
  {
  }

  /** The dependencies of one file, in turn: those not seen before go to the end of the queue. */
  method AddDependencies(pool: Pool, next: nat, queue: seq<nat>, seen: set<string>, ghost b: Before)
    returns (newQueue: seq<nat>, newSeen: set<string>, ghost more: seq<nat>)
    requires Closed(pool) && Starts(pool, b) && next == b.next && queue == b.queue && seen == b.seen
    ensures newQueue == queue + more && Met(pool, b.top, b.found + more, newSeen, b.listed + pool[next].deps)
    ensures Done(pool, next, b.found + more)
    ensures seen <= newSeen <= AllNames(pool) && (newSeen == seen ==> more == [])
  {
    newQueue, newSeen, more := queue, seen, [];
    var deps := pool[next].deps;
    AddingStarts(pool, b);
    var i := 0;
    while i < |deps|
      invariant 0 <= i <= |deps| && Adding(pool, b, i, newQueue, newSeen, more)
    {
      var dep := deps[i];
      if pool[dep].name !in newSeen {
        AddingNew(pool, b, i, newQueue, newSeen, more, dep);
        newSeen := newSeen + {pool[dep].name};
        newQueue, more := newQueue + [dep], more + [dep];
      } else {
        AddingAgain(pool, b, i, newQueue, newSeen, more, dep);
      }
      i := i + 1;
    }
    AddingEnds(pool, b, newQueue, newSeen, more);
  }

  /**
   BuildFileDescriptorSet, whether or not the dependencies have cycles: the top file first, no name
   twice, nothing that is not reachable; and everything that is, given that names identify files.  The order
   is breadth first: the result is the top file and what its own files mention, each where it comes up first.
   */
  method BuildFileDescriptorSet(pool: Pool, top: nat) returns (fdSet: seq<nat>)
    requires Closed(pool) && top < |pool|
    ensures fdSet != [] && fdSet[0] == top && NoRepeats(pool, fdSet)
    ensures forall f :: f in fdSet ==> Reaches(pool, top, f)
    ensures Named(pool) ==> forall f :: f in fdSet <==> Reaches(pool, top, f)
    ensures fdSet == Unique(pool, [top] + Mentions(pool, fdSet))
  {
    var toAdd := [top];
    var seen := {pool[top].name};
    ghost var listed := [top];
    fdSet := [];
    StartsMet(pool, top);
    ghost var found := [top];
    while toAdd != []
      invariant Searching(pool, top, fdSet, toAdd, seen, found, listed)
      decreases AllNames(pool) - seen, |toAdd|
    {
      ghost var more;
      ghost var queue, met := toAdd, found;
      var next := toAdd[0];
      NextIsMet(pool, top, fdSet, toAdd, seen, found, listed);
      NextIsListed(pool, top, fdSet, next, listed);
      ghost var b := Before(top, next, toAdd[1..], seen, found, listed);
      toAdd, seen, more := AddDependencies(pool, next, toAdd[1..], seen, b);
      found := found + more;
      listed := listed + pool[next].deps;
      Visited(pool, top, fdSet, queue, met, listed, toAdd, seen, more);
      fdSet := fdSet + [next];
    }
    SearchEnds(pool, top, fdSet, seen, found, listed);
  }

  /** Between two files: those in the result have had their dependencies met. */
  ghost predicate Searching(
    pool: Pool, top: nat, fdSet: seq<nat>, toAdd: seq<nat>, seen: set<string>, found: seq<nat>, listed: seq<nat>)
  {
    && found == fdSet + toAdd && Met(pool, top, found, seen, listed)
    && Listed(pool, top, fdSet, listed) && AllDone(pool, fdSet, found)
  }

  lemma NextIsMet(
    pool: Pool, top: nat, fdSet: seq<nat>, toAdd: seq<nat>, seen: set<string>, found: seq<nat>, listed: seq<nat>)
    requires toAdd != [] && Searching(pool, top, fdSet, toAdd, seen, found, listed)
    ensures toAdd[0] in found && toAdd[0] < |pool| && seen <= AllNames(pool)
  {
    assert found[|fdSet|] == toAdd[0];
    assert Reaches(pool, top, toAdd[0]);
  }

  lemma Visited(
    pool: Pool, top: nat, fdSet: seq<nat>, toAdd: seq<nat>, found: seq<nat>, listed: seq<nat>,
    queue: seq<nat>, newSeen: set<string>, more: seq<nat>)
    requires toAdd != [] && toAdd[0] < |pool|
    requires found == fdSet + toAdd && Listed(pool, top, fdSet + [toAdd[0]], listed) && AllDone(pool, fdSet, found)
    requires queue == toAdd[1..] + more && Met(pool, top, found + more, newSeen, listed)
    requires Done(pool, toAdd[0], found + more)
    ensures Searching(pool, top, fdSet + [toAdd[0]], queue, newSeen, found + more, listed)
  {
    OneMoreDone(pool, fdSet, toAdd[0], found, found + more);
    assert found + more == fdSet + [toAdd[0]] + queue;
  }

  lemma SearchEnds(
    pool: Pool, top: nat, fdSet: seq<nat>, seen: set<string>, found: seq<nat>, listed: seq<nat>)
    requires Closed(pool) && top < |pool| && Searching(pool, top, fdSet, [], seen, found, listed)
    ensures fdSet != [] && fdSet[0] == top && NoRepeats(pool, fdSet)
    ensures forall f :: f in fdSet ==> Reaches(pool, top, f)
    ensures Named(pool) ==> forall f :: f in fdSet <==> Reaches(pool, top, f)
    ensures fdSet == Unique(pool, [top] + Mentions(pool, fdSet))
  {
    assert found == fdSet;
    UniqueNoRepeats(pool, listed);
    UniqueFirst(pool, listed);
    if Named(pool) { AllReachableFound(pool, top, fdSet); }
  }

  ghost predicate AllDone(pool: Pool, files: seq<nat>, found: seq<nat>) {
    forall f :: f in files ==> Done(pool, f, found)
  }

  lemma OneMoreDone(pool: Pool, files: seq<nat>, next: nat, found: seq<nat>, more: seq<nat>)
    requires AllDone(pool, files, found) && Done(pool, next, more) && found <= more
    ensures AllDone(pool, files + [next], more)
  {
    forall f | f in files ensures Done(pool, f, more) { StillDone(pool, f, found, more); }
  }

  /** The list is the top file and what these files mention. */
  ghost predicate Listed(pool: Pool, top: nat, files: seq<nat>, listed: seq<nat>) {
    listed == [top] + Mentions(pool, files)
  }

  lemma StartsMet(pool: Pool, top: nat)
    requires top < |pool|
    ensures Met(pool, top, [] + [top], {pool[top].name}, [top]) && Listed(pool, top, [], [top])
    ensures {pool[top].name} <= AllNames(pool)
  {
    ReachesSelf(pool, top);
    UniqueOneMore(pool, [], top);
    assert [] + [top] == [top] && [top] + Mentions(pool, []) == [top];
    assert Names(pool, [top]) == {pool[top].name};
  }

  lemma NextIsListed(pool: Pool, top: nat, files: seq<nat>, next: nat, listed: seq<nat>)
    requires next < |pool| && Listed(pool, top, files, listed)
    ensures Listed(pool, top, files + [next], listed + pool[next].deps)
  {
    MentionsOneMore(pool, files, next);
    Seqs.Regroup([top], Mentions(pool, files), pool[next].deps);
  }

  lemma AllReachableFound(pool: Pool, top: nat, found: seq<nat>)
    requires Closed(pool) && Named(pool) && top in found
    requires AllDone(pool, found, found)
    ensures forall f :: Reaches(pool, top, f) ==> f in found
  {
    forall f, g | f in found && g in pool[f].deps ensures g in found {
      assert Done(pool, f, found) && g < |pool|;
      var h :| h in found && h < |pool| && pool[h].name == pool[g].name;
    }
    forall f | Reaches(pool, top, f) ensures f in found {
      var path :| IsPathBetween(pool, path, top, f);
      ClosedHoldsReachable(pool, found, path, top, f);
    }
  }
}
