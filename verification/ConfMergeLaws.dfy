/**
 The laws of layering configurations: what is found where, and in which order layers may be merged.
 */
module ConfMergeLaws {
  import opened ConfMerge

  // ---- lookups ----

  lemma {:induction false} GetPut(es: Entries, key: string, value: Node, k: string)
    ensures Get(Put(es, key, value), k) == if k == key then There(value) else Get(es, k)
  {
    if es.Entry? { GetPut(es.rest, key, value, k); }
  }

  lemma {:induction false} PutTwice(es: Entries, key: string, v: Node, w: Node)
    ensures Put(Put(es, key, v), key, w) == Put(es, key, w)
  {
    if es.Entry? { PutTwice(es.rest, key, v, w); }
  }

  /** Assignments to two keys commute when the first of them is there already. */
  lemma {:induction false} PutsCommute(es: Entries, key: string, v: Node, other: string, w: Node)
    requires key != other && Get(es, key).There?
    ensures Put(Put(es, key, v), other, w) == Put(Put(es, other, w), key, v)
  {
    if es.Entry? && es.key != key { PutsCommute(es.rest, key, v, other, w); }
  }

  lemma {:induction false} PutSame(es: Entries, key: string)
    requires Get(es, key).There?
    ensures Put(es, key, Get(es, key).node) == es
  {
    if es.key != key { PutSame(es.rest, key); }
  }

  // ---- trees without null values under their keys ----

  /** No key twice in a map, and no null under a key. */
  predicate Clean(n: Node) {
    n.Map? ==> CleanEntries(n.entries)
  }

  predicate CleanEntries(es: Entries) {
    es.Entry? ==>
      && Get(es.rest, es.key).Undefined? && !es.value.Null? && Clean(es.value) && CleanEntries(es.rest)
  }

  lemma {:induction false} CleanGet(es: Entries, key: string)
    requires CleanEntries(es) && Get(es, key).There?
    ensures !Get(es, key).node.Null? && Clean(Get(es, key).node)
  {
    if es.key != key { CleanGet(es.rest, key); }
  }

  lemma {:induction false} CleanPut(es: Entries, key: string, value: Node)
    requires CleanEntries(es) && !value.Null? && Clean(value)
    ensures CleanEntries(Put(es, key, value))
  {
    if es.Entry? && es.key != key {
      CleanPut(es.rest, key, value);
      GetPut(es.rest, key, value, es.key);
    }
  }

  /** A base that a map entry can have: nothing, or a clean value that is not null. */
  predicate CleanSlot(base: Slot) {
    base.There? ==> !base.node.Null? && Clean(base.node)
  }

  lemma CleanGetSlot(es: Entries, key: string)
    requires CleanEntries(es)
    ensures CleanSlot(Get(es, key))
  {
    if Get(es, key).There? { CleanGet(es, key); }
  }

  /** Merging clean trees is never refused, and gives a clean tree. */
  lemma MergeIsClean(base: Slot, over: Node, concat: bool)
    requires CleanSlot(base) && !over.Null? && Clean(over)
    ensures Merge(base, over, concat).Done? && Merge(base, over, concat).slot.There?
    ensures CleanSlot(Merge(base, over, concat).slot)
    ensures base.There? && base.node.Map? && over.Map? ==> Merge(base, over, concat).slot.node.Map?
    decreases over
  {
    if base.There? && base.node.Map? && over.Map? {
      MergeIntoIsClean(base.node.entries, base.node.entries, over.entries, concat);
    }
  }

  lemma {:induction false} MergeIntoIsClean(merged: Entries, base: Entries, over: Entries, concat: bool)
    requires CleanEntries(merged) && CleanEntries(base) && CleanEntries(over)
    ensures MergeInto(merged, base, over, concat).Done?
    ensures var s := MergeInto(merged, base, over, concat).slot;
            s.There? && s.node.Map? && CleanEntries(s.node.entries)
    decreases over
  {
    if over.Entry? {
      CleanGetSlot(base, over.key);
      MergeIsClean(Get(base, over.key), over.value, concat);
      var n := Merge(Get(base, over.key), over.value, concat).slot.node;
      CleanPut(merged, over.key, n);
      MergeIntoIsClean(Put(merged, over.key, n), base, over.rest, concat);
    }
  }

  // ---- merging as a function of nodes ----

  /** The merge of clean trees that are not null. */
  function Over(a: Node, b: Node, concat: bool): (r: Node)
    requires !a.Null? && Clean(a) && !b.Null? && Clean(b)
    ensures !r.Null? && Clean(r)
  {
    MergeIsClean(There(a), b, concat);
    Merge(There(a), b, concat).slot.node
  }

  /** What two layers give under one key. */
  function Join(a: Slot, b: Slot, concat: bool): Slot
    requires CleanSlot(a) && CleanSlot(b)
  {
    if b.Undefined? then a else if a.Undefined? then b else There(Over(a.node, b.node, concat))
  }

  /** Under every key, the merge of two maps holds the join of what they hold. */
  lemma GetMerged(a: Entries, b: Entries, concat: bool, key: string)
    requires CleanEntries(a) && CleanEntries(b)
    ensures Over(Map(a), Map(b), concat).Map?
    ensures CleanSlot(Get(a, key)) && CleanSlot(Get(b, key))
    ensures Get(Over(Map(a), Map(b), concat).entries, key) == Join(Get(a, key), Get(b, key), concat)
  {
    CleanGetSlot(a, key);
    CleanGetSlot(b, key);
    MergeIntoIsClean(a, a, b, concat);
    assert Over(Map(a), Map(b), concat) == MergeInto(a, a, b, concat).slot.node;
    GetMergedInto(a, a, b, concat, key);
  }

  lemma {:induction false} GetMergedInto(merged: Entries, base: Entries, over: Entries, concat: bool, key: string)
    requires CleanEntries(merged) && CleanEntries(base) && CleanEntries(over)
    requires MergeInto(merged, base, over, concat).Done?
    requires MergeInto(merged, base, over, concat).slot.There?
    requires MergeInto(merged, base, over, concat).slot.node.Map?
    requires CleanSlot(Get(base, key)) && CleanSlot(Get(over, key))
    ensures Get(MergeInto(merged, base, over, concat).slot.node.entries, key) ==
              if Get(over, key).There? then Join(Get(base, key), Get(over, key), concat) else Get(merged, key)
    decreases over
  {
    if over.Entry? {
      CleanGetSlot(base, over.key);
      MergeIsClean(Get(base, over.key), over.value, concat);
      var n := Merge(Get(base, over.key), over.value, concat).slot.node;
      GetPut(merged, over.key, n, key);
      CleanPut(merged, over.key, n);
      GetMergedInto(Put(merged, over.key, n), base, over.rest, concat, key);
    }
  }

  // ---- paths ----

  /** The node at the end of a path of keys. */
  function At(n: Slot, path: seq<string>): Slot
    decreases |path|
  {
    if path == [] then n
    else if n.There? && n.node.Map? then At(Get(n.node.entries, path[0]), path[1..])
    else Undefined
  }

  /**
   What a path leads to in two layers: as long as both have a map, the way is through both; where only
   one has anything, or the upper one something that is not merged, the way is through that one.  Of two
   lists at the path's end the upper one's items follow the lower one's when lists are concatenated; of
   anything else that is not two maps the upper one stays.
   */
  function Resolve(a: Slot, b: Slot, path: seq<string>, concat: bool): Slot
    requires CleanSlot(a) && CleanSlot(b)
    decreases |path|
  {
    if b.Undefined? then At(a, path)
    else if a.Undefined? then At(b, path)
    else if path == [] then
      if a.node.Map? && b.node.Map? then There(Over(a.node, b.node, concat))
      else if concat && a.node.List? && b.node.List? then There(List(a.node.items + b.node.items))
      else b
    else if a.node.Map? && b.node.Map? then
      CleanGetSlot(a.node.entries, path[0]);
      CleanGetSlot(b.node.entries, path[0]);
      Resolve(Get(a.node.entries, path[0]), Get(b.node.entries, path[0]), path[1..], concat)
    else At(b, path)
  }

  /** The merge at every path, from the two layers at that path. */
  lemma {:induction false} MergedAt(a: Slot, b: Slot, path: seq<string>, concat: bool)
    requires CleanSlot(a) && CleanSlot(b)
    ensures At(Join(a, b, concat), path) == Resolve(a, b, path, concat)
    decreases |path|
  {
    if a.There? && b.There? && path != [] {
      if a.node.Map? && b.node.Map? {
        GetMerged(a.node.entries, b.node.entries, concat, path[0]);
        MergedAt(Get(a.node.entries, path[0]), Get(b.node.entries, path[0]), path[1..], concat);
      }
    }
  }

  // ---- any trees ----

  /** A null document changes nothing, and one merged over null, as the first one always is, is taken as it is. */
  lemma NullIsNeutral(n: Node, slot: Slot, concat: bool)
    ensures Merge(slot, Null, concat) == Done(slot)
    ensures Merge(There(Null), n, concat) == Done(There(n))
  {
  }

  lemma {:induction false} MergedKeyInto(merged: Entries, base: Entries, over: Entries, concat: bool, key: string)
    requires DistinctEntries(over) && MergeInto(merged, base, over, concat).Done?
    ensures var r := MergeInto(merged, base, over, concat).slot.node.entries;
            if Get(over, key).There? then
              Merge(Get(base, key), Get(over, key).node, concat) == Done(Get(r, key)) && Get(r, key).There?
            else Get(r, key) == Get(merged, key)
    decreases over
  {
    if over.Entry? {
      var n := Merge(Get(base, over.key), over.value, concat).slot.node;
      GetPut(merged, over.key, n, key);
      MergedKeyInto(Put(merged, over.key, n), base, over.rest, concat, key);
    }
  }

  /** Whatever nulls there are: each key holds the merge of what both hold, or what the base holds alone. */
  lemma MergedUnderKey(base: Entries, over: Entries, concat: bool, key: string)
    requires DistinctEntries(over) && Merge(There(Map(base)), Map(over), concat).Done?
    ensures var r := Merge(There(Map(base)), Map(over), concat).slot;
            && r.There? && r.node.Map?
            && if Get(over, key).There? then
                 Merge(Get(base, key), Get(over, key).node, concat) == Done(Get(r.node.entries, key))
               else Get(r.node.entries, key) == Get(base, key)
  {
    MergedKeyInto(base, base, over, concat, key);
  }

  // ---- when a merge is refused ----

  predicate Distinct(n: Node) {
    n.Map? ==> DistinctEntries(n.entries)
  }

  predicate DistinctEntries(es: Entries) {
    es.Entry? ==> Get(es.rest, es.key).Undefined? && Distinct(es.value) && DistinctEntries(es.rest)
  }

  /** Both layers have maps along the path, up to a key that the base lacks and that holds null in the other. */
  predicate NullUnderMissing(base: Slot, over: Node, path: seq<string>)
    decreases |path|
  {
    path != [] && base.There? && base.node.Map? && over.Map? && (
      var b, o := Get(base.node.entries, path[0]), Get(over.entries, path[0]);
      o.There? && (
        if |path| == 1 then b.Undefined? && o.node.Null? else NullUnderMissing(b, o.node, path[1..])))
  }

  ghost predicate HoldsNull(base: Slot, over: Node) {
    exists path :: NullUnderMissing(base, over, path)
  }

  lemma HoldsNullBy(base: Slot, over: Node, path: seq<string>)
    requires NullUnderMissing(base, over, path)
    ensures HoldsNull(base, over)
  {
  }

  /** A merge is refused exactly when there is such a path. */
  lemma RefusedIff(base: Slot, over: Node, concat: bool)
    requires Distinct(over)
    ensures Merge(base, over, concat).Refused? <==> HoldsNull(base, over)
    decreases over
  {
    if base.There? && base.node.Map? && over.Map? {
      var es := base.node.entries;
      RefusedInto(es, es, over.entries, concat);
      if k :| RefusesKey(es, over.entries, k, concat) {
        RefusedUnder(es, over.entries, k, concat);
      }
      if path :| NullUnderMissing(base, over, path) {
        PathRefuses(es, over.entries, path, concat);
      }
    }
  }

  /** The entry under key k makes the merge of these entries fail. */
  predicate RefusesKey(base: Entries, over: Entries, k: string, concat: bool) {
    Get(over, k).There? && !Merge(Get(base, k), Get(over, k).node, concat).IsNode()
  }

  lemma {:induction false} RefusedInto(merged: Entries, base: Entries, over: Entries, concat: bool)
    requires DistinctEntries(over)
    ensures MergeInto(merged, base, over, concat).Refused? <==> exists k :: RefusesKey(base, over, k, concat)
    decreases over
  {
    if over.Entry? {
      var first := Merge(Get(base, over.key), over.value, concat);
      assert RefusesKey(base, over, over.key, concat) <==> !first.IsNode();
      forall k | k != over.key
        ensures RefusesKey(base, over, k, concat) <==> RefusesKey(base, over.rest, k, concat) {}
      if first.IsNode() {
        RefusedInto(Put(merged, over.key, first.slot.node), base, over.rest, concat);
        assert !RefusesKey(base, over.rest, over.key, concat);
      }
    }
  }

  lemma {:induction false} DistinctGet(es: Entries, key: string)
    requires DistinctEntries(es) && Get(es, key).There?
    ensures Distinct(Get(es, key).node)
  {
    if es.key != key { DistinctGet(es.rest, key); }
  }

  lemma RefusedUnder(base: Entries, over: Entries, k: string, concat: bool)
    requires DistinctEntries(over) && RefusesKey(base, over, k, concat)
    ensures HoldsNull(There(Map(base)), Map(over))
    decreases over, 1
  {
    var b, o := Get(base, k), Get(over, k).node;
    DistinctGet(over, k);
    if o.Null? {
      HoldsNullBy(There(Map(base)), Map(over), [k]);
    } else {
      RefusedIff(b, o, concat);
      var path :| NullUnderMissing(b, o, path);
      assert ([k] + path)[1..] == path;
      HoldsNullBy(There(Map(base)), Map(over), [k] + path);
    }
  }

  lemma PathRefuses(base: Entries, over: Entries, path: seq<string>, concat: bool)
    requires DistinctEntries(over) && NullUnderMissing(There(Map(base)), Map(over), path)
    ensures RefusesKey(base, over, path[0], concat)
    decreases over, 1
  {
    DistinctGet(over, path[0]);
    if |path| > 1 {
      var b, o := Get(base, path[0]), Get(over, path[0]).node;
      HoldsNullBy(b, o, path[1..]);
      RefusedIff(b, o, concat);
    }
  }

  // ---- merging the same layer again ----

  /** These entries are among those of `all`. */
  predicate Within(es: Entries, all: Entries) {
    es.Entry? ==> Get(all, es.key) == There(es.value) && Within(es.rest, all)
  }

  lemma {:induction false} WithinMore(es: Entries, all: Entries, key: string, value: Node)
    requires Within(es, all) && Get(all, key).Undefined?
    ensures Within(es, Entry(key, value, all))
  {
    if es.Entry? { WithinMore(es.rest, all, key, value); }
  }

  lemma {:induction false} WithinSelf(es: Entries)
    requires CleanEntries(es)
    ensures Within(es, es)
  {
    if es.Entry? {
      WithinSelf(es.rest);
      WithinMore(es.rest, es.rest, es.key, es.value);
    }
  }

  /** Under every key of `over`, m holds something that merging the value again does not change. */
  predicate Absorbs(m: Entries, over: Entries)
    requires CleanEntries(m) && CleanEntries(over)
  {
    over.Entry? ==>
      var held := Get(m, over.key);
      && held.There? && CleanSlot(held) && Over(held.node, over.value, false) == held.node
      && Absorbs(m, over.rest)
  }

  lemma {:induction false} AbsorbedInto(m: Entries, over: Entries)
    requires CleanEntries(m) && CleanEntries(over) && Absorbs(m, over)
    ensures MergeInto(m, m, over, false) == Done(There(Map(m)))
  {
    if over.Entry? {
      MergeIsClean(Get(m, over.key), over.value, false);
      PutSame(m, over.key);
      AbsorbedInto(m, over.rest);
    }
  }

  /** A tree merged over itself is itself. */
  lemma MergedWithItself(a: Node)
    requires !a.Null? && Clean(a)
    ensures Over(a, a, false) == a
    decreases a
  {
    if a.Map? {
      WithinSelf(a.entries);
      SelfAbsorbs(a.entries, a.entries);
      AbsorbedInto(a.entries, a.entries);
    }
  }

  lemma {:induction false} SelfAbsorbs(m: Entries, es: Entries)
    requires CleanEntries(m) && CleanEntries(es) && Within(es, m)
    ensures Absorbs(m, es)
    decreases es
  {
    if es.Entry? {
      MergedWithItself(es.value);
      SelfAbsorbs(m, es.rest);
    }
  }

  /** In override mode a layer that has been merged changes nothing when it is merged again. */
  lemma MergedTwice(a: Node, b: Node)
    requires !a.Null? && Clean(a) && !b.Null? && Clean(b)
    ensures Over(Over(a, b, false), b, false) == Over(a, b, false)
    decreases b
  {
    if a.Map? && b.Map? {
      GetMerged(a.entries, b.entries, false, "");
      var m := Over(a, b, false).entries;
      WithinSelf(b.entries);
      MergedAbsorbs(a.entries, b.entries, b.entries);
      AbsorbedInto(m, b.entries);
    } else {
      MergedWithItself(b);
    }
  }

  lemma {:induction false} MergedAbsorbs(a: Entries, b: Entries, es: Entries)
    requires CleanEntries(a) && CleanEntries(b) && CleanEntries(es) && Within(es, b)
    ensures Over(Map(a), Map(b), false).Map?
    ensures Absorbs(Over(Map(a), Map(b), false).entries, es)
    decreases es, 0
  {
    GetMerged(a, b, false, "");
    if es.Entry? {
      GetMerged(a, b, false, es.key);
      CleanGetSlot(a, es.key);
      if Get(a, es.key).There? {
        MergedTwice(Get(a, es.key).node, es.value);
      } else {
        MergedWithItself(es.value);
      }
      MergedAbsorbs(a, b, es.rest);
    }
  }

  // ---- the order in which layers are merged ----

  function Keys(es: Entries): seq<string> {
    if es.Nil? then [] else [es.key] + Keys(es.rest)
  }

  lemma {:induction false} KeysHas(es: Entries, key: string)
    ensures key in Keys(es) <==> Get(es, key).There?
  {
    if es.Entry? { KeysHas(es.rest, key); }
  }

  lemma {:induction false} KeysPut(es: Entries, key: string, value: Node)
    ensures Keys(Put(es, key, value)) == if key in Keys(es) then Keys(es) else Keys(es) + [key]
  {
    if es.Entry? && es.key != key { KeysPut(es.rest, key, value); }
  }

  /** The keys of ks that are not yet among those before, added to them. */
  function Added(before: seq<string>, ks: seq<string>): seq<string>
    decreases |ks|
  {
    if ks == [] then before else Added(if ks[0] in before then before else before + [ks[0]], ks[1..])
  }

  lemma {:induction false} KeysMergedInto(merged: Entries, base: Entries, over: Entries, concat: bool)
    requires MergeInto(merged, base, over, concat).Done?
    ensures Keys(MergeInto(merged, base, over, concat).slot.node.entries) == Added(Keys(merged), Keys(over))
    decreases over
  {
    if over.Entry? {
      var n := Merge(Get(base, over.key), over.value, concat).slot.node;
      KeysPut(merged, over.key, n);
      KeysMergedInto(Put(merged, over.key, n), base, over.rest, concat);
      assert Keys(over)[1..] == Keys(over.rest);
    }
  }

  /** Two maps with the same keys in the same order and the same values under them are the same. */
  lemma {:induction false} SameEntries(x: Entries, y: Entries)
    requires CleanEntries(x) && CleanEntries(y) && Keys(x) == Keys(y)
    requires forall k :: Get(x, k) == Get(y, k)
    ensures x == y
  {
    if x.Entry? {
      assert x.key == Keys(x)[0] == Keys(y)[0] == y.key;
      assert Keys(x.rest) == Keys(x)[1..] == Keys(y)[1..] == Keys(y.rest);
      assert Get(x, x.key) == Get(y, x.key);
      forall k ensures Get(x.rest, k) == Get(y.rest, k) { assert Get(x, k) == Get(y, k); }
      SameEntries(x.rest, y.rest);
    }
  }

  lemma {:induction false} AddedHas(before: seq<string>, ks: seq<string>, k: string)
    ensures k in Added(before, ks) <==> k in before || k in ks
    decreases |ks|
  {
    if ks != [] {
      AddedHas(if ks[0] in before then before else before + [ks[0]], ks[1..], k);
      assert ks == [ks[0]] + ks[1..];
    }
  }

  lemma {:induction false} AddedOne(before: seq<string>, ks: seq<string>, k: string)
    ensures Added(before, ks + [k]) ==
              if k in Added(before, ks) then Added(before, ks) else Added(before, ks) + [k]
    decreases |ks|
  {
    if ks == [] {
      assert [] + [k] == [k] && [k][1..] == [];
    } else {
      assert (ks + [k])[0] == ks[0] && (ks + [k])[1..] == ks[1..] + [k];
      AddedOne(if ks[0] in before then before else before + [ks[0]], ks[1..], k);
    }
  }

  lemma {:induction false} AddedInTurn(a: seq<string>, b: seq<string>, c: seq<string>)
    ensures Added(Added(a, b), c) == Added(a, Added(b, c))
    decreases |c|
  {
    if c != [] {
      AddedHas(a, b, c[0]);
      AddedOne(a, b, c[0]);
      AddedInTurn(a, if c[0] in b then b else b + [c[0]], c[1..]);
    }
  }

  /** The outer two layers would be merged with each other, but the middle one would replace the first. */
  predicate Sandwich(a: Node, b: Node, c: Node, concat: bool) {
    (a.Map? && !b.Map? && c.Map?) || (concat && a.List? && !b.List? && c.List?)
  }

  /**
   If the three layers meet in a sandwich at this path, the first has nothing there that the last does not
   replace.
   */
  predicate HarmlessAt(a: Slot, b: Slot, c: Slot, concat: bool, path: seq<string>) {
    var x, y, z := At(a, path), At(b, path), At(c, path);
    x.There? && y.There? && z.There? && Sandwich(x.node, y.node, z.node, concat) ==>
      Merge(x, z.node, concat) == Done(z)
  }

  ghost predicate Harmless(a: Slot, b: Slot, c: Slot, concat: bool) {
    forall path :: HarmlessAt(a, b, c, concat, path)
  }

  ghost predicate HarmlessUnder(a: Entries, b: Entries, c: Entries, concat: bool, k: string) {
    Harmless(Get(a, k), Get(b, k), Get(c, k), concat)
  }

  lemma HarmlessMaps(a: Entries, b: Entries, c: Entries, concat: bool)
    ensures Harmless(There(Map(a)), There(Map(b)), There(Map(c)), concat)
            <==> forall k :: HarmlessUnder(a, b, c, concat, k)
  {
    var x, y, z := There(Map(a)), There(Map(b)), There(Map(c));
    if Harmless(x, y, z, concat) {
      forall k ensures HarmlessUnder(a, b, c, concat, k) {
        forall path ensures HarmlessAt(Get(a, k), Get(b, k), Get(c, k), concat, path) {
          assert ([k] + path)[1..] == path;
          assert HarmlessAt(x, y, z, concat, [k] + path);
        }
      }
    } else {
      var path :| !HarmlessAt(x, y, z, concat, path);
      assert !HarmlessAt(Get(a, path[0]), Get(b, path[0]), Get(c, path[0]), concat, path[1..]);
      assert !HarmlessUnder(a, b, c, concat, path[0]);
    }
  }

  /** Where the layers are not all maps, only the nodes themselves can be a sandwich. */
  lemma HarmlessHere(a: Slot, b: Slot, c: Slot, concat: bool)
    requires !(a.There? && b.There? && c.There? && a.node.Map? && b.node.Map? && c.node.Map?)
    ensures Harmless(a, b, c, concat) <==> HarmlessAt(a, b, c, concat, [])
  {
    forall path | path != [] ensures HarmlessAt(a, b, c, concat, path) {}
  }

  predicate Layer(n: Node) {
    !n.Null? && Clean(n)
  }

  /** Layers may be merged in either order exactly when no sandwich hides anything. */
  lemma MergingInTurn(a: Node, b: Node, c: Node, concat: bool)
    requires Layer(a) && Layer(b) && Layer(c)
    ensures Over(Over(a, b, concat), c, concat) == Over(a, Over(b, c, concat), concat)
            <==> Harmless(There(a), There(b), There(c), concat)
    decreases a, 2
  {
    if a.Map? && b.Map? && c.Map? {
      MapsInTurn(a.entries, b.entries, c.entries, concat);
      HarmlessMaps(a.entries, b.entries, c.entries, concat);
      assert a == Map(a.entries) && b == Map(b.entries) && c == Map(c.entries);
    } else {
      HarmlessHere(There(a), There(b), There(c), concat);
      if concat && a.List? && b.List? && c.List? {
        assert a.items + b.items + c.items == a.items + (b.items + c.items);
      }
      MergeIsClean(There(a), b, concat);
      MergeIsClean(There(b), c, concat);
      MergeIsClean(There(a), c, concat);
    }
  }

  lemma MapsInTurn(a: Entries, b: Entries, c: Entries, concat: bool)
    requires CleanEntries(a) && CleanEntries(b) && CleanEntries(c)
    ensures Over(Over(Map(a), Map(b), concat), Map(c), concat) == Over(Map(a), Over(Map(b), Map(c), concat), concat)
            <==> forall k :: HarmlessUnder(a, b, c, concat, k)
    decreases a, 3
  {
    KeysOver(a, b, concat);
    KeysOver(b, c, concat);
    KeysInTurn(a, b, c, concat);
    var l, r := Over(Over(Map(a), Map(b), concat), Map(c), concat), Over(Map(a), Over(Map(b), Map(c), concat), concat);
    forall k ensures Get(l.entries, k) == Get(r.entries, k) <==> HarmlessUnder(a, b, c, concat, k) {
      UnderKey(a, b, c, concat, k);
    }
    if forall k :: HarmlessUnder(a, b, c, concat, k) {
      SameEntries(l.entries, r.entries);
    } else {
      var k :| !HarmlessUnder(a, b, c, concat, k);
      assert Get(l.entries, k) != Get(r.entries, k);
    }
  }

  lemma KeysInTurn(a: Entries, b: Entries, c: Entries, concat: bool)
    requires CleanEntries(a) && CleanEntries(b) && CleanEntries(c)
    requires Over(Map(a), Map(b), concat).Map? && Over(Map(b), Map(c), concat).Map?
    ensures Over(Over(Map(a), Map(b), concat), Map(c), concat).Map?
    ensures Over(Map(a), Over(Map(b), Map(c), concat), concat).Map?
    ensures Keys(Over(Over(Map(a), Map(b), concat), Map(c), concat).entries)
         == Keys(Over(Map(a), Over(Map(b), Map(c), concat), concat).entries)
  {
    var ab, bc := Over(Map(a), Map(b), concat).entries, Over(Map(b), Map(c), concat).entries;
    KeysOver(a, b, concat);
    KeysOver(b, c, concat);
    KeysOver(ab, c, concat);
    KeysOver(a, bc, concat);
    AddedInTurn(Keys(a), Keys(b), Keys(c));
  }

  lemma KeysOver(a: Entries, b: Entries, concat: bool)
    requires CleanEntries(a) && CleanEntries(b)
    ensures Over(Map(a), Map(b), concat).Map?
    ensures Keys(Over(Map(a), Map(b), concat).entries) == Added(Keys(a), Keys(b))
  {
    MergeIntoIsClean(a, a, b, concat);
    KeysMergedInto(a, a, b, concat);
  }

  lemma UnderKey(a: Entries, b: Entries, c: Entries, concat: bool, k: string)
    requires CleanEntries(a) && CleanEntries(b) && CleanEntries(c)
    requires Over(Map(a), Map(b), concat).Map? && Over(Map(b), Map(c), concat).Map?
    ensures Over(Over(Map(a), Map(b), concat), Map(c), concat).Map?
    ensures Over(Map(a), Over(Map(b), Map(c), concat), concat).Map?
    ensures Get(Over(Over(Map(a), Map(b), concat), Map(c), concat).entries, k)
            == Get(Over(Map(a), Over(Map(b), Map(c), concat), concat).entries, k)
            <==> Harmless(Get(a, k), Get(b, k), Get(c, k), concat)
    decreases a, 2
  {
    var ab, bc := Over(Map(a), Map(b), concat).entries, Over(Map(b), Map(c), concat).entries;
    GetMerged(a, b, concat, k);
    GetMerged(b, c, concat, k);
    GetMerged(ab, c, concat, k);
    GetMerged(a, bc, concat, k);
    var x, y, z := Get(a, k), Get(b, k), Get(c, k);
    if x.There? && y.There? && z.There? {
      MergingInTurn(x.node, y.node, z.node, concat);
    } else {
      HarmlessHere(x, y, z, concat);
    }
  }

  /** A value in the middle layer where the outer ones have maps: what the first map holds depends on the order. */
  lemma SandwichHides()
    ensures var a, b, c := Map(Entry("x", Scalar("1"), Nil)), Scalar("s"), Map(Entry("y", Scalar("2"), Nil));
            && Layer(a) && Layer(b) && Layer(c)
            && Over(Over(a, b, false), c, false) == c
            && Over(a, Over(b, c, false), false) == Map(Entry("x", Scalar("1"), Entry("y", Scalar("2"), Nil)))
  {
  }
}
