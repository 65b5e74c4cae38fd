/**
 Layered configuration trees and how one is merged over another.
 */
module ConfMerge {

  datatype Node = Null | Scalar(text: string) | List(items: seq<Node>) | Map(entries: Entries)

  /** The entries of a map, in the order in which they were added. */
  datatype Entries = Nil | Entry(key: string, value: Node, rest: Entries)

  /** What a lookup finds: a key that is not there gives an undefined node. */
  datatype Slot = Undefined | There(node: Node)

  /** What a merge gives; assigning an undefined node to a key is what the library refuses. */
  datatype Outcome = Done(slot: Slot) | Refused {
    predicate IsNode() {
      Done? && slot.There?
    }
  }

  function Get(es: Entries, key: string): (r: Slot)
    ensures r.There? ==> r.node < es
  {
    match es
    case Nil => Undefined
    case Entry(k, v, rest) => if k == key then There(v) else Get(rest, key)
  }

  /** Assignment to a key: in place if it is there, else at the end. */
  function Put(es: Entries, key: string, value: Node): Entries {
    match es
    case Nil => Entry(key, value, Nil)
    case Entry(k, v, rest) => if k == key then Entry(k, value, rest) else Entry(k, v, Put(rest, key, value))
  }

  /** mergeNodes; `base` may be undefined, `over` is what a file or a map entry holds. */
  function Merge(base: Slot, over: Node, concat: bool): (r: Outcome)
    ensures r.Done? && r.slot.Undefined? <==> base.Undefined? && over.Null?
    decreases over
  {
    if over.Null? then Done(base)
    else if base.Undefined? || base.node.Null? then Done(There(over))
    else if over.Map? && base.node.Map? then MergeInto(base.node.entries, base.node.entries, over.entries, concat)
    else if concat && over.List? && base.node.List? then Done(There(List(base.node.items + over.items)))
    else Done(There(over))
  }

  /** The entries of `over`, one after the other, assigned into `merged`. */
  function MergeInto(merged: Entries, base: Entries, over: Entries, concat: bool): (r: Outcome)
    ensures r.Done? ==> r.slot.There? && r.slot.node.Map?
    decreases over
  {
    match over
    case Nil => Done(There(Map(merged)))
    case Entry(key, value, rest) =>
      match Merge(Get(base, key), value, concat)
      case Done(There(n)) => MergeInto(Put(merged, key, n), base, rest, concat)
      case _ => Refused
  }

  /** mergeNodes, with its loops over the entries and the items of the overriding node. */
  method MergeNodes(base: Slot, over: Node, concat: bool) returns (r: Outcome)
    ensures r == Merge(base, over, concat)
    decreases over
  {
    if over.Null? { return Done(base); }
    if base.Undefined? || base.node.Null? { return Done(There(over)); }
    if over.Map? && base.node.Map? {
      var merged := base.node.entries;
      var it := over.entries;
      while it.Entry?
        invariant it == over.entries || it < over
        invariant MergeInto(merged, base.node.entries, it, concat)
               == MergeInto(base.node.entries, base.node.entries, over.entries, concat)
        decreases it
      {
        var value := MergeNodes(Get(base.node.entries, it.key), it.value, concat);
        if value.Refused? || value.slot.Undefined? { return Refused; }
        merged := Put(merged, it.key, value.slot.node);
        it := it.rest;
      }
      return Done(There(Map(merged)));
    } else if concat && over.List? && base.node.List? {
      var items := base.node.items;
      var i := 0;
      while i < |over.items|
        invariant 0 <= i <= |over.items| && items == base.node.items + over.items[..i]
      {
        items := items + [over.items[i]];
        i := i + 1;
      }
      assert over.items[..i] == over.items;
      return Done(There(List(items)));
    } else {
      return Done(There(over));
    }
  }

  /** A configuration, and the files appended to it. */
  class Conf {
    var root: Slot

    constructor ()
      ensures root == There(Null)
    {
      root := There(Null);
    }

    /**
     Append: the document read from a file, merged over what there is.  A refusal is an exception, and
     what it leaves of the tree is not promised.
     */
    method Append(document: Slot, over: bool) returns (ok: bool, thrown: bool)
      modifies this
      ensures thrown <==> old(root).There? && document.There? && Merge(old(root), document.node, !over).Refused?
      ensures ok <==> !thrown && (old(root).Undefined? || document.There?)
      ensures !thrown ==>
                root == if old(root).Undefined? then document
                        else if document.Undefined? then old(root)
                        else Merge(old(root), document.node, !over).slot
    {
      if root.Undefined? {
        root := document;
        return true, false;
      }
      if document.Undefined? { return false, false; }
      var merged := MergeNodes(root, document.node, !over);
      if merged.Refused? { return false, true; }
      root := merged.slot;
      return true, false;
    }
  }
}
