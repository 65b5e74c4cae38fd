/**
 The drain loop over the stored ring and the line buffer: no other thread moves while it runs, but
 any may be stopped inside its own call.
 */
module DrainLoop {
  import opened LogQueue
  import opened LogQueueSafety
  import opened LogQueueSolo
  import opened LogQueueCells
  import opened ContLines

  lemma {:induction false} TakeOneMore(lg: Loggers, s: State, es: seq<Entry>, e: Entry)
    requires |s.text| <= CONT_BUF_SIZE
    ensures |TakeAll(lg, s, es).text| <= CONT_BUF_SIZE
    ensures TakeAll(lg, s, es + [e]) == Take(lg, TakeAll(lg, s, es), e)
    decreases |es|
  {
    if es == [] {
      assert [] + [e] == [e] && [e][1..] == [];
    } else {
      assert (es + [e])[1..] == es[1..] + [e];
      TakeOneMore(lg, Take(lg, s, es[0]), es[1..], e);
    }
  }

  /** The entries claimed at positions [from, to). */
  ghost function Claimed(s: Machine, from: nat, to: nat): seq<Entry>
    requires from <= to <= |s.log|
  {
    Entries(s.log[from..to])
  }

  lemma ClaimedGrows(before: Machine, after: Machine, first: nat)
    requires after.log == before.log && first <= before.tail < |before.log| && after.tail == before.tail + 1
    ensures Claimed(after, first, after.tail)
         == Claimed(before, first, before.tail) + [before.log[before.tail].entry]
  {
  }

  /** One more entry popped and handed on. */
  lemma DrainedOneMore(
    lg: Loggers, start: State, popped: seq<Entry>, before: Machine, after: Machine, first: nat, entry: Entry)
    requires |start.text| <= CONT_BUF_SIZE && first <= before.tail < |before.log|
    requires before.popped == popped + Claimed(before, first, before.tail)
    requires entry == before.log[before.tail].entry
    requires after == before.(tail := before.tail + 1, popped := before.popped + [entry], slots := after.slots)
    ensures after.popped == popped + Claimed(after, first, after.tail)
    ensures |TakeAll(lg, start, Claimed(before, first, before.tail)).text| <= CONT_BUF_SIZE
    ensures TakeAll(lg, start, Claimed(after, first, after.tail))
         == Take(lg, TakeAll(lg, start, Claimed(before, first, before.tail)), entry)
  {
    ClaimedGrows(before, after, first);
    TakeOneMore(lg, start, Claimed(before, first, before.tail), entry);
  }

  /** One turn of the drain loop: the entry at the tail, if it is published, goes to FlushEntry. */
  method DrainOne(ring: Ring, lines: Assembler, current: Entry) returns (more: bool, entry: Entry)
    requires ring.Valid() && lines.Valid() && ring.m.consumer == Quiet
    modifies ring, ring.seqNos, ring.data, lines, lines.buf
    ensures ring.Valid() && lines.Valid()
    ensures more <==> Published(old(ring.m), old(ring.m.tail))
    ensures !more ==> ring.m == old(ring.m) && lines.Abs() == old(lines.Abs())
    ensures more ==>
              && old(ring.m.tail) < |ring.m.log| && entry == ring.m.log[old(ring.m.tail)].entry
              && ring.m == old(ring.m).(tail := old(ring.m.tail) + 1, popped := old(ring.m.popped) + [entry],
                                        slots := ring.m.slots)
              && lines.Abs() == Take(lines.loggers, old(lines.Abs()), entry)
  {
    more, entry := ring.TryPop(current);
    if more { lines.FlushEntry(entry); }
  }

  /**
   DrainAll pops from the tail on until it meets a position that is not published, and hands every
   popped entry, in order, to FlushEntry.
   */
  method DrainAll(ring: Ring, lines: Assembler, scratch: Entry) returns (count: nat)
    requires ring.Valid() && lines.Valid() && ring.m.consumer == Quiet
    modifies ring, ring.seqNos, ring.data, lines, lines.buf
    ensures ring.Valid() && lines.Valid()
    ensures old(ring.m.tail) + count == ring.m.tail <= |ring.m.log|
    ensures ring.m.log == old(ring.m.log) && ring.m.producers == old(ring.m.producers) && ring.m.consumer == Quiet
    ensures ring.m.popped == old(ring.m.popped) + Claimed(ring.m, old(ring.m.tail), ring.m.tail)
    ensures lines.Abs() == TakeAll(lines.loggers, old(lines.Abs()), Claimed(ring.m, old(ring.m.tail), ring.m.tail))
    ensures !Published(ring.m, ring.m.tail)
  {
    ghost var log := ring.m.log;
    ghost var first := ring.m.tail;
    ghost var start := lines.Abs();
    count := 0;
    var entry := scratch;
    var more := true;
    assert Claimed(ring.m, first, first) == [];
    while more
      invariant ring.Valid() && lines.Valid()
      invariant first + count == ring.m.tail <= |log|
      invariant ring.m.log == log && ring.m.producers == old(ring.m.producers) && ring.m.consumer == Quiet
      invariant ring.m.popped == old(ring.m.popped) + Claimed(ring.m, first, ring.m.tail)
      invariant lines.Abs() == TakeAll(lines.loggers, start, Claimed(ring.m, first, ring.m.tail))
      invariant !more ==> !Published(ring.m, ring.m.tail)
      decreases |log| - ring.m.tail, more
    {
      ghost var before := ring.m;
      more, entry := DrainOne(ring, lines, entry);
      if more {
        DrainedOneMore(lines.loggers, start, old(ring.m.popped), before, ring.m, first, entry);
        count := count + 1;
      }
    }
  }

  /**
   The end of Terminate: with no producer copying an entry in, the drain and the forced flush
   leave the ring and the line buffer empty.
   */
  method DrainAtTermination(ring: Ring, lines: Assembler, scratch: Entry)
    requires ring.Valid() && lines.Valid() && ring.m.consumer == Quiet && lines.loggers.hasDefault
    requires forall i :: 0 <= i < |ring.m.producers| ==>
               !ring.m.producers[i].Claimed? && !ring.m.producers[i].Written?
    modifies ring, ring.seqNos, ring.data, lines, lines.buf
    ensures ring.Valid() && lines.Valid()
    ensures ring.m.tail == ring.m.head == |old(ring.m.log)| && ring.m.popped == Entries(old(ring.m.log))
    ensures lines.Abs().text == ""
    ensures lines.Abs() == FlushLines(lines.loggers,
              TakeAll(lines.loggers, old(lines.Abs()), Claimed(old(ring.m), old(ring.m.tail), old(ring.m.head))), true)
  {
    ghost var log := ring.m.log;
    ghost var first := ring.m.tail;
    var _ := DrainAll(ring, lines, scratch);
    if ring.m.tail < ring.m.head {
      PublishedUnlessOwned(ring.m, ring.m.tail);
      assert false;
    }
    assert log[..ring.m.tail] == log;
    lines.FlushContLines(true);
  }
}
