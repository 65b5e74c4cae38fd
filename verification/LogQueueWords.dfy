/**
 The 32-bit program follows the machine with unbounded counters, as long as no producer stalls
 for so long that the head runs 2^31 minus the capacity past the head it loaded.  LogQueueSolo shows
 what goes wrong one position later.
 */
module LogQueueWords {
  import opened LogQueue
  import opened LogQueueSafety
  import opened Words

  function WrapProducer(p: Producer): Producer {
    match p
    case Idle => Idle
    case Calling(e) => Calling(e)
    case Loaded(e, h) => Loaded(e, Wrap(h))
    case Ready(e, h) => Ready(e, Wrap(h))
    case Claimed(e, h) => Claimed(e, Wrap(h))
    case Written(e, h) => Written(e, Wrap(h))
  }

  function WrapConsumer(c: Consumer): Consumer {
    match c
    case Quiet => Quiet
    case Popping(t) => Popping(Wrap(t))
    case Copying(t) => Copying(Wrap(t))
    case Copied(t, out) => Copied(Wrap(t), out)
    case Advanced(t, out) => Advanced(Wrap(t), out)
  }

  function WrapSlot(slot: Slot): Slot {
    slot.(seqNo := Wrap(slot.seqNo))
  }

  function WrapSlots(slots: seq<Slot>): (r: seq<Slot>)
    ensures |r| == |slots| && forall i :: 0 <= i < |slots| ==> r[i] == WrapSlot(slots[i])
  {
    seq(|slots|, i requires 0 <= i < |slots| => WrapSlot(slots[i]))
  }

  function WrapProducers(ps: seq<Producer>): (r: seq<Producer>)
    ensures |r| == |ps| && forall i :: 0 <= i < |ps| ==> r[i] == WrapProducer(ps[i])
  {
    seq(|ps|, i requires 0 <= i < |ps| => WrapProducer(ps[i]))
  }

  /** The 32-bit program's view of a state: every counter reduced modulo 2^32. */
  function Wrapped(s: Machine): Machine {
    s.(head := Wrap(s.head), tail := Wrap(s.tail),
       slots := WrapSlots(s.slots), producers := WrapProducers(s.producers),
       consumer := WrapConsumer(s.consumer))
  }

  /**
   The producer that acts has not been left too far behind by the head: less than 2^31 minus the
   capacity, or exactly that, when it loads the slot's sequence number; less than 2^32 at its
   compare-and-swap.  Other producers may be stalled for any time.
   */
  ghost predicate LagOk(s: Machine, i: nat) {
    && s.cap <= HALF
    && (i < |s.producers| && s.producers[i].Loaded? ==> s.head - s.producers[i].pos + s.cap <= HALF)
    && (i < |s.producers| && s.producers[i].Ready? ==> s.head - s.producers[i].pos < WORD)
  }

  ghost predicate ActsInTime(s: Machine, a: Action) {
    && s.cap <= HALF
    && (a.Produce? ==> LagOk(s, a.producer))
  }

  lemma WrapInc(x: nat, n: nat)
    ensures Wrap(Wrap(x) + n) == Wrap(x + n)
  {
    assert x == (x / WORD) * WORD + Wrap(x);
  }

  /** Indexing with a wrapped position finds the same slot. */
  lemma WrappedSlot(cap: nat, pos: nat)
    requires IsCapacity(cap) && cap <= HALF
    ensures SlotOf(cap, Wrap(pos)) == SlotOf(cap, pos)
  {
    PowerOfTwoTest(cap);
    var k: nat :| cap == Pow2(k);
    WordIsPow2();
    if k > 31 { Pow2Mono(32, k); }
    WrapKeepsRemainder(pos, k);
    MaskIsRemainder(pos, k);
    MaskIsRemainder(Wrap(pos), k);
  }

  lemma WrappedAt(s: Machine, pos: nat)
    requires Shaped(s) && s.cap <= HALF
    ensures Shaped(Wrapped(s))
    ensures At(Wrapped(s), Wrap(pos)) == WrapSlot(At(s, pos))
  {
    WrappedSlot(s.cap, pos);
    SlotInRange(s.cap, pos);
  }

  lemma WrappedSet(s: Machine, pos: nat, slot: Slot)
    requires Shaped(s) && s.cap <= HALF
    ensures Shaped(Wrapped(s))
    ensures SetSlot(Wrapped(s), Wrap(pos), WrapSlot(slot)) == Wrapped(SetSlot(s, pos, slot))
  {
    WrappedSlot(s.cap, pos);
    SlotInRange(s.cap, pos);
    var i := SlotOf(s.cap, pos);
    assert WrapSlots(s.slots)[i := WrapSlot(slot)] == WrapSlots(s.slots[i := slot]);
  }

  lemma WrappedProducer(s: Machine, i: nat, p: Producer)
    requires i < |s.producers|
    ensures SetProducer(Wrapped(s), i, WrapProducer(p)) == Wrapped(SetProducer(s, i, p))
  {
    assert WrapProducers(s.producers)[i := WrapProducer(p)] == WrapProducers(s.producers[i := p]);
  }

  /** What a producer that loaded h finds in h's slot, relative to h. */
  lemma LoadedDiffBound(s: Machine, i: nat)
    requires Inv(s) && i < |s.producers| && s.producers[i].Loaded?
    ensures -(s.cap as int) <= At(s, s.producers[i].pos).seqNo - s.producers[i].pos
    ensures At(s, s.producers[i].pos).seqNo - s.producers[i].pos < s.head - s.producers[i].pos + s.cap
  {
    var h := s.producers[i].pos;
    assert ProducerFits(s, i);
    var w, d := WindowPosition(s.cap, Base(s), h);
    assert InWindow(s, w) && SlotFits(s, w);
    assert At(s, w) == At(s, h);
    MultipleIsFar(-d - 1, s.cap);
    assert (-d - 1) * s.cap == -(d * s.cap) - s.cap;
  }

  lemma LoadedRefines(s: Machine, i: nat)
    requires Inv(s) && LagOk(s, i) && i < |s.producers| && s.producers[i].Loaded?
    ensures Shaped(Wrapped(s))
    ensures ProducerStep(Word32, Wrapped(s), i) == Wrapped(ProducerStep(Unbounded, s, i))
  {
    var r := ProducerStep(Unbounded, s, i);
    var h := s.producers[i].pos;
    assert ProducerFits(s, i);
    WrappedAt(s, h);
    LoadedDiffBound(s, i);
    WrappedDiff(At(s, h).seqNo, h);
    WrappedProducer(s, i, r.producers[i]);
  }

  lemma ReadyRefines(s: Machine, i: nat)
    requires Inv(s) && LagOk(s, i) && i < |s.producers| && s.producers[i].Ready?
    ensures Shaped(Wrapped(s))
    ensures ProducerStep(Word32, Wrapped(s), i) == Wrapped(ProducerStep(Unbounded, s, i))
  {
    var r := ProducerStep(Unbounded, s, i);
    var h := s.producers[i].pos;
    assert ProducerFits(s, i);
    WrapInjective(s.head, h);
    WrapInc(h, 1);
    WrappedProducer(s, i, r.producers[i]);
  }

  lemma OwnerRefines(s: Machine, i: nat)
    requires Inv(s) && s.cap <= HALF && i < |s.producers|
    requires s.producers[i].Claimed? || s.producers[i].Written?
    ensures Shaped(Wrapped(s))
    ensures ProducerStep(Word32, Wrapped(s), i) == Wrapped(ProducerStep(Unbounded, s, i))
  {
    var r := ProducerStep(Unbounded, s, i);
    var p := s.producers[i];
    var slot := if p.Claimed? then At(s, p.pos).(data := p.entry) else At(s, p.pos).(seqNo := p.pos + 1);
    WrappedAt(s, p.pos);
    WrapInc(p.pos, 1);
    WrappedSet(s, p.pos, slot);
    WrappedProducer(SetSlot(s, p.pos, slot), i, r.producers[i]);
  }

  lemma ProducerRefines(s: Machine, i: nat)
    requires Inv(s) && LagOk(s, i) && i < |s.producers|
    ensures Shaped(Wrapped(s))
    ensures ProducerStep(Word32, Wrapped(s), i) == Wrapped(ProducerStep(Unbounded, s, i))
  {
    match s.producers[i]
    case Idle =>
    case Calling(e) => WrappedProducer(s, i, Loaded(e, s.head));
    case Loaded(_, _) => LoadedRefines(s, i);
    case Ready(_, _) => ReadyRefines(s, i);
    case Claimed(_, _) => OwnerRefines(s, i);
    case Written(_, _) => OwnerRefines(s, i);
  }

  lemma PoppingRefines(s: Machine)
    requires Inv(s) && s.cap <= HALF && s.consumer.Popping?
    ensures Shaped(Wrapped(s))
    ensures ConsumerStep(Word32, Wrapped(s)) == Wrapped(ConsumerStep(Unbounded, s))
  {
    var t := s.consumer.pos;
    assert InWindow(s, t) && SlotFits(s, t);
    WrappedAt(s, t);
    WrapInc(t, 1);
    WrappedDiff(At(s, t).seqNo, t + 1);
  }

  lemma ReleaseRefines(s: Machine)
    requires Shaped(s) && s.cap <= HALF && s.consumer.Advanced?
    ensures Shaped(Wrapped(s))
    ensures ConsumerStep(Word32, Wrapped(s)) == Wrapped(ConsumerStep(Unbounded, s))
  {
    var t := s.consumer.pos;
    WrappedAt(s, t);
    WrapInc(t, s.cap);
    WrappedSet(s, t, At(s, t).(seqNo := t + s.cap));
  }

  lemma ConsumerRefines(s: Machine)
    requires Inv(s) && s.cap <= HALF
    ensures Shaped(Wrapped(s))
    ensures ConsumerStep(Word32, Wrapped(s)) == Wrapped(ConsumerStep(Unbounded, s))
  {
    match s.consumer
    case Quiet =>
    case Popping(t) => PoppingRefines(s);
    case Copying(t) => WrappedAt(s, t);
    case Copied(t, _) => WrapInc(t, 1);
    case Advanced(t, _) => ReleaseRefines(s);
  }

  /** One step of the 32-bit program is the same step of the machine with unbounded counters. */
  lemma NextRefines(s: Machine, a: Action)
    requires Inv(s) && ActsInTime(s, a)
    ensures Shaped(Wrapped(s))
    ensures Next(Word32, Wrapped(s), a) == Wrapped(Next(Unbounded, s, a))
  {
    match a
    case Call(i, e) =>
      if i < |s.producers| { WrappedProducer(s, i, Calling(e)); }
    case Produce(i) =>
      if i < |s.producers| { ProducerRefines(s, i); }
    case Tear(i, torn) =>
      if i < |s.producers| && s.producers[i].Claimed? {
        var h := s.producers[i].pos;
        WrappedAt(s, h);
        WrappedSet(s, h, At(s, h).(data := torn));
      }
    case StartPop =>
    case Consume => ConsumerRefines(s);
  }

  /** Every step of a run is taken in time. */
  ghost predicate RunsInTime(s: Machine, actions: seq<Action>)
    requires Shaped(s)
    decreases |actions|
  {
    && s.cap <= HALF
    && (actions != [] ==>
          ActsInTime(s, actions[0]) && RunsInTime(Next(Unbounded, s, actions[0]), actions[1..]))
  }

  lemma {:induction false} RunRefines(s: Machine, actions: seq<Action>)
    requires Inv(s) && RunsInTime(s, actions)
    ensures Shaped(Wrapped(s))
    ensures Run(Word32, Wrapped(s), actions) == Wrapped(Run(Unbounded, s, actions))
    decreases |actions|
  {
    if actions != [] {
      NextRefines(s, actions[0]);
      NextKeepsInv(s, actions[0]);
      RunRefines(Next(Unbounded, s, actions[0]), actions[1..]);
    }
  }

  lemma InitialIsWrapped(s: Machine)
    requires Initial(s) && s.cap <= HALF
    ensures Wrapped(s) == s
  {
    assert Wrapped(s).slots == s.slots;
    assert Wrapped(s).producers == s.producers;
  }

  lemma WrappedRaceFree(u: Machine)
    requires Shaped(u) && u.cap <= HALF && RaceFree(u)
    ensures Shaped(Wrapped(u)) && RaceFree(Wrapped(u))
  {
    var r := Wrapped(u);
    forall i | 0 <= i < |u.producers| && u.producers[i].Claimed?
      ensures SlotOf(r.cap, r.producers[i].pos) == SlotOf(u.cap, u.producers[i].pos)
    {
      WrappedSlot(u.cap, u.producers[i].pos);
    }
    if u.consumer.Copying? { WrappedSlot(u.cap, u.consumer.pos); }
  }

  predicate OwnsSlot(p: Producer) {
    p.Claimed? || p.Written?
  }

  /** Producer i has claimed this position and is copying its entry in or about to publish it. */
  ghost predicate ClaimsAt(s: Machine, i: nat, pos: nat) {
    && i < |s.producers| && pos < |s.log|
    && OwnsSlot(s.producers[i]) && s.producers[i].pos == Wrap(pos)
    && s.log[pos] == Push(i, s.producers[i].entry)
  }

  /** Each producer that owns a slot has it for an unpopped claim of its own, and no two own the same word. */
  ghost predicate WordOneOwner(s: Machine) {
    && (forall i: nat :: i < |s.producers| && OwnsSlot(s.producers[i]) ==>
          exists pos: nat :: |s.popped| <= pos && ClaimsAt(s, i, pos))
    && (forall i: nat, j: nat :: i < j < |s.producers| && OwnsSlot(s.producers[i]) && OwnsSlot(s.producers[j]) ==>
          s.producers[i].pos != s.producers[j].pos)
  }

  /**
   The popped entries are the first claims, unaltered and in order, with at most a ring's worth of later
   ones; and each of those is in the slot of its word, published, or with its producer.
   */
  ghost predicate WordFifo(s: Machine)
    requires Shaped(s)
  {
    && |s.popped| <= |s.log| <= |s.popped| + s.cap
    && s.popped == Entries(s.log[..|s.popped|])
    && forall pos: nat {:trigger s.log[pos]} :: |s.popped| <= pos < |s.log| ==>
         At(s, Wrap(pos)) == Slot(Wrap(pos + 1), s.log[pos].entry) || ClaimsAt(s, s.log[pos].producer, pos)
  }

  lemma WrappedFifo(u: Machine)
    requires Inv(u) && u.cap <= HALF && Fifo(u)
    ensures Shaped(Wrapped(u)) && WordFifo(Wrapped(u))
  {
    var r := Wrapped(u);
    WrappedAt(u, 0);
    forall pos: nat | |u.popped| <= pos < |u.log|
      ensures At(r, Wrap(pos)) == Slot(Wrap(pos + 1), u.log[pos].entry) || ClaimsAt(r, u.log[pos].producer, pos)
    {
      WrappedAt(u, pos);
      assert u.log[pos] == r.log[pos];
      var i := u.log[pos].producer;
      if At(u, pos) != Slot(pos + 1, u.log[pos].entry) {
        assert Owns(u, i, pos);
        assert r.producers[i] == WrapProducer(u.producers[i]);
      }
    }
  }

  lemma WrappedOneOwner(u: Machine)
    requires Inv(u) && u.cap <= HALF
    ensures WordOneOwner(Wrapped(u))
  {
    var r := Wrapped(u);
    forall i: nat | i < |r.producers| && OwnsSlot(r.producers[i])
      ensures exists pos: nat :: |r.popped| <= pos && ClaimsAt(r, i, pos)
    {
      assert ProducerFits(u, i);
      assert ClaimsAt(r, i, u.producers[i].pos);
    }
    forall i: nat, j: nat | i < j < |r.producers| && OwnsSlot(r.producers[i]) && OwnsSlot(r.producers[j])
      ensures r.producers[i].pos != r.producers[j].pos
    {
      assert ProducerFits(u, i) && ProducerFits(u, j);
      var p, q := u.producers[i].pos, u.producers[j].pos;
      if p <= q { WrapInjective(q, p); } else { WrapInjective(p, q); }
    }
  }

  /**
   The 32-bit program, from its constructor's state, under any interleaving whose producers act in
   time: no data race, one owner for each claimed position, first in first out.
   */
  lemma WordRunIsSafe(s: Machine, actions: seq<Action>)
    requires Initial(s) && s.cap >= 2 && RunsInTime(s, actions)
    ensures var r := Run(Word32, s, actions);
            RaceFree(r) && WordOneOwner(r) && WordFifo(r)
  {
    InitialInv(s);
    InitialIsWrapped(s);
    RunRefines(s, actions);
    RunIsSafe(s, actions);
    RunKeepsInv(s, actions);
    RunMovesForward(s, actions);
    var u := Run(Unbounded, s, actions);
    WrappedRaceFree(u);
    WrappedFifo(u);
    WrappedOneOwner(u);
  }
}
