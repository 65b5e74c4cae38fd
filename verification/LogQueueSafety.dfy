/**
 What every interleaving of the ring keeps.  Positions are unbounded here; LogQueueWords shows
 that the 32-bit program follows this machine.
 */
module LogQueueSafety {
  import opened LogQueue
  import opened Words

  /** The oldest position whose slot is not yet free again. */
  function Base(s: Machine): int {
    if s.consumer.Advanced? then s.tail - 1 else s.tail
  }

  ghost predicate InWindow(s: Machine, pos: int) {
    Base(s) <= pos < Base(s) + s.cap
  }

  /** The slot of position `pos`: free, owned by the producer that claimed it, or published. */
  ghost predicate SlotFits(s: Machine, pos: nat)
    requires Shaped(s)
  {
    var slot := At(s, pos);
    if pos >= |s.log| then slot.seqNo == pos
    else
      || (slot.seqNo == pos + 1 && slot.data == s.log[pos].entry)
      || (slot.seqNo == pos && pos >= s.tail && Owns(s, s.log[pos].producer, pos))
  }

  ghost predicate Owns(s: Machine, i: nat, pos: nat) {
    && i < |s.producers|
    && (s.producers[i].Claimed? || s.producers[i].Written?)
    && s.producers[i].pos == pos
  }

  ghost predicate ProducerFits(s: Machine, i: nat)
    requires Shaped(s) && i < |s.producers|
  {
    match s.producers[i]
    case Idle => true
    case Calling(_) => true
    case Loaded(_, h) => h <= s.head
    case Ready(_, h) => h <= s.head && h < Base(s) + s.cap
    case Claimed(e, h) =>
      && s.tail <= h < |s.log| && h < Base(s) + s.cap
      && s.log[h] == Push(i, e) && At(s, h).seqNo == h
    case Written(e, h) =>
      && s.tail <= h < |s.log| && h < Base(s) + s.cap
      && s.log[h] == Push(i, e) && At(s, h) == Slot(h, e)
  }

  ghost predicate ConsumerFits(s: Machine)
    requires Shaped(s)
  {
    match s.consumer
    case Quiet => true
    case Popping(t) => t == s.tail
    case Copying(t) => t == s.tail < |s.log| && At(s, t).seqNo == t + 1
    case Copied(t, out) =>
      t == s.tail < |s.log| && At(s, t).seqNo == t + 1 && out == s.log[t].entry
    case Advanced(t, out) =>
      t + 1 == s.tail <= |s.log| && At(s, t).seqNo == t + 1 && out == s.log[t].entry
  }

  /** The entries of the first n claims. */
  function Entries(log: seq<Push>): (r: seq<Entry>)
    ensures |r| == |log|
    ensures forall k :: 0 <= k < |log| ==> r[k] == log[k].entry
  {
    seq(|log|, k requires 0 <= k < |log| => log[k].entry)
  }

  ghost predicate Inv(s: Machine) {
    && Shaped(s)
    && s.cap >= 2
    && |s.log| == s.head
    && 0 <= Base(s) <= s.tail <= s.head <= Base(s) + s.cap
    && (forall pos: nat {:trigger SlotFits(s, pos)} :: InWindow(s, pos) ==> SlotFits(s, pos))
    && (forall i: nat {:trigger ProducerFits(s, i)} :: i < |s.producers| ==> ProducerFits(s, i))
    && ConsumerFits(s)
    && s.popped == Entries(s.log[..Base(s)])
  }

  // ---- the slots of a window ----

  /** Positions less than a capacity apart have different slots. */
  lemma SlotsDiffer(cap: nat, p: nat, q: nat)
    requires IsCapacity(cap) && p != q && -(cap as int) < p - q < cap
    ensures SlotOf(cap, p) != SlotOf(cap, q)
  {
    SlotIsRemainder(cap, p);
    SlotIsRemainder(cap, q);
    RemaindersDiffer(p, q, cap);
  }

  /** A position and the one a capacity later share their slot. */
  lemma SlotRecurs(cap: nat, p: nat)
    requires IsCapacity(cap)
    ensures SlotOf(cap, p + cap) == SlotOf(cap, p)
  {
    SlotIsRemainder(cap, p);
    SlotIsRemainder(cap, p + cap);
    RemainderRecurs(p, cap);
  }

  /** The position of the window that shares a slot with `pos`, a multiple of the capacity away. */
  lemma WindowPosition(cap: nat, base: nat, pos: nat) returns (w: nat, d: int)
    requires IsCapacity(cap)
    ensures base <= w < base + cap
    ensures SlotOf(cap, w) == SlotOf(cap, pos)
    ensures w == pos + d * cap
    ensures d >= 1 ==> w >= pos + cap
    ensures d <= -1 ==> w <= pos - cap
    ensures d == 0 ==> w == pos
  {
    w, d := RemainderInWindow(pos, base, cap);
    SlotIsRemainder(cap, pos);
    SlotIsRemainder(cap, w);
    MultipleIsFar(d, cap);
  }

  // ---- the invariant ----

  lemma InitialInv(s: Machine)
    requires Initial(s) && s.cap >= 2
    ensures Inv(s)
  {
    forall pos: nat | InWindow(s, pos) ensures SlotFits(s, pos) {
      SlotIsRemainder(s.cap, pos);
      DivModUnique(pos, 0, pos, s.cap);
    }
    assert s.popped == Entries(s.log[..Base(s)]);
  }

  /** Changing producers' program points alone leaves the shared state's part of the invariant. */
  lemma MoveProducer(s: Machine, r: Machine, i: nat, p: Producer)
    requires Inv(s) && i < |s.producers|
    requires r == s.(producers := s.producers[i := p], calls := r.calls, outcomes := r.outcomes)
    requires !s.producers[i].Claimed? && !s.producers[i].Written?
    requires ProducerFits(r, i)
    ensures Inv(r)
  {
    forall pos: nat | InWindow(r, pos) ensures SlotFits(r, pos) {
      assert SlotFits(s, pos);
    }
    forall j: nat | j < |r.producers| ensures ProducerFits(r, j) {
      assert ProducerFits(s, j);
    }
  }

  lemma LoadedKeepsInv(s: Machine, i: nat)
    requires Inv(s) && i < |s.producers| && s.producers[i].Loaded?
    ensures Inv(ProducerStep(Unbounded, s, i))
  {
    var r := ProducerStep(Unbounded, s, i);
    var h := s.producers[i].pos;
    assert ProducerFits(s, i);
    if r.producers[i].Ready? {
      var w, d := WindowPosition(s.cap, Base(s), h);
      assert InWindow(s, w) && SlotFits(s, w);
      assert At(s, w) == At(s, h);
    }
    MoveProducer(s, r, i, r.producers[i]);
  }

  lemma ClaimKeepsInv(s: Machine, i: nat)
    requires Inv(s) && i < |s.producers| && s.producers[i].Ready? && s.producers[i].pos == s.head
    ensures Inv(ProducerStep(Unbounded, s, i))
  {
    var r := ProducerStep(Unbounded, s, i);
    var h := s.head;
    assert ProducerFits(s, i);
    assert InWindow(s, h) && SlotFits(s, h);
    forall pos: nat | InWindow(r, pos) ensures SlotFits(r, pos) {
      assert SlotFits(s, pos);
    }
    forall j: nat | j < |r.producers| ensures ProducerFits(r, j) {
      assert ProducerFits(s, j);
    }
    assert r.popped == Entries(r.log[..Base(r)]);
  }

  /** Positions of other producers in flight do not share the slot of position h. */
  lemma OthersElsewhere(s: Machine, i: nat, j: nat)
    requires Inv(s) && i < |s.producers| && j < |s.producers| && i != j
    requires s.producers[i].Claimed? || s.producers[i].Written?
    requires s.producers[j].Claimed? || s.producers[j].Written?
    ensures SlotOf(s.cap, s.producers[i].pos) != SlotOf(s.cap, s.producers[j].pos)
  {
    assert ProducerFits(s, i) && ProducerFits(s, j);
    SlotsDiffer(s.cap, s.producers[i].pos, s.producers[j].pos);
  }

  /** The slot a producer owns is not the slot the consumer works on. */
  lemma ConsumerElsewhere(s: Machine, i: nat)
    requires Inv(s) && i < |s.producers|
    requires s.producers[i].Claimed? || s.producers[i].Written?
    requires !s.consumer.Quiet? && !s.consumer.Popping?
    ensures SlotOf(s.cap, s.producers[i].pos) != SlotOf(s.cap, s.consumer.pos)
  {
    assert ProducerFits(s, i);
    if s.producers[i].pos != s.consumer.pos {
      SlotsDiffer(s.cap, s.producers[i].pos, s.consumer.pos);
    }
  }

  /** What an owner may do to its slot: change the data, or publish it. */
  ghost predicate OwnerStep(s: Machine, r: Machine, i: nat, slot: Slot, p: Producer)
    requires Shaped(s)
  {
    && i < |s.producers| && (s.producers[i].Claimed? || s.producers[i].Written?)
    && r == SetSlot(s, s.producers[i].pos, slot).(producers := s.producers[i := p], outcomes := r.outcomes)
    && (|| (p.Claimed? && p == s.producers[i] && slot.seqNo == p.pos)
        || (p == Written(s.producers[i].entry, s.producers[i].pos) && slot == Slot(p.pos, p.entry))
        || (p == Idle && slot == Slot(s.producers[i].pos + 1, s.producers[i].entry)))
  }

  lemma OwnerStepKeepsSlots(s: Machine, r: Machine, i: nat, slot: Slot, p: Producer)
    requires Inv(s) && OwnerStep(s, r, i, slot, p)
    ensures Shaped(r)
    ensures forall pos: nat {:trigger SlotFits(r, pos)} :: InWindow(r, pos) ==> SlotFits(r, pos)
  {
    var h := s.producers[i].pos;
    assert ProducerFits(s, i);
    SlotInRange(s.cap, h);
    forall pos: nat | InWindow(r, pos) ensures SlotFits(r, pos) {
      assert InWindow(s, pos) && SlotFits(s, pos);
      SlotInRange(s.cap, pos);
      if pos != h { SlotsDiffer(s.cap, pos, h); }
    }
  }

  /** Nobody else looks at an owner's slot. */
  lemma OwnerStepKeepsInv(s: Machine, r: Machine, i: nat, slot: Slot, p: Producer)
    requires Inv(s) && OwnerStep(s, r, i, slot, p)
    ensures Inv(r)
  {
    OwnerStepKeepsSlots(s, r, i, slot, p);
    assert ProducerFits(s, i);
    SlotInRange(s.cap, s.producers[i].pos);
    forall j: nat | j < |r.producers| ensures ProducerFits(r, j) {
      assert ProducerFits(s, j);
      if j != i && (s.producers[j].Claimed? || s.producers[j].Written?) {
        SlotInRange(s.cap, s.producers[j].pos);
        OthersElsewhere(s, i, j);
      }
    }
    if !s.consumer.Quiet? && !s.consumer.Popping? {
      SlotInRange(s.cap, s.consumer.pos);
      ConsumerElsewhere(s, i);
    }
  }

  lemma ProducerKeepsInv(s: Machine, i: nat)
    requires Inv(s) && i < |s.producers|
    ensures Inv(ProducerStep(Unbounded, s, i))
  {
    var r := ProducerStep(Unbounded, s, i);
    assert ProducerFits(s, i);
    match s.producers[i]
    case Idle =>
    case Calling(e) => MoveProducer(s, r, i, Loaded(e, s.head));
    case Loaded(_, _) => LoadedKeepsInv(s, i);
    case Ready(e, h) =>
      if s.head == h { ClaimKeepsInv(s, i); } else { MoveProducer(s, r, i, Loaded(e, s.head)); }
    case Claimed(e, h) => OwnerStepKeepsInv(s, r, i, Slot(h, e), Written(e, h));
    case Written(e, h) => OwnerStepKeepsInv(s, r, i, Slot(h + 1, e), Idle);
  }

  lemma ReleaseKeepsInv(s: Machine)
    requires Inv(s) && s.consumer.Advanced?
    ensures Inv(ConsumerStep(Unbounded, s))
  {
    var r := ConsumerStep(Unbounded, s);
    var t := s.consumer.pos;
    SlotInRange(s.cap, t);
    SlotRecurs(s.cap, t);
    forall pos: nat | InWindow(r, pos) ensures SlotFits(r, pos) {
      SlotInRange(s.cap, pos);
      if pos != t + s.cap {
        assert InWindow(s, pos) && SlotFits(s, pos);
        SlotsDiffer(s.cap, pos, t);
      }
    }
    forall j: nat | j < |r.producers| ensures ProducerFits(r, j) {
      assert ProducerFits(s, j);
      if s.producers[j].Claimed? || s.producers[j].Written? {
        SlotInRange(s.cap, s.producers[j].pos);
        ConsumerElsewhere(s, j);
      }
    }
    assert s.log[..t + 1] == s.log[..t] + [s.log[t]];
    assert r.popped == Entries(r.log[..Base(r)]);
  }

  /** The consumer's loads and its store of m_tail leave every slot as it was. */
  lemma MoveConsumer(s: Machine, c: Consumer, tail: nat)
    requires Inv(s) && !s.consumer.Advanced?
    requires tail == if c.Advanced? then s.tail + 1 else s.tail
    requires c.Advanced? ==> s.tail < |s.log| && SlotFits(s, s.tail) && At(s, s.tail).seqNo == s.tail + 1
    requires ConsumerFits(s.(consumer := c, tail := tail))
    ensures Inv(s.(consumer := c, tail := tail))
  {
    var r := s.(consumer := c, tail := tail);
    forall pos: nat | InWindow(r, pos) ensures SlotFits(r, pos) {
      assert InWindow(s, pos) && SlotFits(s, pos);
    }
    forall j: nat | j < |r.producers| ensures ProducerFits(r, j) {
      assert ProducerFits(s, j);
    }
  }

  lemma ConsumerKeepsInv(s: Machine)
    requires Inv(s)
    ensures Inv(ConsumerStep(Unbounded, s))
  {
    assert InWindow(s, Base(s)) && SlotFits(s, Base(s));
    match s.consumer
    case Quiet =>
    case Popping(t) =>
      MoveConsumer(s, ConsumerStep(Unbounded, s).consumer, s.tail);
    case Copying(t) =>
      MoveConsumer(s, Copied(t, At(s, t).data), s.tail);
    case Copied(t, out) =>
      MoveConsumer(s, Advanced(t, out), s.tail + 1);
    case Advanced(_, _) =>
      ReleaseKeepsInv(s);
  }

  /** Every action of every thread keeps the invariant. */
  lemma NextKeepsInv(s: Machine, a: Action)
    requires Inv(s)
    ensures Inv(Next(Unbounded, s, a))
  {
    var r := Next(Unbounded, s, a);
    match a
    case Call(i, e) =>
      if i < |s.producers| && s.producers[i].Idle? { MoveProducer(s, r, i, Calling(e)); }
    case Produce(i) =>
      if i < |s.producers| { ProducerKeepsInv(s, i); }
    case Tear(i, torn) =>
      if i < |s.producers| && s.producers[i].Claimed? {
        assert ProducerFits(s, i);
        assert s.producers[i := s.producers[i]] == s.producers;
        OwnerStepKeepsInv(s, r, i, Slot(s.producers[i].pos, torn), s.producers[i]);
      }
    case StartPop =>
      if s.consumer.Quiet? { MoveConsumer(s, Popping(s.tail), s.tail); }
    case Consume =>
      ConsumerKeepsInv(s);
  }

  lemma {:induction false} RunKeepsInv(s: Machine, actions: seq<Action>)
    requires Inv(s)
    ensures Inv(Run(Unbounded, s, actions))
    decreases |actions|
  {
    if actions != [] {
      NextKeepsInv(s, actions[0]);
      RunKeepsInv(Next(Unbounded, s, actions[0]), actions[1..]);
    }
  }

  // ---- safety of every run ----

  /** No two threads ever stand at conflicting accesses of the same slot's data. */
  ghost predicate RaceFree(s: Machine)
    requires Shaped(s)
  {
    && (forall i, j :: 0 <= i < j < |s.producers| && s.producers[i].Claimed? && s.producers[j].Claimed? ==>
          SlotOf(s.cap, s.producers[i].pos) != SlotOf(s.cap, s.producers[j].pos))
    && (s.consumer.Copying? ==>
          forall i :: 0 <= i < |s.producers| && s.producers[i].Claimed? ==>
            SlotOf(s.cap, s.producers[i].pos) != SlotOf(s.cap, s.consumer.pos))
  }

  /** Each position claimed so far has one claimant, recorded in the log; its owner is unique. */
  ghost predicate OneOwner(s: Machine) {
    forall i, pos: nat :: 0 <= i < |s.producers| && Owns(s, i, pos) ==>
      pos < |s.log| && s.log[pos] == Push(i, s.producers[i].entry)
  }

  /**
   The popped entries are the first claims, and every later claim is still there: in its slot,
   published and unaltered, or with its producer, who is still copying it in.
   */
  ghost predicate Fifo(s: Machine)
    requires Shaped(s)
  {
    && |s.popped| <= |s.log| <= |s.popped| + s.cap
    && s.popped == Entries(s.log[..|s.popped|])
    && forall pos: nat {:trigger s.log[pos]} :: |s.popped| <= pos < |s.log| ==>
         || At(s, pos) == Slot(pos + 1, s.log[pos].entry)
         || (Owns(s, s.log[pos].producer, pos) && s.producers[s.log[pos].producer].entry == s.log[pos].entry)
  }

  lemma InvIsSafe(s: Machine)
    requires Inv(s)
    ensures RaceFree(s) && OneOwner(s) && Fifo(s)
  {
    forall i: nat | i < |s.producers| ensures ProducerFits(s, i) {}
    forall i, j | 0 <= i < j < |s.producers| && s.producers[i].Claimed? && s.producers[j].Claimed?
      ensures SlotOf(s.cap, s.producers[i].pos) != SlotOf(s.cap, s.producers[j].pos)
    {
      OthersElsewhere(s, i, j);
    }
    if s.consumer.Copying? {
      forall i | 0 <= i < |s.producers| && s.producers[i].Claimed?
        ensures SlotOf(s.cap, s.producers[i].pos) != SlotOf(s.cap, s.consumer.pos)
      {
        ConsumerElsewhere(s, i);
      }
    }
    forall i, pos: nat | 0 <= i < |s.producers| && Owns(s, i, pos)
      ensures pos < |s.log| && s.log[pos] == Push(i, s.producers[i].entry)
    {
      assert ProducerFits(s, i);
    }
    forall pos: nat | |s.popped| <= pos < |s.log|
      ensures
        || At(s, pos) == Slot(pos + 1, s.log[pos].entry)
        || (Owns(s, s.log[pos].producer, pos) && s.producers[s.log[pos].producer].entry == s.log[pos].entry)
    {
      assert InWindow(s, pos) && SlotFits(s, pos);
      if Owns(s, s.log[pos].producer, pos) { assert ProducerFits(s, s.log[pos].producer); }
    }
  }

  /**
   Every interleaving of any number of producers with the consumer is race-free and first-in
   first-out, from two slots up; one slot passes the compile-time test too, see LogQueueSolo.
   */
  lemma RunIsSafe(s: Machine, actions: seq<Action>)
    requires Initial(s) && s.cap >= 2
    ensures var r := Run(Unbounded, s, actions);
            RaceFree(r) && OneOwner(r) && Fifo(r)
  {
    InitialInv(s);
    RunKeepsInv(s, actions);
    InvIsSafe(Run(Unbounded, s, actions));
  }

  // ---- when the calls fail ----

  /** All slots are taken: each of the `cap` positions from the oldest unreleased one is claimed. */
  ghost predicate Full(s: Machine) {
    s.head == Base(s) + s.cap
  }

  /**
   TryPush gives up, at its load of the sequence number, exactly when its head is the current
   one and all slots are taken; a stale head never makes it give up.
   */
  lemma PushFailsOnlyWhenFull(s: Machine, i: nat)
    requires Inv(s) && i < |s.producers| && s.producers[i].Loaded?
    ensures var r := ProducerStep(Unbounded, s, i);
            (r.producers[i].Idle? <==> Full(s) && s.producers[i].pos == s.head)
            && (s.producers[i].pos == s.head ==> r.producers[i].Idle? || r.producers[i].Ready?)
  {
    var h := s.producers[i].pos;
    assert ProducerFits(s, i);
    var w, d := WindowPosition(s.cap, Base(s), h);
    assert InWindow(s, w) && SlotFits(s, w);
    assert At(s, w) == At(s, h);
    if h == s.head && w < h {
      assert d <= -1;
    }
  }

  /** Position pos has been claimed and its entry published. */
  ghost predicate Published(s: Machine, pos: nat)
    requires Shaped(s)
  {
    pos < |s.log| && (pos < s.tail || At(s, pos).seqNo == pos + 1)
  }

  /** TryPop gives up exactly when the oldest position is not published yet. */
  lemma PopFailsOnlyWhenUnpublished(s: Machine)
    requires Inv(s) && s.consumer.Popping?
    ensures ConsumerStep(Unbounded, s).consumer.Quiet? <==> !Published(s, s.tail)
    ensures !Published(s, s.tail) ==>
              || s.tail == s.head
              || Owns(s, s.log[s.tail].producer, s.tail)
  {
    assert InWindow(s, s.tail) && SlotFits(s, s.tail);
  }

  // ---- the size hint ----

  predicate ByConsumer(a: Action) {
    a.StartPop? || a.Consume?
  }

  lemma NextMovesForward(s: Machine, a: Action)
    requires Inv(s)
    ensures var r := Next(Unbounded, s, a);
            && r.cap == s.cap && s.head <= r.head && s.tail <= r.tail
            && |r.producers| == |s.producers|
            && (!ByConsumer(a) ==> r.tail == s.tail && r.consumer == s.consumer)
  {
    if a.Produce? && a.producer < |s.producers| {
      assert ProducerFits(s, a.producer);
    }
  }

  lemma {:induction false} RunMovesForward(s: Machine, actions: seq<Action>)
    requires Inv(s)
    ensures var r := Run(Unbounded, s, actions);
            && r.cap == s.cap && s.head <= r.head && s.tail <= r.tail
            && |r.producers| == |s.producers|
            && ((forall a :: a in actions ==> !ByConsumer(a)) ==> r.tail == s.tail && r.consumer == s.consumer)
    decreases |actions|
  {
    if actions != [] {
      NextMovesForward(s, actions[0]);
      NextKeepsInv(s, actions[0]);
      RunMovesForward(Next(Unbounded, s, actions[0]), actions[1..]);
      assert actions[0] in actions && forall a :: a in actions[1..] ==> a in actions;
    }
  }

  /** ApproxSize loads m_head, lets other threads run, then loads m_tail. */
  function ApproxSize(head: nat, tail: nat): nat {
    Wrap(Wrap(head) - Wrap(tail))
  }

  lemma ApproxSizeWraps(head: nat, tail: nat)
    ensures 0 <= head - tail < WORD ==> ApproxSize(head, tail) == head - tail
    ensures 0 < tail - head <= WORD ==> ApproxSize(head, tail) == WORD - (tail - head)
  {
    assert head == (head / WORD) * WORD + Wrap(head);
    assert tail == (tail / WORD) * WORD + Wrap(tail);
  }

  /**
   The size hint is the difference of the two loads, at most the capacity, exactly when the tail
   has not overtaken the head that was loaded first; so always when the consumer's own thread asks.
   */
  lemma ApproxSizeBound(s: Machine, between: seq<Action>)
    requires Inv(s) && s.cap < HALF
    ensures var r := Run(Unbounded, s, between);
            && (r.tail - s.head <= HALF ==> (ApproxSize(s.head, r.tail) <= s.cap <==> r.tail <= s.head))
            && (r.tail <= s.head ==> ApproxSize(s.head, r.tail) == s.head - r.tail)
            && ((forall a :: a in between ==> !ByConsumer(a)) ==> r.tail <= s.head)
  {
    var r := Run(Unbounded, s, between);
    RunMovesForward(s, between);
    ApproxSizeWraps(s.head, r.tail);
  }
}
