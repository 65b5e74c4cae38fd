/**
 The multi-producer single-consumer ring as a machine over its atomic steps.

 Every load, store and compare-and-swap of a shared variable is one step, in sequentially
 consistent order, so the machine's runs are the interleavings of any number of producers
 with one consumer.  The same code is read with two kinds of arithmetic: the program's
 32-bit words, and unbounded counters.
 */
module LogQueue {
  import opened Words

  /** One log message. */
  datatype Entry = Entry(timeStamp: int, level: nat, loggerName: string, msg: string)

  datatype Arith = Unbounded | Word32 {
    function Inc(x: nat, n: nat): nat {
      if Unbounded? then x + n else Wrap(x + n)
    }

    function Diff(seqNo: nat, pos: nat): int {
      if Unbounded? then seqNo - pos else SignedDiff(seqNo, pos)
    }
  }

  datatype Slot = Slot(seqNo: nat, data: Entry)

  /** Where a producer stands inside TryPush. */
  datatype Producer =
    | Idle
    | Calling(entry: Entry)               // about to load m_head
    | Loaded(entry: Entry, pos: nat)      // about to load the slot's sequence number
    | Ready(entry: Entry, pos: nat)       // saw diff == 0: about to compare-and-swap m_head
    | Claimed(entry: Entry, pos: nat)     // owns the position: copying the entry into the slot
    | Written(entry: Entry, pos: nat)     // copied: about to publish

  /** Where the consumer stands inside TryPop. */
  datatype Consumer =
    | Quiet
    | Popping(pos: nat)                   // about to load the slot's sequence number
    | Copying(pos: nat)                   // saw diff == 0: copying the entry out
    | Copied(pos: nat, out: Entry)        // about to store m_tail
    | Advanced(pos: nat, out: Entry)      // about to release the slot

  /** A call of TryPush by a producer. */
  datatype Push = Push(producer: nat, entry: Entry)
  datatype Return = Return(push: Push, ok: bool)

  /**
   The shared variables, the threads' program points, and four histories: the calls made, the
   calls in the order their compare-and-swap succeeded, the calls that returned, the entries popped.
   */
  datatype Machine = Machine(
    cap: nat, head: nat, tail: nat, slots: seq<Slot>,
    producers: seq<Producer>, consumer: Consumer,
    calls: seq<Push>, log: seq<Push>, outcomes: seq<Return>, popped: seq<Entry>)

  datatype Action =
    | Call(producer: nat, entry: Entry)
    | Produce(producer: nat)
    | Tear(producer: nat, torn: Entry)    // part of the entry's copy into the slot becomes visible
    | StartPop
    | Consume

  /** The compile-time test of the capacity of a ring with at least one slot. */
  predicate IsCapacity(cap: nat) {
    cap >= 1 && And(cap, cap - 1) == 0
  }

  /** `pos & (m_capacity - 1)` */
  function SlotOf(cap: nat, pos: nat): nat
    requires cap >= 1
  {
    And(pos, cap - 1)
  }

  ghost predicate Shaped(s: Machine) {
    && IsCapacity(s.cap)
    && |s.slots| == s.cap
  }

  lemma SlotIsRemainder(cap: nat, pos: nat)
    requires IsCapacity(cap)
    ensures SlotOf(cap, pos) == pos % cap < cap
  {
    PowerOfTwoTest(cap);
    var k: nat :| cap == Pow2(k);
    MaskIsRemainder(pos, k);
  }

  lemma SlotInRange(cap: nat, pos: nat)
    requires IsCapacity(cap)
    ensures SlotOf(cap, pos) < cap
  {
    SlotIsRemainder(cap, pos);
  }

  function At(s: Machine, pos: nat): Slot
    requires Shaped(s)
  {
    SlotInRange(s.cap, pos);
    s.slots[SlotOf(s.cap, pos)]
  }

  function SetSlot(s: Machine, pos: nat, slot: Slot): (r: Machine)
    requires Shaped(s)
    ensures Shaped(r)
  {
    SlotInRange(s.cap, pos);
    s.(slots := s.slots[SlotOf(s.cap, pos) := slot])
  }

  function SetProducer(s: Machine, i: nat, p: Producer): (r: Machine)
    requires i < |s.producers|
  {
    s.(producers := s.producers[i := p])
  }

  /** One step of producer i inside TryPush. */
  function ProducerStep(ar: Arith, s: Machine, i: nat): (r: Machine)
    requires Shaped(s) && i < |s.producers|
    ensures Shaped(r)
  {
    match s.producers[i]
    case Idle => s
    case Calling(e) =>
      SetProducer(s, i, Loaded(e, s.head))
    case Loaded(e, h) =>
      var diff := ar.Diff(At(s, h).seqNo, h);
      if diff == 0 then SetProducer(s, i, Ready(e, h))
      else if diff < 0 then
        SetProducer(s, i, Idle).(outcomes := s.outcomes + [Return(Push(i, e), false)])
      else SetProducer(s, i, Calling(e))
    case Ready(e, h) =>
      if s.head == h then
        SetProducer(s, i, Claimed(e, h)).(head := ar.Inc(h, 1), log := s.log + [Push(i, e)])
      else SetProducer(s, i, Loaded(e, s.head))
    case Claimed(e, h) =>
      SetProducer(SetSlot(s, h, At(s, h).(data := e)), i, Written(e, h))
    case Written(e, h) =>
      SetProducer(SetSlot(s, h, At(s, h).(seqNo := ar.Inc(h, 1))), i, Idle)
        .(outcomes := s.outcomes + [Return(Push(i, e), true)])
  }

  /** One step of the consumer inside TryPop. */
  function ConsumerStep(ar: Arith, s: Machine): (r: Machine)
    requires Shaped(s)
    ensures Shaped(r)
  {
    match s.consumer
    case Quiet => s
    case Popping(t) =>
      if ar.Diff(At(s, t).seqNo, ar.Inc(t, 1)) == 0 then s.(consumer := Copying(t))
      else s.(consumer := Quiet)
    case Copying(t) =>
      s.(consumer := Copied(t, At(s, t).data))
    case Copied(t, out) =>
      s.(consumer := Advanced(t, out), tail := ar.Inc(t, 1))
    case Advanced(t, out) =>
      SetSlot(s, t, At(s, t).(seqNo := ar.Inc(t, s.cap))).(consumer := Quiet, popped := s.popped + [out])
  }

  /** The machine after an action; an action whose thread is elsewhere changes nothing. */
  function Next(ar: Arith, s: Machine, a: Action): (r: Machine)
    requires Shaped(s)
    ensures Shaped(r)
  {
    match a
    case Call(i, e) =>
      if i < |s.producers| && s.producers[i].Idle? then
        SetProducer(s, i, Calling(e)).(calls := s.calls + [Push(i, e)])
      else s
    case Produce(i) =>
      if i < |s.producers| then ProducerStep(ar, s, i) else s
    case Tear(i, torn) =>
      if i < |s.producers| && s.producers[i].Claimed? then
        SetSlot(s, s.producers[i].pos, At(s, s.producers[i].pos).(data := torn))
      else s
    case StartPop =>
      if s.consumer.Quiet? then s.(consumer := Popping(s.tail)) else s
    case Consume =>
      ConsumerStep(ar, s)
  }

  function Run(ar: Arith, s: Machine, actions: seq<Action>): (r: Machine)
    requires Shaped(s)
    ensures Shaped(r)
    decreases |actions|
  {
    if actions == [] then s else Run(ar, Next(ar, s, actions[0]), actions[1..])
  }

  /** The constructor's state, with the threads outside the queue and any entries in the slots. */
  ghost predicate Initial(s: Machine) {
    && Shaped(s)
    && s.head == s.tail == 0
    && (forall i :: 0 <= i < s.cap ==> s.slots[i].seqNo == i)
    && (forall i :: 0 <= i < |s.producers| ==> s.producers[i] == Idle)
    && s.consumer == Quiet
    && s.calls == s.log == [] && s.outcomes == [] && s.popped == []
  }
}
