/**
 The ring as the program stores it: 32-bit words and a slot array updated in place.  A call here
 runs without interruption, but may start while any other thread is stopped anywhere inside its
 own call.  `m` is the state of the machine that the cells stand for.
 */
module LogQueueCells {
  import opened LogQueue
  import opened LogQueueSafety
  import opened LogQueueWords
  import opened Words

  class Ring {
    const capacity: nat
    var head: nat
    var tail: nat
    const seqNos: array<nat>
    const data: array<Entry>
    ghost var m: Machine

    ghost predicate Valid()
      reads this, seqNos, data
    {
      && Inv(m) && m.cap == capacity <= HALF
      && head == Wrap(m.head) && tail == Wrap(m.tail)
      && seqNos.Length == data.Length == capacity
      && (forall i :: 0 <= i < capacity ==> seqNos[i] == Wrap(m.slots[i].seqNo))
      && (forall i :: 0 <= i < capacity ==> data[i] == m.slots[i].data)
    }

    constructor (capacity: nat, producers: nat, blank: Entry)
      requires IsCapacity(capacity) && 2 <= capacity <= HALF
      ensures Valid() && Initial(m)
      ensures this.capacity == capacity && |m.producers| == producers
      ensures fresh(seqNos) && fresh(data)
    {
      this.capacity := capacity;
      var numbers := Numbers(capacity);
      seqNos := numbers;
      data := new Entry[capacity](i => blank);
      head, tail := 0, 0;
      m := FreshMachine(capacity, producers, blank);
      new;
      InitialInv(m);
    }

    /** TryPush from its first load on. */
    method TryPush(ghost i: nat, entry: Entry) returns (ok: bool)
      requires Valid() && i < |m.producers| && m.producers[i] == Idle
      modifies this, seqNos, data
      ensures Valid()
      ensures ok <==> !Full(old(m))
      ensures m == (if ok then PushedTo(old(m), i, entry, m.slots) else RejectedBy(old(m), i, entry))
                     .(calls := old(m.calls) + [Push(i, entry)])
    {
      ghost var s := m;
      m := Next(Unbounded, m, Call(i, entry));
      NextKeepsInv(s, Call(i, entry));
      ghost var s1 := m;
      m := Next(Unbounded, m, Produce(i));
      NextKeepsInv(s1, Produce(i));
      assert m.producers[i := Idle] == s.producers;
      ok := Continue(i, entry, head, m.head);
    }

    /**
     TryPush from a head loaded earlier, at most 2^31 minus the capacity positions ago.  It takes the
     next position if any slot is free and gives up otherwise, however stale its head.
     */
    method Continue(ghost i: nat, entry: Entry, loaded: nat, ghost pos: nat) returns (ok: bool)
      requires Valid() && i < |m.producers| && m.producers[i] == Loaded(entry, pos)
      requires loaded == Wrap(pos) && m.head - pos + capacity <= HALF
      modifies this, seqNos, data
      ensures Valid()
      ensures ok <==> !Full(old(m))
      ensures m == if ok then PushedTo(old(m), i, entry, m.slots) else RejectedBy(old(m), i, entry)
    {
      var h := loaded;
      ghost var p: nat := pos;
      assert ProducerFits(m, i);
      while true
        invariant Valid() && h == Wrap(p) && p <= m.head && m.head - p + capacity <= HALF
        invariant m == old(m).(producers := old(m.producers)[i := Loaded(entry, p)])
        decreases m.head - p
      {
        var diff := LoadDifference(i, entry, h, p);
        if diff == 0 {
          var swapped := CompareAndSwap(i, entry, h, p);
          if swapped {
            Publish(i, h, p, entry);
            return true;
          }
          h, p := head, m.head;
        } else if diff < 0 {
          return false;
        } else {
          ghost var s := m;
          NextKeepsInv(s, Produce(i));
          m := Next(Unbounded, m, Produce(i));
          h, p := head, m.head;
        }
      }
    }

    /** Loading the slot's sequence number, relative to the head value h. */
    method LoadDifference(ghost i: nat, entry: Entry, h: nat, ghost pos: nat) returns (diff: int)
      requires Valid() && i < |m.producers| && m.producers[i] == Loaded(entry, pos)
      requires h == Wrap(pos) && m.head - pos + capacity <= HALF
      modifies `m
      ensures Valid()
      ensures diff < 0 <==> Full(old(m)) && pos == old(m.head)
      ensures diff > 0 ==> pos < old(m.head)
      ensures m == if diff == 0 then old(m).(producers := old(m.producers)[i := Ready(entry, pos)])
                   else if diff < 0 then RejectedBy(old(m), i, entry)
                   else old(m).(producers := old(m.producers)[i := Calling(entry)])
    {
      ghost var s := m;
      assert ProducerFits(s, i);
      LoadedDiffBound(s, i);
      WrappedDiff(At(s, pos).seqNo, pos);
      NextKeepsInv(s, Produce(i));
      PushFailsOnlyWhenFull(s, i);
      CellOf(pos);
      diff := SignedDiff(seqNos[SlotOf(capacity, h)], h);
      m := Next(Unbounded, m, Produce(i));
    }

    /** The compare-and-swap of m_head from h to its successor. */
    method CompareAndSwap(ghost i: nat, entry: Entry, h: nat, ghost pos: nat) returns (swapped: bool)
      requires Valid() && i < |m.producers| && m.producers[i] == Ready(entry, pos)
      requires h == Wrap(pos) && m.head - pos < WORD
      modifies `m, `head
      ensures Valid()
      ensures swapped <==> pos == old(m.head)
      ensures m == if swapped then old(m).(head := pos + 1, log := old(m.log) + [Push(i, entry)],
                                           producers := old(m.producers)[i := Claimed(entry, pos)])
                   else old(m).(producers := old(m.producers)[i := Loaded(entry, old(m.head))])
      ensures !swapped ==> pos < old(m.head)
      ensures swapped ==> !Full(old(m))
    {
      ghost var s := m;
      assert ProducerFits(s, i);
      WrapInjective(m.head, pos);
      WrapInc(pos, 1);
      NextKeepsInv(s, Produce(i));
      m := Next(Unbounded, m, Produce(i));
      swapped := head == h;
      if swapped { head := Wrap(h + 1); }
    }

    /** The slot of a position, found from its 32-bit value. */
    lemma CellOf(pos: nat)
      requires Valid()
      ensures SlotOf(capacity, Wrap(pos)) == SlotOf(capacity, pos) < capacity
      ensures seqNos[SlotOf(capacity, pos)] == Wrap(At(m, pos).seqNo)
      ensures data[SlotOf(capacity, pos)] == At(m, pos).data
    {
      WrappedSlot(capacity, pos);
      SlotInRange(capacity, pos);
    }

    /** Copying the entry in and storing the sequence number, by the producer that claimed the position. */
    method Publish(ghost i: nat, h: nat, ghost pos: nat, entry: Entry)
      requires Valid() && i < |m.producers| && m.producers[i] == Claimed(entry, pos)
      requires h == Wrap(pos)
      modifies `m, seqNos, data
      ensures Valid()
      ensures m == old(m).(producers := old(m.producers)[i := Idle], slots := m.slots,
                           outcomes := old(m.outcomes) + [Return(Push(i, entry), true)])
    {
      CellOf(pos);
      WrapInc(pos, 1);
      var k := SlotOf(capacity, h);
      ghost var s := m;
      NextKeepsInv(s, Produce(i));
      m := Next(Unbounded, m, Produce(i));
      data[k] := entry;
      ghost var s1 := m;
      NextKeepsInv(s1, Produce(i));
      m := Next(Unbounded, m, Produce(i));
      seqNos[k] := Wrap(h + 1);
      assert m.producers == s.producers[i := Idle];
    }

    /** TryPop, which leaves the caller's entry alone when it finds nothing. */
    method TryPop(current: Entry) returns (ok: bool, out: Entry)
      requires Valid() && m.consumer == Quiet
      modifies this, seqNos, data
      ensures Valid()
      ensures ok <==> Published(old(m), old(m.tail))
      ensures !ok ==> out == current && m == old(m)
      ensures ok ==>
                && out == old(m).log[old(m.tail)].entry
                && m == old(m).(tail := old(m.tail) + 1, popped := old(m.popped) + [out], slots := m.slots)
    {
      ghost var s := m;
      ghost var pos := m.tail;
      m := Next(Unbounded, m, StartPop);
      NextKeepsInv(s, StartPop);
      ghost var s1 := m;
      PopFailsOnlyWhenUnpublished(s1);
      PoppingRefines(s1);
      NextKeepsInv(s1, Consume);
      CellOf(pos);
      var t := tail;
      var k := SlotOf(capacity, t);
      var diff := SignedDiff(seqNos[k], Wrap(t + 1));
      m := Next(Unbounded, m, Consume);
      if diff == 0 {
        out := TakeOut(k, t, pos);
        return true, out;
      }
      return false, current;
    }

    /** Copying the entry out, storing m_tail and releasing the slot. */
    method TakeOut(k: nat, t: nat, ghost pos: nat) returns (out: Entry)
      requires Valid() && m.consumer == Copying(pos)
      requires t == Wrap(pos) && k == SlotOf(capacity, pos)
      modifies this, seqNos, data
      ensures Valid()
      ensures old(m.tail) < |old(m.log)| && out == old(m.log)[old(m.tail)].entry
      ensures m == old(m).(tail := old(m.tail) + 1, popped := old(m.popped) + [out], slots := m.slots,
                           consumer := Quiet)
    {
      CellOf(pos);
      WrapInc(pos, 1);
      WrapInc(pos, capacity);
      ghost var released := TakeSteps(m);
      assert released.slots == m.slots[k := m.slots[k].(seqNo := pos + capacity)];
      out := data[k];
      tail := Wrap(t + 1);
      seqNos[k] := Wrap(t + capacity);
      m := released;
    }

    /** Called by the consumer's thread, the size hint is the number of claimed, unpopped positions. */
    method ApproxSize() returns (n: nat)
      requires Valid() && m.consumer == Quiet
      ensures n == m.head - m.tail <= capacity
    {
      ApproxSizeWraps(m.head, m.tail);
      n := Wrap(head - tail);
    }
  }

  /** The loop over the slots: each slot's sequence number is its index. */
  method Numbers(n: nat) returns (numbers: array<nat>)
    ensures fresh(numbers) && numbers.Length == n && forall k :: 0 <= k < n ==> numbers[k] == k
  {
    numbers := new nat[n](i => 0);
    for i := 0 to n
      invariant forall k :: 0 <= k < i ==> numbers[k] == k
    {
      numbers[i] := i;
    }
  }

  /** The constructor's state, with all threads outside the queue. */
  ghost function FreshMachine(capacity: nat, producers: nat, blank: Entry): (m: Machine)
    requires IsCapacity(capacity)
    ensures Initial(m) && m.cap == capacity && |m.producers| == producers
    ensures forall i :: 0 <= i < capacity ==> m.slots[i] == Slot(i, blank)
  {
    Machine(capacity, 0, 0, seq(capacity, i requires 0 <= i < capacity => Slot(i, blank)),
            seq(producers, i => Idle), Quiet, [], [], [], [])
  }

  /** The consumer's last three steps: copying the entry out, storing m_tail, releasing the slot. */
  lemma TakeSteps(s: Machine) returns (r: Machine)
    requires Inv(s) && s.consumer.Copying?
    ensures r == Next(Unbounded, Next(Unbounded, Next(Unbounded, s, Consume), Consume), Consume) && Inv(r)
    ensures s.tail < |s.log| && s.consumer.pos == s.tail && SlotOf(s.cap, s.tail) < |s.slots|
    ensures s.slots[SlotOf(s.cap, s.tail)].data == s.log[s.tail].entry
    ensures var k := SlotOf(s.cap, s.tail);
            r == s.(tail := s.tail + 1, popped := s.popped + [s.log[s.tail].entry], consumer := Quiet,
                    slots := s.slots[k := s.slots[k].(seqNo := s.tail + s.cap)])
  {
    SlotInRange(s.cap, s.tail);
    var s1 := Next(Unbounded, s, Consume);
    NextKeepsInv(s, Consume);
    var s2 := Next(Unbounded, s1, Consume);
    NextKeepsInv(s1, Consume);
    r := Next(Unbounded, s2, Consume);
    NextKeepsInv(s2, Consume);
  }

  /** A successful push: the next position claimed, logged and published, and the producer outside again. */
  ghost function PushedTo(s: Machine, i: nat, entry: Entry, slots: seq<Slot>): Machine
    requires i < |s.producers|
  {
    s.(head := s.head + 1, log := s.log + [Push(i, entry)], slots := slots,
       producers := s.producers[i := Idle],
       outcomes := s.outcomes + [Return(Push(i, entry), true)])
  }

  ghost function RejectedBy(s: Machine, i: nat, entry: Entry): Machine
    requires i < |s.producers|
  {
    s.(producers := s.producers[i := Idle],
       outcomes := s.outcomes + [Return(Push(i, entry), false)])
  }
}
