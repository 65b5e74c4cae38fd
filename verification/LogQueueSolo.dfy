/**
 Calls that run without interruption, and the runs built from them that show the bounds on a
 producer's lag cannot be relaxed.
 */
module LogQueueSolo {
  import opened LogQueue
  import opened LogQueueSafety
  import opened LogQueueWords
  import opened Words

  function Times(a: Action, k: nat): seq<Action>
    decreases k
  {
    if k == 0 then [] else [a] + Times(a, k - 1)
  }

  /** A call of TryPush that runs to its end at the first attempt. */
  function PushActions(i: nat, e: Entry): seq<Action> {
    [Call(i, e)] + Times(Produce(i), 5)
  }

  /** A call of TryPop that finds an entry. */
  function PopActions(): seq<Action> {
    [StartPop] + Times(Consume, 4)
  }

  lemma RunCons(ar: Arith, s: Machine, a: Action, rest: seq<Action>)
    requires Shaped(s)
    ensures Run(ar, s, [a] + rest) == Run(ar, Next(ar, s, a), rest)
    ensures RunsInTime(s, [a] + rest) <==>
            s.cap <= HALF && ActsInTime(s, a) && RunsInTime(Next(Unbounded, s, a), rest)
  {
    assert ([a] + rest)[1..] == rest;
  }

  lemma RunConcat(ar: Arith, s: Machine, a: seq<Action>, b: seq<Action>)
    requires Shaped(s)
    ensures Run(ar, s, a + b) == Run(ar, Run(ar, s, a), b)
    ensures RunsInTime(s, a) && RunsInTime(Run(Unbounded, s, a), b) ==> RunsInTime(s, a + b)
    decreases |a|
  {
    RunsJoin(ar, s, a, b);
    if RunsInTime(s, a) && RunsInTime(Run(Unbounded, s, a), b) { TimesJoin(s, a, b); }
  }

  lemma {:induction false} RunsJoin(ar: Arith, s: Machine, a: seq<Action>, b: seq<Action>)
    requires Shaped(s)
    ensures Run(ar, s, a + b) == Run(ar, Run(ar, s, a), b)
    decreases |a|
  {
    if a == [] {
      assert a + b == b;
    } else {
      assert (a + b)[1..] == a[1..] + b;
      RunsJoin(ar, Next(ar, s, a[0]), a[1..], b);
    }
  }

  lemma {:induction false} TimesJoin(s: Machine, a: seq<Action>, b: seq<Action>)
    requires Shaped(s) && RunsInTime(s, a) && RunsInTime(Run(Unbounded, s, a), b)
    ensures RunsInTime(s, a + b)
    decreases |a|
  {
    if a == [] {
      assert a + b == b;
    } else {
      assert (a + b)[1..] == a[1..] + b;
      TimesJoin(Next(Unbounded, s, a[0]), a[1..], b);
    }
  }

  /** The steps of one TryPush that nobody interrupts and that finds a free slot. */
  lemma PushSteps(s: Machine, i: nat, e: Entry)
    returns (s1: Machine, s2: Machine, s3: Machine, s4: Machine, s5: Machine)
    requires Inv(s) && i < |s.producers| && s.producers[i].Idle? && !Full(s)
    ensures s1 == Next(Unbounded, s, Call(i, e)) && Inv(s1) && s1.producers[i] == Calling(e)
    ensures s2 == Next(Unbounded, s1, Produce(i)) && Inv(s2)
    ensures s2.producers[i] == Loaded(e, s.head) && s2.head == s.head
    ensures s3 == Next(Unbounded, s2, Produce(i)) && Inv(s3) && s3.producers[i] == Ready(e, s.head) && s3.head == s.head
    ensures s4 == Next(Unbounded, s3, Produce(i)) && Inv(s4) && s4.producers[i] == Claimed(e, s.head)
    ensures s5 == Next(Unbounded, s4, Produce(i)) && Inv(s5)
    ensures s5 == s.(head := s.head + 1, log := s.log + [Push(i, e)], calls := s.calls + [Push(i, e)],
                     producers := s.producers[i := Written(e, s.head)], slots := s5.slots)
  {
    s1 := Next(Unbounded, s, Call(i, e));
    NextKeepsInv(s, Call(i, e));
    s2 := Next(Unbounded, s1, Produce(i));
    NextKeepsInv(s1, Produce(i));
    PushFailsOnlyWhenFull(s2, i);
    s3 := Next(Unbounded, s2, Produce(i));
    NextKeepsInv(s2, Produce(i));
    s4 := Next(Unbounded, s3, Produce(i));
    NextKeepsInv(s3, Produce(i));
    s5 := Next(Unbounded, s4, Produce(i));
    NextKeepsInv(s4, Produce(i));
  }

  lemma SoloPushFits(s: Machine, i: nat, e: Entry)
    requires Inv(s) && s.cap <= HALF && i < |s.producers| && s.producers[i].Idle? && !Full(s)
    ensures var r := Run(Unbounded, s, PushActions(i, e));
            r == s.(head := s.head + 1, log := s.log + [Push(i, e)], calls := s.calls + [Push(i, e)],
                    outcomes := s.outcomes + [Return(Push(i, e), true)], slots := r.slots)
    ensures RunsInTime(s, PushActions(i, e))
  {
    var s1, s2, s3, s4, s5 := PushSteps(s, i, e);
    assert s.producers[i := Written(e, s.head)][i := Idle] == s.producers;
    RunCons(Unbounded, s5, Produce(i), Times(Produce(i), 0));
    RunCons(Unbounded, s4, Produce(i), Times(Produce(i), 1));
    RunCons(Unbounded, s3, Produce(i), Times(Produce(i), 2));
    RunCons(Unbounded, s2, Produce(i), Times(Produce(i), 3));
    RunCons(Unbounded, s1, Produce(i), Times(Produce(i), 4));
    RunCons(Unbounded, s, Call(i, e), Times(Produce(i), 5));
  }

  /** An action that changes nothing does not do so by being repeated. */
  lemma {:induction false} Stutters(s: Machine, a: Action, k: nat)
    requires Shaped(s) && ActsInTime(s, a) && Next(Unbounded, s, a) == s
    ensures Run(Unbounded, s, Times(a, k)) == s && RunsInTime(s, Times(a, k))
    decreases k
  {
    if k > 0 {
      RunCons(Unbounded, s, a, Times(a, k - 1));
      Stutters(s, a, k - 1);
    }
  }

  lemma SoloPushRejected(s: Machine, i: nat, e: Entry)
    requires Inv(s) && s.cap <= HALF && i < |s.producers| && s.producers[i].Idle? && Full(s)
    ensures Run(Unbounded, s, PushActions(i, e)) ==
            s.(calls := s.calls + [Push(i, e)], outcomes := s.outcomes + [Return(Push(i, e), false)])
    ensures RunsInTime(s, PushActions(i, e))
  {
    var s1 := Next(Unbounded, s, Call(i, e));
    NextKeepsInv(s, Call(i, e));
    var s2 := Next(Unbounded, s1, Produce(i));
    NextKeepsInv(s1, Produce(i));
    PushFailsOnlyWhenFull(s2, i);
    var s3 := Next(Unbounded, s2, Produce(i));
    assert s3.producers == s.producers;
    Stutters(s3, Produce(i), 3);
    RunCons(Unbounded, s2, Produce(i), Times(Produce(i), 3));
    RunCons(Unbounded, s1, Produce(i), Times(Produce(i), 4));
    RunCons(Unbounded, s, Call(i, e), Times(Produce(i), 5));
  }

  /** An uninterrupted TryPush appends its entry exactly when a slot is free, and else changes nothing. */
  lemma SoloPush(s: Machine, i: nat, e: Entry)
    requires Inv(s) && s.cap <= HALF && i < |s.producers| && s.producers[i].Idle?
    ensures var r := Run(Unbounded, s, PushActions(i, e));
            r == if Full(s) then
                   s.(calls := s.calls + [Push(i, e)], outcomes := s.outcomes + [Return(Push(i, e), false)])
                 else
                   s.(head := s.head + 1, log := s.log + [Push(i, e)], calls := s.calls + [Push(i, e)],
                      outcomes := s.outcomes + [Return(Push(i, e), true)], slots := r.slots)
    ensures RunsInTime(s, PushActions(i, e))
  {
    if Full(s) { SoloPushRejected(s, i, e); } else { SoloPushFits(s, i, e); }
  }

  /** The consumer's steps of one successful TryPop. */
  lemma PopSteps(s: Machine) returns (s1: Machine, s2: Machine, s3: Machine, s4: Machine)
    requires Inv(s) && s.consumer.Quiet? && Published(s, s.tail)
    ensures s1 == Next(Unbounded, s, StartPop)
    ensures s2 == Next(Unbounded, s1, Consume) && s2 == s.(consumer := Copying(s.tail))
    ensures s3 == Next(Unbounded, s2, Consume)
    ensures s4 == Next(Unbounded, s3, Consume)
    ensures s4 == s.(consumer := Advanced(s.tail, s.log[s.tail].entry), tail := s.tail + 1)
  {
    s1 := Next(Unbounded, s, StartPop);
    NextKeepsInv(s, StartPop);
    PopFailsOnlyWhenUnpublished(s1);
    s2 := Next(Unbounded, s1, Consume);
    NextKeepsInv(s1, Consume);
    s3 := Next(Unbounded, s2, Consume);
    NextKeepsInv(s2, Consume);
    s4 := Next(Unbounded, s3, Consume);
  }

  lemma SoloPopNothing(s: Machine)
    requires Inv(s) && s.cap <= HALF && s.consumer.Quiet? && !Published(s, s.tail)
    ensures Run(Unbounded, s, PopActions()) == s && RunsInTime(s, PopActions())
  {
    var s1 := Next(Unbounded, s, StartPop);
    NextKeepsInv(s, StartPop);
    PopFailsOnlyWhenUnpublished(s1);
    assert Next(Unbounded, s1, Consume) == s;
    Stutters(s, Consume, 3);
    RunCons(Unbounded, s1, Consume, Times(Consume, 3));
    RunCons(Unbounded, s, StartPop, Times(Consume, 4));
  }

  lemma SoloPopTakes(s: Machine)
    requires Inv(s) && s.cap <= HALF && s.consumer.Quiet? && Published(s, s.tail)
    ensures var r := Run(Unbounded, s, PopActions());
            r == s.(tail := s.tail + 1, popped := s.popped + [s.log[s.tail].entry], slots := r.slots)
    ensures RunsInTime(s, PopActions())
  {
    var s1, s2, s3, s4 := PopSteps(s);
    RunCons(Unbounded, s4, Consume, Times(Consume, 0));
    RunCons(Unbounded, s3, Consume, Times(Consume, 1));
    RunCons(Unbounded, s2, Consume, Times(Consume, 2));
    RunCons(Unbounded, s1, Consume, Times(Consume, 3));
    RunCons(Unbounded, s, StartPop, Times(Consume, 4));
  }

  /** An uninterrupted TryPop takes the oldest claim's entry out exactly when it is published; else nothing changes. */
  lemma SoloPop(s: Machine)
    requires Inv(s) && s.cap <= HALF && s.consumer.Quiet?
    ensures var r := Run(Unbounded, s, PopActions());
            r == if !Published(s, s.tail) then s
                 else s.(tail := s.tail + 1, popped := s.popped + [s.log[s.tail].entry], slots := r.slots)
    ensures RunsInTime(s, PopActions())
  {
    if Published(s, s.tail) { SoloPopTakes(s); } else { SoloPopNothing(s); }
  }

  // ---- what a longer lag does ----

  /** Producer 0 is stalled at program point p; everyone else is outside the queue, which is empty. */
  ghost predicate Stalled(s: Machine, p: Producer, n: nat) {
    && Inv(s) && s.cap < HALF && (p.Loaded? || p.Ready?)
    && s.producers == [p, Idle] && s.consumer == Quiet
    && s.head == s.tail == n
  }

  /** One entry passes through the queue while producer 0 stalls. */
  lemma PassOne(m: Machine, p: Producer, n: nat, e: Entry)
    requires Stalled(m, p, n)
    ensures var acts := PushActions(1, e) + PopActions();
            RunsInTime(m, acts) && Stalled(Run(Unbounded, m, acts), p, n + 1)
    ensures Run(Unbounded, m, PushActions(1, e) + PopActions()).cap == m.cap
  {
    SoloPush(m, 1, e);
    RunKeepsInv(m, PushActions(1, e));
    var pushed := Run(Unbounded, m, PushActions(1, e));
    assert ProducerFits(pushed, 0);
    PublishedUnlessOwned(pushed, n);
    SoloPop(pushed);
    RunKeepsInv(pushed, PopActions());
    RunConcat(Unbounded, m, PushActions(1, e), PopActions());
  }

  /** A claimed position that no producer is copying into is published. */
  lemma PublishedUnlessOwned(s: Machine, pos: nat)
    requires Inv(s) && Base(s) <= pos < s.head
    requires forall i :: 0 <= i < |s.producers| ==> !Owns(s, i, pos)
    ensures Published(s, pos)
  {
    assert InWindow(s, pos) && SlotFits(s, pos);
  }

  /** n entries pass through the queue while producer 0 stalls. */
  lemma {:induction false} Churn(s: Machine, p: Producer, n: nat, e: Entry) returns (actions: seq<Action>)
    requires Stalled(s, p, 0)
    ensures RunsInTime(s, actions)
    ensures Stalled(Run(Unbounded, s, actions), p, n)
    ensures Run(Unbounded, s, actions).cap == s.cap
  {
    if n == 0 {
      actions := [];
    } else {
      var before := Churn(s, p, n - 1, e);
      PassOne(Run(Unbounded, s, before), p, n - 1, e);
      var pair := PushActions(1, e) + PopActions();
      actions := before + pair;
      RunConcat(Unbounded, s, before, pair);
    }
  }

  /** The pushes of k entries that nobody pops. */
  lemma {:induction false} Fill(s: Machine, n: nat, k: nat, e: Entry) returns (actions: seq<Action>)
    requires Inv(s) && s.cap < HALF && |s.producers| == 2 && s.producers[1] == Idle
    requires s.consumer == Quiet && s.head == s.tail == n && k <= s.cap
    ensures RunsInTime(s, actions)
    ensures var r := Run(Unbounded, s, actions);
            && Inv(r) && r.cap == s.cap && r.producers == s.producers && r.consumer == Quiet
            && r.tail == n && r.head == n + k
  {
    if k == 0 {
      actions := [];
    } else {
      var before := Fill(s, n, k - 1, e);
      var m := Run(Unbounded, s, before);
      SoloPush(m, 1, e);
      RunKeepsInv(m, PushActions(1, e));
      actions := before + PushActions(1, e);
      RunConcat(Unbounded, s, before, PushActions(1, e));
    }
  }

  /** The constructor's state with two producers outside the queue. */
  lemma Fresh(cap: nat, e: Entry) returns (s: Machine)
    requires IsCapacity(cap)
    ensures Initial(s) && s.cap == cap && s.producers == [Idle, Idle]
  {
    s := Machine(cap, 0, 0, seq(cap, i requires 0 <= i < cap => Slot(i, e)), [Idle, Idle], Quiet, [], [], [], []);
  }

  lemma NoRemainder(q: nat, m: nat)
    requires m > 0
    ensures (q * m) % m == 0
  {
    DivModUnique(q * m, q, 0, m);
  }

  /** 2^31 and 2^32 fall on the slot of position 0. */
  lemma HalfIsMultiple(cap: nat)
    requires IsCapacity(cap) && 2 <= cap < HALF
    ensures SlotOf(cap, HALF) == SlotOf(cap, 0) == SlotOf(cap, WORD)
  {
    PowerOfTwoTest(cap);
    var k: nat :| cap == Pow2(k);
    WordIsPow2();
    if k > 31 { Pow2Mono(32, k); }
    Pow2Split(31 - k, k);
    Pow2Split(32 - k, k);
    NoRemainder(Pow2(31 - k), cap);
    NoRemainder(Pow2(32 - k), cap);
    SlotIsRemainder(cap, HALF);
    SlotIsRemainder(cap, WORD);
    SlotIsRemainder(cap, 0);
  }

  /** Producer 0 has loaded the head of the fresh ring. */
  lemma StartLoaded(cap: nat, e: Entry) returns (s: Machine, start: seq<Action>)
    requires IsCapacity(cap) && 2 <= cap < HALF
    ensures Initial(s) && s.cap == cap && RunsInTime(s, start)
    ensures Stalled(Run(Unbounded, s, start), Loaded(e, 0), 0)
  {
    s := Fresh(cap, e);
    InitialInv(s);
    start := [Call(0, e)] + Times(Produce(0), 1);
    var s1 := Next(Unbounded, s, Call(0, e));
    NextKeepsInv(s, Call(0, e));
    NextKeepsInv(s1, Produce(0));
    RunCons(Unbounded, s1, Produce(0), Times(Produce(0), 0));
    RunCons(Unbounded, s, Call(0, e), Times(Produce(0), 1));
  }

  /** Producer 0 has found position 0 free and is about to compare-and-swap. */
  lemma StartReady(cap: nat, e: Entry) returns (s: Machine, start: seq<Action>)
    requires IsCapacity(cap) && 2 <= cap < HALF
    ensures Initial(s) && s.cap == cap && RunsInTime(s, start)
    ensures Stalled(Run(Unbounded, s, start), Ready(e, 0), 0)
  {
    var loading: seq<Action>;
    s, loading := StartLoaded(cap, e);
    InitialInv(s);
    RunMovesForward(s, loading);
    var m := Run(Unbounded, s, loading);
    PushFailsOnlyWhenFull(m, 0);
    assert ProducerFits(m, 0);
    NextKeepsInv(m, Produce(0));
    RunCons(Unbounded, m, Produce(0), Times(Produce(0), 0));
    start := loading + Times(Produce(0), 1);
    RunConcat(Unbounded, s, loading, Times(Produce(0), 1));
  }

  lemma MisreadStep(u: Machine, e: Entry)
    requires u.cap < HALF && Stalled(u, Loaded(e, 0), HALF - u.cap + 1)
    ensures ProducerStep(Unbounded, u, 0).producers[0] == Calling(e)
    ensures var r := Wrapped(u);
            Shaped(r) && r.producers == [Loaded(e, 0), Idle] && r.head == r.tail && r.consumer == Quiet
    ensures ProducerStep(Word32, Wrapped(u), 0).outcomes == u.outcomes + [Return(Push(0, e), false)]
  {
    HalfIsMultiple(u.cap);
    assert InWindow(u, HALF) && SlotFits(u, HALF);
    assert At(u, 0).seqNo == HALF;
    WrappedAt(u, 0);
    assert At(Wrapped(u), 0).seqNo == HALF;
    assert Wrapped(u).producers == [Loaded(e, 0), Idle];
  }

  /** The queue has been used so often since producer 0's load that 2^31 positions separate them. */
  lemma StallLoaded(cap: nat, e: Entry) returns (s: Machine, actions: seq<Action>)
    requires IsCapacity(cap) && 2 <= cap < HALF
    ensures Initial(s) && s.cap == cap && RunsInTime(s, actions)
    ensures Stalled(Run(Unbounded, s, actions), Loaded(e, 0), HALF - cap + 1)
    ensures Run(Unbounded, s, actions).cap == cap
  {
    var start: seq<Action>;
    s, start := StartLoaded(cap, e);
    InitialInv(s);
    RunMovesForward(s, start);
    var m := Run(Unbounded, s, start);
    var churn := Churn(m, Loaded(e, 0), HALF - cap + 1, e);
    actions := start + churn;
    RunConcat(Unbounded, s, start, churn);
  }

  /**
   One position past the bound, a 32-bit TryPush misreads its slot: after a run in which every
   step was in time, the queue is empty and no one is in it but producer 0, whose next step
   nevertheless reports the queue full.
   */
  lemma LaterLoadMisreads(cap: nat, e: Entry) returns (s: Machine, actions: seq<Action>)
    requires IsCapacity(cap) && 2 <= cap < HALF
    ensures Initial(s) && s.cap == cap && RunsInTime(s, actions)
    ensures var u := Run(Unbounded, s, actions);
            && Stalled(u, Loaded(e, 0), HALF - cap + 1)
            && ProducerStep(Unbounded, u, 0).producers[0] == Calling(e)
    ensures var r := Run(Word32, s, actions);
            && r.producers == [Loaded(e, 0), Idle] && r.head == r.tail && r.consumer == Quiet
            && ProducerStep(Word32, r, 0).outcomes == r.outcomes + [Return(Push(0, e), false)]
  {
    s, actions := StallLoaded(cap, e);
    InitialInv(s);
    InitialIsWrapped(s);
    RunRefines(s, actions);
    var u := Run(Unbounded, s, actions);
    MisreadStep(u, e);
  }

  lemma SwapStep(u: Machine, e: Entry)
    requires Inv(u) && u.cap < HALF && u.producers == [Ready(e, 0), Idle]
    requires u.head == WORD && u.consumer == Copying(WORD - u.cap)
    ensures ProducerStep(Unbounded, u, 0).producers[0] == Loaded(e, WORD)
    ensures Shaped(Wrapped(u)) && |Wrapped(u).producers| == 2
    ensures !RaceFree(ProducerStep(Word32, Wrapped(u), 0))
  {
    HalfIsMultiple(u.cap);
    SlotRecurs(u.cap, WORD - u.cap);
    WrappedSlot(u.cap, WORD - u.cap);
    var w := Wrapped(u);
    assert w.producers[0] == Ready(e, 0) && w.head == 0;
    var r := ProducerStep(Word32, w, 0);
    assert r.producers[0] == Claimed(e, 0) && r.consumer == Copying(Wrap(WORD - u.cap));
  }

  /** From a state with published entries, the consumer starts to copy the oldest. */
  lemma StartCopying(f: Machine)
    requires Inv(f) && f.cap <= HALF && f.consumer == Quiet && f.tail < f.head
    requires forall i :: 0 <= i < |f.producers| ==> !Owns(f, i, f.tail)
    ensures Run(Unbounded, f, [StartPop] + Times(Consume, 1)) == f.(consumer := Copying(f.tail))
    ensures RunsInTime(f, [StartPop] + Times(Consume, 1))
  {
    PublishedUnlessOwned(f, f.tail);
    var s1, s2, s3, s4 := PopSteps(f);
    RunCons(Unbounded, s1, Consume, Times(Consume, 0));
    RunCons(Unbounded, f, StartPop, Times(Consume, 1));
  }

  /** The ring fills up while producer 0 waits, and the consumer starts to copy the oldest entry. */
  lemma FillAndCopy(m: Machine, e: Entry) returns (actions: seq<Action>)
    requires Stalled(m, Ready(e, 0), 0)
    ensures RunsInTime(m, actions)
    ensures var u := Run(Unbounded, m, actions);
            && Inv(u) && u.cap == m.cap && u.producers == [Ready(e, 0), Idle]
            && u.head == WORD && u.consumer == Copying(WORD - u.cap)
  {
    var churn := Churn(m, Ready(e, 0), WORD - m.cap, e);
    var c := Run(Unbounded, m, churn);
    var fill := Fill(c, WORD - m.cap, m.cap, e);
    var f := Run(Unbounded, c, fill);
    StartCopying(f);
    RunKeepsInv(f, ([StartPop] + Times(Consume, 1)));
    RunConcat(Unbounded, c, fill, ([StartPop] + Times(Consume, 1)));
    RunConcat(Unbounded, m, churn, fill + ([StartPop] + Times(Consume, 1)));
    actions := churn + (fill + ([StartPop] + Times(Consume, 1)));
  }

  /**
   A compare-and-swap 2^32 positions late succeeds in 32 bits: after a run in which every step was
   in time, producer 0's next step makes it copy its entry into the very slot that the consumer
   is copying out.
   */
  lemma LaterSwapRaces(cap: nat, e: Entry) returns (s: Machine, actions: seq<Action>)
    requires IsCapacity(cap) && 2 <= cap < HALF
    ensures Initial(s) && s.cap == cap && RunsInTime(s, actions)
    ensures var u := Run(Unbounded, s, actions);
            && u.producers == [Ready(e, 0), Idle] && u.head == WORD && u.consumer.Copying?
            && ProducerStep(Unbounded, u, 0).producers[0] == Loaded(e, WORD)
    ensures var r := Run(Word32, s, actions);
            |r.producers| == 2 && RaceFree(r) && !RaceFree(ProducerStep(Word32, r, 0))
  {
    var start: seq<Action>;
    s, start := StartReady(cap, e);
    InitialInv(s);
    InitialIsWrapped(s);
    RunMovesForward(s, start);
    var m := Run(Unbounded, s, start);
    var rest := FillAndCopy(m, e);
    actions := start + rest;
    RunConcat(Unbounded, s, start, rest);
    RunRefines(s, actions);
    WordRunIsSafe(s, actions);
    SwapStep(Run(Unbounded, s, actions), e);
  }

  // ---- a ring of one slot ----

  /**
   With one slot, which the compile-time test admits, "published" for one position and "free" for
   the next are the same number: two calls return true and the first entry is gone.
   */
  lemma OneSlotLosesAnEntry(s: Machine, e: Entry, f: Entry)
    requires Initial(s) && s.cap == 1 && |s.producers| == 1
    ensures var r := Run(Unbounded, s, PushActions(0, e) + PushActions(0, f));
            && r.outcomes == [Return(Push(0, e), true), Return(Push(0, f), true)]
            && r.log == [Push(0, e), Push(0, f)] && r.popped == []
            && r.slots == [Slot(2, f)]
  {
    var r := OneSlotTwice(s, e, f);
    RunConcat(Unbounded, s, PushActions(0, e), PushActions(0, f));
  }

  lemma OneSlotTwice(s: Machine, e: Entry, f: Entry) returns (r: Machine)
    requires Initial(s) && s.cap == 1 && |s.producers| == 1
    ensures r == Run(Unbounded, Run(Unbounded, s, PushActions(0, e)), PushActions(0, f))
    ensures r.outcomes == [Return(Push(0, e), true), Return(Push(0, f), true)]
    ensures r.log == [Push(0, e), Push(0, f)] && r.popped == [] && r.slots == [Slot(2, f)]
  {
    assert s.producers == [Idle] && s.slots[0].seqNo == 0;
    var m := OneSlotPush(s, e);
    r := OneSlotPush(m, f);
  }

  lemma OneSlotSteps(s: Machine, e: Entry)
    returns (s1: Machine, s2: Machine, s3: Machine, s4: Machine, s5: Machine)
    requires Shaped(s) && s.cap == 1 && s.producers == [Idle] && s.slots[0].seqNo == s.head
    ensures s1 == Next(Unbounded, s, Call(0, e))
    ensures s2 == Next(Unbounded, s1, Produce(0))
    ensures s3 == Next(Unbounded, s2, Produce(0))
    ensures s4 == Next(Unbounded, s3, Produce(0))
    ensures s5 == Next(Unbounded, s4, Produce(0))
    ensures s5 == s.(head := s.head + 1, slots := [Slot(s.head, e)], producers := [Written(e, s.head)],
                     log := s.log + [Push(0, e)], calls := s.calls + [Push(0, e)])
  {
    SlotInRange(1, s.head);
    s1 := Next(Unbounded, s, Call(0, e));
    s2 := Next(Unbounded, s1, Produce(0));
    s3 := Next(Unbounded, s2, Produce(0));
    assert s3.producers == [Ready(e, s.head)];
    s4 := Next(Unbounded, s3, Produce(0));
    assert s4.producers == [Claimed(e, s.head)];
    s5 := Next(Unbounded, s4, Produce(0));
    assert s5.slots == [Slot(s.head, e)];
  }

  lemma OneSlotPush(s: Machine, e: Entry) returns (r: Machine)
    requires Shaped(s) && s.cap == 1 && s.producers == [Idle] && s.slots[0].seqNo == s.head
    ensures r == Run(Unbounded, s, PushActions(0, e))
    ensures r == s.(head := s.head + 1, slots := [Slot(s.head + 1, e)], log := s.log + [Push(0, e)],
                    calls := s.calls + [Push(0, e)], outcomes := s.outcomes + [Return(Push(0, e), true)])
  {
    var s1, s2, s3, s4, s5 := OneSlotSteps(s, e);
    r := Next(Unbounded, s5, Produce(0));
    SlotInRange(1, s.head);
    assert r.slots == [Slot(s.head + 1, e)];
    RunCons(Unbounded, s5, Produce(0), Times(Produce(0), 0));
    RunCons(Unbounded, s4, Produce(0), Times(Produce(0), 1));
    RunCons(Unbounded, s3, Produce(0), Times(Produce(0), 2));
    RunCons(Unbounded, s2, Produce(0), Times(Produce(0), 3));
    RunCons(Unbounded, s1, Produce(0), Times(Produce(0), 4));
    RunCons(Unbounded, s, Call(0, e), Times(Produce(0), 5));
  }
}
