/**
 What every interleaving of the subscriber's loop and Stop keeps.
 */
module StateSubscriberSafety {
  import opened StateSubscriber

  function Reads(n: nat): (ops: seq<Op>)
    ensures |ops| == n && forall i :: 0 <= i < n ==> ops[i] == Read
  {
    if n == 0 then [] else Reads(n - 1) + [Read]
  }

  predicate Finishing(s: Subscriber) {
    s.call == WaitFinish || s.call == Finished
  }

  /** The start of the call, n reads, and then at most one finish. */
  predicate InSequence(s: Subscriber, n: nat) {
    s.issued == [StartCall] + Reads(n) + (if Finishing(s) then [Finish] else [])
  }

  predicate Exactly(p: Outstanding, start: nat, read: nat, finish: nat) {
    p.start == start && p.read == read && p.finish == finish
  }

  predicate AtMostOneEach(p: Outstanding) {
    p.start == 0 && p.read <= 1 && p.finish <= 1
  }

  /** Which operations can be outstanding, and how many of the reads have brought something. */
  predicate Phase(s: Subscriber, n: nat) {
    match s.call
    case WaitStart =>
      && n == 0 && s.received == []
      && Exactly(s.pending, if s.loop == Waiting then 1 else 0, 0, 0)
    case WaitReadDone =>
      n >= 1 && |s.received| == n - 1
      && Exactly(s.pending, 0, if s.loop == Waiting then 1 else 0, 0)
      && s.loop != Exited
    case WaitFinish =>
      n >= 1 && |s.received| == n - 1 && AtMostOneEach(s.pending)
    case Finished => n >= 1 && n - 1 <= |s.received| <= n && AtMostOneEach(s.pending) && s.loop != Waiting
    case _ => false
  }

  /** What was delivered is what was received once there was a handler, but for one message when all is over. */
  predicate Delivers(s: Subscriber) {
    && s.skipped <= |s.received| && (!s.handler ==> s.skipped == |s.received|)
    && |s.received| - 1 <= s.skipped + |s.delivered| <= |s.received|
    && s.delivered == s.received[s.skipped..s.skipped + |s.delivered|]
    && (s.call != Finished ==> s.skipped + |s.delivered| == |s.received|)
  }

  ghost predicate Inv(s: Subscriber, n: nat) {
    InSequence(s, n) && Phase(s, n) && Delivers(s)
  }

  lemma StartInv()
    ensures Inv(STARTED, 0)
  {
  }

  lemma OneMoreRead(n: nat)
    ensures [StartCall] + Reads(n) + [] + [Read] == [StartCall] + Reads(n + 1) + []
  {
  }

  function ReadsAfter(s: Subscriber, a: Action, n: nat): nat {
    if Enabled(s, a) && a.Event? && a.ok && (s.call == WaitStart || s.call == WaitReadDone) then n + 1 else n
  }

  lemma NextInSequence(s: Subscriber, a: Action, n: nat)
    requires InSequence(s, n)
    ensures s.call != ReadyToRead && s.call != PeerDisconnected ==> InSequence(Next(s, a), ReadsAfter(s, a, n))
  {
    OneMoreRead(n);
  }

  lemma FailedTurnPhase(s: Subscriber, op: Op, m: Message, n: nat)
    requires Phase(s, n) && s.loop == Waiting && s.pending.Of(op) > 0
    ensures Phase(Turn(s, op, false, m), n)
  {
  }

  lemma FirstTurnPhase(s: Subscriber, op: Op, m: Message, n: nat)
    requires Phase(s, n) && s.loop == Waiting && s.pending.Of(op) > 0 && s.call == WaitStart
    ensures Phase(Turn(s, op, true, m), n + 1)
  {
  }

  lemma ReadTurnPhase(s: Subscriber, op: Op, m: Message, n: nat)
    requires Phase(s, n) && s.loop == Waiting && s.pending.Of(op) > 0 && s.call == WaitReadDone
    ensures Phase(Turn(s, op, true, m), n + 1)
  {
  }

  lemma LastTurnPhase(s: Subscriber, op: Op, m: Message, n: nat)
    requires Phase(s, n) && s.loop == Waiting && s.pending.Of(op) > 0 && s.call == WaitFinish
    ensures Phase(Turn(s, op, true, m), n)
  {
  }

  lemma TurnPhase(s: Subscriber, op: Op, m: Message, n: nat)
    requires Phase(s, n) && s.loop == Waiting && s.pending.Of(op) > 0
    ensures Phase(Turn(s, op, true, m), if s.call == WaitFinish then n else n + 1)
  {
    match s.call
    case WaitStart => FirstTurnPhase(s, op, m, n);
    case WaitReadDone => ReadTurnPhase(s, op, m, n);
    case _ => LastTurnPhase(s, op, m, n);
  }

  lemma NextPhase(s: Subscriber, a: Action, n: nat)
    requires Phase(s, n)
    ensures Phase(Next(s, a), ReadsAfter(s, a, n))
  {
    if a.Event? && Enabled(s, a) {
      if a.ok { TurnPhase(s, a.op, a.m, n); } else { FailedTurnPhase(s, a.op, a.m, n); }
    }
  }

  lemma TurnDelivers(s: Subscriber, op: Op, ok: bool, m: Message, n: nat)
    requires Delivers(s) && Phase(s, n) && s.loop == Waiting && s.pending.Of(op) > 0
    ensures Delivers(Turn(s, op, ok, m))
  {
    if op == Read && ok {
      if s.call == WaitReadDone { ReadDelivers(s, m); } else { LastReadDelivers(s, m, n); }
    }
  }

  /** A message that is read is handed on, if there is a handler. */
  lemma ReadDelivers(s: Subscriber, m: Message)
    requires Delivers(s) && s.call == WaitReadDone && s.pending.Of(Read) > 0
    ensures Delivers(Turn(s, Read, true, m))
  {
    Extended(s.received, m, s.skipped, s.skipped + |s.delivered|);
  }

  /** One that comes in when the call is finishing is the last, and is not. */
  lemma LastReadDelivers(s: Subscriber, m: Message, n: nat)
    requires Delivers(s) && Phase(s, n) && s.loop == Waiting && s.pending.Of(Read) > 0 && s.call != WaitReadDone
    ensures Delivers(Turn(s, Read, true, m))
  {
    assert s.call == WaitFinish;
    Extended(s.received, m, s.skipped, s.skipped + |s.delivered|);
  }

  lemma Extended(received: seq<Message>, m: Message, from: nat, to: nat)
    requires from <= to <= |received|
    ensures (received + [m])[from..to] == received[from..to]
    ensures to == |received| ==> (received + [m])[from..to + 1] == received[from..to] + [m]
  {
  }

  lemma NextKeepsInv(s: Subscriber, a: Action, n: nat) returns (k: nat)
    requires Inv(s, n)
    ensures Inv(Next(s, a), k)
  {
    k := ReadsAfter(s, a, n);
    NextInSequence(s, a, n);
    NextPhase(s, a, n);
    if a.Event? && Enabled(s, a) { TurnDelivers(s, a.op, a.ok, a.m, n); }
  }

  lemma {:induction false} RunKeepsInv(s: Subscriber, actions: seq<Action>, n: nat) returns (k: nat)
    requires Inv(s, n)
    ensures Inv(Run(s, actions), k)
    decreases |actions|
  {
    k := n;
    if actions != [] {
      k := NextKeepsInv(s, actions[0], n);
      k := RunKeepsInv(Next(s, actions[0]), actions[1..], k);
    }
  }

  /**
   Over every interleaving: the call is started, read n times and finished at most once, with no read
   after the finish; never are two reads outstanding, nor two finishes; what the handler got is what
   was received since it was registered, in order, but for at most the last message.
   */
  lemma SubscriberIsOrderly(actions: seq<Action>) returns (n: nat)
    ensures var r := Run(STARTED, actions);
            && r.issued == [StartCall] + Reads(n) + (if Finishing(r) then [Finish] else [])
            && r.pending.read <= 1 && r.pending.finish <= 1
            && r.skipped <= |r.received|
            && r.delivered <= r.received[r.skipped..]
            && |r.received| - r.skipped - |r.delivered| <= (if r.call == Finished then 1 else 0)
  {
    StartInv();
    n := RunKeepsInv(STARTED, actions, 0);
  }

  /** A failed completion, and one of a call that is finishing, hand nothing on and issue nothing. */
  lemma TurnLeaves(s: Subscriber, n: nat, op: Op, ok: bool, m: Message)
    requires Phase(s, n) && s.loop == Waiting && s.pending.Of(op) > 0 && (!ok || Finishing(s))
    ensures var r := Turn(s, op, ok, m);
            && r.loop == Cancelling && r.call == (if ok then Finished else s.call)
            && r.issued == s.issued && r.delivered == s.delivered
  {
    if ok { assert s.call == WaitFinish; }
  }

  lemma TurnStays(s: Subscriber, n: nat, op: Op, m: Message)
    requires Phase(s, n) && s.loop == Waiting && s.pending.Of(op) > 0 && !Finishing(s)
    ensures var r := Turn(s, op, true, m);
            && r.loop == Waiting && r.call == WaitReadDone && r.issued == s.issued + [Read]
            && r.pending.read == 1 && r.pending.start == 0
            && r.delivered == (if s.call == WaitReadDone && s.handler then s.delivered + [m] else s.delivered)
  {
  }

  /**
   A completion makes the loop leave exactly when it failed or the call was finishing.  Otherwise the next
   read is issued, and a message that came in is handed to the handler if there is one.
   */
  lemma LoopLeavesIff(s: Subscriber, n: nat, op: Op, ok: bool, m: Message)
    requires Phase(s, n) && Enabled(s, Event(op, ok, m))
    ensures var r := Next(s, Event(op, ok, m));
            && r.loop == (if !ok || Finishing(s) then Cancelling else Waiting)
            && if r.loop == Waiting then
                 && r.call == WaitReadDone && r.pending.read == 1 && r.issued == s.issued + [Read]
                 && r.delivered == (if s.call == WaitReadDone && s.handler then s.delivered + [m] else s.delivered)
               else
                 && r.call == (if ok then Finished else s.call)
                 && r.issued == s.issued && r.delivered == s.delivered
  {
    if !ok || Finishing(s) { TurnLeaves(s, n, op, ok, m); } else { TurnStays(s, n, op, m); }
  }

  /** Cancelling, by the loop or by Stop, finishes a call that is being read, and no other. */
  lemma CancelFinishesIff(s: Subscriber, n: nat, a: Action)
    requires Phase(s, n) && (a == LoopCancels || a == StopCancels) && Enabled(s, a)
    ensures var r := Next(s, a);
            && r.issued == s.issued + (if s.call == WaitReadDone then [Finish] else [])
            && r.call == (if s.call == WaitReadDone then WaitFinish else s.call)
            && r.loop == (if a == LoopCancels then Exited else s.loop)
            && r.delivered == s.delivered
  {
    assert s.issued + [] == s.issued;
  }

  // ---- after the queue is shut ----

  /** The call can still issue something: it is being read, or its start has yet to complete. */
  predicate StillActive(s: Subscriber) {
    s.call == WaitReadDone || s.pending.start > 0
  }

  lemma {:induction false} QuietWhenInactive(s: Subscriber, actions: seq<Action>, n: nat)
    requires Inv(s, n) && !StillActive(s)
    ensures Run(s, actions).issued == s.issued
    decreases |actions|
  {
    if actions != [] {
      var k := NextKeepsInv(s, actions[0], n);
      QuietWhenInactive(Next(s, actions[0]), actions[1..], k);
    }
  }

  lemma ActiveIssues(s: Subscriber, n: nat) returns (a: Action)
    requires Phase(s, n) && StillActive(s)
    ensures |Next(s, a).issued| == |s.issued| + 1
  {
    if s.loop == Cancelling {
      a := LoopCancels;
    } else if s.call == WaitStart {
      a := Event(StartCall, true, "");
    } else {
      a := Event(Read, true, "");
    }
  }

  /**
   Shutting the queue is the end of all operations exactly when the call is not active: Stop cancels a
   call that is being read, but one whose start has not completed it leaves as it is.
   */
  lemma ShutIsFinalIffInactive(s: Subscriber, n: nat)
    requires Inv(s, n) && s.shut
    ensures (forall actions :: Run(s, actions).issued == s.issued) <==> !StillActive(s)
  {
    if StillActive(s) {
      var a := ActiveIssues(s, n);
      assert [a][1..] == [] && Run(s, [a]) == Run(Next(s, a), []);
      assert Run(s, [a]).issued != s.issued;
    } else {
      forall actions ensures Run(s, actions).issued == s.issued { QuietWhenInactive(s, actions, n); }
    }
  }

  /** Stop during the connection attempt: a read is issued on a queue that has been shut. */
  lemma StopBeforeStartReadsLate()
    ensures var shut := Run(STARTED, [StopCancels, ShutQueue]);
            var late := Next(shut, Event(StartCall, true, ""));
            shut.shut && shut.issued == [StartCall] && late.issued == [StartCall, Read]
  {
    assert [StopCancels, ShutQueue][1..] == [ShutQueue] && [ShutQueue][1..] == [];
    assert Run(STARTED, [StopCancels, ShutQueue]) == STARTED.(shut := true);
  }
}
