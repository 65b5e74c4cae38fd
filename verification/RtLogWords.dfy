/**
 The logger around the 32-bit ring: it does what the logger around unbounded counters does, as long
 as the producers act in time, so everything proved of that one holds of the program.
 */
module RtLogWords {
  import opened LogQueue
  import opened LogQueueSafety
  import opened LogQueueHistory
  import opened LogQueueWords
  import opened RtLog
  import opened Words

  function WrappedLogger(s: Logger): Logger {
    s.(q := Wrapped(s.q))
  }

  /** The producer that takes the step has not been left too far behind by the head. */
  ghost predicate StepsInTime(s: Logger, step: Step) {
    s.q.cap <= HALF && (step.PushStep? ==> LagOk(s.q, step.producer))
  }

  ghost predicate LogRunsInTime(s: Logger, steps: seq<Step>)
    requires Shaped(s.q)
    decreases |steps|
  {
    && s.q.cap <= HALF
    && (steps != [] ==>
          StepsInTime(s, steps[0]) && LogRunsInTime(LogNext(Unbounded, s, steps[0]), steps[1..]))
  }

  lemma PollRefines(s: Logger)
    requires Inv(s.q) && s.q.cap <= HALF && s.drainer.Draining?
    ensures Shaped(Wrapped(s.q))
    ensures Drain(Word32, WrappedLogger(s)) == WrappedLogger(Drain(Unbounded, s))
  {
    ConsumerRefines(s.q);
  }

  lemma DrainRefines(s: Logger)
    requires Inv(s.q) && s.q.cap <= HALF
    ensures Shaped(Wrapped(s.q))
    ensures Drain(Word32, WrappedLogger(s)) == WrappedLogger(Drain(Unbounded, s))
  {
    WrappedAt(s.q, 0);
    if s.drainer.Draining? { PollRefines(s); }
  }

  lemma PushRefines(s: Logger, i: nat)
    requires Inv(s.q) && StepsInTime(s, PushStep(i))
    ensures Shaped(Wrapped(s.q))
    ensures LogNext(Word32, WrappedLogger(s), PushStep(i)) == WrappedLogger(LogNext(Unbounded, s, PushStep(i)))
  {
    NextRefines(s.q, Produce(i));
  }

  lemma EnqueueRefines(s: Logger, i: nat, e: Entry)
    requires Inv(s.q) && s.q.cap <= HALF
    ensures Shaped(Wrapped(s.q))
    ensures LogNext(Word32, WrappedLogger(s), Enqueue(i, e)) == WrappedLogger(LogNext(Unbounded, s, Enqueue(i, e)))
  {
    NextRefines(s.q, Call(i, e));
  }

  lemma TearRefines(s: Logger, i: nat, torn: Entry)
    requires Inv(s.q) && s.q.cap <= HALF
    ensures Shaped(Wrapped(s.q))
    ensures LogNext(Word32, WrappedLogger(s), TearStep(i, torn))
         == WrappedLogger(LogNext(Unbounded, s, TearStep(i, torn)))
  {
    NextRefines(s.q, Tear(i, torn));
  }

  /** The steps of Sync do not look at the ring. */
  lemma SyncNoQueue(s: Logger, q: Machine, step: Step)
    requires Shaped(s.q) && Shaped(q) && (step.RegisterSync? || step.SyncStep?)
    ensures LogNext(Word32, s.(q := q), step) == LogNext(Unbounded, s, step).(q := q)
    ensures LogNext(Unbounded, s, step).q == s.q
  {
  }

  /** Nor do counting, flushing and stopping. */
  lemma OtherNoQueue(s: Logger, q: Machine, step: Step)
    requires Shaped(s.q) && Shaped(q) && (step.CountDrop? || step.Flush? || step.Stop? || step.Join?)
    ensures LogNext(Word32, s.(q := q), step) == LogNext(Unbounded, s, step).(q := q)
    ensures LogNext(Unbounded, s, step).q == s.q
  {
  }

  lemma LogNextRefines(s: Logger, step: Step)
    requires Inv(s.q) && StepsInTime(s, step)
    ensures Shaped(Wrapped(s.q))
    ensures LogNext(Word32, WrappedLogger(s), step) == WrappedLogger(LogNext(Unbounded, s, step))
  {
    match step
    case Enqueue(i, e) => EnqueueRefines(s, i, e);
    case PushStep(i) => PushRefines(s, i);
    case TearStep(i, torn) => TearRefines(s, i, torn);
    case DrainStep => DrainRefines(s);
    case _ =>
      WrappedAt(s.q, 0);
      if step.RegisterSync? || step.SyncStep? {
        SyncNoQueue(s, Wrapped(s.q), step);
      } else {
        OtherNoQueue(s, Wrapped(s.q), step);
      }
  }

  /** The 32-bit logger is the one with unbounded counters, every counter of the ring reduced modulo 2^32. */
  lemma {:induction false} LogRunRefines(s: Logger, steps: seq<Step>)
    requires LogInv(s) && LogRunsInTime(s, steps)
    ensures Shaped(Wrapped(s.q))
    ensures LogRun(Word32, WrappedLogger(s), steps) == WrappedLogger(LogRun(Unbounded, s, steps))
    decreases |steps|
  {
    WrappedAt(s.q, 0);
    if steps != [] {
      LogNextRefines(s, steps[0]);
      LogNextKeepsInv(s, steps[0]);
      LogRunRefines(LogNext(Unbounded, s, steps[0]), steps[1..]);
    }
  }

  lemma InitialLoggerIsWrapped(s: Logger)
    requires LogInitial(s) && s.q.cap <= HALF
    ensures WrappedLogger(s) == s
  {
    InitialIsWrapped(s.q);
  }

  // ---- the theorems of the 32-bit logger ----

  /** In every continuation whose producers act in time, caller k's Sync returns with the first n claims flushed. */
  ghost predicate WordSyncFlushes(u: Logger, k: nat, n: nat)
    requires Shaped(u.q) && Shaped(Wrapped(u.q))
  {
    forall steps :: LogRunsInTime(LogNext(Unbounded, u, RegisterSync(k)), steps) ==>
      SyncedFlushed(LogRun(Word32, LogNext(Word32, WrappedLogger(u), RegisterSync(k)), steps), k, n)
  }

  lemma SyncedRefines(u: Logger, k: nat, steps: seq<Step>, n: nat)
    requires LogInv(u) && u.q.cap <= HALF && LogRunsInTime(LogNext(Unbounded, u, RegisterSync(k)), steps)
    ensures Shaped(Wrapped(u.q))
    ensures SyncedFlushed(LogRun(Word32, LogNext(Word32, WrappedLogger(u), RegisterSync(k)), steps), k, n)
       <==> SyncedFlushed(LogRun(Unbounded, LogNext(Unbounded, u, RegisterSync(k)), steps), k, n)
  {
    var u1 := LogNext(Unbounded, u, RegisterSync(k));
    LogNextRefines(u, RegisterSync(k));
    LogNextKeepsInv(u, RegisterSync(k));
    LogRunRefines(u1, steps);
  }

  lemma InTimeCons(s: Logger, step: Step, rest: seq<Step>)
    requires Shaped(s.q) && StepsInTime(s, step) && LogRunsInTime(LogNext(Unbounded, s, step), rest)
    ensures LogRunsInTime(s, [step] + rest)
  {
    assert ([step] + rest)[1..] == rest;
  }

  lemma HastyInTime(s: Logger, k: nat)
    requires Shaped(s.q) && s.q.cap <= HALF && s.drainer.Loading?
    ensures LogRunsInTime(s, HastySteps(k))
  {
    var s1 := LogNext(Unbounded, s, DrainStep);
    var s2 := LogNext(Unbounded, s1, DrainStep);
    InTimeCons(s2, SyncStep(k), []);
    assert [SyncStep(k)] + [] == [SyncStep(k)];
    InTimeCons(s1, DrainStep, [SyncStep(k)]);
    InTimeCons(s, DrainStep, [DrainStep] + [SyncStep(k)]);
  }

  lemma {:induction false} LogRunKeepsCapacity(s: Logger, steps: seq<Step>)
    requires LogInv(s)
    ensures LogRun(Unbounded, s, steps).q.cap == s.q.cap
    decreases |steps|
  {
    if steps != [] {
      QueuePart(s, steps[0]);
      NextMovesForward(s.q, QueueAction(s, steps[0]));
      LogNextKeepsInv(s, steps[0]);
      LogRunKeepsCapacity(LogNext(Unbounded, s, steps[0]), steps[1..]);
    }
  }

  /** What a run in time comes to. */
  lemma ReachedInTime(s: Logger, steps: seq<Step>)
    requires LogInitial(s) && LogRunsInTime(s, steps)
    ensures var u := LogRun(Unbounded, s, steps);
            && LogInv(u) && u.q.cap <= HALF && Shaped(Wrapped(u.q))
            && LogRun(Word32, s, steps) == WrappedLogger(u)
  {
    InitialLogInv(s);
    InitialLoggerIsWrapped(s);
    LogRunRefines(s, steps);
    LogRunKeepsInv(s, steps);
    LogRunKeepsCapacity(s, steps);
  }

  lemma WordSyncFlushesAt(u: Logger, k: nat)
    requires LogInv(u) && u.q.cap <= HALF && Shaped(Wrapped(u.q)) && Idles(u, k)
    ensures WordSyncFlushes(u, k, Due(u.q)) <==> (u.drainer.Loading? ==> Due(u.q) <= |u.flushed|)
  {
    if u.drainer.Loading? && Due(u.q) > |u.flushed| {
      HastyInTime(LogNext(Unbounded, u, RegisterSync(k)), k);
      HastyAck(u, k);
      SyncedRefines(u, k, HastySteps(k), Due(u.q));
    } else {
      forall more | LogRunsInTime(LogNext(Unbounded, u, RegisterSync(k)), more)
        ensures SyncedFlushed(LogRun(Word32, LogNext(Word32, WrappedLogger(u), RegisterSync(k)), more), k, Due(u.q))
      {
        RegisteredFlushes(u, more, k);
        SyncedRefines(u, k, more, Due(u.q));
      }
    }
  }

  /**
   The 32-bit logger after any run in time: a Sync that registers now keeps its promise, in every
   continuation in time, exactly when the thread is not between its drain and its load of m_syncSeq
   with entries left to flush.
   */
  lemma WordSyncFlushesIff(s: Logger, steps: seq<Step>, k: nat)
    requires LogInitial(s) && LogRunsInTime(s, steps) && Idles(LogRun(Unbounded, s, steps), k)
    ensures var u, w := LogRun(Unbounded, s, steps), LogRun(Word32, s, steps);
            && w == WrappedLogger(u) && Shaped(Wrapped(u.q))
            && (WordSyncFlushes(u, k, Due(u.q)) <==> (w.drainer.Loading? ==> Due(u.q) <= |w.flushed|))
  {
    ReachedInTime(s, steps);
    WordSyncFlushesAt(LogRun(Unbounded, s, steps), k);
  }

  lemma {:induction false} UndecidedWraps(ps: seq<Producer>)
    ensures Undecided(WrapProducers(ps)) == Undecided(ps)
  {
    if ps != [] {
      var n := |ps| - 1;
      UndecidedWraps(ps[..n]);
      assert WrapProducers(ps)[..n] == WrapProducers(ps[..n]);
    }
  }

  lemma TracedWraps(q: Machine, i: nat)
    requires i < |q.producers| && TracedAt(q, i)
    ensures TracedAt(Wrapped(q), i)
  {
    assert Wrapped(q).producers[i] == WrapProducer(q.producers[i]);
  }

  lemma ConservedWraps(u: Logger)
    requires Conserved(u)
    ensures Conserved(WrappedLogger(u))
  {
    var r := WrappedLogger(u);
    UndecidedWraps(u.q.producers);
    forall i: nat | i < |r.q.producers| ensures TracedAt(r.q, i) { TracedWraps(u.q, i); }
  }

  /**
   The 32-bit logger, at every point of every run in time: no call of Enqueue is lost or made up, the
   handshake's counters are in order, and its ring is safe.
   */
  lemma WordCallsAreConserved(s: Logger, steps: seq<Step>)
    requires LogInitial(s) && LogRunsInTime(s, steps)
    ensures var w := LogRun(Word32, s, steps);
            Conserved(w) && w.syncAck <= w.syncSeq && RaceFree(w.q) && WordOneOwner(w.q) && WordFifo(w.q)
  {
    var u := LogRun(Unbounded, s, steps);
    ReachedInTime(s, steps);
    CallsAreConserved(s, steps);
    ConservedWraps(u);
    InvIsSafe(u.q);
    WrappedRaceFree(u.q);
    WrappedFifo(u.q);
    WrappedOneOwner(u.q);
  }

  lemma NobodyCopiesWraps(q: Machine)
    ensures NobodyCopies(Wrapped(q)) ==> NobodyCopies(q)
  {
    forall i | NobodyCopies(Wrapped(q)) && 0 <= i < |q.producers|
      ensures !q.producers[i].Claimed? && !q.producers[i].Written?
    {
      assert Wrapped(q).producers[i] == WrapProducer(q.producers[i]);
    }
  }

  /** Terminate's own drain of the 32-bit ring leaves nothing behind. */
  lemma WordFinalDrainEmpties(s: Logger, steps: seq<Step>)
    requires LogInitial(s) && LogRunsInTime(s, steps)
    requires var w := LogRun(Word32, s, steps);
             w.drainer.Draining? && NobodyCopies(w.q) && LogNext(Word32, w, DrainStep).drainer.Closed?
    ensures var r := LogNext(Word32, LogRun(Word32, s, steps), DrainStep);
            r.q.tail == r.q.head && r.flushed == Entries(r.q.log)
  {
    var u := LogRun(Unbounded, s, steps);
    ReachedInTime(s, steps);
    LogNextRefines(u, DrainStep);
    NobodyCopiesWraps(u.q);
    FinalDrainEmpties(s, steps);
  }

  /**
   The 32-bit logger from Terminate's join on, in any continuation in time: when its drain and its last
   flush are over, every entry due at the join has been flushed, in order.
   */
  lemma WordTerminateFlushes(s: Logger, before: seq<Step>, after: seq<Step>)
    requires LogInitial(s) && LogRunsInTime(s, before)
    requires var u := LogRun(Unbounded, s, before);
             u.drainer.Exited? && !u.terminal && LogRunsInTime(LogNext(Unbounded, u, Join), after)
    ensures var w := LogRun(Word32, LogNext(Word32, LogRun(Word32, s, before), Join), after);
            w.drainer.Ended? ==> FlushedThrough(w, Due(LogRun(Unbounded, s, before).q))
  {
    var u := LogRun(Unbounded, s, before);
    ReachedInTime(s, before);
    LogNextRefines(u, Join);
    LogNextKeepsInv(u, Join);
    LogRunRefines(LogNext(Unbounded, u, Join), after);
    TerminateFlushes(u, after);
  }
}
