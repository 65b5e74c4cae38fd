/**
 The logger around the ring: producers that enqueue and count their drops, the thread that polls
 and drains, callers of Sync, and Terminate.  Every access of a shared variable is one step; the
 ring's own steps are those of LogQueue.
 */
module RtLog {
  import opened LogQueue
  import opened LogQueueSafety
  import opened LogQueueHistory
  import opened LogQueueSolo

  /** Where the thread that drains stands. */
  datatype Drainer =
    | AtTop                     // about to load m_logThreadRun
    | Draining                  // in DrainAll: in TryPop, or about to call it
    | Holding(entry: Entry)     // about to hand a popped entry to FlushEntry
    | Loading                   // DrainAll is over: about to load m_syncSeq
    | Acking(pending: nat)      // about to store m_syncAck
    | Exited                    // the polling thread is gone
    | Closed                    // Terminate's own DrainAll is over: about to force out the open line
    | Ended

  /** A caller of Sync, and the request number it waits for. */
  datatype Syncer =
    | Away
    | Waiting(target: nat)    // about to load m_syncAck
    | Checking(target: nat)   // not acknowledged: about to load m_logThreadRun
    | Synced(target: nat)     // returned, acknowledged
    | Abandoned               // returned because the thread is being stopped

  /**
   `owing` are the producers whose push failed and who are about to count it; `flushed` are the
   entries given to FlushEntry, and `unformatted` is how many lines of them could not be formatted.
   `terminal` tells that Terminate has joined the thread and drains itself.
   */
  datatype Logger = Logger(
    q: Machine, dropCount: nat, owing: set<nat>, flushed: seq<Entry>, unformatted: nat,
    drainer: Drainer, running: bool, terminal: bool,
    syncSeq: nat, syncAck: nat, syncers: seq<Syncer>)

  datatype Step =
    | Enqueue(producer: nat, entry: Entry)
    | PushStep(producer: nat)
    | TearStep(producer: nat, torn: Entry)
    | CountDrop(producer: nat)
    | DrainStep
    | Flush(failures: nat)    // how many lines of this call could not be formatted
    | RegisterSync(caller: nat)
    | SyncStep(caller: nat)
    | Stop
    | Join

  function Drain(ar: Arith, s: Logger): Logger
    requires Shaped(s.q)
  {
    match s.drainer
    case AtTop => s.(drainer := if s.running then Draining else Exited)
    case Draining =>
      if s.q.consumer.Quiet? then s.(q := Next(ar, s.q, StartPop))
      else
        var r := ConsumerStep(ar, s.q);
        if s.q.consumer.Popping? && r.consumer.Quiet? then
          s.(q := r, drainer := if s.terminal then Closed else Loading)
        else if s.q.consumer.Advanced? then
          s.(q := r, drainer := Holding(s.q.consumer.out))
        else s.(q := r)
    case Holding(_) => s
    case Loading => s.(drainer := Acking(s.syncSeq))
    case Acking(p) =>
      s.(drainer := AtTop, syncAck := if p > s.syncAck then p else s.syncAck)
    case Exited => s
    case Closed => s
    case Ended => s
  }

  /** FlushEntry, and Terminate's last FlushContLines. */
  function Flushed(s: Logger, failures: nat): Logger {
    if s.drainer.Holding? then
      s.(drainer := Draining, flushed := s.flushed + [s.drainer.entry],
         unformatted := s.unformatted + failures, dropCount := s.dropCount + failures)
    else if s.drainer.Closed? then
      s.(drainer := Ended, unformatted := s.unformatted + failures, dropCount := s.dropCount + failures)
    else s
  }

  function SyncNext(s: Logger, k: nat): Logger
    requires k < |s.syncers|
  {
    match s.syncers[k]
    case Away => s
    case Waiting(t) => s.(syncers := s.syncers[k := if s.syncAck < t then Checking(t) else Synced(t)])
    case Checking(t) => s.(syncers := s.syncers[k := if s.running then Waiting(t) else Abandoned])
    case Synced(_) => s
    case Abandoned => s
  }

  function LogNext(ar: Arith, s: Logger, step: Step): (r: Logger)
    requires Shaped(s.q)
    ensures Shaped(r.q)
  {
    match step
    case Enqueue(i, e) =>
      if i in s.owing then s else s.(q := Next(ar, s.q, Call(i, e)))
    case PushStep(i) =>
      var r := Next(ar, s.q, Produce(i));
      if |r.outcomes| > |s.q.outcomes| && !r.outcomes[|s.q.outcomes|].ok
      then s.(q := r, owing := s.owing + {i})
      else s.(q := r)
    case TearStep(i, torn) => s.(q := Next(ar, s.q, Tear(i, torn)))
    case CountDrop(i) =>
      if i in s.owing then s.(owing := s.owing - {i}, dropCount := s.dropCount + 1) else s
    case DrainStep => Drain(ar, s)
    case Flush(failures) => Flushed(s, failures)
    case RegisterSync(k) =>
      if k < |s.syncers| && s.syncers[k].Away? then
        s.(syncSeq := s.syncSeq + 1, syncers := s.syncers[k := Waiting(s.syncSeq + 1)])
      else s
    case SyncStep(k) => if k < |s.syncers| then SyncNext(s, k) else s
    case Stop => s.(running := false)
    case Join =>
      if s.drainer.Exited? && !s.terminal then s.(drainer := Draining, terminal := true) else s
  }

  function LogRun(ar: Arith, s: Logger, steps: seq<Step>): (r: Logger)
    requires Shaped(s.q)
    ensures Shaped(r.q)
    decreases |steps|
  {
    if steps == [] then s else LogRun(ar, LogNext(ar, s, steps[0]), steps[1..])
  }

  ghost predicate LogInitial(s: Logger) {
    && Initial(s.q) && s.q.cap >= 2
    && s.dropCount == 0 && s.owing == {} && s.flushed == [] && s.unformatted == 0
    && s.drainer == AtTop && s.running && !s.terminal
    && s.syncSeq == s.syncAck == 0
    && (forall k :: 0 <= k < |s.syncers| ==> s.syncers[k] == Away)
  }

  // ---- publication ----

  ghost predicate AllPublished(q: Machine, n: nat)
    requires Shaped(q)
  {
    forall pos: nat {:trigger Published(q, pos)} :: pos < n ==> Published(q, pos)
  }

  /** The number of claims, from the first, that are all published. */
  function ReadyFrom(q: Machine, pos: nat): (n: nat)
    requires Shaped(q) && pos <= |q.log|
    ensures pos <= n <= |q.log|
    decreases |q.log| - pos
  {
    if pos < |q.log| && (pos < q.tail || At(q, pos).seqNo == pos + 1) then ReadyFrom(q, pos + 1) else pos
  }

  /** ReadyFrom finds the longest published start of the claims. */
  lemma {:induction false} ReadyIsPublished(q: Machine, from: nat)
    requires Shaped(q) && from <= |q.log| && AllPublished(q, from)
    ensures AllPublished(q, ReadyFrom(q, from))
    ensures ReadyFrom(q, from) < |q.log| ==> !Published(q, ReadyFrom(q, from))
    decreases |q.log| - from
  {
    if from < |q.log| && Published(q, from) { ReadyIsPublished(q, from + 1); }
  }

  /** Once published, a position stays so: only the consumer's release takes it out of its slot. */
  lemma PublishedStays(q: Machine, a: Action, pos: nat)
    requires Inv(q) && Published(q, pos)
    ensures Published(Next(Unbounded, q, a), pos)
  {
    var r := Next(Unbounded, q, a);
    NextMovesForward(q, a);
    if pos >= q.tail {
      assert InWindow(q, pos) && SlotFits(q, pos);
      SlotInRange(q.cap, pos);
      if (a.Produce? || a.Tear?) && a.producer < |q.producers| {
        var p := q.producers[a.producer];
        assert ProducerFits(q, a.producer);
        if p.Claimed? || p.Written? {
          SlotInRange(q.cap, p.pos);
          if p.pos != pos { SlotsDiffer(q.cap, p.pos, pos); }
        }
      }
      if a.Consume? && q.consumer.Advanced? {
        SlotInRange(q.cap, q.consumer.pos);
        SlotsDiffer(q.cap, q.consumer.pos, pos);
      }
    }
  }

  lemma AllPublishedStays(q: Machine, a: Action, n: nat)
    requires Inv(q) && AllPublished(q, n)
    ensures Shaped(Next(Unbounded, q, a)) && AllPublished(Next(Unbounded, q, a), n)
  {
    forall pos: nat | pos < n ensures Published(Next(Unbounded, q, a), pos) {
      assert Published(q, pos);
      PublishedStays(q, a, pos);
    }
  }

  // ---- the invariant ----

  /** What the draining thread has done with the popped entries. */
  ghost predicate DrainerFits(s: Logger)
    requires Shaped(s.q)
  {
    && s.q.popped == s.flushed + (if s.drainer.Holding? then [s.drainer.entry] else [])
    && (!s.drainer.Draining? ==> s.q.consumer.Quiet?)
    && (s.terminal ==> s.drainer.Draining? || s.drainer.Holding? || s.drainer.Closed? || s.drainer.Ended?)
    && (s.drainer.Closed? || s.drainer.Ended? ==> s.terminal)
    && (s.drainer.Acking? ==> s.drainer.pending <= s.syncSeq)
  }

  /** A Sync that is acknowledged has its own request acknowledged. */
  ghost predicate SyncerFits(s: Logger, k: nat)
    requires k < |s.syncers|
  {
    match s.syncers[k]
    case Away => true
    case Waiting(t) => t <= s.syncSeq
    case Checking(t) => t <= s.syncSeq
    case Synced(t) => t <= s.syncAck
    case Abandoned => !s.running
  }

  ghost predicate DropsFit(s: Logger) {
    && Rejects(s.q.outcomes) + s.unformatted == s.dropCount + |s.owing|
    && (forall i :: i in s.owing ==> i < |s.q.producers| && s.q.producers[i].Idle?)
  }

  ghost predicate LogInv(s: Logger) {
    && Inv(s.q) && Traced(s.q)
    && DropsFit(s)
    && DrainerFits(s)
    && s.syncAck <= s.syncSeq
    && (forall k: nat {:trigger SyncerFits(s, k)} :: k < |s.syncers| ==> SyncerFits(s, k))
  }

  lemma InitialLogInv(s: Logger)
    requires LogInitial(s)
    ensures LogInv(s)
  {
    InitialInv(s.q);
    InitialTraced(s.q);
  }

  /** Steps that move no Sync keep what holds of each. */
  lemma SameSyncers(s: Logger, r: Logger)
    requires LogInv(s) && r.syncers == s.syncers && s.syncSeq <= r.syncSeq && s.syncAck <= r.syncAck
    requires r.running ==> s.running
    ensures forall k: nat {:trigger SyncerFits(r, k)} :: k < |r.syncers| ==> SyncerFits(r, k)
  {
    forall k: nat | k < |r.syncers| ensures SyncerFits(r, k) { assert SyncerFits(s, k); }
  }

  /** A producer's step leaves the consumer's side alone. */
  lemma NotConsumer(q: Machine, a: Action)
    requires Shaped(q) && !ByConsumer(a)
    ensures var r := Next(Unbounded, q, a);
            r.popped == q.popped && r.consumer == q.consumer && |r.producers| == |q.producers|
  {
  }

  /** A producer's step that does not make its push fail. */
  lemma ProducerSideKeepsInv(s: Logger, r: Logger, a: Action)
    requires LogInv(s) && !ByConsumer(a)
    requires r == s.(q := Next(Unbounded, s.q, a), owing := r.owing)
    requires DropsFit(r)
    ensures LogInv(r)
  {
    NextKeepsInv(s.q, a);
    NextKeepsTraced(Unbounded, s.q, a);
    NotConsumer(s.q, a);
    SameSyncers(s, r);
  }

  /** What a producer's step can do to the returns, and to the other producers. */
  lemma PushReturns(q: Machine, i: nat)
    requires Shaped(q) && i < |q.producers|
    ensures var r := ProducerStep(Unbounded, q, i);
            && |r.producers| == |q.producers|
            && (forall j :: 0 <= j < |q.producers| && j != i ==> r.producers[j] == q.producers[j])
            && (q.producers[i].Idle? ==> r == q)
            && (r.outcomes != q.outcomes ==>
                  && r.producers[i].Idle? && |r.outcomes| == |q.outcomes| + 1
                  && r.outcomes == q.outcomes + [r.outcomes[|q.outcomes|]])
  {
  }

  /** A push that returns false leaves its producer outside the queue, owing an increment. */
  lemma PushOutcome(q: Machine, i: nat)
    requires Shaped(q)
    ensures var r := Next(Unbounded, q, Produce(i));
            && |r.producers| == |q.producers|
            && (forall j :: 0 <= j < |q.producers| && j != i ==> r.producers[j] == q.producers[j])
            && (i < |q.producers| && q.producers[i].Idle? ==> r == q)
            && (r.outcomes != q.outcomes ==>
                  && i < |q.producers| && r.producers[i].Idle?
                  && |r.outcomes| == |q.outcomes| + 1
                  && Rejects(r.outcomes) == Rejects(q.outcomes) + (if r.outcomes[|q.outcomes|].ok then 0 else 1))
  {
    if i < |q.producers| {
      PushReturns(q, i);
      var outcomes := Next(Unbounded, q, Produce(i)).outcomes;
      if outcomes != q.outcomes { OutcomesAppend(q.outcomes, outcomes[|q.outcomes|]); }
    }
  }

  lemma PushKeepsInv(s: Logger, i: nat)
    requires LogInv(s)
    ensures LogInv(LogNext(Unbounded, s, PushStep(i)))
  {
    PushOutcome(s.q, i);
    ProducerSideKeepsInv(s, LogNext(Unbounded, s, PushStep(i)), Produce(i));
  }

  lemma EnqueueKeepsInv(s: Logger, i: nat, e: Entry)
    requires LogInv(s)
    ensures LogInv(LogNext(Unbounded, s, Enqueue(i, e)))
  {
    if i !in s.owing { ProducerSideKeepsInv(s, LogNext(Unbounded, s, Enqueue(i, e)), Call(i, e)); }
  }

  lemma TearKeepsInv(s: Logger, i: nat, torn: Entry)
    requires LogInv(s)
    ensures LogInv(LogNext(Unbounded, s, TearStep(i, torn)))
  {
    ProducerSideKeepsInv(s, LogNext(Unbounded, s, TearStep(i, torn)), Tear(i, torn));
  }

  lemma CountDropKeepsInv(s: Logger, i: nat)
    requires LogInv(s)
    ensures LogInv(LogNext(Unbounded, s, CountDrop(i)))
  {
    SameSyncers(s, LogNext(Unbounded, s, CountDrop(i)));
  }

  lemma StartPopFits(s: Logger)
    requires LogInv(s) && s.drainer.Draining? && s.q.consumer.Quiet?
    ensures DrainerFits(Drain(Unbounded, s))
  {
  }

  lemma ConsumeFits(s: Logger)
    requires LogInv(s) && s.drainer.Draining? && !s.q.consumer.Quiet?
    ensures DrainerFits(Drain(Unbounded, s))
  {
  }

  /** The consumer's step leaves the calls of the producers alone. */
  lemma NotProducer(q: Machine, a: Action)
    requires Shaped(q) && ByConsumer(a)
    ensures Next(Unbounded, q, a).outcomes == q.outcomes && Next(Unbounded, q, a).producers == q.producers
  {
  }

  lemma PollKeepsInv(s: Logger, a: Action)
    requires LogInv(s) && s.drainer.Draining? && a == if s.q.consumer.Quiet? then StartPop else Consume
    ensures LogInv(Drain(Unbounded, s))
  {
    var r := Drain(Unbounded, s);
    assert r.q == Next(Unbounded, s.q, a);
    NextKeepsInv(s.q, a);
    NextKeepsTraced(Unbounded, s.q, a);
    SameSyncers(s, r);
    NotProducer(s.q, a);
    if a == StartPop { StartPopFits(s); } else { ConsumeFits(s); }
  }

  lemma DrainKeepsInv(s: Logger)
    requires LogInv(s)
    ensures LogInv(Drain(Unbounded, s))
  {
    if s.drainer.Draining? {
      PollKeepsInv(s, if s.q.consumer.Quiet? then StartPop else Consume);
    } else {
      SameSyncers(s, Drain(Unbounded, s));
    }
  }

  lemma FlushKeepsInv(s: Logger, failures: nat)
    requires LogInv(s)
    ensures LogInv(Flushed(s, failures))
  {
    SameSyncers(s, Flushed(s, failures));
  }

  /** Moving one caller of Sync, or adding a request. */
  lemma MoveSyncer(s: Logger, k: nat, sync: Syncer, requests: nat)
    requires LogInv(s) && k < |s.syncers| && s.syncSeq <= requests
    requires SyncerFits(s.(syncSeq := requests, syncers := s.syncers[k := sync]), k)
    ensures LogInv(s.(syncSeq := requests, syncers := s.syncers[k := sync]))
  {
    var r := s.(syncSeq := requests, syncers := s.syncers[k := sync]);
    forall j: nat | j < |r.syncers| ensures SyncerFits(r, j) {
      if j != k { assert SyncerFits(s, j); }
    }
  }

  lemma SyncStepKeepsInv(s: Logger, k: nat)
    requires LogInv(s) && k < |s.syncers|
    ensures LogInv(SyncNext(s, k))
  {
    assert SyncerFits(s, k);
    var r := SyncNext(s, k);
    if r != s { MoveSyncer(s, k, r.syncers[k], s.syncSeq); }
  }

  lemma RegisterKeepsInv(s: Logger, k: nat)
    requires LogInv(s)
    ensures LogInv(LogNext(Unbounded, s, RegisterSync(k)))
  {
    if k < |s.syncers| && s.syncers[k].Away? { MoveSyncer(s, k, Waiting(s.syncSeq + 1), s.syncSeq + 1); }
  }

  lemma ControlKeepsInv(s: Logger, step: Step)
    requires LogInv(s) && (step.Stop? || step.Join?)
    ensures LogInv(LogNext(Unbounded, s, step))
  {
    SameSyncers(s, LogNext(Unbounded, s, step));
  }

  lemma LogNextKeepsInv(s: Logger, step: Step)
    requires LogInv(s)
    ensures LogInv(LogNext(Unbounded, s, step))
  {
    match step
    case Enqueue(i, e) => EnqueueKeepsInv(s, i, e);
    case PushStep(i) => PushKeepsInv(s, i);
    case TearStep(i, torn) => TearKeepsInv(s, i, torn);
    case CountDrop(i) => CountDropKeepsInv(s, i);
    case DrainStep => DrainKeepsInv(s);
    case Flush(failures) => FlushKeepsInv(s, failures);
    case RegisterSync(k) => RegisterKeepsInv(s, k);
    case SyncStep(k) => if k < |s.syncers| { SyncStepKeepsInv(s, k); }
    case _ => ControlKeepsInv(s, step);
  }

  lemma {:induction false} LogRunKeepsInv(s: Logger, steps: seq<Step>)
    requires LogInv(s)
    ensures LogInv(LogRun(Unbounded, s, steps))
    decreases |steps|
  {
    if steps != [] {
      LogNextKeepsInv(s, steps[0]);
      LogRunKeepsInv(LogNext(Unbounded, s, steps[0]), steps[1..]);
    }
  }

  // ---- the handshake ----

  /** Caller k's Sync has returned, acknowledged; caller k has not called it. */
  predicate Acknowledged(s: Logger, k: nat) {
    k < |s.syncers| && s.syncers[k].Synced?
  }

  predicate Idles(s: Logger, k: nat) {
    k < |s.syncers| && s.syncers[k].Away?
  }

  lemma CountersGrow(s: Logger, step: Step)
    requires Shaped(s.q)
    ensures var r := LogNext(Unbounded, s, step);
            s.syncSeq <= r.syncSeq && s.syncAck <= r.syncAck
  {
  }

  /**
   Both counters of the handshake only grow, the acknowledgements never overtake the requests, and a
   Sync that returned acknowledged had its own request acknowledged.
   */
  lemma {:induction false} HandshakeIsMonotone(s: Logger, steps: seq<Step>)
    requires LogInv(s)
    ensures var r := LogRun(Unbounded, s, steps);
            && s.syncSeq <= r.syncSeq && s.syncAck <= r.syncAck <= r.syncSeq
            && (forall k: nat :: Acknowledged(r, k) ==> r.syncers[k].target <= r.syncAck)
    decreases |steps|
  {
    if steps == [] {
      forall k: nat | Acknowledged(s, k) ensures s.syncers[k].target <= s.syncAck { assert SyncerFits(s, k); }
    } else {
      CountersGrow(s, steps[0]);
      LogNextKeepsInv(s, steps[0]);
      HandshakeIsMonotone(LogNext(Unbounded, s, steps[0]), steps[1..]);
    }
  }

  /** The first n claims, and perhaps more, have been given to FlushEntry, in order and unaltered. */
  ghost predicate FlushedThrough(r: Logger, n: nat) {
    n <= |r.flushed| <= |r.q.log| && r.flushed == Entries(r.q.log[..|r.flushed|])
  }

  lemma FlushedInOrder(r: Logger)
    requires LogInv(r)
    ensures FlushedThrough(r, |r.flushed|)
  {
    forall i | 0 <= i < |r.flushed| ensures r.flushed[i] == r.q.log[i].entry {
      assert r.flushed[i] == r.q.popped[i];
    }
  }

  /** The queue's part of a step. */
  function QueueAction(s: Logger, step: Step): (a: Action) {
    match step
    case Enqueue(i, e) => Call(i, e)
    case PushStep(i) => Produce(i)
    case TearStep(i, torn) => Tear(i, torn)
    case _ => if s.q.consumer.Quiet? then StartPop else Consume
  }

  lemma QueuePart(s: Logger, step: Step)
    requires Shaped(s.q)
    ensures var r := LogNext(Unbounded, s, step);
            r.q == s.q || r.q == Next(Unbounded, s.q, QueueAction(s, step))
  {
  }

  /** The thread acknowledges what it loaded after its drain, and nothing else is acknowledged. */
  lemma StepOfAck(s: Logger, step: Step)
    requires LogInv(s)
    ensures var r := LogNext(Unbounded, s, step);
            && (r.drainer.Acking? && !s.drainer.Acking? ==> s.drainer.Loading? && r.drainer.pending == s.syncSeq)
            && (r.drainer.Acking? && s.drainer.Acking? ==> r.drainer == s.drainer)
            && (r.syncAck != s.syncAck ==> s.drainer.Acking? && r.syncAck == s.drainer.pending && r.drainer.AtTop?)
  {
  }

  /** The thread comes to load m_syncSeq only by finding nothing left to pop. */
  lemma StepOfDrain(s: Logger, step: Step, d: nat)
    requires LogInv(s) && AllPublished(s.q, d)
    ensures var r := LogNext(Unbounded, s, step);
            && AllPublished(r.q, d) && |s.flushed| <= |r.flushed|
            && (r.drainer.Loading? && !s.drainer.Loading? ==> d <= |r.flushed|)
  {
    var r := LogNext(Unbounded, s, step);
    QueuePart(s, step);
    if r.q != s.q { AllPublishedStays(s.q, QueueAction(s, step), d); }
    if r.drainer.Loading? && !s.drainer.Loading? { LookIsEmpty(s, step, d); }
  }

  lemma LookIsEmpty(s: Logger, step: Step, d: nat)
    requires LogInv(s) && AllPublished(s.q, d)
    requires LogNext(Unbounded, s, step).drainer.Loading? && !s.drainer.Loading?
    ensures d <= |s.flushed|
  {
    assert step.DrainStep? && s.q.consumer.Popping?;
    PopFailsOnlyWhenUnpublished(s.q);
  }

  /** Caller k's request is number t, unless the logger was being stopped. */
  predicate Requests(s: Logger, k: nat, t: nat) {
    && k < |s.syncers| && !s.syncers[k].Away?
    && (!s.syncers[k].Abandoned? ==> s.syncers[k].target == t)
  }

  lemma RequestStays(s: Logger, step: Step, k: nat, t: nat)
    requires Shaped(s.q) && Requests(s, k, t)
    ensures Requests(LogNext(Unbounded, s, step), k, t)
  {
  }

  /** Wherever request t is, or is about to be, acknowledged, d claims have been flushed. */
  ghost predicate AckFlushes(s: Logger, t: nat, d: nat)
    requires Shaped(s.q)
  {
    && AllPublished(s.q, d)
    && (t <= s.syncAck || s.drainer.Loading? || (s.drainer.Acking? && t <= s.drainer.pending) ==> d <= |s.flushed|)
  }

  lemma AckFlushesNext(s: Logger, step: Step, k: nat, t: nat, d: nat)
    requires LogInv(s) && Requests(s, k, t) && AckFlushes(s, t, d)
    ensures Requests(LogNext(Unbounded, s, step), k, t) && AckFlushes(LogNext(Unbounded, s, step), t, d)
  {
    StepOfDrain(s, step, d);
    StepOfAck(s, step);
    RequestStays(s, step, k, t);
  }

  lemma {:induction false} AckFlushesRun(s: Logger, steps: seq<Step>, k: nat, t: nat, d: nat)
    requires LogInv(s) && Requests(s, k, t) && AckFlushes(s, t, d)
    ensures var r := LogRun(Unbounded, s, steps);
            LogInv(r) && Requests(r, k, t) && AckFlushes(r, t, d)
    decreases |steps|
  {
    if steps != [] {
      AckFlushesNext(s, steps[0], k, t, d);
      LogNextKeepsInv(s, steps[0]);
      AckFlushesRun(LogNext(Unbounded, s, steps[0]), steps[1..], k, t, d);
    }
  }

  /** If caller k's Sync has returned acknowledged, the first n claims are flushed. */
  ghost predicate SyncedFlushed(r: Logger, k: nat, n: nat) {
    Acknowledged(r, k) ==> FlushedThrough(r, n)
  }

  /** A Sync that caller k registers now returns acknowledged, if at all, with the first n claims flushed. */
  ghost predicate SyncFlushes(s: Logger, k: nat, n: nat)
    requires Shaped(s.q)
  {
    var r := LogNext(Unbounded, s, RegisterSync(k));
    forall steps :: SyncedFlushed(LogRun(Unbounded, r, steps), k, n)
  }

  /** The claims from the first on that are all published: what a Sync that registers now is to wait for. */
  function Due(q: Machine): (n: nat)
    requires Shaped(q)
    ensures n <= |q.log|
  {
    ReadyFrom(q, 0)
  }

  /** A request that comes before the drain's last look, or when d claims are flushed, does not miss them. */
  lemma LaterFlushes(m: Logger, after: seq<Step>, k: nat, d: nat)
    requires LogInv(m) && Idles(m, k) && AllPublished(m.q, d) && (m.drainer.Loading? ==> d <= |m.flushed|)
    ensures SyncedFlushed(LogRun(Unbounded, LogNext(Unbounded, m, RegisterSync(k)), after), k, d)
  {
    var m1 := LogNext(Unbounded, m, RegisterSync(k));
    var r := LogRun(Unbounded, m1, after);
    LogNextKeepsInv(m, RegisterSync(k));
    AckFlushesRun(m1, after, k, m.syncSeq + 1, d);
    assert SyncerFits(r, k);
    FlushedInOrder(r);
  }

  lemma RegisteredFlushes(s: Logger, steps: seq<Step>, k: nat)
    requires LogInv(s) && Idles(s, k)
    requires s.drainer.Loading? ==> Due(s.q) <= |s.flushed|
    ensures SyncedFlushed(LogRun(Unbounded, LogNext(Unbounded, s, RegisterSync(k)), steps), k, Due(s.q))
  {
    ReadyIsPublished(s.q, 0);
    LaterFlushes(s, steps, k, Due(s.q));
  }

  /** The steps by which a request that comes after the drain's last look is acknowledged all the same. */
  function HastySteps(k: nat): seq<Step> {
    [DrainStep] + ([DrainStep] + [SyncStep(k)])
  }

  lemma LogRunCons(ar: Arith, s: Logger, step: Step, rest: seq<Step>)
    requires Shaped(s.q)
    ensures LogRun(ar, s, [step] + rest) == LogRun(ar, LogNext(ar, s, step), rest)
  {
    assert ([step] + rest)[1..] == rest;
  }

  lemma HastyRun(s: Logger, k: nat)
    requires Shaped(s.q)
    ensures var s2 := LogNext(Unbounded, LogNext(Unbounded, s, DrainStep), DrainStep);
            LogRun(Unbounded, s, HastySteps(k)) == LogNext(Unbounded, s2, SyncStep(k))
  {
    var s1 := LogNext(Unbounded, s, DrainStep);
    LogRunCons(Unbounded, LogNext(Unbounded, s1, DrainStep), SyncStep(k), []);
    assert [SyncStep(k)] + [] == [SyncStep(k)];
    LogRunCons(Unbounded, s1, DrainStep, [SyncStep(k)]);
    LogRunCons(Unbounded, s, DrainStep, [DrainStep] + [SyncStep(k)]);
  }

  /** A request registered before m_syncSeq is loaded is acknowledged by the store that follows. */
  lemma HastyAck(s: Logger, k: nat)
    requires Shaped(s.q) && s.drainer.Loading? && s.syncAck <= s.syncSeq && Idles(s, k)
    ensures var r := LogRun(Unbounded, LogNext(Unbounded, s, RegisterSync(k)), HastySteps(k));
            Acknowledged(r, k) && r.flushed == s.flushed
  {
    HastyRun(LogNext(Unbounded, s, RegisterSync(k)), k);
  }

  /**
   Sync keeps its promise exactly when the thread does not stand between the end of its drain and
   its load of m_syncSeq when the request is registered, or has nothing left to flush there: then,
   in every continuation, a Sync that returns acknowledged returns with every entry flushed that was
   published when it was registered, with no unpublished claim ahead of it.
   */
  lemma SyncFlushesIff(s: Logger, k: nat)
    requires LogInv(s) && Idles(s, k)
    ensures SyncFlushes(s, k, Due(s.q)) <==> (s.drainer.Loading? ==> Due(s.q) <= |s.flushed|)
  {
    var r := LogNext(Unbounded, s, RegisterSync(k));
    if s.drainer.Loading? && Due(s.q) > |s.flushed| {
      HastyAck(s, k);
      assert !SyncedFlushed(LogRun(Unbounded, r, HastySteps(k)), k, Due(s.q));
    } else {
      forall steps ensures SyncedFlushed(LogRun(Unbounded, r, steps), k, Due(s.q)) {
        RegisteredFlushes(s, steps, k);
      }
    }
  }

  // ---- two calls of Sync in a row ----

  /** When request t has been acknowledged, the drain has had a fresh start since it was registered. */
  ghost predicate AckPassed(s: Logger, t: nat, d: nat)
    requires Shaped(s.q)
  {
    AllPublished(s.q, d) && (t <= s.syncAck && s.drainer.Loading? ==> d <= |s.flushed|)
  }

  lemma AckPassedNext(s: Logger, step: Step, k: nat, t: nat, d: nat)
    requires LogInv(s) && Requests(s, k, t) && AckPassed(s, t, d)
    ensures Requests(LogNext(Unbounded, s, step), k, t) && AckPassed(LogNext(Unbounded, s, step), t, d)
  {
    StepOfDrain(s, step, d);
    StepOfAck(s, step);
    RequestStays(s, step, k, t);
  }

  lemma {:induction false} AckPassedRun(s: Logger, steps: seq<Step>, k: nat, t: nat, d: nat)
    requires LogInv(s) && Requests(s, k, t) && AckPassed(s, t, d)
    ensures var r := LogRun(Unbounded, s, steps);
            LogInv(r) && Requests(r, k, t) && AckPassed(r, t, d)
    decreases |steps|
  {
    if steps != [] {
      AckPassedNext(s, steps[0], k, t, d);
      LogNextKeepsInv(s, steps[0]);
      AckPassedRun(LogNext(Unbounded, s, steps[0]), steps[1..], k, t, d);
    }
  }

  /**
   Two calls of Sync one after the other always flush what was published before the first, wherever
   the thread stood: if both return acknowledged, the first call's due entries are out.
   */
  lemma SecondSyncFlushes(s: Logger, between: seq<Step>, after: seq<Step>, first: nat, second: nat)
    requires LogInv(s) && Idles(s, first)
    requires var m := LogRun(Unbounded, LogNext(Unbounded, s, RegisterSync(first)), between);
             Acknowledged(m, first) && Idles(m, second)
    ensures var m := LogRun(Unbounded, LogNext(Unbounded, s, RegisterSync(first)), between);
            SyncedFlushed(LogRun(Unbounded, LogNext(Unbounded, m, RegisterSync(second)), after), second, Due(s.q))
  {
    var s1 := LogNext(Unbounded, s, RegisterSync(first));
    var m := LogRun(Unbounded, s1, between);
    LogNextKeepsInv(s, RegisterSync(first));
    ReadyIsPublished(s.q, 0);
    AckPassedRun(s1, between, first, s.syncSeq + 1, Due(s.q));
    assert SyncerFits(m, first);
    LaterFlushes(m, after, second, Due(s.q));
  }

  // ---- conservation ----

  /**
   The calls of Enqueue are those flushed, the one the drainer holds, those claimed and not yet
   popped, those rejected, and those still undecided, and what is flushed and held are the first
   claims; per producer, the calls are in order those returned and the one in progress, and the
   claims those returned true and the one being copied.  m_dropCount is the rejected calls, except
   those about to be counted, plus the lines that could not be formatted.
   */
  ghost predicate Conserved(r: Logger) {
    && |r.q.popped| <= |r.q.log|
    && r.flushed + (if r.drainer.Holding? then [r.drainer.entry] else []) == Entries(r.q.log[..|r.q.popped|])
    && |r.q.calls| == |r.q.log| + Rejects(r.q.outcomes) + Undecided(r.q.producers)
    && (forall i: nat {:trigger TracedAt(r.q, i)} :: i < |r.q.producers| ==> TracedAt(r.q, i))
    && r.dropCount == Rejects(r.q.outcomes) - |r.owing| + r.unformatted
  }

  /** Conservation, at every point of every run. */
  lemma CallsAreConserved(s: Logger, steps: seq<Step>)
    requires LogInitial(s)
    ensures Conserved(LogRun(Unbounded, s, steps))
  {
    InitialLogInv(s);
    LogRunKeepsInv(s, steps);
  }

  /**
   Terminate's own drain, with no producer copying an entry in when it ends, leaves nothing in the
   ring: every claim has been flushed, in order.
   */
  lemma FinalDrainEmpties(s: Logger, steps: seq<Step>)
    requires LogInitial(s)
    requires var m := LogRun(Unbounded, s, steps);
             m.drainer.Draining? && NobodyCopies(m.q) && LogNext(Unbounded, m, DrainStep).drainer.Closed?
    ensures var r := LogNext(Unbounded, LogRun(Unbounded, s, steps), DrainStep);
            r.q.tail == r.q.head && r.flushed == Entries(r.q.log)
  {
    InitialLogInv(s);
    LogRunKeepsInv(s, steps);
    var m := LogRun(Unbounded, s, steps);
    PopFailsOnlyWhenUnpublished(m.q);
    assert m.q.log[..m.q.tail] == m.q.log;
  }

  predicate NobodyCopies(q: Machine) {
    forall i :: 0 <= i < |q.producers| ==> !q.producers[i].Claimed? && !q.producers[i].Written?
  }

  // ---- Terminate, from its first step to its last ----

  /** Where Terminate's own drain is, or is about to be, over, d claims have been flushed. */
  ghost predicate EndFlushes(s: Logger, d: nat)
    requires Shaped(s.q)
  {
    && AllPublished(s.q, d) && s.terminal
    && (s.drainer.Closed? || s.drainer.Ended? ==> d <= |s.flushed|)
  }

  lemma EndFlushesNext(s: Logger, step: Step, d: nat)
    requires LogInv(s) && EndFlushes(s, d)
    ensures EndFlushes(LogNext(Unbounded, s, step), d)
  {
    var r := LogNext(Unbounded, s, step);
    StepOfDrain(s, step, d);
    if r.drainer.Closed? && !s.drainer.Closed? {
      assert step.DrainStep? && s.drainer.Draining? && s.q.consumer.Popping?;
      PopFailsOnlyWhenUnpublished(s.q);
    }
  }

  lemma {:induction false} EndFlushesRun(s: Logger, steps: seq<Step>, d: nat)
    requires LogInv(s) && EndFlushes(s, d)
    ensures var r := LogRun(Unbounded, s, steps);
            LogInv(r) && EndFlushes(r, d)
    decreases |steps|
  {
    if steps != [] {
      EndFlushesNext(s, steps[0], d);
      LogNextKeepsInv(s, steps[0]);
      EndFlushesRun(LogNext(Unbounded, s, steps[0]), steps[1..], d);
    }
  }

  /**
   From Terminate's join on, whatever the producers still do: when its drain and its last flush are
   over, every entry has been flushed, in order, that was published at the join with no unpublished
   claim ahead of it.
   */
  lemma TerminateFlushes(s: Logger, steps: seq<Step>)
    requires LogInv(s) && s.drainer.Exited? && !s.terminal
    ensures var r := LogRun(Unbounded, LogNext(Unbounded, s, Join), steps);
            r.drainer.Ended? ==> FlushedThrough(r, Due(s.q))
  {
    var j := LogNext(Unbounded, s, Join);
    LogNextKeepsInv(s, Join);
    ReadyIsPublished(s.q, 0);
    EndFlushesRun(j, steps, Due(s.q));
    FlushedInOrder(LogRun(Unbounded, j, steps));
  }

  predicate Over(s: Logger) {
    s.drainer.Exited? || s.drainer.Ended?
  }

  /** The next step of the draining thread itself, and how far it is from stopping, with nothing left to pop. */
  function OwnStep(s: Logger): Step {
    if s.drainer.Holding? || s.drainer.Closed? then Flush(0) else DrainStep
  }

  function Remaining(s: Logger): nat {
    match s.drainer
    case Exited => 0
    case Ended => 0
    case Closed => 1
    case AtTop => 1
    case Acking(_) => 2
    case Loading => 3
    case Holding(_) => 10
    case Draining =>
      match s.q.consumer
      case Quiet => 9
      case Popping(_) => 8
      case Copying(_) => 7
      case Copied(_, _) => 6
      case Advanced(_, _) => 5
  }

  function Unpopped(s: Logger): int {
    |s.q.log| - |s.q.popped|
  }

  /** A step of the draining thread changes nothing for the producers, and pops at most. */
  lemma OwnStepKeeps(s: Logger)
    requires Shaped(s.q)
    ensures var r := LogNext(Unbounded, s, OwnStep(s));
            && r.running == s.running && r.terminal == s.terminal
            && r.q.log == s.q.log && r.q.producers == s.q.producers && |r.q.popped| >= |s.q.popped|
  {
  }

  /** Its own steps bring it nearer to the end. */
  lemma OwnStepProgresses(s: Logger)
    requires LogInv(s) && !s.running && !Over(s)
    ensures var r := LogNext(Unbounded, s, OwnStep(s));
            && LogInv(r) && !r.running && r.terminal == s.terminal
            && r.q.log == s.q.log && r.q.producers == s.q.producers
            && 0 <= Unpopped(r) <= Unpopped(s)
            && (Unpopped(r) == Unpopped(s) ==> Remaining(r) < Remaining(s))
  {
    OwnStepKeeps(s);
    OwnStepNearer(s);
    LogNextKeepsInv(s, OwnStep(s));
  }

  lemma OwnStepNearer(s: Logger)
    requires LogInv(s) && !s.running && !Over(s)
    ensures var r := LogNext(Unbounded, s, OwnStep(s));
            Unpopped(r) == Unpopped(s) ==> Remaining(r) < Remaining(s)
  {
    if s.drainer.Draining? && s.q.consumer.Popping? { PopFailsOnlyWhenUnpublished(s.q); }
  }

  /** Once m_logThreadRun is off, the draining thread comes to its end by its own steps, wherever it stands. */
  lemma {:induction false} StoppedEnds(s: Logger) returns (steps: seq<Step>)
    requires LogInv(s) && !s.running
    ensures var r := LogRun(Unbounded, s, steps);
            && LogInv(r) && Over(r) && !r.running && r.terminal == s.terminal
            && r.q.log == s.q.log && r.q.producers == s.q.producers
    decreases Unpopped(s), Remaining(s)
  {
    if Over(s) {
      steps := [];
    } else {
      OwnStepProgresses(s);
      var rest := StoppedEnds(LogNext(Unbounded, s, OwnStep(s)));
      steps := [OwnStep(s)] + rest;
      LogRunCons(Unbounded, s, OwnStep(s), rest);
    }
  }

  lemma IdlePublished(q: Machine, pos: nat)
    requires Inv(q) && NobodyCopies(q) && pos < |q.log|
    ensures Published(q, pos)
  {
    if pos >= q.tail { assert InWindow(q, pos) && SlotFits(q, pos); }
  }

  /** With nobody copying an entry in, every claim is published. */
  lemma AllDue(q: Machine)
    requires Inv(q) && NobodyCopies(q)
    ensures Due(q) == |q.log|
  {
    forall pos: nat | pos < |q.log| ensures Published(q, pos) { IdlePublished(q, pos); }
    ReadyIsPublished(q, 0);
  }

  /** The first half of Terminate: from any state, Stop, after which the polling thread comes to its exit. */
  lemma StopExits(s: Logger) returns (steps: seq<Step>, r: Logger)
    requires LogInv(s) && !s.terminal
    ensures r == LogRun(Unbounded, s, [Stop] + steps) && LogInv(r) && r.drainer.Exited? && !r.terminal && !r.running
    ensures r.q.log == s.q.log && r.q.producers == s.q.producers
  {
    LogNextKeepsInv(s, Stop);
    steps := StoppedEnds(LogNext(Unbounded, s, Stop));
    LogRunCons(Unbounded, s, Stop, steps);
    r := LogRun(Unbounded, s, [Stop] + steps);
  }

  /** The second half: the join, the drain and the last flush, which leave nothing of what nobody is copying in. */
  lemma JoinEnds(s: Logger) returns (steps: seq<Step>, r: Logger)
    requires LogInv(s) && s.drainer.Exited? && !s.terminal && !s.running
    ensures r == LogRun(Unbounded, s, [Join] + steps) && LogInv(r) && r.drainer.Ended?
    ensures r.q.log == s.q.log && FlushedThrough(r, Due(s.q))
    ensures NobodyCopies(s.q) ==> r.flushed == Entries(s.q.log)
  {
    LogNextKeepsInv(s, Join);
    steps := StoppedEnds(LogNext(Unbounded, s, Join));
    LogRunCons(Unbounded, s, Join, steps);
    r := LogRun(Unbounded, s, [Join] + steps);
    TerminateFlushes(s, steps);
    if NobodyCopies(s.q) {
      AllDue(s.q);
      assert r.q.log[..|r.flushed|] == r.q.log;
    }
  }

  /**
   Terminate can always run to its end: from every state of a logger that is not terminated, through
   Stop, the thread's exit and the join to the end of the last flush; and when nobody is copying an
   entry in, every entry claimed has then been flushed, in order.
   */
  lemma TerminateCompletes(s: Logger) returns (stopping: seq<Step>, joining: seq<Step>)
    requires LogInv(s) && !s.terminal
    ensures var r := LogRun(Unbounded, LogRun(Unbounded, s, [Stop] + stopping), [Join] + joining);
            && r.drainer.Ended? && FlushedThrough(r, |r.flushed|)
            && (NobodyCopies(s.q) ==> r.flushed == Entries(s.q.log))
  {
    var m, r: Logger;
    stopping, m := StopExits(s);
    joining, r := JoinEnds(m);
  }

  /** Once the thread is being stopped, a Sync that has not been acknowledged gives up within two steps. */
  lemma StoppedSyncGivesUp(s: Logger, k: nat)
    requires Shaped(s.q) && !s.running && k < |s.syncers| && (s.syncers[k].Waiting? || s.syncers[k].Checking?)
    requires s.syncAck < s.syncers[k].target
    ensures LogNext(Unbounded, LogNext(Unbounded, s, SyncStep(k)), SyncStep(k)).syncers[k] == Abandoned
  {
  }

  /** How far the running thread is from acknowledging request t, with nothing left to pop. */
  function Ahead(s: Logger, t: nat): nat {
    match s.drainer
    case Acking(p) => if t <= p then 1 else 12
    case AtTop => 11
    case Loading => 2
    case _ => Remaining(s)
  }

  /** Its own steps bring it nearer, and change nothing for the callers. */
  lemma PollProgresses(s: Logger, t: nat)
    requires LogInv(s) && s.running && !s.terminal && !Over(s) && s.syncAck < t <= s.syncSeq
    ensures var r := LogNext(Unbounded, s, OwnStep(s));
            && LogInv(r) && r.running && !r.terminal && !Over(r)
            && r.syncSeq == s.syncSeq && r.syncers == s.syncers
            && 0 <= Unpopped(r) <= Unpopped(s)
            && (Unpopped(r) == Unpopped(s) ==> Ahead(r, t) < Ahead(s, t) || t <= r.syncAck)
  {
    LogNextKeepsInv(s, OwnStep(s));
    if s.drainer.Draining? && s.q.consumer.Popping? { PopFailsOnlyWhenUnpublished(s.q); }
  }

  lemma {:induction false} AckComes(s: Logger, t: nat) returns (steps: seq<Step>)
    requires LogInv(s) && s.running && !s.terminal && !Over(s) && t <= s.syncSeq
    ensures var r := LogRun(Unbounded, s, steps);
            LogInv(r) && r.running && t <= r.syncAck && r.syncers == s.syncers
    decreases Unpopped(s), Ahead(s, t)
  {
    steps := [];
    if s.syncAck < t {
      PollProgresses(s, t);
      var next := LogNext(Unbounded, s, OwnStep(s));
      var rest := [];
      if next.syncAck < t { rest := AckComes(next, t); }
      steps := [OwnStep(s)] + rest;
      LogRunCons(Unbounded, s, OwnStep(s), rest);
    }
  }

  /**
   While the thread polls, it comes by its own steps to acknowledge any request that waits, wherever it
   stands; and the caller returns when it next looks.
   */
  lemma SyncIsAnswered(s: Logger, k: nat) returns (steps: seq<Step>)
    requires LogInv(s) && s.running && !s.terminal && !Over(s) && k < |s.syncers| && s.syncers[k].Waiting?
    ensures var r := LogNext(Unbounded, LogRun(Unbounded, s, steps), SyncStep(k));
            k < |r.syncers| && r.syncers[k] == Synced(s.syncers[k].target)
  {
    assert SyncerFits(s, k);
    steps := AckComes(s, s.syncers[k].target);
  }

  /** How many lines could not be formatted in a run. */
  function Failures(s: Logger, steps: seq<Step>): nat
    requires Shaped(s.q)
    decreases |steps|
  {
    if steps == [] then 0
    else
      (if steps[0].Flush? && (s.drainer.Holding? || s.drainer.Closed?) then steps[0].failures else 0)
      + Failures(LogNext(Unbounded, s, steps[0]), steps[1..])
  }

  /** Each of them is counted. */
  lemma {:induction false} FailuresAreCounted(s: Logger, steps: seq<Step>)
    requires Shaped(s.q)
    ensures LogRun(Unbounded, s, steps).unformatted == s.unformatted + Failures(s, steps)
    decreases |steps|
  {
    if steps != [] {
      FailuresStep(s, steps[0]);
      FailuresAreCounted(LogNext(Unbounded, s, steps[0]), steps[1..]);
    }
  }

  lemma FailuresStep(s: Logger, step: Step)
    requires Shaped(s.q)
    ensures LogNext(Unbounded, s, step).unformatted ==
            s.unformatted + if step.Flush? && (s.drainer.Holding? || s.drainer.Closed?) then step.failures else 0
  {
  }

  // ---- the gap between the drain and its acknowledgement can be met ----

  function GapSteps(e: Entry): seq<Step> {
    [DrainStep] + ([DrainStep] + ([DrainStep] +
    ([Enqueue(0, e)] + ([PushStep(0)] + ([PushStep(0)] + ([PushStep(0)] + ([PushStep(0)] + [PushStep(0)])))))))
  }

  /** The polling thread finds the fresh ring empty. */
  lemma FirstLook(s: Logger, rest: seq<Step>) returns (r: Logger)
    requires LogInitial(s)
    ensures r == s.(drainer := Loading)
    ensures LogRun(Unbounded, s, [DrainStep] + ([DrainStep] + ([DrainStep] + rest))) == LogRun(Unbounded, r, rest)
  {
    var s1 := LogNext(Unbounded, s, DrainStep);
    var s2 := LogNext(Unbounded, s1, DrainStep);
    InitialInv(s.q);
    NextKeepsInv(s.q, StartPop);
    PopFailsOnlyWhenUnpublished(s2.q);
    r := LogNext(Unbounded, s2, DrainStep);
    LogRunCons(Unbounded, s2, DrainStep, rest);
    LogRunCons(Unbounded, s1, DrainStep, [DrainStep] + rest);
    LogRunCons(Unbounded, s, DrainStep, [DrainStep] + ([DrainStep] + rest));
  }

  /** A step of producer 0 inside TryPush that does not make its call return false. */
  ghost predicate Pushes(q: Machine, next: Machine)
    requires Shaped(q)
  {
    && next == Next(Unbounded, q, Produce(0))
    && (next.outcomes == q.outcomes || exists push :: next.outcomes == q.outcomes + [Return(push, true)])
  }

  lemma PushThen(s: Logger, q: Machine, next: Machine, rest: seq<Step>)
    requires Shaped(q) && Pushes(q, next)
    ensures LogRun(Unbounded, s.(q := q), [PushStep(0)] + rest) == LogRun(Unbounded, s.(q := next), rest)
  {
    LogRunCons(Unbounded, s.(q := q), PushStep(0), rest);
  }

  lemma FivePushes(s: Logger, q1: Machine, q2: Machine, q3: Machine, q4: Machine, q5: Machine, q6: Machine)
    requires Shaped(q1) && Pushes(q1, q2) && Pushes(q2, q3) && Pushes(q3, q4) && Pushes(q4, q5) && Pushes(q5, q6)
    ensures LogRun(Unbounded, s.(q := q1), [PushStep(0)] + ([PushStep(0)] + ([PushStep(0)] +
                                           ([PushStep(0)] + [PushStep(0)])))) == s.(q := q6)
  {
    PushThen(s, q5, q6, []);
    assert [PushStep(0)] + [] == [PushStep(0)];
    PushThen(s, q4, q5, [PushStep(0)]);
    PushThen(s, q3, q4, [PushStep(0)] + [PushStep(0)]);
    PushThen(s, q2, q3, [PushStep(0)] + ([PushStep(0)] + [PushStep(0)]));
    PushThen(s, q1, q2, [PushStep(0)] + ([PushStep(0)] + ([PushStep(0)] + [PushStep(0)])));
  }

  /** A call that has not come to its end has not returned. */
  lemma StillInside(q: Machine)
    requires Shaped(q) && 0 < |q.producers| && !Next(Unbounded, q, Produce(0)).producers[0].Idle?
    ensures Pushes(q, Next(Unbounded, q, Produce(0)))
  {
    PushReturns(q, 0);
  }

  /** The producer's steps of one call on a ring with room. */
  lemma PushChain(q: Machine, e: Entry)
    returns (q1: Machine, q2: Machine, q3: Machine, q4: Machine, q5: Machine, q6: Machine)
    requires Inv(q) && 0 < |q.producers| && q.producers[0] == Idle && !Full(q)
    ensures q1 == Next(Unbounded, q, Call(0, e)) && Shaped(q1) && Pushes(q1, q2)
    ensures Shaped(q2) && Pushes(q2, q3) && Shaped(q3) && Pushes(q3, q4)
    ensures Shaped(q4) && Pushes(q4, q5) && Shaped(q5) && Pushes(q5, q6)
    ensures Inv(q6) && q6.log == q.log + [Push(0, e)] && q6.producers == q.producers
    ensures q6.tail == q.tail && q6.consumer == q.consumer
  {
    q1, q2, q3, q4, q5 := PushSteps(q, 0, e);
    StillInside(q1);
    StillInside(q2);
    StillInside(q3);
    StillInside(q4);
    q6 := Next(Unbounded, q5, Produce(0));
    NextKeepsInv(q5, Produce(0));
    assert q6.producers == q.producers;
    assert q6.outcomes == q5.outcomes + [Return(Push(0, e), true)];
  }

  /** A whole call of Enqueue on a ring with room. */
  lemma EnqueueAll(s: Logger, e: Entry) returns (r: Logger)
    requires Inv(s.q) && s.owing == {} && 0 < |s.q.producers| && s.q.producers[0] == Idle && !Full(s.q)
    ensures Inv(r.q) && r == s.(q := r.q)
    ensures r.q.log == s.q.log + [Push(0, e)] && r.q.producers == s.q.producers && r.q.tail == s.q.tail
    ensures r.q.consumer == s.q.consumer
    ensures LogRun(Unbounded, s, [Enqueue(0, e)] + ([PushStep(0)] + ([PushStep(0)] + ([PushStep(0)] +
                                 ([PushStep(0)] + [PushStep(0)]))))) == r
  {
    var q1, q2, q3, q4, q5, q6 := PushChain(s.q, e);
    r := s.(q := q6);
    FivePushes(s, q1, q2, q3, q4, q5, q6);
    LogRunCons(Unbounded, s, Enqueue(0, e),
               [PushStep(0)] + ([PushStep(0)] + ([PushStep(0)] + ([PushStep(0)] + [PushStep(0)]))));
  }

  /** An entry is published between the thread's look at the ring and its load of m_syncSeq. */
  lemma GapRun(s: Logger, e: Entry) returns (r: Logger)
    requires LogInitial(s) && |s.q.producers| >= 1
    ensures LogRun(Unbounded, s, GapSteps(e)) == r
    ensures r == s.(drainer := Loading, q := r.q) && Shaped(r.q) && Due(r.q) == 1
  {
    var s1 := FirstLook(s, [Enqueue(0, e)] + ([PushStep(0)] + ([PushStep(0)] + ([PushStep(0)] +
                           ([PushStep(0)] + [PushStep(0)])))));
    InitialInv(s.q);
    r := EnqueueAll(s1, e);
    PublishedUnlessOwned(r.q, 0);
    assert ReadyFrom(r.q, 1) == 1;
  }

  /** From every fresh logger a state is reached in which a Sync does not keep its promise. */
  lemma GapIsReached(s: Logger, e: Entry, k: nat)
    requires LogInitial(s) && |s.q.producers| >= 1 && k < |s.syncers|
    ensures var r := LogRun(Unbounded, s, GapSteps(e));
            Idles(r, k) && Due(r.q) == |r.flushed| + 1 && !SyncFlushes(r, k, Due(r.q))
  {
    var r := GapRun(s, e);
    InitialLogInv(s);
    LogRunKeepsInv(s, GapSteps(e));
    SyncFlushesIff(r, k);
  }
}
