/**
 What every run of the publisher keeps: one write in flight per subscriber, delivery in order, a
 bounded queue that holds the newest messages, and one session waiting for a connection.
 */
module StatePublisherSafety {
  import opened Seqs
  import opened StatePublisher

  // ---- the server ----

  /**
   The newest session waits for a connection and has had nothing to do yet; of each session's operations
   at most one is outstanding.
   */
  predicate Kept(t: SessionState, newest: bool, stopped: bool) {
    && t.call != WaitFinish
    && (t.call == WaitConnect <==> newest)
    && t.tags <= 1
    && (t.call == ReadyToWrite ==> t.tags == 0)
    && (t.call == WaitWriteDone ==> t.tags == 1)
    && (newest && !stopped ==> t.tags == 1)
    && (newest ==> t.queue == [] && t.written == [] && t.heard == [])
  }

  ghost predicate Inv(s: Server) {
    && 1 <= s.lastId
    && (forall id :: id in s.sessions <==> 1 <= id <= s.lastId)
    && (forall id :: id in s.sessions ==> Kept(s.sessions[id], id == s.lastId, s.stopped))
  }

  lemma StartInv(queueSize: int)
    ensures Inv(Start(queueSize))
  {
  }

  lemma NextKeepsInv(s: Server, a: Action)
    requires Inv(s)
    ensures Inv(Next(s, a))
  {
    if a.Event? && Enabled(s, a) { assert Kept(s.sessions[a.id], a.id == s.lastId, s.stopped); }
  }

  lemma {:induction false} RunKeepsInv(s: Server, actions: seq<Action>)
    requires Inv(s)
    ensures Inv(Run(s, actions))
    decreases |actions|
  {
    if actions != [] {
      NextKeepsInv(s, actions[0]);
      RunKeepsInv(Next(s, actions[0]), actions[1..]);
    }
  }

  /** What a step does to session id: only publishing, stopping and its own completions concern it. */
  function OwnStep(t: SessionState, id: nat, queueSize: int, a: Action, enabled: bool): SessionState
    requires enabled && a.Event? && a.id == id ==> t.tags > 0
  {
    if !enabled then t
    else
      match a
      case Publishing(m) => Offer(t, queueSize, m)
      case Event(i, ok) =>
        if i != id then t else if ok then Completed(t) else Cancelled(t.(tags := t.tags - 1))
      case Stopping => Cancelled(t)
  }

  lemma StepIsLocal(s: Server, a: Action, id: nat)
    requires Inv(s) && id in s.sessions
    ensures id in Next(s, a).sessions
    ensures Next(s, a).sessions[id] == OwnStep(s.sessions[id], id, s.queueSize, a, Enabled(s, a))
  {
    if a.Event? && a.id in s.sessions { assert Kept(s.sessions[a.id], a.id == s.lastId, s.stopped); }
  }

  // ---- what one session delivers ----

  /** w is part of h, in the same order. */
  predicate InOrderPart(w: seq<Message>, h: seq<Message>) {
    w == [] || (h != [] && (
      (w[|w| - 1] == h[|h| - 1] && InOrderPart(w[..|w| - 1], h[..|h| - 1])) || InOrderPart(w, h[..|h| - 1])))
  }

  lemma PartSkips(w: seq<Message>, h: seq<Message>, m: Message)
    requires InOrderPart(w, h)
    ensures InOrderPart(w, h + [m])
  {
    assert (h + [m])[..|h|] == h;
  }

  lemma PartGrows(w: seq<Message>, h: seq<Message>, m: Message)
    requires InOrderPart(w, h)
    ensures InOrderPart(w + [m], h + [m])
  {
    assert (h + [m])[..|h|] == h && (w + [m])[..|w|] == w;
  }

  /**
   What was heard is some part, of which the writes are an in-order part, followed by the queue; the
   queue stays within its limit, and without a limit nothing is lost.
   */
  ghost predicate Delivers(t: SessionState, queueSize: int, before: seq<Message>) {
    && t.heard == before + t.queue
    && InOrderPart(t.written, before)
    && (queueSize < 0 ==> t.written == before)
    && (queueSize >= 0 ==> |t.queue| <= queueSize)
    && (t.call == ReadyToWrite || t.call == WaitConnect ==> t.queue == [])
  }

  /** The queue moves on: its oldest message, written or not, is no longer in it. */
  lemma OldestLeaves(before: seq<Message>, queue: seq<Message>)
    requires queue != []
    ensures before + queue == before + [queue[0]] + queue[1..]
  {
  }

  lemma OldestDropped(before: seq<Message>, queue: seq<Message>, m: Message)
    requires queue != []
    ensures before + queue + [m] == before + [queue[0]] + (queue[1..] + [m])
  {
    OldestLeaves(before, queue);
    Regroup(before + [queue[0]], queue[1..], [m]);
  }

  /** A message for a full queue: the oldest one in it is lost. */
  lemma FullDelivers(t: SessionState, queueSize: int, m: Message, before: seq<Message>)
    requires Delivers(t, queueSize, before)
    requires t.call == WaitWriteDone && 0 < queueSize <= |t.queue|
    ensures Delivers(Offer(t, queueSize, m), queueSize, before + [t.queue[0]])
  {
    PartSkips(t.written, before, t.queue[0]);
    OldestDropped(before, t.queue, m);
  }

  /** A message that is written at once. */
  lemma WriteDelivers(t: SessionState, queueSize: int, m: Message, before: seq<Message>)
    requires Delivers(t, queueSize, before) && t.call == ReadyToWrite
    ensures Delivers(Offer(t, queueSize, m), queueSize, before + [m])
  {
    PartGrows(t.written, before, m);
  }

  /** A message that finds room behind a write in flight, or no queue at all. */
  lemma QueueDelivers(t: SessionState, queueSize: int, m: Message, before: seq<Message>)
    requires Delivers(t, queueSize, before) && t.call == WaitWriteDone && !(0 < queueSize <= |t.queue|)
    ensures Delivers(Offer(t, queueSize, m), queueSize, if queueSize == 0 then before + [m] else before)
  {
    if queueSize == 0 {
      PartSkips(t.written, before, m);
    } else {
      Regroup(before, t.queue, [m]);
    }
  }

  lemma OfferDelivers(t: SessionState, queueSize: int, m: Message, before: seq<Message>) returns (after: seq<Message>)
    requires Delivers(t, queueSize, before)
    ensures Delivers(Offer(t, queueSize, m), queueSize, after)
  {
    if t.call == ReadyToWrite {
      after := before + [m];
      WriteDelivers(t, queueSize, m, before);
    } else if t.call != WaitWriteDone {
      after := before;
      assert Offer(t, queueSize, m) == t;
    } else if 0 < queueSize <= |t.queue| {
      after := before + [t.queue[0]];
      FullDelivers(t, queueSize, m, before);
    } else {
      after := if queueSize == 0 then before + [m] else before;
      QueueDelivers(t, queueSize, m, before);
    }
  }

  lemma CompletedDelivers(t: SessionState, queueSize: int, before: seq<Message>) returns (after: seq<Message>)
    requires Delivers(t, queueSize, before) && t.tags > 0
    ensures Delivers(Completed(t), queueSize, after)
  {
    after := before;
    if t.call == WaitWriteDone && t.queue != [] {
      after := before + [t.queue[0]];
      PartGrows(t.written, before, t.queue[0]);
      OldestLeaves(before, t.queue);
    }
  }

  lemma StepDelivers(t: SessionState, id: nat, queueSize: int, a: Action, enabled: bool, before: seq<Message>)
    returns (after: seq<Message>)
    requires Delivers(t, queueSize, before) && (enabled && a.Event? && a.id == id ==> t.tags > 0)
    ensures Delivers(OwnStep(t, id, queueSize, a, enabled), queueSize, after)
  {
    after := before;
    if enabled {
      match a
      case Publishing(m) => after := OfferDelivers(t, queueSize, m, before);
      case Event(i, ok) =>
        if i == id && ok { after := CompletedDelivers(t, queueSize, before); }
      case Stopping =>
    }
  }

  /** Messages heard that were neither written nor are queued. */
  function Lost(t: SessionState): int {
    |t.heard| - |t.written| - |t.queue|
  }

  /** A step loses a message exactly when one is published behind a write in flight and the queue is full. */
  lemma LosesOnlyWhenFull(t: SessionState, id: nat, queueSize: int, a: Action, enabled: bool)
    requires enabled && a.Event? && a.id == id ==> t.tags > 0
    ensures Lost(OwnStep(t, id, queueSize, a, enabled)) == Lost(t) +
              if enabled && a.Publishing? && t.call == WaitWriteDone && 0 <= queueSize <= |t.queue| then 1 else 0
  {
  }

  lemma {:induction false} RunDelivers(s: Server, actions: seq<Action>, id: nat, before: seq<Message>)
    returns (after: seq<Message>)
    requires Inv(s) && id in s.sessions && Delivers(s.sessions[id], s.queueSize, before)
    ensures id in Run(s, actions).sessions && Delivers(Run(s, actions).sessions[id], s.queueSize, after)
    decreases |actions|
  {
    after := before;
    if actions != [] {
      var a := actions[0];
      after := StepDelivers(s.sessions[id], id, s.queueSize, a, Enabled(s, a), before);
      StepIsLocal(s, a, id);
      NextKeepsInv(s, a);
      after := RunDelivers(Next(s, a), actions[1..], id, after);
    }
  }

  // ---- what a session hears ----

  /** A subscriber as its completions and the stop show it. */
  datatype Link = Waiting | Open | Closed

  /** The first completion, if it is a success, opens the link; a failed one and the stop close it for good. */
  function LinkAfter(link: Link, id: nat, a: Action): Link {
    match link
    case Waiting => if a == Event(id, true) then Open else Waiting
    case Open => if a == Event(id, false) || a == Stopping then Closed else Open
    case Closed => Closed
  }

  /** A session is connected exactly while its link is open. */
  predicate Shows(t: SessionState, link: Link) {
    match link
    case Waiting => t.call == WaitConnect
    case Open => t.Connected()
    case Closed => t.call == Finished
  }

  lemma StepShows(s: Server, a: Action, id: nat, link: Link)
    requires Inv(s) && id in s.sessions && Shows(s.sessions[id], link)
    ensures id in Next(s, a).sessions
    ensures Shows(Next(s, a).sessions[id], if Enabled(s, a) then LinkAfter(link, id, a) else link)
  {
    StepIsLocal(s, a, id);
  }

  /** The link of session id after a run, in which actions that cannot happen change nothing. */
  function LinkAfterRun(s: Server, actions: seq<Action>, id: nat, link: Link): Link
    decreases |actions|
  {
    if actions == [] then link
    else
      var next := if Enabled(s, actions[0]) then LinkAfter(link, id, actions[0]) else link;
      LinkAfterRun(Next(s, actions[0]), actions[1..], id, next)
  }

  /** The messages published while the link of session id is open. */
  function Published(s: Server, actions: seq<Action>, id: nat, link: Link): seq<Message>
    decreases |actions|
  {
    if actions == [] then []
    else
      var next := if Enabled(s, actions[0]) then LinkAfter(link, id, actions[0]) else link;
      (if actions[0].Publishing? && link.Open? then [actions[0].m] else [])
      + Published(Next(s, actions[0]), actions[1..], id, next)
  }

  lemma HeardStep(s: Server, a: Action, id: nat, link: Link)
    requires Inv(s) && id in s.sessions && Shows(s.sessions[id], link)
    ensures id in Next(s, a).sessions
    ensures Next(s, a).sessions[id].heard
         == s.sessions[id].heard + (if a.Publishing? && link.Open? then [a.m] else [])
  {
    StepIsLocal(s, a, id);
    NothingMore(s.sessions[id].heard);
  }

  /** Over any run a session is connected exactly while its link is open, and hears what is published meanwhile. */
  lemma {:induction false} HeardIsPublished(s: Server, actions: seq<Action>, id: nat, link: Link)
    requires Inv(s) && id in s.sessions && Shows(s.sessions[id], link)
    ensures id in Run(s, actions).sessions
    ensures Shows(Run(s, actions).sessions[id], LinkAfterRun(s, actions, id, link))
    ensures Run(s, actions).sessions[id].heard == s.sessions[id].heard + Published(s, actions, id, link)
    decreases |actions|
  {
    if actions == [] {
      NothingMore(s.sessions[id].heard);
    } else {
      var a, next := actions[0], Next(s, actions[0]);
      var linked := if Enabled(s, a) then LinkAfter(link, id, a) else link;
      HeardStep(s, a, id, link);
      StepShows(s, a, id, link);
      NextKeepsInv(s, a);
      HeardIsPublished(next, actions[1..], id, linked);
      Regroup(s.sessions[id].heard, if a.Publishing? && link.Open? then [a.m] else [],
              Published(next, actions[1..], id, linked));
    }
  }

  /** A subscriber that connects is served at once: the next message published is written to it. */
  lemma ConnectionIsServed(s: Server, id: nat, m: Message)
    requires Inv(s) && id in s.sessions && s.sessions[id].call == WaitConnect && s.sessions[id].tags > 0
    ensures var r := Next(Next(s, Event(id, true)), Publishing(m));
            id in r.sessions && r.sessions[id].written == [m] && r.sessions[id].queue == [] && r.sessions[id].tags == 1
  {
    assert Kept(s.sessions[id], id == s.lastId, s.stopped);
    var connected := Next(s, Event(id, true));
    StepIsLocal(s, Event(id, true), id);
    NextKeepsInv(s, Event(id, true));
    assert Kept(connected.sessions[id], id == connected.lastId, connected.stopped);
    StepIsLocal(connected, Publishing(m), id);
  }

  /** Once the link is closed nothing is written, queued or lost any more. */
  lemma {:induction false} ClosedIsSilent(s: Server, actions: seq<Action>, id: nat)
    requires Inv(s) && id in s.sessions && Shows(s.sessions[id], Closed)
    ensures id in Run(s, actions).sessions
    ensures var t, r := s.sessions[id], Run(s, actions).sessions[id];
            r.call == t.call && r.written == t.written && r.queue == t.queue && r.heard == t.heard && r.tags <= t.tags
    decreases |actions|
  {
    if actions != [] {
      StepIsLocal(s, actions[0], id);
      NextKeepsInv(s, actions[0]);
      ClosedIsSilent(Next(s, actions[0]), actions[1..], id);
    }
  }

  // ---- the guarantees ----

  /** A session that has just been added. */
  predicate Fresh(s: Server, id: nat) {
    id in s.sessions && s.sessions[id] == NEW_SESSION
  }

  /**
   Over any run from the moment a session is added: what it wrote is an in-order part of what was
   published from the completion of its request until a completion fails or the server stops, its queue is
   the end of that and within a limit that is not negative, and without a limit writes and queue together
   are all of it.
   */
  lemma SubscriberIsServed(s: Server, actions: seq<Action>, id: nat)
    requires Inv(s) && Fresh(s, id)
    ensures var r, all := Run(s, actions), Published(s, actions, id, Waiting);
            && id in r.sessions
            && var t := r.sessions[id];
               && |t.queue| <= |all| && t.queue == all[|all| - |t.queue|..]
               && InOrderPart(t.written, all[..|all| - |t.queue|])
               && (s.queueSize >= 0 ==> |t.queue| <= s.queueSize)
               && (s.queueSize < 0 ==> all == t.written + t.queue)
  {
    var all := Published(s, actions, id, Waiting);
    HeardIsPublished(s, actions, id, Waiting);
    NothingMore(all);
    var before := RunDelivers(s, actions, id, []);
    assert all[..|before|] == before;
  }

  /** No session has two operations outstanding. */
  lemma AtMostOneOperation(queueSize: int, actions: seq<Action>, id: nat)
    ensures var r := Run(Start(queueSize), actions);
            id in r.sessions ==> r.sessions[id].tags <= 1
  {
    StartInv(queueSize);
    RunKeepsInv(Start(queueSize), actions);
  }

  /** Until the server stops, exactly one session waits for a connection: the newest, with its request pending. */
  lemma OneSessionWaits(queueSize: int, actions: seq<Action>)
    ensures var r := Run(Start(queueSize), actions);
            && r.lastId in r.sessions
            && (forall id :: id in r.sessions ==> (r.sessions[id].call == WaitConnect <==> id == r.lastId))
            && (!r.stopped ==> r.sessions[r.lastId].tags == 1)
  {
    StartInv(queueSize);
    RunKeepsInv(Start(queueSize), actions);
  }

  /**
   No run reaches WaitFinish, the state in which a session would be removed: every session there ever
   was is still in the map.
   */
  lemma SessionsAreNeverRemoved(queueSize: int, actions: seq<Action>)
    ensures var r := Run(Start(queueSize), actions);
            && (forall id :: id in r.sessions ==> r.sessions[id].call != WaitFinish)
            && (forall id :: id in r.sessions <==> 1 <= id <= r.lastId)
  {
    StartInv(queueSize);
    RunKeepsInv(Start(queueSize), actions);
  }

  /** The completion of the write in flight of session id, n times over. */
  function Completions(id: nat, n: nat): seq<Action> {
    if n == 0 then [] else [Event(id, true)] + Completions(id, n - 1)
  }

  function Drained(t: SessionState): SessionState {
    SessionState(ReadyToWrite, [], 0, t.written + t.queue, t.heard)
  }

  lemma DrainedStep(t: SessionState)
    requires t.call == WaitWriteDone && t.tags == 1
    ensures if t.queue == [] then Completed(t) == Drained(t) else Drained(Completed(t)) == Drained(t)
  {
    if t.queue == [] {
      NothingMore(t.written);
    } else {
      assert t.queue == [t.queue[0]] + t.queue[1..];
      Regroup(t.written, [t.queue[0]], t.queue[1..]);
    }
  }

  lemma RunCompletion(s: Server, id: nat, n: nat)
    ensures Run(s, Completions(id, n + 1)) == Run(Next(s, Event(id, true)), Completions(id, n))
  {
    assert Completions(id, n + 1)[0] == Event(id, true) && Completions(id, n + 1)[1..] == Completions(id, n);
  }

  /** When publishing pauses and the writes succeed, the whole queue is written, in order. */
  lemma {:induction false} QueueDrains(s: Server, id: nat)
    requires Inv(s) && id in s.sessions && s.sessions[id].call == WaitWriteDone
    ensures var r := Run(s, Completions(id, |s.sessions[id].queue| + 1));
            id in r.sessions && r.sessions[id] == Drained(s.sessions[id])
    decreases |s.sessions[id].queue|
  {
    StepIsLocal(s, Event(id, true), id);
    NextKeepsInv(s, Event(id, true));
    DrainedStep(s.sessions[id]);
    RunCompletion(s, id, |s.sessions[id].queue|);
    if s.sessions[id].queue != [] { QueueDrains(Next(s, Event(id, true)), id); }
  }
}
