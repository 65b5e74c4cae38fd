/**
 What every run of the listener keeps: sessions and outstanding operations are in step, and every
 registered procedure has one session waiting for its next call; what adds and removes sessions, and
 when stopping drains them.
 */
module ServiceListenerSafety {
  import opened ServiceListener

  /** Each session has exactly one operation outstanding, and every outstanding operation its session. */
  ghost predicate Inv(s: Listener) {
    && s.pending == multiset(s.sessions.Keys)
    && (forall id :: id in s.sessions ==>
          id <= s.lastId && (s.sessions[id].call == WaitConnect || s.sessions[id].call == WaitFinish))
  }

  lemma BagOfMore(ids: set<nat>, id: nat)
    ensures id !in ids ==> multiset(ids + {id}) == multiset(ids) + multiset{id}
    ensures multiset(ids - {id}) == multiset(ids) - multiset{id}
  {
  }

  lemma AddKeepsInv(s: Listener, kind: nat)
    requires Inv(s)
    ensures Inv(AddSession(s, kind))
  {
    assert AddSession(s, kind).sessions.Keys == s.sessions.Keys + {s.lastId + 1};
    BagOfMore(s.sessions.Keys, s.lastId + 1);
  }

  lemma TakeAndPut(tags: multiset<nat>, id: nat, more: multiset<nat>)
    requires id in tags
    ensures tags - multiset{id} + more + multiset{id} == tags + more
    ensures tags - multiset{id} + multiset{} == tags - multiset{id}
  {
  }

  /** The three things that can happen to a session when its operation completes. */
  lemma DispatchCases(s: Listener, id: nat, ok: bool)
    requires Inv(s) && id in s.sessions
    ensures Dispatch(s, id, ok) ==
              if ok && s.sessions[id].call == WaitConnect then
                AddSession(s, s.sessions[id].kind).(
                  sessions := AddSession(s, s.sessions[id].kind).sessions[id := s.sessions[id].(call := WaitFinish)])
              else s.(sessions := s.sessions - {id}, pending := s.pending - multiset{id})
  {
    assert id in s.pending;
    TakeAndPut(s.pending, id, multiset{s.lastId + 1});
    assert s.sessions[id := s.sessions[id]] == s.sessions;
  }

  lemma DispatchKeepsInv(s: Listener, id: nat, ok: bool)
    requires Inv(s) && id in s.sessions
    ensures Inv(Dispatch(s, id, ok))
  {
    DispatchCases(s, id, ok);
    if ok && s.sessions[id].call == WaitConnect {
      AddKeepsInv(s, s.sessions[id].kind);
      var added := AddSession(s, s.sessions[id].kind);
      assert added.sessions[id := s.sessions[id].(call := WaitFinish)].Keys == added.sessions.Keys;
    } else {
      assert (s.sessions - {id}).Keys == s.sessions.Keys - {id};
      BagOfMore(s.sessions.Keys, id);
    }
  }

  /** Nothing is left for Stop to cancel: every session waits for an operation that must complete. */
  lemma StopCancelsNothing(s: Listener)
    requires Inv(s)
    ensures StopAll(s) == s.(stopped := true)
  {
  }

  lemma NextKeepsInv(s: Listener, a: Action)
    requires Inv(s)
    ensures Inv(Next(s, a))
  {
    if Enabled(s, a) {
      match a
      case Register(kind) => AddKeepsInv(s, kind);
      case Event(id, ok) => DispatchKeepsInv(s, id, ok);
      case Stopping => StopCancelsNothing(s);
    }
  }

  lemma {:induction false} RunKeepsInv(s: Listener, actions: seq<Action>)
    requires Inv(s)
    ensures Inv(Run(s, actions))
    decreases |actions|
  {
    if actions != [] {
      NextKeepsInv(s, actions[0]);
      RunKeepsInv(Next(s, actions[0]), actions[1..]);
    }
  }

  /**
   Over every run: a session that is there has exactly one operation outstanding, one that is not has
   none, and when the completion queue is empty there is no session.
   */
  lemma TagsMatchSessions(actions: seq<Action>, id: nat)
    ensures var r := Run(NO_SESSIONS, actions);
            && r.pending[id] == (if id in r.sessions then 1 else 0)
            && (r.pending == multiset{} ==> r.sessions == map[])
  {
    assert NO_SESSIONS.sessions.Keys == {};
    RunKeepsInv(NO_SESSIONS, actions);
    var r := Run(NO_SESSIONS, actions);
    if r.pending == multiset{} {
      forall i ensures i !in r.sessions {
        assert i !in r.pending;
      }
    }
  }

  /**
   The handler, in every state: Finish answers a new call and a failure of one that was accepted, and
   nothing else; a session is kept exactly when it was finished just now or is cancelled.
   */
  lemma HandlerFinishesIff(call: CallState, ok: bool)
    ensures var r := OnCompletion(call, ok);
            && (r.finishes <==> call != WaitFinish && call != Finished && (ok <==> call == WaitConnect))
            && (r.handled <==> r.finishes || call == Finished)
            && r.call == if r.finishes then WaitFinish else call
  {
  }

  /** Cancelling leaves a session that waits for its call or for Finish, and stops any other for good. */
  lemma CancelStopsIff(call: CallState)
    ensures Cancelled(call) == call <==> call in {WaitConnect, WaitFinish, Finished}
    ensures Cancelled(call) != call ==> Cancelled(call) == Finished
  {
  }

  // ---- one waiting session for each registration ----

  function Waiting(s: Listener, kind: nat): set<nat> {
    set id | id in s.sessions && s.sessions[id] == SessionState(kind, WaitConnect)
  }

  function Registered(actions: seq<Action>, kind: nat): nat {
    if actions == [] then 0
    else (if actions[0] == Register(kind) then 1 else 0) + Registered(actions[1..], kind)
  }

  lemma AddWaits(s: Listener, k: nat, kind: nat)
    requires forall id :: id in s.sessions ==> id <= s.lastId
    ensures Waiting(AddSession(s, k), kind) == Waiting(s, kind) + if k == kind then {s.lastId + 1} else {}
    ensures |Waiting(AddSession(s, k), kind)| == |Waiting(s, kind)| + if k == kind then 1 else 0
  {
  }

  lemma CompletionWaits(s: Listener, id: nat, kind: nat)
    requires Inv(s) && id in s.sessions && Enabled(s, Event(id, s.sessions[id].call == WaitConnect)) && !s.stopped
    ensures |Waiting(Dispatch(s, id, s.sessions[id].call == WaitConnect), kind)| == |Waiting(s, kind)|
  {
    var ok := s.sessions[id].call == WaitConnect;
    var r, w := Dispatch(s, id, ok), Waiting(s, kind);
    DispatchCases(s, id, ok);
    if ok {
      AddWaits(s, s.sessions[id].kind, kind);
      assert Waiting(r, kind) == Waiting(AddSession(s, s.sessions[id].kind), kind) - {id};
    } else {
      assert Waiting(r, kind) == w;
    }
  }

  lemma WaitingStep(s: Listener, a: Action, kind: nat)
    requires Inv(s) && !Next(s, a).stopped
    ensures |Waiting(Next(s, a), kind)| == |Waiting(s, kind)| + (if a == Register(kind) then 1 else 0)
  {
    if Enabled(s, a) {
      match a
      case Register(k) => AddWaits(s, k, kind);
      case Event(id, ok) =>
        DispatchCases(s, id, ok);
        DispatchCases(s, id, false);
        CompletionWaits(s, id, kind);
      case Stopping =>
    }
  }

  lemma {:induction false} WaitingRun(s: Listener, actions: seq<Action>, kind: nat)
    requires Inv(s) && !Run(s, actions).stopped
    ensures |Waiting(Run(s, actions), kind)| == |Waiting(s, kind)| + Registered(actions, kind)
    decreases |actions|
  {
    if actions != [] {
      StoppedStays(Next(s, actions[0]), actions[1..]);
      WaitingStep(s, actions[0], kind);
      NextKeepsInv(s, actions[0]);
      WaitingRun(Next(s, actions[0]), actions[1..], kind);
    }
  }

  lemma {:induction false} StoppedStays(s: Listener, actions: seq<Action>)
    ensures s.stopped ==> Run(s, actions).stopped
    decreases |actions|
  {
    if actions != [] { StoppedStays(Next(s, actions[0]), actions[1..]); }
  }

  /** Until the server stops, each procedure has as many sessions waiting for a call as were registered for it. */
  lemma AlwaysReadyForTheNextCall(actions: seq<Action>, kind: nat)
    requires !Run(NO_SESSIONS, actions).stopped
    ensures |Waiting(Run(NO_SESSIONS, actions), kind)| == Registered(actions, kind)
  {
    assert NO_SESSIONS.sessions.Keys == {} && Waiting(NO_SESSIONS, kind) == {};
    WaitingRun(NO_SESSIONS, actions, kind);
  }

  // ---- stopping ----

  /** A call that gRPC has matched with a waiting session. */
  predicate IsMatched(s: Listener, a: Action) {
    a.Event? && Enabled(s, a) && a.ok && s.sessions[a.id].call == WaitConnect
  }

  /** The matched calls that a run dispatches, its other completions, and its registrations. */
  function Accepted(s: Listener, actions: seq<Action>): nat
    decreases |actions|
  {
    if actions == [] then 0
    else (if IsMatched(s, actions[0]) then 1 else 0) + Accepted(Next(s, actions[0]), actions[1..])
  }

  function Gone(s: Listener, actions: seq<Action>): nat
    decreases |actions|
  {
    if actions == [] then 0
    else
      var a := actions[0];
      (if a.Event? && Enabled(s, a) && !IsMatched(s, a) then 1 else 0) + Gone(Next(s, a), actions[1..])
  }

  function Added(actions: seq<Action>): nat {
    if actions == [] then 0 else (if actions[0].Register? then 1 else 0) + Added(actions[1..])
  }

  lemma StepCounts(s: Listener, a: Action)
    requires Inv(s)
    ensures |Next(s, a).sessions| == |s.sessions| + Accepted(s, [a]) + Added([a]) - Gone(s, [a])
    ensures Next(s, a).lastId == s.lastId + Accepted(s, [a]) + Added([a])
  {
    if Enabled(s, a) {
      match a
      case Register(kind) => AddGrows(s, kind);
      case Event(id, ok) =>
        DispatchCases(s, id, ok);
        if IsMatched(s, a) {
          AddGrows(s, s.sessions[id].kind);
          SameSize(AddSession(s, s.sessions[id].kind).sessions, id, s.sessions[id].(call := WaitFinish));
        } else {
          assert (s.sessions - {id}).Keys == s.sessions.Keys - {id};
          assert |s.sessions - {id}| == |s.sessions.Keys - {id}|;
        }
      case Stopping => StopCancelsNothing(s);
    }
  }

  lemma AddGrows(s: Listener, kind: nat)
    requires Inv(s)
    ensures |AddSession(s, kind).sessions| == |s.sessions| + 1
  {
    assert s.lastId + 1 !in s.sessions;
  }

  lemma SameSize(sessions: map<nat, SessionState>, id: nat, session: SessionState)
    requires id in sessions
    ensures |sessions[id := session]| == |sessions|
  {
    assert sessions[id := session].Keys == sessions.Keys;
    assert |sessions[id := session]| == |sessions[id := session].Keys| && |sessions| == |sessions.Keys|;
  }

  /**
   Over every run, stopped or not: each registration and each matched call adds one session, each other
   completion removes one, and nothing else changes how many there are.
   */
  lemma {:induction false} SessionsAreCounted(s: Listener, actions: seq<Action>)
    requires Inv(s)
    ensures var r := Run(s, actions);
            && |r.sessions| == |s.sessions| + Added(actions) + Accepted(s, actions) - Gone(s, actions)
            && r.lastId == s.lastId + Added(actions) + Accepted(s, actions)
    decreases |actions|
  {
    if actions != [] {
      StepCounts(s, actions[0]);
      NextKeepsInv(s, actions[0]);
      SessionsAreCounted(Next(s, actions[0]), actions[1..]);
    }
  }

  /** Some action of the run dispatches a matched call. */
  predicate DispatchesMatched(s: Listener, actions: seq<Action>)
    decreases |actions|
  {
    actions != [] && (IsMatched(s, actions[0]) || DispatchesMatched(Next(s, actions[0]), actions[1..]))
  }

  lemma {:induction false} MatchedIsAccepted(s: Listener, actions: seq<Action>)
    ensures DispatchesMatched(s, actions) <==> Accepted(s, actions) > 0
    decreases |actions|
  {
    if actions != [] { MatchedIsAccepted(Next(s, actions[0]), actions[1..]); }
  }

  /**
   After Stop, with nothing registered any more, the sessions only go, one for each completion, exactly
   when no call is dispatched that was matched before the server shut down.
   */
  lemma StopDrainsIff(s: Listener, actions: seq<Action>)
    requires Inv(s) && s.stopped && Added(actions) == 0
    ensures var r := Run(s, actions);
            && r.stopped
            && |r.sessions| == |s.sessions| + Accepted(s, actions) - Gone(s, actions)
            && (r.lastId == s.lastId <==> !DispatchesMatched(s, actions))
            && (|r.sessions| == |s.sessions| - (Gone(s, actions) + Accepted(s, actions)) <==>
                  !DispatchesMatched(s, actions))
  {
    SessionsAreCounted(s, actions);
    MatchedIsAccepted(s, actions);
    StoppedStays(s, actions);
  }

  /** No session waits for a call, so there is no request that may have been matched. */
  ghost predicate NoneWaits(s: Listener) {
    forall id :: id in s.sessions ==> s.sessions[id].call != WaitConnect
  }

  lemma NoneWaitsStep(s: Listener, a: Action)
    requires Inv(s) && NoneWaits(s) && !a.Register?
    ensures NoneWaits(Next(s, a)) && Next(s, a).lastId == s.lastId
  {
    if a.Event? && Enabled(s, a) { DispatchCases(s, a.id, a.ok); }
  }

  lemma {:induction false} NoneWaitsRun(s: Listener, actions: seq<Action>)
    requires Inv(s) && NoneWaits(s) && Added(actions) == 0
    ensures Run(s, actions).lastId == s.lastId
    decreases |actions|
  {
    if actions != [] {
      NoneWaitsStep(s, actions[0]);
      NextKeepsInv(s, actions[0]);
      NoneWaitsRun(Next(s, actions[0]), actions[1..]);
    }
  }

  lemma MatchAddsSession(s: Listener, id: nat)
    requires Inv(s) && id in s.sessions && s.sessions[id].call == WaitConnect
    ensures Added([Event(id, true)]) == 0 && Run(s, [Event(id, true)]).lastId == s.lastId + 1
  {
    assert id in s.pending;
    DispatchCases(s, id, true);
    assert Run(s, [Event(id, true)]) == Next(s, Event(id, true));
  }

  /**
   Whether sessions can still be added, as it stands at Stop: with nothing registered any more, none is in
   any continuation exactly when no session waits for a call.
   */
  lemma OnlyGoesIffNoneWaits(s: Listener)
    requires Inv(s)
    ensures (forall actions :: Added(actions) == 0 ==> Run(s, actions).lastId == s.lastId) <==> NoneWaits(s)
  {
    if NoneWaits(s) {
      forall actions | Added(actions) == 0 ensures Run(s, actions).lastId == s.lastId {
        NoneWaitsRun(s, actions);
      }
    } else {
      var id :| id in s.sessions && s.sessions[id].call == WaitConnect;
      MatchAddsSession(s, id);
    }
  }

  lemma RunTwo(s: Listener, a: Action, b: Action)
    ensures Run(s, [a, b]) == Next(Next(s, a), b)
  {
    var s1 := Next(s, a);
    assert [a, b][1..] == [b];
    assert Run(s, [a, b]) == Run(s1, [b]);
    assert Run(s1, [b]) == Run(Next(s1, b), []);
  }

  /** One registration, and Stop. */
  lemma StoppedOne(kind: nat)
    ensures Run(NO_SESSIONS, [Register(kind), Stopping])
         == Listener(map[1 := SessionState(kind, WaitConnect)], multiset{1}, 1, true)
  {
    RunTwo(NO_SESSIONS, Register(kind), Stopping);
    var s := Next(NO_SESSIONS, Register(kind));
    assert s.sessions == map[1 := SessionState(kind, WaitConnect)] && s.pending == multiset{1};
    assert StopAll(s).sessions == s.sessions;
  }

  /** A call that was matched before Stop is dispatched after it: the listener has a new session. */
  lemma StopAddsSession(kind: nat)
    ensures var stopped := Run(NO_SESSIONS, [Register(kind), Stopping]);
            && stopped.stopped && stopped.sessions == map[1 := SessionState(kind, WaitConnect)]
            && Enabled(stopped, Event(1, true))
            && Next(stopped, Event(1, true)).sessions ==
                 map[1 := SessionState(kind, WaitFinish), 2 := SessionState(kind, WaitConnect)]
  {
    StoppedOne(kind);
    var s := Listener(map[1 := SessionState(kind, WaitConnect)], multiset{1}, 1, true);
    assert s.sessions.Keys == {1};
    DispatchCases(s, 1, true);
  }
}
