/**
 The remote-call listener: sessions that wait for a call of their kind, answer it and go, and the
 dispatcher that removes them.  The sessions are those of the shipped example.
 */
module ServiceListener {
  import opened CompletionQueues

  datatype CallState =
    WaitConnect | ReadyToRead | WaitReadDone | ReadyToWrite | WaitWriteDone | WaitFinish | Finished | PeerDisconnected

  /** `kind` is the remote procedure a session serves. */
  datatype SessionState = SessionState(kind: nat, call: CallState)

  /** `pending` holds the tag of every operation that has not completed. */
  datatype Listener = Listener(sessions: map<nat, SessionState>, pending: multiset<nat>, lastId: nat, stopped: bool)

  const NO_SESSIONS := Listener(map[], multiset{}, 0, false)

  /** A session of this kind, with its request for a call. */
  function AddSession(s: Listener, kind: nat): Listener {
    s.(lastId := s.lastId + 1, sessions := s.sessions[s.lastId + 1 := SessionState(kind, WaitConnect)],
       pending := s.pending + multiset{s.lastId + 1})
  }

  /** What OnCompletionEvent returns, where it leaves the session, and whether it issues Finish. */
  datatype Reply = Reply(handled: bool, call: CallState, finishes: bool)

  function OnCompletion(call: CallState, ok: bool): Reply {
    match call
    case Finished => Reply(true, Finished, false)
    case WaitFinish => Reply(false, WaitFinish, false)
    case WaitConnect => if ok then Reply(true, WaitFinish, true) else Reply(false, WaitConnect, false)
    case _ => if ok then Reply(false, call, false) else Reply(true, WaitFinish, true)
  }

  /** TryCancelCallAndShutdown. */
  function Cancelled(call: CallState): CallState {
    if call != WaitConnect && call != WaitFinish && call != Finished then Finished else call
  }

  /** One turn of the dispatcher loop, for a completed operation of session id. */
  function Dispatch(s: Listener, id: nat, ok: bool): Listener
    requires id in s.sessions
  {
    var was := s.sessions[id];
    var reply := OnCompletion(was.call, ok);
    var taken := s.(pending := s.pending - multiset{id});
    var added := if was.call == WaitConnect && ok then AddSession(taken, was.kind) else taken;
    var replied := Replied(added, id, reply);
    if reply.handled then replied else replied.(sessions := replied.sessions - {id})
  }

  function Replied(s: Listener, id: nat, reply: Reply): Listener
    requires id in s.sessions
  {
    s.(sessions := s.sessions[id := s.sessions[id].(call := reply.call)],
       pending := s.pending + (if reply.finishes then multiset{id} else multiset{}))
  }

  function StopAll(s: Listener): Listener {
    s.(sessions := map id | id in s.sessions :: s.sessions[id].(call := Cancelled(s.sessions[id].call)),
       stopped := true)
  }

  datatype Action = Register(kind: nat) | Event(id: nat, ok: bool) | Stopping

  /**
   A request for a call fails only when the server is stopped; one that was matched before, or while
   Stop was still cancelling sessions, completes all the same afterwards.
   */
  predicate Enabled(s: Listener, a: Action) {
    match a
    case Register(_) => true
    case Event(id, ok) =>
      && id in s.pending && id in s.sessions
      && (s.sessions[id].call == WaitConnect && !ok ==> s.stopped)
    case Stopping => true
  }

  function Next(s: Listener, a: Action): Listener {
    if !Enabled(s, a) then s
    else
      match a
      case Register(kind) => AddSession(s, kind)
      case Event(id, ok) => Dispatch(s, id, ok)
      case Stopping => StopAll(s)
  }

  function Run(s: Listener, actions: seq<Action>): Listener
    decreases |actions|
  {
    if actions == [] then s else Run(Next(s, actions[0]), actions[1..])
  }

  /** All sessions but those in `todo` have been cancelled. */
  ghost predicate CancelledExcept(was: Listener, now: Listener, todo: set<nat>) {
    && now == was.(sessions := now.sessions) && now.sessions.Keys == was.sessions.Keys
    && (forall id :: id in was.sessions ==>
          now.sessions[id] == if id in todo then was.sessions[id]
                              else was.sessions[id].(call := Cancelled(was.sessions[id].call)))
  }

  lemma CancelStep(was: Listener, before: Listener, after: Listener, todo: set<nat>, id: nat)
    requires CancelledExcept(was, before, todo) && id in todo && id in was.sessions
    requires after == before.(
      sessions := before.sessions[id := before.sessions[id].(call := Cancelled(before.sessions[id].call))])
    ensures CancelledExcept(was, after, todo - {id})
  {
  }

  // ---- the objects ----

  class Session {
    const id: nat
    const kind: nat
    const cq: CompletionQueue
    var callState: CallState

    constructor (id: nat, kind: nat, cq: CompletionQueue)
      modifies cq
      ensures this.id == id && this.kind == kind && this.cq == cq && callState == WaitConnect
      ensures cq.tags == old(cq.tags) + multiset{id}
    {
      this.id, this.kind, this.cq, callState := id, kind, cq, WaitConnect;
      new;
      cq.Post(id);
    }

    method Finish()
      modifies this, cq
      ensures callState == WaitFinish && cq.tags == old(cq.tags) + multiset{id}
    {
      callState := WaitFinish;
      cq.Post(id);
    }

    /** What follows once the dispatcher has added the next session for a new call. */
    method OnCompletionEvent(ok: bool) returns (handled: bool)
      modifies this, cq
      ensures var reply := OnCompletion(old(callState), ok);
              && handled == reply.handled && callState == reply.call
              && cq.tags == old(cq.tags) + (if reply.finishes then multiset{id} else multiset{})
    {
      if callState == Finished { return true; }
      if callState == WaitFinish { return false; }
      if ok {
        if callState != WaitConnect { return false; }
      } else {
        if callState == WaitConnect { return false; }
      }
      Finish();
      handled := true;
    }

    method TryCancelCallAndShutdown()
      modifies this
      ensures callState == Cancelled(old(callState))
    {
      if callState != WaitConnect && callState != WaitFinish && callState != Finished {
        callState := Finished;
      }
    }
  }

  class ServiceListenerGrpc {
    var sessions: map<nat, Session>
    const cq: CompletionQueue
    var lastId: nat
    var running: bool
    ghost var model: Listener

    ghost predicate Valid()
      reads this, cq, sessions.Values
    {
      && sessions.Keys == model.sessions.Keys
      && (forall id :: id in sessions ==> Holds(id, sessions[id]))
      && model == Listener(model.sessions, cq.tags, lastId, !running)
    }

    ghost predicate Holds(id: nat, session: Session)
      reads this, session
    {
      && id in model.sessions && session.id == id <= lastId && session.cq == cq
      && model.sessions[id] == SessionState(session.kind, session.callState)
    }

    constructor ()
      ensures Valid() && fresh(cq) && model == NO_SESSIONS
    {
      cq := new CompletionQueue();
      sessions, lastId, running := map[], 0, true;
      model := NO_SESSIONS;
    }

    method AddNewSession(kind: nat)
      requires Valid()
      modifies this`sessions, this`lastId, this`model, cq
      ensures Valid() && model == AddSession(old(model), kind)
      ensures lastId == old(lastId) + 1 && lastId in sessions && fresh(sessions[lastId])
      ensures sessions == old(sessions)[lastId := sessions[lastId]]
    {
      lastId := lastId + 1;
      var session := new Session(lastId, kind, cq);
      sessions := sessions[lastId := session];
      model := AddSession(model, kind);
    }

    method Stop()
      requires Valid()
      modifies this`model, this`running, sessions.Values
      ensures Valid() && model == StopAll(old(model))
    {
      ghost var was := model;
      CancelAll();
      running := false;
      model := model.(stopped := true);
      assert model.sessions == StopAll(was).sessions;
    }

    method CancelAll()
      requires Valid()
      modifies this`model, sessions.Values
      ensures Valid() && CancelledExcept(old(model), model, {})
    {
      var todo := sessions.Keys;
      ghost var was := model;
      while todo != {}
        invariant Valid() && todo <= sessions.Keys && CancelledExcept(was, model, todo)
        decreases todo
      {
        var id :| id in todo;
        CancelNext(was, todo, id);
        todo := todo - {id};
      }
    }

    method CancelNext(ghost was: Listener, ghost todo: set<nat>, id: nat)
      requires Valid() && id in todo && id in sessions && CancelledExcept(was, model, todo)
      modifies this`model, sessions[id]
      ensures Valid() && CancelledExcept(was, model, todo - {id})
    {
      ghost var before := model;
      Cancel(id);
      CancelStep(was, before, model, todo, id);
    }

    method Cancel(id: nat)
      requires Valid() && id in sessions
      modifies this`model, sessions[id]
      ensures Valid()
      ensures var was := old(model).sessions[id];
              model == old(model).(sessions := old(model).sessions[id := was.(call := Cancelled(was.call))])
    {
      sessions[id].TryCancelCallAndShutdown();
      model := model.(sessions := model.sessions[id := SessionState(sessions[id].kind, sessions[id].callState)]);
    }

    method TakeTag(id: nat)
      requires Valid() && id in cq.tags
      modifies this`model, cq
      ensures Valid() && model == old(model).(pending := old(model).pending - multiset{id})
    {
      cq.Take(id);
      model := model.(pending := cq.tags);
    }

    method Deliver(id: nat, ok: bool) returns (handled: bool)
      requires Valid() && id in sessions
      modifies this`model, sessions[id], cq
      ensures Valid()
      ensures handled == OnCompletion(old(model).sessions[id].call, ok).handled
      ensures model == Replied(old(model), id, OnCompletion(old(model).sessions[id].call, ok))
    {
      handled := sessions[id].OnCompletionEvent(ok);
      model := model.(
        sessions := model.sessions[id := SessionState(sessions[id].kind, sessions[id].callState)],
        pending := cq.tags);
    }

    /** One turn of the dispatcher loop. */
    method OnEvent(id: nat, ok: bool)
      requires Valid() && id in sessions && id in cq.tags
      modifies this, sessions.Values, cq
      ensures Valid() && model == Dispatch(old(model), id, ok)
    {
      TakeTag(id);
      if ok && sessions[id].callState == WaitConnect { AddNewSession(sessions[id].kind); }
      var handled := Deliver(id, ok);
      if !handled { Drop(id); }
    }

    /** TryCancelCallAndShutdown, then RemoveSession. */
    method Drop(id: nat)
      requires Valid() && id in sessions
      modifies this`model, this`sessions, sessions[id]
      ensures Valid() && model == old(model).(sessions := old(model).sessions - {id})
    {
      sessions[id].TryCancelCallAndShutdown();
      sessions := sessions - {id};
      model := model.(sessions := model.sessions - {id});
    }
  }
}
