/**
 The streaming publisher: one session per subscriber, each a call-state machine with a bounded
 queue behind the write in flight.  The completion queue is a bag of outstanding tags; each handler
 is one step.
 */
module StatePublisher {
  import opened CompletionQueues

  type Message = string

  datatype CallState = WaitConnect | ReadyToWrite | WaitWriteDone | WaitFinish | Finished | PeerDisconnected

  /**
   `tags` counts the operations that have not completed; `written` is what was given to Write, and
   `heard` what was published while the call was connected.
   */
  datatype SessionState = SessionState(
    call: CallState, queue: seq<Message>, tags: nat, written: seq<Message>, heard: seq<Message>)
  {
    predicate Connected() {
      call == ReadyToWrite || call == WaitWriteDone
    }
  }

  const NEW_SESSION := SessionState(WaitConnect, [], 1, [], [])

  /** Session::Publish. */
  function Offer(s: SessionState, queueSize: int, m: Message): SessionState {
    match s.call
    case WaitWriteDone =>
      if queueSize == 0 then s.(heard := s.heard + [m])
      else
        var kept := if queueSize > 0 && |s.queue| >= queueSize then s.queue[1..] else s.queue;
        s.(queue := kept + [m], heard := s.heard + [m])
    case ReadyToWrite => Writing(s.(heard := s.heard + [m]), m)
    case _ => s
  }

  function Writing(s: SessionState, m: Message): SessionState {
    s.(call := WaitWriteDone, written := s.written + [m], tags := s.tags + 1)
  }

  /** A completed operation that succeeded: Session::OnCompletionEvent, apart from what it asks of the server. */
  function Completed(s: SessionState): SessionState
    requires s.tags > 0
  {
    var t := s.(tags := s.tags - 1);
    match s.call
    case WaitConnect => t.(call := ReadyToWrite)
    case WaitWriteDone =>
      if s.queue != [] then Writing(t.(queue := s.queue[1..]), s.queue[0]) else t.(call := ReadyToWrite)
    case _ => t
  }

  /** Session::TryCancelCallAndShutdown. */
  function Cancelled(s: SessionState): SessionState {
    if s.call != WaitConnect && s.call != WaitFinish && s.call != Finished then s.(call := Finished) else s
  }

  datatype Server = Server(sessions: map<nat, SessionState>, lastId: nat, queueSize: int, stopped: bool)

  function AddSession(s: Server): Server {
    s.(lastId := s.lastId + 1, sessions := s.sessions[s.lastId + 1 := NEW_SESSION])
  }

  function PublishAll(s: Server, m: Message): Server {
    s.(sessions := map id | id in s.sessions :: Offer(s.sessions[id], s.queueSize, m))
  }

  function StopAll(s: Server): Server {
    s.(sessions := map id | id in s.sessions :: Cancelled(s.sessions[id]), stopped := true)
  }

  /** A completed operation of session id. */
  function Dispatch(s: Server, id: nat, ok: bool): Server
    requires id in s.sessions && s.sessions[id].tags > 0
  {
    var was := s.sessions[id];
    if !ok then s.(sessions := s.sessions[id := Cancelled(was.(tags := was.tags - 1))])
    else if was.call == WaitFinish then s.(sessions := s.sessions - {id})
    else
      var t := if was.call == WaitConnect then AddSession(s) else s;
      t.(sessions := t.sessions[id := Completed(was)])
  }

  datatype Action = Publishing(m: Message) | Event(id: nat, ok: bool) | Stopping

  /** A request for a connection fails only when the server is stopped. */
  predicate Enabled(s: Server, a: Action) {
    match a
    case Publishing(_) => true
    case Event(id, ok) =>
      && id in s.sessions && s.sessions[id].tags > 0
      && (ok || s.stopped || s.sessions[id].call != WaitConnect)
    case Stopping => true
  }

  function Next(s: Server, a: Action): Server {
    if !Enabled(s, a) then s
    else
      match a
      case Publishing(m) => PublishAll(s, m)
      case Event(id, ok) => Dispatch(s, id, ok)
      case Stopping => StopAll(s)
  }

  function Run(s: Server, actions: seq<Action>): Server
    decreases |actions|
  {
    if actions == [] then s else Run(Next(s, actions[0]), actions[1..])
  }

  function Start(queueSize: int): Server {
    AddSession(Server(map[], 0, queueSize, false))
  }

  // ---- the objects ----

  class Session {
    const id: nat
    const cq: CompletionQueue
    var callState: CallState
    var msgQueue: seq<Message>
    var written: seq<Message>
    ghost var heard: seq<Message>

    ghost function Abs(): SessionState
      reads this, cq
    {
      SessionState(callState, msgQueue, cq.tags[id], written, heard)
    }

    constructor (id: nat, cq: CompletionQueue)
      requires id !in cq.tags
      modifies cq
      ensures this.id == id && this.cq == cq && Abs() == NEW_SESSION
      ensures cq.tags == old(cq.tags) + multiset{id}
    {
      this.id, this.cq := id, cq;
      callState, msgQueue, written, heard := WaitConnect, [], [], [];
      new;
      cq.Post(id);
    }

    method Write(m: Message)
      modifies this`written, cq
      ensures written == old(written) + [m] && cq.tags == old(cq.tags) + multiset{id}
    {
      written := written + [m];
      cq.Post(id);
    }

    method Publish(msg: Message, queueSize: int)
      modifies this, cq
      ensures Abs() == Offer(old(Abs()), queueSize, msg)
      ensures OthersKeepTags(old(cq.tags))
    {
      if callState == WaitWriteDone {
        heard := heard + [msg];
        if queueSize == 0 { return; }
        if queueSize > 0 && |msgQueue| >= queueSize {
          msgQueue := msgQueue[1..];
        }
        msgQueue := msgQueue + [msg];
      } else if callState == ReadyToWrite {
        heard := heard + [msg];
        callState := WaitWriteDone;
        Write(msg);
      }
    }

    /** The branches that do not change the server, once the dispatcher has taken the tag. */
    method OnCompletionEvent()
      modifies this, cq
      ensures Abs() == Completed(old(Abs().(tags := cq.tags[id] + 1)))
      ensures OthersKeepTags(old(cq.tags))
    {
      if callState == WaitConnect {
        callState := ReadyToWrite;
      } else if callState == WaitWriteDone {
        if msgQueue != [] {
          callState := WaitWriteDone;
          Write(msgQueue[0]);
          msgQueue := msgQueue[1..];
        } else {
          callState := ReadyToWrite;
        }
      }
    }

    ghost predicate OthersKeepTags(was: multiset<nat>)
      reads cq
    {
      forall i :: i != id ==> cq.tags[i] == was[i]
    }

    method TryCancelCallAndShutdown()
      modifies this`callState
      ensures Abs() == Cancelled(old(Abs()))
    {
      if callState != WaitConnect && callState != WaitFinish && callState != Finished {
        callState := Finished;
      }
    }
  }

  class StatePublisherGrpc {
    var sessions: map<nat, Session>
    const cq: CompletionQueue
    const queueSize: int
    var lastId: nat
    var running: bool
    ghost var model: Server

    /** The objects are those of the model, and every outstanding tag belongs to a session that was added. */
    ghost predicate Valid()
      reads this, cq, sessions.Values
    {
      && sessions.Keys == model.sessions.Keys
      && (forall id :: id in sessions ==> Holds(id, sessions[id]))
      && model == Server(model.sessions, lastId, queueSize, !running)
      && (forall id :: id > lastId ==> cq.tags[id] == 0)
    }

    ghost predicate Holds(id: nat, session: Session)
      reads this, cq, session
    {
      id in model.sessions && session.id == id <= lastId && session.cq == cq && session.Abs() == model.sessions[id]
    }

    constructor (queueSize: int)
      ensures Valid() && fresh(cq) && fresh(sessions.Values) && model == Start(queueSize)
    {
      cq := new CompletionQueue();
      this.queueSize := queueSize;
      sessions, lastId, running := map[], 0, true;
      model := Server(map[], 0, queueSize, false);
      new;
      AddNewSession();
    }

    method AddNewSession()
      requires Valid()
      modifies this`sessions, this`lastId, this`model, cq
      ensures Valid() && model == AddSession(old(model))
      ensures lastId == old(lastId) + 1 && lastId in sessions && fresh(sessions[lastId])
      ensures sessions == old(sessions)[lastId := sessions[lastId]]
      ensures forall id :: id <= old(lastId) ==> cq.tags[id] == old(cq.tags[id])
    {
      lastId := lastId + 1;
      var session := new Session(lastId, cq);
      sessions := sessions[lastId := session];
      model := AddSession(model);
    }

    method Publish(msg: Message)
      requires Valid()
      modifies this`model, sessions.Values, cq
      ensures Valid() && model == PublishAll(old(model), msg)
    {
      var todo := sessions.Keys;
      ghost var was := model;
      while todo != {}
        invariant Valid() && todo <= sessions.Keys && PublishedExcept(was, model, todo, msg)
        decreases todo
      {
        var id :| id in todo;
        PublishNext(was, todo, id, msg);
        todo := todo - {id};
      }
      AllPublished(was, model, msg);
    }

    method PublishNext(ghost was: Server, ghost todo: set<nat>, id: nat, msg: Message)
      requires Valid() && id in todo && id in sessions && PublishedExcept(was, model, todo, msg)
      modifies this`model, sessions[id], cq
      ensures Valid() && PublishedExcept(was, model, todo - {id}, msg)
    {
      ghost var before := model;
      PublishTo(id, msg);
      PublishStep(was, before, model, todo, id, msg);
    }

    method PublishTo(id: nat, msg: Message)
      requires Valid() && id in sessions
      modifies this`model, sessions[id], cq
      ensures Valid()
      ensures model == old(model).(
                sessions := old(model).sessions[id := Offer(old(model).sessions[id], queueSize, msg)])
    {
      sessions[id].Publish(msg, queueSize);
      model := model.(sessions := model.sessions[id := sessions[id].Abs()]);
    }

    method Stop()
      requires Valid()
      modifies this`model, this`running, sessions.Values
      ensures Valid() && model == StopAll(old(model))
    {
      ghost var was := model;
      CancelAll();
      AllCancelled(was, model);
      running := false;
      model := model.(stopped := true);
    }

    method CancelAll()
      requires Valid()
      modifies this`model, sessions.Values
      ensures Valid() && CancelledExcept(old(model), model, {})
    {
      var todo := sessions.Keys;
      ghost var was := model;
      while todo != {}
        invariant Valid() && todo <= sessions.Keys && CancelledExcept(was, model, todo)
        decreases todo
      {
        var id :| id in todo;
        CancelNext(was, todo, id);
        todo := todo - {id};
      }
    }

    method CancelNext(ghost was: Server, ghost todo: set<nat>, id: nat)
      requires Valid() && id in todo && id in sessions && CancelledExcept(was, model, todo)
      modifies this`model, sessions[id]
      ensures Valid() && CancelledExcept(was, model, todo - {id})
    {
      ghost var before := model;
      Cancel(id);
      CancelStep(was, before, model, todo, id);
    }

    method Cancel(id: nat)
      requires Valid() && id in sessions
      modifies this`model, sessions[id]
      ensures Valid()
      ensures model == old(model).(sessions := old(model).sessions[id := Cancelled(old(model).sessions[id])])
    {
      sessions[id].TryCancelCallAndShutdown();
      model := model.(sessions := model.sessions[id := sessions[id].Abs()]);
    }

    method RemoveSession(id: nat)
      requires Valid() && id in sessions
      modifies this`model, this`sessions
      ensures Valid() && model == old(model).(sessions := old(model).sessions - {id})
    {
      sessions := sessions - {id};
      model := model.(sessions := model.sessions - {id});
    }

    /** One turn of the dispatcher loop. */
    method OnEvent(id: nat, ok: bool)
      requires Valid() && id in sessions && id in cq.tags
      modifies this, sessions.Values, cq
      ensures Valid() && model == Dispatch(old(model), id, ok)
    {
      ghost var was := model;
      TakeTag(id);
      DispatchFromTaken(was, model, id);
      if !ok {
        Cancel(id);
      } else if sessions[id].callState == WaitConnect {
        Accept(id);
      } else if sessions[id].callState == WaitFinish {
        RemoveSession(id);
      } else {
        Proceed(id);
      }
    }

    method TakeTag(id: nat)
      requires Valid() && id in sessions && id in cq.tags
      modifies this`model, cq
      ensures Valid()
      ensures var was := old(model).sessions[id];
              was.tags > 0 && model == old(model).(sessions := old(model).sessions[id := was.(tags := was.tags - 1)])
    {
      cq.Take(id);
      model := model.(sessions := model.sessions[id := sessions[id].Abs()]);
    }

    /** A connection: a new session waits for the next one. */
    method Accept(id: nat)
      requires Valid() && id in sessions && sessions[id].callState == WaitConnect
      modifies this, sessions.Values, cq
      ensures Valid()
      ensures var was, added := old(model).sessions[id], AddSession(old(model));
              model == added.(sessions := added.sessions[id := Completed(was.(tags := was.tags + 1))])
    {
      AddNewSession();
      Proceed(id);
    }

    method Proceed(id: nat)
      requires Valid() && id in sessions
      modifies this`model, sessions[id], cq
      ensures Valid()
      ensures var was := old(model).sessions[id];
              model == old(model).(sessions := old(model).sessions[id := Completed(was.(tags := was.tags + 1))])
    {
      sessions[id].OnCompletionEvent();
      model := model.(sessions := model.sessions[id := sessions[id].Abs()]);
    }
  }

  /** All sessions but those in `todo` have been offered m. */
  ghost predicate PublishedExcept(was: Server, now: Server, todo: set<nat>, m: Message) {
    && now == was.(sessions := now.sessions) && now.sessions.Keys == was.sessions.Keys
    && (forall id :: id in was.sessions ==>
          now.sessions[id] == if id in todo then was.sessions[id] else Offer(was.sessions[id], was.queueSize, m))
  }

  ghost predicate CancelledExcept(was: Server, now: Server, todo: set<nat>) {
    && now == was.(sessions := now.sessions) && now.sessions.Keys == was.sessions.Keys
    && (forall id :: id in was.sessions ==>
          now.sessions[id] == if id in todo then was.sessions[id] else Cancelled(was.sessions[id]))
  }

  lemma PublishStep(was: Server, before: Server, after: Server, todo: set<nat>, id: nat, m: Message)
    requires PublishedExcept(was, before, todo, m) && id in todo && id in was.sessions
    requires after == before.(sessions := before.sessions[id := Offer(before.sessions[id], was.queueSize, m)])
    ensures PublishedExcept(was, after, todo - {id}, m)
  {
  }

  lemma AllPublished(was: Server, now: Server, m: Message)
    requires PublishedExcept(was, now, {}, m)
    ensures now == PublishAll(was, m)
  {
  }

  lemma CancelStep(was: Server, before: Server, after: Server, todo: set<nat>, id: nat)
    requires CancelledExcept(was, before, todo) && id in todo && id in was.sessions
    requires after == before.(sessions := before.sessions[id := Cancelled(before.sessions[id])])
    ensures CancelledExcept(was, after, todo - {id})
  {
  }

  lemma AllCancelled(was: Server, now: Server)
    requires CancelledExcept(was, now, {})
    ensures now.(stopped := true) == StopAll(was)
  {
  }

  /** Dispatch as what follows once the tag has been taken. */
  lemma DispatchFromTaken(s: Server, taken: Server, id: nat)
    requires id in s.sessions && s.sessions[id].tags > 0
    requires taken == s.(sessions := s.sessions[id := s.sessions[id].(tags := s.sessions[id].tags - 1)])
    ensures var t, added := taken.sessions[id], AddSession(taken);
            && t.call == s.sessions[id].call
            && Dispatch(s, id, false) == taken.(sessions := taken.sessions[id := Cancelled(t)])
            && Dispatch(s, id, true) ==
                 if t.call == WaitFinish then taken.(sessions := taken.sessions - {id})
                 else if t.call == WaitConnect then
                   added.(sessions := added.sessions[id := Completed(t.(tags := t.tags + 1))])
                 else taken.(sessions := taken.sessions[id := Completed(t.(tags := t.tags + 1))])
  {
    var t := taken.sessions[id];
    assert t.(tags := t.tags + 1) == s.sessions[id];
    assert taken.sessions - {id} == s.sessions - {id};
  }
}
