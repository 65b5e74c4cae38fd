/**
 The streaming subscriber: a read loop that runs in its own thread, and a Stop that may come from
 another one at any point.  Each locked section is one step.
 */
module StateSubscriber {

  type Message = string

  datatype CallState = WaitStart | ReadyToRead | WaitReadDone | WaitFinish | Finished | PeerDisconnected

  datatype Op = StartCall | Read | Finish

  /** How many operations of each kind have not completed. */
  datatype Outstanding = Outstanding(start: nat, read: nat, finish: nat) {
    function Of(op: Op): nat {
      match op
      case StartCall => start
      case Read => read
      case Finish => finish
    }

    function Plus(op: Op): Outstanding {
      match op
      case StartCall => this.(start := start + 1)
      case Read => this.(read := read + 1)
      case Finish => this.(finish := finish + 1)
    }

    function Minus(op: Op): Outstanding
      requires Of(op) > 0
    {
      match op
      case StartCall => this.(start := start - 1)
      case Read => this.(read := read - 1)
      case Finish => this.(finish := finish - 1)
    }
  }

  /** The receiving thread: waiting for a completion, about to cancel the call, or gone. */
  datatype Loop = Waiting | Cancelling | Exited

  /**
   `pending` are the operations that have not completed and `issued` all of them in order; `received`
   is what completed reads brought, of which the first `skipped` came before there was a handler.
   */
  datatype Subscriber = Subscriber(
    call: CallState, loop: Loop, pending: Outstanding, issued: seq<Op>,
    handler: bool, received: seq<Message>, skipped: nat, delivered: seq<Message>, shut: bool)

  /** InitRequest. */
  const STARTED := Subscriber(WaitStart, Waiting, Outstanding(1, 0, 0), [StartCall], false, [], 0, [], false)

  function Issue(s: Subscriber, op: Op): Subscriber {
    s.(issued := s.issued + [op], pending := s.pending.Plus(op))
  }

  /** OnCompletionEvent: where it leaves the session, and whether the loop goes on. */
  function Completed(s: Subscriber, m: Message): (Subscriber, bool) {
    match s.call
    case WaitStart => (Issue(s, Read).(call := WaitReadDone), true)
    case WaitReadDone => (Issue(s.(delivered := if s.handler then s.delivered + [m] else s.delivered), Read), true)
    case WaitFinish => (s.(call := Finished), false)
    case _ => (s, false)
  }

  /** TryCancelCallAndShutdown. */
  function Cancelled(s: Subscriber): Subscriber {
    if s.call != WaitStart && s.call != WaitFinish && s.call != Finished
    then Issue(s.(call := WaitFinish), Finish)
    else s
  }

  datatype Action =
    | Event(op: Op, ok: bool, m: Message)  // an operation completes; a read that succeeds brings m
    | LoopCancels                          // the loop cancels the call and ends
    | LoopDrained                          // the queue is shut and empty
    | StopCancels                          // Stop cancels the call
    | ShutQueue                            // Stop shuts the completion queue
    | RegisterHandler

  predicate Enabled(s: Subscriber, a: Action) {
    match a
    case Event(op, _, _) => s.loop == Waiting && s.pending.Of(op) > 0
    case LoopCancels => s.loop == Cancelling
    case LoopDrained => s.loop == Waiting && s.shut && s.pending == Outstanding(0, 0, 0)
    case _ => true
  }

  /** What the completion queue hands over. */
  function Taken(s: Subscriber, op: Op, ok: bool, m: Message): Subscriber
    requires s.pending.Of(op) > 0
  {
    s.(pending := s.pending.Minus(op),
       received := if op == Read && ok then s.received + [m] else s.received,
       skipped := if op == Read && ok && !s.handler then s.skipped + 1 else s.skipped)
  }

  /** One turn of the receiving loop. */
  function Turn(s: Subscriber, op: Op, ok: bool, m: Message): Subscriber
    requires s.pending.Of(op) > 0
  {
    var taken := Taken(s, op, ok, m);
    if !ok then taken.(loop := Cancelling)
    else
      var completed := Completed(taken, m);
      if completed.1 then completed.0 else completed.0.(loop := Cancelling)
  }

  function Next(s: Subscriber, a: Action): Subscriber {
    if !Enabled(s, a) then s
    else
      match a
      case Event(op, ok, m) => Turn(s, op, ok, m)
      case LoopCancels => Cancelled(s).(loop := Exited)
      case LoopDrained => s.(loop := Exited)
      case StopCancels => Cancelled(s)
      case ShutQueue => s.(shut := true)
      case RegisterHandler => s.(handler := true)
  }

  function Run(s: Subscriber, actions: seq<Action>): Subscriber
    decreases |actions|
  {
    if actions == [] then s else Run(Next(s, actions[0]), actions[1..])
  }

  class Session {
    var callState: CallState
    var loop: Loop
    var pending: Outstanding
    var issued: seq<Op>
    var handler: bool
    var received: seq<Message>
    var skipped: nat
    var delivered: seq<Message>
    var shut: bool

    ghost function Abs(): Subscriber
      reads this
    {
      Subscriber(callState, loop, pending, issued, handler, received, skipped, delivered, shut)
    }

    constructor ()
      ensures Abs() == STARTED
    {
      callState, loop, pending, issued := WaitStart, Waiting, Outstanding(1, 0, 0), [StartCall];
      handler, received, skipped, delivered, shut := false, [], 0, [], false;
    }

    method Start(op: Op)
      modifies this`issued, this`pending
      ensures Abs() == Issue(old(Abs()), op)
    {
      issued := issued + [op];
      pending := pending.Plus(op);
    }

    method OnCompletionEvent(msg: Message) returns (goesOn: bool)
      modifies this
      ensures (Abs(), goesOn) == Completed(old(Abs()), msg)
    {
      if callState == WaitStart {
        Start(Read);
        callState := WaitReadDone;
      } else if callState == WaitReadDone {
        if handler { delivered := delivered + [msg]; }
        Start(Read);
        callState := WaitReadDone;
      } else if callState == WaitFinish {
        callState := Finished;
        return false;
      } else {
        return false;
      }
      return true;
    }

    method TryCancelCallAndShutdown()
      modifies this
      ensures Abs() == Cancelled(old(Abs()))
    {
      if callState != WaitStart && callState != WaitFinish && callState != Finished {
        callState := WaitFinish;
        Start(Finish);
      }
    }

    /** One turn of the receiving loop, up to the decision to leave it. */
    method OnEvent(op: Op, ok: bool, msg: Message)
      requires loop == Waiting && pending.Of(op) > 0
      modifies this
      ensures Abs() == Turn(old(Abs()), op, ok, msg)
    {
      pending := pending.Minus(op);
      if op == Read && ok {
        received := received + [msg];
        if !handler { skipped := skipped + 1; }
      }
      var goesOn := false;
      if ok { goesOn := OnCompletionEvent(msg); }
      if !goesOn { loop := Cancelling; }
    }
  }
}
