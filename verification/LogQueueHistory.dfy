/**
 Where each call of TryPush went.  These facts hold for either arithmetic: they follow from the
 order of the steps alone.
 */
module LogQueueHistory {
  import opened LogQueue

  /** The entries pushed by producer i, in order. */
  function By(pushes: seq<Push>, i: nat): seq<Entry> {
    if pushes == [] then []
    else
      var n := |pushes| - 1;
      By(pushes[..n], i) + (if pushes[n].producer == i then [pushes[n].entry] else [])
  }

  /** The pushes that returned, and those that returned true. */
  function Finished(outcomes: seq<Return>): seq<Push> {
    seq(|outcomes|, k requires 0 <= k < |outcomes| => outcomes[k].push)
  }

  function Accepted(outcomes: seq<Return>): seq<Push> {
    if outcomes == [] then []
    else
      var n := |outcomes| - 1;
      Accepted(outcomes[..n]) + (if outcomes[n].ok then [outcomes[n].push] else [])
  }

  function Rejects(outcomes: seq<Return>): nat {
    if outcomes == [] then 0
    else
      var n := |outcomes| - 1;
      Rejects(outcomes[..n]) + (if outcomes[n].ok then 0 else 1)
  }

  /** The entry of a call that has not returned; and of one that claimed its position. */
  function Pending(p: Producer): seq<Entry> {
    if p.Idle? then [] else [p.entry]
  }

  function InSlot(p: Producer): seq<Entry> {
    if p.Claimed? || p.Written? then [p.entry] else []
  }

  /** How many producers are inside TryPush without having claimed a position. */
  function Undecided(ps: seq<Producer>): nat {
    if ps == [] then 0
    else
      var n := |ps| - 1;
      Undecided(ps[..n]) + |Pending(ps[n])| - |InSlot(ps[n])|
  }

  ghost predicate TracedAt(s: Machine, i: nat)
    requires i < |s.producers|
  {
    && By(s.calls, i) == By(Finished(s.outcomes), i) + Pending(s.producers[i])
    && By(s.log, i) == By(Accepted(s.outcomes), i) + InSlot(s.producers[i])
  }

  ghost predicate Traced(s: Machine) {
    && (forall i: nat {:trigger TracedAt(s, i)} :: i < |s.producers| ==> TracedAt(s, i))
    && |s.calls| == |s.log| + Rejects(s.outcomes) + Undecided(s.producers)
  }

  lemma ByAppend(pushes: seq<Push>, p: Push, i: nat)
    ensures By(pushes + [p], i) == By(pushes, i) + (if p.producer == i then [p.entry] else [])
  {
    assert (pushes + [p])[..|pushes|] == pushes;
  }

  lemma OutcomesAppend(outcomes: seq<Return>, o: Return)
    ensures Finished(outcomes + [o]) == Finished(outcomes) + [o.push]
    ensures Accepted(outcomes + [o]) == if o.ok then Accepted(outcomes) + [o.push] else Accepted(outcomes)
    ensures Rejects(outcomes + [o]) == Rejects(outcomes) + (if o.ok then 0 else 1)
  {
    assert (outcomes + [o])[..|outcomes|] == outcomes;
  }

  lemma {:induction false} UndecidedUpdate(ps: seq<Producer>, i: nat, p: Producer)
    requires i < |ps|
    ensures Undecided(ps[i := p]) ==
            Undecided(ps) - (|Pending(ps[i])| - |InSlot(ps[i])|) + (|Pending(p)| - |InSlot(p)|)
  {
    var n := |ps| - 1;
    if i < n {
      UndecidedUpdate(ps[..n], i, p);
      assert ps[i := p][..n] == ps[..n][i := p];
    } else {
      assert ps[i := p][..n] == ps[..n];
    }
  }

  lemma InitialTraced(s: Machine)
    requires Initial(s)
    ensures Traced(s)
  {
    NoneUndecided(s.producers);
  }

  lemma {:induction false} NoneUndecided(ps: seq<Producer>)
    requires forall i :: 0 <= i < |ps| ==> ps[i].Idle?
    ensures Undecided(ps) == 0
  {
    if ps != [] { NoneUndecided(ps[..|ps| - 1]); }
  }

  /** Between a call, its claim and its return, a producer's steps leave the histories alone. */
  lemma MoveKeepsTraced(s: Machine, r: Machine, i: nat)
    requires Traced(s) && i < |s.producers| == |r.producers|
    requires r.calls == s.calls && r.log == s.log && r.outcomes == s.outcomes
    requires r.producers == s.producers[i := r.producers[i]]
    requires Pending(r.producers[i]) == Pending(s.producers[i])
    requires InSlot(r.producers[i]) == InSlot(s.producers[i])
    ensures Traced(r)
  {
    UndecidedUpdate(s.producers, i, r.producers[i]);
    forall j: nat | j < |r.producers| ensures TracedAt(r, j) {
      assert TracedAt(s, j);
    }
  }

  lemma CallKeepsTraced(s: Machine, r: Machine, i: nat, e: Entry)
    requires Traced(s) && i < |s.producers| && s.producers[i].Idle?
    requires r == s.(producers := s.producers[i := Calling(e)], calls := s.calls + [Push(i, e)])
    ensures Traced(r)
  {
    UndecidedUpdate(s.producers, i, Calling(e));
    forall j: nat | j < |r.producers| ensures TracedAt(r, j) {
      assert TracedAt(s, j);
      ByAppend(s.calls, Push(i, e), j);
    }
  }

  lemma ClaimKeepsTraced(s: Machine, r: Machine, i: nat, p: Producer)
    requires Traced(s) && i < |s.producers| && s.producers[i].Ready? && p.Claimed?
    requires p.entry == s.producers[i].entry
    requires r == s.(producers := s.producers[i := p], log := s.log + [Push(i, p.entry)], head := r.head)
    ensures Traced(r)
  {
    UndecidedUpdate(s.producers, i, p);
    forall j: nat | j < |r.producers| ensures TracedAt(r, j) {
      assert TracedAt(s, j);
      ByAppend(s.log, Push(i, p.entry), j);
    }
  }

  lemma OutcomesBy(outcomes: seq<Return>, o: Return, j: nat)
    ensures By(Finished(outcomes + [o]), j) ==
            By(Finished(outcomes), j) + (if o.push.producer == j then [o.push.entry] else [])
    ensures By(Accepted(outcomes + [o]), j) ==
            By(Accepted(outcomes), j) + (if o.ok && o.push.producer == j then [o.push.entry] else [])
  {
    OutcomesAppend(outcomes, o);
    ByAppend(Finished(outcomes), o.push, j);
    ByAppend(Accepted(outcomes), o.push, j);
  }

  lemma ReturnKeepsTracedAt(s: Machine, r: Machine, i: nat, o: Return, j: nat)
    requires j < |s.producers| && TracedAt(s, j)
    requires i < |s.producers| && !s.producers[i].Idle? && !s.producers[i].Claimed?
    requires o == Return(Push(i, s.producers[i].entry), s.producers[i].Written?)
    requires r == s.(producers := s.producers[i := Idle], outcomes := s.outcomes + [o], slots := r.slots)
    ensures TracedAt(r, j)
  {
    OutcomesBy(s.outcomes, o, j);
  }

  lemma ReturnKeepsTraced(s: Machine, r: Machine, i: nat, o: Return)
    requires Traced(s) && i < |s.producers| && !s.producers[i].Idle? && !s.producers[i].Claimed?
    requires o == Return(Push(i, s.producers[i].entry), s.producers[i].Written?)
    requires r == s.(producers := s.producers[i := Idle], outcomes := s.outcomes + [o], slots := r.slots)
    ensures Traced(r)
  {
    UndecidedUpdate(s.producers, i, Idle);
    OutcomesAppend(s.outcomes, o);
    forall j: nat | j < |r.producers| ensures TracedAt(r, j) {
      assert TracedAt(s, j);
      ReturnKeepsTracedAt(s, r, i, o, j);
    }
  }

  lemma ProducerKeepsTraced(ar: Arith, s: Machine, i: nat)
    requires Shaped(s) && Traced(s) && i < |s.producers|
    ensures Traced(ProducerStep(ar, s, i))
  {
    var r := ProducerStep(ar, s, i);
    match s.producers[i]
    case Idle =>
    case Calling(_) => MoveKeepsTraced(s, r, i);
    case Loaded(e, _) =>
      if r.producers[i].Idle? {
        ReturnKeepsTraced(s, r, i, Return(Push(i, e), false));
      } else {
        MoveKeepsTraced(s, r, i);
      }
    case Ready(_, h) =>
      if s.head == h { ClaimKeepsTraced(s, r, i, r.producers[i]); } else { MoveKeepsTraced(s, r, i); }
    case Claimed(_, _) => MoveKeepsTraced(s, r, i);
    case Written(e, _) => ReturnKeepsTraced(s, r, i, Return(Push(i, e), true));
  }

  /** The consumer, and the copying of an entry, touch none of the histories of calls. */
  lemma OthersKeepTraced(s: Machine, r: Machine)
    requires Traced(s)
    requires r.calls == s.calls && r.log == s.log && r.outcomes == s.outcomes && r.producers == s.producers
    ensures Traced(r)
  {
    forall j: nat | j < |r.producers| ensures TracedAt(r, j) {
      assert TracedAt(s, j);
    }
  }

  lemma NextKeepsTraced(ar: Arith, s: Machine, a: Action)
    requires Shaped(s) && Traced(s)
    ensures Traced(Next(ar, s, a))
  {
    match a
    case Call(i, e) =>
      if i < |s.producers| && s.producers[i].Idle? {
        CallKeepsTraced(s, Next(ar, s, a), i, e);
      }
    case Produce(i) =>
      if i < |s.producers| { ProducerKeepsTraced(ar, s, i); }
    case Tear(_, _) =>
      OthersKeepTraced(s, Next(ar, s, a));
    case StartPop =>
      OthersKeepTraced(s, Next(ar, s, a));
    case Consume =>
      OthersKeepTraced(s, ConsumerStep(ar, s));
  }

  /**
   In every run, each producer's calls are, in order, those that returned and the one in progress;
   its claims are, in order, the calls that returned true and the one still being copied in; and
   the calls in all are the claims, the rejections and the calls still undecided.
   */
  lemma {:induction false} RunIsTraced(ar: Arith, s: Machine, actions: seq<Action>)
    requires Shaped(s) && Traced(s)
    ensures Traced(Run(ar, s, actions))
    decreases |actions|
  {
    if actions != [] {
      NextKeepsTraced(ar, s, actions[0]);
      RunIsTraced(ar, Next(ar, s, actions[0]), actions[1..]);
    }
  }
}
