/**
 What becomes of every byte given to the stdout sink, over whole runs and for any behaviour of
 the descriptor.
 */
module StdoutAccounting {
  import opened Descriptors
  import opened Seqs
  import opened StdoutSink

  datatype Fate = Gone | Dropped | Held

  /** A byte accepted by the sink, and whether it has been written, thrown away, or is in the buffer. */
  datatype Byte = Byte(c: char, fate: Fate)

  /** The bytes with fate f, in order. */
  function Pick(l: seq<Byte>, f: Fate): string {
    if l == [] then "" else (if l[0].fate == f then [l[0].c] else "") + Pick(l[1..], f)
  }

  /** All the bytes, in order. */
  function Stream(l: seq<Byte>): string {
    if l == [] then "" else [l[0].c] + Stream(l[1..])
  }

  /** No byte was written after one that is still held. */
  ghost predicate InOrder(l: seq<Byte>) {
    forall i, j :: 0 <= i < j < |l| && l[i].fate == Held ==> l[j].fate != Gone
  }

  /** The held bytes are the last ones accepted. */
  ghost predicate HeldLast(l: seq<Byte>) {
    forall i, j :: 0 <= i < j < |l| && l[i].fate == Held ==> l[j].fate == Held
  }

  /**
   A ledger of the bytes accepted so far: those gone make up the output, in order; those held, the
   buffer.
   */
  ghost predicate Accounts(s: Sink, accepted: string, l: seq<Byte>) {
    && InOrder(l) && Stream(l) == accepted
    && s.written == Pick(l, Gone) && s.buffered == Pick(l, Held)
    && |s.buffered| <= INTERNAL_BUF_SIZE
  }

  lemma {:induction false} PickConcat(a: seq<Byte>, b: seq<Byte>, f: Fate)
    ensures Pick(a + b, f) == Pick(a, f) + Pick(b, f)
  {
    if a == [] {
      assert a + b == b;
    } else {
      assert (a + b)[1..] == a[1..] + b;
      PickConcat(a[1..], b, f);
      Regroup(if a[0].fate == f then [a[0].c] else "", Pick(a[1..], f), Pick(b, f));
    }
  }

  lemma {:induction false} StreamConcat(a: seq<Byte>, b: seq<Byte>)
    ensures Stream(a + b) == Stream(a) + Stream(b)
  {
    if a == [] {
      assert a + b == b;
    } else {
      assert (a + b)[1..] == a[1..] + b;
      StreamConcat(a[1..], b);
      Regroup([a[0].c], Stream(a[1..]), Stream(b));
    }
  }

  lemma {:induction false} LedgerCounts(l: seq<Byte>)
    ensures |Stream(l)| == |l| == |Pick(l, Gone)| + |Pick(l, Dropped)| + |Pick(l, Held)|
  {
    if l != [] { LedgerCounts(l[1..]); }
  }

  /** Text with one fate. */
  function Mark(text: string, f: Fate): (l: seq<Byte>)
    ensures |l| == |text| && forall i :: 0 <= i < |l| ==> l[i].fate == f
  {
    if text == "" then [] else [Byte(text[0], f)] + Mark(text[1..], f)
  }

  lemma {:induction false} MarkPicks(text: string, f: Fate, g: Fate)
    ensures Stream(Mark(text, f)) == text
    ensures Pick(Mark(text, f), g) == if f == g then text else ""
  {
    if text != "" {
      MarkPicks(text[1..], f, g);
      assert Mark(text, f)[1..] == Mark(text[1..], f);
      assert text == [text[0]] + text[1..];
    }
  }

  /** A ledger without held bytes, and one with a held byte followed by none that is gone. */
  lemma {:induction false} NonePicked(l: seq<Byte>, f: Fate)
    ensures Pick(l, f) == "" <==> forall i :: 0 <= i < |l| ==> l[i].fate != f
  {
    if l != [] {
      NonePicked(l[1..], f);
      assert forall i :: 0 < i < |l| ==> l[i] == l[1..][i - 1];
    }
  }

  // ---- releasing the oldest held bytes ----

  /** The position behind the first n held bytes. */
  function Split(l: seq<Byte>, n: nat): (k: nat)
    requires n <= |Pick(l, Held)|
    ensures k <= |l|
  {
    if n == 0 then 0
    else if l[0].fate == Held then 1 + Split(l[1..], n - 1)
    else 1 + Split(l[1..], n)
  }

  lemma {:induction false} SplitPicks(l: seq<Byte>, n: nat)
    requires n <= |Pick(l, Held)|
    ensures |Pick(l[..Split(l, n)], Held)| == n
  {
    if n > 0 {
      var m := if l[0].fate == Held then n - 1 else n;
      SplitPicks(l[1..], m);
      assert l[..Split(l, n)][1..] == l[1..][..Split(l[1..], m)];
    }
  }

  /** The ledger with its held bytes given fate f. */
  function Settle(l: seq<Byte>, f: Fate): (r: seq<Byte>)
    ensures |r| == |l|
    ensures forall i :: 0 <= i < |l| ==> r[i] == if l[i].fate == Held then l[i].(fate := f) else l[i]
  {
    if l == [] then [] else [if l[0].fate == Held then l[0].(fate := f) else l[0]] + Settle(l[1..], f)
  }

  lemma {:induction false} SettleStream(l: seq<Byte>, f: Fate)
    ensures Stream(Settle(l, f)) == Stream(l)
  {
    if l != [] {
      SettleStream(l[1..], f);
      assert Settle(l, f)[1..] == Settle(l[1..], f);
    }
  }

  /** The bytes whose fate Settle does not touch. */
  lemma {:induction false} SettleOthers(l: seq<Byte>, f: Fate, g: Fate)
    requires f != g && g != Held
    ensures Pick(Settle(l, f), g) == Pick(l, g)
  {
    if l != [] {
      SettleOthers(l[1..], f, g);
      assert Settle(l, f)[1..] == Settle(l[1..], f);
    }
  }

  lemma {:induction false} SettleGone(l: seq<Byte>)
    requires InOrder(l)
    ensures Pick(Settle(l, Gone), Gone) == Pick(l, Gone) + Pick(l, Held)
  {
    if l != [] {
      SettleGone(l[1..]);
      assert Settle(l, Gone)[1..] == Settle(l[1..], Gone);
      if l[0].fate == Held { NonePicked(l[1..], Gone); }
    }
  }

  /** The oldest n held bytes settled with fate f. */
  ghost function Release(l: seq<Byte>, n: nat, f: Fate): seq<Byte>
    requires n <= |Pick(l, Held)|
  {
    Settle(l[..Split(l, n)], f) + l[Split(l, n)..]
  }

  lemma ReleaseStream(l: seq<Byte>, n: nat, f: Fate)
    requires n <= |Pick(l, Held)|
    ensures Stream(Release(l, n, f)) == Stream(l)
  {
    var a, b := l[..Split(l, n)], l[Split(l, n)..];
    assert l == a + b;
    SettleStream(a, f);
    StreamConcat(a, b);
    StreamConcat(Settle(a, f), b);
  }

  lemma ReleaseHeld(l: seq<Byte>, n: nat, f: Fate)
    requires f != Held && n <= |Pick(l, Held)|
    ensures Pick(Release(l, n, f), Held) == Pick(l, Held)[n..]
    ensures Pick(l[..Split(l, n)], Held) == Pick(l, Held)[..n]
  {
    var a, b := l[..Split(l, n)], l[Split(l, n)..];
    assert l == a + b;
    SplitPicks(l, n);
    PickConcat(a, b, Held);
    PickConcat(Settle(a, f), b, Held);
    NonePicked(Settle(a, f), Held);
  }

  lemma ReleaseGone(l: seq<Byte>, n: nat, f: Fate)
    requires f != Held && InOrder(l) && n <= |Pick(l, Held)|
    ensures Pick(Release(l, n, f), Gone) == if f == Gone then Pick(l, Gone) + Pick(l, Held)[..n] else Pick(l, Gone)
  {
    var a, b := l[..Split(l, n)], l[Split(l, n)..];
    if n == 0 {
      assert Release(l, 0, f) == l;
      assert Pick(l, Gone) + Pick(l, Held)[..0] == Pick(l, Gone);
    } else {
      assert l == a + b;
      PickConcat(a, b, Gone);
      PickConcat(Settle(a, f), b, Gone);
      LastHeld(l, n);
      NonePicked(b, Gone);
      var gone, held := Pick(a, Gone), Pick(l, Held)[..n];
      NothingMore(gone);
      NothingMore(gone + held);
      if f == Gone { ReleaseAllGone(l, n); } else { SettleOthers(a, f, Gone); }
    }
  }

  lemma ReleaseAllGone(l: seq<Byte>, n: nat)
    requires InOrder(l) && n <= |Pick(l, Held)|
    ensures var a := l[..Split(l, n)];
            Pick(Settle(a, Gone), Gone) == Pick(a, Gone) + Pick(l, Held)[..n]
  {
    ReleaseHeld(l, n, Gone);
    SettleGone(l[..Split(l, n)]);
  }

  lemma ReleaseDropped(l: seq<Byte>, n: nat)
    requires n <= |Pick(l, Held)|
    ensures Pick(Release(l, n, Gone), Dropped) == Pick(l, Dropped)
  {
    var a, b := l[..Split(l, n)], l[Split(l, n)..];
    assert l == a + b;
    SettleOthers(a, Gone, Dropped);
    PickConcat(a, b, Dropped);
    PickConcat(Settle(a, Gone), b, Dropped);
  }

  lemma ReleasePicks(l: seq<Byte>, n: nat, f: Fate)
    requires f != Held && InOrder(l) && n <= |Pick(l, Held)|
    ensures var r := Release(l, n, f);
            && Stream(r) == Stream(l)
            && Pick(r, Held) == Pick(l, Held)[n..]
            && Pick(r, Gone) == (if f == Gone then Pick(l, Gone) + Pick(l, Held)[..n] else Pick(l, Gone))
            && (f == Gone ==> Pick(r, Dropped) == Pick(l, Dropped))
  {
    ReleaseStream(l, n, f);
    ReleaseHeld(l, n, f);
    ReleaseGone(l, n, f);
    if f == Gone { ReleaseDropped(l, n); }
  }

  /** Before the split there is a held byte, so behind it nothing is gone. */
  lemma {:induction false} LastHeld(l: seq<Byte>, n: nat)
    requires 0 < n <= |Pick(l, Held)|
    ensures 0 < Split(l, n) && l[Split(l, n) - 1].fate == Held
  {
    if l[0].fate != Held {
      LastHeld(l[1..], n);
    } else if n > 1 {
      LastHeld(l[1..], n - 1);
    }
  }

  lemma ReleaseKeepsOrder(l: seq<Byte>, n: nat, f: Fate)
    requires f != Held && InOrder(l) && n <= |Pick(l, Held)|
    ensures InOrder(Release(l, n, f))
    ensures HeldLast(l) ==> HeldLast(Release(l, n, f))
  {
    var k := Split(l, n);
    var r := Release(l, n, f);
    assert forall i :: 0 <= i < k ==> r[i].fate != Held;
    assert forall i :: k <= i < |l| ==> r[i] == l[i];
  }

  // ---- the operations ----

  lemma FlushAccounts(s: Sink, accepted: string, l: seq<Byte>) returns (r: seq<Byte>)
    requires Accounts(s, accepted, l)
    ensures Accounts(Flush(s), accepted, r)
    ensures HeldLast(l) ==> HeldLast(r)
    ensures Pick(r, Dropped) == Pick(l, Dropped)
  {
    var n := Sent(s.script, |s.buffered|);
    r := Release(l, n, Gone);
    ReleasePicks(l, n, Gone);
    ReleaseKeepsOrder(l, n, Gone);
  }

  /** Sliding the oldest n held bytes out of the buffer. */
  lemma DropAccounts(s: Sink, n: nat, accepted: string, l: seq<Byte>) returns (r: seq<Byte>)
    requires Accounts(s, accepted, l) && n <= |s.buffered|
    ensures Accounts(s.(buffered := s.buffered[n..]), accepted, r)
    ensures HeldLast(l) ==> HeldLast(r)
    ensures |Pick(r, Dropped)| == |Pick(l, Dropped)| + n
  {
    r := Release(l, n, Dropped);
    ReleasePicks(l, n, Dropped);
    ReleaseKeepsOrder(l, n, Dropped);
    LedgerCounts(l);
    LedgerCounts(r);
  }

  /** How many bytes a flush leaves: those that the device does not accept. */
  function LeftBehind(s: Sink): nat {
    if |s.buffered| <= Accepts(s.script) then 0 else |s.buffered| - Accepts(s.script)
  }

  /** How many of the oldest bytes go for `len` new ones: as many as 64 KiB lack when even a flush did not help. */
  function Displaced(s: Sink, len: nat): nat {
    if |s.buffered| + len <= 65536 || LeftBehind(s) + len <= 65536 then 0 else LeftBehind(s) + len - 65536
  }

  lemma MakeRoomAccounts(s: Sink, len: nat, accepted: string, l: seq<Byte>) returns (r: seq<Byte>)
    requires Accounts(s, accepted, l) && len <= INTERNAL_BUF_SIZE
    ensures Accounts(MakeRoom(s, len), accepted, r)
    ensures HeldLast(l) ==> HeldLast(r)
    ensures |Pick(r, Dropped)| == |Pick(l, Dropped)| + Displaced(s, len)
    ensures Displaced(s, len) == 0 ==> Pick(r, Dropped) == Pick(l, Dropped)
  {
    SentIsAccepted(s.script, |s.buffered|);
    r := l;
    if |s.buffered| + len > INTERNAL_BUF_SIZE {
      var f := Flush(s);
      r := FlushAccounts(s, accepted, l);
      if |f.buffered| + len > INTERNAL_BUF_SIZE {
        r := DropAccounts(f, |f.buffered| + len - INTERNAL_BUF_SIZE, accepted, r);
      }
    }
  }

  /** How many bytes of new data are cut off its front: all but the last 65535, if it has 65536 or more. */
  function CutOff(data: string): (n: nat)
    ensures n <= |data|
  {
    if |data| >= 65536 then |data| - 65535 else 0
  }

  /** How new data enters the ledger: its head is dropped if it is too long, the rest is held. */
  function Entered(data: string): seq<Byte> {
    Mark(data[..|data| - |Kept(data)|], Dropped) + Mark(Kept(data), Held)
  }

  lemma MarksPick(head: string, tail: string)
    ensures var e := Mark(head, Dropped) + Mark(tail, Held);
            Stream(e) == head + tail && Pick(e, Held) == tail && Pick(e, Gone) == "" && Pick(e, Dropped) == head
  {
    var a, b := Mark(head, Dropped), Mark(tail, Held);
    StreamConcat(a, b);
    PickConcat(a, b, Held);
    PickConcat(a, b, Gone);
    PickConcat(a, b, Dropped);
    MarkPicks(head, Dropped, Held);
    MarkPicks(head, Dropped, Gone);
    MarkPicks(head, Dropped, Dropped);
    MarkPicks(tail, Held, Held);
    MarkPicks(tail, Held, Gone);
    MarkPicks(tail, Held, Dropped);
    NothingMore(head);
  }

  lemma EnteredPicks(data: string)
    ensures Stream(Entered(data)) == data
    ensures Pick(Entered(data), Held) == Kept(data) && Pick(Entered(data), Gone) == ""
    ensures Pick(Entered(data), Dropped) == data[..CutOff(data)]
  {
    var head := data[..|data| - |Kept(data)|];
    assert data == head + Kept(data);
    MarksPick(head, Kept(data));
  }

  /** The held bytes stay last unless something older is held and the new data loses its head. */
  lemma EnterKeepsOrder(l: seq<Byte>, data: string)
    requires InOrder(l) && data != ""
    ensures InOrder(l + Entered(data))
    ensures HeldLast(l) ==>
              (HeldLast(l + Entered(data)) <==> |data| < INTERNAL_BUF_SIZE || Pick(l, Held) == "")
  {
    var e := Entered(data);
    var r := l + e;
    var k := |data| - |Kept(data)|;
    assert forall i :: 0 <= i < k ==> e[i].fate == Dropped;
    assert forall i :: k <= i < |e| ==> e[i].fate == Held;
    assert forall i :: 0 <= i < |l| ==> r[i] == l[i];
    assert forall i :: |l| <= i < |r| ==> r[i] == e[i - |l|];
    NonePicked(l, Held);
    if k > 0 { assert r[|l|].fate == Dropped; }
  }

  /** How many bytes an append throws away. */
  function Discards(s: Sink, data: string): nat {
    CutOff(data) + Displaced(s, |data| - CutOff(data))
  }

  /** A flush puts out the oldest bytes, as many as the device accepts, and retains the others. */
  lemma FlushMeans(s: Sink)
    ensures var n, r := Min(|s.buffered|, Accepts(s.script)), Flush(s);
            r.written == s.written + s.buffered[..n] && r.buffered == s.buffered[n..] && |r.buffered| == LeftBehind(s)
  {
    SentIsAccepted(s.script, |s.buffered|);
  }

  /**
   What AppendData does.  When the data, or the end of it that is kept, fits behind the retained bytes,
   nothing is written or lost.  Otherwise all is written that the device accepts, and of the bytes left
   behind only as many are dropped, the oldest ones, as it takes for the new ones to fill the buffer.
   */
  lemma AppendMeans(s: Sink, data: string)
    requires |s.buffered| <= 65536
    ensures var kept, n, r := data[CutOff(data)..], Min(|s.buffered|, Accepts(s.script)), Append(s, data);
            if |s.buffered| + |kept| <= 65536 then
              r == s.(buffered := s.buffered + kept)
            else
              && r.written == s.written + s.buffered[..n] && r.script == ScriptAfter(s.script, |s.buffered|)
              && r.buffered == s.buffered[n..][Displaced(s, |kept|)..] + kept
              && (Displaced(s, |kept|) > 0 ==> |r.buffered| == 65536)
  {
    SentIsAccepted(s.script, |s.buffered|);
    assert data[CutOff(data)..] == Kept(data);
    if data == "" {
      assert s.buffered + "" == s.buffered;
    } else if |s.buffered| + |Kept(data)| > 65536 {
      var left := s.buffered[Min(|s.buffered|, Accepts(s.script))..];
      assert left[0..] == left;
    }
  }

  /**
   AppendData keeps the account.  The held bytes stay the last ones accepted exactly when the data
   is shorter than the buffer or nothing older is retained beside its tail; and the bytes dropped are
   as many as stated above, none of them when the data is shorter than the buffer and fits behind what
   a flush leaves.
   */
  lemma AppendAccounts(s: Sink, data: string, accepted: string, l: seq<Byte>) returns (r: seq<Byte>)
    requires Accounts(s, accepted, l)
    ensures Accounts(Append(s, data), accepted + data, r)
    ensures HeldLast(l) ==> (HeldLast(r) <==> |data| < INTERNAL_BUF_SIZE || |Append(s, data).buffered| == 65535)
    ensures |Pick(r, Dropped)| == |Pick(l, Dropped)| + Discards(s, data)
    ensures Discards(s, data) == 0 ==> Pick(r, Dropped) == Pick(l, Dropped)
  {
    if data == "" {
      r := l;
      assert accepted + data == accepted;
    } else {
      var room := MakeRoomAccounts(s, |Kept(data)|, accepted, l);
      r := room + Entered(data);
      EnteredPicks(data);
      EnterKeepsOrder(room, data);
      StreamConcat(room, Entered(data));
      PickConcat(room, Entered(data), Held);
      PickConcat(room, Entered(data), Gone);
      PickConcat(room, Entered(data), Dropped);
    }
  }

  // ---- whole runs ----

  /** What a caller of the sink does: append some text, or flush. */
  datatype Op = Appending(data: string) | Flushing

  function Step(s: Sink, op: Op): Sink {
    match op
    case Appending(data) => Append(s, data)
    case Flushing => Flush(s)
  }

  function RunOps(s: Sink, ops: seq<Op>): Sink
    decreases |ops|
  {
    if ops == [] then s else RunOps(Step(s, ops[0]), ops[1..])
  }

  function Given(op: Op): string {
    if op.Appending? then op.data else ""
  }

  function Input(ops: seq<Op>): string {
    if ops == [] then "" else Given(ops[0]) + Input(ops[1..])
  }

  /** How many bytes a run throws away. */
  function RunDiscards(s: Sink, ops: seq<Op>): nat
    decreases |ops|
  {
    if ops == [] then 0
    else (if ops[0].Appending? then Discards(s, ops[0].data) else 0) + RunDiscards(Step(s, ops[0]), ops[1..])
  }

  lemma StepAccounts(s: Sink, op: Op, accepted: string, l: seq<Byte>) returns (r: seq<Byte>)
    requires Accounts(s, accepted, l)
    ensures Accounts(Step(s, op), accepted + Given(op), r)
    ensures HeldLast(l) && (op.Appending? ==> |op.data| < INTERNAL_BUF_SIZE) ==> HeldLast(r)
    ensures |Pick(r, Dropped)| == |Pick(l, Dropped)| + if op.Appending? then Discards(s, op.data) else 0
  {
    if op.Appending? {
      r := AppendAccounts(s, op.data, accepted, l);
    } else {
      r := FlushAccounts(s, accepted, l);
      assert accepted + "" == accepted;
    }
  }

  predicate Short(ops: seq<Op>) {
    forall op :: op in ops && op.Appending? ==> |op.data| < INTERNAL_BUF_SIZE
  }

  lemma {:induction false} RunAccounts(s: Sink, ops: seq<Op>, accepted: string, l: seq<Byte>) returns (r: seq<Byte>)
    requires Accounts(s, accepted, l)
    ensures Accounts(RunOps(s, ops), accepted + Input(ops), r)
    ensures HeldLast(l) && Short(ops) ==> HeldLast(r)
    ensures |Pick(r, Dropped)| == |Pick(l, Dropped)| + RunDiscards(s, ops)
    decreases |ops|
  {
    if ops == [] {
      r := l;
      assert accepted + "" == accepted;
    } else {
      var m := StepAccounts(s, ops[0], accepted, l);
      assert ops[0] in ops && forall op :: op in ops[1..] ==> op in ops;
      r := RunAccounts(Step(s, ops[0]), ops[1..], accepted + Given(ops[0]), m);
      Regroup(accepted, Given(ops[0]), Input(ops[1..]));
    }
  }

  /**
   Over any run on an empty sink and any behaviour of the descriptor: the buffer stays in bounds,
   every byte accepted is written, dropped or held, exactly once, the output is what was written in
   the order it came, no byte is written after a later one, and no more are dropped than must be.
   */
  lemma EveryByteIsAccounted(ops: seq<Op>, script: seq<WriteResult>) returns (l: seq<Byte>)
    ensures var r := RunOps(Sink("", script, ""), ops);
            && |r.buffered| <= INTERNAL_BUF_SIZE
            && Stream(l) == Input(ops) && r.written == Pick(l, Gone) && r.buffered == Pick(l, Held) && InOrder(l)
            && |Pick(l, Dropped)| == RunDiscards(Sink("", script, ""), ops)
            && |Input(ops)| == |r.written| + |Pick(l, Dropped)| + |r.buffered|
  {
    l := RunAccounts(Sink("", script, ""), ops, "", []);
    assert "" + Input(ops) == Input(ops);
    LedgerCounts(l);
  }

  /** With no message as long as the buffer, the buffer is always the end of what was accepted. */
  lemma BufferIsSuffix(ops: seq<Op>, script: seq<WriteResult>)
    requires Short(ops)
    ensures var r := RunOps(Sink("", script, ""), ops);
            && |r.buffered| <= |Input(ops)|
            && r.buffered == Input(ops)[|Input(ops)| - |r.buffered|..]
  {
    var l := RunAccounts(Sink("", script, ""), ops, "", []);
    assert "" + Input(ops) == Input(ops);
    HeldIsSuffix(l);
  }

  lemma {:induction false} HeldIsSuffix(l: seq<Byte>)
    requires HeldLast(l)
    ensures |Pick(l, Held)| <= |Stream(l)|
    ensures Pick(l, Held) == Stream(l)[|Stream(l)| - |Pick(l, Held)|..]
  {
    if l != [] {
      HeldIsSuffix(l[1..]);
      if l[0].fate == Held {
        AllHeld(l[1..]);
      }
    }
  }

  lemma {:induction false} AllHeld(l: seq<Byte>)
    requires forall i :: 0 <= i < |l| ==> l[i].fate == Held
    ensures Pick(l, Held) == Stream(l)
  {
    if l != [] { AllHeld(l[1..]); }
  }

  /** When nothing has been dropped, the output followed by the buffer is everything accepted. */
  lemma {:induction false} NothingDropped(l: seq<Byte>)
    requires InOrder(l) && Pick(l, Dropped) == ""
    ensures Pick(l, Gone) + Pick(l, Held) == Stream(l)
  {
    if l != [] {
      assert l[0].fate != Dropped;
      NothingDropped(l[1..]);
      if l[0].fate == Held {
        NonePicked(l[1..], Gone);
      } else {
        Regroup([l[0].c], Pick(l[1..], Gone), Pick(l[1..], Held));
      }
    }
  }

  /**
   A message as long as the buffer breaks the suffix: with one byte retained, the buffer holds that
   byte and the message's tail, which is not how the accepted bytes end.
   */
  lemma LongMessageBreaksSuffix(message: string)
    requires |message| == INTERNAL_BUF_SIZE && forall k :: 0 <= k < |message| ==> message[k] == 'b'
    ensures var r := Append(Sink("a", [], ""), message);
            |r.buffered| == INTERNAL_BUF_SIZE && !(r.buffered == ("a" + message)[1..])
  {
    var r := Append(Sink("a", [], ""), message);
    assert r.buffered[0] == 'a';
    assert ("a" + message)[1..] == message;
  }
}
