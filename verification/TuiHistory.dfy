/**
 The terminal view's log: a ring of the newest entries and the scroll position over it.
 */
module TuiHistory {

  type Entry = string

  const LOG_KEEP: nat := 2000

  /** All entries that have arrived, how far from the newest the view is scrolled, and whether it follows. */
  datatype View = View(arrived: seq<Entry>, offset: nat, autoScroll: bool)
  {
    /** How many of the entries are kept. */
    function Count(): nat {
      if |arrived| < LOG_KEEP then |arrived| else LOG_KEEP
    }

    /** The index of the oldest entry that is kept. */
    function Oldest(): nat {
      |arrived| - Count()
    }
  }

  function Kept(v: View): (es: seq<Entry>)
    ensures |es| == v.Count()
  {
    v.arrived[v.Oldest()..]
  }

  const EMPTY := View([], 0, true)

  function Arrive(v: View, e: Entry): View {
    v.(arrived := v.arrived + [e], offset := if v.autoScroll then 0 else v.offset + 1)
  }

  lemma KeptGrows(v: View, e: Entry)
    ensures Kept(Arrive(v, e)) == (if |v.arrived| < LOG_KEEP then Kept(v) else Kept(v)[1..]) + [e]
  {
  }

  function ArriveAll(v: View, es: seq<Entry>): View
    decreases |es|
  {
    if es == [] then v else ArriveAll(Arrive(v, es[0]), es[1..])
  }

  function Page(rows: nat): nat {
    if rows * 6 / 10 < 1 then 1 else rows * 6 / 10
  }

  /** The scroll keys, by the characters behind ESC [. */
  function Scrolled(v: View, keys: string, rows: nat): View
    requires |keys| >= 1
  {
    if keys[0] == 'A' then v.(offset := v.offset + 1, autoScroll := false)
    else if keys[0] == 'B' then
      var o := if v.offset > 0 then v.offset - 1 else 0;
      v.(offset := o, autoScroll := v.autoScroll || o == 0)
    else if keys[0] == '5' && |keys| >= 2 && keys[1] == '~' then
      v.(offset := v.offset + Page(rows), autoScroll := false)
    else if keys[0] == '6' && |keys| >= 2 && keys[1] == '~' then
      var o := if v.offset > Page(rows) then v.offset - Page(rows) else 0;
      v.(offset := o, autoScroll := v.autoScroll || o == 0)
    else if keys[0] == 'F' then v.(offset := 0, autoScroll := true)
    else if keys[0] == 'H' then v.(offset := v.Count(), autoScroll := false)
    else v
  }

  /** HandleKey: after any ESC [ sequence the offset is cut to the number of entries. */
  function Key(v: View, buf: string, rows: nat): View {
    if |buf| >= 3 && buf[0] == 27 as char && buf[1] == '[' then
      var s := Scrolled(v, buf[2..], rows);
      s.(offset := if s.offset > s.Count() then s.Count() else s.offset)
    else v
  }

  /** The largest offset that still fills the window. */
  function MaxOffset(v: View, visible: nat): nat {
    if v.Count() > visible then v.Count() - visible else 0
  }

  /** Where the window starts and ends, counted from the oldest entry that is kept. */
  function Window(v: View, visible: nat): (w: (nat, nat))
    ensures w.0 <= w.1 <= v.Count()
  {
    var offset := if v.offset > MaxOffset(v, visible) then MaxOffset(v, visible) else v.offset;
    var end := v.Count() - offset;
    (if end > visible then end - visible else 0, end)
  }

  /** The entries shown by a window of this many lines. */
  function Shown(v: View, visible: nat): seq<Entry> {
    v.arrived[v.Oldest() + Window(v, visible).0..v.Oldest() + Window(v, visible).1]
  }

  /** The index, among all that have arrived, of the first entry shown. */
  function FirstVisible(v: View, visible: nat): nat {
    v.Oldest() + Window(v, visible).0
  }

  /** Where entry i from the head on is kept: at (head + i) % LOG_KEEP. */
  function Slot(head: nat, i: nat): (k: nat)
    requires head < LOG_KEEP && i <= LOG_KEEP
    ensures k < LOG_KEEP
  {
    if head + i < LOG_KEEP then head + i else head + i - LOG_KEEP
  }

  lemma SlotIsRemainder(head: nat, i: nat)
    requires head < LOG_KEEP && i <= LOG_KEEP
    ensures (head + i) % LOG_KEEP == Slot(head, i)
  {
  }

  predicate HoldsAt(ring: seq<Entry>, head: nat, entries: seq<Entry>, i: nat)
    requires |ring| == LOG_KEEP && head < LOG_KEEP && i < |entries| <= LOG_KEEP
  {
    ring[Slot(head, i)] == entries[i]
  }

  /** From the head on, the ring holds these entries. */
  ghost predicate Holds(ring: seq<Entry>, head: nat, entries: seq<Entry>) {
    && |ring| == LOG_KEEP && head < LOG_KEEP && |entries| <= LOG_KEEP
    && forall i: nat :: i < |entries| ==> HoldsAt(ring, head, entries, i)
  }

  lemma HoldsOneMore(ring: seq<Entry>, head: nat, entries: seq<Entry>, e: Entry)
    requires Holds(ring, head, entries) && |entries| < LOG_KEEP
    ensures Holds(ring[Slot(head, |entries|) := e], head, entries + [e])
  {
    var now := ring[Slot(head, |entries|) := e];
    forall i: nat | i <= |entries| ensures HoldsAt(now, head, entries + [e], i) {
      if i < |entries| { assert HoldsAt(ring, head, entries, i) && Slot(head, i) != Slot(head, |entries|); }
    }
  }

  /** The newest entry takes the place of the oldest, and the head moves on. */
  lemma HoldsNewest(ring: seq<Entry>, head: nat, entries: seq<Entry>, e: Entry)
    requires Holds(ring, head, entries) && |entries| == LOG_KEEP
    ensures Holds(ring[head := e], Slot(head, 1), entries[1..] + [e])
  {
    var now, next := ring[head := e], Slot(head, 1);
    forall i: nat | i < LOG_KEEP ensures HoldsAt(now, next, entries[1..] + [e], i) {
      if i < LOG_KEEP - 1 {
        assert HoldsAt(ring, head, entries, i + 1);
        assert Slot(next, i) == Slot(head, i + 1) != head;
      }
    }
  }

  class RtTui {
    const logHistory: array<Entry>
    var logCount: nat
    var logHead: nat
    var scrollOffset: nat
    var autoScroll: bool
    ghost var arrived: seq<Entry>

    ghost function Abs(): View
      reads this
    {
      View(arrived, scrollOffset, autoScroll)
    }

    /** The ring holds the newest entries, in order. */
    ghost predicate Valid()
      reads this, logHistory
    {
      logCount == Abs().Count() && logHead < LOG_KEEP && Holds(logHistory[..], logHead, Kept(Abs()))
    }

    constructor ()
      ensures Valid() && fresh(logHistory) && Abs() == EMPTY
    {
      logHistory := new Entry[LOG_KEEP](i => "");
      logCount, logHead, scrollOffset, autoScroll := 0, 0, 0, true;
      arrived := [];
    }

    /** The part of Tick that takes the popped entries over. */
    method Tick(popped: seq<Entry>)
      requires Valid()
      modifies this, logHistory
      ensures Valid() && Abs() == ArriveAll(old(Abs()), popped)
    {
      var i := 0;
      while i < |popped|
        invariant 0 <= i <= |popped| && Valid()
        invariant ArriveAll(Abs(), popped[i..]) == ArriveAll(old(Abs()), popped)
      {
        assert popped[i..][0] == popped[i] && popped[i..][1..] == popped[i + 1..];
        Take(popped[i]);
        i := i + 1;
      }
    }

    method Take(entry: Entry)
      requires Valid()
      modifies this, logHistory
      ensures Valid() && Abs() == Arrive(old(Abs()), entry)
    {
      ghost var next := Arrive(Abs(), entry);
      KeptGrows(Abs(), entry);
      Remember(entry, Kept(Abs()));
      assert Holds(logHistory[..], logHead, Kept(next));
      arrived := arrived + [entry];
      scrollOffset := if autoScroll then 0 else scrollOffset + 1;
      assert Abs() == next;
    }

    method Remember(entry: Entry, ghost kept: seq<Entry>)
      requires logCount == |kept| && Holds(logHistory[..], logHead, kept)
      modifies this`logHead, this`logCount, logHistory
      ensures logCount == (if |kept| < LOG_KEEP then |kept| + 1 else LOG_KEEP)
      ensures Holds(logHistory[..], logHead, (if |kept| < LOG_KEEP then kept else kept[1..]) + [entry])
    {
      if logCount < LOG_KEEP {
        HoldsOneMore(logHistory[..], logHead, kept, entry);
        SlotIsRemainder(logHead, logCount);
        logHistory[(logHead + logCount) % LOG_KEEP] := entry;
        logCount := logCount + 1;
      } else {
        HoldsNewest(logHistory[..], logHead, kept, entry);
        SlotIsRemainder(logHead, 1);
        logHistory[logHead] := entry;
        logHead := (logHead + 1) % LOG_KEEP;
      }
    }

    method HandleKey(buf: string, rows: nat)
      requires Valid()
      modifies this`scrollOffset, this`autoScroll
      ensures Valid() && Abs() == Key(old(Abs()), buf, rows)
    {
      if |buf| >= 3 && buf[0] == 27 as char && buf[1] == '[' {
        Scroll(buf[2..], rows);
        if scrollOffset > logCount { scrollOffset := logCount; }
      }
    }

    /** The switch over the character behind ESC [. */
    method Scroll(keys: string, rows: nat)
      requires Valid() && |keys| >= 1
      modifies this`scrollOffset, this`autoScroll
      ensures Valid() && Abs() == Scrolled(old(Abs()), keys, rows)
    {
      var page := rows * 6 / 10;
      if page < 1 { page := 1; }
      match keys[0] {
        case 'A' =>
          scrollOffset := scrollOffset + 1;
          autoScroll := false;
        case 'B' =>
          if scrollOffset > 0 { scrollOffset := scrollOffset - 1; }
          if scrollOffset == 0 { autoScroll := true; }
        case '5' =>
          if |keys| >= 2 && keys[1] == '~' {
            scrollOffset := scrollOffset + page;
            autoScroll := false;
          }
        case '6' =>
          if |keys| >= 2 && keys[1] == '~' {
            if scrollOffset > page { scrollOffset := scrollOffset - page; } else { scrollOffset := 0; }
            if scrollOffset == 0 { autoScroll := true; }
          }
        case 'F' =>
          scrollOffset := 0;
          autoScroll := true;
        case 'H' =>
          scrollOffset := logCount;
          autoScroll := false;
        case _ =>
      }
    }

    method EntryAt(i: nat) returns (e: Entry)
      requires Valid() && i < logCount
      ensures e == arrived[Abs().Oldest() + i]
    {
      assert HoldsAt(logHistory[..], logHead, Kept(Abs()), i);
      SlotIsRemainder(logHead, i);
      e := logHistory[(logHead + i) % LOG_KEEP];
    }

    /** The log lines of RenderArea2 in a box of this height, whose first and last rows are its border. */
    method RenderLines(height: nat) returns (lines: seq<Entry>)
      requires Valid() && height >= 3
      ensures lines == Shown(Abs(), height - 2)
    {
      var visible := height - 2;
      var maxOffset := if logCount > visible then logCount - visible else 0;
      var offset := if scrollOffset > maxOffset then maxOffset else scrollOffset;
      var end := logCount - offset;
      var start := if end > visible then end - visible else 0;
      assert start == Window(Abs(), visible).0 && end == Window(Abs(), visible).1;
      lines := RenderRows(start, end, visible);
    }

    /** Row by row: a line as long as there are any. */
    method RenderRows(start: nat, end: nat, visible: nat) returns (lines: seq<Entry>)
      requires Valid() && start <= end <= logCount && end - start <= visible
      ensures lines == arrived[Abs().Oldest() + start..Abs().Oldest() + end]
    {
      ghost var first := Abs().Oldest() + start;
      var linesToShow := end - start;
      lines := [];
      var r := 0;
      while r < visible
        invariant 0 <= r <= visible
        invariant |lines| == if r < linesToShow then r else linesToShow
        invariant lines == arrived[first..first + |lines|]
      {
        if r < linesToShow {
          var e := EntryAt(start + r);
          lines := lines + [e];
        }
        r := r + 1;
      }
    }
  }

  // ---- what the view shows ----

  datatype Event = Arrival(entry: Entry) | KeyPress(buf: string, rows: nat)

  function RunEvents(v: View, events: seq<Event>): View
    decreases |events|
  {
    if events == [] then v
    else
      var next := match events[0] case Arrival(e) => Arrive(v, e) case KeyPress(buf, rows) => Key(v, buf, rows);
      RunEvents(next, events[1..])
  }

  predicate Follows(v: View) {
    v.autoScroll ==> v.offset == 0
  }

  /** For every history of arrivals and keys, a view that follows is scrolled to the newest entry. */
  lemma {:induction false} FollowingIsAtTheEnd(v: View, events: seq<Event>)
    requires Follows(v)
    ensures Follows(RunEvents(v, events))
    decreases |events|
  {
    if events != [] {
      var next := match events[0] case Arrival(e) => Arrive(v, e) case KeyPress(buf, rows) => Key(v, buf, rows);
      FollowingIsAtTheEnd(next, events[1..]);
    }
  }

  /** A view that follows shows the newest entry last, and as many before it as fit and are kept. */
  lemma FollowingShowsNewest(v: View, visible: nat)
    requires Follows(v) && v.autoScroll && visible > 0
    ensures var n := if v.Count() < visible then v.Count() else visible;
            Shown(v, visible) == v.arrived[|v.arrived| - n..]
  {
  }

  function Max(a: int, b: int): int {
    if a >= b then a else b
  }

  /** The first entry shown, in one expression: counted back from the newest, but not before the oldest. */
  lemma FirstVisibleIs(v: View, visible: nat)
    ensures FirstVisible(v, visible) == Max(|v.arrived| - v.offset - visible, v.Oldest())
  {
  }

  /**
   While the view is paused, any number of arrivals leaves the first entry shown where it is, unless that
   is no longer kept, for every height of the window.
   */
  lemma {:induction false} PausedStaysPut(v: View, es: seq<Entry>, visible: nat)
    requires !v.autoScroll
    ensures var r := ArriveAll(v, es);
            !r.autoScroll && FirstVisible(r, visible) == Max(FirstVisible(v, visible), r.Oldest())
    decreases |es|
  {
    FirstVisibleIs(v, visible);
    if es != [] {
      FirstVisibleIs(Arrive(v, es[0]), visible);
      PausedStaysPut(Arrive(v, es[0]), es[1..], visible);
      OldestMovesOn(Arrive(v, es[0]), es[1..]);
    }
  }

  lemma {:induction false} OldestMovesOn(v: View, es: seq<Entry>)
    ensures ArriveAll(v, es).Oldest() >= v.Oldest()
    decreases |es|
  {
    if es != [] { OldestMovesOn(Arrive(v, es[0]), es[1..]); }
  }

  const DOWN := [27 as char, '[', 'B']

  /** The down key n times. */
  function Downs(v: View, n: nat, rows: nat): View
    decreases n
  {
    if n == 0 then v else Downs(Key(v, DOWN, rows), n - 1, rows)
  }

  function Min(a: int, b: int): int {
    if a <= b then a else b
  }

  /** The first press cuts an offset beyond the entries that are kept; after that each takes one off. */
  lemma {:induction false} DownsOffset(v: View, n: nat, rows: nat)
    requires n > 0
    ensures var r := Downs(v, n, rows);
            r.arrived == v.arrived && r.offset == Max(0, Min(v.offset, v.Count() + 1) - n)
    decreases n
  {
    if n > 1 { DownsOffset(Key(v, DOWN, rows), n - 1, rows); }
  }

  /** How many presses of the down key it takes to come back to an offset that the window can show. */
  function Overshoot(v: View, visible: nat): nat {
    Max(0, Min(v.offset, v.Count() + 1) - MaxOffset(v, visible))
  }

  /**
   The down key, any number of times and from any state: the presses that only take back an overshoot do
   not move the window, each further one moves it down by a line, until it shows the newest entry.
   */
  lemma DownsMove(v: View, n: nat, visible: nat, rows: nat)
    requires visible > 0
    ensures FirstVisible(Downs(v, n, rows), visible) ==
            Min(FirstVisible(v, visible) + Max(0, n - Overshoot(v, visible)), v.Oldest() + MaxOffset(v, visible))
  {
    if n > 0 { DownsOffset(v, n, rows); }
    assert Downs(v, n, rows).Count() == v.Count();
  }

  /** So one press moves the window exactly when the offset is one that the window can show. */
  lemma DownMovesIff(v: View, visible: nat, rows: nat)
    requires visible > 0
    ensures var r := Key(v, DOWN, rows);
            FirstVisible(r, visible) ==
              FirstVisible(v, visible) + if 0 < v.offset <= MaxOffset(v, visible) then 1 else 0
  {
    DownsMove(v, 1, visible, rows);
    assert Downs(Key(v, DOWN, rows), 0, rows) == Key(v, DOWN, rows);
  }

  /** Wherever it stands, the view shows as many entries as fit, or all that are kept. */
  lemma ShowsWhatFits(v: View, visible: nat)
    ensures |Shown(v, visible)| == Min(v.Count(), visible)
    ensures var first := FirstVisible(v, visible);
            first + |Shown(v, visible)| <= |v.arrived|
            && Shown(v, visible) == v.arrived[first..first + |Shown(v, visible)|]
  {
  }

  // ---- the other keys ----

  /** An escape sequence with this character behind ESC [. */
  predicate Sequence(buf: string, code: char) {
    |buf| >= 3 && buf[0] as int == 27 && buf[1] == '[' && buf[2] == code
  }

  predicate Tilde(buf: string) {
    |buf| >= 4 && buf[3] == '~'
  }

  /** Up: one line towards the oldest entry, which stops the view. */
  lemma UpMoves(v: View, buf: string, visible: nat, rows: nat)
    requires Sequence(buf, 'A')
    ensures var r := Key(v, buf, rows);
            && !r.autoScroll && r.arrived == v.arrived
            && FirstVisible(r, visible) == Max(FirstVisible(v, visible) - 1, v.Oldest())
  {
    FirstVisibleIs(v, visible);
    FirstVisibleIs(Key(v, buf, rows), visible);
  }

  /** Page Up: 60 per cent of the terminal's rows, and at least one line. */
  lemma PageUpMoves(v: View, buf: string, visible: nat, rows: nat)
    requires Sequence(buf, '5') && Tilde(buf)
    ensures var r := Key(v, buf, rows);
            && !r.autoScroll && r.arrived == v.arrived
            && FirstVisible(r, visible) == Max(FirstVisible(v, visible) - Max(1, rows * 6 / 10), v.Oldest())
  {
    FirstVisibleIs(v, visible);
    FirstVisibleIs(Key(v, buf, rows), visible);
  }

  /** Page Down: as many lines down, less an overshoot, to the newest entry at most; at offset 0 the view follows. */
  lemma PageDownMoves(v: View, buf: string, visible: nat, rows: nat)
    requires Sequence(buf, '6') && Tilde(buf) && visible > 0
    ensures var r, page := Key(v, buf, rows), Max(1, rows * 6 / 10);
            && r.autoScroll == (v.autoScroll || v.offset <= page) && r.arrived == v.arrived
            && var overshoot := Max(0, Min(v.offset, v.Count() + page) - Max(0, v.Count() - visible));
               FirstVisible(r, visible) == Min(FirstVisible(v, visible) + Max(0, page - overshoot),
                                               Max(|v.arrived| - visible, v.Oldest()))
  {
    FirstVisibleIs(v, visible);
    FirstVisibleIs(Key(v, buf, rows), visible);
  }

  /** Home goes to the oldest entry that is kept and stops the view; End to the newest, and the view follows. */
  lemma HomeAndEndMove(v: View, home: string, end: string, visible: nat, rows: nat)
    requires Sequence(home, 'H') && Sequence(end, 'F')
    ensures var r := Key(v, home, rows);
            !r.autoScroll && r.arrived == v.arrived && FirstVisible(r, visible) == v.Oldest()
    ensures var r := Key(v, end, rows);
            && r.autoScroll && r.offset == 0 && r.arrived == v.arrived
            && FirstVisible(r, visible) == Max(|v.arrived| - visible, v.Oldest())
  {
    FirstVisibleIs(Key(v, home, rows), visible);
    FirstVisibleIs(Key(v, end, rows), visible);
  }

  /** The down key makes the view follow exactly when it comes to offset 0. */
  lemma DownFollows(v: View, buf: string, rows: nat)
    requires Sequence(buf, 'B')
    ensures var r := Key(v, buf, rows);
            r.autoScroll == (v.autoScroll || v.offset <= 1) && r == Key(v, DOWN, rows)
  {
  }

  /** No other input moves the view or changes whether it follows. */
  lemma OtherKeysStay(v: View, buf: string, visible: nat, rows: nat)
    requires forall code :: code in "ABFH" ==> !Sequence(buf, code)
    requires Tilde(buf) ==> !Sequence(buf, '5') && !Sequence(buf, '6')
    ensures var r := Key(v, buf, rows);
            && r.autoScroll == v.autoScroll && r.arrived == v.arrived
            && FirstVisible(r, visible) == FirstVisible(v, visible)
  {
    assert 'A' in "ABFH" && 'B' in "ABFH" && 'F' in "ABFH" && 'H' in "ABFH";
    FirstVisibleIs(v, visible);
    FirstVisibleIs(Key(v, buf, rows), visible);
  }
}
