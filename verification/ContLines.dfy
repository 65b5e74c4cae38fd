/**
 The reassembly of LOG_CONT text into lines, between the ring and the loggers.
 */
module ContLines {
  import Descriptors
  import opened LogQueue
  import Seqs

  const CONT_ENTRY_MARKER: char := 1 as char
  const CONT_BUF_SIZE: nat := 4096
  const INDENT: nat := 21

  /** What a logger is given: a line of LOG_CONT text for the default logger, or a message. */
  datatype Record =
    | Line(level: nat, text: string)
    | Message(logger: string, entry: Entry)

  predicate IsCont(e: Entry) {
    |e.loggerName| > 0 && e.loggerName[0] == CONT_ENTRY_MARKER
  }

  /** The loggers there are: whether the default one exists, and the names of the others. */
  datatype Loggers = Loggers(hasDefault: bool, names: set<string>)

  /** The buffered text, the level of the entry that was buffered last, and the records so far. */
  datatype State = State(text: string, level: nat, out: seq<Record>)

  // ---- lines ----

  /** The text after the last newline. */
  function Tail(s: string): (t: string)
    ensures |t| <= |s| && '\n' !in t
  {
    if s == "" then ""
    else
      var n := |s| - 1;
      if s[n] == '\n' then "" else Tail(s[..n]) + [s[n]]
  }

  /** The lines that end with a newline, without it. */
  function Lines(s: string): seq<string> {
    if s == "" then []
    else
      var n := |s| - 1;
      if s[n] == '\n' then Lines(s[..n]) + [Tail(s[..n])] else Lines(s[..n])
  }

  /** The lines, and the unfinished last one if it is not empty. */
  function AllLines(s: string): seq<string> {
    Lines(s) + (if Tail(s) == "" then [] else [Tail(s)])
  }

  function LinesToFlush(s: string, force: bool): seq<string> {
    if force then AllLines(s) else Lines(s)
  }

  function Spaces(n: nat): string {
    seq(n, i => ' ')
  }

  function Indented(level: nat, lines: seq<string>): seq<Record> {
    seq(|lines|, i requires 0 <= i < |lines| => Line(level, Spaces(INDENT) + lines[i]))
  }

  // ---- the drain thread's functions on values ----

  function FlushLines(lg: Loggers, s: State, force: bool): State {
    if !lg.hasDefault then s
    else if force then
      State("", s.level, s.out + Indented(s.level, AllLines(s.text)))
    else
      State(Tail(s.text), s.level, s.out + Indented(s.level, Lines(s.text)))
  }

  /** The logger an entry is routed to, or none. */
  function Route(lg: Loggers, e: Entry): seq<Record> {
    if e.loggerName != "" && e.loggerName in lg.names then [Message(e.loggerName, e)]
    else if lg.hasDefault then [Message("", e)]
    else []
  }

  /** FlushEntry: what it keeps is within the buffer and, once there is a logger, holds no newline. */
  function Take(lg: Loggers, s: State, e: Entry): (r: State)
    requires |s.text| <= CONT_BUF_SIZE
    ensures |r.text| <= CONT_BUF_SIZE
    ensures lg.hasDefault ==> '\n' !in r.text
  {
    if IsCont(e) then
      var copy := Descriptors.Min(|e.msg|, CONT_BUF_SIZE - |s.text|);
      FlushLines(lg, State(s.text + e.msg[..copy], e.level, s.out), false)
    else
      var f := if |s.text| > 0 then FlushLines(lg, s, true) else s;
      f.(out := f.out + Route(lg, e))
  }

  // ---- the same, in the buffer ----

  class Assembler {
    const buf: array<char>
    var len: nat
    var level: nat
    var out: seq<Record>
    const loggers: Loggers

    ghost predicate Valid()
      reads this, buf
    {
      buf.Length == CONT_BUF_SIZE && len <= CONT_BUF_SIZE
    }

    ghost function Abs(): State
      requires Valid()
      reads this, buf
    {
      State(buf[..len], level, out)
    }

    constructor (loggers: Loggers)
      ensures Valid() && fresh(buf) && this.loggers == loggers
      ensures Abs().text == "" && Abs().out == []
    {
      this.loggers := loggers;
      buf := new char[CONT_BUF_SIZE](i => ' ');
      len, level, out := 0, 2, [];
    }

    /** memchr for a newline from `start` on; `len` if there is none. */
    method FindNewline(start: nat) returns (n: nat)
      requires Valid() && start <= len
      ensures start <= n <= len && (n < len ==> buf[n] == '\n')
      ensures '\n' !in buf[..len][start..n]
    {
      n := start;
      while n < len && buf[n] != '\n'
        invariant start <= n <= len
        invariant forall k :: start <= k < n ==> buf[k] != '\n'
      {
        n := n + 1;
      }
    }

    method FlushContLines(force: bool)
      requires Valid()
      modifies this, buf
      ensures Valid() && Abs() == FlushLines(loggers, old(Abs()), force)
    {
      if !loggers.hasDefault { return; }
      ghost var text := buf[..len];
      var start := EmitLines(force);
      assert buf[start..len] == text[start..];
      Slide(start);
    }

    /** Logging the lines from the front of the buffer on; the loop of FlushContLines. */
    method EmitLines(force: bool) returns (start: nat)
      requires Valid()
      modifies this`out
      ensures Valid() && start <= len
      ensures buf[start..len] == if force then "" else Tail(buf[..len])
      ensures out == old(out) + Indented(level, LinesToFlush(buf[..len], force))
    {
      ghost var text := buf[..len];
      start := 0;
      ghost var done: seq<string> := [];
      ghost var todo := LinesToFlush(text, force);
      ghost var all := todo;
      assert text[0..] == text;
      while start < len
        invariant start <= len
        invariant out == old(out) + Indented(level, done)
        invariant todo == LinesToFlush(text[start..], force) && done + todo == all
        invariant force || Tail(text[start..]) == Tail(text)
      {
        assert buf[start..len] == text[start..];
        var n := FindNewline(start);
        if n == len && !force {
          OpenLine(text[start..]);
          break;
        }
        NextLine(text, start, n, force);
        Regroup(level, done, todo);
        EmitLine(start, n);
        done, todo := done + [todo[0]], todo[1..];
        start := if n < len then n + 1 else n;
      }
      assert buf[start..len] == text[start..];
      assert done + [] == done;
    }

    /** Building one indented line in a buffer of its own and logging it. */
    method EmitLine(start: nat, end: nat)
      requires Valid() && start <= end <= len
      modifies this`out
      ensures out == old(out) + [Line(level, Spaces(INDENT) + buf[..len][start..end])]
    {
      assert buf[..len][start..end] == buf[start..end];
      out := out + [Line(level, Spaces(INDENT) + buf[start..end])];
    }

    /** Moving the unfinished line to the front of the buffer. */
    method Slide(start: nat)
      requires Valid() && start <= len
      modifies this`len, buf
      ensures Valid() && buf[..len] == old(buf[start..len])
    {
      ghost var text := buf[..len];
      var remaining := len - start;
      var i := 0;
      while i < remaining
        invariant i <= remaining && len == old(len)
        invariant forall k :: 0 <= k < i ==> buf[k] == text[start + k]
        invariant forall k :: i <= k < len ==> buf[k] == text[k]
      {
        buf[i] := buf[start + i];
        i := i + 1;
      }
      len := remaining;
    }

    /** memcpy of the first part of a message behind the buffered text. */
    method CopyIn(msg: string, copy: nat)
      requires Valid() && copy <= |msg| && len + copy <= CONT_BUF_SIZE
      modifies this`len, buf
      ensures Valid() && len == old(len) + copy && buf[..len] == old(buf[..len]) + msg[..copy]
    {
      ghost var text := buf[..len];
      var i := 0;
      while i < copy
        invariant i <= copy && len == old(len)
        invariant buf[..len + i] == text + msg[..i]
      {
        buf[len + i] := msg[i];
        i := i + 1;
      }
      len := len + copy;
    }

    method FlushEntry(entry: Entry)
      requires Valid()
      modifies this, buf
      ensures Valid() && Abs() == Take(loggers, old(Abs()), entry)
    {
      if IsCont(entry) {
        var copy := Descriptors.Min(|entry.msg|, CONT_BUF_SIZE - len);
        CopyIn(entry.msg, copy);
        level := entry.level;
        FlushContLines(false);
        return;
      }
      if len > 0 {
        FlushContLines(true);
      }
      out := out + Route(loggers, entry);
    }
  }

  lemma {:induction false} OpenLine(s: string)
    requires '\n' !in s
    ensures Tail(s) == s && Lines(s) == []
  {
    if s != "" {
      var init, last := s[..|s| - 1], s[|s| - 1];
      assert s == init + [last];
      assert last in s;
      assert '\n' !in init;
      OpenLine(init);
      assert Tail(s) == Tail(init) + [last];
    }
  }

  /** Cutting a text anywhere: the second part continues the unfinished line of the first. */
  lemma {:induction false} SplitAcross(a: string, b: string)
    ensures Lines(a + b) == Lines(a) + Lines(Tail(a) + b)
    ensures Tail(a + b) == Tail(Tail(a) + b)
    decreases |b|
  {
    var t := Tail(a);
    if b == "" {
      assert a + b == a && t + b == t;
      OpenLine(t);
    } else {
      var n := |b| - 1;
      SplitAcross(a, b[..n]);
      assert (a + b)[..|a + b| - 1] == a + b[..n] && (a + b)[|a + b| - 1] == b[n];
      assert (t + b)[..|t + b| - 1] == t + b[..n] && (t + b)[|t + b| - 1] == b[n];
    }
  }

  lemma FirstLine(line: string, rest: string)
    requires '\n' !in line
    ensures Lines(line + "\n" + rest) == [line] + Lines(rest)
    ensures Tail(line + "\n" + rest) == Tail(rest)
    ensures AllLines(line + "\n" + rest) == [line] + AllLines(rest)
  {
    var a := line + "\n";
    OpenLine(line);
    assert a[..|a| - 1] == line;
    assert Tail(a) == "" && Lines(a) == [line];
    SplitAcross(a, rest);
    assert "" + rest == rest;
  }

  /** Taking the next line off a text. */
  lemma NextLine(text: string, start: nat, n: nat, force: bool)
    requires start <= n <= |text| && '\n' !in text[start..n]
    requires start < |text| && if n < |text| then text[n] == '\n' else force
    ensures var rest := text[if n < |text| then n + 1 else n..];
            && LinesToFlush(text[start..], force) == [text[start..n]] + LinesToFlush(rest, force)
            && (force || Tail(text[start..]) == Tail(rest))
  {
    if n < |text| {
      assert text[start..] == text[start..n] + "\n" + text[n + 1..];
      FirstLine(text[start..n], text[n + 1..]);
    } else {
      assert text[n..] == "" && text[start..n] == text[start..];
      OpenLine(text[start..]);
    }
  }

  lemma Regroup(level: nat, done: seq<string>, todo: seq<string>)
    requires todo != []
    ensures (done + [todo[0]]) + todo[1..] == done + todo
    ensures Indented(level, done + [todo[0]]) == Indented(level, done) + [Line(level, Spaces(INDENT) + todo[0])]
  {
  }

  // ---- output does not depend on how the text was cut into entries ----

  function TakeAll(lg: Loggers, s: State, es: seq<Entry>): State
    requires |s.text| <= CONT_BUF_SIZE
    decreases |es|
  {
    if es == [] then s else TakeAll(lg, Take(lg, s, es[0]), es[1..])
  }

  /** Records without the level of a line. */
  datatype Text = LineText(text: string) | MessageText(logger: string, entry: Entry)

  function TextOf(r: Record): Text {
    match r
    case Line(_, t) => LineText(t)
    case Message(logger, e) => MessageText(logger, e)
  }

  function Texts(out: seq<Record>): (r: seq<Text>)
    ensures |r| == |out| && forall i :: 0 <= i < |out| ==> r[i] == TextOf(out[i])
  {
    seq(|out|, i requires 0 <= i < |out| => TextOf(out[i]))
  }

  /** The stream as the reader should see it: runs of text, and the entries between them. */
  datatype Stream =
    | End(text: string)
    | Run(text: string, next: Entry, rest: Stream)

  /** The text of the run that is open, followed by the entries still to come. */
  function StreamOf(open: string, es: seq<Entry>): Stream
    decreases |es|
  {
    if es == [] then End(open)
    else if IsCont(es[0]) then StreamOf(open + es[0].msg, es[1..])
    else Run(open, es[0], StreamOf("", es[1..]))
  }

  function LineTexts(lines: seq<string>): (r: seq<Text>)
    ensures |r| == |lines| && forall i :: 0 <= i < |lines| ==> r[i] == LineText(Spaces(21) + lines[i])
  {
    seq(|lines|, i requires 0 <= i < |lines| => LineText(Spaces(21) + lines[i]))
  }

  /** Which logger an ordinary entry is for: the one it names if it is there, else the default one if there is one. */
  function Addressed(lg: Loggers, e: Entry): seq<Text> {
    if e.loggerName in lg.names - {""} then [MessageText(e.loggerName, e)]
    else seq(if lg.hasDefault then 1 else 0, i => MessageText("", e))
  }

  lemma RoutedAsAddressed(lg: Loggers, e: Entry)
    ensures Texts(Route(lg, e)) == Addressed(lg, e)
  {
  }

  /** What a stream should produce: the lines of each run, its tail before the next entry, the entry. */
  function Rendered(lg: Loggers, s: Stream): seq<Text> {
    match s
    case End(text) => LineTexts(Lines(text))
    case Run(text, e, rest) => LineTexts(AllLines(text)) + Addressed(lg, e) + Rendered(lg, rest)
  }

  /** No entry arrives with more text than the unfinished line leaves room for. */
  predicate Fits(open: string, es: seq<Entry>)
    decreases |es|
  {
    es == [] ||
    if IsCont(es[0]) then |Tail(open)| + |es[0].msg| <= CONT_BUF_SIZE && Fits(open + es[0].msg, es[1..])
    else Fits("", es[1..])
  }

  function LastRun(s: Stream): string {
    match s
    case End(text) => text
    case Run(_, _, rest) => LastRun(rest)
  }

  lemma TextsConcat(a: seq<Record>, b: seq<Record>)
    ensures Texts(a + b) == Texts(a) + Texts(b)
  {
  }

  lemma LineTextsConcat(a: seq<string>, b: seq<string>)
    ensures LineTexts(a + b) == LineTexts(a) + LineTexts(b)
  {
  }

  lemma IndentedTexts(level: nat, lines: seq<string>)
    ensures Texts(Indented(level, lines)) == LineTexts(lines)
  {
  }

  /** A text entry that fits continues the open run. */
  lemma TakeText(lg: Loggers, s: State, e: Entry, open: string)
    requires lg.hasDefault && IsCont(e) && s.text == Tail(open) && |s.text| + |e.msg| <= CONT_BUF_SIZE
    ensures var r := Take(lg, s, e);
            && r.text == Tail(open + e.msg)
            && Lines(open + e.msg) == Lines(open) + Lines(s.text + e.msg)
            && Texts(r.out) == Texts(s.out) + LineTexts(Lines(s.text + e.msg))
  {
    assert e.msg[..|e.msg|] == e.msg;
    SplitAcross(open, e.msg);
    TextsConcat(s.out, Indented(e.level, Lines(s.text + e.msg)));
    IndentedTexts(e.level, Lines(s.text + e.msg));
  }

  /** Any other entry closes the open run. */
  lemma TakeMessage(lg: Loggers, s: State, e: Entry, open: string)
    requires lg.hasDefault && !IsCont(e) && s.text == Tail(open) && |s.text| <= CONT_BUF_SIZE
    ensures var r := Take(lg, s, e);
            && r.text == ""
            && AllLines(open) == Lines(open) + AllLines(s.text)
            && Texts(r.out) == Texts(s.out) + LineTexts(AllLines(s.text)) + Addressed(lg, e)
  {
    RoutedAsAddressed(lg, e);
    OpenLine(s.text);
    var f := if |s.text| > 0 then FlushLines(lg, s, true) else s;
    TextsConcat(s.out, Indented(s.level, AllLines(s.text)));
    IndentedTexts(s.level, AllLines(s.text));
    assert |s.text| == 0 ==> AllLines(s.text) == [] && Texts(s.out) + LineTexts([]) == Texts(s.out);
    TextsConcat(f.out, Route(lg, e));
  }

  /** Entry e closes the run: what it and the run produce is appended, and an empty run is open. */
  lemma CloseRun(lg: Loggers, s: State, e: Entry, before: seq<Text>, open: string) returns (after: seq<Text>)
    requires lg.hasDefault && !IsCont(e) && |s.text| <= CONT_BUF_SIZE
    requires s.text == Tail(open) && Texts(s.out) == before + LineTexts(Lines(open))
    ensures after == before + (LineTexts(AllLines(open)) + Addressed(lg, e))
    ensures Take(lg, s, e).text == Tail("")
    ensures Texts(Take(lg, s, e).out) == after + LineTexts(Lines(""))
  {
    var lines, tail, msg := LineTexts(Lines(open)), LineTexts(AllLines(s.text)), Addressed(lg, e);
    TakeMessage(lg, s, e, open);
    LineTextsConcat(Lines(open), AllLines(s.text));
    Seqs.Regroup(before, lines, tail);
    Seqs.Regroup(before, lines + tail, msg);
    after := before + (LineTexts(AllLines(open)) + msg);
    assert LineTexts(Lines("")) == [] && after + [] == after;
  }

  /** A text entry lengthens the open run: the lines it finishes are appended. */
  lemma LengthenRun(lg: Loggers, s: State, e: Entry, before: seq<Text>, open: string)
    requires lg.hasDefault && IsCont(e) && |s.text| + |e.msg| <= CONT_BUF_SIZE
    requires s.text == Tail(open) && Texts(s.out) == before + LineTexts(Lines(open))
    ensures Take(lg, s, e).text == Tail(open + e.msg)
    ensures Texts(Take(lg, s, e).out) == before + LineTexts(Lines(open + e.msg))
  {
    TakeText(lg, s, e, open);
    LineTextsConcat(Lines(open), Lines(s.text + e.msg));
    Seqs.Regroup(before, LineTexts(Lines(open)), LineTexts(Lines(s.text + e.msg)));
  }

  /**
   What has been output, from a state that has output `before` and the finished lines of the open
   run, is `before` and what the stream should produce.
   */
  lemma {:induction false} OutputIsRendered(lg: Loggers, s: State, es: seq<Entry>, before: seq<Text>, open: string)
    requires lg.hasDefault && Fits(open, es) && |s.text| <= CONT_BUF_SIZE
    requires s.text == Tail(open) && Texts(s.out) == before + LineTexts(Lines(open))
    ensures var r := TakeAll(lg, s, es);
            && Texts(r.out) == before + Rendered(lg, StreamOf(open, es))
            && r.text == Tail(LastRun(StreamOf(open, es)))
    decreases |es|
  {
    if es != [] {
      if IsCont(es[0]) {
        LengthenRun(lg, s, es[0], before, open);
        OutputIsRendered(lg, Take(lg, s, es[0]), es[1..], before, open + es[0].msg);
      } else {
        var after := CloseRun(lg, s, es[0], before, open);
        OutputIsRendered(lg, Take(lg, s, es[0]), es[1..], after, "");
        Seqs.Regroup(before, LineTexts(AllLines(open)) + Addressed(lg, es[0]), Rendered(lg, StreamOf("", es[1..])));
      }
    }
  }

  /**
   Two streams that fit and that read the same, however their LOG_CONT text is cut into entries,
   produce the same lines and messages in the same order and keep the same unfinished line.
   */
  lemma ChunkingIsInvisible(lg: Loggers, s: State, es: seq<Entry>, fs: seq<Entry>)
    requires lg.hasDefault && s.text == "" && Fits("", es) && Fits("", fs)
    requires StreamOf("", es) == StreamOf("", fs)
    ensures var r, q := TakeAll(lg, s, es), TakeAll(lg, s, fs);
            Texts(r.out) == Texts(q.out) && r.text == q.text
  {
    assert Texts(s.out) == Texts(s.out) + LineTexts(Lines(""));
    OutputIsRendered(lg, s, es, Texts(s.out), "");
    OutputIsRendered(lg, s, fs, Texts(s.out), "");
  }

  // ---- text that does not fit ----

  /** The stream with every LOG_CONT entry cut to what there is room for behind the unfinished line. */
  function Trimmed(open: string, es: seq<Entry>): (r: seq<Entry>)
    decreases |es|
  {
    if es == [] then []
    else if IsCont(es[0]) then
      var room := CONT_BUF_SIZE - |Tail(open)|;
      var e := if |es[0].msg| <= room then es[0] else es[0].(msg := if room > 0 then es[0].msg[..room] else "");
      [e] + Trimmed(open + e.msg, es[1..])
    else [es[0]] + Trimmed("", es[1..])
  }

  /** Nothing is cut from a stream that fits. */
  lemma {:induction false} FitsUntrimmed(open: string, es: seq<Entry>)
    requires Fits(open, es)
    ensures Trimmed(open, es) == es
    decreases |es|
  {
    if es != [] { FitsUntrimmed(if IsCont(es[0]) then open + es[0].msg else "", es[1..]); }
  }

  /**
   What does not fit is lost from the end of its entry, and nothing else is: any stream is taken as the
   cut one is, which fits.
   */
  lemma {:induction false} TakenAsTrimmed(lg: Loggers, s: State, es: seq<Entry>, open: string)
    requires lg.hasDefault && s.text == Tail(open) && |s.text| <= CONT_BUF_SIZE
    ensures Fits(open, Trimmed(open, es))
    ensures TakeAll(lg, s, es) == TakeAll(lg, s, Trimmed(open, es))
    decreases |es|
  {
    if es != [] {
      var cut := Trimmed(open, es);
      var e, rest := cut[0], cut[1..];
      assert e.loggerName == es[0].loggerName;
      if IsCont(e) {
        assert e.msg[..|e.msg|] == e.msg;
        TakeText(lg, s, e, open);
        TakenAsTrimmed(lg, Take(lg, s, e), es[1..], open + e.msg);
      } else {
        TakeMessage(lg, s, e, open);
        TakenAsTrimmed(lg, Take(lg, s, e), es[1..], "");
      }
    }
  }

  /** How many characters of LOG_CONT text are thrown away. */
  function Dropped(lg: Loggers, s: State, es: seq<Entry>): nat
    requires |s.text| <= CONT_BUF_SIZE
    decreases |es|
  {
    if es == [] then 0
    else
      (if IsCont(es[0]) then |es[0].msg| - Descriptors.Min(|es[0].msg|, CONT_BUF_SIZE - |s.text|) else 0)
      + Dropped(lg, Take(lg, s, es[0]), es[1..])
  }

  /** Nothing is thrown away exactly when every entry fits behind the unfinished line before it. */
  lemma {:induction false} DropsNothingIffFits(lg: Loggers, s: State, es: seq<Entry>, open: string)
    requires lg.hasDefault && s.text == Tail(open) && |s.text| <= CONT_BUF_SIZE
    ensures Dropped(lg, s, es) == 0 <==> Fits(open, es)
    decreases |es|
  {
    if es != [] {
      var e := es[0];
      var r := Take(lg, s, e);
      if IsCont(e) {
        if |s.text| + |e.msg| <= CONT_BUF_SIZE {
          TakeText(lg, s, e, open);
          DropsNothingIffFits(lg, r, es[1..], open + e.msg);
        }
      } else {
        TakeMessage(lg, s, e, open);
        DropsNothingIffFits(lg, r, es[1..], "");
      }
    }
  }

  /**
   A full buffer holds no newline, so it swallows every later LOG_CONT entry whole, newlines
   included, until another entry closes the run.
   */
  lemma {:induction false} FullBufferSwallows(lg: Loggers, s: State, es: seq<Entry>)
    requires lg.hasDefault && |s.text| == CONT_BUF_SIZE && '\n' !in s.text
    requires forall e :: e in es ==> IsCont(e)
    ensures var r := TakeAll(lg, s, es);
            r.text == s.text && r.out == s.out
    decreases |es|
  {
    if es != [] {
      var r := Take(lg, s, es[0]);
      assert es[0].msg[..0] == "" && s.text + "" == s.text;
      OpenLine(s.text);
      assert r.out == s.out;
      FullBufferSwallows(lg, r, es[1..]);
    }
  }
}
