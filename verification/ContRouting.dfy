/**
 Where each entry of a stream ends up: which logger gets it, at which level its lines are logged, and
 what becomes of it when there is no default logger.
 */
module ContRouting {
  import opened ContLines
  import opened LogQueue
  import Seqs

  // ---- lines are the text ----

  function Joined(lines: seq<string>): string {
    if lines == [] then "" else Joined(lines[..|lines| - 1]) + lines[|lines| - 1] + "\n"
  }

  /** The lines of a text and its tail hold no newline, and put together again they are the text. */
  lemma {:induction false} LinesAreTheText(s: string)
    ensures Joined(Lines(s)) + Tail(s) == s
    ensures forall line :: line in Lines(s) ==> '\n' !in line
    ensures '\n' !in Tail(s)
  {
    if s != "" {
      var init, last := s[..|s| - 1], s[|s| - 1];
      assert s == init + [last];
      LinesAreTheText(init);
      if last == '\n' {
        assert Lines(s)[..|Lines(init)|] == Lines(init);
      }
    }
  }

  // ---- which logger gets an entry ----

  /** The messages in the output that went to logger n, in order. */
  function GivenTo(out: seq<Record>, n: string): seq<Entry> {
    if out == [] then []
    else
      var init, last := out[..|out| - 1], out[|out| - 1];
      GivenTo(init, n) + if last.Message? && last.logger == n then [last.entry] else []
  }

  lemma {:induction false} GivenConcat(a: seq<Record>, b: seq<Record>, n: string)
    ensures GivenTo(a + b, n) == GivenTo(a, n) + GivenTo(b, n)
  {
    if b == [] {
      assert a + b == a;
      Seqs.NothingMore(GivenTo(a, n));
    } else {
      var init, last := b[..|b| - 1], b[|b| - 1];
      assert (a + b)[..|a + b| - 1] == a + init && (a + b)[|a + b| - 1] == last;
      GivenConcat(a, init, n);
      Seqs.Regroup(GivenTo(a, n), GivenTo(init, n), if last.Message? && last.logger == n then [last.entry] else []);
    }
  }

  lemma {:induction false} LinesGiveNothing(level: nat, lines: seq<string>, n: string)
    ensures GivenTo(Indented(level, lines), n) == []
  {
    if lines != [] {
      var init := lines[..|lines| - 1];
      LinesGiveNothing(level, init, n);
      assert Indented(level, lines)[..|lines| - 1] == Indented(level, init);
    }
  }

  /** An entry of the LOG macros: its logger's name does not begin with the character 1, LOG_CONT's mark. */
  predicate Ordinary(e: Entry) {
    e.loggerName == "" || e.loggerName[0] as int != 1
  }

  /** The ordinary entries that name logger n, which is there. */
  function Named(lg: Loggers, es: seq<Entry>, n: string): seq<Entry> {
    if es == [] then []
    else
      (if Ordinary(es[0]) && es[0].loggerName == n && n in lg.names then [es[0]] else []) + Named(lg, es[1..], n)
  }

  /** The ordinary entries that name no logger, or one that is not there. */
  function Unnamed(lg: Loggers, es: seq<Entry>): seq<Entry> {
    if es == [] then []
    else
      (if Ordinary(es[0]) && (es[0].loggerName == "" || es[0].loggerName !in lg.names) then [es[0]] else [])
      + Unnamed(lg, es[1..])
  }

  /** What logger n is due of a stream; the default logger's name is empty. */
  function DueTo(lg: Loggers, es: seq<Entry>, n: string): seq<Entry> {
    if n != "" then Named(lg, es, n) else if lg.hasDefault then Unnamed(lg, es) else []
  }

  lemma FlushGives(lg: Loggers, s: State, force: bool, n: string)
    ensures GivenTo(FlushLines(lg, s, force).out, n) == GivenTo(s.out, n)
  {
    var lines := if force then AllLines(s.text) else Lines(s.text);
    GivenConcat(s.out, Indented(s.level, lines), n);
    LinesGiveNothing(s.level, lines, n);
    Seqs.NothingMore(GivenTo(s.out, n));
  }

  lemma RouteGives(lg: Loggers, e: Entry, n: string)
    requires !IsCont(e)
    ensures GivenTo(Route(lg, e), n) == DueTo(lg, [e], n)
  {
    DueToOne(lg, e, n);
    var r := Route(lg, e);
    if r != [] {
      assert |r| == 1 && r[..0] == [];
      assert GivenTo(r[..0], n) == [];
    }
  }

  lemma DueToOne(lg: Loggers, e: Entry, n: string)
    ensures Named(lg, [e], n) == if Ordinary(e) && e.loggerName == n && n in lg.names then [e] else []
    ensures Unnamed(lg, [e])
         == if Ordinary(e) && (e.loggerName == "" || e.loggerName !in lg.names) then [e] else []
  {
    assert [e][1..] == [];
    assert Named(lg, [], n) == [] && Unnamed(lg, []) == [];
  }

  lemma TakeGives(lg: Loggers, s: State, e: Entry, n: string)
    requires |s.text| <= CONT_BUF_SIZE
    ensures GivenTo(Take(lg, s, e).out, n) == GivenTo(s.out, n) + DueTo(lg, [e], n)
  {
    if IsCont(e) {
      DueToOne(lg, e, n);
      Seqs.NothingMore(GivenTo(s.out, n));
      var copy := if |e.msg| <= CONT_BUF_SIZE - |s.text| then |e.msg| else CONT_BUF_SIZE - |s.text|;
      FlushGives(lg, State(s.text + e.msg[..copy], e.level, s.out), false, n);
    } else {
      var f := if |s.text| > 0 then FlushLines(lg, s, true) else s;
      FlushGives(lg, s, true, n);
      GivenConcat(f.out, Route(lg, e), n);
      RouteGives(lg, e, n);
    }
  }

  lemma DueToCons(lg: Loggers, e: Entry, rest: seq<Entry>, n: string)
    ensures DueTo(lg, [e] + rest, n) == DueTo(lg, [e], n) + DueTo(lg, rest, n)
  {
    var es := [e] + rest;
    assert es[0] == e && es[1..] == rest;
    DueToOne(lg, e, n);
    if n == "" && !lg.hasDefault { assert DueTo(lg, es, n) == []; }
  }

  /**
   Every logger gets exactly what it is due, in order: a logger that is there, the ordinary entries that
   name it; the default logger, all that name none that is there; and one that is not there, nothing.
   */
  lemma {:induction false} EachLoggerGetsItsOwn(lg: Loggers, s: State, es: seq<Entry>, n: string)
    requires |s.text| <= CONT_BUF_SIZE
    ensures GivenTo(TakeAll(lg, s, es).out, n) == GivenTo(s.out, n) + DueTo(lg, es, n)
    decreases |es|
  {
    if es == [] {
      Seqs.NothingMore(GivenTo(s.out, n));
    } else {
      assert es == [es[0]] + es[1..];
      TakeGives(lg, s, es[0], n);
      DueToCons(lg, es[0], es[1..], n);
      EachLoggerGetsItsOwn(lg, Take(lg, s, es[0]), es[1..], n);
      Seqs.Regroup(GivenTo(s.out, n), DueTo(lg, [es[0]], n), DueTo(lg, es[1..], n));
    }
  }

  // ---- at which level a line is logged ----

  /** The levels of the lines in the output, in order. */
  function Levels(out: seq<Record>): seq<nat> {
    if out == [] then []
    else
      var init, last := out[..|out| - 1], out[|out| - 1];
      Levels(init) + if last.Line? then [last.level] else []
  }

  lemma {:induction false} LevelsConcat(a: seq<Record>, b: seq<Record>)
    ensures Levels(a + b) == Levels(a) + Levels(b)
  {
    if b == [] {
      assert a + b == a;
      Seqs.NothingMore(Levels(a));
    } else {
      var init, last := b[..|b| - 1], b[|b| - 1];
      assert (a + b)[..|a + b| - 1] == a + init && (a + b)[|a + b| - 1] == last;
      LevelsConcat(a, init);
      Seqs.Regroup(Levels(a), Levels(init), if last.Line? then [last.level] else []);
    }
  }

  function Times(n: nat, level: nat): seq<nat> {
    seq(n, i => level)
  }

  lemma {:induction false} LinesHaveLevel(level: nat, lines: seq<string>)
    ensures Levels(Indented(level, lines)) == Times(|lines|, level)
  {
    if lines != [] {
      var init := lines[..|lines| - 1];
      LinesHaveLevel(level, init);
      assert Indented(level, lines)[..|lines| - 1] == Indented(level, init);
    }
  }

  /** How many newlines a text has. */
  function Newlines(s: string): nat {
    if s == "" then 0 else Newlines(s[..|s| - 1]) + if s[|s| - 1] == '\n' then 1 else 0
  }

  lemma {:induction false} OneLineEach(s: string)
    ensures |Lines(s)| == Newlines(s)
  {
    if s != "" { OneLineEach(s[..|s| - 1]); }
  }

  lemma {:induction false} NewlinesConcat(a: string, b: string)
    ensures Newlines(a + b) == Newlines(a) + Newlines(b)
  {
    if b == "" {
      assert a + b == a;
    } else {
      assert (a + b)[..|a + b| - 1] == a + b[..|b| - 1];
      NewlinesConcat(a, b[..|b| - 1]);
    }
  }

  /**
   The levels that the lines of a stream should have: each newline ends a line of its own entry's level;
   an unfinished line that another entry ends has that of the last LOG_CONT entry before it.
   */
  function LineLevels(open: string, level: nat, es: seq<Entry>): seq<nat>
    decreases |es|
  {
    if es == [] then []
    else if Ordinary(es[0]) then
      (if open == "" || open[|open| - 1] == '\n' then [] else [level]) + LineLevels("", level, es[1..])
    else
      Times(Newlines(es[0].msg), es[0].level) + LineLevels(open + es[0].msg, es[0].level, es[1..])
  }

  lemma TakeTextLevels(lg: Loggers, s: State, e: Entry, open: string)
    requires lg.hasDefault && IsCont(e) && s.text == Tail(open) && |s.text| + |e.msg| <= CONT_BUF_SIZE
    ensures Take(lg, s, e).level == e.level
    ensures Levels(Take(lg, s, e).out) == Levels(s.out) + Times(Newlines(e.msg), e.level)
  {
    var text := s.text + e.msg;
    assert e.msg[..|e.msg|] == e.msg;
    LevelsConcat(s.out, Indented(e.level, Lines(text)));
    LinesHaveLevel(e.level, Lines(text));
    OneLineEach(text);
    NewlinesConcat(s.text, e.msg);
    OneLineEach(s.text);
    OpenLine(s.text);
  }

  lemma TakeMessageLevels(lg: Loggers, s: State, e: Entry, open: string)
    requires lg.hasDefault && !IsCont(e) && s.text == Tail(open) && |s.text| <= CONT_BUF_SIZE
    ensures Take(lg, s, e).level == s.level
    ensures Levels(Take(lg, s, e).out)
         == Levels(s.out) + if open == "" || open[|open| - 1] == '\n' then [] else [s.level]
  {
    var f := if |s.text| > 0 then FlushLines(lg, s, true) else s;
    LevelsConcat(f.out, Route(lg, e));
    assert Levels(Route(lg, e)) == [] by {
      if Route(lg, e) != [] { assert Route(lg, e)[..0] == []; }
    }
    Seqs.NothingMore(Levels(f.out));
    Seqs.NothingMore(Levels(s.out));
    if s.text != "" {
      OpenLine(s.text);
      assert AllLines(s.text) == [s.text];
      LevelsConcat(s.out, Indented(s.level, AllLines(s.text)));
      LinesHaveLevel(s.level, AllLines(s.text));
    }
  }

  /** Every line is logged at its level, for every stream that fits; and any stream is taken as one that fits. */
  lemma {:induction false} LinesHaveTheirLevels(lg: Loggers, s: State, es: seq<Entry>, open: string)
    requires lg.hasDefault && s.text == Tail(open) && |s.text| <= CONT_BUF_SIZE && Fits(open, es)
    ensures Levels(TakeAll(lg, s, es).out) == Levels(s.out) + LineLevels(open, s.level, es)
    decreases |es|
  {
    if es == [] {
      Seqs.NothingMore(Levels(s.out));
    } else {
      var e, r := es[0], Take(lg, s, es[0]);
      if IsCont(e) {
        TakeTextLevels(lg, s, e, open);
        TakeText(lg, s, e, open);
        LinesHaveTheirLevels(lg, r, es[1..], open + e.msg);
        Seqs.Regroup(Levels(s.out), Times(Newlines(e.msg), e.level), LineLevels(open + e.msg, e.level, es[1..]));
      } else {
        TakeMessageLevels(lg, s, e, open);
        TakeMessage(lg, s, e, open);
        LinesHaveTheirLevels(lg, r, es[1..], "");
        Seqs.Regroup(Levels(s.out), if open == "" || open[|open| - 1] == '\n' then [] else [s.level],
                     LineLevels("", s.level, es[1..]));
      }
    }
  }

  // ---- without a default logger ----

  /** All the LOG_CONT text of a stream. */
  function ContText(es: seq<Entry>): string {
    if es == [] then "" else (if Ordinary(es[0]) then "" else es[0].msg) + ContText(es[1..])
  }

  /** The first part of a text that the buffer can hold. */
  function Front(text: string): string {
    if |text| <= 4096 then text else text[..4096]
  }

  lemma FrontConcat(a: string, b: string)
    ensures Front(Front(a) + b) == Front(a + b)
  {
  }

  lemma NoDefaultTakes(lg: Loggers, s: State, e: Entry)
    requires !lg.hasDefault && |s.text| <= CONT_BUF_SIZE
    ensures var r := Take(lg, s, e);
            r.text == Front(s.text + (if Ordinary(e) then "" else e.msg)) && Levels(r.out) == Levels(s.out)
  {
    if Ordinary(e) {
      LevelsConcat(s.out, Route(lg, e));
      assert Levels(Route(lg, e)) == [] by {
        if Route(lg, e) != [] { assert Route(lg, e)[..0] == []; }
      }
      Seqs.NothingMore(Levels(s.out));
      Seqs.NothingMore(s.text);
    }
  }

  /**
   Without a default logger no line comes out and nothing is cleared: the buffer keeps the beginning of
   all the LOG_CONT text there was, as much of it as it can hold.
   */
  lemma {:induction false} NoDefaultKeepsText(lg: Loggers, s: State, es: seq<Entry>)
    requires !lg.hasDefault && |s.text| <= CONT_BUF_SIZE
    ensures var r := TakeAll(lg, s, es);
            r.text == Front(s.text + ContText(es)) && Levels(r.out) == Levels(s.out)
    decreases |es|
  {
    if es == [] {
      Seqs.NothingMore(s.text);
    } else {
      var own, later := if Ordinary(es[0]) then "" else es[0].msg, ContText(es[1..]);
      NoDefaultTakes(lg, s, es[0]);
      NoDefaultKeepsText(lg, Take(lg, s, es[0]), es[1..]);
      FrontConcat(s.text + own, later);
      Seqs.Regroup(s.text, own, later);
    }
  }
}
