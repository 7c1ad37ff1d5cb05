/** Terminal output reaches `insertString` in pieces. This module compares a call with a machine that takes one
    character at a time, and says exactly when it does not matter where output is cut. */
module OutputCuts {
  import opened EscapeParser

  // ----- batching and fusing do not matter

  ghost predicate Matches(cfg: Config, k: Conf, c: Conf, pending: string) {
    && k.p == c.p
    && (k.p.st == Initial ==> SameCol(cfg, k.col, c.col) && Norm(k.acts) == Norm(Flush(c.acts, pending, c.col)))
    && (k.p.st != Initial ==> Norm(k.acts) == Norm(c.acts))
  }

  lemma NormFlush(acts: seq<Action>, s: string, e: int, ch: char, f: int)
    ensures Norm(Flush(acts, s + [ch], f)) == Push(Norm(Flush(acts, s, e)), Text([ch], f))
  {
    hide Push;
    NormAppend(acts, Text(s + [ch], f));
    if s == "" {
      assert s + [ch] == [ch];
    } else {
      NormAppend(acts, Text(s, e));
      PushMerges(Norm(acts), s, e, [ch], f);
    }
  }

  /** A character inside an escape sequence. */
  lemma EscStepMatches(cfg: Config, k: Conf, c: Conf, str: string, i: nat, prevEnd: nat)
    requires prevEnd <= i < |str| && c.p.st != Initial && Matches(cfg, k, c, str[prevEnd..i])
    ensures var (d, j, e) := LoopStep(cfg, c, str, i, prevEnd);
      && j == i + 1 && Matches(cfg, CharStep(cfg, k, str[i]), d, str[e..j])
  {
    hide PushAll, EscStep;
    var acts := EscStep(c.p, str[i]).1;
    PushAllConcat([], k.acts, acts);
    PushAllConcat([], c.acts, acts);
    assert str[i + 1..i + 1] == "";
  }

  /** From such columns every character ends in the same column, and wraps or does not wrap. */
  lemma SameColStep(cfg: Config, a: int, b: int, ch: char)
    requires SameCol(cfg, a, b) && (Plain(ch) || ch == FF)
    ensures Advance(cfg, a, ch) == Advance(cfg, b, ch)
    ensures cfg.wrapOnLongLines ==> (UpdateColumn(ch, a) > cfg.wrapWidth <==> UpdateColumn(ch, b) > cfg.wrapWidth)
  {
  }

  /** A plain character, which joins the pending text. */
  lemma PlainStepMatches(cfg: Config, k: Conf, c: Conf, str: string, i: nat, prevEnd: nat)
    requires prevEnd <= i < |str| && c.p.st == Initial && Matches(cfg, k, c, str[prevEnd..i])
    requires Plain(str[i]) || str[i] == FF
    ensures var (d, j, e) := LoopStep(cfg, c, str, i, prevEnd);
      && j == i + 1 && Matches(cfg, CharStep(cfg, k, str[i]), d, str[e..j])
  {
    hide Norm, Push, UpdateColumn, SameCol;
    var ch, s, e := str[i], str[prevEnd..i], Advance(cfg, c.col, str[i]);
    SameColStep(cfg, k.col, c.col, ch);
    SameColRefl(cfg, e);
    assert str[prevEnd..i + 1] == s + [ch];
    assert str[i..i + 1] == [ch];
    NormFlush(c.acts, s, c.col, ch, e);
    if UpdateColumn(ch, c.col) > cfg.wrapWidth && cfg.wrapOnLongLines {
      NormAppend(k.acts, Wrap);
      NormAppend(k.acts + [Wrap], Text([ch], e));
      NormAppend(Flush(c.acts, s, c.col), Wrap);
      NormAppend(Flush(c.acts, s, c.col) + [Wrap], Text([ch], e));
    } else {
      NormAppend(k.acts, Text([ch], e));
    }
  }

  /** A control character other than a fused carriage return. */
  lemma ControlStepMatches(cfg: Config, k: Conf, c: Conf, str: string, i: nat, prevEnd: nat)
    requires prevEnd <= i < |str| && c.p.st == Initial && Matches(cfg, k, c, str[prevEnd..i])
    requires !Plain(str[i]) && str[i] != FF && LoopStep(cfg, c, str, i, prevEnd).1 == i + 1
    ensures var (d, j, e) := LoopStep(cfg, c, str, i, prevEnd);
      Matches(cfg, CharStep(cfg, k, str[i]), d, str[e..j])
  {
    hide Norm, Push, UpdateColumn;
    var acts := Flush(c.acts, str[prevEnd..i], c.col);
    forall a: Action ensures Norm(k.acts + [a]) == Norm(acts + [a]) {
      NormAppend(k.acts, a);
      NormAppend(acts, a);
    }
    assert str[i + 1..i + 1] == "";
  }

  /** After a carriage return and a line feed that may be fused, the cached column is as good as 0. */
  ghost predicate CrLfOk(cfg: Config) {
    forall acts :: !cfg.atBottom(Norm(acts)) ==> SameCol(cfg, cfg.cached(Norm(acts + [CrLf])), 0)
  }

  /** No carriage return is followed by a line feed. */
  predicate NoCrLf(str: string) { forall i :: 0 <= i < |str| - 1 && str[i] == '\r' ==> str[i + 1] != '\n' }

  lemma CrThenLf(acts: seq<Action>)
    ensures Norm(acts + [Cr] + [Lf]) == Norm(acts + [CrLf])
  {
    hide Norm;
    NormAppend(acts, Cr);
    NormAppend(acts + [Cr], Lf);
    NormAppend(acts, CrLf);
    assert Push(Push(Norm(acts), Cr), Lf) == Push(Norm(acts), CrLf);
  }

  /** A fused CR LF is the two characters one after the other. */
  lemma FusedStepMatches(cfg: Config, k: Conf, c: Conf, str: string, i: nat, prevEnd: nat)
    requires CrLfOk(cfg) && prevEnd <= i && i + 1 < |str| && c.p.st == Initial && Matches(cfg, k, c, str[prevEnd..i])
    requires str[i] == '\r' && LoopStep(cfg, c, str, i, prevEnd).1 == i + 2
    ensures str[i + 1] == '\n'
    ensures var (d, j, e) := LoopStep(cfg, c, str, i, prevEnd);
      Matches(cfg, CharStep(cfg, CharStep(cfg, k, '\r'), '\n'), d, str[e..j])
  {
    hide Norm, UpdateColumn, SameCol;
    var acts := Flush(c.acts, str[prevEnd..i], c.col);
    CrThenLf(k.acts);
    NormConcat(k.acts, acts, [CrLf]);
    assert str[i + 2..i + 2] == "";
  }

  lemma {:induction false} LoopMatches(cfg: Config, k: Conf, c: Conf, str: string, i: nat, prevEnd: nat)
    requires prevEnd <= i <= |str| && Matches(cfg, k, c, str[prevEnd..i]) && (CrLfOk(cfg) || NoCrLf(str[i..]))
    ensures SameOutcome(Loop(cfg, c, str, i, prevEnd), CharRun(cfg, k, str[i..]))
    decreases |str| - i
  {
    hide Norm, LoopStep, CharStep, CrLfOk, SameCol;
    if i == |str| {
      assert str[prevEnd..i] == str[prevEnd..];
    } else {
      var (d, j, e) := LoopStep(cfg, c, str, i, prevEnd);
      LoopAdvances(cfg, c, str, i, prevEnd);
      assert str[i..][0] == str[i] && str[i..][1..] == str[i + 1..];
      NoCrLfRest(str, i, j);
      if c.p.st != Initial {
        EscStepMatches(cfg, k, c, str, i, prevEnd);
        LoopMatches(cfg, CharStep(cfg, k, str[i]), d, str, j, e);
      } else if Plain(str[i]) || str[i] == FF {
        PlainStepMatches(cfg, k, c, str, i, prevEnd);
        LoopMatches(cfg, CharStep(cfg, k, str[i]), d, str, j, e);
      } else if j == i + 1 {
        ControlStepMatches(cfg, k, c, str, i, prevEnd);
        LoopMatches(cfg, CharStep(cfg, k, str[i]), d, str, j, e);
      } else {
        FusedNeeds(cfg, c, str, i, prevEnd);
        FusedStepMatches(cfg, k, c, str, i, prevEnd);
        assert str[i + 1..][0] == str[i + 1] && str[i + 1..][1..] == str[i + 2..];
        LoopMatches(cfg, CharStep(cfg, CharStep(cfg, k, '\r'), '\n'), d, str, j, e);
      }
    }
  }

  lemma NoCrLfRest(str: string, i: nat, j: nat)
    requires i <= j <= |str|
    ensures NoCrLf(str[i..]) ==> NoCrLf(str[j..])
  {
    if NoCrLf(str[i..]) {
      forall k | 0 <= k < |str[j..]| - 1 && str[j..][k] == '\r' ensures str[j..][k + 1] != '\n' {
        assert str[i..][j - i + k] == str[j..][k] && str[i..][j - i + k + 1] == str[j..][k + 1];
      }
    }
  }

  lemma FusedNeeds(cfg: Config, c: Conf, str: string, i: nat, prevEnd: nat)
    requires prevEnd <= i < |str| && LoopStep(cfg, c, str, i, prevEnd).1 == i + 2
    ensures i + 1 < |str| && str[i] == '\r' && str[i + 1] == '\n' && !NoCrLf(str[i..])
  {
    assert str[i..][0] == str[i] && |str[i..]| == |str| - i && (i + 1 < |str| ==> str[i..][1] == str[i + 1]);
  }

  /** `insertString` acts as the character machine, up to batching and fusing. */
  lemma InsertStringIsCharRun(cfg: Config, p: Parser, acts: seq<Action>, str: string)
    requires CrLfOk(cfg) || NoCrLf(str)
    ensures SameOutcome(InsertString(cfg, p, acts, str), CharRun(cfg, Conf(p, cfg.column(Norm(acts)), acts), str))
  {
    hide Norm, Loop, CharRun, CrLfOk;
    var c := Conf(p, cfg.column(Norm(acts)), acts);
    assert str[0..0] == "" && str[0..] == str;
    LoopMatches(cfg, c, c, str, 0, 0);
  }

  // ----- when cutting does not matter

  /** The outcome of a call, up to batching and fusing. */
  ghost predicate SameOutcome(a: Conf, b: Conf) {
    a.p == b.p && Norm(a.acts) == Norm(b.acts)
  }

  function InsertAll(cfg: Config, p: Parser, acts: seq<Action>, chunks: seq<string>): Conf
    decreases |chunks|
  {
    if chunks == [] then Conf(p, cfg.column(Norm(acts)), acts)
    else
      var c := InsertString(cfg, p, acts, chunks[0]);
      InsertAll(cfg, c.p, c.acts, chunks[1..])
  }

  function Join(chunks: seq<string>): string {
    if chunks == [] then "" else chunks[0] + Join(chunks[1..])
  }

  /** All output, or all output without form feeds. */
  predicate Allowed(ff: bool, s: string) { ff || FF !in s }

  /** Cutting output into any number of calls gives the same actions as one call, up to merging adjacent text and
      expanding a fused CR LF, from every state of the parser and after every history. */
  ghost predicate CutsAgree(cfg: Config, ff: bool) {
    forall p, acts, chunks :: Allowed(ff, Join(chunks)) ==>
      SameOutcome(InsertAll(cfg, p, acts, chunks), InsertString(cfg, p, acts, Join(chunks)))
  }

  /** The parser at rest, at the cursor. */
  function Resting(cfg: Config, acts: seq<Action>): Conf { Conf(IDLE, cfg.column(Norm(acts)), acts) }

  /** At rest, the running column is as good as the cursor column. */
  predicate ColumnOk(cfg: Config, c: Conf) {
    c.p.st == Initial ==> SameCol(cfg, c.col, cfg.column(Norm(c.acts)))
  }

  /** The column the loop goes on with after one character, or after a fused CR LF, is as good as the column at
      which a new call would start. */
  ghost predicate Tracks(cfg: Config, ff: bool) {
    && (forall acts, ch :: Allowed(ff, [ch]) ==> ColumnOk(cfg, CharStep(cfg, Resting(cfg, acts), ch)))
    && (forall acts :: !cfg.atBottom(Norm(acts)) ==> SameCol(cfg, 0, cfg.column(Norm(acts + [CrLf]))))
  }

  lemma TracksCrLf(cfg: Config, ff: bool)
    requires Tracks(cfg, ff)
    ensures CrLfOk(cfg)
  {
    hide Norm, UpdateColumn, EscStep;
    forall acts | !cfg.atBottom(Norm(acts)) ensures SameCol(cfg, cfg.cached(Norm(acts + [CrLf])), 0) {
      CrThenLf(acts);
      assert Allowed(ff, ['\n']);
      assert ColumnOk(cfg, CharStep(cfg, Resting(cfg, acts + [Cr]), '\n'));
      assert SameCol(cfg, 0, cfg.column(Norm(acts + [CrLf])));
    }
  }

  /** A step depends on the history only through what the screen can see of it, and on the column only as far as
      text can tell. */
  lemma StepNorm(cfg: Config, c: Conf, d: Conf, ch: char)
    requires SameOutcome(c, d) && (c.p.st == Initial ==> SameCol(cfg, c.col, d.col))
    ensures var r, q := CharStep(cfg, c, ch), CharStep(cfg, d, ch);
      SameOutcome(r, q) && (r.p.st == Initial ==> SameCol(cfg, r.col, q.col))
  {
    hide Norm, Push, UpdateColumn, EscStep, SameCol;
    if c.p.st != Initial {
      NormConcat(c.acts, d.acts, EscStep(c.p, ch).1);
      SameColRefl(cfg, cfg.column(Norm(c.acts + EscStep(c.p, ch).1)));
    } else if Plain(ch) || ch == FF {
      var e := Advance(cfg, c.col, ch);
      SameColStep(cfg, c.col, d.col, ch);
      SameColRefl(cfg, e);
      NormConcat(c.acts, d.acts, [Wrap]);
      NormConcat(c.acts, d.acts, [Text([ch], e)]);
      NormConcat(c.acts + [Wrap], d.acts + [Wrap], [Text([ch], e)]);
    } else {
      NormConcat(c.acts, d.acts, [Cr]);
      NormConcat(c.acts, d.acts, [Lf]);
      NormConcat(c.acts, d.acts, [Bs]);
      NormConcat(c.acts, d.acts, [Bell]);
      NormConcat(c.acts, d.acts, [Tab]);
      SameColRefl(cfg, CharStep(cfg, c, ch).col);
    }
  }

  lemma SameColRefl(cfg: Config, a: int)
    ensures SameCol(cfg, a, a)
  {
  }

  lemma {:induction false} CharRunNorm(cfg: Config, c: Conf, d: Conf, str: string)
    requires SameOutcome(c, d) && (c.p.st == Initial ==> SameCol(cfg, c.col, d.col))
    ensures SameOutcome(CharRun(cfg, c, str), CharRun(cfg, d, str))
    decreases |str|
  {
    hide SameOutcome, SameCol, CharStep;
    if str == "" {
    } else {
      StepNorm(cfg, c, d, str[0]);
      CharRunNorm(cfg, CharStep(cfg, c, str[0]), CharStep(cfg, d, str[0]), str[1..]);
    }
  }

  lemma NormConcat(a: seq<Action>, b: seq<Action>, t: seq<Action>)
    requires Norm(a) == Norm(b)
    ensures Norm(a + t) == Norm(b + t)
  {
    PushAllConcat([], a, t);
    PushAllConcat([], b, t);
  }

  lemma CharStepKeepsColumn(cfg: Config, ff: bool, c: Conf, ch: char)
    requires Tracks(cfg, ff) && ColumnOk(cfg, c) && Allowed(ff, [ch])
    ensures ColumnOk(cfg, CharStep(cfg, c, ch))
  {
    hide Norm, Push, UpdateColumn, EscStep;
    if c.p.st == Initial {
      var d := Resting(cfg, c.acts);
      assert ColumnOk(cfg, CharStep(cfg, d, ch));
      StepNorm(cfg, c.(p := IDLE), d, ch);
      assert CharStep(cfg, c, ch).acts == CharStep(cfg, c.(p := IDLE), ch).acts;
    }
  }

  lemma {:induction false} CharRunKeepsColumn(cfg: Config, ff: bool, c: Conf, str: string)
    requires Tracks(cfg, ff) && ColumnOk(cfg, c) && Allowed(ff, str)
    ensures ColumnOk(cfg, CharRun(cfg, c, str))
    decreases |str|
  {
    hide Tracks, ColumnOk, CharStep;
    if str == "" {
    } else {
      CharStepKeepsColumn(cfg, ff, c, str[0]);
      CharRunKeepsColumn(cfg, ff, CharStep(cfg, c, str[0]), str[1..]);
    }
  }

  lemma {:induction false} SplittingDoesNotMatter(cfg: Config, ff: bool, p: Parser, acts: seq<Action>,
                                                  chunks: seq<string>)
    requires Tracks(cfg, ff) && Allowed(ff, Join(chunks))
    ensures SameOutcome(InsertAll(cfg, p, acts, chunks), InsertString(cfg, p, acts, Join(chunks)))
    decreases |chunks|
  {
    hide Norm, CharRun, Tracks, Loop, SameCol, CrLfOk;
    TracksCrLf(cfg, ff);
    var start := Conf(p, cfg.column(Norm(acts)), acts);
    InsertStringIsCharRun(cfg, p, acts, Join(chunks));
    if chunks == [] {
      CharRunEmpty(cfg, start);
    } else {
      var a, rest := chunks[0], Join(chunks[1..]);
      var one := InsertString(cfg, p, acts, a);
      InsertStringIsCharRun(cfg, p, acts, a);
      CharRunConcat(cfg, start, a, rest);
      var k := CharRun(cfg, start, a);
      SameColRefl(cfg, start.col);
      CharRunKeepsColumn(cfg, ff, start, a);
      SplittingDoesNotMatter(cfg, ff, one.p, one.acts, chunks[1..]);
      InsertStringIsCharRun(cfg, one.p, one.acts, rest);
      CharRunNorm(cfg, k, Conf(one.p, cfg.column(Norm(one.acts)), one.acts), rest);
    }
  }

  lemma CharRunEmpty(cfg: Config, c: Conf)
    ensures CharRun(cfg, c, "") == c
  {
  }

  // ----- and when it does

  predicate AllPlain(text: string) { text != "" && forall ch :: ch in text ==> Plain(ch) }

  lemma CharRunOne(cfg: Config, c: Conf, ch: char)
    ensures CharRun(cfg, c, [ch]) == CharStep(cfg, c, ch)
  {
    assert [ch][1..] == "";
  }

  /** The text that tells two columns apart, when anything does. */
  const PROBE := [ZERO_WIDTH_SPACE]

  lemma ProbeIsPlain()
    ensures AllPlain(PROBE)
  {
  }

  /** What a zero-width space leaves: a wrap break exactly beyond the wrap width, and the column it was put in. */
  lemma ProbeStep(cfg: Config, c: Conf)
    requires c.p.st == Initial
    ensures var e := if c.col > cfg.wrapWidth then 0 else c.col;
      var n := if c.col > cfg.wrapWidth && cfg.wrapOnLongLines then Norm(c.acts) + [Wrap] else Norm(c.acts);
      Norm(CharRun(cfg, c, PROBE).acts) == Push(n, Text(PROBE, e))
  {
    hide Norm, CharRun;
    CharRunOne(cfg, c, ZERO_WIDTH_SPACE);
    NormAppend(c.acts, Wrap);
    NormAppend(c.acts + [Wrap], Text(PROBE, 0));
    NormAppend(c.acts, Text(PROBE, if c.col > cfg.wrapWidth then 0 else c.col));
  }

  lemma PushText(n: seq<Action>, e: int)
    ensures var r := Push(n, Text(PROBE, e));
      |n| <= |r| <= |n| + 1 && r != [] && r[|r| - 1].Text? && r[|r| - 1].endColumn == e
    ensures |Push(n + [Wrap], Text(PROBE, e))| == |n| + 2
  {
  }

  lemma ProbeTells(cfg: Config, c: Conf, d: Conf)
    requires c.p.st == Initial && SameOutcome(c, d) && !SameCol(cfg, c.col, d.col)
    ensures !SameOutcome(CharRun(cfg, c, PROBE), CharRun(cfg, d, PROBE))
  {
    hide Norm, CharRun, Push;
    ProbeStep(cfg, c);
    ProbeStep(cfg, d);
    var n := Norm(c.acts);
    PushText(n, if c.col > cfg.wrapWidth then 0 else c.col);
    PushText(n, if d.col > cfg.wrapWidth then 0 else d.col);
  }

  /** When one call goes on, after the first chunk, from another column than a second call would, text tells. */
  lemma CutMatters(cfg: Config, ff: bool, acts: seq<Action>, chunk: string, c: Conf)
    requires Allowed(ff, chunk) && SameOutcome(InsertString(cfg, IDLE, acts, chunk), c)
    requires c.p.st == Initial && !SameCol(cfg, c.col, cfg.column(Norm(c.acts)))
    requires forall text :: AllPlain(text) ==>
      SameOutcome(InsertString(cfg, IDLE, acts, chunk + text), CharRun(cfg, c, text))
    ensures !CutsAgree(cfg, ff)
  {
    hide Norm, InsertString, CharRun, SameCol;
    var one, y, text := InsertString(cfg, IDLE, acts, chunk), cfg.column(Norm(c.acts)), PROBE;
    ProbeIsPlain();
    ProbeTells(cfg, c, c.(col := y));
    var chunks := [chunk, text];
    TwoChunks(cfg, IDLE, acts, chunk, text);
    PlainHasNoCr(text);
    InsertStringIsCharRun(cfg, one.p, one.acts, text);
    SameColRefl(cfg, y);
    CharRunNorm(cfg, Conf(one.p, y, one.acts), c.(col := y), text);
    assert SameOutcome(InsertString(cfg, IDLE, acts, chunk + text), CharRun(cfg, c, text));
    assert Allowed(ff, Join(chunks));
    assert !SameOutcome(InsertAll(cfg, IDLE, acts, chunks), InsertString(cfg, IDLE, acts, Join(chunks)));
  }

  lemma PlainHasNoCr(text: string)
    requires AllPlain(text)
    ensures NoCrLf(text)
  {
    assert '\r' !in text;
  }

  lemma TwoChunks(cfg: Config, p: Parser, acts: seq<Action>, a: string, b: string)
    ensures Join([a, b]) == a + b
    ensures var c := InsertString(cfg, p, acts, a);
      SameOutcome(InsertAll(cfg, p, acts, [a, b]), InsertString(cfg, c.p, c.acts, b))
  {
    hide InsertString, Norm;
    var c := InsertString(cfg, p, acts, a);
    var d := InsertString(cfg, c.p, c.acts, b);
    assert [a, b][1..] == [b] && [b][1..] == [];
    assert Join([b]) == b + Join([]) == b;
    assert Join([a, b]) == a + Join([b]);
    assert InsertAll(cfg, c.p, c.acts, [b]) == InsertAll(cfg, d.p, d.acts, []);
    assert InsertAll(cfg, p, acts, [a, b]) == InsertAll(cfg, c.p, c.acts, [b]);
  }

  /** A character after which the running column is off. */
  lemma CharMatters(cfg: Config, ff: bool, acts: seq<Action>, ch: char)
    requires !ColumnOk(cfg, CharStep(cfg, Resting(cfg, acts), ch)) && Allowed(ff, [ch])
    ensures !CutsAgree(cfg, ff)
  {
    hide Norm, CharRun, InsertString, CutsAgree, SameCol, CharStep;
    var start := Resting(cfg, acts);
    var c := CharStep(cfg, start, ch);
    InsertStringIsCharRun(cfg, IDLE, acts, [ch]);
    CharRunOne(cfg, start, ch);
    forall text | AllPlain(text)
      ensures SameOutcome(InsertString(cfg, IDLE, acts, [ch] + text), CharRun(cfg, c, text))
    {
      OneThenPlain(ch, text);
      InsertStringIsCharRun(cfg, IDLE, acts, [ch] + text);
      CharRunConcat(cfg, start, [ch], text);
    }
    CutMatters(cfg, ff, acts, [ch], c);
  }

  lemma OneThenPlain(ch: char, text: string)
    requires AllPlain(text)
    ensures NoCrLf([ch] + text)
  {
    var str := [ch] + text;
    forall i | 0 <= i < |str| - 1 && str[i] == '\r' ensures str[i + 1] != '\n' { assert str[i + 1] in text; }
  }

  /** A fused CR LF after which the running column is off. */
  lemma FuseMatters(cfg: Config, ff: bool, acts: seq<Action>)
    requires !cfg.atBottom(Norm(acts)) && !SameCol(cfg, 0, cfg.column(Norm(acts + [CrLf])))
    ensures !CutsAgree(cfg, ff)
  {
    hide Norm, CharRun, CutsAgree, SameCol, Loop;
    var start, c := Resting(cfg, acts), Conf(IDLE, 0, acts + [CrLf]);
    FusedFirst(cfg, acts, "");
    assert "\r\n" + "" == "\r\n";
    LoopEnds(cfg, c, "\r\n");
    forall text | AllPlain(text)
      ensures SameOutcome(InsertString(cfg, IDLE, acts, "\r\n" + text), CharRun(cfg, c, text))
    {
      var str := "\r\n" + text;
      FusedFirst(cfg, acts, text);
      assert str[2..2] == "" && str[2..] == text;
      PlainHasNoCr(text);
      SameColRefl(cfg, 0);
      LoopMatches(cfg, c, c, str, 2, 2);
    }
    CutMatters(cfg, ff, acts, "\r\n", c);
  }

  lemma FusedFirst(cfg: Config, acts: seq<Action>, text: string)
    requires !cfg.atBottom(Norm(acts))
    ensures InsertString(cfg, IDLE, acts, "\r\n" + text) == Loop(cfg, Conf(IDLE, 0, acts + [CrLf]), "\r\n" + text, 2, 2)
  {
    hide Norm;
    var str := "\r\n" + text;
    assert str[0] == '\r' && str[1] == '\n' && str[0..0] == "";
    assert LoopStep(cfg, Resting(cfg, acts), str, 0, 0) == (Conf(IDLE, 0, acts + [CrLf]), 2, 2);
  }

  lemma LoopEnds(cfg: Config, c: Conf, str: string)
    requires c.p.st == Initial
    ensures Loop(cfg, c, str, |str|, |str|) == c
  {
    assert str[|str|..] == "";
  }

  /** Exactly when the running column tracks the cursor do all cuts agree, of all output and of all output without form
      feeds. */
  lemma CutsAgreeExactly(cfg: Config, ff: bool)
    ensures CutsAgree(cfg, ff) <==> Tracks(cfg, ff)
  {
    hide Norm, InsertAll, InsertString, ColumnOk, CharStep, SameCol, SameOutcome, Allowed;
    if Tracks(cfg, ff) {
      forall p, acts, chunks | Allowed(ff, Join(chunks))
        ensures SameOutcome(InsertAll(cfg, p, acts, chunks), InsertString(cfg, p, acts, Join(chunks)))
      {
        SplittingDoesNotMatter(cfg, ff, p, acts, chunks);
      }
    } else if !(forall acts, ch :: Allowed(ff, [ch]) ==> ColumnOk(cfg, CharStep(cfg, Resting(cfg, acts), ch))) {
      var acts, ch :| Allowed(ff, [ch]) && !ColumnOk(cfg, CharStep(cfg, Resting(cfg, acts), ch));
      CharMatters(cfg, ff, acts, ch);
    } else {
      var acts :| !cfg.atBottom(Norm(acts)) && !SameCol(cfg, 0, cfg.column(Norm(acts + [CrLf])));
      FuseMatters(cfg, ff, acts);
    }
  }

  // ----- on a screen that moves the cursor as expected

  /** The cursor column is never negative; `insertSimpleOutput` leaves the cursor at the end column it is given, a wrap
      break and a carriage return leave it in column 0 (also before a following line feed), and the bell does not move
      it. `ScreensExist` gives such screens. */
  ghost predicate Positions(cfg: Config) {
    && (forall n :: cfg.column(n) >= 0)
    && (forall n, ch, e :: Plain(ch) && e >= 0 ==> cfg.column(Push(n, Text([ch], e))) == e)
    && (forall n :: cfg.column(Push(n, Wrap)) == 0)
    && (forall n :: cfg.column(Push(n, Cr)) == 0)
    && (forall n :: cfg.column(Push(n, CrLf)) == 0)
    && (forall n :: cfg.column(Push(n, Bell)) == cfg.column(n))
  }

  /** After LF, BS and TAB the cached column is as good as the cursor column. */
  ghost predicate FreshColumns(cfg: Config) { forall acts :: FreshAfter(cfg, acts) }

  predicate FreshAfter(cfg: Config, acts: seq<Action>) {
    && SameCol(cfg, cfg.cached(Norm(acts + [Lf])), cfg.column(Norm(acts + [Lf])))
    && SameCol(cfg, cfg.cached(Norm(acts + [Bs])), cfg.column(Norm(acts + [Bs])))
    && SameCol(cfg, cfg.cached(Norm(acts + [Tab])), cfg.column(Norm(acts + [Tab])))
  }

  /** What the three characters leave, and what they have to leave. */
  lemma FreshIsTracked(cfg: Config, acts: seq<Action>)
    ensures FreshAfter(cfg, acts) <==>
      && ColumnOk(cfg, CharStep(cfg, Resting(cfg, acts), '\n')) && ColumnOk(cfg, CharStep(cfg, Resting(cfg, acts), BS))
      && ColumnOk(cfg, CharStep(cfg, Resting(cfg, acts), '\t'))
  {
    hide Norm, SameCol, EscStep;
  }

  lemma OthersTrack(cfg: Config, acts: seq<Action>, ch: char)
    requires Positions(cfg) && ch != '\n' && ch != BS && ch != '\t' && ch != FF
    ensures ColumnOk(cfg, CharStep(cfg, Resting(cfg, acts), ch))
  {
    hide Norm, Push, EscStep, SameCol;
    var n, e := Norm(acts), Advance(cfg, cfg.column(Norm(acts)), ch);
    NormAppend(acts, Cr);
    NormAppend(acts, Bell);
    NormAppend(acts, Text([ch], e));
    NormAppend(acts + [Wrap], Text([ch], e));
    SameColRefl(cfg, CharStep(cfg, Resting(cfg, acts), ch).col);
    if Plain(ch) {
      assert cfg.column(n) >= 0;
      assert cfg.column(Push(n, Text([ch], e))) == e;
      assert cfg.column(Push(Norm(acts + [Wrap]), Text([ch], e))) == e;
    }
  }

  /** On such a screen all cuts of all output without form feeds agree if and only if, after every history, the cached
      column is as good as the cursor column after a line feed, a backspace and a tab. */
  lemma CutsAgreeWhenFresh(cfg: Config)
    requires Positions(cfg)
    ensures CutsAgree(cfg, false) <==> FreshColumns(cfg)
  {
    hide Norm, CutsAgree, CharStep, ColumnOk, FreshAfter, Push;
    CutsAgreeExactly(cfg, false);
    forall acts
      ensures FreshAfter(cfg, acts)
        <==> forall ch :: Allowed(false, [ch]) ==> ColumnOk(cfg, CharStep(cfg, Resting(cfg, acts), ch))
    {
      FreshIsTracked(cfg, acts);
      forall ch | ch != '\n' && ch != BS && ch != '\t' && ch != FF
        ensures ColumnOk(cfg, CharStep(cfg, Resting(cfg, acts), ch))
      {
        OthersTrack(cfg, acts, ch);
      }
      assert Allowed(false, ['\n']) && Allowed(false, [BS]) && Allowed(false, ['\t']);
    }
    forall acts ensures SameCol(cfg, 0, cfg.column(Norm(acts + [CrLf]))) { NormAppend(acts, CrLf); }
  }

  /** In line-editing mode the line feed leaves the cached column unknown (-1), while the cursor is in some column:
      output then depends on how it is cut, whether lines wrap or not. */
  lemma StaleColumnMatters(cfg: Config, acts: seq<Action>)
    requires cfg.cached(Norm(acts + [Lf])) == -1 && cfg.column(Norm(acts + [Lf])) >= 0 && cfg.wrapWidth >= -1
    ensures !CutsAgree(cfg, false)
  {
    hide Norm, CutsAgree;
    assert Allowed(false, ['\n']);
    CharMatters(cfg, false, acts, '\n');
  }

  /** With form feeds, which are inserted as text and behind which the loop counts from -1, cuts always matter. */
  lemma FormFeedMatters(cfg: Config)
    requires (forall n :: cfg.column(n) >= 0) && cfg.wrapWidth >= -1
    ensures !CutsAgree(cfg, true)
  {
    hide Norm, CutsAgree;
    CharMatters(cfg, true, [], FF);
  }

  // ----- such screens exist

  /** The cursor column on a screen where control sequences do not move the cursor sideways. */
  function ColumnOf(h: seq<Action>): nat {
    if h == [] then 0
    else
      var init := h[..|h| - 1];
      match h[|h| - 1]
      case Text(_, e) => if e >= 0 then e else 0
      case Wrap => 0
      case Cr => 0
      case Lf => if init != [] && init[|init| - 1] == Cr then 0 else ColumnOf(init)
      case Bs => if ColumnOf(init) > 0 then ColumnOf(init) - 1 else 0
      case Tab => NextTabCol(ColumnOf(init))
      case _ => ColumnOf(init)
  }

  lemma TextColumn(n: seq<Action>, s: string, e: int)
    requires e >= 0
    ensures ColumnOf(Push(n, Text(s, e))) == e
  {
  }

  /** There are screens that move the cursor as expected and on which all cuts of output without form feeds agree, for
      every wrap width. */
  lemma ScreensExist(w: int, wrap: bool) returns (cfg: Config)
    ensures Positions(cfg) && CutsAgree(cfg, false) && cfg.wrapWidth == w && cfg.wrapOnLongLines == wrap
  {
    hide UpdateColumn, Norm, CutsAgree;
    cfg := Config(w, wrap, h => ColumnOf(h), h => ColumnOf(h), h => false);
    forall n, ch, e | Plain(ch) && e >= 0 ensures cfg.column(Push(n, Text([ch], e))) == e { TextColumn(n, [ch], e); }
    forall n ensures cfg.column(Push(n, CrLf)) == 0 {
      assert (n + [Cr, Lf])[..|n| + 1] == n + [Cr];
    }
    forall n ensures cfg.column(Push(n, Bell)) == cfg.column(n) {
      assert (n + [Bell])[..|n|] == n;
    }
    CutsAgreeWhenFresh(cfg);
  }
}
