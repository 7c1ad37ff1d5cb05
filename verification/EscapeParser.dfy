/** The output side of `WebTerminal.insertString`: an incremental parser that turns terminal output into
    text insertions, control functions, control sequences (section 5.4 of ECMA-48) and operating system
    commands. */
module EscapeParser {

  const BEL: char := 7 as char
  const BS: char := 8 as char
  const ESC: char := 27 as char
  const NUL: char := 0 as char
  const FF: char := 12 as char
  const ZERO_WIDTH_SPACE: char := 0x200B as char

  /** What `insertString` does to the screen. `Text` also says in which column the text ends: the difference to the
      cursor column is how much is erased in front of it, and it becomes the cached column. `CrLf` is the fused carriage
      return and line feed. */
  datatype Action =
    | Text(s: string, endColumn: int)
    | Wrap
    | Cr | Lf | CrLf | Bs | Bell | Tab
    | SaveCursor | RestoreCursor | ReverseIndex
    | Csi(question: bool, params: seq<int>, last: char)
    | Osc(code: int, text: string)

  // ----- batching and fusing

  /** Adjacent texts merge to one that ends where the last one ends; a fused CR LF is CR, then LF. */
  function Push(n: seq<Action>, a: Action): seq<Action> {
    match a
    case CrLf => n + [Cr, Lf]
    case Text(s, e) => if n != [] && n[|n| - 1].Text? then n[..|n| - 1] + [Text(n[|n| - 1].s + s, e)] else n + [a]
    case _ => n + [a]
  }

  function PushAll(n: seq<Action>, acts: seq<Action>): seq<Action>
    decreases |acts|
  {
    if acts == [] then n else PushAll(Push(n, acts[0]), acts[1..])
  }

  function Norm(acts: seq<Action>): seq<Action> { PushAll([], acts) }

  lemma {:induction false} PushAllConcat(n: seq<Action>, a: seq<Action>, b: seq<Action>)
    ensures PushAll(n, a + b) == PushAll(PushAll(n, a), b)
    decreases |a|
  {
    hide Push;
    if a == [] {
      assert a + b == b;
    } else {
      PushAllConcat(Push(n, a[0]), a[1..], b);
      assert (a + b)[1..] == a[1..] + b;
    }
  }

  lemma NormAppend(acts: seq<Action>, a: Action)
    ensures Norm(acts + [a]) == Push(Norm(acts), a)
  {
    hide Push;
    PushAllConcat([], acts, [a]);
    assert PushAll(Push(Norm(acts), a), [a][1..]) == Push(Norm(acts), a);
  }

  lemma PushMerges(n: seq<Action>, s: string, e: int, t: string, f: int)
    ensures Push(Push(n, Text(s, e)), Text(t, f)) == Push(n, Text(s + t, f))
  {
    if n != [] && n[|n| - 1].Text? { assert (n[|n| - 1].s + s) + t == n[|n| - 1].s + (s + t); }
  }

  // ----- columns

  function NextTabCol(col: int): int { col / 8 * 8 + 8 }

  /** The next tab stop is the first multiple of eight to the right. */
  lemma NextStop(col: nat)
    ensures col < NextTabCol(col) <= col + 8 && NextTabCol(col) % 8 == 0
  {
  }

  function CharColumns(ch: char): int { if ch == ZERO_WIDTH_SPACE then 0 else 1 }

  function UpdateColumn(ch: char, start: int): int {
    if ch == '\n' || ch == '\r' || ch == FF then -1
    else if ch == '\t' then NextTabCol(start)
    else start + CharColumns(ch)
  }

  /** The settings, and the screen as the parser sees it: the cursor column (`getCursorColumn`), its cached
      value (`currentCursorColumn`, -1 when unknown), and whether the cursor is on the last line of the
      scroll region, each after a normalised history of actions. */
  datatype Config = Config(
    wrapWidth: int, wrapOnLongLines: bool,
    column: seq<Action> -> int, cached: seq<Action> -> int, atBottom: seq<Action> -> bool)

  /** The column after a plain character. */
  function Advance(cfg: Config, col: int, ch: char): int {
    if UpdateColumn(ch, col) > cfg.wrapWidth then UpdateColumn(ch, 0) else UpdateColumn(ch, col)
  }

  predicate Plain(ch: char) {
    ch != '\r' && ch != '\n' && ch != BS && ch != BEL && ch != ESC && ch != '\t' && ch != FF
  }

  /** Two columns that no text tells apart: the same, both beyond the wrap width, or, when wrapping is off, any two of
      column 0 and those beyond the wrap width, from all of which text goes on as from column 0. */
  predicate SameCol(cfg: Config, a: int, b: int) {
    || a == b
    || (a > cfg.wrapWidth && b > cfg.wrapWidth)
    || (!cfg.wrapOnLongLines && (a == 0 || a > cfg.wrapWidth) && (b == 0 || b > cfg.wrapWidth))
  }

  // ----- escape sequences

  datatype PState = Initial | SeenEsc | Bracket(question: bool) | OscNumber | OscText

  /** The parser between two characters: its state, the current number (-1 before the first digit), the
      numbers before it, and the text of an operating system command. */
  datatype Parser = Parser(st: PState, num: int, prev: seq<int>, text: string)

  const IDLE := Parser(Initial, -1, [], "")

  predicate Digit(ch: char) { '0' <= ch <= '9' }

  /** The Java conversion to `int`. */
  function JavaInt(n: int): int {
    if InInt(n) then n else (n + 0x8000_0000) % 0x1_0000_0000 - 0x8000_0000
  }

  predicate InInt(v: int) { -0x8000_0000 <= v < 0x8000_0000 }

  function DigitValue(ch: char): nat
    requires Digit(ch)
  {
    ch as int - '0' as int
  }

  function AddDigit(num: int, ch: char): int
    requires Digit(ch)
  {
    JavaInt((if num >= 0 then JavaInt(10 * num) else 0) + DigitValue(ch))
  }

  /** One character inside an escape sequence: the new parser and the action it completes, if any. */
  function EscStep(p: Parser, ch: char): (Parser, seq<Action>)
    requires p.st != Initial
  {
    match p.st
    case SeenEsc =>
      if ch == '[' then (Parser(Bracket(false), -1, [], ""), [])
      else if ch == ']' then (Parser(OscNumber, -1, [], ""), [])
      else if ch == '7' then (IDLE, [SaveCursor])
      else if ch == '8' then (IDLE, [RestoreCursor])
      else if ch == 'M' then (IDLE, [ReverseIndex])
      else (IDLE, [])
    case Bracket(q) =>
      if Digit(ch) then (p.(num := AddDigit(p.num, ch)), [])
      else if ch == ';' then (p.(prev := p.prev + [p.num], num := -1), [])
      else if ch == '?' then (p.(st := Bracket(true)), [])
      else (IDLE, [Csi(q, p.prev + [p.num], ch)])
    case OscNumber =>
      if Digit(ch) then (p.(num := AddDigit(p.num, ch)), [])
      else if ch == ';' then (p.(st := OscText), [])
      else (IDLE, [])
    case OscText =>
      if ch == BEL || ch == NUL then (IDLE, [Osc(p.num, p.text)]) else (p.(text := p.text + [ch]), [])
  }

  // ----- the reference: one character at a time, nothing batched, nothing fused

  datatype Conf = Conf(p: Parser, col: int, acts: seq<Action>)

  function CharStep(cfg: Config, c: Conf, ch: char): Conf {
    if c.p.st != Initial then
      var (p, acts) := EscStep(c.p, ch);
      Conf(p, if p.st == Initial then cfg.column(Norm(c.acts + acts)) else c.col, c.acts + acts)
    else if ch == '\r' then Conf(c.p, 0, c.acts + [Cr])
    else if ch == '\n' then Conf(c.p, cfg.cached(Norm(c.acts + [Lf])), c.acts + [Lf])
    else if ch == BS then Conf(c.p, cfg.cached(Norm(c.acts + [Bs])), c.acts + [Bs])
    else if ch == BEL then c.(acts := c.acts + [Bell])
    else if ch == ESC then c.(p := Parser(SeenEsc, -1, [], ""))
    else if ch == '\t' then Conf(c.p, cfg.cached(Norm(c.acts + [Tab])), c.acts + [Tab])
    else
      var acts := if UpdateColumn(ch, c.col) > cfg.wrapWidth && cfg.wrapOnLongLines then c.acts + [Wrap] else c.acts;
      Conf(c.p, Advance(cfg, c.col, ch), acts + [Text([ch], Advance(cfg, c.col, ch))])
  }

  function CharRun(cfg: Config, c: Conf, str: string): Conf
    decreases |str|
  {
    if str == "" then c else CharRun(cfg, CharStep(cfg, c, str[0]), str[1..])
  }

  lemma {:induction false} CharRunConcat(cfg: Config, c: Conf, a: string, b: string)
    ensures CharRun(cfg, c, a + b) == CharRun(cfg, CharRun(cfg, c, a), b)
    decreases |a|
  {
    hide CharStep;
    if a == "" {
      assert a + b == b;
    } else {
      CharRunConcat(cfg, CharStep(cfg, c, a[0]), a[1..], b);
      assert (a + b)[1..] == a[1..] + b;
    }
  }

  // ----- insertString: text is batched from `prevEnd`, CR LF is fused

  function Flush(acts: seq<Action>, s: string, endColumn: int): seq<Action> {
    if s == "" then acts else acts + [Text(s, endColumn)]
  }

  /** One iteration of the loop: the new configuration and the new values of `i` and `prevEnd`. */
  function LoopStep(cfg: Config, c: Conf, str: string, i: nat, prevEnd: nat): (Conf, nat, nat)
    requires prevEnd <= i < |str|
  {
    var ch := str[i];
    if c.p.st != Initial then
      var (p, acts) := EscStep(c.p, ch);
      if p.st == Initial then (Conf(p, cfg.column(Norm(c.acts + acts)), c.acts + acts), i + 1, i + 1)
      else (Conf(p, c.col, c.acts + acts), i + 1, prevEnd)
    else
      var acts := Flush(c.acts, str[prevEnd..i], c.col);
      if ch == '\r' then
        if i + 1 < |str| && str[i + 1] == '\n' && !cfg.atBottom(Norm(acts)) then
          (Conf(c.p, 0, acts + [CrLf]), i + 2, i + 2)
        else (Conf(c.p, 0, acts + [Cr]), i + 1, i + 1)
      else if ch == '\n' then (Conf(c.p, cfg.cached(Norm(acts + [Lf])), acts + [Lf]), i + 1, i + 1)
      else if ch == BS then (Conf(c.p, cfg.cached(Norm(acts + [Bs])), acts + [Bs]), i + 1, i + 1)
      else if ch == BEL then (Conf(c.p, c.col, acts + [Bell]), i + 1, i + 1)
      else if ch == ESC then (Conf(Parser(SeenEsc, -1, [], ""), c.col, acts), i + 1, i + 1)
      else if ch == '\t' then (Conf(c.p, cfg.cached(Norm(acts + [Tab])), acts + [Tab]), i + 1, i + 1)
      else if UpdateColumn(ch, c.col) > cfg.wrapWidth && cfg.wrapOnLongLines then
        (Conf(c.p, UpdateColumn(ch, 0), acts + [Wrap]), i + 1, i)
      else (Conf(c.p, Advance(cfg, c.col, ch), c.acts), i + 1, prevEnd)
  }

  function Loop(cfg: Config, c: Conf, str: string, i: nat, prevEnd: nat): Conf
    requires prevEnd <= i <= |str|
    decreases |str| - i
  {
    if i == |str| then
      if c.p.st == Initial then c.(acts := Flush(c.acts, str[prevEnd..], c.col)) else c
    else
      var (d, j, e) := LoopStep(cfg, c, str, i, prevEnd);
      Loop(cfg, d, str, j, e)
  }

  function InsertString(cfg: Config, p: Parser, acts: seq<Action>, str: string): Conf {
    Loop(cfg, Conf(p, cfg.column(Norm(acts)), acts), str, 0, 0)
  }

  lemma LoopAdvances(cfg: Config, c: Conf, str: string, i: nat, prevEnd: nat)
    requires prevEnd <= i < |str|
    ensures var (d, j, e) := LoopStep(cfg, c, str, i, prevEnd);
      && e <= j <= |str| && (j == i + 1 || (j == i + 2 && str[i] == '\r' && c.p.st == Initial))
  {
  }

  // ----- control sequence parameters

  predicate Parameters(ps: string) { forall i :: 0 <= i < |ps| ==> Digit(ps[i]) || ps[i] == ';' }

  /** The parameter string cut at its semicolons. */
  function Split(ps: string): (fs: seq<string>)
    ensures |fs| > 0
  {
    if ps == "" then [""]
    else
      var rest := Split(ps[1..]);
      if ps[0] == ';' then [""] + rest else [[ps[0]] + rest[0]] + rest[1..]
  }

  predicate Number(s: string) { forall i :: 0 <= i < |s| ==> Digit(s[i]) }

  function Value(s: string): nat
    requires Number(s)
  {
    if s == "" then 0 else 10 * Value(s[..|s| - 1]) + DigitValue(s[|s| - 1])
  }

  /** A field's decimal value; an empty field is -1. */
  function Decimal(s: string): int
    requires Number(s)
  {
    if s == "" then -1 else Value(s)
  }

  predicate Numbers(fs: seq<string>) { forall k :: 0 <= k < |fs| ==> Number(fs[k]) }

  function Decimals(fs: seq<string>): seq<int>
    requires Numbers(fs)
  {
    if fs == [] then [] else [Decimal(fs[0])] + Decimals(fs[1..])
  }

  lemma {:induction false} SplitNumbers(ps: string)
    requires Parameters(ps)
    ensures Numbers(Split(ps))
  {
    if ps == "" {
    } else {
      SplitNumbers(ps[1..]);
    }
  }

  function EscRun(p: Parser, ps: string): Parser
    requires p.st.Bracket? && Parameters(ps)
    decreases |ps|
  {
    if ps == "" then p else EscRun(EscStep(p, ps[0]).0, ps[1..])
  }

  predicate Small(fs: seq<string>)
    requires Numbers(fs)
  {
    fs == [] || (Decimal(fs[0]) < 0x8000_0000 && Small(fs[1..]))
  }

  lemma {:induction false} ValueExtends(s: string, t: string)
    requires Number(s) && Number(s + t)
    ensures Value(s) <= Value(s + t)
    decreases |t|
  {
    if t == "" {
      assert s + t == s;
    } else {
      var u := t[..|t| - 1];
      assert (s + t)[..|s + t| - 1] == s + u;
      ValueExtends(s, u);
    }
  }

  /** Reading one more digit of a field whose value fits an `int`. */
  lemma AddDigitIsDecimal(s: string, ch: char)
    requires Number(s) && Digit(ch) && Value(s + [ch]) < 0x8000_0000
    ensures AddDigit(Decimal(s), ch) == Decimal(s + [ch])
  {
    assert (s + [ch])[..|s + [ch]| - 1] == s;
    assert Value(s + [ch]) == 10 * Value(s) + DigitValue(ch);
  }

  /** The fields when `sofar` has been read in front of the remaining parameters. */
  function WithPrefix(sofar: string, fs: seq<string>): seq<string>
    requires fs != []
  {
    [sofar + fs[0]] + fs[1..]
  }

  /** The incremental parameter parser computes "cut at the semicolons, read decimals, empty is -1". `sofar` is
      the field that has been read up to here. */
  lemma {:induction false} ParametersParse(p: Parser, sofar: string, ps: string)
    requires p.st.Bracket? && Parameters(ps) && Number(sofar) && p.num == Decimal(sofar)
    requires Numbers(WithPrefix(sofar, Split(ps))) && Small(WithPrefix(sofar, Split(ps)))
    ensures var r := EscRun(p, ps);
      r.st == p.st && r.prev + [r.num] == p.prev + Decimals(WithPrefix(sofar, Split(ps)))
    decreases |ps|
  {
    hide AddDigit, Value, Decimal;
    var all := WithPrefix(sofar, Split(ps));
    if ps == "" {
      assert sofar + "" == sofar && all == [sofar];
      assert Decimals(all) == [p.num] + Decimals(all[1..]);
    } else {
      var ch, rest := ps[0], ps[1..];
      var q := EscStep(p, ch).0;
      SplitNumbers(rest);
      if ch == ';' {
        EmptyPrefix(Split(rest));
        assert sofar + "" == sofar && all == [sofar] + Split(rest) && all[1..] == Split(rest);
        EmptyIsNumber();
        ParametersParse(q, "", rest);
        assert (p.prev + [p.num]) + Decimals(Split(rest)) == p.prev + ([p.num] + Decimals(Split(rest)));
      } else {
        var more := sofar + [ch];
        assert sofar + ([ch] + Split(rest)[0]) == more + Split(rest)[0];
        assert all == WithPrefix(more, Split(rest));
        ValueExtends(more, Split(rest)[0]);
        DecimalIsValue(more + Split(rest)[0]);
        AddDigitIsDecimal(sofar, ch);
        ParametersParse(q, more, rest);
      }
    }
  }

  lemma EmptyPrefix(fs: seq<string>)
    requires fs != []
    ensures WithPrefix("", fs) == fs
  {
    assert "" + fs[0] == fs[0];
  }

  lemma EmptyIsNumber()
    ensures Number("") && Decimal("") == -1
  {
  }

  lemma DecimalIsValue(s: string)
    requires Number(s) && s != ""
    ensures Decimal(s) == Value(s)
  {
  }

  lemma {:induction false} ParametersInInt(p: Parser, ps: string)
    requires p.st.Bracket? && Parameters(ps) && InInt(p.num) && forall v :: v in p.prev ==> InInt(v)
    ensures var r := EscRun(p, ps); forall v :: v in r.prev + [r.num] ==> InInt(v)
    decreases |ps|
  {
    if ps == "" {
    } else {
      ParametersInInt(EscStep(p, ps[0]).0, ps[1..]);
    }
  }

  lemma {:induction false} LargeDecimal(fs: seq<string>)
    requires Numbers(fs) && forall v :: v in Decimals(fs) ==> InInt(v)
    ensures Small(fs)
  {
    if fs == [] {
    } else {
      assert Decimals(fs)[0] == Decimal(fs[0]) && Decimal(fs[0]) in Decimals(fs) && InInt(Decimal(fs[0]));
      assert forall v :: v in Decimals(fs[1..]) ==> v in Decimals(fs);
      LargeDecimal(fs[1..]);
    }
  }

  /** The parameters at dispatch are the decimal values of the fields, for any number of fields, exactly when
      all the values fit an `int`. */
  lemma ParametersExact(ps: string)
    requires Parameters(ps)
    ensures Numbers(Split(ps))
    ensures var r := EscRun(Parser(Bracket(false), -1, [], ""), ps);
      r.prev + [r.num] == Decimals(Split(ps)) <==> Small(Split(ps))
  {
    hide Split, EscRun, Small, Decimals;
    SplitNumbers(ps);
    var p := Parser(Bracket(false), -1, [], "");
    EmptyPrefix(Split(ps));
    EmptyIsNumber();
    if Small(Split(ps)) { ParametersParse(p, "", ps); }
    var r := EscRun(p, ps);
    ParametersInInt(p, ps);
    if r.prev + [r.num] == Decimals(Split(ps)) { LargeDecimal(Split(ps)); }
  }

  lemma {:induction false} CharRunParameters(cfg: Config, c: Conf, ps: string)
    requires c.p.st.Bracket? && Parameters(ps)
    ensures CharRun(cfg, c, ps) == c.(p := EscRun(c.p, ps))
    decreases |ps|
  {
    hide AddDigit;
    if ps == "" {
    } else {
      var d := CharStep(cfg, c, ps[0]);
      assert c.acts + [] == c.acts;
      CharRunParameters(cfg, d, ps[1..]);
    }
  }

  /** A complete control sequence: whatever came before, it dispatches exactly one action, carrying the decimal
      values of its parameters. */
  lemma ControlSequenceDispatch(cfg: Config, c: Conf, ps: string, last: char)
    requires c.p == IDLE && Parameters(ps) && Numbers(Split(ps)) && Small(Split(ps))
    requires !Digit(last) && last != ';' && last != '?'
    ensures var r := CharRun(cfg, c, [ESC, '['] + ps + [last]);
      r.p == IDLE && r.acts == c.acts + [Csi(false, Decimals(Split(ps)), last)]
  {
    hide Split, EscRun, Small, Decimals;
    var open := c.(p := Parser(Bracket(false), -1, [], ""));
    CharRunConcat(cfg, c, [ESC, '['] + ps, [last]);
    CharRunConcat(cfg, c, [ESC, '['], ps);
    var d := CharStep(cfg, c, ESC);
    assert [ESC, '['][1..] == ['['] && ['['][1..] == [];
    assert c.acts + [] == c.acts && CharStep(cfg, d, '[') == open;
    assert CharRun(cfg, d, ['[']) == CharRun(cfg, open, []) == open;
    CharRunParameters(cfg, open, ps);
    ParametersExact(ps);
    var e := open.(p := EscRun(open.p, ps));
    BracketStays(open.p, ps);
    assert [last][1..] == [];
    assert CharRun(cfg, e, [last]) == CharStep(cfg, e, last);
  }

  lemma {:induction false} BracketStays(p: Parser, ps: string)
    requires p.st.Bracket? && Parameters(ps)
    ensures EscRun(p, ps).st == p.st
    decreases |ps|
  {
    hide AddDigit;
    if ps == "" {
    } else {
      BracketStays(EscStep(p, ps[0]).0, ps[1..]);
    }
  }
}
