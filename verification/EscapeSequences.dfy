/** What the parser makes of each escape sequence and each control character, from any idle state, whether the
    characters come one by one or in one call of `insertString`. */
module EscapeSequences {
  import opened EscapeParser

  /** The characters append exactly these actions and leave the parser idle, one by one and in one call. */
  ghost predicate Appends(cfg: Config, col: int, acts: seq<Action>, s: string, more: seq<Action>) {
    && (var r := CharRun(cfg, Conf(IDLE, col, acts), s); r.p == IDLE && r.acts == acts + more)
    && (var r := InsertString(cfg, IDLE, acts, s); r.p == IDLE && r.acts == acts + more)
  }

  // ----- one call and single characters

  /** The parser is inside a sequence in front of each of these characters. */
  predicate Inside(p: Parser, s: string)
    decreases |s|
  {
    p.st != Initial && (|s| <= 1 || Inside(EscStep(p, s[0]).0, s[1..]))
  }

  lemma {:induction false} LoopFeeds(cfg: Config, c: Conf, str: string, i: nat, prevEnd: nat)
    requires prevEnd <= i < |str| && Inside(c.p, str[i..])
    ensures var r, q := Loop(cfg, c, str, i, prevEnd), CharRun(cfg, c, str[i..]); r.p == q.p && r.acts == q.acts
    decreases |str| - i
  {
    hide EscStep, Norm;
    var (d, j, e) := LoopStep(cfg, c, str, i, prevEnd);
    assert str[i..][0] == str[i] && str[i..][1..] == str[i + 1..];
    assert CharStep(cfg, c, str[i]) == d && j == i + 1;
    if j < |str| {
      LoopFeeds(cfg, d, str, j, e);
    } else {
      assert d.p.st == Initial ==> str[e..] == "";
      assert str[j..] == "";
    }
  }

  const AFTER_ESC := Parser(SeenEsc, -1, [], "")

  /** A sequence in one call does what its characters do. */
  lemma InOneCall(cfg: Config, acts: seq<Action>, s: string)
    requires s != "" && Inside(AFTER_ESC, s)
    ensures var r := InsertString(cfg, IDLE, acts, [ESC] + s);
      forall col :: var q := CharRun(cfg, Conf(IDLE, col, acts), [ESC] + s); r.p == q.p && r.acts == q.acts
  {
    hide EscStep, Norm;
    var str, start := [ESC] + s, cfg.column(Norm(acts));
    var c := Conf(AFTER_ESC, start, acts);
    assert str[0] == ESC && str[1..] == s && str[0..0] == "";
    assert LoopStep(cfg, Conf(IDLE, start, acts), str, 0, 0) == (c, 1, 1);
    LoopFeeds(cfg, c, str, 1, 1);
    forall col ensures var r, q := CharRun(cfg, c, s), CharRun(cfg, Conf(IDLE, col, acts), str);
      r.p == q.p && r.acts == q.acts
    {
      assert CharStep(cfg, Conf(IDLE, col, acts), ESC) == c.(col := col);
      ColumnAside(cfg, c, col, s);
    }
  }

  /** Inside a sequence the column does not matter. */
  lemma {:induction false} ColumnAside(cfg: Config, c: Conf, col: int, s: string)
    requires Inside(c.p, s)
    ensures var r, q := CharRun(cfg, c, s), CharRun(cfg, c.(col := col), s); r.p == q.p && r.acts == q.acts
    decreases |s|
  {
    hide EscStep, Norm;
    if s == "" {
    } else {
      var d, e := CharStep(cfg, c, s[0]), CharStep(cfg, c.(col := col), s[0]);
      assert d.p == e.p && d.acts == e.acts;
      if |s| == 1 {
        assert s[1..] == "";
      } else {
        ColumnAside(cfg, d, e.col, s[1..]);
        assert d.(col := e.col) == e;
      }
    }
  }

  /** To follow a sequence it is enough to follow its characters behind the escape character. */
  lemma Follow(cfg: Config, col: int, acts: seq<Action>, s: string, more: seq<Action>)
    requires s != "" && Inside(AFTER_ESC, s)
    requires var r := CharRun(cfg, Conf(AFTER_ESC, col, acts), s); r.p == IDLE && r.acts == acts + more
    ensures Appends(cfg, col, acts, [ESC] + s, more)
  {
    hide EscStep, Norm;
    var str := [ESC] + s;
    assert str[0] == ESC && str[1..] == s;
    assert CharStep(cfg, Conf(IDLE, col, acts), ESC) == Conf(AFTER_ESC, col, acts);
    InOneCall(cfg, acts, s);
  }

  lemma RunOne(cfg: Config, c: Conf, ch: char)
    ensures CharRun(cfg, c, [ch]) == CharStep(cfg, c, ch)
  {
    assert [ch][1..] == "";
  }

  lemma RunFirst(cfg: Config, c: Conf, ch: char, s: string)
    ensures CharRun(cfg, c, [ch] + s) == CharRun(cfg, CharStep(cfg, c, ch), s)
  {
    assert ([ch] + s)[0] == ch && ([ch] + s)[1..] == s;
  }

  // ----- ESC and one character

  /** ESC 7, ESC 8 and ESC M; any other character but the two brackets is dropped with the ESC. */
  lemma TwoCharacters(cfg: Config, col: int, acts: seq<Action>, ch: char)
    ensures ch == '7' ==> Appends(cfg, col, acts, [27 as char, ch], [SaveCursor])
    ensures ch == '8' ==> Appends(cfg, col, acts, [27 as char, ch], [RestoreCursor])
    ensures ch == 'M' ==> Appends(cfg, col, acts, [27 as char, ch], [ReverseIndex])
    ensures ch !in "78M[]" ==> Appends(cfg, col, acts, [27 as char, ch], [])
  {
    hide Norm, InsertString, CharRun;
    var c := Conf(AFTER_ESC, col, acts);
    RunOne(cfg, c, ch);
    assert [ESC] + [ch] == [27 as char, ch] && acts + [] == acts;
    if ch != '[' && ch != ']' {
      var more := EscStep(AFTER_ESC, ch).1;
      Follow(cfg, col, acts, [ch], more);
    }
  }

  // ----- control sequences

  lemma {:induction false} InsideParameters(p: Parser, ps: string, last: char)
    requires p.st.Bracket? && Parameters(ps)
    ensures Inside(p, ps + [last])
    decreases |ps|
  {
    hide AddDigit;
    var s := ps + [last];
    if ps == "" {
    } else {
      assert s[0] == ps[0] && s[1..] == ps[1..] + [last];
      InsideParameters(EscStep(p, ps[0]).0, ps[1..], last);
    }
  }

  /** A control sequence from its parameters on. */
  lemma ParametersThen(cfg: Config, c: Conf, ps: string, last: char)
    requires c.p.st.Bracket? && c.p.num == -1 && c.p.prev == [] && c.p.text == ""
    requires Parameters(ps) && Numbers(Split(ps)) && Small(Split(ps)) && !Digit(last) && last != ';' && last != '?'
    ensures var r := CharRun(cfg, c, ps + [last]);
      r.p == IDLE && r.acts == c.acts + [Csi(c.p.st.question, Decimals(Split(ps)), last)]
  {
    hide Split, EscRun, Small, Decimals, Norm, AddDigit;
    CharRunConcat(cfg, c, ps, [last]);
    CharRunParameters(cfg, c, ps);
    EmptyPrefix(Split(ps));
    EmptyIsNumber();
    ParametersParse(c.p, "", ps);
    assert [] + Decimals(Split(ps)) == Decimals(Split(ps));
    BracketStays(c.p, ps);
    RunOne(cfg, c.(p := EscRun(c.p, ps)), last);
  }

  /** ESC [ parameters and a final character. */
  lemma ControlSequence(cfg: Config, col: int, acts: seq<Action>, ps: string, last: char)
    requires Parameters(ps) && Numbers(Split(ps)) && Small(Split(ps)) && !Digit(last) && last != ';' && last != '?'
    ensures Appends(cfg, col, acts, [27 as char, '['] + ps + [last], [Csi(false, Decimals(Split(ps)), last)])
  {
    hide Split, Small, Decimals, Norm, CharRun, Inside, InsertString;
    var c := Conf(AFTER_ESC, col, acts);
    RunFirst(cfg, c, '[', ps + [last]);
    var d := Conf(Parser(Bracket(false), -1, [], ""), col, acts);
    assert acts + [] == acts && CharStep(cfg, c, '[') == d;
    ParametersThen(cfg, d, ps, last);
    InsideParameters(d.p, ps, last);
    InsideFirst(AFTER_ESC, '[', ps + [last]);
    Follow(cfg, col, acts, ['['] + (ps + [last]), [Csi(false, Decimals(Split(ps)), last)]);
    assert [ESC] + (['['] + (ps + [last])) == [27 as char, '['] + ps + [last];
  }

  lemma InsideFirst(p: Parser, ch: char, s: string)
    requires p.st != Initial && Inside(EscStep(p, ch).0, s)
    ensures Inside(p, [ch] + s)
  {
    assert ([ch] + s)[0] == ch && ([ch] + s)[1..] == s;
  }

  /** ESC [ ? parameters and a final character. */
  lemma PrivateSequence(cfg: Config, col: int, acts: seq<Action>, ps: string, last: char)
    requires Parameters(ps) && Numbers(Split(ps)) && Small(Split(ps)) && !Digit(last) && last != ';' && last != '?'
    ensures Appends(cfg, col, acts, [27 as char, '[', '?'] + ps + [last], [Csi(true, Decimals(Split(ps)), last)])
  {
    hide Split, Small, Decimals, Norm, CharRun, Inside, InsertString;
    var c, s := Conf(AFTER_ESC, col, acts), ps + [last];
    var d, e := Conf(Parser(Bracket(false), -1, [], ""), col, acts), Conf(Parser(Bracket(true), -1, [], ""), col, acts);
    RunFirst(cfg, c, '[', ['?'] + s);
    RunFirst(cfg, d, '?', s);
    assert acts + [] == acts && CharStep(cfg, c, '[') == d && CharStep(cfg, d, '?') == e;
    ParametersThen(cfg, e, ps, last);
    InsideParameters(e.p, ps, last);
    InsideFirst(d.p, '?', s);
    InsideFirst(AFTER_ESC, '[', ['?'] + s);
    Follow(cfg, col, acts, ['['] + (['?'] + s), [Csi(true, Decimals(Split(ps)), last)]);
    assert [ESC] + (['['] + (['?'] + s)) == [27 as char, '[', '?'] + ps + [last];
  }

  // ----- operating system commands

  /** The digits of the command number. */
  lemma {:induction false} DigitsRead(cfg: Config, c: Conf, sofar: string, ds: string)
    requires c.p.st == OscNumber && Number(sofar) && Number(ds) && Number(sofar + ds) && c.p.num == Decimal(sofar)
    requires Decimal(sofar + ds) < 0x8000_0000
    ensures CharRun(cfg, c, ds) == c.(p := c.p.(num := Decimal(sofar + ds)))
    decreases |ds|
  {
    hide AddDigit, Value, Decimal;
    if ds == "" {
      assert sofar + ds == sofar;
    } else {
      var more := sofar + [ds[0]];
      assert more + ds[1..] == sofar + ds && c.acts + [] == c.acts;
      ValueExtends(more, ds[1..]);
      DecimalIsValue(sofar + ds);
      AddDigitIsDecimal(sofar, ds[0]);
      DigitsRead(cfg, CharStep(cfg, c, ds[0]), more, ds[1..]);
    }
  }

  lemma {:induction false} TextRead(cfg: Config, c: Conf, text: string)
    requires c.p.st == OscText && BEL !in text && NUL !in text
    ensures CharRun(cfg, c, text) == c.(p := c.p.(text := c.p.text + text))
    decreases |text|
  {
    if text == "" {
      assert c.p.text + text == c.p.text;
    } else {
      assert c.acts + [] == c.acts && c.p.text + [text[0]] + text[1..] == c.p.text + text;
      TextRead(cfg, CharStep(cfg, c, text[0]), text[1..]);
    }
  }

  lemma {:induction false} InsideText(p: Parser, text: string, last: char)
    requires p.st == OscText && BEL !in text && NUL !in text
    ensures Inside(p, text + [last])
    decreases |text|
  {
    var s := text + [last];
    if text == "" {
    } else {
      assert s[0] == text[0] && s[1..] == text[1..] + [last];
      InsideText(EscStep(p, text[0]).0, text[1..], last);
    }
  }

  lemma {:induction false} InsideDigits(p: Parser, ds: string, s: string)
    requires p.st == OscNumber && Number(ds) && s != ""
    requires forall n :: Inside(p.(num := n), s)
    ensures Inside(p, ds + s)
    decreases |ds|
  {
    hide AddDigit;
    if ds == "" {
      assert ds + s == s && p.(num := p.num) == p;
    } else {
      assert (ds + s)[0] == ds[0] && (ds + s)[1..] == ds[1..] + s;
      InsideDigits(EscStep(p, ds[0]).0, ds[1..], s);
    }
  }

  const COMMAND := Parser(OscNumber, -1, [], "")

  /** ESC ] number ; text, ended by BEL or NUL. */
  lemma SystemCommand(cfg: Config, col: int, acts: seq<Action>, ds: string, text: string, last: char)
    requires Number(ds) && Decimal(ds) < 0x8000_0000 && (last == 7 as char || last == 0 as char)
    requires 7 as char !in text && 0 as char !in text
    ensures Appends(cfg, col, acts, [27 as char, ']'] + ds + [';'] + text + [last], [Osc(Decimal(ds), text)])
  {
    hide Norm, CharRun, Inside, InsertString, Value, Decimal;
    var c, d, s := Conf(AFTER_ESC, col, acts), Conf(COMMAND, col, acts), text + [last];
    var tail := ds + ([';'] + s);
    RunFirst(cfg, c, ']', tail);
    assert acts + [] == acts && CharStep(cfg, c, ']') == d;
    EmptyIsNumber();
    assert "" + ds == ds;
    CharRunConcat(cfg, d, ds, [';'] + s);
    DigitsRead(cfg, d, "", ds);
    var e := Conf(COMMAND.(num := Decimal(ds)), col, acts);
    var f := e.(p := e.p.(st := OscText));
    RunFirst(cfg, e, ';', s);
    assert CharStep(cfg, e, ';') == f;
    CharRunConcat(cfg, f, text, [last]);
    TextRead(cfg, f, text);
    assert "" + text == text;
    RunOne(cfg, f.(p := f.p.(text := text)), last);
    forall n ensures Inside(COMMAND.(num := n), [';'] + s) {
      InsideText(COMMAND.(num := n, st := OscText), text, last);
      InsideFirst(COMMAND.(num := n), ';', s);
    }
    InsideDigits(COMMAND, ds, [';'] + s);
    InsideFirst(AFTER_ESC, ']', tail);
    Follow(cfg, col, acts, [']'] + tail, [Osc(Decimal(ds), text)]);
    assert [ESC] + ([']'] + tail) == [27 as char, ']'] + ds + [';'] + text + [last];
  }

  /** ESC ] number and anything but a digit or a semicolon: the command is dropped. */
  lemma DroppedCommand(cfg: Config, col: int, acts: seq<Action>, ds: string, ch: char)
    requires Number(ds) && Decimal(ds) < 0x8000_0000 && !Digit(ch) && ch != ';'
    ensures Appends(cfg, col, acts, [27 as char, ']'] + ds + [ch], [])
  {
    hide Norm, CharRun, Inside, InsertString, Value, Decimal;
    var c, d, tail := Conf(AFTER_ESC, col, acts), Conf(COMMAND, col, acts), ds + [ch];
    RunFirst(cfg, c, ']', tail);
    assert acts + [] == acts && CharStep(cfg, c, ']') == d;
    EmptyIsNumber();
    assert "" + ds == ds;
    CharRunConcat(cfg, d, ds, [ch]);
    DigitsRead(cfg, d, "", ds);
    RunOne(cfg, Conf(COMMAND.(num := Decimal(ds)), col, acts), ch);
    forall n ensures Inside(COMMAND.(num := n), [ch]) { InsideLast(COMMAND.(num := n), ch); }
    InsideDigits(COMMAND, ds, [ch]);
    InsideFirst(AFTER_ESC, ']', tail);
    Follow(cfg, col, acts, [']'] + tail, []);
    assert [ESC] + ([']'] + tail) == [27 as char, ']'] + ds + [ch];
  }

  lemma InsideLast(p: Parser, ch: char)
    requires p.st != Initial
    ensures Inside(p, [ch])
  {
  }

  // ----- control characters and text

  lemma OneInserted(cfg: Config, acts: seq<Action>, ch: char)
    requires ch != ESC
    ensures var c := Conf(IDLE, cfg.column(Norm(acts)), acts);
      var r, q := InsertString(cfg, IDLE, acts, [ch]), CharStep(cfg, c, ch);
      r.p == q.p == IDLE && r.acts == q.acts
  {
    hide Norm, UpdateColumn;
    var c := Conf(IDLE, cfg.column(Norm(acts)), acts);
    assert [ch][0..0] == "" && [ch][0..1] == [ch] && [ch][1..] == "" && [ch][0..] == [ch];
    var (d, j, e) := LoopStep(cfg, c, [ch], 0, 0);
    assert Loop(cfg, c, [ch], 0, 0) == Loop(cfg, d, [ch], j, e);
  }

  /** Carriage return, line feed, backspace, bell and tab, by their codes. */
  lemma ControlCharacter(cfg: Config, acts: seq<Action>, code: nat)
    requires code == 13 || code == 10 || code == 8 || code == 7 || code == 9
    ensures var r := InsertString(cfg, IDLE, acts, [code as char]);
      && r.p == IDLE
      && r.acts == acts
           + [if code == 13 then Cr else if code == 10 then Lf else if code == 8 then Bs else if code == 7 then Bell
              else Tab]
  {
    hide Norm;
    OneInserted(cfg, acts, code as char);
  }

  /** Any character from the blank on: it is inserted at the cursor, one column wide (no column for a zero width space),
      behind a wrap break when it would end beyond the wrap width and lines wrap. */
  lemma PrintedCharacter(cfg: Config, acts: seq<Action>, ch: char)
    requires ch >= ' '
    ensures var width := if ch == 0x200B as char then 0 else 1;
      var end := cfg.column(Norm(acts)) + width;
      InsertString(cfg, IDLE, acts, [ch]).acts
        == if end <= cfg.wrapWidth then acts + [Text([ch], end)]
           else if cfg.wrapOnLongLines then acts + [Wrap, Text([ch], width)]
           else acts + [Text([ch], width)]
  {
    hide Norm;
    OneInserted(cfg, acts, ch);
    assert acts + [Wrap] + [Text([ch], UpdateColumn(ch, 0))] == acts + [Wrap, Text([ch], UpdateColumn(ch, 0))];
  }
}
