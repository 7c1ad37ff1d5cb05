/** `insertString` as it runs: the parser fields of the terminal, updated in place, with the growing array of
    parameters. It is proved against the function `EscapeParser.InsertString`. */
module TerminalParser {
  import opened EscapeParser

  class Terminal {
    const cfg: Config
    var state: PState
    var curNumParameter: int
    var prevNumParameters: array?<int>
    var prevParametersCount: nat
    var curTextParameter: string
    var acts: seq<Action>

    /** The array of earlier parameters has room for those counted; it is only absent before the first. */
    ghost predicate Valid()
      reads this, prevNumParameters
    {
      && (prevNumParameters != null
        ==> 4 <= prevNumParameters.Length && prevParametersCount <= prevNumParameters.Length)
      && (state.Bracket? && prevNumParameters == null ==> prevParametersCount == 0)
      && (state == OscNumber ==> curTextParameter == "")
    }

    ghost function Abs(): Parser
      requires Valid()
      reads this, prevNumParameters
    {
      match state
      case Initial => IDLE
      case SeenEsc => Parser(SeenEsc, -1, [], "")
      case Bracket(_) =>
        Parser(state, curNumParameter, if prevNumParameters == null then []
          else prevNumParameters[..prevParametersCount], "")
      case OscNumber => Parser(OscNumber, curNumParameter, [], "")
      case OscText => Parser(OscText, curNumParameter, [], curTextParameter)
    }

    constructor (cfg: Config)
      ensures Valid() && Abs() == IDLE && acts == [] && this.cfg == cfg && prevNumParameters == null
    {
      this.cfg := cfg;
      state, curNumParameter, prevNumParameters, prevParametersCount, curTextParameter, acts := Initial, -1, null, 0,
        "", [];
    }

    /** `;` in a control sequence: the array doubles when it is full and is never indexed out of range. */
    method NextParameter()
      requires Valid() && state.Bracket?
      modifies this`prevNumParameters, this`prevParametersCount, this`curNumParameter, prevNumParameters
      ensures Valid() && Abs() == EscStep(old(Abs()), ';').0
      ensures prevNumParameters == old(prevNumParameters) || fresh(prevNumParameters)
    {
      ghost var before := Abs().prev;
      if prevNumParameters == null {
        prevNumParameters := new int[4];
      } else if prevNumParameters.Length <= prevParametersCount {
        var copy := new int[2 * prevParametersCount];
        forall k | 0 <= k < prevParametersCount { copy[k] := prevNumParameters[k]; }
        prevNumParameters := copy;
      }
      assert prevNumParameters[..prevParametersCount] == before;
      prevNumParameters[prevParametersCount] := curNumParameter;
      prevParametersCount := prevParametersCount + 1;
      assert prevNumParameters[..prevParametersCount] == before + [curNumParameter];
      curNumParameter := -1;
    }

    method Digit(ch: char)
      requires Valid() && EscapeParser.Digit(ch) && (state.Bracket? || state == OscNumber)
      modifies this`curNumParameter
      ensures Valid() && Abs() == EscStep(old(Abs()), ch).0
    {
      curNumParameter := AddDigit(curNumParameter, ch);
    }

    /** A character while in an escape sequence. */
    method Escape(ch: char)
      requires Valid() && state != Initial
      modifies this, prevNumParameters
      ensures Valid() && (prevNumParameters == old(prevNumParameters) || fresh(prevNumParameters)
          || prevNumParameters == null)
      ensures (Abs(), acts) == (EscStep(old(Abs()), ch).0, old(acts) + EscStep(old(Abs()), ch).1)
    {
      hide AddDigit;
      assert acts + [] == acts;
      match state {
        case SeenEsc =>
          if ch == '[' || ch == ']' {
            state := if ch == '[' then Bracket(false) else OscNumber;
            curNumParameter, prevParametersCount, curTextParameter := -1, 0, "";
          } else {
            if ch == '7' { acts := acts + [SaveCursor]; }
            else if ch == '8' { acts := acts + [RestoreCursor]; }
            else if ch == 'M' { acts := acts + [ReverseIndex]; }
            state := Initial;
          }
        case Bracket(q) =>
          if EscapeParser.Digit(ch) {
            Digit(ch);
          } else if ch == ';' {
            NextParameter();
          } else if ch == '?' {
            state := Bracket(true);
          } else {
            var prev := if prevNumParameters == null then [] else prevNumParameters[..prevParametersCount];
            acts := acts + [Csi(q, prev + [curNumParameter], ch)];
            prevNumParameters := null;
            state := Initial;
          }
        case OscNumber =>
          if EscapeParser.Digit(ch) {
            Digit(ch);
          } else if ch == ';' {
            state, curTextParameter := OscText, "";
          } else {
            prevNumParameters := null;
            state := Initial;
          }
        case OscText =>
          if ch == BEL || ch == NUL {
            acts := acts + [Osc(curNumParameter, curTextParameter)];
            state, prevNumParameters := Initial, null;
          } else {
            curTextParameter := curTextParameter + [ch];
          }
      }
    }

    method InsertSimpleOutput(s: string, endColumn: int)
      modifies this`acts
      ensures acts == Flush(old(acts), s, endColumn)
    {
      if s != "" { acts := acts + [Text(s, endColumn)]; }
    }

    /** The cases of INITIAL_STATE; the results are the new `i`, `prevEnd` and `curColumn`. */
    method Control(str: string, i: nat, prevEnd: nat, col: int) returns (j: nat, e: nat, c: int)
      requires Valid() && state == Initial && prevEnd <= i < |str|
      modifies this`state, this`acts
      ensures Valid() && LoopStep(cfg, Conf(IDLE, col, old(acts)), str, i, prevEnd) == (Conf(Abs(), c, acts), j, e)
    {
      hide Norm, UpdateColumn;
      var ch := str[i];
      j, e, c := i + 1, i + 1, col;
      if ch == '\r' {
        InsertSimpleOutput(str[prevEnd..i], col);
        if i + 1 < |str| && str[i + 1] == '\n' && !cfg.atBottom(Norm(acts)) {
          acts := acts + [CrLf];
          j, e := i + 2, i + 2;
        } else {
          acts := acts + [Cr];
        }
        c := 0;
      } else if ch == '\n' || ch == BS || ch == '\t' {
        InsertSimpleOutput(str[prevEnd..i], col);
        acts := acts + [if ch == '\n' then Lf else if ch == BS then Bs else Tab];
        c := cfg.cached(Norm(acts));
      } else if ch == BEL {
        InsertSimpleOutput(str[prevEnd..i], col);
        acts := acts + [Bell];
      } else if ch == ESC {
        InsertSimpleOutput(str[prevEnd..i], col);
        state := SeenEsc;
      } else {
        var next := UpdateColumn(ch, col);
        e := prevEnd;
        if next > cfg.wrapWidth {
          if cfg.wrapOnLongLines {
            InsertSimpleOutput(str[prevEnd..i], col);
            acts := acts + [Wrap];
            e := i;
          }
          next := UpdateColumn(ch, 0);
        }
        c := next;
      }
    }

    method InsertString(str: string)
      requires Valid()
      modifies this, prevNumParameters
      ensures Valid()
      ensures var r := EscapeParser.InsertString(cfg, old(Abs()), old(acts), str); Abs() == r.p && acts == r.acts
    {
      hide LoopStep, Norm, EscStep;
      ghost var start := Abs();
      var prevEnd, i, curColumn := 0, 0, cfg.column(Norm(acts));
      while i < |str|
        invariant 0 <= prevEnd <= i <= |str| && Valid()
        invariant prevNumParameters == old(prevNumParameters) || fresh(prevNumParameters) || prevNumParameters == null
        invariant Loop(cfg, Conf(Abs(), curColumn, acts), str, i, prevEnd)
            == EscapeParser.InsertString(cfg, start, old(acts), str)
      {
        ghost var c := Conf(Abs(), curColumn, acts);
        LoopAdvances(cfg, c, str, i, prevEnd);
        if state != Initial {
          Escape(str[i]);
          i := i + 1;
          if state == Initial { prevEnd, curColumn := i, cfg.column(Norm(acts)); }
          EscapeIteration(cfg, c, str, i - 1, c.p);
        } else {
          i, prevEnd, curColumn := Control(str, i, prevEnd, curColumn);
        }
      }
      if state == Initial { InsertSimpleOutput(str[prevEnd..i], curColumn); }
      assert str[prevEnd..i] == str[prevEnd..];
    }
  }

  lemma EscapeIteration(cfg: Config, c: Conf, str: string, i: nat, p: Parser)
    requires i < |str| && c.p == p && p.st != Initial
    ensures forall e | 0 <= e <= i ::
      var (q, acts) := EscStep(p, str[i]);
      LoopStep(cfg, c, str, i, e) ==
        if q.st == Initial then (Conf(q, cfg.column(Norm(c.acts + acts)), c.acts + acts), i + 1, i + 1)
        else (Conf(q, c.col, c.acts + acts), i + 1, e)
  {
    hide Norm, EscStep;
  }
}
