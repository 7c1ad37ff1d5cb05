/** What `moveTo` has to achieve, on the document read as a sequence of characters and tags: find the goal
    position, padding the goal line with spaces, or the document with lines, when it is not there. */
module CursorMotion {
  import opened EscapeParser
  import opened Dom

  /** A document in reading order: characters, line break elements, and the tags of the spans. */
  datatype Glyph = Ch(c: char) | Br(id: nat) | Open(id: nat) | Shut

  predicate Tag(g: Glyph) { g.Open? || g.Shut? }

  predicate EndsLine(g: Glyph) { g.Br? || (g.Ch? && (g.c == '\n' || g.c == FF)) }

  /** Characters that take one column or end the line (a carriage return never gets into a text node). */
  predicate OneColumn(c: char) { c != '\t' && c != ZERO_WIDTH_SPACE && c != '\r' }

  function Next(p: Pos, g: Glyph): Pos {
    if Tag(g) then p else if EndsLine(g) then Pos(p.line + 1, 0) else Pos(p.line, p.col + 1)
  }

  function PosAfter(p: Pos, gs: seq<Glyph>): Pos
    decreases |gs|
  {
    if gs == [] then p else PosAfter(Next(p, gs[0]), gs[1..])
  }

  function Spaces(n: int): seq<Glyph> { seq(if n > 0 then n else 0, _ => Ch(' ')) }
  function NewLines(n: int): seq<Glyph> { seq(if n > 0 then n else 0, _ => Ch('\n')) }

  const HOME := Pos(0, 0)

  predicate Reached(p: Pos, goal: Pos) { p.line >= goal.line && p.col >= goal.col }

  /** `p` is not beyond `goal` in reading order. */
  predicate NotBeyond(p: Pos, goal: Pos) { p.line < goal.line || (p.line == goal.line && p.col <= goal.col) }

  /** The walk over the glyphs: those in front of the new cursor, and those behind it. */
  function Seek(done: seq<Glyph>, rest: seq<Glyph>, p: Pos, goal: Pos): (seq<Glyph>, seq<Glyph>)
    decreases |rest|
  {
    if Reached(p, goal) then (done, rest)
    else if rest == [] then (done + NewLines(goal.line - p.line) + Spaces(goal.col - p.col), [])
    else if EndsLine(rest[0]) && p.line == goal.line then (done + Spaces(goal.col - p.col), rest)
    else Seek(done + [rest[0]], rest[1..], Next(p, rest[0]), goal)
  }

  /** What a reader sees of it. */
  function Visible(gs: seq<Glyph>): seq<Glyph> {
    if gs == [] then [] else (if Tag(gs[0]) then [] else [gs[0]]) + Visible(gs[1..])
  }

  /** The same document, with the same text in front of the cursor: the cursors may differ in the spans they are
      in. */
  ghost predicate Same(a: (seq<Glyph>, seq<Glyph>), b: (seq<Glyph>, seq<Glyph>)) {
    a.0 + a.1 == b.0 + b.1 && Visible(a.0) == Visible(b.0)
  }

  // ----- where it lands

  lemma {:induction false} PosAfterConcat(p: Pos, a: seq<Glyph>, b: seq<Glyph>)
    ensures PosAfter(p, a + b) == PosAfter(PosAfter(p, a), b)
    decreases |a|
  {
    if a == [] {
      assert a + b == b;
    } else {
      PosAfterConcat(Next(p, a[0]), a[1..], b);
      assert (a + b)[1..] == a[1..] + b;
    }
  }

  lemma {:induction false} SpacesAdvance(p: Pos, n: nat)
    ensures PosAfter(p, Spaces(n)) == Pos(p.line, p.col + n)
    decreases n
  {
    if n == 0 {
    } else {
      assert Spaces(n)[1..] == Spaces(n - 1);
      SpacesAdvance(Pos(p.line, p.col + 1), n - 1);
    }
  }

  lemma {:induction false} NewLinesAdvance(p: Pos, n: nat)
    ensures PosAfter(p, NewLines(n)) == if n == 0 then p else Pos(p.line + n, 0)
    decreases n
  {
    if n == 0 {
    } else {
      assert NewLines(n)[1..] == NewLines(n - 1);
      NewLinesAdvance(Pos(p.line + 1, 0), n - 1);
    }
  }

  /** The goal line is in the document, or the goal needs no padding behind freshly added lines: it asks for
      column 0, or the last line was empty. */
  predicate Reachable(all: seq<Glyph>, goal: Pos) {
    var end := PosAfter(HOME, all);
    goal.line <= end.line || goal.col == 0 || end.col == 0
  }

  /** The walk lands on the goal exactly when the goal is reachable in that sense. Otherwise it has counted the
      columns of the old last line as if they were on the goal line. */
  lemma {:induction false} SeekLands(done: seq<Glyph>, rest: seq<Glyph>, p: Pos, goal: Pos)
    requires p == PosAfter(HOME, done) && NotBeyond(p, goal) && goal.line >= 0 && goal.col >= 0
    ensures PosAfter(HOME, Seek(done, rest, p, goal).0) == goal <==> Reachable(done + rest, goal)
    decreases |rest|
  {
    PosAfterConcat(HOME, done, rest);
    if Reached(p, goal) {
      EndNotBefore(p, rest);
    } else if rest == [] {
      var k, n := goal.line - p.line, goal.col - p.col;
      assert done + rest == done;
      PosAfterConcat(HOME, done, NewLines(k));
      PosAfterConcat(HOME, done + NewLines(k), Spaces(n));
      NewLinesAdvance(p, if k > 0 then k else 0);
      var q := if k > 0 then Pos(p.line + k, 0) else p;
      assert NewLines(k) == NewLines(if k > 0 then k else 0) && Spaces(n) == Spaces(if n > 0 then n else 0);
      SpacesAdvance(q, if n > 0 then n else 0);
      ColumnsStayPositive(HOME, done);
    } else if EndsLine(rest[0]) && p.line == goal.line {
      PosAfterConcat(HOME, done, Spaces(goal.col - p.col));
      SpacesAdvance(p, goal.col - p.col);
      EndNotBefore(p, rest);
    } else {
      PosAfterConcat(HOME, done, [rest[0]]);
      assert PosAfter(p, [rest[0]]) == Next(p, rest[0]);
      assert done + [rest[0]] + rest[1..] == done + rest;
      SeekLands(done + [rest[0]], rest[1..], Next(p, rest[0]), goal);
    }
  }

  /** One character in the document and the goal at line 1, column 1: the walk adds the line but no blank, as it
      still counts the column of line 0. */
  lemma FillMiscounted()
    ensures Seek([], [Ch('a')], HOME, Pos(1, 1)) == ([Ch('a'), Ch('\n')], [])
    ensures PosAfter(HOME, [Ch('a'), Ch('\n')]) == Pos(1, 0)
  {
    hide Seek, PosAfter;
    var a, g := [Ch('a')], Pos(1, 1);
    assert a[1..] == [] && [] + a == a;
    assert Seek([], a, HOME, g) == Seek(a, [], Pos(0, 1), g) by { SeekPasses([], a, HOME, g); }
    EndOfDocument(a, [], Pos(0, 1), g);
    assert NewLines(1) == [Ch('\n')] && Spaces(0) == [];
    assert a + [Ch('\n')] + [] == [Ch('a'), Ch('\n')];
    TwoGlyphs(HOME, Ch('a'), Ch('\n'));
  }

  lemma SeekPasses(done: seq<Glyph>, rest: seq<Glyph>, p: Pos, goal: Pos)
    requires rest != [] && !Reached(p, goal) && !(EndsLine(rest[0]) && p.line == goal.line)
    ensures Seek(done, rest, p, goal) == Seek(done + [rest[0]], rest[1..], Next(p, rest[0]), goal)
  {
  }

  lemma TwoGlyphs(p: Pos, a: Glyph, b: Glyph)
    ensures PosAfter(p, [a, b]) == Next(Next(p, a), b)
  {
    var two := [a, b];
    assert two[1..] == [b] && [b][1..] == [];
    assert PosAfter(p, two) == PosAfter(Next(p, a), two[1..]);
    assert PosAfter(Next(p, a), [b]) == PosAfter(Next(Next(p, a), b), [b][1..]);
  }

  lemma {:induction false} EndNotBefore(p: Pos, gs: seq<Glyph>)
    ensures p.line <= PosAfter(p, gs).line
    decreases |gs|
  {
    if gs == [] {
    } else {
      EndNotBefore(Next(p, gs[0]), gs[1..]);
    }
  }

  lemma {:induction false} ColumnsStayPositive(p: Pos, gs: seq<Glyph>)
    requires p.col >= 0
    ensures PosAfter(p, gs).col >= 0
    decreases |gs|
  {
    if gs == [] {
    } else {
      ColumnsStayPositive(Next(p, gs[0]), gs[1..]);
    }
  }

  lemma {:induction false} VisibleConcat(a: seq<Glyph>, b: seq<Glyph>)
    ensures Visible(a + b) == Visible(a) + Visible(b)
    decreases |a|
  {
    if a == [] {
      assert a + b == b;
    } else {
      VisibleConcat(a[1..], b);
      assert (a + b)[0] == a[0] && (a + b)[1..] == a[1..] + b;
      var g := if Tag(a[0]) then [] else [a[0]];
      assert g + (Visible(a[1..]) + Visible(b)) == g + Visible(a[1..]) + Visible(b);
    }
  }

  /** Tags do not take part in the position. */
  lemma {:induction false} OnlyVisibleCounts(p: Pos, gs: seq<Glyph>)
    ensures PosAfter(p, gs) == PosAfter(p, Visible(gs))
    decreases |gs|
  {
    if gs == [] {
    } else {
      OnlyVisibleCounts(Next(p, gs[0]), gs[1..]);
      assert !Tag(gs[0]) ==> Visible(gs)[0] == gs[0] && Visible(gs)[1..] == Visible(gs[1..]);
      assert Tag(gs[0]) ==> Visible(gs) == Visible(gs[1..]);
    }
  }

  /** `all` is the document, `k` a place in it: the new document has `n` line ends and `m` blanks there. */
  ghost predicate Padded(all: seq<Glyph>, before: seq<Glyph>, after: seq<Glyph>, k: nat, n: int, m: int) {
    && k <= |all| && after == all[k..] && before == all[..k] + NewLines(n) + Spaces(m)
    && (n > 0 ==> after == []) && (m > 0 ==> after == [] || EndsLine(after[0]))
  }

  /** Only blanks at the end of the goal line, or lines and blanks at the end of the document, are added; all
      characters and tags keep their order. */
  lemma {:induction false} SeekOnlyPads(done: seq<Glyph>, rest: seq<Glyph>, p: Pos, goal: Pos)
      returns (k: nat, n: int, m: int)
    ensures var (before, after) := Seek(done, rest, p, goal); Padded(done + rest, before, after, k, n, m)
    decreases |rest|
  {
    hide NewLines, Spaces;
    if Reached(p, goal) || rest == [] || (EndsLine(rest[0]) && p.line == goal.line) {
      k := |done|;
      n := if Reached(p, goal) || rest != [] then 0 else goal.line - p.line;
      m := if Reached(p, goal) then 0 else goal.col - p.col;
      NoPadding(done);
      assert (done + rest)[..k] == done && (done + rest)[k..] == rest;
    } else {
      k, n, m := SeekOnlyPads(done + [rest[0]], rest[1..], Next(p, rest[0]), goal);
      assert done + [rest[0]] + rest[1..] == done + rest;
    }
  }

  lemma NoPadding(s: seq<Glyph>)
    ensures s + NewLines(0) == s && s + Spaces(0) == s
  {
  }

  lemma {:induction false} PassedIsAhead(p: Pos, gs: seq<Glyph>)
    requires p.col >= 0
    ensures NotBeyond(p, PosAfter(p, gs))
    decreases |gs|
  {
    if gs == [] {
    } else {
      PassedIsAhead(Next(p, gs[0]), gs[1..]);
    }
  }

  lemma {:induction false} OnlyTags(p: Pos, gs: seq<Glyph>)
    requires PosAfter(p, gs) == p && p.col >= 0
    ensures Visible(gs) == []
    decreases |gs|
  {
    if gs == [] {
    } else {
      PassedIsAhead(Next(p, gs[0]), gs[1..]);
      OnlyTags(p, gs[1..]);
    }
  }

  /** Starting from a cursor that is not beyond the goal gives what starting from home gives: the same place,
      unless the cursor is at the goal already and a tag is right in front of it. */
  lemma {:induction false} SeekFromHome(done: seq<Glyph>, mid: seq<Glyph>, rest: seq<Glyph>, p: Pos, goal: Pos)
    requires NotBeyond(PosAfter(p, mid), goal) && p.col >= 0
    ensures Same(Seek(done + mid, rest, PosAfter(p, mid), goal), Seek(done, mid + rest, p, goal))
    ensures Seek(done + mid, rest, PosAfter(p, mid), goal) == Seek(done, mid + rest, p, goal)
      <==> PosAfter(p, mid) != goal || mid == [] || !Tag(mid[|mid| - 1])
    decreases |mid|
  {
    hide Visible;
    PassedIsAhead(p, mid);
    if Reached(p, goal) {
      assert Visible(mid) == [] by { OnlyTags(p, mid); }
      VisibleConcat(done, mid);
      assert Visible(done) + [] == Visible(done) && done + mid + rest == done + (mid + rest);
      assert mid != [] ==> Tag(mid[|mid| - 1]) by { LastIsTag(mid); }
      assert PosAfter(p, mid) == goal;
      assert if mid == [] then done + mid == done && mid + rest == rest else |done + mid| > |done|;
    } else if mid == [] {
      assert mid + rest == rest && done + mid == done;
    } else {
      var g := mid[0];
      PassedIsAhead(Next(p, g), mid[1..]);
      assert (mid + rest)[0] == g && (mid + rest)[1..] == mid[1..] + rest;
      SeekFromHome(done + [g], mid[1..], rest, Next(p, g), goal);
      assert done + [g] + mid[1..] == done + mid;
    }
  }

  lemma {:induction false} LastIsTag(gs: seq<Glyph>)
    requires Visible(gs) == []
    ensures gs != [] ==> Tag(gs[|gs| - 1])
    decreases |gs|
  {
    if gs == [] {
    } else {
      LastIsTag(gs[1..]);
    }
  }

  // ----- the ends of spans behind the cursor

  /** The cursor moved out of all the spans that end at it. */
  function Slide(before: seq<Glyph>, after: seq<Glyph>): (seq<Glyph>, seq<Glyph>)
    decreases |after|
  {
    if after != [] && after[0] == Shut then Slide(before + [Shut], after[1..]) else (before, after)
  }

  /** The same place up to the ends of spans. */
  predicate Near(a: (seq<Glyph>, seq<Glyph>), b: (seq<Glyph>, seq<Glyph>)) { Slide(a.0, a.1) == Slide(b.0, b.1) }

  lemma {:induction false} SlideSame(before: seq<Glyph>, after: seq<Glyph>)
    ensures Same(Slide(before, after), (before, after))
    decreases |after|
  {
    hide Visible;
    if after != [] && after[0] == Shut {
      SlideSame(before + [Shut], after[1..]);
      assert before + [Shut] + after[1..] == before + after;
      VisibleConcat(before, [Shut]);
      assert Visible([Shut]) == [] by { ShutUnseen(); }
      assert Visible(before) + [] == Visible(before);
    }
  }

  lemma ShutUnseen()
    ensures Visible([Shut]) == []
  {
    assert [Shut][1..] == [];
  }

  lemma NearIsSame(a: (seq<Glyph>, seq<Glyph>), b: (seq<Glyph>, seq<Glyph>))
    requires Near(a, b)
    ensures Same(a, b)
  {
    SlideSame(a.0, a.1);
    SlideSame(b.0, b.1);
  }

  // ----- steps of the walk

  lemma PassTag(done: seq<Glyph>, t: Glyph, rest: seq<Glyph>, p: Pos, goal: Pos)
    requires Tag(t) && !Reached(p, goal)
    ensures Seek(done + [t], rest, p, goal) == Seek(done, [t] + rest, p, goal)
  {
    hide NewLines, Spaces;
    var all := [t] + rest;
    assert all[0] == t && all[1..] == rest;
  }

  lemma PassShut(done: seq<Glyph>, rest: seq<Glyph>, p: Pos, goal: Pos)
    ensures Near(Seek(done + [Shut], rest, p, goal), Seek(done, [Shut] + rest, p, goal))
  {
    hide NewLines, Spaces;
    var all := [Shut] + rest;
    assert all[0] == Shut && all[1..] == rest;
  }

  lemma SkipBreak(done: seq<Glyph>, id: nat, rest: seq<Glyph>, p: Pos, goal: Pos)
    requires !Reached(p, goal) && p.line != goal.line
    ensures Seek(done, [Br(id)] + rest, p, goal) == Seek(done + [Br(id)], rest, Pos(p.line + 1, 0), goal)
  {
    hide Spaces, NewLines;
    var all := [Br(id)] + rest;
    assert all != [] && all[0] == Br(id) && all[1..] == rest && Next(p, Br(id)) == Pos(p.line + 1, 0);
  }

  lemma StopAtBreak(done: seq<Glyph>, id: nat, rest: seq<Glyph>, p: Pos, goal: Pos)
    requires !Reached(p, goal) && p.line == goal.line
    ensures Seek(done, [Br(id)] + rest, p, goal) == (done + Spaces(goal.col - p.col), [Br(id)] + rest)
  {
  }

  lemma EndOfDocument(done: seq<Glyph>, rest: seq<Glyph>, p: Pos, goal: Pos)
    requires rest == []
    ensures Seek(done, rest, p, goal) == (done + NewLines(goal.line - p.line) + Spaces(goal.col - p.col), [])
  {
    var n, m := NewLines(goal.line - p.line), Spaces(goal.col - p.col);
    if Reached(p, goal) { assert n == [] && m == [] && done + n + m == done; }
  }
}
