/** `moveTo` on the document tree. The tree is kept open at the input line: the siblings on its two sides, and
    for every enclosing span up to the cursor home the siblings on its two sides. */
module MoveTo {
  import opened EscapeParser
  import opened Sequences
  import opened Dom
  import opened CursorMotion

  /** An enclosing span, with what precedes and follows it in its parent. */
  datatype Span = Span(left: seq<Node>, id: nat, right: seq<Node>)

  // ----- reading order

  function Letters(s: string): seq<Glyph> { seq(|s|, i requires 0 <= i < |s| => Ch(s[i])) }

  function Glyphs(n: Node): seq<Glyph>
    decreases n, 1
  {
    match n
    case TextNode(_, s) => Letters(s)
    case Break(id) => [Br(id)]
    case Elem(id, _, kids) => [Open(id)] + GlyphsOf(kids) + [Shut]
  }

  function GlyphsOf(ns: seq<Node>): seq<Glyph>
    decreases ns, 0
  {
    if ns == [] then [] else Glyphs(ns[0]) + GlyphsOf(ns[1..])
  }

  /** What is in front of the cursor and behind it; `path` lists the enclosing spans, innermost first. */
  function BeforeCursor(path: seq<Span>, left: seq<Node>): seq<Glyph>
    decreases |path|
  {
    (if path == [] then [] else BeforeCursor(path[1..], path[0].left) + [Open(path[0].id)]) + GlyphsOf(left)
  }

  function AfterCursor(path: seq<Span>, right: seq<Node>): seq<Glyph>
    decreases |path|
  {
    GlyphsOf(right) + (if path == [] then [] else [Shut] + AfterCursor(path[1..], path[0].right))
  }

  /** The children of the cursor home, closed up again. */
  function Close(path: seq<Span>, kids: seq<Node>): seq<Node>
    decreases |path|
  {
    if path == [] then kids else Close(path[1..], path[0].left + [Elem(path[0].id, false, kids)] + path[0].right)
  }

  lemma {:induction false} GlyphsConcat(a: seq<Node>, b: seq<Node>)
    ensures GlyphsOf(a + b) == GlyphsOf(a) + GlyphsOf(b)
    decreases |a|
  {
    if a == [] {
      assert a + b == b;
    } else {
      GlyphsConcat(a[1..], b);
      assert (a + b)[1..] == a[1..] + b;
      assert Glyphs(a[0]) + (GlyphsOf(a[1..]) + GlyphsOf(b)) == GlyphsOf(a) + GlyphsOf(b);
    }
  }

  lemma GlyphsOne(n: Node)
    ensures GlyphsOf([n]) == Glyphs(n)
  {
    assert [n][1..] == [];
  }

  lemma GlyphsAppend(ns: seq<Node>, n: Node)
    ensures GlyphsOf(ns + [n]) == GlyphsOf(ns) + Glyphs(n)
  {
    GlyphsConcat(ns, [n]);
    GlyphsOne(n);
  }

  lemma LettersConcat(a: string, b: string)
    ensures Letters(a + b) == Letters(a) + Letters(b)
  {
  }

  /** Closing the document up again neither loses nor reorders anything. */
  lemma {:induction false} CloseGlyphs(path: seq<Span>, left: seq<Node>, right: seq<Node>)
    ensures GlyphsOf(Close(path, left + right)) == BeforeCursor(path, left) + AfterCursor(path, right)
    decreases |path|
  {
    hide GlyphsOf, BeforeCursor, AfterCursor;
    if path == [] {
      CloseHome(left, right);
    } else {
      var s := path[0];
      CloseGlyphs(path[1..], s.left + [Elem(s.id, false, left + right)], s.right);
      CloseOne(path, left, right);
    }
  }

  lemma CloseHome(left: seq<Node>, right: seq<Node>)
    ensures GlyphsOf(left + right) == BeforeCursor([], left) + AfterCursor([], right)
  {
    hide GlyphsOf;
    GlyphsConcat(left, right);
    assert [] + GlyphsOf(left) == GlyphsOf(left) && GlyphsOf(right) + [] == GlyphsOf(right);
  }

  lemma CloseOne(path: seq<Span>, left: seq<Node>, right: seq<Node>)
    requires path != []
    ensures var s := path[0];
      BeforeCursor(path[1..], s.left + [Elem(s.id, false, left + right)]) + AfterCursor(path[1..], s.right)
        == BeforeCursor(path, left) + AfterCursor(path, right)
  {
    hide GlyphsOf, BeforeCursor, AfterCursor;
    var s := path[0];
    var elem := Elem(s.id, false, left + right);
    PassNode(path[1..], s.left, elem, s.right);
    GlyphsConcat(left, right);
    SplitSpan(path, left, right);
    var b, l, r, a := BeforeCursor(path[1..], s.left), GlyphsOf(left), GlyphsOf(right), AfterCursor(path[1..], s.right);
    assert Glyphs(elem) == [Open(s.id)] + (l + r) + [Shut];
    assert b + ([Open(s.id)] + (l + r) + [Shut]) + a == (b + [Open(s.id)] + l) + (r + ([Shut] + a));
  }

  lemma SplitSpan(path: seq<Span>, left: seq<Node>, right: seq<Node>)
    requires path != []
    ensures BeforeCursor(path, left) == BeforeCursor(path[1..], path[0].left) + [Open(path[0].id)] + GlyphsOf(left)
    ensures AfterCursor(path, right) == GlyphsOf(right) + ([Shut] + AfterCursor(path[1..], path[0].right))
  {
  }

  /** Every text of the document consists of one-column characters and line ends, and its elements below the
      cursor home are spans. */
  predicate Plain1(n: Node)
    decreases n, 1
  {
    match n
    case TextNode(_, s) => forall i :: 0 <= i < |s| ==> OneColumn(s[i])
    case Break(_) => true
    case Elem(_, block, kids) => !block && PlainAll(kids)
  }

  predicate PlainAll(ns: seq<Node>)
    decreases ns, 0
  {
    ns == [] || (Plain1(ns[0]) && PlainAll(ns[1..]))
  }

  predicate PlainPath(path: seq<Span>) {
    forall i :: 0 <= i < |path| ==> PlainAll(path[i].left) && PlainAll(path[i].right)
  }

  lemma {:induction false} PlainConcat(a: seq<Node>, b: seq<Node>)
    ensures PlainAll(a + b) <==> PlainAll(a) && PlainAll(b)
    decreases |a|
  {
    if a == [] {
      assert a + b == b;
    } else {
      PlainConcat(a[1..], b);
      assert (a + b)[1..] == a[1..] + b;
    }
  }

  lemma PlainOne(n: Node)
    ensures PlainAll([n]) <==> Plain1(n)
  {
    assert [n][1..] == [];
  }

  // ----- empty text nodes

  function Empties(n: Node): nat
    decreases n, 1
  {
    match n
    case TextNode(_, s) => if s == "" then 1 else 0
    case Break(_) => 0
    case Elem(_, _, kids) => EmptiesIn(kids)
  }

  function EmptiesIn(ns: seq<Node>): nat
    decreases ns, 0
  {
    if ns == [] then 0 else Empties(ns[0]) + EmptiesIn(ns[1..])
  }

  function EmptiesAround(path: seq<Span>): nat {
    if path == [] then 0 else EmptiesIn(path[0].left) + EmptiesIn(path[0].right) + EmptiesAround(path[1..])
  }

  lemma {:induction false} EmptiesConcat(a: seq<Node>, b: seq<Node>)
    ensures EmptiesIn(a + b) == EmptiesIn(a) + EmptiesIn(b)
    decreases |a|
  {
    if a == [] {
      assert a + b == b;
    } else {
      EmptiesConcat(a[1..], b);
      assert (a + b)[1..] == a[1..] + b;
    }
  }

  lemma EmptiesAppend(ns: seq<Node>, n: Node, rest: seq<Node>)
    ensures EmptiesIn(ns + [n]) == EmptiesIn(ns) + Empties(n)
    ensures EmptiesIn([n] + rest) == Empties(n) + EmptiesIn(rest)
  {
    EmptiesConcat(ns, [n]);
    assert [n][1..] == [] && ([n] + rest)[1..] == rest;
  }

  lemma {:induction false} CloseEmpties(path: seq<Span>, kids: seq<Node>)
    ensures EmptiesIn(Close(path, kids)) == EmptiesIn(kids) + EmptiesAround(path)
    decreases |path|
  {
    hide EmptiesIn;
    if path == [] {
    } else {
      var s := path[0];
      var elem := Elem(s.id, false, kids);
      CloseEmpties(path[1..], s.left + [elem] + s.right);
      EmptiesConcat(s.left + [elem], s.right);
      EmptiesAppend(s.left, elem, []);
    }
  }

  /** A cursor with a sibling behind it, in a document without empty text nodes, is out of all the spans that
      end there. */
  lemma OutOfEndedSpans(path: seq<Span>, left: seq<Node>, right: seq<Node>)
    requires (right != [] || path == []) && EmptiesIn(right) == 0
    ensures var before, after := BeforeCursor(path, left), AfterCursor(path, right);
      Slide(before, after) == (before, after)
  {
    hide BeforeCursor;
    if right != [] {
      var n := right[0];
      assert Empties(n) == 0;
      assert Glyphs(n) != [] && Glyphs(n)[0] != Shut;
      assert AfterCursor(path, right)[0] == Glyphs(n)[0];
    }
  }

  // ----- termination of the walk

  function Weight(n: Node): nat
    decreases n, 1
  {
    if n.Elem? then 2 + WeightOf(n.kids) else 1
  }

  function WeightOf(ns: seq<Node>): nat
    decreases ns, 0
  {
    if ns == [] then 0 else Weight(ns[0]) + WeightOf(ns[1..])
  }

  function Ahead(path: seq<Span>, right: seq<Node>): nat
    decreases |path|
  {
    WeightOf(right) + if path == [] then 0 else 1 + Ahead(path[1..], path[0].right)
  }

  // ----- steps of the walk, as they move the cursor over glyphs

  lemma PassNode(path: seq<Span>, left: seq<Node>, n: Node, rest: seq<Node>)
    ensures BeforeCursor(path, left + [n]) == BeforeCursor(path, left) + Glyphs(n)
    ensures AfterCursor(path, [n] + rest) == Glyphs(n) + AfterCursor(path, rest)
  {
    hide GlyphsOf, Glyphs;
    GlyphsAppend(left, n);
    GlyphsConcat([n], rest);
    GlyphsOne(n);
    var up := if path == [] then [] else BeforeCursor(path[1..], path[0].left) + [Open(path[0].id)];
    assert up + (GlyphsOf(left) + Glyphs(n)) == up + GlyphsOf(left) + Glyphs(n);
    var down := if path == [] then [] else [Shut] + AfterCursor(path[1..], path[0].right);
    assert (Glyphs(n) + GlyphsOf(rest)) + down == Glyphs(n) + (GlyphsOf(rest) + down);
  }

  lemma EnterSpan(path: seq<Span>, left: seq<Node>, id: nat, kids: seq<Node>, rest: seq<Node>)
    ensures var inner := [Span(left, id, rest)] + path;
      && BeforeCursor(inner, []) == BeforeCursor(path, left) + [Open(id)]
      && AfterCursor(path, [Elem(id, false, kids)] + rest) == [Open(id)] + AfterCursor(inner, kids)
  {
    hide GlyphsOf, BeforeCursor, AfterCursor;
    var inner := [Span(left, id, rest)] + path;
    var elem := Elem(id, false, kids);
    assert inner[1..] == path;
    SplitSpan(inner, [], kids);
    PassNode(path, left, elem, rest);
    assert GlyphsOf([]) == [] by { NoGlyphs(); }
    var k, a := GlyphsOf(kids), AfterCursor(path, rest);
    assert Glyphs(elem) == [Open(id)] + k + [Shut];
    assert [Open(id)] + k + [Shut] + a == [Open(id)] + (k + ([Shut] + a));
    assert BeforeCursor(path, left) + [Open(id)] + [] == BeforeCursor(path, left) + [Open(id)];
  }

  lemma EnterSpanAhead(path: seq<Span>, left: seq<Node>, id: nat, kids: seq<Node>, rest: seq<Node>)
    ensures Ahead([Span(left, id, rest)] + path, kids) < Ahead(path, [Elem(id, false, kids)] + rest)
  {
    var inner := [Span(left, id, rest)] + path;
    var elem := Elem(id, false, kids);
    assert inner[1..] == path && ([elem] + rest)[0] == elem && ([elem] + rest)[1..] == rest;
    assert WeightOf([elem] + rest) == Weight(elem) + WeightOf(rest);
  }

  lemma LeaveSpan(path: seq<Span>, left: seq<Node>)
    requires path != []
    ensures var s := path[0];
      && BeforeCursor(path[1..], s.left + [Elem(s.id, false, left)]) == BeforeCursor(path, left) + [Shut]
      && AfterCursor(path, []) == [Shut] + AfterCursor(path[1..], s.right)
      && Ahead(path[1..], s.right) < Ahead(path, [])
  {
    hide GlyphsOf, BeforeCursor, AfterCursor;
    var s := path[0];
    var elem := Elem(s.id, false, left);
    PassNode(path[1..], s.left, elem, []);
    SplitSpan(path, left, []);
    assert GlyphsOf([]) == [] by { NoGlyphs(); }
    var b, l := BeforeCursor(path[1..], s.left), GlyphsOf(left);
    assert Glyphs(elem) == [Open(s.id)] + l + [Shut];
    assert b + ([Open(s.id)] + l + [Shut]) == b + [Open(s.id)] + l + [Shut];
  }

  lemma NoGlyphs()
    ensures GlyphsOf([]) == []
  {
  }

  // ----- text

  predicate PlainText(s: string) { forall i :: 0 <= i < |s| ==> OneColumn(s[i]) }

  function Repeated(c: char, n: int): string { seq(if n > 0 then n else 0, _ => c) }

  lemma RepeatedGlyphs(n: int)
    ensures Letters(Repeated(' ', n)) == Spaces(n) && Letters(Repeated('\n', n)) == NewLines(n)
    ensures PlainText(Repeated(' ', n)) && PlainText(Repeated('\n', n))
  {
  }

  /** A line end on the goal line, at `i`: blanks in front of it bring the cursor to the goal. */
  lemma PadText(text: string, i: nat, q: Pos, goal: Pos, done: seq<Glyph>, tail: seq<Glyph>)
    requires i < |text| && PlainText(text) && q.line == goal.line && 0 <= q.col < goal.col
    requires UpdateColumn(text[i], q.col) == -1
    ensures var n := goal.col - q.col;
      var padded := text[..i] + Repeated(' ', n) + text[i..];
      && |padded| == |text| + n && PlainText(padded)
      && Seek(done + Letters(padded[..i + n]), Letters(padded[i + n..]) + tail, goal, goal)
        == Seek(done + Letters(text[..i]), Letters(text[i..]) + tail, q, goal)
  {
    assert OneColumn(text[i]);
    var n, was := goal.col - q.col, text[..i];
    var padded := was + Repeated(' ', n) + text[i..];
    var before, rest := done + Letters(was), Letters(text[i..]) + tail;
    assert rest[0] == Ch(text[i]);
    RepeatedGlyphs(n);
    assert padded[..i + n] == was + Repeated(' ', n) && padded[i + n..] == text[i..];
    LettersConcat(was, Repeated(' ', n));
    assert done + (Letters(was) + Spaces(n)) == before + Spaces(n);
  }

  lemma LettersAt(text: string, i: nat, tail: seq<Glyph>)
    requires i < |text|
    ensures Letters(text[..i + 1]) == Letters(text[..i]) + [Ch(text[i])]
    ensures Letters(text[i..]) + tail == [Ch(text[i])] + (Letters(text[i + 1..]) + tail)
  {
  }

  lemma NextLetter(q: Pos, c: char)
    requires OneColumn(c) && q.col >= 0
    ensures var col := UpdateColumn(c, q.col);
      Next(q, Ch(c)) == if col == -1 then Pos(q.line + 1, 0) else Pos(q.line, col)
    ensures EndsLine(Ch(c)) <==> UpdateColumn(c, q.col) == -1
  {
  }

  /** Any other character: the cursor passes it. */
  lemma PassLetter(text: string, i: nat, q: Pos, goal: Pos, done: seq<Glyph>, tail: seq<Glyph>)
    requires i < |text| && PlainText(text) && q.col >= 0 && !Reached(q, goal)
    requires UpdateColumn(text[i], q.col) != -1 || q.line != goal.line
    ensures var col := UpdateColumn(text[i], q.col);
      var next := if col == -1 then Pos(q.line + 1, 0) else Pos(q.line, col);
      Seek(done + Letters(text[..i + 1]), Letters(text[i + 1..]) + tail, next, goal)
        == Seek(done + Letters(text[..i]), Letters(text[i..]) + tail, q, goal)
  {
    hide Seek, Letters, UpdateColumn, Next, EndsLine, OneColumn;
    var before, after, c := Letters(text[..i]), Letters(text[i + 1..]) + tail, Ch(text[i]);
    assert OneColumn(text[i]);
    NextLetter(q, text[i]);
    LettersAt(text, i, tail);
    assert ([c] + after)[0] == c && ([c] + after)[1..] == after;
    SeekPasses(done + before, [c] + after, q, goal);
    Assoc(done, before, [c]);
  }

  /** The `for` loop over a text node: it scans from `start`, pads in front of a line end on the goal line, and
      stops where the node has to be split. `done` and `tail` are the glyphs around the node. */
  method WalkText(data: string, start: nat, p: Pos, goal: Pos, ghost done: seq<Glyph>, ghost tail: seq<Glyph>)
      returns (text: string, i: nat, q: Pos)
    requires start <= |data| && PlainText(data) && p.col >= 0 && goal.col >= 0 && NotBeyond(p, goal)
    ensures i <= |text| && PlainText(text) && q.col >= 0 && NotBeyond(q, goal) && (i == |text| || q == goal)
    ensures start < |data| && p != goal ==> start < i
    ensures Seek(done + Letters(text[..i]), Letters(text[i..]) + tail, q, goal)
      == Seek(done + Letters(data[..start]), Letters(data[start..]) + tail, p, goal)
  {
    hide Letters, Seek, Repeated;
    text, i, q := data, start, p;
    while i < |text| && !Reached(q, goal)
      invariant i <= |text| && PlainText(text) && q.col >= 0 && NotBeyond(q, goal)
      invariant start < i || (i == start && q == p && text == data)
      invariant Seek(done + Letters(text[..i]), Letters(text[i..]) + tail, q, goal)
        == Seek(done + Letters(data[..start]), Letters(data[start..]) + tail, p, goal)
      decreases !Reached(q, goal), |text| - i
    {
      var col := UpdateColumn(text[i], q.col);
      if col == -1 && q.line == goal.line {
        var n := goal.col - q.col;
        PadText(text, i, q, goal, done, tail);
        text := text[..i] + Repeated(' ', n) + text[i..];
        i, q := i + n, Pos(q.line, goal.col);
      } else {
        PassLetter(text, i, q, goal, done, tail);
        q := if col == -1 then Pos(q.line + 1, 0) else Pos(q.line, col);
        i := i + 1;
      }
    }
  }

  /** `appendText`: extend a trailing text node, or add one. */
  function AppendText(ns: seq<Node>, s: string, id: nat): seq<Node> {
    if s == "" then ns
    else if ns != [] && ns[|ns| - 1].TextNode? then ns[..|ns| - 1] + [TextNode(ns[|ns| - 1].id, ns[|ns| - 1].data + s)]
    else ns + [TextNode(id, s)]
  }

  lemma AppendTextGlyphs(ns: seq<Node>, s: string, id: nat)
    requires PlainText(s) && PlainAll(ns)
    ensures GlyphsOf(AppendText(ns, s, id)) == GlyphsOf(ns) + Letters(s) && PlainAll(AppendText(ns, s, id))
  {
    hide GlyphsOf, PlainAll;
    if s != "" {
      if ns != [] && ns[|ns| - 1].TextNode? {
        var init, last := ns[..|ns| - 1], ns[|ns| - 1];
        var next := TextNode(last.id, last.data + s);
        assert ns == init + [last];
        GlyphsAppend(init, last);
        GlyphsAppend(init, next);
        LettersConcat(last.data, s);
        assert GlyphsOf(init) + (Letters(last.data) + Letters(s)) == GlyphsOf(init) + Letters(last.data) + Letters(s);
        PlainConcat(init, [last]);
        PlainConcat(init, [next]);
        PlainOne(last);
        PlainOne(next);
      } else {
        GlyphsAppend(ns, TextNode(id, s));
        PlainConcat(ns, [TextNode(id, s)]);
        PlainOne(TextNode(id, s));
      }
    } else {
      assert GlyphsOf(ns) + [] == GlyphsOf(ns);
    }
  }

  lemma AppendTextEmpties(ns: seq<Node>, s: string, id: nat)
    ensures EmptiesIn(AppendText(ns, s, id)) <= EmptiesIn(ns)
  {
    hide EmptiesIn;
    if s != "" {
      if ns != [] && ns[|ns| - 1].TextNode? {
        var init, last := ns[..|ns| - 1], ns[|ns| - 1];
        assert ns == init + [last];
        EmptiesAppend(init, last, []);
        EmptiesAppend(init, TextNode(last.id, last.data + s), []);
      } else {
        EmptiesAppend(ns, TextNode(id, s), []);
      }
    }
  }

  lemma AppendBefore(path: seq<Span>, left: seq<Node>, s: string, id: nat)
    requires PlainText(s) && PlainAll(left)
    ensures BeforeCursor(path, AppendText(left, s, id)) == BeforeCursor(path, left) + Letters(s)
    ensures PlainAll(AppendText(left, s, id))
  {
    hide GlyphsOf, PlainAll, AppendText;
    AppendTextGlyphs(left, s, id);
    var up := if path == [] then [] else BeforeCursor(path[1..], path[0].left) + [Open(path[0].id)];
    assert up + (GlyphsOf(left) + Letters(s)) == up + GlyphsOf(left) + Letters(s);
  }

  // ----- the terminal's document and cursor

  class Screen {
    var path: seq<Span>       // the spans around the input line, innermost first
    var left: seq<Node>       // the siblings in front of the input line
    var right: seq<Node>      // the siblings behind it
    var currentCursorLine: int
    var currentCursorColumn: int
    var nextId: nat

    ghost predicate Valid()
      reads this
    {
      PlainAll(left) && PlainAll(right) && PlainPath(path)
    }

    ghost function Before(): seq<Glyph>
      reads this
    {
      BeforeCursor(path, left)
    }

    ghost function After(): seq<Glyph>
      reads this
    {
      AfterCursor(path, right)
    }

    /** The number of empty text nodes in the document. */
    ghost function EmptyTexts(): nat
      reads this
    {
      EmptiesIn(left) + EmptiesIn(right) + EmptiesAround(path)
    }

    ghost function Cache(): Pos
      reads this
    {
      Pos(currentCursorLine, currentCursorColumn)
    }

    /** The cached cursor is where the cursor is, or unknown. */
    ghost predicate CacheOk()
      reads this
    {
      currentCursorLine >= 0 && currentCursorColumn >= 0 ==> Cache() == PosAfter(HOME, Before())
    }

    /** Merge the text nodes in front of the current one into it. */
    method MergeText() returns (data: string, start: nat)
      requires Valid() && right != [] && right[0].TextNode?
      modifies this`left
      ensures Valid() && start <= |data| && PlainText(data) && data[start..] == right[0].data
      ensures Before() + Letters(data[..start]) == old(Before())
      ensures EmptiesIn(left) <= old(EmptiesIn(left))
    {
      hide GlyphsOf, BeforeCursor, EmptiesIn;
      assert Plain1(right[0]);
      data, start := right[0].data, 0;
      assert Letters(data[..0]) == [];
      while left != [] && left[|left| - 1].TextNode?
        invariant start <= |data| && PlainText(data) && data[start..] == right[0].data && PlainAll(left)
        invariant Before() + Letters(data[..start]) == old(Before())
        invariant EmptiesIn(left) <= old(EmptiesIn(left))
      {
        var init, last := left[..|left| - 1], left[|left| - 1];
        assert left == init + [last];
        PassNode(path, init, last, []);
        EmptiesAppend(init, last, []);
        PlainConcat(init, [last]);
        PlainOne(last);
        LettersConcat(last.data, data[..start]);
        assert (last.data + data)[..|last.data| + start] == last.data + data[..start];
        assert BeforeCursor(path, init) + (Letters(last.data) + Letters(data[..start])) == old(Before());
        data, start := last.data + data, |last.data| + start;
        left := init;
      }
    }

    /** A text node under the cursor: walk over it, and split it where the goal is reached. */
    method VisitText(p: Pos, goal: Pos) returns (q: Pos)
      requires Valid() && right != [] && right[0].TextNode?
      requires p.col >= 0 && goal.col >= 0 && NotBeyond(p, goal) && p != goal
      modifies this
      ensures Valid() && q.col >= 0 && NotBeyond(q, goal) && path == old(path)
          && unchanged(`currentCursorLine, `currentCursorColumn) && EmptyTexts() <= old(EmptyTexts())
      ensures Seek(Before(), After(), q, goal) == old(Seek(Before(), After(), p, goal))
      ensures Reached(q, goal) || Ahead(path, right) < old(Ahead(path, right))
    {
      hide GlyphsOf, BeforeCursor, AfterCursor, Seek, PlainAll, WeightOf, Letters, PlainText, EmptiesIn;
      var id, rest := right[0].id, right[1..];
      PassNode(path, left, right[0], rest);
      assert right == [right[0]] + rest;
      PlainConcat([right[0]], rest);
      AheadCons(path, right[0], rest);
      EmptiesAppend([], right[0], rest);
      var data, start := MergeText();
      ghost var done, tail := Before(), AfterCursor(path, rest);
      var text, i;
      text, i, q := WalkText(data, start, p, goal, done, tail);
      PlainSplit(text, i);
      var head := TextNode(id, text[..i]);
      PassNode(path, left, head, rest);
      EmptiesAppend(left, head, rest);
      PlainConcat(left, [head]);
      PlainOne(head);
      left, right := left + [head], rest;
      if i < |text| {
        var second := TextNode(nextId, text[i..]);
        PassNode(path, left, second, rest);
        EmptiesAppend(left, second, rest);
        PlainConcat([second], rest);
        PlainOne(second);
        right, nextId := [second] + rest, nextId + 1;
      } else {
        assert Letters(text[i..]) + tail == tail by { NoLetters(text[i..], tail); }
        assert text[..i] == text;
      }
    }

    /** Leave spans until there is a next sibling or the cursor home is reached. */
    method Climb(ghost p: Pos, ghost goal: Pos)
      requires Valid()
      modifies this`path, this`left, this`right
      ensures Valid() && Near(Seek(Before(), After(), p, goal), old(Seek(Before(), After(), p, goal)))
      ensures EmptyTexts() == old(EmptyTexts())
      ensures Ahead(path, right) <= old(Ahead(path, right)) && (right == [] ==> path == [])
      ensures if old(right == [] && path != []) then Ahead(path, right) < old(Ahead(path, right))
          else right == old(right)
    {
      hide GlyphsOf, BeforeCursor, AfterCursor, Ahead, Seek, Slide, EmptiesIn;
      while right == [] && path != []
        invariant Valid() && Near(Seek(Before(), After(), p, goal), old(Seek(Before(), After(), p, goal)))
        invariant EmptyTexts() == old(EmptyTexts())
        invariant if old(right == [] && path != []) && path != old(path)
          then Ahead(path, right) < old(Ahead(path, right))
          else path == old(path) && right == old(right)
        decreases |path|
      {
        var s := path[0];
        var elem := Elem(s.id, false, left);
        LeaveSpan(path, left);
        EmptiesAppend(s.left, elem, []);
        assert EmptiesIn([]) == 0 by { NoEmpties(); }
        PassShut(Before(), AfterCursor(path[1..], s.right), p, goal);
        PlainConcat(s.left, [elem]);
        PlainOne(elem);
        left, right, path := s.left + [elem], s.right, path[1..];
      }
    }

    /** At the end of the document: add the missing lines, then the missing columns. */
    method PadEnd(p: Pos, goal: Pos)
      requires Valid() && right == [] && path == []
      modifies this`left, this`nextId
      ensures Valid() && After() == [] && EmptyTexts() <= old(EmptyTexts())
      ensures Before() == old(Before()) + NewLines(goal.line - p.line) + Spaces(goal.col - p.col)
    {
      hide GlyphsOf, EmptiesIn, PlainAll, AppendText, Repeated, Letters;
      RepeatedGlyphs(goal.line - p.line);
      RepeatedGlyphs(goal.col - p.col);
      assert After() == [] by { NothingAhead(); }
      AppendBefore(path, left, Repeated('\n', goal.line - p.line), nextId);
      AppendTextEmpties(left, Repeated('\n', goal.line - p.line), nextId);
      left := AppendText(left, Repeated('\n', goal.line - p.line), nextId);
      AppendBefore(path, left, Repeated(' ', goal.col - p.col), nextId + 1);
      AppendTextEmpties(left, Repeated(' ', goal.col - p.col), nextId + 1);
      left := AppendText(left, Repeated(' ', goal.col - p.col), nextId + 1);
      nextId := nextId + 2;
    }

    /** A break under the cursor: on the goal line it stops the walk, after padding; else a line is passed. */
    method VisitBreak(p: Pos, goal: Pos) returns (q: Pos, stopped: bool)
      requires Valid() && right != [] && right[0].Break?
      requires p.col >= 0 && goal.col >= 0 && NotBeyond(p, goal) && p != goal
      modifies this
      ensures Valid() && q.col >= 0 && NotBeyond(q, goal) && unchanged(`currentCursorLine, `currentCursorColumn, `path)
      ensures stopped ==> q == goal && (Before(), After()) == old(Seek(Before(), After(), p, goal))
      ensures stopped ==> right == old(right)
      ensures !stopped ==> Seek(Before(), After(), q, goal) == old(Seek(Before(), After(), p, goal))
      ensures !stopped ==> Ahead(path, right) < old(Ahead(path, right))
      ensures EmptyTexts() <= old(EmptyTexts())
    {
      hide GlyphsOf, BeforeCursor, AfterCursor, Seek, Ahead, AppendText, Repeated, Letters, PlainAll, EmptiesIn;
      var n, rest := right[0], right[1..];
      ghost var before := Before();
      PassNode(path, left, n, rest);
      assert right == [n] + rest;
      if p.line == goal.line {
        RepeatedGlyphs(goal.col - p.col);
        AppendBefore(path, left, Repeated(' ', goal.col - p.col), nextId);
        AppendTextEmpties(left, Repeated(' ', goal.col - p.col), nextId);
        left, nextId := AppendText(left, Repeated(' ', goal.col - p.col), nextId), nextId + 1;
        StopAtBreak(before, n.id, AfterCursor(path, rest), p, goal);
        return goal, true;
      }
      AheadCons(path, n, rest);
      EmptiesAppend(left, n, rest);
      PlainConcat(left, [n]);
      PlainConcat([n], rest);
      PlainOne(n);
      SkipBreak(before, n.id, AfterCursor(path, rest), p, goal);
      q, stopped, left, right := Pos(p.line + 1, 0), false, left + [n], rest;
    }

    /** A span under the cursor: enter it, or pass it when it is empty. */
    method VisitSpan(p: Pos, goal: Pos)
      requires Valid() && right != [] && right[0].Elem? && !Reached(p, goal)
      modifies this`path, this`left, this`right
      ensures Valid() && Ahead(path, right) < old(Ahead(path, right)) && EmptyTexts() == old(EmptyTexts())
      ensures Seek(Before(), After(), p, goal) == old(Seek(Before(), After(), p, goal))
    {
      hide GlyphsOf, BeforeCursor, AfterCursor, Seek, Ahead, EmptiesIn;
      var n, rest := right[0], right[1..];
      EmptiesAppend(left, n, rest);
      ghost var before := Before();
      PassNode(path, left, n, rest);
      assert right == [n] + rest;
      assert Plain1(n) && n == Elem(n.id, false, n.kids);
      if n.kids != [] {
        EnterSpan(path, left, n.id, n.kids, rest);
        EnterSpanAhead(path, left, n.id, n.kids, rest);
        PassTag(before, Open(n.id), AfterCursor([Span(left, n.id, rest)] + path, n.kids), p, goal);
        EmptiesInside(path, left, n.id, rest);
        path, left, right := [Span(left, n.id, rest)] + path, [], n.kids;
      } else {
        AheadCons(path, n, rest);
        PlainConcat(left, [n]);
        PlainOne(n);
        PassEmpty(before, n.id, AfterCursor(path, rest), p, goal);
        left, right := left + [n], rest;
      }
    }

    /** One iteration of the main loop. */
    method Visit(p: Pos, goal: Pos) returns (q: Pos, stopped: bool)
      requires Valid() && p.col >= 0 && goal.col >= 0 && NotBeyond(p, goal) && p != goal
      modifies this
      ensures Valid() && q.col >= 0 && NotBeyond(q, goal) && unchanged(`currentCursorLine, `currentCursorColumn)
      ensures stopped ==> q == goal && Near((Before(), After()), old(Seek(Before(), After(), p, goal)))
      ensures stopped || Reached(q, goal) ==> right != [] || path == []
      ensures !stopped ==> Near(Seek(Before(), After(), q, goal), old(Seek(Before(), After(), p, goal)))
      ensures EmptyTexts() <= old(EmptyTexts())
      ensures stopped || Reached(q, goal) || Ahead(path, right) < old(Ahead(path, right))
    {
      hide GlyphsOf, BeforeCursor, AfterCursor, Seek, Ahead, PlainAll, Slide, EmptiesIn;
      q, stopped := p, false;
      if right != [] {
        match right[0] {
          case Break(_) =>
            q, stopped := VisitBreak(p, goal);
            if stopped { return; }
          case TextNode(_, _) => q := VisitText(p, goal);
          case Elem(_, _, kids) =>
            VisitSpan(p, goal);
            if kids != [] { return; }
        }
      }
      if right == [] {
        Climb(q, goal);
        if right == [] {
          assert After() == [] by { NothingAhead(); }
          EndOfDocument(Before(), After(), q, goal);
          PadEnd(q, goal);
          return goal, true;
        }
      }
    }

    /** The main loop, from a position at or in front of the goal. */
    method Move(start: Pos, goal: Pos)
      requires Valid() && start.col >= 0 && goal.col >= 0 && NotBeyond(start, goal)
      modifies this
      ensures Valid() && Cache() == goal
      ensures Near((Before(), After()), old(Seek(Before(), After(), start, goal)))
      ensures EmptyTexts() <= old(EmptyTexts())
      ensures if start == goal then unchanged(`path, `left, `right) else right != [] || path == []
    {
      hide GlyphsOf, BeforeCursor, AfterCursor, Ahead, PlainAll, Slide, EmptiesIn;
      var p, stopped := start, false;
      while !stopped && !Reached(p, goal)
        invariant Valid() && p.col >= 0 && NotBeyond(p, goal) && (stopped ==> p == goal)
        invariant stopped ==> Near((Before(), After()), old(Seek(Before(), After(), start, goal)))
        invariant !stopped ==> Near(Seek(Before(), After(), p, goal), old(Seek(Before(), After(), start, goal)))
        invariant EmptyTexts() <= old(EmptyTexts())
        invariant start == goal ==> !stopped && p == goal && unchanged(`path, `left, `right)
        invariant start != goal && (stopped || Reached(p, goal)) ==> right != [] || path == []
        decreases !(stopped || Reached(p, goal)), Ahead(path, right)
      {
        p, stopped := Visit(p, goal);
      }
      currentCursorLine, currentCursorColumn := p.line, p.col;
    }

    /** The whole operation: walk from the cached cursor when the goal is not in front of it, else from home. A
        cursor that is at the goal stays where it is. Otherwise the outcome is that of a walk from home either
        way, and the cursor is then moved out of the spans that end there, as far as there is no sibling behind
        it. The new cache is right exactly when the goal was reachable. */
    method MoveTo(goal: Pos)
      requires Valid() && CacheOk() && goal.line >= 0 && goal.col >= 0
      modifies this
      ensures Valid() && Cache() == goal && EmptyTexts() <= old(EmptyTexts())
      ensures Same((Before(), After()), Seek([], old(Before() + After()), HOME, goal))
      ensures if old(Cache()) == goal then unchanged(`path, `left, `right)
        else Near((Before(), After()), Seek([], old(Before() + After()), HOME, goal)) && (right != [] || path == [])
      ensures old(Cache()) != goal && old(EmptyTexts()) == 0 ==>
        var (before, after) := Seek([], old(Before() + After()), HOME, goal);
        (Before(), After()) == Slide(before, after)
      ensures CacheOk() <==> Reachable(old(Before() + After()), goal)
    {
      hide GlyphsOf, BeforeCursor, AfterCursor, Seek, PlainAll, PosAfter, Reachable, Visible, Slide, EmptiesIn;
      ghost var before, after := Before(), After();
      assert PosAfter(HOME, []) == HOME by { AtHome(); }
      SeekLands([], before + after, HOME, goal);
      assert [] + (before + after) == before + after && [] + before == before;
      var start := Pos(currentCursorLine, currentCursorColumn);
      if start.line >= 0 && start.col >= 0 && NotBeyond(start, goal) {
        SeekFromHome([], before, after, HOME, goal);
        ghost var sought := Seek(before, after, start, goal);
        Move(start, goal);
        NearIsSame((Before(), After()), sought);
      } else {
        CloseGlyphs(path, left, right);
        ClosePlain(path, left, right);
        EmptiesConcat(left, right);
        CloseEmpties(path, left + right);
        OpenGlyphs(Close(path, left + right));
        path, left, right := [], [], Close(path, left + right);
        Move(HOME, goal);
        NearIsSame((Before(), After()), Seek([], before + after, HOME, goal));
      }
      if old(Cache()) != goal && EmptiesIn(right) == 0 { OutOfEndedSpans(path, left, right); }
      OnlyVisibleCounts(HOME, Before());
      OnlyVisibleCounts(HOME, Seek([], before + after, HOME, goal).0);
    }
  }

  lemma EmptiesInside(path: seq<Span>, left: seq<Node>, id: nat, rest: seq<Node>)
    ensures EmptiesAround([Span(left, id, rest)] + path) == EmptiesIn(left) + EmptiesIn(rest) + EmptiesAround(path)
    ensures EmptiesIn([]) == 0
  {
    assert ([Span(left, id, rest)] + path)[1..] == path;
  }

  lemma NoEmpties()
    ensures EmptiesIn([]) == 0
  {
  }

  lemma PassEmpty(done: seq<Glyph>, id: nat, rest: seq<Glyph>, p: Pos, goal: Pos)
    requires !Reached(p, goal)
    ensures Seek(done + Glyphs(Elem(id, false, [])), rest, p, goal)
      == Seek(done, Glyphs(Elem(id, false, [])) + rest, p, goal)
  {
    hide Seek;
    assert Glyphs(Elem(id, false, [])) == [Open(id)] + [Shut];
    assert [Open(id)] + [Shut] + rest == [Open(id)] + ([Shut] + rest);
    PassTag(done, Open(id), [Shut] + rest, p, goal);
    PassTag(done + [Open(id)], Shut, rest, p, goal);
    assert done + [Open(id)] + [Shut] == done + ([Open(id)] + [Shut]);
  }

  lemma AtHome()
    ensures PosAfter(HOME, []) == HOME
  {
  }

  lemma OpenGlyphs(kids: seq<Node>)
    ensures BeforeCursor([], []) == [] && AfterCursor([], kids) == GlyphsOf(kids)
    ensures PlainAll([]) && PlainPath([]) && EmptiesIn([]) == 0
  {
  }

  lemma {:induction false} ClosePlain(path: seq<Span>, left: seq<Node>, right: seq<Node>)
    requires PlainPath(path) && PlainAll(left) && PlainAll(right)
    ensures PlainAll(Close(path, left + right))
    decreases |path|
  {
    hide PlainAll;
    PlainConcat(left, right);
    if path == [] {
    } else {
      var s := path[0];
      var elem := Elem(s.id, false, left + right);
      PlainOne(elem);
      PlainConcat(s.left, [elem]);
      ClosePlain(path[1..], s.left + [elem], s.right);
    }
  }

  lemma NothingAhead()
    ensures AfterCursor([], []) == []
  {
  }

  lemma NoLetters(s: string, tail: seq<Glyph>)
    requires s == ""
    ensures Letters(s) + tail == tail
  {
  }

  lemma AheadCons(path: seq<Span>, n: Node, rest: seq<Node>)
    ensures Ahead(path, rest) < Ahead(path, [n] + rest)
    ensures n.TextNode? ==> Ahead(path, [n] + rest) == Ahead(path, rest) + 1
  {
    assert ([n] + rest)[0] == n && ([n] + rest)[1..] == rest;
    assert WeightOf([n] + rest) == Weight(n) + WeightOf(rest);
  }

  lemma PlainSplit(text: string, i: nat)
    requires PlainText(text) && i <= |text|
    ensures PlainText(text[..i]) && PlainText(text[i..])
  {
  }
}
