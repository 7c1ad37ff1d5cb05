/** The part of the document the terminal works on, and where the cursor is in it. */
module Dom {
  import opened EscapeParser

  datatype Node =
    | TextNode(id: nat, data: string)
    | Break(id: nat)
    | Elem(id: nat, block: bool, kids: seq<Node>)

  datatype Pos = Pos(line: int, col: int)

  // ----- the reference: a fold over the flattened document

  /** A document in reading order. `Mark` shows where each node starts. */
  datatype Token = Mark(id: nat) | Chars(s: string) | NewLine

  function Flatten(n: Node): seq<Token>
    decreases n, 1
  {
    match n
    case TextNode(id, s) => [Mark(id), Chars(s)]
    case Break(id) => [Mark(id), NewLine]
    case Elem(id, block, kids) => [Mark(id)] + FlattenAll(kids) + (if block then [NewLine] else [])
  }

  function FlattenAll(ns: seq<Node>): seq<Token>
    decreases ns, 0
  {
    if ns == [] then [] else Flatten(ns[0]) + FlattenAll(ns[1..])
  }

  /** One character of a text node; a CR LF pair in it is one line end. */
  function ScanChar(width: int, p: Pos, s: string, i: nat): (Pos, nat)
    requires i < |s|
  {
    var col := UpdateColumn(s[i], p.col);
    if col > width then (Pos(p.line + 1, UpdateColumn(s[i], 0)), i + 1)
    else if col == -1 then
      (Pos(p.line + 1, 0), if s[i] == '\r' && i + 1 < |s| && s[i + 1] == '\n' then i + 2 else i + 1)
    else (Pos(p.line, col), i + 1)
  }

  function ScanText(width: int, p: Pos, s: string, i: nat): Pos
    requires i <= |s|
    decreases |s| - i
  {
    if i == |s| then p
    else
      var (q, j) := ScanChar(width, p, s, i);
      ScanText(width, q, s, j)
  }

  function ScanToken(width: int, p: Pos, t: Token): Pos {
    match t
    case Mark(_) => p
    case Chars(s) => ScanText(width, p, s, 0)
    case NewLine => Pos(p.line + 1, 0)
  }

  function Scan(width: int, p: Pos, ts: seq<Token>): Pos
    decreases |ts|
  {
    if ts == [] then p else Scan(width, ScanToken(width, p, ts[0]), ts[1..])
  }

  /** The tokens in front of a node, or all of them when it is not there. */
  function Before(ts: seq<Token>, stop: nat): seq<Token> {
    if ts == [] || ts[0] == Mark(stop) then [] else [ts[0]] + Before(ts[1..], stop)
  }

  /** One printing character, not a zero width space. */
  predicate Printing(ch: char) { ch >= ' ' && ch != ZERO_WIDTH_SPACE }

  /** Text without line ends fills the lines: `width` columns to a line, counted on from where it starts. */
  lemma {:induction false} TextFillsLines(width: int, p: Pos, s: string, i: nat)
    requires i <= |s| && 0 <= p.col <= width && width >= 1 && forall j :: i <= j < |s| ==> Printing(s[j])
    ensures var r := ScanText(width, p, s, i);
      if i == |s| then r == p
      else 1 <= r.col <= width && (r.line - p.line) * width + r.col == p.col + (|s| - i)
    decreases |s| - i
  {
    if i == |s| {
    } else {
      var (q, j) := ScanChar(width, p, s, i);
      assert j == i + 1 && 1 <= q.col <= width && (q.line - p.line) * width + q.col == p.col + 1;
      TextFillsLines(width, q, s, j);
      var r := ScanText(width, q, s, j);
      assert (r.line - p.line) * width == (r.line - q.line) * width + (q.line - p.line) * width;
    }
  }

  /** LF, CR, FF, and CR LF as one, start a new line; a tab goes to the next multiple of eight, or to column 8 of the
      next line; a zero width space stays. */
  lemma SpecialCharacters(width: int, p: Pos, s: string, i: nat)
    requires i < |s| && 0 <= p.col <= width
    ensures var (q, j) := ScanChar(width, p, s, i);
      && (s[i] == 10 as char || s[i] == 12 as char ==> q == Pos(p.line + 1, 0) && j == i + 1)
      && (s[i] == 13 as char ==>
            q == Pos(p.line + 1, 0) && j == (if i + 1 < |s| && s[i + 1] == 10 as char then i + 2 else i + 1))
      && (s[i] == 9 as char ==>
            var stop := p.col / 8 * 8 + 8;
            j == i + 1 && q == if stop <= width then Pos(p.line, stop) else Pos(p.line + 1, 8))
      && (s[i] == 0x200B as char ==> q == p && j == i + 1)
  {
  }

  // ----- delta2D: positions packed into a Java long

  /** `lines << 32 | columns << 1 | stopSeen`. */
  function Pack(p: Pos, seen: bool): int {
    p.line * 0x1_0000_0000 + 2 * p.col + if seen then 1 else 0
  }

  /** `(int) (delta >> 32)` and `((int) delta) >> 1`. */
  function LineOf(delta: int): int { JavaInt(delta / 0x1_0000_0000) }
  function ColOf(delta: int): int { JavaInt(delta % 0x1_0000_0000) / 2 }

  predicate Odd(delta: int) { delta % 2 != 0 }

  function Delta2D(width: int, n: Node, delta: int, stop: nat): int
    decreases n, 1
  {
    if n.id == stop then (if Odd(delta) then delta else delta + 1)
    else
      match n
      case TextNode(_, s) => Pack(ScanText(width, Pos(LineOf(delta), ColOf(delta)), s, 0), false)
      case Break(_) => (delta / 0x1_0000_0000 + 1) * 0x1_0000_0000
      case Elem(_, block, kids) =>
        var (d, seen) := Delta2DAll(width, kids, delta, stop);
        if seen || !block then d else (d / 0x1_0000_0000 + 1) * 0x1_0000_0000
  }

  /** The loop over the children, which returns as soon as the stop node has been seen. */
  function Delta2DAll(width: int, ns: seq<Node>, delta: int, stop: nat): (int, bool)
    decreases ns, 0
  {
    if ns == [] then (delta, false)
    else
      var d := Delta2D(width, ns[0], delta, stop);
      if Odd(d) then (d, true) else Delta2DAll(width, ns[1..], d, stop)
  }

  // ----- exactness

  /** Columns below 2^30 and lines below 2^31: the positions that can be packed and unpacked. */
  predicate InRange(p: Pos) { 0 <= p.line < 0x8000_0000 && 0 <= p.col < 0x4000_0000 }

  /** Every position the fold passes between tokens is in range. */
  predicate AllInRange(width: int, p: Pos, ts: seq<Token>)
    decreases |ts|
  {
    InRange(p) && (ts != [] ==> AllInRange(width, ScanToken(width, p, ts[0]), ts[1..]))
  }

  lemma UnpackExact(p: Pos)
    requires InRange(p)
    ensures LineOf(Pack(p, false)) == p.line && ColOf(Pack(p, false)) == p.col
    ensures (Pack(p, false) / 0x1_0000_0000 + 1) * 0x1_0000_0000 == Pack(Pos(p.line + 1, 0), false)
    ensures Pack(p, true) == Pack(p, false) + 1
  {
    assert Pack(p, false) / 0x1_0000_0000 == p.line;
  }

  lemma LowBit(p: Pos, seen: bool)
    ensures Odd(Pack(p, seen)) <==> seen
  {
    var half := p.line * 0x8000_0000 + p.col;
    assert Pack(p, seen) == 2 * half + if seen then 1 else 0;
    assert (2 * half) % 2 == 0 && (2 * half + 1) % 2 == 1;
  }

  /** The bound on columns is exact: the signed shift gives back a column below 2^31 only if it is below 2^30. */
  lemma ColumnBoundExact(p: Pos)
    requires 0 <= p.line < 0x8000_0000 && 0 <= p.col < 0x8000_0000
    ensures ColOf(Pack(p, false)) == p.col <==> p.col < 0x4000_0000
  {
    var low := 2 * p.col;
    assert Pack(p, false) == p.line * 0x1_0000_0000 + low;
    assert (p.line * 0x1_0000_0000 + low) % 0x1_0000_0000 == low;
    if p.col >= 0x4000_0000 { assert JavaInt(low) == low - 0x1_0000_0000; }
  }

  lemma {:induction false} ScanConcat(width: int, p: Pos, a: seq<Token>, b: seq<Token>)
    ensures Scan(width, p, a + b) == Scan(width, Scan(width, p, a), b)
    ensures AllInRange(width, p, a + b) <==> AllInRange(width, p, a) && AllInRange(width, Scan(width, p, a), b)
    decreases |a|
  {
    hide ScanToken;
    if a == [] {
      assert a + b == b;
    } else {
      ScanConcat(width, ScanToken(width, p, a[0]), a[1..], b);
      assert (a + b)[1..] == a[1..] + b;
    }
  }

  lemma {:induction false} BeforeConcat(a: seq<Token>, b: seq<Token>, stop: nat)
    ensures Before(a + b, stop) == if Mark(stop) in a then Before(a, stop) else a + Before(b, stop)
    ensures Mark(stop) !in a ==> Before(a, stop) == a
    decreases |a|
  {
    if a == [] {
      assert a + b == b;
    } else if a[0] != Mark(stop) {
      var rest := a[1..];
      BeforeConcat(rest, b, stop);
      assert (a + b)[1..] == rest + b && a == [a[0]] + rest;
      assert Before(a + b, stop) == [a[0]] + Before(rest + b, stop);
      assert Mark(stop) in a <==> Mark(stop) in rest;
      assert [a[0]] + (rest + Before(b, stop)) == a + Before(b, stop);
    }
  }

  /** What a fold up to the stop node gives, in packed form. */
  function Expected(width: int, p: Pos, ts: seq<Token>, stop: nat): int {
    Pack(Scan(width, p, Before(ts, stop)), Mark(stop) in ts)
  }

  lemma ExpectedConcat(width: int, p: Pos, a: seq<Token>, b: seq<Token>, stop: nat)
    ensures Expected(width, p, a + b, stop) ==
      if Mark(stop) in a then Expected(width, p, a, stop) else Expected(width, Scan(width, p, a), b, stop)
  {
    BeforeConcat(a, b, stop);
    if Mark(stop) !in a { ScanConcat(width, p, a, Before(b, stop)); }
  }

  lemma ScanTwo(width: int, p: Pos, id: nat, t: Token)
    ensures Scan(width, p, [Mark(id), t]) == ScanToken(width, p, t)
    ensures AllInRange(width, p, [Mark(id), t]) ==> InRange(ScanToken(width, p, t))
  {
    hide ScanToken, InRange;
    assert [Mark(id), t][1..] == [t] && [t][1..] == [];
    assert ScanToken(width, p, Mark(id)) == p by { MarkIsSilent(width, p, id); }
    assert Scan(width, p, [t]) == ScanToken(width, p, t);
    assert AllInRange(width, p, [t]) ==> AllInRange(width, ScanToken(width, p, t), []);
  }

  lemma MarkIsSilent(width: int, p: Pos, id: nat)
    ensures ScanToken(width, p, Mark(id)) == p
  {
  }

  /** A break starts a new line, a span ends where its contents end, a block at the start of the next line. */
  lemma ElementLines(width: int, p: Pos, id: nat, kids: seq<Node>)
    ensures Scan(width, p, Flatten(Break(id))) == Pos(p.line + 1, 0)
    ensures Scan(width, p, Flatten(Elem(id, false, kids))) == Scan(width, p, FlattenAll(kids))
    ensures Scan(width, p, Flatten(Elem(id, true, kids))) == Pos(Scan(width, p, FlattenAll(kids)).line + 1, 0)
  {
    hide FlattenAll;
    var inner := FlattenAll(kids);
    ScanTwo(width, p, id, NewLine);
    assert [Mark(id)][1..] == [] && [NewLine][1..] == [];
    assert Scan(width, p, [Mark(id)]) == p;
    ScanConcat(width, p, [Mark(id)] + inner, [NewLine]);
    ScanConcat(width, p, [Mark(id)], inner);
    assert [Mark(id)] + inner + [] == [Mark(id)] + inner;
    var q := Scan(width, p, inner);
    assert Scan(width, q, [NewLine]) == ScanToken(width, q, NewLine);
  }

  lemma LeafExpected(width: int, p: Pos, id: nat, t: Token, stop: nat)
    requires !t.Mark?
    ensures Expected(width, p, [Mark(id), t], stop)
      == if id == stop then Pack(p, true) else Pack(ScanToken(width, p, t), false)
  {
    hide ScanToken;
    assert [Mark(id), t][1..] == [t] && [t][1..] == [];
    if id != stop {
      assert Before([t], stop) == [t] + Before([], stop);
      assert Before([Mark(id), t], stop) == [Mark(id), t];
      ScanTwo(width, p, id, t);
    }
  }

  /** The early-exit recursion on packed longs is the fold over the flattened document up to the stop node; its
      low bit says whether that node was found. */
  lemma {:induction false} Delta2DIsFold(width: int, n: Node, p: Pos, stop: nat)
    requires AllInRange(width, p, Flatten(n))
    ensures Delta2D(width, n, Pack(p, false), stop) == Expected(width, p, Flatten(n), stop)
    ensures Odd(Delta2D(width, n, Pack(p, false), stop)) <==> Mark(stop) in Flatten(n)
    decreases n, 1
  {
    hide ScanText, Pack, Odd, LineOf, ColOf, InRange, AllInRange;
    StartInRange(width, p, Flatten(n));
    UnpackExact(p);
    LowBit(p, false);
    LowBit(Scan(width, p, Before(Flatten(n), stop)), Mark(stop) in Flatten(n));
    match n {
      case TextNode(id, s) =>
        LeafExpected(width, p, id, Chars(s), stop);
        ScanTwo(width, p, id, Chars(s));
      case Break(id) => LeafExpected(width, p, id, NewLine, stop);
      case Elem(id, block, kids) =>
        var inner, tail := FlattenAll(kids), if block then [NewLine] else [];
        assert Flatten(n) == [Mark(id)] + (inner + tail);
        ElemExpected(width, p, id, inner, tail, stop);
        if id != stop {
          Delta2DAllIsFold(width, kids, p, stop);
          var q := Scan(width, p, inner);
          NewLineExpected(width, q, tail, stop);
          if Mark(stop) !in inner { NotThere(width, p, inner, stop); UnpackExact(q); }
        }
    }
  }

  lemma {:induction false} Delta2DAllIsFold(width: int, ns: seq<Node>, p: Pos, stop: nat)
    requires AllInRange(width, p, FlattenAll(ns))
    ensures Delta2DAll(width, ns, Pack(p, false), stop)
        == (Expected(width, p, FlattenAll(ns), stop), Mark(stop) in FlattenAll(ns))
    ensures Odd(Delta2DAll(width, ns, Pack(p, false), stop).0) <==> Mark(stop) in FlattenAll(ns)
    decreases ns, 0
  {
    hide Pack, Odd, Delta2D, Flatten, AllInRange;
    LowBit(Scan(width, p, Before(FlattenAll(ns), stop)), Mark(stop) in FlattenAll(ns));
    if ns == [] {
    } else {
      var a, b := Flatten(ns[0]), FlattenAll(ns[1..]);
      ScanConcat(width, p, a, b);
      Delta2DIsFold(width, ns[0], p, stop);
      ExpectedConcat(width, p, a, b, stop);
      if Mark(stop) !in a {
        NotThere(width, p, a, stop);
        Delta2DAllIsFold(width, ns[1..], Scan(width, p, a), stop);
      }
    }
  }

  lemma StartInRange(width: int, p: Pos, ts: seq<Token>)
    requires AllInRange(width, p, ts)
    ensures InRange(p)
  {
  }

  lemma NotThere(width: int, p: Pos, ts: seq<Token>, stop: nat)
    requires Mark(stop) !in ts && AllInRange(width, p, ts)
    ensures Expected(width, p, ts, stop) == Pack(Scan(width, p, ts), false) && InRange(Scan(width, p, ts))
  {
    BeforeConcat(ts, [], stop);
    ScanConcat(width, p, ts, []);
    assert ts + [] == ts;
  }

  lemma ElemExpected(width: int, p: Pos, id: nat, inner: seq<Token>, tail: seq<Token>, stop: nat)
    requires AllInRange(width, p, [Mark(id)] + (inner + tail))
    ensures AllInRange(width, p, inner) && AllInRange(width, Scan(width, p, inner), tail)
    ensures Expected(width, p, [Mark(id)] + (inner + tail), stop) ==
      if id == stop then Pack(p, true)
      else if Mark(stop) in inner then Expected(width, p, inner, stop)
      else Expected(width, Scan(width, p, inner), tail, stop)
  {
    var one := [Mark(id)];
    assert one[1..] == [];
    assert Scan(width, p, one) == p;
    ScanConcat(width, p, one, inner + tail);
    ScanConcat(width, p, inner, tail);
    ExpectedConcat(width, p, one, inner + tail, stop);
    ExpectedConcat(width, p, inner, tail, stop);
    if id == stop { assert Before(one, stop) == []; } else { assert Mark(stop) !in one; }
  }

  lemma NewLineExpected(width: int, q: Pos, tail: seq<Token>, stop: nat)
    requires tail == [] || tail == [NewLine]
    ensures Expected(width, q, tail, stop) == Pack(if tail == [] then q else Pos(q.line + 1, 0), false)
  {
    if tail != [] {
      assert tail[1..] == [];
      assert Before(tail, stop) == [NewLine] + Before([], stop);
      assert Before(tail, stop)[1..] == [] && Scan(width, q, Before(tail, stop)) == Pos(q.line + 1, 0);
    }
  }

  // ----- the cursor cache

  /** `updateCursorCache` unpacks exactly: `(int)(lcol >> 32)` and `(int)(lcol >> 1) & 0x7fffffff`. */
  function CachedLine(lcol: int): int { JavaInt(lcol / 0x1_0000_0000) }
  function CachedColumn(lcol: int): int { (lcol / 2) % 0x8000_0000 }

  lemma CacheUnpacks(p: Pos, seen: bool)
    requires InRange(p)
    ensures CachedLine(Pack(p, seen)) == p.line && CachedColumn(Pack(p, seen)) == p.col
  {
    assert Pack(p, seen) / 2 == p.line * 0x8000_0000 + p.col;
    assert (p.line * 0x8000_0000 + p.col) % 0x8000_0000 == p.col;
    assert Pack(p, seen) / 0x1_0000_0000 == p.line;
  }

  /** After `updateCursorCache` the cache holds the line and column at which a reader of the document arrives
      at the output position. */
  lemma CursorCacheExact(width: int, home: Node, outputBefore: nat)
    requires AllInRange(width, Pos(0, 0), Flatten(home))
    ensures var lcol := Delta2D(width, home, 0, outputBefore);
      Pos(CachedLine(lcol), CachedColumn(lcol)) == Scan(width, Pos(0, 0), Before(Flatten(home), outputBefore))
  {
    var ts := Flatten(home);
    Delta2DIsFold(width, home, Pos(0, 0), outputBefore);
    BeforeIsPrefix(width, Pos(0, 0), ts, outputBefore);
    CacheUnpacks(Scan(width, Pos(0, 0), Before(ts, outputBefore)), Mark(outputBefore) in ts);
  }

  lemma {:induction false} BeforeIsPrefix(width: int, p: Pos, ts: seq<Token>, stop: nat)
    requires AllInRange(width, p, ts)
    ensures InRange(Scan(width, p, Before(ts, stop)))
    decreases |ts|
  {
    hide ScanToken;
    if ts != [] && ts[0] != Mark(stop) {
      BeforeIsPrefix(width, ScanToken(width, p, ts[0]), ts[1..], stop);
      assert Before(ts, stop)[1..] == Before(ts[1..], stop);
    }
  }

  /** The recursion with its loops, as the program runs it. */
  method ComputeDelta2D(width: int, n: Node, delta: int, stop: nat) returns (r: int)
    ensures r == Delta2D(width, n, delta, stop)
    decreases n
  {
    if n.id == stop { return if Odd(delta) then delta else delta + 1; }
    match n {
      case TextNode(_, s) =>
        var p, i := Pos(LineOf(delta), ColOf(delta)), 0;
        while i < |s|
          invariant 0 <= i <= |s|
          invariant ScanText(width, p, s, i) == ScanText(width, Pos(LineOf(delta), ColOf(delta)), s, 0)
        {
          var (q, j) := ScanChar(width, p, s, i);
          p, i := q, j;
        }
        r := Pack(p, false);
      case Break(_) => r := (delta / 0x1_0000_0000 + 1) * 0x1_0000_0000;
      case Elem(_, block, kids) =>
        r := delta;
        var k := 0;
        while k < |kids|
          invariant 0 <= k <= |kids|
          invariant Delta2DAll(width, kids[k..], r, stop) == Delta2DAll(width, kids, delta, stop)
        {
          r := ComputeDelta2D(width, kids[k], r, stop);
          assert kids[k..][1..] == kids[k + 1..];
          if Odd(r) { return; }
          k := k + 1;
        }
        if block { r := (r / 0x1_0000_0000 + 1) * 0x1_0000_0000; }
    }
  }
}
