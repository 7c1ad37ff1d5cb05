/** The cursor that `updateCursorCache` computes with `delta2D` is the one `moveTo` relies on. */
module CursorCache {
  import opened Dom
  import opened CursorMotion
  import opened MoveTo

  /** The document with the input line, a span, put back at the cursor. */
  function WithInput(home: nat, path: seq<Span>, left: seq<Node>, input: nat, right: seq<Node>): Node {
    Elem(home, true, Close(path, left + [Elem(input, false, [])] + right))
  }

  predicate Absent(stop: nat, ns: seq<Node>) { Mark(stop) !in FlattenAll(ns) }

  /** The input line's identity is its own. */
  predicate InputIsNew(home: nat, path: seq<Span>, left: seq<Node>, input: nat) {
    && home != input && Absent(input, left)
    && forall i :: 0 <= i < |path| ==> path[i].id != input && Absent(input, path[i].left)
  }

  // ----- reading tokens and reading glyphs

  lemma {:induction false} TextAgrees(width: int, p: Pos, s: string, i: nat)
    requires PlainText(s) && i <= |s| && 0 <= p.col && p.col + |s| - i <= width
    ensures ScanText(width, p, s, i) == PosAfter(p, Letters(s)[i..])
    decreases |s| - i
  {
    if i == |s| {
    } else {
      var (q, j) := ScanChar(width, p, s, i);
      assert OneColumn(s[i]);
      assert Letters(s)[i..][0] == Ch(s[i]) && Letters(s)[i..][1..] == Letters(s)[i + 1..];
      assert q == Next(p, Ch(s[i])) && j == i + 1;
      TextAgrees(width, q, s, j);
    }
  }

  lemma {:induction false} ColumnBound(p: Pos, gs: seq<Glyph>)
    requires p.col >= 0
    ensures 0 <= PosAfter(p, gs).col <= p.col + |gs|
    decreases |gs|
  {
    if gs == [] {
    } else {
      ColumnBound(Next(p, gs[0]), gs[1..]);
    }
  }

  lemma {:induction false} NodeAgrees(width: int, p: Pos, n: Node)
    requires Plain1(n) && 0 <= p.col && p.col + |Glyphs(n)| <= width
    ensures Scan(width, p, Flatten(n)) == PosAfter(p, Glyphs(n))
    decreases n, 1
  {
    match n {
      case TextNode(id, s) =>
        ScanTwo(width, p, id, Chars(s));
        TextAgrees(width, p, s, 0);
        assert Letters(s)[0..] == Letters(s);
      case Break(id) =>
        ScanTwo(width, p, id, NewLine);
        assert [Br(id)][1..] == [];
      case Elem(id, _, kids) =>
        var gs := GlyphsOf(kids);
        AllAgree(width, p, kids);
        ScanConcat(width, p, [Mark(id)], FlattenAll(kids));
        assert [Mark(id)] + FlattenAll(kids) + [] == [Mark(id)] + FlattenAll(kids);
        assert [Mark(id)][1..] == [] && Scan(width, p, [Mark(id)]) == p;
        assert ([Open(id)] + gs + [Shut])[1..] == gs + [Shut];
        PosAfterConcat(p, gs, [Shut]);
        assert [Shut][1..] == [];
    }
  }

  lemma {:induction false} AllAgree(width: int, p: Pos, ns: seq<Node>)
    requires PlainAll(ns) && 0 <= p.col && p.col + |GlyphsOf(ns)| <= width
    ensures Scan(width, p, FlattenAll(ns)) == PosAfter(p, GlyphsOf(ns))
    decreases ns, 0
  {
    hide Glyphs, Flatten;
    if ns == [] {
    } else {
      NodeAgrees(width, p, ns[0]);
      ColumnBound(p, Glyphs(ns[0]));
      var q := PosAfter(p, Glyphs(ns[0]));
      AllAgree(width, q, ns[1..]);
      ScanConcat(width, p, Flatten(ns[0]), FlattenAll(ns[1..]));
      PosAfterConcat(p, Glyphs(ns[0]), GlyphsOf(ns[1..]));
    }
  }

  // ----- the tokens in front of the input line

  function TokensBefore(path: seq<Span>, left: seq<Node>): seq<Token>
    decreases |path|
  {
    (if path == [] then [] else TokensBefore(path[1..], path[0].left) + [Mark(path[0].id)]) + FlattenAll(left)
  }

  lemma {:induction false} FlattenConcat(a: seq<Node>, b: seq<Node>)
    ensures FlattenAll(a + b) == FlattenAll(a) + FlattenAll(b)
    decreases |a|
  {
    hide Flatten;
    if a == [] {
      assert a + b == b;
    } else {
      FlattenConcat(a[1..], b);
      assert (a + b)[1..] == a[1..] + b;
      assert Flatten(a[0]) + (FlattenAll(a[1..]) + FlattenAll(b)) == FlattenAll(a) + FlattenAll(b);
    }
  }

  /** The tokens of a span and its two sides. */
  lemma FlattenAround(left: seq<Node>, id: nat, kids: seq<Node>, right: seq<Node>)
    ensures FlattenAll(left + [Elem(id, false, kids)] + right)
      == FlattenAll(left) + ([Mark(id)] + (FlattenAll(kids) + FlattenAll(right)))
  {
    hide FlattenAll;
    var elem := Elem(id, false, kids);
    FlattenConcat(left + [elem], right);
    FlattenConcat(left, [elem]);
    assert FlattenAll([elem]) == [Mark(id)] + FlattenAll(kids) by { FlattenOne(id, kids); }
    assert FlattenAll(left) + ([Mark(id)] + FlattenAll(kids)) + FlattenAll(right)
      == FlattenAll(left) + ([Mark(id)] + (FlattenAll(kids) + FlattenAll(right)));
  }

  lemma FlattenOne(id: nat, kids: seq<Node>)
    ensures FlattenAll([Elem(id, false, kids)]) == [Mark(id)] + FlattenAll(kids)
  {
    var elem := Elem(id, false, kids);
    assert [elem][1..] == [] && FlattenAll([elem]) == Flatten(elem) + FlattenAll([]);
    assert [Mark(id)] + FlattenAll(kids) + [] + [] == [Mark(id)] + FlattenAll(kids);
  }

  lemma BeforeIn(a: seq<Token>, id: nat, inner: seq<Token>, b: seq<Token>, stop: nat)
    requires Mark(stop) !in a && id != stop && Mark(stop) in inner
    ensures Dom.Before(a + ([Mark(id)] + (inner + b)), stop) == a + [Mark(id)] + Dom.Before(inner, stop)
    ensures Mark(stop) in a + ([Mark(id)] + (inner + b))
  {
    hide Dom.Before;
    BeforeConcat(a, [Mark(id)] + (inner + b), stop);
    assert Mark(stop) !in [Mark(id)];
    BeforeConcat([Mark(id)], inner + b, stop);
    BeforeConcat(inner, b, stop);
    assert a + ([Mark(id)] + Dom.Before(inner, stop)) == a + [Mark(id)] + Dom.Before(inner, stop);
  }

  lemma {:induction false} BeforeClosed(path: seq<Span>, kids: seq<Node>, stop: nat)
    requires forall i :: 0 <= i < |path| ==> path[i].id != stop && Absent(stop, path[i].left)
    requires Mark(stop) in FlattenAll(kids)
    ensures Dom.Before(FlattenAll(Close(path, kids)), stop)
      == (if path == [] then [] else TokensBefore(path[1..], path[0].left) + [Mark(path[0].id)])
        + Dom.Before(FlattenAll(kids), stop)
    decreases |path|
  {
    hide FlattenAll, Dom.Before;
    if path == [] {
    } else {
      var s, up := path[0], path[1..];
      var outer := s.left + [Elem(s.id, false, kids)] + s.right;
      FlattenAround(s.left, s.id, kids, s.right);
      BeforeIn(FlattenAll(s.left), s.id, FlattenAll(kids), FlattenAll(s.right), stop);
      BeforeClosed(up, outer, stop);
      var top := if up == [] then [] else TokensBefore(up[1..], up[0].left) + [Mark(up[0].id)];
      var inner := Dom.Before(FlattenAll(kids), stop);
      assert top + (FlattenAll(s.left) + [Mark(s.id)] + inner) == top + FlattenAll(s.left) + [Mark(s.id)] + inner;
    }
  }

  lemma BeforeInput(home: nat, path: seq<Span>, left: seq<Node>, input: nat, right: seq<Node>)
    requires InputIsNew(home, path, left, input)
    ensures Dom.Before(Flatten(WithInput(home, path, left, input, right)), input)
        == [Mark(home)] + TokensBefore(path, left)
  {
    hide FlattenAll, Dom.Before;
    var kids := left + [Elem(input, false, [])] + right;
    var all := FlattenAll(Close(path, kids));
    FlattenAround(left, input, [], right);
    StopHere(FlattenAll(left), input, FlattenAll([]) + FlattenAll(right));
    BeforeClosed(path, kids, input);
    var top := if path == [] then [] else TokensBefore(path[1..], path[0].left) + [Mark(path[0].id)];
    assert Dom.Before(all, input) == TokensBefore(path, left);
    StillThere(path, kids, input);
    BeforeIn([], home, all, [NewLine], input);
    assert Flatten(WithInput(home, path, left, input, right)) == [] + ([Mark(home)] + (all + [NewLine]));
    assert [] + [Mark(home)] == [Mark(home)];
  }

  lemma StopHere(a: seq<Token>, stop: nat, b: seq<Token>)
    requires Mark(stop) !in a
    ensures Dom.Before(a + ([Mark(stop)] + b), stop) == a && Mark(stop) in a + ([Mark(stop)] + b)
  {
    BeforeConcat(a, [Mark(stop)] + b, stop);
    assert Dom.Before([Mark(stop)] + b, stop) == [];
  }

  lemma {:induction false} StillThere(path: seq<Span>, kids: seq<Node>, stop: nat)
    requires Mark(stop) in FlattenAll(kids)
    ensures Mark(stop) in FlattenAll(Close(path, kids))
    decreases |path|
  {
    hide FlattenAll;
    if path == [] {
    } else {
      var s := path[0];
      FlattenAround(s.left, s.id, kids, s.right);
      StillThere(path[1..], s.left + [Elem(s.id, false, kids)] + s.right, stop);
    }
  }

  lemma {:induction false} PathAgrees(width: int, path: seq<Span>, left: seq<Node>)
    requires PlainPath(path) && PlainAll(left) && |BeforeCursor(path, left)| <= width
    ensures Scan(width, Pos(0, 0), TokensBefore(path, left)) == PosAfter(HOME, BeforeCursor(path, left))
    decreases |path|
  {
    hide FlattenAll, GlyphsOf, PlainAll, Scan, PosAfter;
    var z := Pos(0, 0);
    var ts, gs := [], [];
    assert Scan(width, z, ts) == PosAfter(z, gs) by { Nothing(width, z); }
    if path == [] {
    } else {
      var s, up := path[0], path[1..];
      PathAgrees(width, up, s.left);
      ts, gs := TokensBefore(up, s.left) + [Mark(s.id)], BeforeCursor(up, s.left) + [Open(s.id)];
      TagAgrees(width, TokensBefore(up, s.left), BeforeCursor(up, s.left), s.id);
    }
    ColumnBound(z, gs);
    AllAgree(width, PosAfter(z, gs), left);
    ScanConcat(width, z, ts, FlattenAll(left));
    PosAfterConcat(z, gs, GlyphsOf(left));
  }

  lemma Nothing(width: int, p: Pos)
    ensures Scan(width, p, []) == PosAfter(p, [])
  {
  }

  lemma TagAgrees(width: int, ts: seq<Token>, gs: seq<Glyph>, id: nat)
    ensures Scan(width, Pos(0, 0), ts + [Mark(id)]) == Scan(width, Pos(0, 0), ts)
    ensures PosAfter(Pos(0, 0), gs + [Open(id)]) == PosAfter(Pos(0, 0), gs)
  {
    ScanConcat(width, Pos(0, 0), ts, [Mark(id)]);
    PosAfterConcat(Pos(0, 0), gs, [Open(id)]);
    assert [Mark(id)][1..] == [] && [Open(id)][1..] == [];
  }

  /** What `updateCursorCache` stores is where the cursor is: the condition under which `moveTo` may start from
      the cache. */
  lemma CacheAgrees(width: int, home: nat, path: seq<Span>, left: seq<Node>, input: nat, right: seq<Node>)
    requires InputIsNew(home, path, left, input) && PlainPath(path) && PlainAll(left)
    requires |BeforeCursor(path, left)| <= width
    requires AllInRange(width, Pos(0, 0), Flatten(WithInput(home, path, left, input, right)))
    ensures var lcol := Delta2D(width, WithInput(home, path, left, input, right), 0, input);
      Pos(CachedLine(lcol), CachedColumn(lcol)) == PosAfter(HOME, BeforeCursor(path, left))
  {
    hide Flatten, WithInput, AllInRange, Delta2D, TokensBefore, BeforeCursor, CachedLine, CachedColumn, PosAfter;
    CursorCacheExact(width, WithInput(home, path, left, input, right), input);
    BeforeInput(home, path, left, input, right);
    PathAgrees(width, path, left);
    var ts := TokensBefore(path, left);
    assert ([Mark(home)] + ts)[1..] == ts;
    MarkIsSilent(width, Pos(0, 0), home);
    assert Scan(width, Pos(0, 0), [Mark(home)] + ts) == Scan(width, Pos(0, 0), ts);
  }
}
