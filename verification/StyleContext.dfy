/** The styled spans around the input line, and how `adjustStyle` makes them say what `currentStyles` asks for. */
module StyleContext {
  import opened Sequences
  import opened Options
  import opened Styles
  import opened Rendition

  datatype Attrs = Attrs(cls: string, style: string)

  datatype Node = Leaf(id: nat, data: string) | Elem(attrs: Attrs, kids: seq<Node>)

  /** An ancestor of the input line, with what precedes and follows it in its parent. */
  datatype Frame = Frame(left: seq<Node>, attrs: Attrs, right: seq<Node>)

  // ----- the leaves of the document, each with the attributes of its ancestors, outermost first

  function Leaves(n: Node, ctx: seq<Attrs>): seq<(Node, seq<Attrs>)>
    decreases n, 1
  {
    match n
    case Leaf(_, _) => [(n, ctx)]
    case Elem(attrs, kids) => LeavesOf(kids, ctx + [attrs])
  }

  function LeavesOf(ns: seq<Node>, ctx: seq<Attrs>): seq<(Node, seq<Attrs>)>
    decreases ns, 0
  {
    if ns == [] then [] else Leaves(ns[0], ctx) + LeavesOf(ns[1..], ctx)
  }

  /** The attributes around the input line, outermost first; `path` lists the ancestors innermost first. */
  function Context(path: seq<Frame>): seq<Attrs> {
    if path == [] then [] else Context(path[1..]) + [path[0].attrs]
  }

  function LeavesBefore(path: seq<Frame>, left: seq<Node>): seq<(Node, seq<Attrs>)>
    decreases |path|
  {
    (if path == [] then [] else LeavesBefore(path[1..], path[0].left)) + LeavesOf(left, Context(path))
  }

  function LeavesAfter(path: seq<Frame>, right: seq<Node>): seq<(Node, seq<Attrs>)>
    decreases |path|
  {
    LeavesOf(right, Context(path)) + if path == [] then [] else LeavesAfter(path[1..], path[0].right)
  }

  lemma {:induction false} LeavesConcat(a: seq<Node>, b: seq<Node>, ctx: seq<Attrs>)
    ensures LeavesOf(a + b, ctx) == LeavesOf(a, ctx) + LeavesOf(b, ctx)
    decreases |a|
  {
    hide Leaves;
    if a == [] {
      assert a + b == b;
    } else {
      LeavesConcat(a[1..], b, ctx);
      assert (a + b)[1..] == a[1..] + b;
      assert Leaves(a[0], ctx) + (LeavesOf(a[1..], ctx) + LeavesOf(b, ctx)) == LeavesOf(a, ctx) + LeavesOf(b, ctx);
    }
  }

  lemma LeavesOne(n: Node, ctx: seq<Attrs>)
    ensures LeavesOf([n], ctx) == Leaves(n, ctx)
  {
    assert [n][1..] == [];
    assert Leaves(n, ctx) + [] == Leaves(n, ctx);
  }

  /** Splitting the innermost ancestor around the input line moves no leaf out of its context. */
  lemma SplitKeepsLeaves(path: seq<Frame>, left: seq<Node>, right: seq<Node>)
    requires path != []
    ensures var f := path[0];
      && LeavesBefore(path[1..], f.left + [Elem(f.attrs, left)]) == LeavesBefore(path, left)
      && LeavesAfter(path[1..], (if right == [] then [] else [Elem(f.attrs, right)]) + f.right)
        == LeavesAfter(path, right)
  {
    hide LeavesOf;
    var f, ctx := path[0], Context(path[1..]);
    LeavesConcat(f.left, [Elem(f.attrs, left)], ctx);
    LeavesOne(Elem(f.attrs, left), ctx);
    var up := if path[1..] == [] then [] else LeavesBefore(path[1..][1..], path[1..][0].left);
    assert up + (LeavesOf(f.left, ctx) + LeavesOf(left, ctx + [f.attrs]))
        == up + LeavesOf(f.left, ctx) + LeavesOf(left, ctx + [f.attrs]);
    var moved := if right == [] then [] else [Elem(f.attrs, right)];
    LeavesConcat(moved, f.right, ctx);
    assert LeavesOf(moved, ctx) == LeavesOf(right, ctx + [f.attrs]) by {
      if right == [] { NoLeaves(ctx); NoLeaves(ctx + [f.attrs]); } else { LeavesOne(Elem(f.attrs, right), ctx); }
    }
    var down := if path[1..] == [] then [] else LeavesAfter(path[1..][1..], path[1..][0].right);
    assert LeavesOf(right, ctx + [f.attrs]) + LeavesOf(f.right, ctx) + down
      == LeavesOf(right, ctx + [f.attrs]) + (LeavesOf(f.right, ctx) + down);
  }

  lemma NoLeaves(ctx: seq<Attrs>)
    ensures LeavesOf([], ctx) == []
  {
  }

  lemma WrapKeepsLeaves(path: seq<Frame>, left: seq<Node>, attrs: Attrs, right: seq<Node>)
    ensures var inner := [Frame(left, attrs, right)] + path;
      LeavesBefore(inner, []) == LeavesBefore(path, left) && LeavesAfter(inner, []) == LeavesAfter(path, right)
  {
    var inner := [Frame(left, attrs, right)] + path;
    assert inner[1..] == path;
    assert LeavesBefore(path, left) + [] == LeavesBefore(path, left);
  }

  // ----- the style list along the ancestors

  /** The style attributes of the ancestors, innermost first, without the missing ones. */
  function Attributes(path: seq<Frame>): seq<string> {
    if path == [] then []
    else (if path[0].attrs.style == "" then [] else [path[0].attrs.style]) + Attributes(path[1..])
  }

  /** The ordered style list a reader finds along the ancestors, outermost first. */
  function StylesAlong(context: seq<Attrs>): seq<string> {
    if context == [] then [] else Decls(context[0].style) + StylesAlong(context[1..])
  }

  lemma {:induction false} AlongConcat(a: seq<Attrs>, b: seq<Attrs>)
    ensures StylesAlong(a + b) == StylesAlong(a) + StylesAlong(b)
  {
    hide Decls;
    if a == [] {
      assert a + b == b;
    } else {
      AlongConcat(a[1..], b);
      RestOfConcat(a, b);
      Assoc(Decls(a[0].style), StylesAlong(a[1..]), StylesAlong(b));
    }
  }

  lemma AlongOne(a: Attrs)
    ensures StylesAlong([a]) == Decls(a.style)
  {
    assert [a][1..] == [] && Decls(a.style) + [] == Decls(a.style);
  }

  lemma {:induction false} AlongIsStylesOf(path: seq<Frame>)
    ensures StylesAlong(Context(path)) == StylesOf(Attributes(path))
  {
    hide Decls;
    if path == [] {
    } else {
      AlongIsStylesOf(path[1..]);
      AlongConcat(Context(path[1..]), [path[0].attrs]);
      AlongOne(path[0].attrs);
      NoDecls();
      var inner, style := Attributes(path[1..]), path[0].attrs.style;
      if style == "" {
        assert [] + inner == inner && StylesOf(inner) + [] == StylesOf(inner);
      } else {
        assert ([style] + inner)[0] == style && ([style] + inner)[1..] == inner;
      }
    }
  }

  lemma {:induction false} AttributesConcat(a: seq<Frame>, b: seq<Frame>)
    ensures Attributes(a + b) == Attributes(a) + Attributes(b)
  {
    if a == [] {
      assert a + b == b;
    } else {
      AttributesConcat(a[1..], b);
      RestOfConcat(a, b);
      Assoc(if a[0].attrs.style == "" then [] else [a[0].attrs.style], Attributes(a[1..]), Attributes(b));
    }
  }

  lemma {:induction false} AttributesCount(path: seq<Frame>)
    ensures |Attributes(path)| <= |path|
    ensures |Attributes(path)| == |path| <==> Styled(path, |path|)
  {
    if path == [] {
    } else {
      AttributesCount(path[1..]);
      assert path == [path[0]] + path[1..];
      assert Styled(path, |path|) <==> path[0].attrs.style != "" && Styled(path[1..], |path[1..]|);
    }
  }

  /** How many wanted declarations are kept, and how many ancestors are given up. */
  function Plan(path: seq<Frame>, wanted: seq<string>): (nat, nat) { Kept(Attributes(path), wanted, 0) }

  lemma PlanFits(path: seq<Frame>, wanted: seq<string>)
    ensures Plan(path, wanted).0 <= |wanted| && Plan(path, wanted).1 <= |path|
  {
    AttributesCount(path);
  }

  /** The style attributes that do not fit but stay, because an unstyled ancestor was given up in their place. */
  function Leftover(path: seq<Frame>, wanted: seq<string>): seq<string> {
    PlanFits(path, wanted);
    var pop := Plan(path, wanted).1;
    AttributesCount(path[..pop]);
    Attributes(path)[|Attributes(path[..pop])|..pop]
  }

  /** What the input line's new context is: the outer ancestors, and a span for the rest. */
  function Adjusted(path: seq<Frame>, wanted: seq<string>): seq<Attrs> {
    PlanFits(path, wanted);
    var (kept, pop) := Plan(path, wanted);
    Context(path[pop..]) + if kept < |wanted| then [Attrs("", Join(wanted[kept..]))] else []
  }

  lemma AdjustedStyles(path: seq<Frame>, wanted: seq<string>)
    ensures var kept := Plan(path, wanted).0;
      kept <= |wanted| && StylesAlong(Adjusted(path, wanted))
        == wanted[..kept] + StylesOf(Leftover(path, wanted)) + Decls(Join(wanted[kept..]))
  {
    hide Decls, Kept, StylesOf, StylesAlong, Attributes;
    PlanFits(path, wanted);
    var (kept, pop) := Plan(path, wanted);
    var all := Attributes(path);
    AttributesConcat(path[..pop], path[pop..]);
    AttributesCount(path[..pop]);
    assert path[..pop] + path[pop..] == path;
    var m := |Attributes(path[..pop])|;
    assert Attributes(path[pop..]) == all[m..] == all[m..pop] + all[pop..];
    StylesConcat(all[m..pop], all[pop..]);
    KeptProvide(all, wanted, 0);
    assert wanted[0..kept] == wanted[..kept];
    AlongIsStylesOf(path[pop..]);
    if kept < |wanted| {
      AlongConcat(Context(path[pop..]), [Attrs("", Join(wanted[kept..]))]);
      AlongOne(Attrs("", Join(wanted[kept..])));
    } else {
      NoDecls();
      assert Context(path[pop..]) + [] == Context(path[pop..]);
      assert Join(wanted[kept..]) == "";
    }
  }

  /** The new context says exactly what is wanted if and only if every wanted declaration is clean and no unfit
      attribute stays behind. */
  lemma AdjustedExactly(path: seq<Frame>, wanted: seq<string>)
    ensures StylesAlong(Adjusted(path, wanted)) == wanted
      <==> AllClean(wanted) && StylesOf(Leftover(path, wanted)) == []
  {
    hide Decls, Kept, StylesOf, StylesAlong, Join, Adjusted, Leftover;
    var got, kept := StylesAlong(Adjusted(path, wanted)), Plan(path, wanted).0;
    AdjustedStyles(path, wanted);
    var extra, rest := StylesOf(Leftover(path, wanted)), Decls(Join(wanted[kept..]));
    JoinExact(wanted[kept..]);
    AlongClean(Adjusted(path, wanted));
    assert wanted == wanted[..kept] + wanted[kept..];
    if got == wanted || (AllClean(wanted) && extra == []) {
      assert rest == wanted[kept..];
      assert wanted[..kept] + [] + wanted[kept..] == wanted;
    }
  }

  lemma {:induction false} AlongClean(context: seq<Attrs>)
    ensures AllClean(StylesAlong(context))
  {
    if context == [] {
    } else {
      DeclsClean(context[0].style);
      AlongClean(context[1..]);
    }
  }

  /** The innermost `n` ancestors all carry a style. */
  predicate Styled(path: seq<Frame>, n: nat)
    requires n <= |path|
  {
    forall i :: 0 <= i < n ==> path[i].attrs.style != ""
  }

  /** The unstyled ancestors are outside all the styled ones. */
  predicate StyledInside(path: seq<Frame>) {
    forall i, j :: 0 <= i < j < |path| && path[j].attrs.style != "" ==> path[i].attrs.style != ""
  }

  lemma {:induction false} StyledFirst(path: seq<Frame>)
    requires StyledInside(path)
    ensures |Attributes(path)| <= |path| && Styled(path, |Attributes(path)|)
  {
    if path == [] {
    } else {
      var outer := path[1..];
      assert forall i :: 0 <= i < |outer| ==> outer[i] == path[i + 1];
      StyledFirst(outer);
      if path[0].attrs.style == "" {
        assert outer != [] ==> outer[0] == path[1] && path[1].attrs.style == "";
      } else {
        forall i | 0 <= i < |Attributes(path)| ensures path[i].attrs.style != "" {
          if i > 0 { assert outer[i - 1].attrs.style != ""; }
        }
      }
    }
  }

  lemma PopsStyled(path: seq<Frame>, wanted: seq<string>)
    requires StyledInside(path)
    ensures Plan(path, wanted).1 <= |path| && Styled(path, Plan(path, wanted).1)
  {
    hide Attributes;
    StyledFirst(path);
  }

  predicate AllDeclare(path: seq<Frame>) {
    forall i :: 0 <= i < |path| && path[i].attrs.style != "" ==> Decls(path[i].attrs.style) != []
  }

  /** When every style attribute declares something, nothing stays behind exactly if the ancestors given up are
      all styled. */
  lemma NothingLeftOver(path: seq<Frame>, wanted: seq<string>)
    ensures Plan(path, wanted).1 <= |path|
    ensures Styled(path, Plan(path, wanted).1) ==> Leftover(path, wanted) == []
    ensures AllDeclare(path) && StylesOf(Leftover(path, wanted)) == [] ==> Styled(path, Plan(path, wanted).1)
  {
    hide Decls, Kept, StylesOf;
    PlanFits(path, wanted);
    var pop := Plan(path, wanted).1;
    AttributesCount(path[..pop]);
    assert Styled(path[..pop], pop) <==> Styled(path, pop);
    if AllDeclare(path) && !Styled(path, pop) {
      var left := Leftover(path, wanted);
      assert left != [];
      FromPath(path, left[0]);
      assert Decls(left[0]) != [];
      Declares(left);
    }
  }

  lemma {:induction false} FromPath(path: seq<Frame>, style: string)
    requires style in Attributes(path)
    ensures exists i :: 0 <= i < |path| && path[i].attrs.style == style && style != ""
  {
    if style == path[0].attrs.style && style != "" {
    } else {
      FromPath(path[1..], style);
      var i :| 0 <= i < |path[1..]| && path[1..][i].attrs.style == style && style != "";
      assert path[i + 1].attrs.style == style;
    }
  }

  lemma Declares(attrs: seq<string>)
    requires attrs != [] && Decls(attrs[0]) != []
    ensures StylesOf(attrs) != []
  {
    hide Decls;
  }

  /** As many innermost styled ancestors as there are styled ones at all: then the rest is unstyled. */
  lemma StyledMeansInside(path: seq<Frame>)
    requires |Attributes(path)| <= |path| && Styled(path, |Attributes(path)|)
    ensures StyledInside(path)
  {
    hide Attributes;
    var m := |Attributes(path)|;
    AttributesConcat(path[..m], path[m..]);
    assert path[..m] + path[m..] == path;
    AttributesCount(path[..m]);
    assert Styled(path[..m], m);
    forall j | m <= j < |path| ensures path[j].attrs.style == "" { Unstyled(path[m..], j - m); }
  }

  lemma {:induction false} Unstyled(path: seq<Frame>, j: nat)
    requires Attributes(path) == [] && j < |path|
    ensures path[j].attrs.style == ""
  {
    if j == 0 {
    } else {
      Unstyled(path[1..], j - 1);
    }
  }

  /** For ancestors whose style attributes all declare something: every clean list of styles can be had exactly by
      those in which no unstyled ancestor is inside a styled one. */
  lemma AdjustsAlwaysExactly(path: seq<Frame>)
    requires AllDeclare(path)
    ensures StyledInside(path) <==> forall wanted :: AllClean(wanted) ==> StylesAlong(Adjusted(path, wanted)) == wanted
  {
    hide Attributes, StylesAlong, Adjusted, StylesOf, Leftover, AllDeclare, Decls, StyledInside, Styled, AllClean;
    if StyledInside(path) {
      forall wanted | AllClean(wanted) ensures StylesAlong(Adjusted(path, wanted)) == wanted {
        Adjusts(path, wanted);
      }
    } else {
      assert AllClean([]) by { NoneClean(); }
      AdjustedExactly(path, []);
      NothingLeftOver(path, []);
      AttributesCount(path);
      if Styled(path, |Attributes(path)|) { StyledMeansInside(path); }
      assert Plan(path, []).1 == |Attributes(path)|;
    }
  }

  lemma NoneClean()
    ensures AllClean([])
  {
  }

  lemma Adjusts(path: seq<Frame>, wanted: seq<string>)
    requires StyledInside(path) && AllClean(wanted)
    ensures StylesAlong(Adjusted(path, wanted)) == wanted
  {
    hide StyledInside, StylesAlong, Adjusted, Leftover, AllClean;
    PopsStyled(path, wanted);
    NothingLeftOver(path, wanted);
    AdjustedExactly(path, wanted);
  }

  /** So it does not matter in which spans a move left the cursor: after the adjustment the styles are the same. */
  lemma AdjustmentMakesUp(path: seq<Frame>, other: seq<Frame>, wanted: seq<string>)
    requires StyledInside(path) && StyledInside(other) && AllClean(wanted)
    ensures StylesAlong(Adjusted(path, wanted)) == StylesAlong(Adjusted(other, wanted))
  {
    hide StyledInside, StylesAlong, Adjusted, AllClean;
    Adjusts(path, wanted);
    Adjusts(other, wanted);
  }

  /** An unstyled span inside a red one: asking for no style gives up the unstyled span, and the red one stays. */
  lemma UnstyledSpanGivenUp()
    ensures var red, plain := Frame([], Attrs("", "color: red"), []), Frame([], Attrs("", ""), []);
      StylesAlong(Adjusted([plain, red], [])) == ["color: red"]
  {
    hide Decls;
    var red, plain := Frame([], Attrs("", "color: red"), []), Frame([], Attrs("", ""), []);
    var path := [plain, red];
    assert path[1..] == [red] && [red][1..] == [];
    assert Attributes([red]) == ["color: red"] + [];
    assert Attributes(path) == [] + Attributes([red]);
    assert Plan(path, []) == (0, 1);
    assert Context([red]) == [] + [red.attrs];
    assert Adjusted(path, []) == [red.attrs] + [] == [red.attrs];
    AlongOne(red.attrs);
    assert AllClean(["color: red"]) by { assert Clean("color: red"); }
    DeclsOfJoin(["color: red"]);
  }

  // ----- the operations

  lemma PrefixStep(d: string, ds: seq<string>, wanted: seq<string>)
    ensures [d] + ds <= wanted <==> wanted != [] && d == wanted[0] && ds <= wanted[1..]
  {
    if [d] + ds <= wanted {
      assert wanted[0] == ([d] + ds)[0] && wanted[1..][..|ds|] == wanted[..1 + |ds|][1..] == ds;
    }
  }

  /** Compare one style attribute with the wanted list: how many declarations it provides, or -1. */
  method MatchDecls(style: string, wanted: seq<string>, kept: nat) returns (k: int)
    requires kept <= |wanted|
    ensures k == if Decls(style) <= wanted[kept..] then |Decls(style)| else -1
  {
    hide Trim, Semi, Decls;
    var rest := style;
    k := 0;
    while k >= 0 && Trim(rest) != ""
      invariant k < 0 ==> k == -1 && !(Decls(style) <= wanted[kept..])
      invariant k >= 0 ==> kept + k <= |wanted| && |Decls(style)| == k + |Decls(rest)|
      invariant k >= 0 ==> (Decls(style) <= wanted[kept..] <==> Decls(rest) <= wanted[kept + k..])
      decreases k >= 0, |rest|
    {
      TrimShrinks(rest);
      DeclsStep(rest);
      var t := Trim(rest);
      var semi := Semi(t);
      var s := if semi < |t| then Trim(t[..semi]) else t;
      rest := if semi < |t| then t[semi + 1..] else "";
      PrefixStep(s, Decls(rest), wanted[kept + k..]);
      if s == "" {
        assert [] + Decls(rest) == Decls(rest);
      } else if kept + k < |wanted| && s == wanted[kept + k] {
        assert wanted[kept + k..][1..] == wanted[kept + k + 1..];
        k := k + 1;
      } else {
        k := -1;
      }
    }
    if k >= 0 { DeclsEnd(rest); }
  }

  class StyledScreen {
    var path: seq<Frame>      // the ancestors of the input line, innermost first
    var left: seq<Node>       // the siblings in front of the input line
    var right: seq<Node>      // the siblings behind it
    var currentStyles: seq<string>
    var adjustStyleNeeded: bool

    /** Every leaf in front of the input line, and behind it, with the attributes that apply to it. */
    ghost function Before(): seq<(Node, seq<Attrs>)>
      reads this
    {
      LeavesBefore(path, left)
    }

    ghost function After(): seq<(Node, seq<Attrs>)>
      reads this
    {
      LeavesAfter(path, right)
    }

    /** Replace the declarations of a property by one with the given value, or by none. */
    method PushSimpleStyle(p: Property, value: Option<string>, ghost look: Look)
      requires Lists(currentStyles, look)
      modifies this`currentStyles
      ensures Lists(currentStyles, look.Set(p, value))
    {
      hide Lists, Name;
      var name := Name(p);
      var i := 0;
      assert currentStyles[..0] == [];
      while i < |currentStyles|
        invariant 0 <= i <= |currentStyles|
        invariant currentStyles[..i] + Without(currentStyles[i..], name) == Without(old(currentStyles), name)
        decreases |currentStyles| - i
      {
        ghost var done, rest := currentStyles[..i], currentStyles[i..];
        assert rest[1..] == currentStyles[i + 1..];
        if name <= currentStyles[i] {
          currentStyles := currentStyles[..i] + currentStyles[i + 1..];
          assert currentStyles[..i] == done && currentStyles[i..] == rest[1..];
        } else {
          assert currentStyles[..i + 1] == done + [rest[0]];
          i := i + 1;
        }
      }
      assert currentStyles == Without(old(currentStyles), name) == Without(old(currentStyles), name) + [];
      PushSets(old(currentStyles), look, p, value);
      if value.Some? { currentStyles := currentStyles + [name + " " + value.value]; }
    }

    /** One parameter of a Select Graphic Rendition sequence. */
    method SelectOne(code: int, front: string, back: string, ghost look: Look)
      requires Lists(currentStyles, look)
      modifies this`currentStyles
      ensures Lists(currentStyles, Select(look, code, front, back))
      ensures ShowsLast(currentStyles, look, [code], front, back)
    {
      hide Lists, ShowsLast;
      if code <= 0 {
        currentStyles := [];
        assert Lists([], PLAIN) by { PlainIsEmpty(); }
      } else if code == 1 {
        PushSimpleStyle(FontWeight, Some("bold"), look);
      } else if code == 22 {
        PushSimpleStyle(FontWeight, None, look);
      } else if code == 4 {
        PushSimpleStyle(TextDecoration, Some("underline"), look);
      } else if code == 24 {
        PushSimpleStyle(TextDecoration, None, look);
      } else if code == 7 {
        PushSimpleStyle(Color, Some(back), look);
        PushSimpleStyle(Background, Some(front), look.Set(Color, Some(back)));
      } else if code == 27 {
        PushSimpleStyle(Color, None, look);
        PushSimpleStyle(Background, None, look.Set(Color, None));
      } else if 30 <= code <= 37 {
        PushSimpleStyle(Color, Some(ColorName(code - 30)), look);
      } else if code == 39 {
        PushSimpleStyle(Color, None, look);
      } else if 40 <= code <= 47 {
        PushSimpleStyle(Background, Some(ColorName(code - 40)), look);
      } else if code == 49 {
        PushSimpleStyle(Background, None, look);
      }
      assert [code][..0] == [] && SelectAll(look, [code], front, back) == Select(look, code, front, back);
      SelectedShows(currentStyles, look, [code], front, back);
    }

    /** A whole sequence: the style list declares what the parameters, taken in order, leave selected. */
    method SelectRendition(codes: seq<int>, front: string, back: string, ghost look: Look)
      requires Lists(currentStyles, look)
      modifies this`currentStyles, this`adjustStyleNeeded
      ensures Lists(currentStyles, SelectAll(look, codes, front, back)) && adjustStyleNeeded
      ensures ShowsLast(currentStyles, look, codes, front, back)
    {
      hide Lists, Select, ShowsLast;
      var i := 0;
      while i < |codes|
        invariant 0 <= i <= |codes|
        invariant Lists(currentStyles, SelectAll(look, codes[..i], front, back))
      {
        assert codes[..i + 1][..i] == codes[..i];
        SelectOne(codes[i], front, back, SelectAll(look, codes[..i], front, back));
        i := i + 1;
      }
      assert codes[..i] == codes;
      SelectedShows(currentStyles, look, codes, front, back);
      adjustStyleNeeded := true;
    }

    /** Move the input line behind its parent, and what followed it into a span of its own. */
    method PopStyle()
      requires path != []
      modifies this`path, this`left, this`right
      ensures path == old(path)[1..]
      ensures Before() == old(Before()) && After() == old(After())
    {
      SplitKeepsLeaves(path, left, right);
      var span1 := path[0];
      var behind := span1.right;
      if right != [] {
        var moved, following := [], right;
        while following != []
          invariant moved + following == right
          decreases |following|
        {
          moved, following := moved + [following[0]], following[1..];
        }
        assert moved == right;
        behind := [Elem(span1.attrs, moved)] + behind;
      }
      left := span1.left + [Elem(span1.attrs, left)];
      right, path := behind, path[1..];
    }

    /** The style attributes of the ancestors. */
    method ParentStyles() returns (styles: seq<string>)
      ensures styles == Attributes(path)
    {
      styles := [];
      var i := 0;
      while i < |path|
        invariant 0 <= i <= |path|
        invariant styles + Attributes(path[i..]) == Attributes(path)
      {
        ghost var one := if path[i].attrs.style == "" then [] else [path[i].attrs.style];
        assert path[i..][0] == path[i] && path[i..][1..] == path[i + 1..];
        Assoc(styles, one, Attributes(path[i + 1..]));
        if path[i].attrs.style != "" {
          styles := styles + [path[i].attrs.style];
        } else {
          assert styles + [] == styles;
        }
        i := i + 1;
      }
    }

    /** Compare the ancestors with the wanted list, outermost first. */
    method ComparePath() returns (kept: nat, pop: nat)
      ensures (kept, pop) == Plan(path, currentStyles)
    {
      hide Decls;
      var styles := ParentStyles();
      kept := 0;
      var j := |styles|;
      assert styles[..j] == styles;
      while j > 0
        invariant 0 <= j <= |styles| && kept <= |currentStyles|
        invariant Kept(styles[..j], currentStyles, kept) == Kept(styles, currentStyles, 0)
      {
        if kept == |currentStyles| { break; }
        var k := MatchDecls(styles[j - 1], currentStyles, kept);
        assert styles[..j][..j - 1] == styles[..j - 1];
        if k < 0 { break; }
        kept, j := kept + k, j - 1;
      }
      pop := j;
    }

    /** The wanted declarations that are not provided, as one attribute. */
    method JoinRest(kept: nat) returns (style: string)
      requires kept < |currentStyles|
      ensures style == Join(currentStyles[kept..])
    {
      style := currentStyles[kept];
      var i := kept + 1;
      assert currentStyles[kept..i] == [style];
      while i < |currentStyles|
        invariant kept < i <= |currentStyles|
        invariant style == Join(currentStyles[kept..i])
      {
        JoinSnoc(currentStyles[kept..i], currentStyles[i]);
        assert currentStyles[kept..i + 1] == currentStyles[kept..i] + [currentStyles[i]];
        style, i := style + ";" + currentStyles[i], i + 1;
      }
      assert currentStyles[kept..i] == currentStyles[kept..];
    }

    /** No leaf moves and none changes its context. The input line's own context says what is wanted exactly when
        the wanted declarations are clean and no unfit style stays behind. */
    method AdjustStyle()
      modifies this`path, this`left, this`right, this`adjustStyleNeeded
      ensures !adjustStyleNeeded
      ensures Before() == old(Before()) && After() == old(After())
      ensures Context(path) == old(Adjusted(path, currentStyles))
      ensures AllClean(currentStyles) && old(StyledInside(path)) ==> StyledInside(path)
      ensures StylesAlong(Context(path)) == currentStyles
        <==> AllClean(currentStyles) && StylesOf(old(Leftover(path, currentStyles))) == []
    {
      hide Plan, LeavesBefore, LeavesAfter, Join, StylesAlong, StylesOf, Leftover, AllClean, StyledInside;
      AdjustedExactly(path, currentStyles);
      adjustStyleNeeded := false;
      var kept, pop := ComparePath();
      PlanFits(path, currentStyles);
      var popCount := pop;
      while popCount > 0
        invariant !adjustStyleNeeded && 0 <= popCount <= pop && path == old(path)[pop - popCount..]
        invariant Before() == old(Before()) && After() == old(After())
      {
        PopStyle();
        popCount := popCount - 1;
      }
      if kept < |currentStyles| {
        var style := JoinRest(kept);
        var attrs := Attrs("", style);
        WrapKeepsLeaves(path, left, attrs, right);
        StillStyledInside(old(path), pop, currentStyles, kept, left, right);
        assert ([Frame(left, attrs, right)] + path)[1..] == path;
        path, left, right := [Frame(left, attrs, right)] + path, [], [];
      } else {
        OuterStyledInside(old(path), pop);
        assert Context(path) + [] == Context(path);
      }
    }

    /** From any selected look: select a new one, and adjust. The text typed next stands in a context that declares
        exactly what is selected, provided no unstyled ancestor is inside a styled one. */
    method SelectAndAdjust(codes: seq<int>, front: string, back: string, ghost look: Look)
      requires Lists(currentStyles, look) && AllValues(look) && Value(front) && Value(back)
      requires StyledInside(path)
      modifies this
      ensures Lists(StylesAlong(Context(path)), SelectAll(look, codes, front, back))
      ensures ShowsLast(StylesAlong(Context(path)), look, codes, front, back)
      ensures Before() == old(Before()) && After() == old(After())
      ensures Lists(currentStyles, SelectAll(look, codes, front, back))
          && AllValues(SelectAll(look, codes, front, back))
      ensures StyledInside(path)
    {
      hide Lists, SelectAll, Context, StylesAlong, Plan, Leftover, StylesOf, Adjusted, ShowsLast;
      SelectRendition(codes, front, back, look);
      SelectedValues(look, codes, front, back);
      ListsClean(currentStyles, SelectAll(look, codes, front, back));
      PopsStyled(path, currentStyles);
      NothingLeftOver(path, currentStyles);
      assert StylesOf([]) == [] by { NoStyles(); }
      AdjustStyle();
      SelectedShows(StylesAlong(Context(path)), look, codes, front, back);
    }
  }

  lemma OuterStyledInside(path: seq<Frame>, pop: nat)
    requires pop <= |path|
    ensures StyledInside(path) ==> StyledInside(path[pop..])
  {
  }

  lemma StillStyledInside(path: seq<Frame>, pop: nat, wanted: seq<string>, kept: nat, left: seq<Node>, right: seq<Node>)
    requires pop <= |path| && kept < |wanted|
    ensures AllClean(wanted) && StyledInside(path)
      ==> StyledInside([Frame(left, Attrs("", Join(wanted[kept..])), right)] + path[pop..])
  {
    if AllClean(wanted) { JoinEnds(wanted[kept..]); }
  }

  lemma NoStyles()
    ensures StylesOf([]) == []
  {
  }

  lemma PlainIsEmpty()
    ensures Lists([], PLAIN)
  {
  }
}
