/** Style attributes: reading the declarations of one, and how much of the wanted list the ancestors provide. */
module Styles {
  import opened Sequences

  // ----- one attribute

  function TrimStart(s: string): string { if s != "" && s[0] <= ' ' then TrimStart(s[1..]) else s }
  function TrimEnd(s: string): string { if s != "" && s[|s| - 1] <= ' ' then TrimEnd(s[..|s| - 1]) else s }

  /** `String.trim`. */
  function Trim(s: string): string { TrimEnd(TrimStart(s)) }

  /** The length of what precedes the first semicolon. */
  function Semi(s: string): (k: nat)
    ensures k <= |s| && ';' !in s[..k] && (k < |s| ==> s[k] == ';')
  {
    if s == "" || s[0] == ';' then 0
    else
      assert forall k: nat :: k <= |s| - 1 ==> s[..k + 1] == [s[0]] + s[1..][..k];
      1 + Semi(s[1..])
  }

  lemma {:induction false} TrimStartShrinks(s: string)
    ensures |TrimStart(s)| <= |s| && (forall c :: c in TrimStart(s) ==> c in s)
    ensures TrimStart(s) == "" || TrimStart(s)[0] > ' '
  {
    if s != "" && s[0] <= ' ' { TrimStartShrinks(s[1..]); }
  }

  lemma {:induction false} TrimEndShrinks(s: string)
    ensures TrimEnd(s) <= s
    ensures TrimEnd(s) == "" || TrimEnd(s)[|TrimEnd(s)| - 1] > ' '
  {
    if s != "" && s[|s| - 1] <= ' ' { TrimEndShrinks(s[..|s| - 1]); }
  }

  lemma TrimShrinks(s: string)
    ensures |Trim(s)| <= |s| && (forall c :: c in Trim(s) ==> c in s)
    ensures Trim(s) == "" || (Trim(s)[0] > ' ' && Trim(s)[|Trim(s)| - 1] > ' ')
  {
    hide TrimStart, TrimEnd;
    TrimStartShrinks(s);
    TrimEndShrinks(TrimStart(s));
  }

  /** A declaration that survives being written into an attribute and read again. */
  predicate Clean(d: string) { d != "" && d[0] > ' ' && d[|d| - 1] > ' ' && ';' !in d }

  predicate AllClean(ds: seq<string>) { forall i :: 0 <= i < |ds| ==> Clean(ds[i]) }

  /** The declarations of an attribute: cut at semicolons, trimmed, empty ones left out. */
  function Decls(style: string): seq<string>
    decreases |style|
  {
    TrimShrinks(style);
    var t := Trim(style);
    if t == "" then []
    else
      var k := Semi(t);
      if k == |t| then [t]
      else
        var d := Trim(t[..k]);
        (if d == "" then [] else [d]) + Decls(t[k + 1..])
  }

  lemma NoDecls()
    ensures Decls("") == []
  {
    TrimShrinks("");
  }

  lemma DeclsEnd(style: string)
    requires Trim(style) == ""
    ensures Decls(style) == []
  {
  }

  lemma DeclsStep(style: string)
    requires Trim(style) != ""
    ensures var t := Trim(style); var k := Semi(t);
      var d := if k < |t| then Trim(t[..k]) else t;
      Decls(style) == (if d == "" then [] else [d]) + Decls(if k < |t| then t[k + 1..] else "")
  {
    hide Trim;
    NoDecls();
  }

  lemma {:induction false} DeclsClean(style: string)
    ensures AllClean(Decls(style))
    decreases |style|
  {
    hide Trim;
    TrimShrinks(style);
    var t := Trim(style);
    if t != "" && Semi(t) < |t| {
      var k := Semi(t);
      TrimShrinks(t[..k]);
      DeclsClean(t[k + 1..]);
    }
  }

  function Join(ds: seq<string>): string {
    if ds == [] then "" else if |ds| == 1 then ds[0] else ds[0] + ";" + Join(ds[1..])
  }

  lemma {:induction false} JoinSnoc(ds: seq<string>, d: string)
    requires ds != []
    ensures Join(ds + [d]) == Join(ds) + ";" + d
  {
    assert (ds + [d])[1..] == ds[1..] + [d];
    if |ds| > 1 {
      JoinSnoc(ds[1..], d);
      assert ds[0] + ";" + (Join(ds[1..]) + ";" + d) == ds[0] + ";" + Join(ds[1..]) + ";" + d;
    } else {
      assert (ds + [d])[1..] == [d];
    }
  }

  lemma NoTrim(s: string)
    requires s != "" && s[0] > ' ' && s[|s| - 1] > ' '
    ensures Trim(s) == s
  {
  }

  lemma SemiAt(a: string, b: string)
    requires ';' !in a
    ensures Semi(a + ";" + b) == |a| && Semi(a) == |a|
  {
    var s := a + ";" + b;
    var k := Semi(s);
    assert s[|a|] == ';' && s[..|a|] == a;
  }

  lemma {:induction false} JoinEnds(ds: seq<string>)
    requires AllClean(ds) && ds != []
    ensures var s := Join(ds); s != "" && s[0] > ' ' && s[|s| - 1] > ' '
  {
    assert Clean(ds[0]);
    if |ds| > 1 { JoinEnds(ds[1..]); }
  }

  lemma {:induction false} DeclsOfJoin(ds: seq<string>)
    requires AllClean(ds)
    ensures Decls(Join(ds)) == ds
  {
    hide Trim, Semi;
    if ds == [] {
      assert Trim("") == "" by { TrimShrinks(""); }
    } else {
      assert Clean(ds[0]);
      JoinEnds(ds);
      NoTrim(Join(ds));
      NoTrim(ds[0]);
      if |ds| == 1 {
        SemiAt(ds[0], "");
      } else {
        var rest := Join(ds[1..]);
        SemiAt(ds[0], rest);
        var s := Join(ds);
        assert s[..|ds[0]|] == ds[0] && s[|ds[0]| + 1..] == rest;
        DeclsOfJoin(ds[1..]);
      }
    }
  }

  /** Writing declarations into an attribute and reading them gives them back exactly when all are clean. */
  lemma JoinExact(ds: seq<string>)
    ensures Decls(Join(ds)) == ds <==> AllClean(ds)
  {
    DeclsClean(Join(ds));
    if AllClean(ds) { DeclsOfJoin(ds); }
  }

  // ----- the attributes of the ancestors, innermost first

  /** The declarations in force, outermost first. */
  function StylesOf(attrs: seq<string>): seq<string> {
    if attrs == [] then [] else StylesOf(attrs[1..]) + Decls(attrs[0])
  }

  lemma {:induction false} StylesConcat(a: seq<string>, b: seq<string>)
    ensures StylesOf(a + b) == StylesOf(b) + StylesOf(a)
  {
    hide Decls;
    if a == [] {
      assert a + b == b;
    } else {
      StylesConcat(a[1..], b);
      RestOfConcat(a, b);
      Assoc(StylesOf(b), StylesOf(a[1..]), Decls(a[0]));
    }
  }

  /** How many of the wanted declarations the outer ancestors provide, and how many inner ones do not fit. */
  function Kept(attrs: seq<string>, wanted: seq<string>, kept: nat): (r: (nat, nat))
    requires kept <= |wanted|
    ensures kept <= r.0 <= |wanted| && r.1 <= |attrs|
    decreases |attrs|
  {
    if attrs == [] || kept == |wanted| then (kept, |attrs|)
    else
      var ds := Decls(attrs[|attrs| - 1]);
      if ds <= wanted[kept..] then Kept(attrs[..|attrs| - 1], wanted, kept + |ds|) else (kept, |attrs|)
  }

  lemma OneStyle(attr: string)
    ensures StylesOf([attr]) == Decls(attr)
  {
    hide Decls;
    assert [attr][1..] == [] && [] + Decls(attr) == Decls(attr);
  }

  lemma {:induction false} KeptProvide(attrs: seq<string>, wanted: seq<string>, kept: nat)
    requires kept <= |wanted|
    ensures var (k, pop) := Kept(attrs, wanted, kept);
      StylesOf(attrs[pop..]) == wanted[kept..k]
    decreases |attrs|
  {
    hide Decls;
    if attrs != [] && kept < |wanted| {
      var init, last := attrs[..|attrs| - 1], attrs[|attrs| - 1];
      var ds := Decls(last);
      if ds <= wanted[kept..] {
        KeptProvide(init, wanted, kept + |ds|);
        var (k, pop) := Kept(init, wanted, kept + |ds|);
        assert attrs[pop..] == init[pop..] + [last];
        StylesConcat(init[pop..], [last]);
        OneStyle(last);
        assert wanted[kept..][..|ds|] == ds;
        assert wanted[kept..k] == wanted[kept..kept + |ds|] + wanted[kept + |ds|..k];
      }
    }
  }

  /** No inner ancestor is given up that would have fitted. */
  lemma {:induction false} KeptAll(attrs: seq<string>, wanted: seq<string>, kept: nat)
    requires kept <= |wanted|
    ensures var (k, pop) := Kept(attrs, wanted, kept);
      pop > 0 && k < |wanted| ==> !(Decls(attrs[pop - 1]) <= wanted[k..])
    decreases |attrs|
  {
    hide Decls;
    if attrs != [] && kept < |wanted| {
      var init, ds := attrs[..|attrs| - 1], Decls(attrs[|attrs| - 1]);
      if ds <= wanted[kept..] {
        KeptAll(init, wanted, kept + |ds|);
      }
    }
  }
}
