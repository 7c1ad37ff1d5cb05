/** Select Graphic Rendition (section 8.3.117 of ECMA-48): the style list as a stack of declarations, against a
    record of the four properties it can set. */
module Rendition {
  import opened Options
  import opened Styles

  datatype Property = FontWeight | TextDecoration | Color | Background

  /** What the terminal is to show: a value for each property, or its default. */
  datatype Look = Look(weight: Option<string>, decoration: Option<string>, color: Option<string>,
    background: Option<string>)
  {
    function Get(p: Property): Option<string> {
      match p
      case FontWeight => weight
      case TextDecoration => decoration
      case Color => color
      case Background => background
    }

    function Set(p: Property, v: Option<string>): (r: Look)
      ensures r.Get(p) == v && forall q :: q != p ==> r.Get(q) == Get(q)
    {
      match p
      case FontWeight => this.(weight := v)
      case TextDecoration => this.(decoration := v)
      case Color => this.(color := v)
      case Background => this.(background := v)
    }
  }

  const PLAIN := Look(None, None, None, None)

  function Name(p: Property): string {
    match p
    case FontWeight => "font-weight:"
    case TextDecoration => "text-decoration:"
    case Color => "color:"
    case Background => "background-color:"
  }

  function ColorName(n: nat): string
    requires n < 8
  {
    ["black", "red", "green", "yellow", "blue", "magenta", "cyan", "white"][n]
  }

  /** The effect of one parameter; `front` and `back` are the default colours, exchanged by parameter 7. */
  function Select(look: Look, code: int, front: string, back: string): Look {
    if code <= 0 then PLAIN
    else if code == 1 then look.Set(FontWeight, Some("bold"))
    else if code == 22 then look.Set(FontWeight, None)
    else if code == 4 then look.Set(TextDecoration, Some("underline"))
    else if code == 24 then look.Set(TextDecoration, None)
    else if code == 7 then look.Set(Color, Some(back)).Set(Background, Some(front))
    else if code == 27 then look.Set(Color, None).Set(Background, None)
    else if 30 <= code <= 37 then look.Set(Color, Some(ColorName(code - 30)))
    else if code == 39 then look.Set(Color, None)
    else if 40 <= code <= 47 then look.Set(Background, Some(ColorName(code - 40)))
    else if code == 49 then look.Set(Background, None)
    else look
  }

  function SelectAll(look: Look, codes: seq<int>, front: string, back: string): Look {
    if codes == [] then look
    else Select(SelectAll(look, codes[..|codes| - 1], front, back), codes[|codes| - 1], front, back)
  }

  // ----- what a parameter selects, property by property

  /** One parameter, written out. */
  lemma ParameterEffect(look: Look, code: int, front: string, back: string)
    ensures var r := Select(look, code, front, back);
      && r.weight == (if code <= 0 || code == 22 then None else if code == 1 then Some("bold") else look.weight)
      && r.decoration
           == (if code <= 0 || code == 24 then None else if code == 4 then Some("underline") else look.decoration)
      && r.color
           == (if code <= 0 || code == 27 || code == 39 then None else if code == 7 then Some(back)
               else if code == 30 then Some("black") else if code == 31 then Some("red")
               else if code == 32 then Some("green") else if code == 33 then Some("yellow")
               else if code == 34 then Some("blue") else if code == 35 then Some("magenta")
               else if code == 36 then Some("cyan") else if code == 37 then Some("white") else look.color)
      && r.background
           == (if code <= 0 || code == 27 || code == 49 then None else if code == 7 then Some(front)
               else if code == 40 then Some("black") else if code == 41 then Some("red")
               else if code == 42 then Some("green") else if code == 43 then Some("yellow")
               else if code == 44 then Some("blue") else if code == 45 then Some("magenta")
               else if code == 46 then Some("cyan") else if code == 47 then Some("white") else look.background)
  {
  }

  /** The parameters that decide a property, and what they make of it. */
  predicate Decides(p: Property, code: int) {
    code <= 0 ||
    match p
    case FontWeight => code == 1 || code == 22
    case TextDecoration => code == 4 || code == 24
    case Color => code == 7 || code == 27 || 30 <= code <= 37 || code == 39
    case Background => code == 7 || code == 27 || 40 <= code <= 47 || code == 49
  }

  function Chosen(p: Property, code: int, front: string, back: string): Option<string> {
    match p
    case FontWeight => if code == 1 then Some("bold") else None
    case TextDecoration => if code == 4 then Some("underline") else None
    case Color =>
      if code == 7 then Some(back)
      else if 30 <= code <= 37 then
        Some(["black", "red", "green", "yellow", "blue", "magenta", "cyan", "white"][code - 30])
      else None
    case Background =>
      if code == 7 then Some(front)
      else if 40 <= code <= 47 then
        Some(["black", "red", "green", "yellow", "blue", "magenta", "cyan", "white"][code - 40])
      else None
  }

  lemma OneDecides(look: Look, code: int, front: string, back: string, p: Property)
    ensures Select(look, code, front, back).Get(p)
      == if Decides(p, code) then Chosen(p, code, front, back) else look.Get(p)
  {
  }

  /** What the parameters leave: the last one that decides the property counts. */
  function Last(p: Property, codes: seq<int>, front: string, back: string, was: Option<string>): Option<string> {
    if codes == [] then was
    else
      var code := codes[|codes| - 1];
      if Decides(p, code) then Chosen(p, code, front, back)
      else Last(p, codes[..|codes| - 1], front, back, was)
  }

  lemma {:induction false} SelectedLast(look: Look, codes: seq<int>, front: string, back: string, p: Property)
    ensures SelectAll(look, codes, front, back).Get(p) == Last(p, codes, front, back, look.Get(p))
  {
    hide Select, Decides, Chosen;
    if codes == [] {
    } else {
      var init, code := codes[..|codes| - 1], codes[|codes| - 1];
      SelectedLast(look, init, front, back, p);
      OneDecides(SelectAll(look, init, front, back), code, front, back, p);
    }
  }

  /** After any parameters, a property is as the last parameter that decides it says, whatever was selected before;
      without such a parameter it is as it was. */
  lemma {:induction false} LastDecides(look: Look, codes: seq<int>, front: string, back: string, p: Property, i: nat)
    requires i <= |codes| && forall j :: i <= j < |codes| ==> !Decides(p, codes[j])
    requires i > 0 ==> Decides(p, codes[i - 1])
    ensures SelectAll(look, codes, front, back).Get(p)
      == if i == 0 then look.Get(p) else Chosen(p, codes[i - 1], front, back)
    decreases |codes|
  {
    hide Select, Decides, Chosen;
    SelectedLast(look, codes, front, back, p);
    if i < |codes| {
      var init := codes[..|codes| - 1];
      LastDecides(look, init, front, back, p, i);
      SelectedLast(look, init, front, back, p);
    }
  }

  // ----- the list

  function Entry(p: Property, v: string): string { Name(p) + " " + v }

  /** The list declares exactly what the record holds, each property once. */
  ghost predicate Lists(styles: seq<string>, look: Look) {
    && (forall s :: s in styles ==> exists p: Property :: look.Get(p).Some? && s == Entry(p, look.Get(p).value))
    && (forall p: Property :: look.Get(p).Some? ==> Entry(p, look.Get(p).value) in styles)
    && NoRepeats(styles)
  }

  /** The list declares a property with this value and no other, or does not declare it. */
  ghost predicate Declares(styles: seq<string>, name: string, v: Option<string>) {
    if v.None? then forall s :: s in styles ==> !(name <= s)
    else name + " " + v.value in styles && forall s :: s in styles && name <= s ==> s == name + " " + v.value
  }

  /** The four properties by name. */
  ghost predicate Shows(styles: seq<string>, weight: Option<string>, decoration: Option<string>, color: Option<string>,
                        background: Option<string>) {
    && Declares(styles, "font-weight:", weight) && Declares(styles, "text-decoration:", decoration)
    && Declares(styles, "color:", color) && Declares(styles, "background-color:", background)
  }

  lemma ListsDeclares(styles: seq<string>, look: Look, p: Property)
    requires Lists(styles, look)
    ensures Declares(styles, Name(p), look.Get(p))
  {
    hide Name;
    forall s | s in styles && Name(p) <= s ensures look.Get(p).Some? && s == Name(p) + " " + look.Get(p).value {
      var q: Property :| look.Get(q).Some? && s == Entry(q, look.Get(q).value);
      NamesDiffer(p, q, look.Get(q).value);
    }
    if look.Get(p).Some? { assert Entry(p, look.Get(p).value) in styles; }
  }

  lemma ListsShows(styles: seq<string>, look: Look)
    requires Lists(styles, look)
    ensures Shows(styles, look.weight, look.decoration, look.color, look.background)
  {
    hide Lists, Declares;
    ListsDeclares(styles, look, FontWeight);
    ListsDeclares(styles, look, TextDecoration);
    ListsDeclares(styles, look, Color);
    ListsDeclares(styles, look, Background);
  }

  /** What the parameters leave on the list. */
  ghost predicate ShowsLast(styles: seq<string>, look: Look, codes: seq<int>, front: string, back: string) {
    Shows(styles, Last(FontWeight, codes, front, back, look.weight),
          Last(TextDecoration, codes, front, back, look.decoration), Last(Color, codes, front, back, look.color),
          Last(Background, codes, front, back, look.background))
  }

  lemma SelectedShows(styles: seq<string>, look: Look, codes: seq<int>, front: string, back: string)
    requires Lists(styles, SelectAll(look, codes, front, back))
    ensures ShowsLast(styles, look, codes, front, back)
  {
    hide Lists, Shows, Last, SelectAll;
    ListsShows(styles, SelectAll(look, codes, front, back));
    SelectedLast(look, codes, front, back, FontWeight);
    SelectedLast(look, codes, front, back, TextDecoration);
    SelectedLast(look, codes, front, back, Color);
    SelectedLast(look, codes, front, back, Background);
  }

  predicate NoRepeats(styles: seq<string>) { forall i, j :: 0 <= i < j < |styles| ==> styles[i] != styles[j] }

  lemma NoRepeatsCons(s: string, rest: seq<string>)
    ensures NoRepeats([s] + rest) <==> s !in rest && NoRepeats(rest)
  {
    var all := [s] + rest;
    if NoRepeats(all) {
      forall i | 0 <= i < |rest| ensures rest[i] != s { assert all[0] != all[i + 1]; }
      forall i, j | 0 <= i < j < |rest| ensures rest[i] != rest[j] { assert all[i + 1] != all[j + 1]; }
    }
  }

  lemma NoRepeatsAppend(init: seq<string>, s: string)
    requires NoRepeats(init) && s !in init
    ensures NoRepeats(init + [s])
  {
    var all := init + [s];
    forall i, j | 0 <= i < j < |all| ensures all[i] != all[j] {
      assert all[i] == init[i] && init[i] in init;
      if j < |init| { assert all[j] == init[j]; }
    }
  }

  /** The list without the declarations of a property. */
  function Without(styles: seq<string>, name: string): seq<string> {
    if styles == [] then []
    else (if name <= styles[0] then [] else [styles[0]]) + Without(styles[1..], name)
  }

  lemma {:induction false} WithoutKeeps(styles: seq<string>, name: string)
    ensures forall s :: s in Without(styles, name) <==> s in styles && !(name <= s)
    ensures NoRepeats(styles) ==> NoRepeats(Without(styles, name))
  {
    if styles == [] {
    } else {
      var rest := styles[1..];
      WithoutKeeps(rest, name);
      assert styles == [styles[0]] + rest;
      NoRepeatsCons(styles[0], rest);
      NoRepeatsCons(styles[0], Without(rest, name));
      assert [] + Without(rest, name) == Without(rest, name);
    }
  }

  /** No property's name begins the declaration of another. */
  lemma NamesDiffer(p: Property, q: Property, v: string)
    ensures Name(p) <= Entry(q, v) <==> p == q
  {
    assert Entry(q, v)[0] == Name(q)[0];
    assert Entry(p, v)[..|Name(p)|] == Name(p);
    if Name(p) <= Entry(q, v) { assert Name(p)[0] == Entry(q, v)[0]; }
  }

  /** Removing a property's declarations and adding one is setting the property. */
  lemma PushSets(styles: seq<string>, look: Look, p: Property, v: Option<string>)
    requires Lists(styles, look)
    ensures Lists(Without(styles, Name(p)) + (if v.Some? then [Entry(p, v.value)] else []), look.Set(p, v))
  {
    hide Entry, Name, Without;
    var kept, next := Without(styles, Name(p)), look.Set(p, v);
    var styles' := kept + if v.Some? then [Entry(p, v.value)] else [];
    WithoutKeeps(styles, Name(p));
    forall s | s in styles' ensures exists q: Property :: next.Get(q).Some? && s == Entry(q, next.Get(q).value) {
      if s in kept {
        var q: Property :| look.Get(q).Some? && s == Entry(q, look.Get(q).value);
        NamesDiffer(p, q, look.Get(q).value);
        assert next.Get(q) == look.Get(q);
      } else {
        assert next.Get(p).Some? && s == Entry(p, next.Get(p).value);
      }
    }
    forall q: Property | next.Get(q).Some? ensures Entry(q, next.Get(q).value) in styles' {
      if q != p { NamesDiffer(p, q, next.Get(q).value); }
    }
    if v.Some? {
      NamesDiffer(p, p, v.value);
      NoRepeatsAppend(kept, Entry(p, v.value));
    }
  }

  /** A value that can be part of a declaration. */
  predicate Value(v: string) { v != "" && v[|v| - 1] > ' ' && ';' !in v }

  predicate AllValues(look: Look) { forall p: Property :: look.Get(p).Some? ==> Value(look.Get(p).value) }

  lemma ColorsAreValues(n: nat)
    requires n < 8
    ensures Value(ColorName(n))
  {
    assert n == 0 || n == 1 || n == 2 || n == 3 || n == 4 || n == 5 || n == 6 || n == 7;
  }

  lemma {:induction false} SelectedValues(look: Look, codes: seq<int>, front: string, back: string)
    requires AllValues(look) && Value(front) && Value(back)
    ensures AllValues(SelectAll(look, codes, front, back))
  {
    if codes == [] {
    } else {
      var code := codes[|codes| - 1];
      SelectedValues(look, codes[..|codes| - 1], front, back);
      if 30 <= code <= 37 { ColorsAreValues(code - 30); }
      if 40 <= code <= 47 { ColorsAreValues(code - 40); }
      assert Value("bold") && Value("underline");
    }
  }

  /** So the lists that parameters produce are the lists that attributes carry faithfully. */
  lemma ListsClean(styles: seq<string>, look: Look)
    requires Lists(styles, look) && AllValues(look)
    ensures AllClean(styles)
  {
    forall i | 0 <= i < |styles| ensures Clean(styles[i]) {
      assert styles[i] in styles;
      var p: Property :| look.Get(p).Some? && styles[i] == Entry(p, look.Get(p).value);
      EntryClean(p, look.Get(p).value);
    }
  }

  lemma EntryClean(p: Property, v: string)
    requires Value(v)
    ensures Clean(Entry(p, v))
  {
  }
}
