/** Names made up for unknown enumerants: strings in a rotating buffer, given out without being freed. */
module EnumNames {
  const SIZE := 1024
  const ROOM := 16         // what one string may take; there is that much left, or the buffer starts over
  const NUL := '\0'

  type Value = v: int | 0 <= v < 0x1_0000_0000

  // ----- the string for a value

  function Digit(d: nat): char
    requires d < 16
  {
    "0123456789abcdef"[d]
  }

  /** `%x`. */
  function Hex(v: nat): string { if v < 16 then [Digit(v)] else Hex(v / 16) + [Digit(v % 16)] }

  function Name(v: Value): string { "0x" + Hex(v) }

  function Power16(n: nat): nat { if n == 0 then 1 else 16 * Power16(n - 1) }

  lemma {:induction false} HexLength(v: nat, n: nat)
    requires v < Power16(n) && n >= 1
    ensures 1 <= |Hex(v)| <= n && NUL !in Hex(v)
  {
    if v >= 16 {
      assert Power16(1) == 16;
      HexLength(v / 16, n - 1);
    }
  }

  lemma NameLength(v: Value)
    ensures 3 <= |Name(v)| <= 10 && NUL !in Name(v)
  {
    assert Power16(8) == 0x1_0000_0000 by {
      assert Power16(4) == 16 * (16 * (16 * (16 * Power16(0))));
      assert Power16(8) == 16 * (16 * (16 * (16 * Power16(4))));
    }
    HexLength(v, 8);
  }

  predicate HexDigit(c: char) { '0' <= c <= '9' || 'a' <= c <= 'f' }

  /** The number a string of hexadecimal digits stands for. */
  function HexValue(s: string): nat
    requires forall c :: c in s ==> HexDigit(c)
  {
    if s == "" then 0
    else
      var c := s[|s| - 1];
      assert HexDigit(c);
      16 * HexValue(s[..|s| - 1]) + if c <= '9' then c as int - '0' as int else c as int - 'a' as int + 10
  }

  lemma DigitStandsFor(d: nat)
    requires d < 16
    ensures HexDigit(Digit(d)) && (Digit(d) == '0' <==> d == 0)
    ensures d == if Digit(d) <= '9' then Digit(d) as int - '0' as int else Digit(d) as int - 'a' as int + 10
  {
    assert d == 0 || d == 1 || d == 2 || d == 3 || d == 4 || d == 5 || d == 6 || d == 7 || d == 8 || d == 9 || d == 10
      || d == 11 || d == 12 || d == 13 || d == 14 || d == 15;
  }

  /** The name is "0x" and the value in hexadecimal, without leading zeros. */
  lemma {:induction false} HexStandsFor(v: nat)
    ensures forall c :: c in Hex(v) ==> HexDigit(c)
    ensures HexValue(Hex(v)) == v && Hex(v) != "" && (Hex(v)[0] == '0' <==> v == 0)
  {
    hide Digit;
    DigitStandsFor(v % 16);
    if v < 16 {
      assert [Digit(v)][..0] == "";
    } else {
      HexStandsFor(v / 16);
      assert Hex(v)[..|Hex(v)| - 1] == Hex(v / 16);
    }
  }

  // ----- the buffer

  datatype State = State(buf: seq<char>, ptr: nat)

  /** Where the next string goes. */
  function Place(st: State): nat { if st.ptr + ROOM > SIZE then 0 else st.ptr }

  function Put(buf: seq<char>, p: nat, text: string): seq<char>
    requires p + |text| <= |buf|
  {
    buf[..p] + text + buf[p + |text|..]
  }

  ghost predicate Valid(st: State) { |st.buf| == SIZE && st.ptr <= SIZE }

  function Step(st: State, v: Value): (r: State)
    requires Valid(st)
    ensures Valid(r)
  {
    NameLength(v);
    var p := Place(st);
    State(Put(st.buf, p, Name(v) + [NUL]), p + |Name(v)| + 1)
  }

  /** The string a reader finds at a place. */
  function StringAt(buf: seq<char>, p: nat): string
    requires p <= |buf|
    decreases |buf| - p
  {
    if p == |buf| || buf[p] == NUL then "" else [buf[p]] + StringAt(buf, p + 1)
  }

  lemma {:induction false} StringFound(buf: seq<char>, p: nat, text: string)
    requires NUL !in text && p + |text| + 1 <= |buf| && buf[p..p + |text| + 1] == text + [NUL]
    ensures StringAt(buf, p) == text
    decreases |text|
  {
    var all := text + [NUL];
    assert buf[p] == buf[p..p + |all|][0] == all[0];
    if text == "" {
    } else {
      assert buf[p + 1..p + 1 + |text[1..]| + 1] == text[1..] + [NUL] by {
        assert buf[p + 1..p + |all|] == buf[p..p + |all|][1..];
      }
      StringFound(buf, p + 1, text[1..]);
    }
  }

  /** A run: the buffer, and the places of the strings given out. */
  function Run(buf: seq<char>, vs: seq<Value>): (r: (State, seq<nat>))
    requires |buf| == SIZE
    ensures Valid(r.0) && |r.1| == |vs|
  {
    if vs == [] then (State(buf, 0), [])
    else
      var (st, at) := Run(buf, vs[..|vs| - 1]);
      (Step(st, vs[|vs| - 1]), at + [Place(st)])
  }

  // ----- how long strings stay

  function Length(v: Value): nat { |Name(v)| + 1 }

  /** The last `lap` strings are in order below the pointer; those before them end above the last start that
      leaves room. */
  ghost predicate Laid(ptr: nat, vs: seq<Value>, at: seq<nat>, lap: nat) {
    && |at| == |vs| && lap <= |vs| && ptr <= 11 * lap
    && (forall i :: |vs| - lap <= i < |vs| ==> ptr - 11 * (|vs| - i) <= at[i] <= ptr - Length(vs[i]))
    && (forall i :: 0 <= i < |vs| - lap && |vs| - 91 <= i ==> at[i] >= 1009 - 11 * (|vs| - lap - i))
  }

  ghost predicate Intact(buf: seq<char>, p: nat, v: Value) {
    p + Length(v) <= |buf| && buf[p..p + Length(v)] == Name(v) + [NUL]
  }

  ghost predicate LastIntact(buf: seq<char>, vs: seq<Value>, at: seq<nat>) {
    |at| == |vs| && forall i :: 0 <= i < |vs| && |vs| - 91 <= i ==> Intact(buf, at[i], vs[i])
  }

  /** Starting over: a lap has more strings than the window, so the whole window is in it. */
  lemma LaidOver(ptr: nat, vs: seq<Value>, at: seq<nat>, lap: nat)
    requires Laid(ptr, vs, at, lap) && ptr + ROOM > SIZE
    ensures Laid(0, vs, at, 0)
  {
    hide Length;
  }

  lemma LaidNext(ptr: nat, vs: seq<Value>, at: seq<nat>, lap: nat, v: Value)
    requires Laid(ptr, vs, at, lap) && 4 <= Length(v) <= 11
    ensures Laid(ptr + Length(v), vs + [v], at + [ptr], lap + 1)
  {
    hide Length;
  }

  lemma PutKeeps(buf: seq<char>, p: nat, text: string, q: nat, v: Value)
    requires p + |text| <= |buf| && Intact(buf, q, v) && (q + Length(v) <= p || p + |text| <= q)
    ensures Intact(Put(buf, p, text), q, v)
  {
    var t := Put(buf, p, text);
    var n := Length(v);
    forall i | q <= i < q + n ensures t[i] == buf[i] { }
    assert t[q..q + n] == buf[q..q + n];
  }

  lemma IntactNext(buf: seq<char>, ptr: nat, vs: seq<Value>, at: seq<nat>, lap: nat, v: Value)
    requires |buf| == SIZE && ptr + ROOM <= SIZE && Laid(ptr, vs, at, lap) && LastIntact(buf, vs, at)
    requires |Name(v)| <= 10
    ensures LastIntact(Put(buf, ptr, Name(v) + [NUL]), vs + [v], at + [ptr])
  {
    hide Name, Intact;
    var text := Name(v) + [NUL];
    var t, ws, bt := Put(buf, ptr, text), vs + [v], at + [ptr];
    forall i | 0 <= i < |ws| && |ws| - 91 <= i ensures Intact(t, bt[i], ws[i]) {
      if i < |vs| {
        assert bt[i] == at[i] && ws[i] == vs[i] && Intact(buf, at[i], vs[i]);
        if i < |vs| - lap {
          assert at[i] >= 1009 - 11 * (|vs| - lap - i);
        } else {
          assert at[i] <= ptr - Length(vs[i]);
        }
        PutKeeps(buf, ptr, text, at[i], vs[i]);
      } else {
        assert Intact(t, ptr, v) by { PutIntact(buf, ptr, v); }
      }
    }
  }

  lemma PutIntact(buf: seq<char>, p: nat, v: Value)
    requires p + Length(v) <= |buf|
    ensures Intact(Put(buf, p, Name(v) + [NUL]), p, v)
  {
    hide Name;
    var text := Name(v) + [NUL];
    assert Put(buf, p, text)[p..p + |text|] == text;
  }

  lemma {:induction false} RunLaid(buf: seq<char>, vs: seq<Value>) returns (lap: nat)
    requires |buf| == SIZE
    ensures var (st, at) := Run(buf, vs); Laid(st.ptr, vs, at, lap) && LastIntact(st.buf, vs, at)
  {
    hide Name, Put, Laid, LastIntact;
    if vs == [] {
      lap := 0;
      assert Laid(0, [], [], 0) && LastIntact(buf, [], []) by { NothingLaid(buf); }
    } else {
      var init, v := vs[..|vs| - 1], vs[|vs| - 1];
      var (st, at) := Run(buf, init);
      lap := RunLaid(buf, init);
      NameLength(v);
      assert init + [v] == vs;
      if st.ptr + ROOM > SIZE {
        LaidOver(st.ptr, init, at, lap);
        lap := 0;
      }
      LaidNext(Place(st), init, at, lap, v);
      IntactNext(st.buf, Place(st), init, at, lap, v);
      lap := lap + 1;
    }
  }

  lemma NothingLaid(buf: seq<char>)
    ensures Laid(0, [], [], 0) && LastIntact(buf, [], [])
  {
  }

  /** After any run, each of the last 91 strings given out still reads as it did. */
  lemma LastNinetyOne(buf: seq<char>, vs: seq<Value>, i: nat)
    requires |buf| == SIZE && i < |vs| <= i + 91
    ensures var (st, at) := Run(buf, vs); at[i] <= |st.buf| && StringAt(st.buf, at[i]) == Name(vs[i])
  {
    hide Name, Run;
    var (st, at) := Run(buf, vs);
    var lap := RunLaid(buf, vs);
    assert Intact(st.buf, at[i], vs[i]);
    NameLength(vs[i]);
    StringFound(st.buf, at[i], Name(vs[i]));
  }

  // ----- and no longer

  const SHORT: Value := 0xfffff
  const LONG: Value := 0xffff_ffff

  function Longs(n: nat): seq<Value> { seq(n, _ => LONG) }

  lemma LongNames()
    ensures Name(SHORT) == "0xfffff" && Name(LONG) == "0xffffffff"
  {
    hide Hex;
    assert Power16(5) == 0x10_0000 && Power16(8) == 0x1_0000_0000 by {
      assert Power16(4) == 16 * (16 * (16 * (16 * Power16(0))));
      assert Power16(8) == 16 * (16 * (16 * (16 * Power16(4))));
    }
    AllFs(5);
    AllFs(8);
    assert seq(5, _ => 'f') == "fffff" && seq(8, _ => 'f') == "ffffffff";
  }

  /** The largest numbers of their length. */
  lemma {:induction false} AllFs(n: nat)
    requires n >= 1
    ensures Power16(n) >= 16 && Hex(Power16(n) - 1) == seq(n, _ => 'f')
    decreases n
  {
    if n == 1 {
      assert Power16(1) == 16;
      assert Hex(15) == ['f'] == seq(1, _ => 'f');
    } else {
      AllFs(n - 1);
      var v := Power16(n) - 1;
      assert v / 16 == Power16(n - 1) - 1 && v % 16 == 15;
      assert Hex(v) == Hex(v / 16) + ['f'];
      assert seq(n, _ => 'f') == seq(n - 1, _ => 'f') + ['f'];
    }
  }

  lemma {:induction false} LongRun(buf: seq<char>, n: nat)
    requires |buf| == SIZE && n <= 91
    ensures var (st, at) := Run(buf, [SHORT] + Longs(n));
      st.ptr == 8 + 11 * n && (n >= 1 ==> at[1] == 8)
  {
    hide Name, Put;
    LongNames();
    var vs := [SHORT] + Longs(n);
    if n == 0 {
      assert vs[..0] == [] && vs == [SHORT];
      assert Run(buf, []) == (State(buf, 0), []);
    } else {
      LongRun(buf, n - 1);
      assert vs[..|vs| - 1] == [SHORT] + Longs(n - 1);
      var (st, at) := Run(buf, vs[..|vs| - 1]);
      assert Run(buf, vs).1 == at + [Place(st)];
    }
  }

  /** 91 is exact: one string of eight bytes and 92 of eleven, and the first of those 92 is overwritten. */
  lemma NotNinetyTwo(buf: seq<char>)
    requires |buf| == SIZE
    ensures var vs := [SHORT] + Longs(92); var (st, at) := Run(buf, vs);
      at[1] <= |st.buf| && StringAt(st.buf, at[1]) != Name(vs[1])
  {
    hide Name, Step, StringAt;
    var vs := [SHORT] + Longs(92);
    LongRun(buf, 91);
    assert vs[..|vs| - 1] == [SHORT] + Longs(91);
    var (st, at) := Run(buf, vs[..|vs| - 1]);
    Overwritten(st);
  }

  lemma Overwritten(st: State)
    requires Valid(st) && Place(st) == 0
    ensures StringAt(Step(st, LONG).buf, 8) != Name(LONG)
  {
    hide Name;
    LongNames();
    var text := "0xffffffff" + [NUL];
    var t := Put(st.buf, 0, text);
    assert t[8] == text[8] == 'f';
    assert StringAt(t, 8)[0] == 'f';
  }

  // ----- the program

  class Names {
    const buf: array<char>
    var ptr: nat
    ghost const first: seq<char>       // the buffer at the start
    ghost var given: seq<Value>        // the values named so far
    ghost var places: seq<nat>         // and where their names were put

    ghost predicate Ready()
      reads this, buf
    {
      buf.Length == |first| == SIZE && Run(first, given) == (State(buf[..], ptr), places)
    }

    constructor ()
      ensures Ready() && given == [] && fresh(buf)
    {
      buf := new char[SIZE](_ => NUL);
      ptr := 0;
      given, places := [], [];
      first := seq(SIZE, _ => NUL);
      new;
      assert buf[..] == first;
    }

    /** Write a string with its terminating null. */
    method Print(p: nat, text: string)
      requires p + |text| + 1 <= buf.Length
      modifies buf
      ensures buf[..] == Put(old(buf[..]), p, text + [NUL])
    {
      var i := 0;
      ghost var was := buf[..];
      while i < |text|
        invariant 0 <= i <= |text|
        invariant forall j :: 0 <= j < i ==> buf[p + j] == text[j]
        invariant forall j :: 0 <= j < p || p + i <= j < buf.Length ==> buf[j] == was[j]
      {
        buf[p + i] := text[i];
        i := i + 1;
      }
      buf[p + i] := NUL;
      assert buf[p..p + i] == text;
      assert buf[..] == was[..p] + (text + [NUL]) + was[p + i + 1..];
    }

    /** The name of a value that has none: it is put where the run says, and the last 91 names all read right. */
    method Fallback(v: Value) returns (res: nat)
      requires Ready()
      modifies this, buf
      ensures Ready() && given == old(given) + [v] && places == old(places) + [res]
      ensures forall i :: 0 <= i < |given| && |given| - 91 <= i ==>
        places[i] <= SIZE && StringAt(buf[..], places[i]) == Name(given[i])
    {
      hide Name, StringAt;
      NameLength(v);
      ghost var st := State(buf[..], ptr);
      if ptr + ROOM > SIZE { ptr := 0; }
      res := ptr;
      Print(ptr, Name(v));
      ptr := ptr + |Name(v)| + 1;
      assert (given + [v])[..|given|] == given;
      given, places := given + [v], places + [res];
      assert Run(first, given) == (Step(st, v), old(places) + [Place(st)]);
      forall i | 0 <= i < |given| && |given| - 91 <= i
        ensures places[i] <= SIZE && StringAt(buf[..], places[i]) == Name(given[i])
      {
        LastNinetyOne(first, given, i);
      }
    }
  }
}
