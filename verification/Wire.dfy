/** The value encodings of the trace file: what each `put` of `iolib.c` appends, what each `get` reads
    back and where it leaves the cursor. Every encoding is uniquely decodable in front of any suffix. */
module Wire {
  import opened Bytes
  import opened Options

  /** `MARKER`, the escape word of a nullable int, as the `int` that is stored. */
  const MARKER: Int32 := 0xdead_bead - 0x1_0000_0000

  /** The largest length that survives being rounded up in a C `int`. */
  const MAX_LENGTH := 0x7fff_fffc

  /** The `(data, size)` pair handed to `putBytes`; `data` is the memory at the pointer, if not null. */
  datatype Buf = Buf(data: Option<seq<Byte>>, size: Int32)

  /** One `put` call. A pointer is a number, a string has no terminator, a float is its 32-bit pattern. */
  datatype Field =
    | FInt(v: Int32)
    | FOptInt(o: Option<Int32>)
    | FU64(u: Uint64)
    | FPtr(p: Uint64)
    | FStr(s: Option<seq<Byte>>)
    | FBuf(b: Buf)

  datatype Kind = KInt | KOptInt | KU64 | KPtr | KStr | KBuf

  /** What a `get` returns; a returned data pointer is shown as the bytes it gives access to. */
  datatype Val =
    | VInt(v: Int32)
    | VOptInt(o: Option<Int32>)
    | VU64(u: Uint64)
    | VPtr(p: Uint64)
    | VStr(s: Option<seq<Byte>>)
    | VBuf(b: Option<seq<Byte>>)

  function KindOf(f: Field): Kind {
    match f
    case FInt(_) => KInt
    case FOptInt(_) => KOptInt
    case FU64(_) => KU64
    case FPtr(_) => KPtr
    case FStr(_) => KStr
    case FBuf(_) => KBuf
  }

  predicate WordSize(w: nat) { w == 4 || w == 8 }

  /** The number of bytes `putBytes` copies, as it stores it in front of them. */
  function Left(b: Buf): Int32 {
    if b.data.None? then 0 else b.size
  }

  /** What C guarantees of the arguments of a `put`: addresses fit the word, a string has no inner NUL,
      a buffer has as many bytes as its size says; and lengths can be rounded up in an `int`. */
  predicate FieldOk(w: nat, f: Field) {
    match f
    case FPtr(p) => p < Pow256(w)
    case FStr(Some(s)) => 0 !in s && |s| + 1 <= MAX_LENGTH
    case FBuf(b) => b.size <= MAX_LENGTH && (b.data.Some? && b.size > 0 ==> |b.data.value| >= b.size)
    case _ => true
  }

  function EncInt(v: Int32): (s: seq<Byte>)
    ensures |s| == 4
  {
    Le(ToUnsigned(v), 4)
  }

  /** The bytes one `put` appends. */
  function Enc(w: nat, f: Field): (s: seq<Byte>)
    requires FieldOk(w, f)
  {
    match f
    case FInt(v) => EncInt(v)
    case FOptInt(None) => EncInt(MARKER) + EncInt(0)
    case FOptInt(Some(v)) => if v == MARKER then EncInt(MARKER) + EncInt(MARKER) else EncInt(v)
    case FU64(u) => Le(u, 8)
    case FPtr(p) => Le(p, w)
    case FStr(None) => EncInt(0)
    case FStr(Some(s)) => s + [0] + Zeros(PadLength(|s| + 1))
    case FBuf(b) =>
      if Left(b) <= 0 then EncInt(Left(b))
      else EncInt(Left(b)) + b.data.value[..Left(b)] + Zeros(PadLength(Left(b)))
  }

  /** What the reader makes of a field: null strings come back empty, empty blocks come back null,
      4-byte pointers come back sign-extended. */
  function SeePtr(w: nat, p: Uint64): (q: Uint64)
    requires p < Pow256(w)
    ensures q == 0 <==> p == 0
  {
    if w == 4 then
      WordSizes();
      if p >= 0x8000_0000 then p + 0xffff_ffff_0000_0000 else p
    else p
  }

  function See(w: nat, f: Field): Val
    requires FieldOk(w, f)
  {
    match f
    case FInt(v) => VInt(v)
    case FOptInt(o) => VOptInt(o)
    case FU64(u) => VU64(u)
    case FPtr(p) => VPtr(SeePtr(w, p))
    case FStr(None) => VStr(Some([]))
    case FStr(Some(s)) => VStr(Some(s))
    case FBuf(b) => VBuf(if Left(b) <= 0 then None else Some(b.data.value[..Left(b)]))
  }

  // ----- the readers, on any file contents `d` and cursor `p`

  /** `n` bytes at `p`; memory beyond the mapped file reads as zero. */
  function Slice(d: seq<Byte>, p: int, n: nat): (s: seq<Byte>)
    ensures |s| == n
  {
    if 0 <= p && p + n <= |d| then d[p..p + n] else Zeros(n)
  }

  function Word(d: seq<Byte>, p: int): Int32 {
    WordSizes();
    ToSigned(FromLe(Slice(d, p, 4)))
  }

  /** `strlen`; an unterminated string runs to the end of the file. */
  function StrLen(d: seq<Byte>, p: int): (n: nat)
    ensures 0 <= p <= |d| ==> p + n <= |d|
    decreases |d| - p
  {
    if p < 0 || p >= |d| || d[p] == 0 then 0 else 1 + StrLen(d, p + 1)
  }

  /** `len += 3; len -= len % 4` in a C `int`. */
  function RoundUp(len: Int32): Int32 {
    WrapInt(WrapInt(len + 3) - WrapInt(len + 3) % 4)
  }

  function GetInt(d: seq<Byte>, p: int): (Int32, int) {
    if p + 4 > |d| then (0, p) else (Word(d, p), p + 4)
  }

  function Get(w: nat, k: Kind, d: seq<Byte>, p: int): (Val, int) {
    match k
    case KInt => (VInt(GetInt(d, p).0), GetInt(d, p).1)
    case KOptInt =>
      if p + 4 > |d| then (VOptInt(None), p)
      else if Word(d, p) != MARKER then (VOptInt(Some(Word(d, p))), p + 4)
      else (VOptInt(if Word(d, p + 4) == 0 then None else Some(Word(d, p + 4))), p + 8)
    case KU64 =>
      WordSizes();
      if p + 8 > |d| then (VU64(0), p) else (VU64(FromLe(Slice(d, p, 8))), p + 8)
    case KPtr =>
      WordSizes();
      if p + w > |d| then (VPtr(0), p)
      else if w == 4 then (VPtr(SeePtr(4, FromLe(Slice(d, p, 4)))), p + 4)
      else (VPtr(FromLe(Slice(d, p, 8))), p + w)
    case KStr =>
      var n := StrLen(d, p);
      if p + WrapInt(n + 1) > |d| then (VStr(None), p)
      else (VStr(Some(Slice(d, p, n))), p + RoundUp(WrapInt(n + 1)))
    case KBuf =>
      if p + 4 > |d| then (VBuf(None), p)
      else
        var size := Word(d, p);
        if size <= 0 || p + 4 + size > |d| then (VBuf(None), p + 4)
        else (VBuf(Some(Slice(d, p + 4, size))), p + 4 + RoundUp(size))
  }

  // ----- unique decodability

  /** The file holds the bytes `e` at position `p`. */
  predicate At(d: seq<Byte>, p: int, e: seq<Byte>) {
    0 <= p && p + |e| <= |d| && d[p..p + |e|] == e
  }

  lemma AtConcat(d: seq<Byte>, p: int, a: seq<Byte>, b: seq<Byte>)
    ensures At(d, p, a + b) <==> At(d, p, a) && At(d, p + |a|, b)
  {
    if At(d, p, a) && At(d, p + |a|, b) {
      assert d[p..p + |a + b|] == d[p..p + |a|] + d[p + |a|..p + |a| + |b|];
    }
    if At(d, p, a + b) {
      var e := d[p..p + |a + b|];
      assert d[p..p + |a|] == e[..|a|] == a;
      assert d[p + |a|..p + |a| + |b|] == e[|a|..] == b;
    }
  }

  lemma WordAt(d: seq<Byte>, p: int, v: Int32)
    requires At(d, p, EncInt(v))
    ensures Word(d, p) == v && GetInt(d, p) == (v, p + 4)
  {
    WordSizes();
    LeRoundTrip(ToUnsigned(v), 4);
  }

  /** The reader's rounding lands on the writer's padding exactly for lengths up to `MAX_LENGTH`;
      for the three longer ones the cursor would move backwards. */
  lemma RoundUpExact(len: Int32)
    requires len >= 0
    ensures len <= MAX_LENGTH ==> RoundUp(len) == len + PadLength(len)
    ensures len > MAX_LENGTH ==> RoundUp(len) < 0
  {
  }

  lemma {:induction false} StrLenAt(d: seq<Byte>, p: int, s: seq<Byte>)
    requires 0 !in s && At(d, p, s + [0])
    ensures StrLen(d, p) == |s|
    decreases |s|
  {
    if s == [] {
      assert (s + [0])[0] == 0;
    } else {
      assert s + [0] == [s[0]] + (s[1..] + [0]);
      AtConcat(d, p, [s[0]], s[1..] + [0]);
      assert d[p] == d[p..p + 1][0] == s[0];
      StrLenAt(d, p + 1, s[1..]);
    }
  }

  lemma SlicePrefix(d: seq<Byte>, p: int, a: seq<Byte>)
    requires At(d, p, a)
    ensures Slice(d, p, |a|) == a
  {
  }

  lemma GetStr(w: nat, d: seq<Byte>, p: int, s: seq<Byte>)
    requires FieldOk(w, FStr(Some(s)))
    requires At(d, p, Enc(w, FStr(Some(s))))
    ensures Get(w, KStr, d, p) == (VStr(Some(s)), p + |Enc(w, FStr(Some(s)))|)
  {
    AtConcat(d, p, s + [0], Zeros(PadLength(|s| + 1)));
    StrLenAt(d, p, s);
    AtConcat(d, p, s, [0]);
    SlicePrefix(d, p, s);
    RoundUpExact(|s| + 1);
  }

  lemma GetBuf(w: nat, d: seq<Byte>, p: int, b: Buf)
    requires FieldOk(w, FBuf(b))
    requires At(d, p, Enc(w, FBuf(b)))
    ensures Get(w, KBuf, d, p) == (See(w, FBuf(b)), p + |Enc(w, FBuf(b))|)
  {
    var n := Left(b);
    if n <= 0 {
      WordAt(d, p, n);
    } else {
      var data := b.data.value[..n];
      AtConcat(d, p, EncInt(n) + data, Zeros(PadLength(n)));
      AtConcat(d, p, EncInt(n), data);
      WordAt(d, p, n);
      SlicePrefix(d, p + 4, data);
      RoundUpExact(n);
    }
  }

  lemma GetOptInt(w: nat, d: seq<Byte>, p: int, o: Option<Int32>)
    requires At(d, p, Enc(w, FOptInt(o)))
    ensures Get(w, KOptInt, d, p) == (VOptInt(o), p + |Enc(w, FOptInt(o))|)
  {
    var first, second := if o.None? then MARKER else o.value, if o.None? then 0 else MARKER;
    if first == MARKER {
      AtConcat(d, p, EncInt(first), EncInt(second));
      WordAt(d, p + 4, second);
    }
    WordAt(d, p, first);
  }

  lemma GetU64(w: nat, d: seq<Byte>, p: int, u: Uint64)
    requires At(d, p, Le(u, 8))
    ensures Get(w, KU64, d, p) == (VU64(u), p + 8)
  {
    WordSizes();
    LeRoundTrip(u, 8);
    SlicePrefix(d, p, Le(u, 8));
  }

  lemma GetPtr(w: nat, d: seq<Byte>, p: int, q: Uint64)
    requires WordSize(w) && q < Pow256(w) && At(d, p, Le(q, w))
    ensures Get(w, KPtr, d, p) == (VPtr(SeePtr(w, q)), p + w)
  {
    LeRoundTrip(q, w);
    SlicePrefix(d, p, Le(q, w));
  }

  lemma NullStringIsEmptyString(w: nat)
    ensures Enc(w, FStr(None)) == Enc(w, FStr(Some([])))
  {
    hide Le;
    LeZero(4);
    assert [] + [0] + Zeros(3) == Zeros(4);
  }

  lemma {:induction false} LeZero(n: nat)
    ensures Le(0, n) == Zeros(n)
  {
    if n == 0 {
    } else {
      LeZero(n - 1);
      assert Zeros(n) == [0] + Zeros(n - 1);
    }
  }

  /** Reading at a written field returns that field and stops exactly at its end, whatever follows. */
  lemma GetEnc(w: nat, f: Field, d: seq<Byte>, p: int)
    requires WordSize(w) && FieldOk(w, f)
    requires At(d, p, Enc(w, f))
    ensures Get(w, KindOf(f), d, p) == (See(w, f), p + |Enc(w, f)|)
  {
    hide Le, Slice, StrLen, RoundUp, WrapInt, PadLength, FromLe;
    match f {
      case FInt(v) => WordAt(d, p, v);
      case FOptInt(o) => GetOptInt(w, d, p, o);
      case FU64(u) => GetU64(w, d, p, u);
      case FPtr(q) => GetPtr(w, d, p, q);
      case FStr(Some(s)) => GetStr(w, d, p, s);
      case FStr(None) =>
        NullStringIsEmptyString(w);
        GetStr(w, d, p, []);
      case FBuf(b) => GetBuf(w, d, p, b);
    }
  }

  /** No written field is a proper prefix of, or confusable with, another of its kind. */
  lemma UniquelyDecodable(w: nat, f: Field, g: Field, r: seq<Byte>, t: seq<Byte>)
    requires WordSize(w) && FieldOk(w, f) && FieldOk(w, g) && KindOf(f) == KindOf(g)
    requires Enc(w, f) + r == Enc(w, g) + t
    ensures See(w, f) == See(w, g) && Enc(w, f) == Enc(w, g) && r == t
  {
    var d := Enc(w, f) + r;
    assert d[0..|Enc(w, f)|] == Enc(w, f);
    assert d[0..|Enc(w, g)|] == Enc(w, g);
    GetEnc(w, f, d, 0);
    GetEnc(w, g, d, 0);
    assert r == d[|Enc(w, f)|..] == t;
  }

  /** A pointer survives the trip through the file exactly when the recorder's words are 8 bytes
      wide or its sign bit is clear. */
  lemma PointerExact(w: nat, p: Uint64)
    requires WordSize(w) && p < Pow256(w)
    ensures SeePtr(w, p) == p <==> w == 8 || p < 0x8000_0000
  {
    WordSizes();
  }

  /** A length whose rounding comes out negative: above `MAX_LENGTH`, or wrapped below zero. */
  predicate BadLength(len: Int32) { len > MAX_LENGTH || len <= -4 }

  lemma RoundUpNegative(len: Int32)
    ensures RoundUp(len) < 0 <==> BadLength(len)
    ensures len > MAX_LENGTH ==> RoundUp(len) < -4
  {
    if 0 <= len { RoundUpExact(len); }
  }

  /** A string or block at `p` that is accepted although its length cannot be rounded up in an `int`. */
  predicate BadBlock(k: Kind, d: seq<Byte>, p: int) {
    match k
    case KStr => var len := WrapInt(StrLen(d, p) + 1); p + len <= |d| && BadLength(len)
    case KBuf => p + 4 <= |d| && Word(d, p) > MAX_LENGTH && p + 4 + Word(d, p) <= |d|
    case _ => false
  }

  /** A getter does not move the cursor backwards, except, always, at such a block. */
  lemma GetAdvances(w: nat, k: Kind, d: seq<Byte>, p: int)
    requires WordSize(w)
    ensures p <= Get(w, k, d, p).1 <==> !BadBlock(k, d, p)
  {
    hide RoundUp, WrapInt, StrLen;
    if k == KStr {
      RoundUpNegative(WrapInt(StrLen(d, p) + 1));
    } else if k == KBuf && p + 4 <= |d| {
      RoundUpNegative(Word(d, p));
    }
  }

  /** No such block anywhere: what the reader needs to make progress. */
  ghost predicate Readable(d: seq<Byte>) { forall k, p :: 0 <= p ==> !BadBlock(k, d, p) }

  /** Files of at most `MAX_LENGTH` bytes have no room for one. */
  lemma ShortIsReadable(d: seq<Byte>)
    requires |d| <= MAX_LENGTH
    ensures Readable(d)
  {
    forall k, p | 0 <= p ensures !BadBlock(k, d, p) {
      if k == KStr { assert p >= |d| ==> StrLen(d, p) == 0; }
    }
  }
}
