/** Client-side vertex arrays: how `putVertexAttrib` packs the enabled attributes of a draw call and
    what the replayed call, which sees them with stride 0, fetches from the packed bytes. */
module VertexArrays {
  import opened Bytes
  import opened Options

  const MAX_VERTEX_ATTRIBS: nat := 128

  /** Client memory; an address that is not listed reads as zero. */
  type Memory = map<int, Byte>

  datatype Attrib = Attrib(enabled: bool, size: Int32, typ: Int32, normalized: Int32, stride: Int32, pointer: Uint64)

  function Load(mem: Memory, a: int): Byte {
    if a in mem then mem[a] else 0
  }

  function LoadRange(mem: Memory, a: int, n: nat): (s: seq<Byte>)
    ensures |s| == n
  {
    seq<Byte>(n, i => Load(mem, a + i))
  }

  /** `glSizeof`; the interceptor exits the process for any other type. */
  function SizeOf(typ: Int32): Option<nat> {
    if typ == 0x1400 || typ == 0x1401 then Some(1)          // GL_BYTE, GL_UNSIGNED_BYTE
    else if typ == 0x1402 || typ == 0x1403 then Some(2)     // GL_SHORT, GL_UNSIGNED_SHORT
    else if 0x1404 <= typ <= 0x1406 then Some(4)            // GL_INT, GL_UNSIGNED_INT, GL_FLOAT
    else None
  }

  /** `getVertexCount`: the number of vertices of the quads drawn with `count` indices. */
  function VertexCount(count: Int32): nat {
    if count <= 0 then 0 else count / 6 * 4
  }

  /** The product of type size and component count, before it is stored in an `int`. */
  function RawSize(a: Attrib): int { if SizeOf(a.typ).None? then 0 else SizeOf(a.typ).value * a.size }

  /** `elemsz`: the bytes copied for one element; a negative value copies nothing. */
  function ElemSize(a: Attrib): nat {
    var elem := WrapInt(RawSize(a));
    if elem < 0 then 0 else elem
  }

  /** The distance between elements; stride 0 means tightly packed. */
  function Distance(a: Attrib): nat {
    if a.stride > 0 then a.stride else ElemSize(a)
  }

  /** Element `j` of an array at `base`, as section 2.8 of the OpenGL ES 2.0 specification reads it. */
  function Fetch(mem: Memory, base: int, step: nat, elem: nat, j: nat): (s: seq<Byte>)
    ensures |s| == elem
  {
    LoadRange(mem, base + j * step, elem)
  }

  function Gathered(mem: Memory, base: int, step: nat, elem: nat, n: nat): (s: seq<Byte>) {
    if n == 0 then [] else Gathered(mem, base, step, elem, n - 1) + Fetch(mem, base, step, elem, n - 1)
  }

  function Packed(mem: Memory, a: Attrib, n: nat): seq<Byte> {
    Gathered(mem, a.pointer, Distance(a), ElemSize(a), n)
  }

  lemma {:induction false} GatheredLength(mem: Memory, base: int, step: nat, elem: nat, n: nat)
    ensures |Gathered(mem, base, step, elem, n)| == n * elem
  {
    if n == 0 {
    } else {
      GatheredLength(mem, base, step, elem, n - 1);
      assert n * elem == (n - 1) * elem + elem;
    }
  }

  lemma MulBound(j: nat, n: nat, k: nat)
    requires j < n
    ensures j * k + k <= n * k && (j + 1) * k == j * k + k
  {
    assert n * k == (j + 1) * k + (n - j - 1) * k;
  }

  /** Reading vertex `j` from the packed bytes gives the bytes of vertex `j` of the strided array. */
  lemma {:induction false} GatherPreservesVertices(mem: Memory, base: int, step: nat, elem: nat, n: nat, j: nat)
    requires j < n
    ensures |Gathered(mem, base, step, elem, n)| == n * elem
    ensures 0 <= j * elem <= j * elem + elem <= n * elem
    ensures Gathered(mem, base, step, elem, n)[j * elem..j * elem + elem] == Fetch(mem, base, step, elem, j)
  {
    GatheredLength(mem, base, step, elem, n);
    GatheredLength(mem, base, step, elem, n - 1);
    MulBound(j, n, elem);
    if j < n - 1 {
      GatherPreservesVertices(mem, base, step, elem, n - 1, j);
      var head := Gathered(mem, base, step, elem, n - 1);
      assert Gathered(mem, base, step, elem, n)[j * elem..j * elem + elem] == head[j * elem..j * elem + elem];
    }
  }

  /** Vertex `j` of a packed array: from `stride` bytes apart, or from next to each other when the stride is 0 or
      negative. */
  lemma PackedVertex(mem: Memory, a: Attrib, n: nat, j: nat)
    requires j < n
    ensures var elem := ElemSize(a);
      && |Packed(mem, a, n)| == n * elem && 0 <= j * elem <= j * elem + elem <= n * elem
      && Packed(mem, a, n)[j * elem..j * elem + elem]
           == LoadRange(mem, a.pointer + j * (if a.stride > 0 then a.stride else elem), elem)
  {
    hide Gathered, ElemSize;
    GatherPreservesVertices(mem, a.pointer, Distance(a), ElemSize(a), n, j);
  }

  /** The bytes of one element, for each of the component types. */
  lemma ElementBytes(a: Attrib)
    requires 0 <= a.size < 0x2000_0000
    ensures a.typ == 0x1400 || a.typ == 0x1401 ==> ElemSize(a) == a.size
    ensures a.typ == 0x1402 || a.typ == 0x1403 ==> ElemSize(a) == 2 * a.size
    ensures a.typ == 0x1404 || a.typ == 0x1405 || a.typ == 0x1406 ==> ElemSize(a) == 4 * a.size
  {
  }

  /** Four vertices for every six indices. */
  lemma QuadVertices(count: Int32, q: int, r: nat)
    requires count == 6 * q + r && r < 6
    ensures VertexCount(count) == if q < 0 then 0 else 4 * q
  {
  }

  // ----- the copy loops of putVertexAttrib

  predicate TypesKnown(attribs: seq<Attrib>) {
    forall i :: 0 <= i < |attribs| && attribs[i].enabled ==> SizeOf(attribs[i].typ).Some?
  }

  /** `maxsz`, with the `int` products of the C code. */
  function MaxSize(attribs: seq<Attrib>, n: nat): (m: nat)
    ensures m < 0x8000_0000
  {
    if attribs == [] then 0
    else
      var rest, a := MaxSize(attribs[..|attribs| - 1], n), attribs[|attribs| - 1];
      if a.enabled && rest < WrapInt(RawSize(a) * n) then WrapInt(RawSize(a) * n) else rest
  }

  predicate ProductsFit(attribs: seq<Attrib>, n: nat) {
    forall i :: 0 <= i < |attribs| && attribs[i].enabled ==> ElemSize(attribs[i]) * n < 0x8000_0000
  }

  lemma {:induction false} MaxSizeBounds(attribs: seq<Attrib>, n: nat, i: nat)
    requires ProductsFit(attribs, n) && i < |attribs| && attribs[i].enabled
    ensures ElemSize(attribs[i]) * n <= MaxSize(attribs, n)
  {
    hide WrapInt;
    if i < |attribs| - 1 {
      MaxSizeBounds(attribs[..|attribs| - 1], n, i);
    } else {
      ProductFits(attribs[i], n);
    }
  }

  /** The product in an `int` is the number of bytes copied, when that fits. */
  lemma ProductFits(a: Attrib, n: nat)
    requires ElemSize(a) * n < 0x8000_0000
    ensures ElemSize(a) > 0 ==> WrapInt(RawSize(a) * n) == ElemSize(a) * n
    ensures ElemSize(a) == 0 ==> ElemSize(a) * n == 0
  {
    WrapFactor(RawSize(a), n);
  }

  /** The copies stay inside the `maxsz` bytes set aside for them exactly when the bytes copied for each enabled
      attribute can be counted in an `int`. */
  lemma CopiesFitExactly(attribs: seq<Attrib>, n: nat)
    ensures (forall i :: 0 <= i < |attribs| && attribs[i].enabled ==> ElemSize(attribs[i]) * n <= MaxSize(attribs, n))
       <==> ProductsFit(attribs, n)
  {
    if ProductsFit(attribs, n) {
      forall i | 0 <= i < |attribs| && attribs[i].enabled
        ensures ElemSize(attribs[i]) * n <= MaxSize(attribs, n)
      {
        MaxSizeBounds(attribs, n, i);
      }
    }
  }

  /** The packed arrays of the enabled attributes from index `i` on. */
  function Blocks(attribs: seq<Attrib>, mem: Memory, n: nat, i: nat): seq<seq<Byte>>
    requires i <= |attribs|
    decreases |attribs| - i
  {
    if i == |attribs| then []
    else (if attribs[i].enabled then [Packed(mem, attribs[i], n)] else []) + Blocks(attribs, mem, n, i + 1)
  }

  method CopyElement(mem: Memory, src: int, elem: nat, buf: array<Byte>, dst: nat)
    requires dst + elem <= buf.Length
    modifies buf
    ensures buf[..dst + elem] == old(buf[..dst]) + LoadRange(mem, src, elem)
  {
    var k := 0;
    while k < elem
      invariant 0 <= k <= elem
      invariant buf[..dst + k] == old(buf[..dst]) + LoadRange(mem, src, k)
    {
      buf[dst + k] := Load(mem, src + k);
      k := k + 1;
      assert buf[..dst + k] == buf[..dst + k - 1] + [Load(mem, src + k - 1)];
    }
  }

  /** The packed bytes hold, at `j` times the element size, the element that starts `j` strides behind the pointer, or
      `j` elements behind it when the stride is 0 or negative. */
  predicate VertexIn(packed: seq<Byte>, mem: Memory, a: Attrib, j: nat) {
    var elem := ElemSize(a);
    && 0 <= j * elem <= j * elem + elem <= |packed|
    && packed[j * elem..j * elem + elem]
         == LoadRange(mem, a.pointer + j * (if a.stride > 0 then a.stride else elem), elem)
  }

  method GatherAttrib(mem: Memory, a: Attrib, n: nat, buf: array<Byte>) returns (size: nat)
    requires ElemSize(a) * n <= buf.Length
    modifies buf
    ensures size == n * ElemSize(a) <= buf.Length && buf[..size] == Packed(mem, a, n)
    ensures forall j :: 0 <= j < n ==> VertexIn(buf[..size], mem, a, j)
  {
    var src, elem := a.pointer as int, ElemSize(a);
    size := 0;
    var j := 0;
    while j < n
      invariant 0 <= j <= n && size == j * elem <= buf.Length && src == a.pointer + j * Distance(a)
      invariant buf[..size] == Gathered(mem, a.pointer, Distance(a), elem, j)
    {
      MulBound(j, n, elem);
      MulBound(j, n, Distance(a));
      assert elem * n == n * elem;
      CopyElement(mem, src, elem, buf, size);
      size := size + elem;
      src := src + elem;
      if a.stride > 0 { src := src + a.stride - elem; }
      j := j + 1;
    }
    forall i | 0 <= i < n ensures VertexIn(buf[..size], mem, a, i) { PackedVertex(mem, a, n, i); }
  }

  /** The room for the largest block. */
  method LargestBlock(attribs: seq<Attrib>, n: nat) returns (maxsz: nat)
    requires TypesKnown(attribs)
    ensures maxsz == MaxSize(attribs, n)
  {
    hide WrapInt;
    maxsz := 0;
    for i := 0 to |attribs|
      invariant maxsz == MaxSize(attribs[..i], n)
    {
      assert attribs[..i + 1][..i] == attribs[..i];
      var size := WrapInt(RawSize(attribs[i]) * n);
      if attribs[i].enabled && maxsz < size { maxsz := size; }
    }
    assert attribs[..|attribs|] == attribs;
  }

  method PutVertexAttrib(attribs: seq<Attrib>, mem: Memory, count: Int32) returns (blocks: seq<seq<Byte>>)
    requires TypesKnown(attribs) && ProductsFit(attribs, VertexCount(count))
    ensures blocks == Blocks(attribs, mem, VertexCount(count), 0)
  {
    hide MaxSize, Gathered, ElemSize;
    var n := VertexCount(count);
    var maxsz := LargestBlock(attribs, n);
    var buf := new Byte[maxsz](_ => 0);
    blocks := [];
    for i := 0 to |attribs|
      invariant blocks + Blocks(attribs, mem, n, i) == Blocks(attribs, mem, n, 0)
    {
      if attribs[i].enabled {
        MaxSizeBounds(attribs, n, i);
        var size := GatherAttrib(mem, attribs[i], n, buf);
        blocks := blocks + [buf[..size]];
      }
    }
  }
}
