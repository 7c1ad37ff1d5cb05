/** What a replayed draw fetches. The recorder packs, for each enabled client array, as many vertices as `count`
    indices of quads use; the replayed draw finds there exactly the vertices with smaller numbers. */
module DrawReplay {
  import opened Bytes
  import opened Options
  import opened Wire
  import opened VertexArrays
  import opened Calls
  import opened RoundTrip

  function FormatSize(f: Format): nat {
    ElemSize(Attrib(f.enabled, f.size, f.typ, f.normalized, 0, 0))
  }

  /** A draw that fetches from client arrays, replayed by a player that executes the calls. */
  predicate ClientDraw(w: nat, r: Recorder, pl: Player, c: Call) {
    Recordable(w, r, c) && c.DrawElements? && Agree(true, r, pl) && r.arrayBuffer == 0
  }

  /** The attributes from which the replayed draw fetches anything. */
  predicate Fetches(pl: Player, i: nat) {
    i < MAX_VERTEX_ATTRIBS <= |pl.formats| && pl.formats[i].enabled && FormatSize(pl.formats[i]) > 0
  }

  /** The value the replayer reads for an enabled attribute. */
  function BlockRead(w: nat, r: Recorder, pl: Player, c: Call, i: nat): Val
    requires ClientDraw(w, r, pl, c) && Fetches(pl, i)
  {
    BlockThere(w, r, pl, c, i);
    SeeAll(w, Fields(r, c))[4 + EnabledCount(pl.formats[..i])]
  }

  lemma PackedLength(r: Recorder, c: Call, i: nat)
    requires c.DrawElements? && i < |r.attribs| && r.attribs[i].enabled && ProductsFit(r.attribs, VertexCount(c.count))
    ensures var n, elem := VertexCount(c.count), ElemSize(r.attribs[i]);
      |Packed(c.mem, r.attribs[i], n)| == n * elem < 0x8000_0000
  {
    var a, n := r.attribs[i], VertexCount(c.count);
    GatheredLength(c.mem, a.pointer, Distance(a), ElemSize(a), n);
    assert ElemSize(a) * n == n * ElemSize(a);
  }

  /** It is the block packed for that attribute, or null when no vertex was packed. */
  lemma BlockThere(w: nat, r: Recorder, pl: Player, c: Call, i: nat)
    requires ClientDraw(w, r, pl, c) && Fetches(pl, i)
    ensures var vs, k := SeeAll(w, Fields(r, c)), 4 + EnabledCount(pl.formats[..i]);
      var block := Packed(c.mem, r.attribs[i], VertexCount(c.count));
      k < |vs| && vs[k] == VBuf(if block == [] then None else Some(block))
  {
    hide FieldOk, Gathered, IndexField, EnabledCount, Blocks, ElemSize, WrapInt;
    var a, n, rank := r.attribs[i], VertexCount(c.count), EnabledCount(pl.formats[..i]);
    assert pl.formats[0..i] == pl.formats[..i];
    BlockOfAttrib(r.attribs, pl.formats, c.mem, n, 0, i);
    var block := Packed(c.mem, a, n);
    PackedLength(r, c, i);
    assert WrapInt(|block|) == |block| by { SmallInt(|block|); }
    assert Fields(r, c)[4 + rank] == FBuf(Buf(Some(block), |block|));
    assert Fields(r, c)[4 + rank] in Fields(r, c);
    assert block[..|block|] == block;
  }

  lemma SmallInt(n: nat)
    requires n < 0x8000_0000
    ensures WrapInt(n) == n
  {
  }

  /** The bytes of vertex `v` in client memory: vertices are `stride` bytes apart, or next to each other when the
      stride is 0 or negative. */
  function OriginalVertex(c: Call, a: Attrib, elem: nat, v: nat): seq<Byte>
    requires c.DrawElements?
  {
    LoadRange(c.mem, a.pointer + v * (if a.stride > 0 then a.stride else elem), elem)
  }

  /** The replayed draw fetches, as vertex `v` of attribute `i`, the bytes the original draw fetched: they are in
      the block, where the replayer's own format and stride 0 look for them. */
  ghost predicate SameVertex(w: nat, r: Recorder, pl: Player, c: Call, i: nat, v: nat)
    requires ClientDraw(w, r, pl, c) && Fetches(pl, i)
  {
    var read, elem := BlockRead(w, r, pl, c, i), FormatSize(pl.formats[i]);
    && read.VBuf? && read.b.Some? && 0 <= v * elem && v * elem + elem <= |read.b.value|
    && read.b.value[v * elem..v * elem + elem] == OriginalVertex(c, r.attribs[i], elem, v)
  }

  lemma InBlock(v: nat, n: nat, elem: nat)
    requires elem > 0
    ensures v * elem + elem <= n * elem <==> v < n
  {
    if v < n {
      MulBound(v, n, elem);
    } else {
      assert v * elem == n * elem + (v - n) * elem;
    }
  }

  /** A vertex is fetched as it was if and only if its number is below four for every six indices. */
  lemma VertexReplayedExactly(w: nat, r: Recorder, pl: Player, c: Call, i: nat, v: nat)
    requires ClientDraw(w, r, pl, c) && Fetches(pl, i)
    ensures SameVertex(w, r, pl, c, i, v) <==> v < 4 * (c.count / 6)
  {
    hide Fields, SeeAll, Gathered, LoadRange, EnabledCount, WrapInt, VertexCount, ElemSize;
    QuadVertices(c.count, c.count / 6, c.count % 6);
    var a, n := r.attribs[i], VertexCount(c.count);
    assert FormatSize(pl.formats[i]) == ElemSize(a) by { SameSize(a, pl.formats[i]); }
    BlockThere(w, r, pl, c, i);
    GatheredLength(c.mem, a.pointer, Distance(a), ElemSize(a), n);
    InBlock(v, n, ElemSize(a));
    if v < n { PackedVertex(c.mem, a, n, v); }
  }

  lemma SameSize(a: Attrib, f: Format)
    requires a.size == f.size && a.typ == f.typ
    ensures FormatSize(f) == ElemSize(a)
  {
  }

  /** A draw, whatever its indices, is replayed with the bytes it fetched if and only if it fetches nothing or all
      its indices are below that number. */
  lemma DrawReplayedExactly(w: nat, r: Recorder, pl: Player, c: Call, indices: seq<nat>)
    requires ClientDraw(w, r, pl, c)
    ensures (forall i: nat, v: nat :: Fetches(pl, i) && v in indices ==> SameVertex(w, r, pl, c, i, v))
      <==> (forall i: nat :: !Fetches(pl, i)) || (forall v :: v in indices ==> v < 4 * (c.count / 6))
  {
    hide SameVertex, Fetches, Recordable, Agree;
    forall i: nat, v: nat | Fetches(pl, i)
      ensures SameVertex(w, r, pl, c, i, v) <==> v < 4 * (c.count / 6)
    {
      VertexReplayedExactly(w, r, pl, c, i, v);
    }
  }

  /** Triangles are not quads: of one triangle no vertex is packed, and the replayer reads null for each array. */
  lemma TriangleLost(w: nat, r: Recorder, pl: Player, c: Call, i: nat)
    requires ClientDraw(w, r, pl, c) && Fetches(pl, i) && c.count == 3
    ensures BlockRead(w, r, pl, c, i) == VBuf(None)
  {
    hide Fields, SeeAll, EnabledCount;
    BlockThere(w, r, pl, c, i);
  }

  // ----- indices in client memory

  function IndexSize(c: Call): nat
    requires c.DrawElements?
  {
    if SizeOf(c.typ).Some? then SizeOf(c.typ).value else 0
  }

  /** The index at position `k` of the original draw. */
  function IndexAt(c: Call, k: nat): nat
    requires c.DrawElements?
  {
    FromLe(LoadRange(c.mem, c.indices + k * IndexSize(c), IndexSize(c)))
  }

  /** An index is an unsigned number of one, two or four bytes, least significant first. */
  lemma IndexBytes(c: Call, k: nat)
    requires c.DrawElements?
    ensures c.typ == 0x1401 ==> IndexAt(c, k) == Load(c.mem, c.indices + k)
    ensures c.typ == 0x1403 ==>
      IndexAt(c, k) == Load(c.mem, c.indices + 2 * k) + 256 * Load(c.mem, c.indices + 2 * k + 1)
    ensures c.typ == 0x1405 ==>
      IndexAt(c, k) == Load(c.mem, c.indices + 4 * k) + 0x100 * Load(c.mem, c.indices + 4 * k + 1)
        + 0x1_0000 * Load(c.mem, c.indices + 4 * k + 2) + 0x100_0000 * Load(c.mem, c.indices + 4 * k + 3)
  {
    hide FromLe, Load;
    var size := IndexSize(c);
    var s := LoadRange(c.mem, c.indices + k * size, size);
    if size == 1 {
      LowByte(s);
      LowByte(s[1..]);
    } else if size == 2 {
      LowByte(s);
      LowByte(s[1..]);
      LowByte(s[2..]);
    } else if size == 4 {
      LowByte(s);
      LowByte(s[1..]);
      LowByte(s[2..]);
      LowByte(s[3..]);
      LowByte(s[4..]);
    }
  }

  lemma LowByte(s: seq<Byte>)
    ensures FromLe(s) == if s == [] then 0 else s[0] + 256 * FromLe(s[1..])
  {
  }

  function IndicesOf(c: Call): seq<nat>
    requires c.DrawElements?
  {
    seq(if c.count > 0 then c.count else 0, k requires 0 <= k => IndexAt(c, k))
  }

  /** The replayed draw finds index `k` in the bytes it was given. */
  ghost predicate SameIndex(w: nat, r: Recorder, c: Call, k: nat)
    requires Recordable(w, r, c) && c.DrawElements?
  {
    var read, size := SeeAll(w, Fields(r, c))[3], IndexSize(c);
    && read.VBuf? && read.b.Some? && 0 <= k * size && k * size + size <= |read.b.value|
    && FromLe(read.b.value[k * size..k * size + size]) == IndexAt(c, k)
  }

  lemma IndexReplayedExactly(w: nat, r: Recorder, c: Call, k: nat)
    requires Recordable(w, r, c) && c.DrawElements? && r.elementBuffer == 0
    ensures SameIndex(w, r, c, k)
        <==> c.indices != 0 && k * IndexSize(c) + IndexSize(c) <= WrapInt(c.count * IndexSize(c))
  {
    hide FieldOk, AttribFields, WrapInt, FromLe;
    var size, all := IndexSize(c), WrapInt(c.count * IndexSize(c));
    assert size > 0;
    assert Fields(r, c)[3] == IndexField(r, c);
    assert Fields(r, c)[3] in Fields(r, c);
    MulBound(0, k + 1, size);
    assert (k + 1) * size == k * size + size;
    if c.indices != 0 && all > 0 {
      var bytes := LoadRange(c.mem, c.indices, all);
      assert bytes[..all] == bytes;
      if k * size + size <= all {
        assert bytes[k * size..k * size + size] == LoadRange(c.mem, c.indices + k * size, size);
      }
    }
  }

  /** Position `k` of the index list is replayed with its index, and every array fetched from with the bytes of
      that vertex. */
  ghost predicate SameFetch(w: nat, r: Recorder, pl: Player, c: Call, k: nat)
    requires ClientDraw(w, r, pl, c)
  {
    SameIndex(w, r, c, k) && forall i: nat :: Fetches(pl, i) ==> SameVertex(w, r, pl, c, i, IndexAt(c, k))
  }

  /** All indices were recorded, as far as the draw has any. */
  predicate IndicesRecorded(c: Call)
    requires c.DrawElements?
  {
    c.count > 0 ==> c.indices != 0 && c.count * IndexSize(c) < 0x8000_0000
  }

  /** A draw with indices and arrays in client memory is replayed with its indices and its vertices if and only if
      the indices are there and can be counted in an `int`, and all are below the number of vertices that quads with
      as many indices have (or no array is fetched from). */
  lemma ClientDrawReplayedExactly(w: nat, r: Recorder, pl: Player, c: Call)
    requires ClientDraw(w, r, pl, c) && r.elementBuffer == 0
    ensures (forall k: nat :: k < c.count ==> SameFetch(w, r, pl, c, k)) <==>
      && IndicesRecorded(c)
      && ((forall i: nat :: !Fetches(pl, i)) || (forall v :: v in IndicesOf(c) ==> v < 4 * (c.count / 6)))
  {
    hide SameIndex, SameVertex, Fetches, Recordable, Agree, IndexAt, IndicesOf, WrapInt;
    var ixs := IndicesOf(c);
    ListedIndices(c);
    DrawReplayedExactly(w, r, pl, c, ixs);
    IndicesReplayedExactly(w, r, c);
    if forall k: nat :: k < c.count ==> SameFetch(w, r, pl, c, k) {
      assert forall k: nat :: k < c.count ==> SameIndex(w, r, c, k) by {
        forall k: nat | k < c.count ensures SameIndex(w, r, c, k) { assert SameFetch(w, r, pl, c, k); }
      }
      forall i: nat, v: nat | Fetches(pl, i) && v in ixs ensures SameVertex(w, r, pl, c, i, v) {
        var k: nat :| k < |ixs| && ixs[k] == v;
        assert SameFetch(w, r, pl, c, k);
      }
    } else if IndicesRecorded(c) {
      var k: nat :| k < c.count && !SameFetch(w, r, pl, c, k);
      assert SameIndex(w, r, c, k);
      assert ixs[k] in ixs;
    }
  }

  lemma ListedIndices(c: Call)
    requires c.DrawElements?
    ensures |IndicesOf(c)| == if c.count > 0 then c.count else 0
    ensures forall k: nat :: k < |IndicesOf(c)| ==> IndicesOf(c)[k] == IndexAt(c, k)
  {
  }

  lemma IndicesReplayedExactly(w: nat, r: Recorder, c: Call)
    requires Recordable(w, r, c) && c.DrawElements? && r.elementBuffer == 0
    ensures (forall k: nat :: k < c.count ==> SameIndex(w, r, c, k)) <==> IndicesRecorded(c)
  {
    hide SameIndex, Fields, FieldOk, WrapInt;
    var size := IndexSize(c);
    if c.count > 0 {
      IndexReplayedExactly(w, r, c, c.count - 1);
      LastIndex(c.count, size);
      forall k: nat | k < c.count && IndicesRecorded(c) ensures SameIndex(w, r, c, k) {
        IndexReplayedExactly(w, r, c, k);
        MulBound(k, c.count, size);
      }
    }
  }

  lemma LastIndex(count: Int32, size: nat)
    requires count > 0
    ensures (count - 1) * size + size == count * size
    ensures count * size <= WrapInt(count * size) <==> count * size < 0x8000_0000
  {
    assert (count - 1) * size + size == count * size;
  }
}
