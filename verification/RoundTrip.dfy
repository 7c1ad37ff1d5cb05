/** Decoding a record gives back the fields that were put, for every call the recorder can log, and
    keeps the replayer's shadow state equal to the recorder's. */
module RoundTrip {
  import opened Sequences
  import opened Bytes
  import opened Wire
  import opened TraceWriter
  import opened VertexArrays
  import opened Calls

  function SeeAll(w: nat, fs: seq<Field>): (vs: seq<Val>)
    requires FieldsOk(w, fs)
    ensures |vs| == |fs|
  {
    seq(|fs|, i requires 0 <= i < |fs| => See(w, fs[i]))
  }

  lemma {:induction false} EncAllConcat(w: nat, a: seq<Field>, b: seq<Field>)
    requires FieldsOk(w, a) && FieldsOk(w, b)
    ensures FieldsOk(w, a + b) && EncAll(w, a + b) == EncAll(w, a) + EncAll(w, b)
  {
    hide Enc, Get, See, FieldOk;
    if a == [] {
      assert a + b == b;
    } else {
      EncAllConcat(w, a[1..], b);
      assert (a + b)[1..] == a[1..] + b;
      Assoc(Enc(w, a[0]), EncAll(w, a[1..]), EncAll(w, b));
    }
  }

  /** The file splits where the field list splits. */
  lemma SplitAt(w: nat, a: seq<Field>, b: seq<Field>, d: seq<Byte>, p: int)
    requires FieldsOk(w, a + b) && At(d, p, EncAll(w, a + b))
    ensures FieldsOk(w, a) && FieldsOk(w, b)
    ensures At(d, p, EncAll(w, a)) && At(d, p + |EncAll(w, a)|, EncAll(w, b))
    ensures |EncAll(w, a + b)| == |EncAll(w, a)| + |EncAll(w, b)|
    ensures SeeAll(w, a + b) == SeeAll(w, a) + SeeAll(w, b)
  {
    hide Enc, Get, See, FieldOk;
    assert forall f :: f in a || f in b ==> f in a + b;
    EncAllConcat(w, a, b);
    AtConcat(d, p, EncAll(w, a), EncAll(w, b));
  }

  lemma FirstAt(w: nat, fs: seq<Field>, d: seq<Byte>, p: int)
    requires WordSize(w) && fs != [] && FieldsOk(w, fs) && At(d, p, EncAll(w, fs))
    ensures Get(w, KindOf(fs[0]), d, p) == (See(w, fs[0]), p + |Enc(w, fs[0])|)
    ensures At(d, p + |Enc(w, fs[0])|, EncAll(w, fs[1..]))
  {
    hide Enc, Get, See, FieldOk;
    AtConcat(d, p, Enc(w, fs[0]), EncAll(w, fs[1..]));
    GetEnc(w, fs[0], d, p);
  }

  lemma {:induction false} ReadKindsAt(w: nat, fs: seq<Field>, d: seq<Byte>, p: int)
    requires WordSize(w) && FieldsOk(w, fs) && At(d, p, EncAll(w, fs))
    ensures ReadKinds(w, Kinds(fs), d, p) == (SeeAll(w, fs), p + |EncAll(w, fs)|)
  {
    hide Enc, Get, See, FieldOk;
    if fs == [] {
    } else {
      FirstAt(w, fs, d, p);
      ReadKindsAt(w, fs[1..], d, p + |Enc(w, fs[0])|);
      assert Kinds(fs)[1..] == Kinds(fs[1..]);
      assert SeeAll(w, fs) == [See(w, fs[0])] + SeeAll(w, fs[1..]);
    }
  }

  lemma IntThen(w: nat, v: Int32, fs: seq<Field>, d: seq<Byte>, p: int)
    requires WordSize(w) && FieldsOk(w, [FInt(v)] + fs) && At(d, p, EncAll(w, [FInt(v)] + fs))
    ensures FieldsOk(w, fs)
    ensures GetInt(d, p) == (v, p + 4) && At(d, p + 4, EncAll(w, fs))
    ensures |EncAll(w, [FInt(v)] + fs)| == 4 + |EncAll(w, fs)|
    ensures SeeAll(w, [FInt(v)] + fs) == [VInt(v)] + SeeAll(w, fs)
  {
    FirstAt(w, [FInt(v)] + fs, d, p);
    assert ([FInt(v)] + fs)[1..] == fs;
    assert forall f :: f in fs ==> f in [FInt(v)] + fs;
  }

  /** An attribute list comes back when it fits the reader's 64 ints, and only then. */
  lemma {:induction false} ReadAttrsAt(w: nat, attrs: seq<(Int32, Int32)>, d: seq<Byte>, p: int, i: nat)
    requires WordSize(w) && i % 2 == 0 && FieldsOk(w, AttrFields(attrs)) && At(d, p, EncAll(w, AttrFields(attrs)))
    requires forall a :: a in attrs ==> a.0 != EGL_NONE
    ensures ReadAttrs(d, p, i) ==
      if i + 2 * |attrs| < 64 then Body(SeeAll(w, AttrFields(attrs)), p + |EncAll(w, AttrFields(attrs))|) else Fatal
    decreases |attrs|
  {
    hide Enc, Get, See, FieldOk, GetInt;
    if attrs == [] {
      assert AttrFields(attrs) == [FInt(EGL_NONE)] + [];
      IntThen(w, EGL_NONE, [], d, p);
    } else {
      var (key, val) := attrs[0];
      var rest := AttrFields(attrs[1..]);
      IntThen(w, key, [FInt(val)] + rest, d, p);
      IntThen(w, val, rest, d, p + 4);
      ReadAttrsAt(w, attrs[1..], d, p + 8, i + 2);
    }
  }

  lemma FieldThen(w: nat, f: Field, fs: seq<Field>, d: seq<Byte>, p: int)
    requires WordSize(w) && FieldsOk(w, [f] + fs) && At(d, p, EncAll(w, [f] + fs))
    ensures FieldOk(w, f) && FieldsOk(w, fs)
    ensures Get(w, KindOf(f), d, p) == (See(w, f), p + |Enc(w, f)|) && At(d, p + |Enc(w, f)|, EncAll(w, fs))
    ensures |EncAll(w, [f] + fs)| == |Enc(w, f)| + |EncAll(w, fs)|
    ensures SeeAll(w, [f] + fs) == [See(w, f)] + SeeAll(w, fs)
  {
    hide Enc, Get, See, FieldOk;
    FirstAt(w, [f] + fs, d, p);
    assert ([f] + fs)[1..] == fs;
    assert forall g :: g in fs ==> g in [f] + fs;
  }

  lemma {:induction false} ReadPartsAt(w: nat, parts: seq<Part>, d: seq<Byte>, p: int)
    requires WordSize(w) && FieldsOk(w, PartFields(parts)) && At(d, p, EncAll(w, PartFields(parts)))
    ensures ReadParts(w, d, p, |parts|) == (SeeAll(w, PartFields(parts)), p + |EncAll(w, PartFields(parts))|)
  {
    hide Enc, Get, See, FieldOk, GetInt;
    if parts == [] {
    } else {
      var rest := PartFields(parts[1..]);
      var f := PartField(parts[0]);
      IntThen(w, parts[0].len, [f] + rest, d, p);
      FieldThen(w, f, rest, d, p + 4);
      ReadPartsAt(w, parts[1..], d, p + 4 + |Enc(w, f)|);
    }
  }

  /** Agreement on the enabled flags makes the reader expect as many blocks as the writer put. */
  lemma {:induction false} BlocksCount(attribs: seq<Attrib>, formats: seq<Format>, mem: Memory, n: nat, i: nat)
    requires i <= |attribs| == |formats|
    requires forall j :: 0 <= j < |attribs| ==> attribs[j].enabled == formats[j].enabled
    ensures |Blocks(attribs, mem, n, i)| == EnabledCount(formats[i..])
    decreases |attribs| - i
  {
    if i == |attribs| {
    } else {
      BlocksCount(attribs, formats, mem, n, i + 1);
      assert formats[i..][1..] == formats[i + 1..];
    }
  }

  /** Every attribute list of the call fits the reader's buffer. */
  predicate AttrsFit(c: Call) {
    (c.ChooseConfig? || c.CreateWithAttribs?) ==> |c.attrs| <= 31
  }

  lemma CountedAt(w: nat, n: Int32, ids: seq<Int32>, d: seq<Byte>, p: int)
    requires WordSize(w) && |ids| == (if n > 0 then n else 0)
    requires FieldsOk(w, [FInt(n)] + Ints(ids)) && At(d, p, EncAll(w, [FInt(n)] + Ints(ids)))
    ensures CountedBody(w, d, p) == Body(SeeAll(w, [FInt(n)] + Ints(ids)), p + |EncAll(w, [FInt(n)] + Ints(ids))|)
  {
    hide Enc, Get, See, FieldOk, EncAll;
    IntThen(w, n, Ints(ids), d, p);
    ReadKindsAt(w, Ints(ids), d, p + 4);
    assert Kinds(Ints(ids)) == Repeat(KInt, n);
  }

  lemma DrawLayout(r: Recorder, pl: Player, c: Call)
    requires c.DrawElements? && Agree(false, r, pl)
    ensures Kinds(Fields(r, c)) == DrawKinds(pl)
  {
    BlocksCount(r.attribs, pl.formats, c.mem, VertexCount(c.count), 0);
    assert pl.formats[0..] == pl.formats;
    var n := if pl.arrayBuffer != 0 then 0 else EnabledCount(pl.formats);
    assert Kinds(AttribFields(r, c)) == Repeat(KBuf, n);
  }

  lemma ShaderAt(w: nat, shader: Int32, n: Int32, parts: seq<Part>, d: seq<Byte>, p: int)
    requires WordSize(w) && |parts| == (if n > 0 then n else 0)
    requires FieldsOk(w, [FInt(shader)] + ([FInt(n)] + PartFields(parts)))
    requires At(d, p, EncAll(w, [FInt(shader)] + ([FInt(n)] + PartFields(parts))))
    ensures ShaderBody(w, d, p) ==
      Body(SeeAll(w, [FInt(shader)] + ([FInt(n)] + PartFields(parts))),
        p + |EncAll(w, [FInt(shader)] + ([FInt(n)] + PartFields(parts)))|)
  {
    hide Enc, Get, See, FieldOk, EncAll, PartFields, ReadParts;
    IntThen(w, shader, [FInt(n)] + PartFields(parts), d, p);
    IntThen(w, n, PartFields(parts), d, p + 4);
    ReadPartsAt(w, parts, d, p + 8);
  }

  function UniformHeadFields(c: Call): seq<Field>
    requires c.GetActiveUniform?
  {
    [FInt(c.program), FInt(c.index), FInt(c.bufsize), FPtr(c.ptrs.0), FPtr(c.ptrs.1), FPtr(c.ptrs.2), FPtr(c.ptrs.3)]
  }

  lemma UniformLayout(w: nat, c: Call)
    requires c.GetActiveUniform? && FieldsOk(w, UniformHeadFields(c))
    ensures Kinds(UniformHeadFields(c)) == UNIFORM_HEAD
    ensures Kinds(UniformFields(c)) == UniformKinds(SeeAll(w, UniformHeadFields(c)))
  {
    hide SeePtr;
    var head := UniformHeadFields(c);
    assert head[3] in head && head[4] in head && head[5] in head && head[6] in head;
    var vs := SeeAll(w, head);
    assert vs[3] == VPtr(SeePtr(w, c.ptrs.0)) && vs[4] == VPtr(SeePtr(w, c.ptrs.1));
    assert vs[5] == VPtr(SeePtr(w, c.ptrs.2)) && vs[6] == VPtr(SeePtr(w, c.ptrs.3));
  }

  lemma UniformAt(w: nat, c: Call, d: seq<Byte>, p: int)
    requires WordSize(w) && c.GetActiveUniform?
    requires FieldsOk(w, UniformHeadFields(c) + UniformFields(c))
    requires At(d, p, EncAll(w, UniformHeadFields(c) + UniformFields(c)))
    ensures UniformBody(w, d, p) ==
      Body(SeeAll(w, UniformHeadFields(c) + UniformFields(c)), p + |EncAll(w, UniformHeadFields(c) + UniformFields(c))|)
  {
    hide Enc, Get, See, FieldOk, EncAll, UniformHeadFields, UniformFields, UniformKinds, ReadKinds, Kinds;
    var head := UniformHeadFields(c);
    SplitAt(w, head, UniformFields(c), d, p);
    UniformLayout(w, c);
    ReadKindsAt(w, head, d, p);
    ReadKindsAt(w, UniformFields(c), d, p + |EncAll(w, head)|);
  }

  lemma ConfigTailAt(w: nat, size: Int32, num: Int32, listed: seq<Uint64>, res: Int32, d: seq<Byte>, p: int)
    requires WordSize(w) && |listed| == ConfigCount(size, num)
    requires FieldsOk(w, ConfigTail(size, num, listed, res)) && At(d, p, EncAll(w, ConfigTail(size, num, listed, res)))
    ensures GetInt(d, p) == (size, p + 4) && GetInt(d, p + 4) == (num, p + 8)
    ensures ReadThen(w, [VInt(size), VInt(num)], Repeat(KPtr, ConfigCount(size, num)) + [KInt], d, p + 8) ==
      Body(SeeAll(w, ConfigTail(size, num, listed, res)), p + |EncAll(w, ConfigTail(size, num, listed, res))|)
  {
    hide Enc, Get, See, FieldOk, EncAll, ReadKinds, GetInt;
    var tail := Ptrs(listed) + [FInt(res)];
    assert ConfigTail(size, num, listed, res) == [FInt(size)] + ([FInt(num)] + tail);
    IntThen(w, size, [FInt(num)] + tail, d, p);
    IntThen(w, num, tail, d, p + 4);
    ReadKindsAt(w, tail, d, p + 8);
    assert Kinds(tail) == Repeat(KPtr, ConfigCount(size, num)) + [KInt];
  }

  lemma ChooseConfigAt(w: nat, dpy: Uint64, attrs: seq<(Int32, Int32)>, size: Int32, num: Int32, listed: seq<Uint64>,
                       res: Int32, d: seq<Byte>, p: int)
    requires WordSize(w) && |listed| == ConfigCount(size, num) && forall a :: a in attrs ==> a.0 != EGL_NONE
    requires FieldsOk(w, ConfigFields(dpy, attrs, size, num, listed, res))
    requires At(d, p, EncAll(w, ConfigFields(dpy, attrs, size, num, listed, res)))
    ensures ChooseConfigBody(w, d, p) ==
      if |attrs| > 31 then Fatal
      else Body(SeeAll(w, ConfigFields(dpy, attrs, size, num, listed, res)),
                p + |EncAll(w, ConfigFields(dpy, attrs, size, num, listed, res))|)
  {
    hide Enc, Get, See, FieldOk, EncAll, AttrFields, ReadAttrs, ReadKinds, GetInt, ConfigTail, Repeat, SeeAll;
    var tail := ConfigTail(size, num, listed, res);
    SplitAt(w, [FPtr(dpy)] + AttrFields(attrs), tail, d, p);
    SplitAt(w, [FPtr(dpy)], AttrFields(attrs), d, p);
    FirstAt(w, [FPtr(dpy)], d, p);
    EncOne(w, FPtr(dpy));
    var q := p + |EncAll(w, [FPtr(dpy)])|;
    ReadAttrsAt(w, attrs, d, q, 0);
    ConfigTailAt(w, size, num, listed, res, d, q + |EncAll(w, AttrFields(attrs))|);
  }

  lemma EncOne(w: nat, f: Field)
    requires FieldOk(w, f)
    ensures EncAll(w, [f]) == Enc(w, f) && SeeAll(w, [f]) == [See(w, f)]
  {
    hide Enc, See;
    assert EncAll(w, [f]) == Enc(w, f) + EncAll(w, []);
  }

  lemma CreateAt(w: nat, head: seq<Field>, attrs: seq<(Int32, Int32)>, h: Uint64, d: seq<Byte>, p: int)
    requires WordSize(w) && Kinds(head) == [KPtr, KPtr, KPtr] && forall a :: a in attrs ==> a.0 != EGL_NONE
    requires FieldsOk(w, head + (AttrFields(attrs) + [FPtr(h)]))
        && At(d, p, EncAll(w, head + (AttrFields(attrs) + [FPtr(h)])))
    ensures CreateBody(w, d, p) ==
      if |attrs| > 31 then Fatal
      else Body(SeeAll(w, head + (AttrFields(attrs) + [FPtr(h)])),
          p + |EncAll(w, head + (AttrFields(attrs) + [FPtr(h)]))|)
  {
    hide Enc, Get, See, FieldOk, EncAll, AttrFields, ReadAttrs, ReadKinds;
    SplitAt(w, head, AttrFields(attrs) + [FPtr(h)], d, p);
    var q := p + |EncAll(w, head)|;
    SplitAt(w, AttrFields(attrs), [FPtr(h)], d, q);
    ReadKindsAt(w, head, d, p);
    ReadAttrsAt(w, attrs, d, q, 0);
    ReadKindsAt(w, [FPtr(h)], d, q + |EncAll(w, AttrFields(attrs))|);
    assert Kinds([FPtr(h)]) == [KPtr];
  }

  /** What the replayer's `switch` makes of the opcode of a call. */
  function CallShape(r: Recorder, c: Call): Shape {
    match c
    case Counted(_, _, _) => CountedShape
    case DrawElements(_, _, _, _, _) => DrawShape
    case ShaderSource(_, _, _) => ShaderShape
    case GetActiveUniform(_, _, _, _, _, _, _, _) => UniformShape
    case ChooseConfig(_, _, _, _, _, _) => ChooseConfigShape
    case CreateWithAttribs(_, _, _, _, _, _) => CreateShape
    case _ => FixedShape(Kinds(Fields(r, c)))
  }

  lemma ShapeOfCall(w: nat, r: Recorder, c: Call)
    requires Recordable(w, r, c)
    ensures ShapeOf(Op(c)) == CallShape(r, c)
  {
    hide FieldOk, FieldsOk, AttrFields, PartFields, ConfigFields, Blocks, UniformFields, IndexField, AttribFields;
    if c.BindBuffer? || c.SetVertexAttribArray? || c.VertexAttribPointer? {
      assert Kinds(Fields(r, c)) == Signature(Op(c)).value;
    }
  }

  /** The record of any call decodes, under agreeing shadow state, to the very fields that were put,
      and leaves the cursor at its end; the replayer exits exactly when an attribute list is too long. */
  lemma DecodeCall(w: nat, r: Recorder, pl: Player, c: Call, d: seq<Byte>, p: int)
    requires WordSize(w) && Recordable(w, r, c) && Agree(false, r, pl) && At(d, p, EncAll(w, Fields(r, c)))
    ensures !ShapeOf(Op(c)).NoShape?
    ensures Decode(w, pl, ShapeOf(Op(c)), d, p) ==
      if AttrsFit(c) then Body(SeeAll(w, Fields(r, c)), p + |EncAll(w, Fields(r, c))|) else Fatal
  {
    hide Enc, Get, See, FieldOk, EncAll, ShapeOf, Op, AttrFields, PartFields, ReadKinds, ReadAttrs, ReadParts;
    hide DrawKinds, CountedBody, ShaderBody, UniformBody, ChooseConfigBody, CreateBody, Ints, AttribFields, IndexField,
        UniformFields;
    ShapeOfCall(w, r, c);
    match c {
      case Counted(_, n, ids) => CountedAt(w, n, ids, d, p);
      case DrawElements(_, _, _, _, _) =>
        DrawLayout(r, pl, c);
        ReadKindsAt(w, Fields(r, c), d, p);
      case ShaderSource(s, n, parts) =>
        assert Fields(r, c) == [FInt(s)] + ([FInt(n)] + PartFields(parts));
        ShaderAt(w, s, n, parts, d, p);
      case GetActiveUniform(_, _, _, _, _, _, _, _) =>
        assert Fields(r, c) == UniformHeadFields(c) + UniformFields(c);
        UniformAt(w, c, d, p);
      case ChooseConfig(dpy, attrs, configs, size, num, res) =>
        ChooseConfigAt(w, dpy, attrs, LoggedSize(c), num, LoggedConfigs(c), res, d, p);
      case CreateWithAttribs(_, x, y, z, attrs, h) => CreateAt(w, [FPtr(x), FPtr(y), FPtr(z)], attrs, h, d, p);
      case _ => ReadKindsAt(w, Fields(r, c), d, p);
    }
  }

  lemma SeeInts(w: nat, fs: seq<Field>)
    requires FieldsOk(w, fs)
    ensures forall i :: 0 <= i < |fs| && fs[i].FInt? ==> SeeAll(w, fs)[i] == VInt(fs[i].v)
  {
  }

  /** Recorder and replayer stay in step over every call. */
  lemma AgreementKept(exec: bool, w: nat, r: Recorder, pl: Player, c: Call)
    requires Recordable(w, r, c) && Agree(exec, r, pl)
    ensures Agree(exec, Recorded(r, c), Replayed(exec, pl, Op(c), SeeAll(w, Fields(r, c))))
  {
    hide FieldOk, See, AttrFields, PartFields, ConfigFields, UniformFields, IndexField, AttribFields;
    var vs := SeeAll(w, Fields(r, c));
    SeeInts(w, Fields(r, c));
    if c.BindBuffer? {
      assert vs[0] == VInt(c.target) && vs[1] == VInt(c.buffer);
    } else if c.SetVertexAttribArray? {
      assert vs[0] == VInt(c.index);
    } else if c.VertexAttribPointer? {
      assert vs[0] == VInt(c.index) && vs[1] == VInt(c.size) && vs[2] == VInt(c.typ) && vs[3] == VInt(c.normalized);
    }
  }

  /** The replayer hands the k-th block it reads to the k-th enabled attribute; that is the block the
      recorder packed for that attribute. */
  lemma {:induction false} BlockOfAttrib(attribs: seq<Attrib>, formats: seq<Format>, mem: Memory, n: nat, s: nat,
      i: nat)
    requires s <= i < |attribs| == |formats| && attribs[i].enabled
    requires forall j :: 0 <= j < |attribs| ==> attribs[j].enabled == formats[j].enabled
    ensures EnabledCount(formats[s..i]) < |Blocks(attribs, mem, n, s)|
    ensures Blocks(attribs, mem, n, s)[EnabledCount(formats[s..i])] == Packed(mem, attribs[i], n)
    decreases i - s
  {
    hide Packed;
    var rest, here := Blocks(attribs, mem, n, s + 1), if attribs[s].enabled then [Packed(mem, attribs[s], n)] else [];
    assert Blocks(attribs, mem, n, s) == here + rest;
    if s == i {
      assert formats[s..i] == [];
    } else {
      BlockOfAttrib(attribs, formats, mem, n, s + 1, i);
      var k := EnabledCount(formats[s + 1..i]);
      assert formats[s..i][0] == formats[s] && formats[s..i][1..] == formats[s + 1..i];
      assert EnabledCount(formats[s..i]) == |here| + k;
      assert (here + rest)[|here| + k] == rest[k];
    }
  }
}
