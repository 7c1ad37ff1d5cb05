/** The puts of the interceptors between `putCmd` and `putTime`, with their loops: client arrays, attribute lists,
    shader strings, names and configurations. Each appends the fields of its call. */
module Interceptors {
  import opened Sequences
  import opened Bytes
  import opened Options
  import opened Wire
  import opened TraceWriter
  import opened VertexArrays
  import opened Calls
  import opened RoundTrip

  /** What a run of puts leaves of the writer. */
  twostate predicate Appended(wr: Writer, bytes: seq<Byte>)
    reads wr, wr.chunk
  {
    Kept(wr) && wr.written == old(wr.written) + bytes
  }

  twostate predicate Kept(wr: Writer)
    reads wr, wr.chunk
  {
    && wr.Valid() && wr.Aligned() && (wr.chunk == old(wr.chunk) || fresh(wr.chunk))
    && wr.reentrance == old(wr.reentrance) && wr.curThread == old(wr.curThread)
  }

  /** `putVertexAttrib` with its `putBytes` calls. */
  method PutArrays(wr: Writer, r: Recorder, c: Call)
    requires wr.Valid() && wr.Aligned() && wr.reentrance == 1
    requires Recordable(wr.w, r, c) && c.DrawElements? && r.arrayBuffer == 0
    modifies wr, wr.chunk
    ensures Appended(wr, EncAll(wr.w, AttribFields(r, c)))
  {
    hide Enc, FieldOk, Fields, Blocks, EncAll, WrapInt;
    ghost var fs := AttribFields(r, c);
    AttribFieldsOk(wr.w, r, c);
    var blocks := PutVertexAttrib(r.attribs, c.mem, c.count);
    NothingPut(wr.w);
    for i := 0 to |blocks|
      invariant Appended(wr, EncAll(wr.w, fs[..i]))
    {
      var b := Buf(Some(blocks[i]), WrapInt(|blocks[i]|));
      assert fs[i] == FBuf(b) && fs[i] in fs;
      assert fs[..i + 1] == fs[..i] + [fs[i]];
      ghost var before := wr.written;
      wr.PutBytes(b);
      PutOne(wr.w, fs[..i], fs[i]);
      Assoc(old(wr.written), EncAll(wr.w, fs[..i]), Enc(wr.w, fs[i]));
    }
    assert fs[..|blocks|] == fs;
  }

  lemma NothingPut(w: nat)
    ensures EncAll(w, []) == []
  {
  }

  lemma PutOne(w: nat, fs: seq<Field>, f: Field)
    requires FieldsOk(w, fs) && FieldOk(w, f)
    ensures EncAll(w, fs + [f]) == EncAll(w, fs) + Enc(w, f)
  {
    EncAllConcat(w, fs, [f]);
    EncOne(w, f);
  }

  lemma AttribFieldsOk(w: nat, r: Recorder, c: Call)
    requires Recordable(w, r, c) && c.DrawElements?
    ensures FieldOk(w, IndexField(r, c)) && FieldsOk(w, AttribFields(r, c))
  {
    var fs := Fields(r, c);
    assert fs[3] == IndexField(r, c) && fs[3] in fs;
    forall f | f in AttribFields(r, c) ensures FieldOk(w, f) { assert f in fs; }
  }

  function DrawHead(r: Recorder, c: Call): seq<Field>
    requires c.DrawElements?
  {
    [FInt(c.mode), FInt(c.count), FInt(c.typ), IndexField(r, c)]
  }

  /** Mode, count, type and indices of a draw. */
  method PutDrawHead(wr: Writer, r: Recorder, c: Call)
    requires wr.Valid() && wr.Aligned() && wr.reentrance == 1 && c.DrawElements? && FieldOk(wr.w, IndexField(r, c))
    modifies wr, wr.chunk
    ensures FieldsOk(wr.w, DrawHead(r, c)) && Appended(wr, EncAll(wr.w, DrawHead(r, c)))
  {
    hide Enc, FieldOk, EncAll, IndexField, EncInt, DrawHead;
    ghost var f := IndexField(r, c);
    DrawHeadBytes(wr.w, r, c);
    wr.PutInt(c.mode);
    wr.PutInt(c.count);
    wr.PutInt(c.typ);
    wr.Put(IndexField(r, c));
    FourParts(old(wr.written), EncInt(c.mode), EncInt(c.count), EncInt(c.typ), Enc(wr.w, f));
  }

  /** The interceptor of glDrawElements between `putCmd` and `putTime`. */
  method PutDraw(wr: Writer, r: Recorder, c: Call)
    requires wr.Valid() && wr.Aligned() && wr.reentrance == 1 && Recordable(wr.w, r, c) && c.DrawElements?
    modifies wr, wr.chunk
    ensures Appended(wr, EncAll(wr.w, Fields(r, c)))
  {
    hide FieldOk, Recordable, EncAll, IndexField, AttribFields;
    AttribFieldsOk(wr.w, r, c);
    PutDrawHead(wr, r, c);
    EncAllConcat(wr.w, DrawHead(r, c), AttribFields(r, c));
    ghost var head := EncAll(wr.w, DrawHead(r, c));
    if r.arrayBuffer == 0 {
      PutArrays(wr, r, c);
      Assoc(old(wr.written), head, EncAll(wr.w, AttribFields(r, c)));
    } else {
      NoArrays(wr.w, r, c);
      assert head + [] == head;
    }
  }

  lemma NoArrays(w: nat, r: Recorder, c: Call)
    requires c.DrawElements? && r.arrayBuffer != 0
    ensures AttribFields(r, c) == [] && EncAll(w, []) == []
  {
  }

  lemma FourParts(s: seq<Byte>, a: seq<Byte>, b: seq<Byte>, c: seq<Byte>, d: seq<Byte>)
    ensures s + a + b + c + d == s + (a + b + c + d)
  {
  }

  lemma DrawHeadBytes(w: nat, r: Recorder, c: Call)
    requires c.DrawElements? && FieldOk(w, IndexField(r, c))
    ensures FieldsOk(w, DrawHead(r, c))
    ensures EncAll(w, DrawHead(r, c)) == EncInt(c.mode) + EncInt(c.count) + EncInt(c.typ) + Enc(w, IndexField(r, c))
  {
    hide EncInt, EncAll, IndexField;
    var one, two, three := [FInt(c.mode)], [FInt(c.mode), FInt(c.count)], [FInt(c.mode), FInt(c.count), FInt(c.typ)];
    EncOne(w, FInt(c.mode));
    PutOne(w, one, FInt(c.count));
    assert one + [FInt(c.count)] == two;
    PutOne(w, two, FInt(c.typ));
    assert two + [FInt(c.typ)] == three;
    PutOne(w, three, IndexField(r, c));
    assert three + [IndexField(r, c)] == DrawHead(r, c);
  }

  // ----- loops over words, pointers, pairs and strings

  /** One field put, the others to come. */
  lemma PutFirst(w: nat, before: seq<Byte>, f: Field, rest: seq<Field>)
    requires FieldOk(w, f) && FieldsOk(w, rest)
    ensures FieldsOk(w, [f] + rest) && before + EncAll(w, [f] + rest) == before + Enc(w, f) + EncAll(w, rest)
  {
    hide Enc, EncAll;
    EncAllConcat(w, [f], rest);
    EncOne(w, f);
    Assoc(before, Enc(w, f), EncAll(w, rest));
  }

  lemma IntsOk(w: nat, ids: seq<Int32>)
    ensures FieldsOk(w, Ints(ids))
  {
  }

  /** The names of glDelete... and glGen... */
  method PutInts(wr: Writer, ids: seq<Int32>)
    requires wr.Valid() && wr.Aligned() && wr.reentrance == 1
    modifies wr, wr.chunk
    ensures FieldsOk(wr.w, Ints(ids)) && Appended(wr, EncAll(wr.w, Ints(ids)))
  {
    hide EncAll, EncInt, FieldOk;
    IntsOk(wr.w, ids);
    assert ids[0..] == ids;
    for i := 0 to |ids|
      invariant Kept(wr) && FieldsOk(wr.w, Ints(ids[i..]))
      invariant wr.written + EncAll(wr.w, Ints(ids[i..])) == old(wr.written) + EncAll(wr.w, Ints(ids))
    {
      ghost var before := wr.written;
      wr.PutInt(ids[i]);
      IntsOk(wr.w, ids[i + 1..]);
      assert Ints(ids[i..]) == [FInt(ids[i])] + Ints(ids[i + 1..]);
      IntPut(wr.w, before, ids[i], Ints(ids[i + 1..]));
    }
    assert Ints(ids[|ids|..]) == [];
    NothingPut(wr.w);
    assert wr.written + [] == wr.written;
  }

  lemma IntPut(w: nat, before: seq<Byte>, v: Int32, rest: seq<Field>)
    requires FieldsOk(w, rest)
    ensures FieldsOk(w, [FInt(v)] + rest)
    ensures before + EncAll(w, [FInt(v)] + rest) == before + EncInt(v) + EncAll(w, rest)
  {
    hide EncAll, EncInt;
    PutFirst(w, before, FInt(v), rest);
  }

  /** The configurations eglChooseConfig returned. */
  method PutPtrs(wr: Writer, ps: seq<Uint64>)
    requires wr.Valid() && wr.Aligned() && wr.reentrance == 1 && FieldsOk(wr.w, Ptrs(ps))
    modifies wr, wr.chunk
    ensures Appended(wr, EncAll(wr.w, Ptrs(ps)))
  {
    hide EncAll, Enc, FieldOk;
    assert ps[0..] == ps;
    for i := 0 to |ps|
      invariant Kept(wr) && FieldsOk(wr.w, Ptrs(ps[i..]))
      invariant wr.written + EncAll(wr.w, Ptrs(ps[i..])) == old(wr.written) + EncAll(wr.w, Ptrs(ps))
    {
      ghost var before := wr.written;
      var f := FPtr(ps[i]);
      assert Ptrs(ps[i..]) == [f] + Ptrs(ps[i + 1..]);
      PartsOfOk(wr.w, [f], Ptrs(ps[i + 1..]));
      assert f in [f];
      wr.Put(f);
      PutFirst(wr.w, before, f, Ptrs(ps[i + 1..]));
    }
    assert Ptrs(ps[|ps|..]) == [];
    NothingPut(wr.w);
    assert wr.written + [] == wr.written;
  }

  lemma PartsOfOk(w: nat, a: seq<Field>, b: seq<Field>)
    requires FieldsOk(w, a + b)
    ensures FieldsOk(w, a) && FieldsOk(w, b)
  {
    hide FieldOk;
    forall f | f in a ensures FieldOk(w, f) { assert f in a + b; }
    forall f | f in b ensures FieldOk(w, f) { assert f in a + b; }
  }

  lemma {:induction false} AttrsOk(w: nat, attrs: seq<(Int32, Int32)>)
    ensures FieldsOk(w, AttrFields(attrs))
    decreases |attrs|
  {
    if attrs == [] {
    } else {
      AttrsOk(w, attrs[1..]);
    }
  }

  /** The pairs of an attribute list up to EGL_NONE, then EGL_NONE. */
  method PutAttrs(wr: Writer, attrs: seq<(Int32, Int32)>)
    requires wr.Valid() && wr.Aligned() && wr.reentrance == 1
    modifies wr, wr.chunk
    ensures FieldsOk(wr.w, AttrFields(attrs)) && Appended(wr, EncAll(wr.w, AttrFields(attrs)))
  {
    hide EncAll, EncInt, FieldOk;
    AttrsOk(wr.w, attrs);
    assert attrs[0..] == attrs;
    for i := 0 to |attrs|
      invariant Kept(wr) && FieldsOk(wr.w, AttrFields(attrs[i..]))
      invariant wr.written + EncAll(wr.w, AttrFields(attrs[i..])) == old(wr.written) + EncAll(wr.w, AttrFields(attrs))
    {
      ghost var before, rest := wr.written, AttrFields(attrs[i + 1..]);
      assert attrs[i..][1..] == attrs[i + 1..];
      AttrsOk(wr.w, attrs[i + 1..]);
      wr.PutInt(attrs[i].0);
      wr.PutInt(attrs[i].1);
      IntPut(wr.w, before + EncInt(attrs[i].0), attrs[i].1, rest);
      IntPut(wr.w, before, attrs[i].0, [FInt(attrs[i].1)] + rest);
    }
    ghost var before := wr.written;
    wr.PutInt(EGL_NONE);
    assert AttrFields(attrs[|attrs|..]) == [FInt(EGL_NONE)] + [];
    IntPut(wr.w, before, EGL_NONE, []);
    NothingPut(wr.w);
    assert wr.written + [] == wr.written;
  }

  /** The strings of glShaderSource: length, then block or string. */
  method PutParts(wr: Writer, parts: seq<Part>)
    requires wr.Valid() && wr.Aligned() && wr.reentrance == 1 && FieldsOk(wr.w, PartFields(parts))
    modifies wr, wr.chunk
    ensures Appended(wr, EncAll(wr.w, PartFields(parts)))
  {
    hide EncAll, Enc, EncInt, FieldOk;
    assert parts[0..] == parts;
    for i := 0 to |parts|
      invariant Kept(wr) && FieldsOk(wr.w, PartFields(parts[i..]))
      invariant wr.written + EncAll(wr.w, PartFields(parts[i..])) == old(wr.written) + EncAll(wr.w, PartFields(parts))
    {
      ghost var before, rest := wr.written, PartFields(parts[i + 1..]);
      assert parts[i..][1..] == parts[i + 1..];
      var len, f := parts[i].len, PartField(parts[i]);
      PartsOfOk(wr.w, [FInt(len)], [f] + rest);
      PartsOfOk(wr.w, [f], rest);
      assert f in [f];
      wr.PutInt(len);
      if len > 0 { wr.PutBytes(Buf(parts[i].text, len)); } else { wr.PutString(parts[i].text); }
      PutFirst(wr.w, before + EncInt(len), f, rest);
      IntPut(wr.w, before, len, [f] + rest);
    }
    assert PartFields(parts[|parts|..]) == [];
    NothingPut(wr.w);
    assert wr.written + [] == wr.written;
  }

  // ----- the interceptors

  /** Two runs of puts one after the other. */
  lemma PutBoth(w: nat, before: seq<Byte>, a: seq<Field>, b: seq<Field>)
    requires FieldsOk(w, a + b)
    ensures FieldsOk(w, a) && FieldsOk(w, b)
    ensures before + EncAll(w, a) + EncAll(w, b) == before + EncAll(w, a + b)
  {
    hide EncAll, FieldOk;
    PartsOfOk(w, a, b);
    EncAllConcat(w, a, b);
    Assoc(before, EncAll(w, a), EncAll(w, b));
  }

  /** glDelete... and glGen...: a count and that many names. */
  method PutCounted(wr: Writer, n: Int32, ids: seq<Int32>)
    requires wr.Valid() && wr.Aligned() && wr.reentrance == 1 && FieldsOk(wr.w, [FInt(n)] + Ints(ids))
    modifies wr, wr.chunk
    ensures Appended(wr, EncAll(wr.w, [FInt(n)] + Ints(ids)))
  {
    hide EncAll, EncInt, FieldOk, Ints;
    IntPutIn(wr.w, n, Ints(ids));
    wr.PutInt(n);
    PutInts(wr, ids);
    IntPut(wr.w, old(wr.written), n, Ints(ids));
  }

  lemma IntPutIn(w: nat, v: Int32, rest: seq<Field>)
    requires FieldsOk(w, [FInt(v)] + rest)
    ensures FieldsOk(w, rest)
  {
    PartsOfOk(w, [FInt(v)], rest);
  }

  method PutShaderSource(wr: Writer, shader: Int32, count: Int32, parts: seq<Part>)
    requires wr.Valid() && wr.Aligned() && wr.reentrance == 1
    requires FieldsOk(wr.w, [FInt(shader), FInt(count)] + PartFields(parts))
    modifies wr, wr.chunk
    ensures Appended(wr, EncAll(wr.w, [FInt(shader), FInt(count)] + PartFields(parts)))
  {
    hide EncAll, FieldOk, PartFields;
    PutBoth(wr.w, wr.written, [FInt(shader), FInt(count)], PartFields(parts));
    wr.PutAll([FInt(shader), FInt(count)]);
    PutParts(wr, parts);
  }

  method PutConfigTail(wr: Writer, size: Int32, num: Int32, listed: seq<Uint64>, res: Int32)
    requires wr.Valid() && wr.Aligned() && wr.reentrance == 1 && FieldsOk(wr.w, ConfigTail(size, num, listed, res))
    modifies wr, wr.chunk
    ensures Appended(wr, EncAll(wr.w, ConfigTail(size, num, listed, res)))
  {
    hide EncAll, FieldOk, Ptrs;
    PutBoth(wr.w, wr.written, [FInt(size), FInt(num)] + Ptrs(listed), [FInt(res)]);
    PutBoth(wr.w, wr.written, [FInt(size), FInt(num)], Ptrs(listed));
    wr.PutAll([FInt(size), FInt(num)]);
    PutPtrs(wr, listed);
    wr.PutAll([FInt(res)]);
  }

  method PutChooseConfig(wr: Writer, dpy: Uint64, attrs: seq<(Int32, Int32)>, size: Int32, num: Int32,
                         listed: seq<Uint64>, res: Int32)
    requires wr.Valid() && wr.Aligned() && wr.reentrance == 1
    requires FieldsOk(wr.w, ConfigFields(dpy, attrs, size, num, listed, res))
    modifies wr, wr.chunk
    ensures Appended(wr, EncAll(wr.w, ConfigFields(dpy, attrs, size, num, listed, res)))
  {
    hide EncAll, FieldOk, AttrFields, ConfigTail;
    PutBoth(wr.w, wr.written, [FPtr(dpy)] + AttrFields(attrs), ConfigTail(size, num, listed, res));
    PutBoth(wr.w, wr.written, [FPtr(dpy)], AttrFields(attrs));
    wr.PutAll([FPtr(dpy)]);
    PutAttrs(wr, attrs);
    PutConfigTail(wr, size, num, listed, res);
  }

  /** eglCreateWindowSurface and eglCreateContext. */
  method PutCreate(wr: Writer, a: Uint64, b: Uint64, c: Uint64, attrs: seq<(Int32, Int32)>, handle: Uint64)
    requires wr.Valid() && wr.Aligned() && wr.reentrance == 1
    requires FieldsOk(wr.w, [FPtr(a), FPtr(b), FPtr(c)] + (AttrFields(attrs) + [FPtr(handle)]))
    modifies wr, wr.chunk
    ensures Appended(wr, EncAll(wr.w, [FPtr(a), FPtr(b), FPtr(c)] + (AttrFields(attrs) + [FPtr(handle)])))
  {
    hide EncAll, FieldOk, AttrFields;
    var head := [FPtr(a), FPtr(b), FPtr(c)];
    PutBoth(wr.w, wr.written, head, AttrFields(attrs) + [FPtr(handle)]);
    PutBoth(wr.w, wr.written + EncAll(wr.w, head), AttrFields(attrs), [FPtr(handle)]);
    wr.PutAll(head);
    PutAttrs(wr, attrs);
    wr.PutAll([FPtr(handle)]);
  }

  /** The puts of a call, whatever it is. */
  method PutCall(wr: Writer, r: Recorder, c: Call)
    requires wr.Valid() && wr.Aligned() && wr.reentrance == 1 && Recordable(wr.w, r, c) && FieldsOk(wr.w, Fields(r, c))
    modifies wr, wr.chunk
    ensures Appended(wr, EncAll(wr.w, Fields(r, c)))
  {
    hide EncAll, FieldOk, Recordable, Ints, PartFields, AttrFields, ConfigFields, UniformFields, AttribFields,
        IndexField;
    match c {
      case Counted(_, n, ids) => PutCounted(wr, n, ids);
      case DrawElements(_, _, _, _, _) => PutDraw(wr, r, c);
      case ShaderSource(s, n, parts) => PutShaderSource(wr, s, n, parts);
      case ChooseConfig(dpy, attrs, _, _, num, res) =>
        PutChooseConfig(wr, dpy, attrs, LoggedSize(c), num, LoggedConfigs(c), res);
      case CreateWithAttribs(_, a, b, e, attrs, h) => PutCreate(wr, a, b, e, attrs, h);
      case _ => wr.PutAll(Fields(r, c));
    }
  }
}
