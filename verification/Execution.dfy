/** What the replayer does with a decoded record. Every `case` of `process` takes the arguments of its call, and the
    results to compare, from the values it has read, in the order in which it has read them. The call it makes is the
    one that was recorded, argument by argument. */
module Execution {
  import opened Bytes
  import opened Options
  import opened Wire
  import opened VertexArrays
  import opened Calls
  import opened RoundTrip

  /** A call as it is made, with its results. A block or string is shown by its bytes; `None` is a null pointer. */
  datatype Deed =
    | DoFixed(op: Int32, args: seq<Val>)
    | DoNames(op: Int32, n: Int32, ids: seq<Int32>)
    | DoBindBuffer(target: Int32, buffer: Int32)
    | DoSetVertexAttribArray(index: Int32, enable: bool)
    | DoVertexAttribPointer(index: Int32, size: Int32, typ: Int32, normalized: Int32, stride: Int32, pointer: Uint64)
    | DoDrawElements(mode: Int32, count: Int32, typ: Int32, indices: Val, arrays: seq<Val>)
    | DoShaderSource(shader: Int32, count: Int32, strings: seq<(Int32, Val)>)
    | DoGetActiveUniform(program: Int32, index: Int32, bufsize: Int32, ptrs: (Uint64, Uint64, Uint64, Uint64),
                         lengthOut: Option<Int32>, sizeOut: Option<Int32>, typeOut: Option<Int32>,
                         nameOut: Option<Val>)
    | DoChooseConfig(dpy: Uint64, attrs: seq<(Int32, Int32)>, configSize: Int32, numConfig: Int32,
                     configs: seq<Uint64>, res: Int32)
    | DoCreateWithAttribs(op: Int32, a: Uint64, b: Uint64, c: Uint64, attrs: seq<(Int32, Int32)>, handle: Uint64)

  // ----- what the replayer executes

  function PointerAt(vs: seq<Val>, i: nat): Uint64 {
    if i < |vs| && vs[i].VPtr? then vs[i].p else 0
  }

  function PointersAt(vs: seq<Val>, i: nat, n: nat): seq<Uint64> {
    seq<Uint64>(n, j requires 0 <= j => PointerAt(vs, i + j))
  }

  /** An attribute list that starts at value `i`; it ends at EGL_NONE. */
  function PairsAt(vs: seq<Val>, i: nat): (ps: seq<(Int32, Int32)>)
    decreases |vs| - i
  {
    if i + 1 >= |vs| || IntAt(vs, i) == EGL_NONE then []
    else [(IntAt(vs, i), IntAt(vs, i + 1))] + PairsAt(vs, i + 2)
  }

  /** The strings of glShaderSource; a length that is not positive becomes -1, "ends at its NUL". */
  function StringsAt(vs: seq<Val>, i: nat): seq<(Int32, Val)>
    decreases |vs| - i
  {
    if i + 1 >= |vs| then []
    else [(if IntAt(vs, i) > 0 then IntAt(vs, i) else -1, vs[i + 1])] + StringsAt(vs, i + 2)
  }

  function OptAt(vs: seq<Val>, there: bool, i: nat): Option<Int32> { if there then Some(IntAt(vs, i)) else None }

  function ExecutedUniform(vs: seq<Val>): Deed {
    var l, s, t, n := PointerAt(vs, 3), PointerAt(vs, 4), PointerAt(vs, 5), PointerAt(vs, 6);
    var i := if l != 0 then 8 else 7;
    var j := if s != 0 then i + 1 else i;
    var k := if t != 0 then j + 1 else j;
    DoGetActiveUniform(IntAt(vs, 0), IntAt(vs, 1), IntAt(vs, 2), (l, s, t, n), OptAt(vs, l != 0, 7),
                       OptAt(vs, s != 0, i), OptAt(vs, t != 0, j), if n != 0 && k < |vs| then Some(vs[k]) else None)
  }

  function ExecutedChoose(vs: seq<Val>): Deed {
    var attrs := PairsAt(vs, 1);
    var i := 2 * |attrs| + 2;
    var size, num := IntAt(vs, i), IntAt(vs, i + 1);
    var m := ConfigCount(size, num);
    DoChooseConfig(PointerAt(vs, 0), attrs, size, num, PointersAt(vs, i + 2, m), IntAt(vs, i + 2 + m))
  }

  function ExecutedCreate(op: Int32, vs: seq<Val>): Deed {
    var attrs := PairsAt(vs, 3);
    DoCreateWithAttribs(op, PointerAt(vs, 0), PointerAt(vs, 1), PointerAt(vs, 2), attrs,
                        PointerAt(vs, 2 * |attrs| + 4))
  }

  /** The cases of the `switch`. */
  function Executed(op: Int32, vs: seq<Val>): Deed {
    if op == OPC_glBindBuffer then DoBindBuffer(IntAt(vs, 0), IntAt(vs, 1))
    else if op == OPC_glEnableVertexAttribArray then DoSetVertexAttribArray(IntAt(vs, 0), true)
    else if op == OPC_glDisableVertexAttribArray then DoSetVertexAttribArray(IntAt(vs, 0), false)
    else if op == OPC_glVertexAttribPointer then
      DoVertexAttribPointer(IntAt(vs, 0), IntAt(vs, 1), IntAt(vs, 2), IntAt(vs, 3), IntAt(vs, 4), PointerAt(vs, 5))
    else if op == OPC_glDrawElements && |vs| >= 4 then
      DoDrawElements(IntAt(vs, 0), IntAt(vs, 1), IntAt(vs, 2), vs[3], vs[4..])
    else if op == OPC_glShaderSource then DoShaderSource(IntAt(vs, 0), IntAt(vs, 1), StringsAt(vs, 2))
    else if op == OPC_glGetActiveUniform then ExecutedUniform(vs)
    else if op == OPC_eglChooseConfig then ExecutedChoose(vs)
    else if AttribListOp(op) then ExecutedCreate(op, vs)
    else if CountedOp(op) && |vs| >= 1 then
      DoNames(op, IntAt(vs, 0), seq(|vs| - 1, i requires 0 <= i => IntAt(vs, i + 1)))
    else DoFixed(op, vs)
  }

  // ----- what was called

  /** A pointer of the recorded process: 4-byte pointers come back sign-extended. */
  function Shown(w: nat, p: Uint64): Uint64 {
    if w == 4 && 0x8000_0000 <= p < 0x1_0000_0000 then p + 0xffff_ffff_0000_0000 else p
  }

  function ShownBytes(data: Option<seq<Byte>>, size: Int32): Val {
    VBuf(if data.None? || size <= 0 || |data.value| < size then None else Some(data.value[..size]))
  }

  function ShownText(text: Option<seq<Byte>>): Val { VStr(Some(if text.None? then [] else text.value)) }

  function ShownArg(w: nat, f: Field): Val {
    match f
    case FInt(v) => VInt(v)
    case FOptInt(o) => VOptInt(o)
    case FU64(u) => VU64(u)
    case FPtr(p) => VPtr(Shown(w, p))
    case FStr(s) => ShownText(s)
    case FBuf(b) => ShownBytes(b.data, b.size)
  }

  function ShownPart(part: Part): (Int32, Val) {
    if part.len > 0 then (part.len, ShownBytes(part.text, part.len)) else (-1, ShownText(part.text))
  }

  function ShownArgs(w: nat, args: seq<Field>): seq<Val> {
    seq(|args|, i requires 0 <= i < |args| => ShownArg(w, args[i]))
  }

  function ShownParts(parts: seq<Part>): seq<(Int32, Val)> {
    seq(|parts|, i requires 0 <= i < |parts| => ShownPart(parts[i]))
  }

  /** The indices a draw hands over: an offset into the bound buffer, or `count` indices in client memory. */
  function ShownIndices(w: nat, r: Recorder, c: Call): Val
    requires c.DrawElements?
  {
    if r.elementBuffer != 0 then VPtr(Shown(w, c.indices))
    else
      var n := WrapInt(c.count * if SizeOf(c.typ).Some? then SizeOf(c.typ).value else 0);
      VBuf(if c.indices == 0 || n <= 0 then None else Some(LoadRange(c.mem, c.indices, n)))
  }

  /** Elements of `elem` bytes, `step` bytes apart, byte by byte. */
  function Spread(mem: Memory, base: int, step: nat, elem: nat, n: nat): seq<Byte>
    requires elem > 0
  {
    seq<Byte>(n * elem, b requires 0 <= b => Load(mem, base + b / elem * step + b % elem))
  }

  /** The array of an attribute: four vertices for every six indices. */
  function ShownArray(a: Attrib, c: Call): Val
    requires c.DrawElements?
  {
    var elem := ElemSize(a);
    var step := if a.stride > 0 then a.stride else elem;
    var n := if c.count < 0 then 0 else 4 * (c.count / 6);
    VBuf(if n == 0 || elem == 0 then None else Some(Spread(c.mem, a.pointer, step, elem, n)))
  }

  function ShownArrays(attribs: seq<Attrib>, c: Call): seq<Val>
    requires c.DrawElements?
  {
    if attribs == [] then []
    else (if attribs[0].enabled then [ShownArray(attribs[0], c)] else []) + ShownArrays(attribs[1..], c)
  }

  /** The call that was made, in the shadow state `r`, as far as a file can show it. */
  function Made(w: nat, r: Recorder, c: Call): Deed {
    match c
    case Fixed(op, args) => DoFixed(op, ShownArgs(w, args))
    case Counted(op, n, ids) => DoNames(op, n, ids)
    case BindBuffer(target, buffer) => DoBindBuffer(target, buffer)
    case SetVertexAttribArray(index, enable) => DoSetVertexAttribArray(index, enable)
    case VertexAttribPointer(index, size, typ, normalized, stride, pointer) =>
      DoVertexAttribPointer(index, size, typ, normalized, stride, Shown(w, pointer))
    case DrawElements(mode, count, typ, _, _) =>
      DoDrawElements(mode, count, typ, ShownIndices(w, r, c),
                     if r.arrayBuffer != 0 then [] else ShownArrays(r.attribs, c))
    case ShaderSource(shader, count, parts) =>
      DoShaderSource(shader, count, ShownParts(parts))
    case GetActiveUniform(program, index, bufsize, ptrs, length, size, typ, name) =>
      DoGetActiveUniform(program, index, bufsize,
                         (Shown(w, ptrs.0), Shown(w, ptrs.1), Shown(w, ptrs.2), Shown(w, ptrs.3)),
                         if ptrs.0 != 0 then Some(length) else None, if ptrs.1 != 0 then Some(size) else None,
                         if ptrs.2 != 0 then Some(typ) else None, if ptrs.3 != 0 then Some(VStr(Some(name))) else None)
    case ChooseConfig(dpy, attrs, configs, configSize, numConfig, res) =>
      var size := if configs.None? then 0 else configSize;
      var m := if numConfig < size then numConfig else size;
      DoChooseConfig(Shown(w, dpy), attrs, size, numConfig,
                     if configs.None? || m <= 0 then []
                     else seq(m, i requires 0 <= i => if i < |configs.value| then Shown(w, configs.value[i]) else 0),
                     res)
    case CreateWithAttribs(op, a, b, c, attrs, handle) =>
      DoCreateWithAttribs(op, Shown(w, a), Shown(w, b), Shown(w, c), attrs, Shown(w, handle))
  }

  // ----- the two are the same

  lemma SeePtrIsShown(w: nat, p: Uint64)
    requires WordSize(w) && p < Pow256(w)
    ensures SeePtr(w, p) == Shown(w, p)
  {
    WordSizes();
  }

  lemma SeeIsShown(w: nat, f: Field)
    requires WordSize(w) && FieldOk(w, f)
    ensures See(w, f) == ShownArg(w, f)
  {
    if f.FPtr? { SeePtrIsShown(w, f.p); }
  }

  lemma SeenShown(w: nat, fs: seq<Field>)
    requires WordSize(w) && FieldsOk(w, fs)
    ensures forall i :: 0 <= i < |fs| ==> SeeAll(w, fs)[i] == ShownArg(w, fs[i])
  {
    hide FieldOk, See, ShownArg;
    forall i | 0 <= i < |fs| ensures SeeAll(w, fs)[i] == ShownArg(w, fs[i]) {
      assert fs[i] in fs;
      SeeIsShown(w, fs[i]);
    }
  }

  /** The values from `i` on are those of these fields. */
  predicate Holds(w: nat, vs: seq<Val>, i: nat, fs: seq<Field>) {
    i + |fs| <= |vs| && forall j :: 0 <= j < |fs| ==> vs[i + j] == ShownArg(w, fs[j])
  }

  lemma HoldsFields(w: nat, fs: seq<Field>, a: seq<Field>, b: seq<Field>, c: seq<Field>)
    requires WordSize(w) && FieldsOk(w, fs) && fs == a + b + c
    ensures Holds(w, SeeAll(w, fs), |a|, b)
  {
    hide FieldOk, ShownArg, SeeAll;
    SeenShown(w, fs);
    var vs := SeeAll(w, fs);
    forall j | 0 <= j < |b| ensures vs[|a| + j] == ShownArg(w, b[j]) { assert fs[|a| + j] == b[j]; }
  }

  /** Two fields read, the others to come. */
  lemma HoldsTwo(w: nat, vs: seq<Val>, i: nat, a: Field, b: Field, rest: seq<Field>)
    requires Holds(w, vs, i, [a] + ([b] + rest))
    ensures i + 2 + |rest| <= |vs| && Holds(w, vs, i + 2, rest)
    ensures vs[i] == ShownArg(w, a) && vs[i + 1] == ShownArg(w, b)
  {
    hide ShownArg;
    var fs := [a] + ([b] + rest);
    assert vs[i + 0] == ShownArg(w, fs[0]) && vs[i + 1] == ShownArg(w, fs[1]);
    forall j | 0 <= j < |rest| ensures vs[i + 2 + j] == ShownArg(w, rest[j]) {
      assert vs[i + (j + 2)] == ShownArg(w, fs[j + 2]) && fs[j + 2] == rest[j];
    }
  }

  lemma {:induction false} PairsFound(w: nat, vs: seq<Val>, i: nat, attrs: seq<(Int32, Int32)>)
    requires Holds(w, vs, i, AttrFields(attrs)) && forall a :: a in attrs ==> a.0 != EGL_NONE
    ensures |AttrFields(attrs)| == 2 * |attrs| + 1
    ensures PairsAt(vs, i) == attrs
    decreases |attrs|
  {
    hide Holds;
    if attrs == [] {
      assert vs[i] == ShownArg(w, FInt(EGL_NONE)) by { HoldsOne(w, vs, i, FInt(EGL_NONE)); }
    } else {
      HoldsTwo(w, vs, i, FInt(attrs[0].0), FInt(attrs[0].1), AttrFields(attrs[1..]));
      assert attrs[0] in attrs;
      PairsFound(w, vs, i + 2, attrs[1..]);
    }
  }

  lemma HoldsOne(w: nat, vs: seq<Val>, i: nat, f: Field)
    requires Holds(w, vs, i, [f])
    ensures i < |vs| && vs[i] == ShownArg(w, f)
  {
    assert vs[i + 0] == ShownArg(w, [f][0]);
  }

  lemma PartShown(w: nat, part: Part)
    ensures ShownPart(part) == (if part.len > 0 then part.len else -1, ShownArg(w, PartField(part)))
  {
  }

  lemma {:induction false} StringsFound(w: nat, vs: seq<Val>, i: nat, parts: seq<Part>)
    requires Holds(w, vs, i, PartFields(parts)) && |vs| == i + |PartFields(parts)|
    ensures StringsAt(vs, i) == ShownParts(parts)
    decreases |parts|
  {
    hide Holds, PartField, ShownPart;
    if parts == [] {
    } else {
      var part, rest := parts[0], parts[1..];
      assert PartFields(parts) == [FInt(part.len)] + ([PartField(part)] + PartFields(rest));
      HoldsTwo(w, vs, i, FInt(part.len), PartField(part), PartFields(rest));
      PartShown(w, part);
      StringsFound(w, vs, i + 2, rest);
      assert ShownParts(parts) == [ShownPart(part)] + ShownParts(rest);
    }
  }

  lemma CountedIsNames(op: Int32, vs: seq<Val>)
    requires CountedOp(op) && |vs| >= 1
    ensures Executed(op, vs) == DoNames(op, IntAt(vs, 0), seq(|vs| - 1, i requires 0 <= i => IntAt(vs, i + 1)))
  {
    hide ExecutedUniform, ExecutedChoose, ExecutedCreate, StringsAt, IntAt, PointerAt;
  }

  lemma ExecutesCounted(w: nat, c: Call)
    requires WordSize(w) && c.Counted? && CountedOp(c.op) && FieldsOk(w, [FInt(c.n)] + Ints(c.ids))
    ensures Executed(c.op, SeeAll(w, [FInt(c.n)] + Ints(c.ids))) == DoNames(c.op, c.n, c.ids)
  {
    hide FieldOk, SeeAll, Executed;
    var fs := [FInt(c.n)] + Ints(c.ids);
    SeenShown(w, fs);
    var vs := SeeAll(w, fs);
    CountedIsNames(c.op, vs);
    assert vs[0] == ShownArg(w, fs[0]);
    forall i | 0 <= i < |c.ids| ensures IntAt(vs, i + 1) == c.ids[i] { assert vs[i + 1] == ShownArg(w, fs[i + 1]); }
  }

  lemma ExecutesShader(w: nat, shader: Int32, count: Int32, parts: seq<Part>)
    requires WordSize(w) && FieldsOk(w, [FInt(shader), FInt(count)] + PartFields(parts))
    ensures Executed(OPC_glShaderSource, SeeAll(w, [FInt(shader), FInt(count)] + PartFields(parts)))
      == DoShaderSource(shader, count, ShownParts(parts))
  {
    hide FieldOk, PartFields, SeeAll, ShownParts, StringsAt, Holds;
    var head, fs := [FInt(shader), FInt(count)], [FInt(shader), FInt(count)] + PartFields(parts);
    var vs := SeeAll(w, fs);
    SeenShown(w, fs);
    assert vs[0] == ShownArg(w, fs[0]) && vs[1] == ShownArg(w, fs[1]);
    assert fs == head + PartFields(parts) + [];
    HoldsFields(w, fs, head, PartFields(parts), []);
    StringsFound(w, vs, 2, parts);
  }

  /** The optional results are found behind the seven arguments, in order, as far as they are there. */
  lemma ResultsFound(w: nat, vs: seq<Val>, c: Call)
    requires c.GetActiveUniform? && Holds(w, vs, 7, UniformFields(c))
    requires PointerAt(vs, 3) == Shown(w, c.ptrs.0) && PointerAt(vs, 4) == Shown(w, c.ptrs.1)
    requires PointerAt(vs, 5) == Shown(w, c.ptrs.2) && PointerAt(vs, 6) == Shown(w, c.ptrs.3)
    ensures var d := ExecutedUniform(vs);
      && d.lengthOut == (if c.ptrs.0 != 0 then Some(c.length) else None)
      && d.sizeOut == (if c.ptrs.1 != 0 then Some(c.size) else None)
      && d.typeOut == (if c.ptrs.2 != 0 then Some(c.typ) else None)
      && d.nameOut == (if c.ptrs.3 != 0 then Some(VStr(Some(c.name))) else None)
  {
    var fs := UniformFields(c);
    assert forall j :: 0 <= j < |fs| ==> vs[7 + j] == ShownArg(w, fs[j]);
    assert |fs| > 0 ==> vs[7 + 0] == ShownArg(w, fs[0]);
    assert |fs| > 1 ==> vs[7 + 1] == ShownArg(w, fs[1]);
    assert |fs| > 2 ==> vs[7 + 2] == ShownArg(w, fs[2]);
    assert |fs| > 3 ==> vs[7 + 3] == ShownArg(w, fs[3]);
  }

  lemma ExecutesUniform(w: nat, r: Recorder, c: Call)
    requires WordSize(w) && c.GetActiveUniform? && FieldsOk(w, Fields(r, c))
    ensures Executed(Op(c), SeeAll(w, Fields(r, c))) == Made(w, r, c)
  {
    hide FieldOk, SeeAll, UniformFields, Holds;
    var fs, head := Fields(r, c), UniformHeadFields(c);
    var vs := SeeAll(w, fs);
    SeenShown(w, fs);
    assert vs[0] == VInt(c.program) && vs[1] == VInt(c.index) && vs[2] == VInt(c.bufsize);
    assert vs[3] == VPtr(Shown(w, c.ptrs.0)) && vs[4] == VPtr(Shown(w, c.ptrs.1));
    assert vs[5] == VPtr(Shown(w, c.ptrs.2)) && vs[6] == VPtr(Shown(w, c.ptrs.3));
    assert fs == head + UniformFields(c) + [];
    HoldsFields(w, fs, head, UniformFields(c), []);
    ResultsFound(w, vs, c);
  }

  /** The configurations that are logged are those that were returned, as many as there is room for. */
  lemma ConfigsShown(w: nat, r: Recorder, c: Call)
    requires c.ChooseConfig? && Recordable(w, r, c)
    ensures var size, listed := LoggedSize(c), LoggedConfigs(c);
      && |listed| == ConfigCount(size, c.numConfig)
      && Made(w, r, c) == DoChooseConfig(Shown(w, c.dpy), c.attrs, size, c.numConfig,
           seq<Uint64>(|listed|, i requires 0 <= i < |listed| => Shown(w, listed[i])), c.res)
  {
    hide FieldsOk, Shown, Fields;
  }

  lemma ExecutesChoose(w: nat, r: Recorder, c: Call)
    requires WordSize(w) && c.ChooseConfig? && Recordable(w, r, c)
    ensures Executed(Op(c), SeeAll(w, Fields(r, c))) == Made(w, r, c)
  {
    hide FieldOk, SeeAll, AttrFields, PairsAt, LoggedConfigs, LoggedSize, ConfigCount, ConfigTail, Made, Holds;
    ConfigsShown(w, r, c);
    var fs, size, listed := Fields(r, c), LoggedSize(c), LoggedConfigs(c);
    var vs := SeeAll(w, fs);
    SeenShown(w, fs);
    var head, tail := [FPtr(c.dpy)], ConfigTail(size, c.numConfig, listed, c.res);
    assert vs[0] == ShownArg(w, fs[0]);
    HoldsFields(w, fs, head, AttrFields(c.attrs), tail);
    PairsFound(w, vs, 1, c.attrs);
    assert fs == head + AttrFields(c.attrs) + tail + [];
    HoldsFields(w, fs, head + AttrFields(c.attrs), tail, []);
    TailFound(w, vs, 2 * |c.attrs| + 2, size, c.numConfig, listed, c.res);
  }

  lemma TailFound(w: nat, vs: seq<Val>, i: nat, size: Int32, num: Int32, listed: seq<Uint64>, res: Int32)
    requires Holds(w, vs, i, ConfigTail(size, num, listed, res))
    ensures IntAt(vs, i) == size && IntAt(vs, i + 1) == num && IntAt(vs, i + 2 + |listed|) == res
    ensures PointersAt(vs, i + 2, |listed|)
      == seq<Uint64>(|listed|, j requires 0 <= j < |listed| => Shown(w, listed[j]))
  {
    var tail := ConfigTail(size, num, listed, res);
    assert vs[i + 0] == ShownArg(w, tail[0]) && vs[i + 1] == ShownArg(w, tail[1]);
    assert vs[i + (2 + |listed|)] == ShownArg(w, tail[2 + |listed|]);
    forall j | 0 <= j < |listed| ensures PointerAt(vs, i + 2 + j) == Shown(w, listed[j]) {
      assert vs[i + (2 + j)] == ShownArg(w, tail[2 + j]) && tail[2 + j] == FPtr(listed[j]);
    }
  }

  lemma ExecutesCreate(w: nat, r: Recorder, c: Call)
    requires WordSize(w) && c.CreateWithAttribs? && Recordable(w, r, c)
    ensures Executed(Op(c), SeeAll(w, Fields(r, c))) == Made(w, r, c)
  {
    hide FieldOk, SeeAll, AttrFields, PairsAt;
    var fs := Fields(r, c);
    var vs := SeeAll(w, fs);
    SeenShown(w, fs);
    var head, last := [FPtr(c.a), FPtr(c.b), FPtr(c.c)], [FPtr(c.handle)];
    assert vs[0] == ShownArg(w, fs[0]) && vs[1] == ShownArg(w, fs[1]) && vs[2] == ShownArg(w, fs[2]);
    assert fs == head + AttrFields(c.attrs) + last;
    HoldsFields(w, fs, head, AttrFields(c.attrs), last);
    PairsFound(w, vs, 3, c.attrs);
    assert vs[|fs| - 1] == ShownArg(w, fs[|fs| - 1]);
  }

  // ----- draws

  lemma {:induction false} GatheredAt(mem: Memory, base: int, step: nat, elem: nat, n: nat, b: nat)
    requires elem > 0 && b < n * elem
    ensures |Gathered(mem, base, step, elem, n)| == n * elem
    ensures Gathered(mem, base, step, elem, n)[b] == Load(mem, base + b / elem * step + b % elem)
  {
    hide Gathered;
    var j, k := b / elem, b % elem;
    assert b == j * elem + k;
    BelowCount(b, elem, n);
    GatherPreservesVertices(mem, base, step, elem, n, j);
    assert Gathered(mem, base, step, elem, n)[j * elem..j * elem + elem][k] == Fetch(mem, base, step, elem, j)[k];
  }

  lemma BelowCount(b: nat, elem: nat, n: nat)
    requires elem > 0 && b < n * elem
    ensures b / elem < n
  {
    if b / elem >= n { MoreElements(n, b / elem, elem); }
  }

  lemma MoreElements(n: nat, q: nat, elem: nat)
    requires n <= q
    ensures n * elem <= q * elem
  {
    assert q * elem == n * elem + (q - n) * elem;
  }

  lemma GatheredIsSpread(mem: Memory, base: int, step: nat, elem: nat, n: nat)
    requires elem > 0
    ensures Gathered(mem, base, step, elem, n) == Spread(mem, base, step, elem, n)
  {
    hide Gathered;
    GatheredLength(mem, base, step, elem, n);
    forall b | 0 <= b < n * elem
      ensures Gathered(mem, base, step, elem, n)[b] == Load(mem, base + b / elem * step + b % elem)
    {
      GatheredAt(mem, base, step, elem, n, b);
    }
  }

  lemma QuadCount(count: Int32)
    ensures VertexCount(count) == if count < 0 then 0 else 4 * (count / 6)
  {
  }

  /** The packed array is the one shown, byte by byte. */
  lemma ArrayShown(a: Attrib, c: Call)
    requires c.DrawElements? && ElemSize(a) * VertexCount(c.count) < 0x8000_0000
    ensures var block := Packed(c.mem, a, VertexCount(c.count));
      ShownBytes(Some(block), WrapInt(|block|)) == ShownArray(a, c)
  {
    hide VertexCount, ElemSize, Gathered, WrapInt, Spread;
    var n, elem, step := VertexCount(c.count), ElemSize(a), Distance(a);
    var block := Packed(c.mem, a, n);
    QuadCount(c.count);
    GatheredLength(c.mem, a.pointer, step, elem, n);
    EmptyArray(n, elem);
    assert WrapInt(|block|) == |block| by { InIntRange(|block|); }
    assert block[..|block|] == block;
    if elem > 0 { GatheredIsSpread(c.mem, a.pointer, step, elem, n); }
  }

  lemma EmptyArray(n: nat, elem: nat)
    ensures n * elem == elem * n && (n * elem == 0 <==> n == 0 || elem == 0) && n * elem >= 0
  {
    if n > 0 && elem > 0 { MoreElements(1, n, elem); }
  }

  lemma InIntRange(n: nat)
    requires n < 0x8000_0000
    ensures WrapInt(n) == n
  {
  }

  function BlockFields(blocks: seq<seq<Byte>>): seq<Field> {
    seq(|blocks|, i requires 0 <= i < |blocks| => FBuf(Buf(Some(blocks[i]), WrapInt(|blocks[i]|))))
  }

  lemma BlockFieldsFirst(w: nat, block: seq<Byte>, rest: seq<seq<Byte>>)
    ensures ShownArgs(w, BlockFields([block] + rest))
      == [ShownBytes(Some(block), WrapInt(|block|))] + ShownArgs(w, BlockFields(rest))
  {
    hide WrapInt, ShownBytes;
    assert BlockFields([block] + rest) == [FBuf(Buf(Some(block), WrapInt(|block|)))] + BlockFields(rest);
  }

  lemma {:induction false} ArraysShown(w: nat, attribs: seq<Attrib>, c: Call, i: nat)
    requires c.DrawElements? && i <= |attribs| && ProductsFit(attribs, VertexCount(c.count))
    ensures ShownArrays(attribs[i..], c) == ShownArgs(w, BlockFields(Blocks(attribs, c.mem, VertexCount(c.count), i)))
    decreases |attribs| - i
  {
    hide VertexCount, ElemSize, Packed, WrapInt, ShownArray, ShownBytes, ShownArgs, BlockFields;
    var n := VertexCount(c.count);
    if i == |attribs| {
      assert ShownArgs(w, BlockFields([])) == [] by { NoArgs(w); }
    } else {
      ArraysShown(w, attribs, c, i + 1);
      assert attribs[i..][0] == attribs[i] && attribs[i..][1..] == attribs[i + 1..];
      var rest := Blocks(attribs, c.mem, n, i + 1);
      if attribs[i].enabled {
        ArrayShown(attribs[i], c);
        BlockFieldsFirst(w, Packed(c.mem, attribs[i], n), rest);
      } else {
        assert [] + rest == rest;
      }
    }
  }

  lemma NoArgs(w: nat)
    ensures ShownArgs(w, BlockFields([])) == []
  {
  }

  lemma IndicesShown(w: nat, r: Recorder, c: Call)
    requires c.DrawElements?
    ensures ShownArg(w, IndexField(r, c)) == ShownIndices(w, r, c)
  {
    hide WrapInt, SizeOf;
    var n := WrapInt(c.count * if SizeOf(c.typ).Some? then SizeOf(c.typ).value else 0);
    if n > 0 { assert LoadRange(c.mem, c.indices, n)[..n] == LoadRange(c.mem, c.indices, n); }
  }

  lemma ExecutesDraw(w: nat, r: Recorder, c: Call)
    requires WordSize(w) && c.DrawElements? && Recordable(w, r, c)
    ensures Executed(Op(c), SeeAll(w, Fields(r, c))) == Made(w, r, c)
  {
    hide FieldOk, SeeAll, IndexField, ShownIndices, Blocks, VertexCount, WrapInt, ShownArrays;
    var fs := Fields(r, c);
    var vs := SeeAll(w, fs);
    SeenShown(w, fs);
    IndicesShown(w, r, c);
    assert vs[0] == ShownArg(w, fs[0]) && vs[1] == ShownArg(w, fs[1]) && vs[2] == ShownArg(w, fs[2]);
    assert fs[3] == IndexField(r, c) && vs[3] == ShownArg(w, fs[3]);
    var arrays := if r.arrayBuffer != 0 then [] else ShownArrays(r.attribs, c);
    if r.arrayBuffer == 0 {
      var n := VertexCount(c.count);
      assert r.attribs[0..] == r.attribs;
      ArraysShown(w, r.attribs, c, 0);
      assert AttribFields(r, c) == BlockFields(Blocks(r.attribs, c.mem, n, 0));
    }
    assert |arrays| == |AttribFields(r, c)|;
    forall k | 0 <= k < |arrays| ensures vs[4..][k] == arrays[k] {
      assert fs[4 + k] == AttribFields(r, c)[k];
    }
    assert vs[4..] == arrays;
  }

  lemma FixedIsFixed(op: Int32, vs: seq<Val>)
    requires Signature(op).Some? && !StateOp(op)
    ensures Executed(op, vs) == DoFixed(op, vs)
  {
    hide ExecutedUniform, ExecutedChoose, ExecutedCreate, StringsAt, IntAt, PointerAt;
  }

  lemma ExecutesFixed(w: nat, op: Int32, args: seq<Field>)
    requires WordSize(w) && FieldsOk(w, args) && Signature(op).Some? && !StateOp(op)
    ensures Executed(op, SeeAll(w, args)) == DoFixed(op, ShownArgs(w, args))
  {
    hide FieldOk, ShownArg, Signature, Executed, StateOp;
    SeenShown(w, args);
    FixedIsFixed(op, SeeAll(w, args));
    assert SeeAll(w, args) == ShownArgs(w, args);
  }

  lemma ExecutesState(w: nat, r: Recorder, c: Call)
    requires WordSize(w) && Recordable(w, r, c) && (c.BindBuffer? || c.SetVertexAttribArray? || c.VertexAttribPointer?)
    ensures Executed(Op(c), SeeAll(w, Fields(r, c))) == Made(w, r, c)
  {
    hide FieldOk, SeeAll;
    var fs := Fields(r, c);
    SeenShown(w, fs);
  }

  /** For every call the recorder can log, the call the replayer makes is the call that was made: the same function,
      each argument in its place, the same results, up to null strings, empty blocks and 4-byte pointers. */
  lemma ExecutesWhatWasCalled(w: nat, r: Recorder, c: Call)
    requires WordSize(w) && Recordable(w, r, c)
    ensures Executed(Op(c), SeeAll(w, Fields(r, c))) == Made(w, r, c)
  {
    match c {
      case Fixed(op, args) => ExecutesFixed(w, op, args);
      case Counted(_, _, _) => ExecutesCounted(w, c);
      case DrawElements(_, _, _, _, _) => ExecutesDraw(w, r, c);
      case ShaderSource(s, n, parts) => ExecutesShader(w, s, n, parts);
      case GetActiveUniform(_, _, _, _, _, _, _, _) => ExecutesUniform(w, r, c);
      case ChooseConfig(_, _, _, _, _, _) => ExecutesChoose(w, r, c);
      case CreateWithAttribs(_, _, _, _, _, _) => ExecutesCreate(w, r, c);
      case _ => ExecutesState(w, r, c);
    }
  }
}
