/** The traced GL and EGL calls: the fields the interceptors of `gles.c` and `egl.c` put for each, and
    the decoder of `retrace.c`. The layout of a record can depend on shadow state that recorder and
    replayer each keep for themselves; as long as the two agree, decoding inverts encoding. */
module Calls {
  import opened Bytes
  import opened Options
  import opened Wire
  import opened VertexArrays

  const OPC_EOF: Int32 := -1
  const OPC_glBindBuffer: Int32 := 103
  const OPC_glDisableVertexAttribArray: Int32 := 139
  const OPC_glDrawElements: Int32 := 141
  const OPC_glEnableVertexAttribArray: Int32 := 143
  const OPC_glGetActiveUniform: Int32 := 155
  const OPC_glShaderSource: Int32 := 198
  const OPC_glVertexAttribPointer: Int32 := 240
  const OPC_eglChooseConfig: Int32 := 706
  const OPC_eglCreateWindowSurface: Int32 := 708
  const OPC_eglCreateContext: Int32 := 721
  const OPC_eglSwapBuffers: Int32 := 730

  const GL_ARRAY_BUFFER: Int32 := 0x8892
  const GL_ELEMENT_ARRAY_BUFFER: Int32 := 0x8893
  const EGL_NONE: Int32 := 0x3038

  /** The records with a fixed layout: opcode and the kinds of its fields, in file order. */
  function Signature(op: Int32): Option<seq<Kind>> {
    match op
    case 1 => Some([KStr])                                          // OPC_MARK
    case 100 => Some([KInt])                                        // glActiveTexture
    case 101 => Some([KInt, KInt])                                  // glAttachShader
    case 102 => Some([KInt, KInt, KStr])                            // glBindAttribLocation
    case 103 => Some([KInt, KInt])                                  // glBindBuffer
    case 110 => Some([KInt, KInt])                                  // glBlendFunc
    case 112 => Some([KInt, KInt, KBuf, KInt])                      // glBufferData
    case 113 => Some([KInt, KInt, KInt, KBuf])                      // glBufferSubData
    case 114 => Some([KInt, KInt])                                  // glCheckFramebufferStatus
    case 115 => Some([KInt])                                        // glClear
    case 116 => Some([KInt, KInt, KInt, KInt])                      // glClearColor
    case 125 => Some([KInt])                                        // glCreateProgram
    case 126 => Some([KInt, KInt])                                  // glCreateShader
    case 138 => Some([KInt])                                        // glDisable
    case 139 => Some([KInt])                                        // glDisableVertexAttribArray
    case 140 => Some([KInt, KInt, KInt])                            // glDrawArrays
    case 142 => Some([KInt])                                        // glEnable
    case 143 => Some([KInt])                                        // glEnableVertexAttribArray
    case 144 => Some([])                                            // glFinish
    case 157 => Some([KInt, KStr, KInt])                            // glGetAttribLocation
    case 160 => Some([KInt])                                        // glGetError
    case 163 => Some([KInt, KOptInt])                               // glGetIntegerv
    case 171 => Some([KInt, KStr])                                  // glGetString
    case 176 => Some([KInt, KStr, KInt])                            // glGetUniformLocation
    case 223 => Some([KInt, KInt, KInt, KInt, KInt])                // glUniform4f
    case 229 => Some([KInt, KInt, KInt, KBuf])                      // glUniformMatrix4fv
    case 240 => Some([KInt, KInt, KInt, KInt, KInt, KPtr])          // glVertexAttribPointer
    case 241 => Some([KInt, KInt, KInt, KInt])                      // glViewport
    case 701 => Some([KPtr, KPtr])                                  // eglGetDisplay
    case 702 => Some([KPtr, KOptInt, KOptInt, KInt])                // eglInitialize
    case 704 => Some([KPtr, KInt, KStr])                            // eglQueryString
    case 713 => Some([KInt, KInt])                                  // eglBindAPI
    case 718 => Some([KPtr, KPtr, KInt, KInt, KInt])                // eglSurfaceAttrib
    case 722 => Some([KPtr, KPtr, KInt])                            // eglDestroyContext
    case 723 => Some([KPtr, KPtr, KPtr, KPtr, KInt])                // eglMakeCurrent
    case 730 => Some([KPtr, KPtr, KInt])                            // eglSwapBuffers
    case _ => None
  }

  /** glDelete{Buffers,Framebuffers,Renderbuffers,Textures} and glGen{Buffers,...}: a count and that many names. */
  predicate CountedOp(op: Int32) {
    op == 128 || op == 129 || op == 131 || op == 133 || op == 149 || op == 151 || op == 152 || op == 153
  }

  /** The fixed-layout calls that also change the shadow state; they have constructors of their own. */
  predicate StateOp(op: Int32) {
    op == OPC_glBindBuffer || op == OPC_glEnableVertexAttribArray || op == OPC_glDisableVertexAttribArray
    || op == OPC_glVertexAttribPointer
  }

  predicate AttribListOp(op: Int32) { op == OPC_eglCreateWindowSurface || op == OPC_eglCreateContext }

  /** One source string of glShaderSource: its `length` entry (0 without a length array) and the memory at it. */
  datatype Part = Part(len: Int32, text: Option<seq<Byte>>)

  datatype Call =
    | Fixed(op: Int32, args: seq<Field>)
    | Counted(op: Int32, n: Int32, ids: seq<Int32>)
    | BindBuffer(target: Int32, buffer: Int32)
    | SetVertexAttribArray(index: Int32, enable: bool)
    | VertexAttribPointer(index: Int32, size: Int32, typ: Int32, normalized: Int32, stride: Int32, pointer: Uint64)
    | DrawElements(mode: Int32, count: Int32, typ: Int32, indices: Uint64, mem: Memory)
    | ShaderSource(shader: Int32, count: Int32, parts: seq<Part>)
    | GetActiveUniform(program: Int32, index: Int32, bufsize: Int32, ptrs: (Uint64, Uint64, Uint64, Uint64),
                       length: Int32, size: Int32, typ: Int32, name: seq<Byte>)
    | ChooseConfig(dpy: Uint64, attrs: seq<(Int32, Int32)>, configs: Option<seq<Uint64>>, configSize: Int32,
                   numConfig: Int32, res: Int32)
    | CreateWithAttribs(op: Int32, a: Uint64, b: Uint64, c: Uint64, attrs: seq<(Int32, Int32)>, handle: Uint64)

  function Op(c: Call): Int32 {
    match c
    case Fixed(op, _) => op
    case Counted(op, _, _) => op
    case BindBuffer(_, _) => OPC_glBindBuffer
    case SetVertexAttribArray(_, e) => if e then OPC_glEnableVertexAttribArray else OPC_glDisableVertexAttribArray
    case VertexAttribPointer(_, _, _, _, _, _) => OPC_glVertexAttribPointer
    case DrawElements(_, _, _, _, _) => OPC_glDrawElements
    case ShaderSource(_, _, _) => OPC_glShaderSource
    case GetActiveUniform(_, _, _, _, _, _, _, _) => OPC_glGetActiveUniform
    case ChooseConfig(_, _, _, _, _, _) => OPC_eglChooseConfig
    case CreateWithAttribs(op, _, _, _, _, _) => op
  }

  // ----- the recorder

  /** The static variables of `gles.c`. */
  datatype Recorder = Recorder(arrayBuffer: Int32, elementBuffer: Int32, attribs: seq<Attrib>)

  function InitialRecorder(): Recorder {
    Recorder(0, 0, seq(MAX_VERTEX_ATTRIBS, _ => Attrib(false, 0, 0, 0, 0, 0)))
  }

  function Ints(ids: seq<Int32>): seq<Field> {
    seq(|ids|, i requires 0 <= i < |ids| => FInt(ids[i]))
  }

  function Ptrs(ps: seq<Uint64>): seq<Field> {
    seq(|ps|, i requires 0 <= i < |ps| => FPtr(ps[i]))
  }

  function AttrFields(attrs: seq<(Int32, Int32)>): seq<Field> {
    if attrs == [] then [FInt(EGL_NONE)] else [FInt(attrs[0].0)] + ([FInt(attrs[0].1)] + AttrFields(attrs[1..]))
  }

  function PartField(part: Part): Field {
    if part.len > 0 then FBuf(Buf(part.text, part.len)) else FStr(part.text)
  }

  function PartFields(parts: seq<Part>): seq<Field> {
    if parts == [] then [] else [FInt(parts[0].len)] + ([PartField(parts[0])] + PartFields(parts[1..]))
  }

  function IndexField(r: Recorder, c: Call): Field
    requires c.DrawElements?
  {
    if r.elementBuffer != 0 then FPtr(c.indices)
    else
      var size := WrapInt(c.count * if SizeOf(c.typ).Some? then SizeOf(c.typ).value else 0);
      FBuf(Buf(if c.indices == 0 then None else Some(LoadRange(c.mem, c.indices, if size > 0 then size else 0)), size))
  }

  function AttribFields(r: Recorder, c: Call): seq<Field>
    requires c.DrawElements?
  {
    if r.arrayBuffer != 0 then []
    else
      var blocks := Blocks(r.attribs, c.mem, VertexCount(c.count), 0);
      seq(|blocks|, i requires 0 <= i < |blocks| => FBuf(Buf(Some(blocks[i]), WrapInt(|blocks[i]|))))
  }

  /** How many of the returned configurations eglChooseConfig logs. */
  function ConfigCount(size: Int32, num: Int32): nat {
    var m := if num < size then num else size;
    if m < 0 then 0 else m
  }

  function LoggedSize(c: Call): Int32
    requires c.ChooseConfig?
  {
    if c.configs.None? then 0 else c.configSize
  }

  function LoggedConfigs(c: Call): seq<Uint64>
    requires c.ChooseConfig?
  {
    var k := ConfigCount(LoggedSize(c), c.numConfig);
    if c.configs.None? || |c.configs.value| < k then [] else c.configs.value[..k]
  }

  function ConfigTail(size: Int32, num: Int32, listed: seq<Uint64>, res: Int32): seq<Field> {
    [FInt(size), FInt(num)] + Ptrs(listed) + [FInt(res)]
  }

  function ConfigFields(dpy: Uint64, attrs: seq<(Int32, Int32)>, size: Int32, num: Int32, listed: seq<Uint64>,
                        res: Int32): seq<Field> {
    [FPtr(dpy)] + AttrFields(attrs) + ConfigTail(size, num, listed, res)
  }

  function UniformFields(c: Call): seq<Field>
    requires c.GetActiveUniform?
  {
    (if c.ptrs.0 != 0 then [FInt(c.length)] else []) + (if c.ptrs.1 != 0 then [FInt(c.size)] else []) +
    (if c.ptrs.2 != 0 then [FInt(c.typ)] else []) + (if c.ptrs.3 != 0 then [FStr(Some(c.name))] else [])
  }

  /** The `put` calls between `putCmd` and `putTime` of each interceptor. */
  function Fields(r: Recorder, c: Call): seq<Field> {
    match c
    case Fixed(_, args) => args
    case Counted(_, n, ids) => [FInt(n)] + Ints(ids)
    case BindBuffer(t, b) => [FInt(t), FInt(b)]
    case SetVertexAttribArray(i, _) => [FInt(i)]
    case VertexAttribPointer(i, s, t, n, st, p) => [FInt(i), FInt(s), FInt(t), FInt(n), FInt(st), FPtr(p)]
    case DrawElements(m, n, t, _, _) => [FInt(m), FInt(n), FInt(t), IndexField(r, c)] + AttribFields(r, c)
    case ShaderSource(s, n, parts) => [FInt(s), FInt(n)] + PartFields(parts)
    case GetActiveUniform(pr, i, b, p, _, _, _, _) =>
      [FInt(pr), FInt(i), FInt(b), FPtr(p.0), FPtr(p.1), FPtr(p.2), FPtr(p.3)] + UniformFields(c)
    case ChooseConfig(dpy, attrs, _, _, num, res) =>
      ConfigFields(dpy, attrs, LoggedSize(c), num, LoggedConfigs(c), res)
    case CreateWithAttribs(_, a, b, c, attrs, h) => [FPtr(a), FPtr(b), FPtr(c)] + (AttrFields(attrs) + [FPtr(h)])
  }

  function Kinds(fs: seq<Field>): seq<Kind> {
    seq(|fs|, i requires 0 <= i < |fs| => KindOf(fs[i]))
  }

  predicate FieldsOk(w: nat, fs: seq<Field>) { forall f :: f in fs ==> FieldOk(w, f) }

  predicate InRange(i: Int32) { 0 <= i < MAX_VERTEX_ATTRIBS }

  /** The calls the recorder can log at all: argument counts match, attribute indices lie in the table,
      sizes of client arrays are known, attribute lists end at their first EGL_NONE, and eglChooseConfig
      does not log through a null `configs`. */
  predicate Recordable(w: nat, r: Recorder, c: Call) {
    && FieldsOk(w, Fields(r, c))
    && |r.attribs| == MAX_VERTEX_ATTRIBS
    && match c
       case Fixed(op, args) => Signature(op) == Some(Kinds(args)) && !StateOp(op)
       case Counted(op, n, ids) => CountedOp(op) && |ids| == if n > 0 then n else 0
       case SetVertexAttribArray(i, _) => InRange(i)
       case VertexAttribPointer(i, _, _, _, _, _) => InRange(i)
       case DrawElements(_, n, t, _, _) =>
         && (r.elementBuffer == 0 ==> SizeOf(t).Some?)
         && (r.arrayBuffer == 0 ==> TypesKnown(r.attribs) && ProductsFit(r.attribs, VertexCount(n)))
       case ShaderSource(_, n, parts) => |parts| == if n > 0 then n else 0
       case ChooseConfig(_, attrs, configs, size, num, _) =>
         && (forall a :: a in attrs ==> a.0 != EGL_NONE)
         && (if configs.None? then ConfigCount(size, num) == 0 else ConfigCount(size, num) <= |configs.value|)
       case CreateWithAttribs(op, _, _, _, attrs, _) => AttribListOp(op) && forall a :: a in attrs ==> a.0 != EGL_NONE
       case _ => true
  }

  /** The recorder's shadow state after a call. */
  function Recorded(r: Recorder, c: Call): Recorder {
    match c
    case BindBuffer(t, b) =>
      if t == GL_ARRAY_BUFFER then r.(arrayBuffer := b)
      else if t == GL_ELEMENT_ARRAY_BUFFER then r.(elementBuffer := b)
      else r
    case SetVertexAttribArray(i, e) =>
      if 0 <= i < |r.attribs| then r.(attribs := r.attribs[i := r.attribs[i].(enabled := e)]) else r
    case VertexAttribPointer(i, s, t, n, st, p) =>
      if 0 <= i < |r.attribs| then
        r.(attribs := r.attribs[i := r.attribs[i].(size := s, typ := t, normalized := n, stride := st, pointer := p)])
      else r
    case _ => r
  }

  // ----- the replayer

  datatype Format = Format(enabled: bool, size: Int32, typ: Int32, normalized: Int32)

  /** The static variables of `retrace.c` that decide the layout of records. */
  datatype Player = Player(arrayBuffer: Int32, elementBuffer: Int32, formats: seq<Format>)

  function InitialPlayer(): Player {
    Player(0, 0, seq(MAX_VERTEX_ATTRIBS, _ => Format(false, 0, 0, 0)))
  }

  /** Recorder and replayer agree on everything the replayer's decisions depend on; the attribute
      formats are only kept when the calls are also executed. */
  predicate Agree(exec: bool, r: Recorder, pl: Player) {
    && r.arrayBuffer == pl.arrayBuffer && r.elementBuffer == pl.elementBuffer
    && |r.attribs| == |pl.formats| == MAX_VERTEX_ATTRIBS
    && (forall i :: 0 <= i < MAX_VERTEX_ATTRIBS ==> r.attribs[i].enabled == pl.formats[i].enabled)
    && (exec ==> forall i :: 0 <= i < MAX_VERTEX_ATTRIBS ==>
          && pl.formats[i].size == r.attribs[i].size
          && pl.formats[i].typ == r.attribs[i].typ
          && pl.formats[i].normalized == r.attribs[i].normalized)
  }

  function ReadKinds(w: nat, ks: seq<Kind>, d: seq<Byte>, p: int): (seq<Val>, int) {
    if ks == [] then ([], p)
    else
      var (v, q) := Get(w, ks[0], d, p);
      var (vs, e) := ReadKinds(w, ks[1..], d, q);
      ([v] + vs, e)
  }

  function Repeat(k: Kind, n: int): seq<Kind> {
    seq(if n > 0 then n else 0, _ => k)
  }

  /** What decoding the body of a record gives: its values and the cursor, or `exit(1)`. */
  datatype Body = Body(vals: seq<Val>, pos: int) | Fatal

  /** Attribute lists go into a buffer of 64 ints. */
  function ReadAttrs(d: seq<Byte>, p: int, i: nat): Body
    decreases 64 - i
  {
    if i >= 64 then Fatal
    else
      var (key, q) := GetInt(d, p);
      if key == EGL_NONE then Body([VInt(key)], q)
      else
        var (val, e) := GetInt(d, q);
        match ReadAttrs(d, e, i + 2)
        case Fatal => Fatal
        case Body(vs, pos) => Body([VInt(key)] + ([VInt(val)] + vs), pos)
  }

  function ReadParts(w: nat, d: seq<Byte>, p: int, n: nat): (seq<Val>, int)
    decreases n
  {
    if n == 0 then ([], p)
    else
      var (len, q) := GetInt(d, p);
      var (v, e) := Get(w, if len > 0 then KBuf else KStr, d, q);
      var (vs, pos) := ReadParts(w, d, e, n - 1);
      ([VInt(len)] + ([v] + vs), pos)
  }

  function EnabledCount(formats: seq<Format>): nat {
    if formats == [] then 0 else (if formats[0].enabled then 1 else 0) + EnabledCount(formats[1..])
  }

  function UniformKinds(vs: seq<Val>): seq<Kind>
    requires |vs| == 7
  {
    (if vs[3] != VPtr(0) then [KInt] else []) + (if vs[4] != VPtr(0) then [KInt] else []) +
    (if vs[5] != VPtr(0) then [KInt] else []) + (if vs[6] != VPtr(0) then [KStr] else [])
  }

  lemma {:induction false} ReadKindsLength(w: nat, ks: seq<Kind>, d: seq<Byte>, p: int)
    ensures |ReadKinds(w, ks, d, p).0| == |ks|
  {
    if ks == [] {
    } else {
      ReadKindsLength(w, ks[1..], d, Get(w, ks[0], d, p).1);
    }
  }

  lemma ReadOne(w: nat, k: Kind, ks: seq<Kind>, d: seq<Byte>, p: int)
    ensures var (v, q) := Get(w, k, d, p);
      ReadKinds(w, [k] + ks, d, p) == ([v] + ReadKinds(w, ks, d, q).0, ReadKinds(w, ks, d, q).1)
  {
    hide Get;
    assert ([k] + ks)[1..] == ks;
  }

  function ReadThen(w: nat, head: seq<Val>, ks: seq<Kind>, d: seq<Byte>, p: int): Body {
    var (vs, e) := ReadKinds(w, ks, d, p);
    Body(head + vs, e)
  }

  function CountedBody(w: nat, d: seq<Byte>, p: int): Body {
    var (n, q) := GetInt(d, p);
    ReadThen(w, [VInt(n)], Repeat(KInt, n), d, q)
  }

  function DrawKinds(pl: Player): seq<Kind> {
    [KInt, KInt, KInt, if pl.elementBuffer != 0 then KPtr else KBuf]
    + Repeat(KBuf, if pl.arrayBuffer != 0 then 0 else EnabledCount(pl.formats))
  }

  function ShaderBody(w: nat, d: seq<Byte>, p: int): Body {
    var (shader, q) := GetInt(d, p);
    var (n, e) := GetInt(d, q);
    var (vs, pos) := ReadParts(w, d, e, if n > 0 then n else 0);
    Body([VInt(shader), VInt(n)] + vs, pos)
  }

  const UNIFORM_HEAD := [KInt, KInt, KInt, KPtr, KPtr, KPtr, KPtr]

  function UniformBody(w: nat, d: seq<Byte>, p: int): Body {
    var (vs, q) := ReadKinds(w, UNIFORM_HEAD, d, p);
    ReadKindsLength(w, UNIFORM_HEAD, d, p);
    ReadThen(w, vs, UniformKinds(vs), d, q)
  }

  function ChooseConfigBody(w: nat, d: seq<Byte>, p: int): Body {
    var (dpy, q) := Get(w, KPtr, d, p);
    match ReadAttrs(d, q, 0)
    case Fatal => Fatal
    case Body(attrs, e) =>
      var (size, e1) := GetInt(d, e);
      var (num, e2) := GetInt(d, e1);
      ReadThen(w, [dpy] + attrs + [VInt(size), VInt(num)], Repeat(KPtr, ConfigCount(size, num)) + [KInt], d, e2)
  }

  function CreateBody(w: nat, d: seq<Byte>, p: int): Body {
    var (vs, q) := ReadKinds(w, [KPtr, KPtr, KPtr], d, p);
    match ReadAttrs(d, q, 0)
    case Fatal => Fatal
    case Body(attrs, e) => ReadThen(w, vs + attrs, [KPtr], d, e)
  }

  /** The cases of the `switch` in `process`; on every other opcode the reader stops. */
  datatype Shape =
    | FixedShape(kinds: seq<Kind>) | CountedShape | DrawShape | ShaderShape | UniformShape | ChooseConfigShape
    | CreateShape | NoShape

  function ShapeOf(op: Int32): Shape {
    if Signature(op).Some? then FixedShape(Signature(op).value)
    else if CountedOp(op) then CountedShape
    else if op == OPC_glDrawElements then DrawShape
    else if op == OPC_glShaderSource then ShaderShape
    else if op == OPC_glGetActiveUniform then UniformShape
    else if op == OPC_eglChooseConfig then ChooseConfigShape
    else if AttribListOp(op) then CreateShape
    else NoShape
  }

  function Decode(w: nat, pl: Player, shape: Shape, d: seq<Byte>, p: int): Body
    requires !shape.NoShape?
  {
    match shape
    case FixedShape(kinds) => ReadThen(w, [], kinds, d, p)
    case CountedShape => CountedBody(w, d, p)
    case DrawShape => ReadThen(w, [], DrawKinds(pl), d, p)
    case ShaderShape => ShaderBody(w, d, p)
    case UniformShape => UniformBody(w, d, p)
    case ChooseConfigShape => ChooseConfigBody(w, d, p)
    case CreateShape => CreateBody(w, d, p)
  }

  function SetFormat(pl: Player, i: Int32, f: Format -> Format): Player {
    if 0 <= i < |pl.formats| then pl.(formats := pl.formats[i := f(pl.formats[i])]) else pl
  }

  function IntAt(vs: seq<Val>, i: nat): Int32 {
    if i < |vs| && vs[i].VInt? then vs[i].v else 0
  }

  /** The replayer's shadow state after a record. */
  function Replayed(exec: bool, pl: Player, op: Int32, vs: seq<Val>): Player {
    if op == OPC_glBindBuffer then
      if IntAt(vs, 0) == GL_ARRAY_BUFFER then pl.(arrayBuffer := IntAt(vs, 1))
      else if IntAt(vs, 0) == GL_ELEMENT_ARRAY_BUFFER then pl.(elementBuffer := IntAt(vs, 1))
      else pl
    else if op == OPC_glEnableVertexAttribArray then SetFormat(pl, IntAt(vs, 0), (f: Format) => f.(enabled := true))
    else if op == OPC_glDisableVertexAttribArray then SetFormat(pl, IntAt(vs, 0), (f: Format) => f.(enabled := false))
    else if op == OPC_glVertexAttribPointer && exec then
      SetFormat(pl, IntAt(vs, 0),
        (f: Format) => f.(size := IntAt(vs, 1), typ := IntAt(vs, 2), normalized := IntAt(vs, 3)))
    else pl
  }
}
