/** The replay of a file written by a schedule that is not serial: a draw logged while a bind is unapplied is read
    with the wrong layout, and the replayed trace is not that of the calls. */
module MisreadDraw {
  import opened Bytes
  import opened Options
  import opened Wire
  import opened TraceWriter
  import opened VertexArrays
  import opened Calls
  import opened RoundTrip
  import opened Execution
  import opened Replay
  import opened Trace
  import opened Interposer
  import opened Shadows
  import opened Records
  import opened BindRaces

  const THE_BIND := Item(1, BindBuffer(GL_ELEMENT_ARRAY_BUFFER, 5), 0, 0)
  const THE_DRAW := Item(2, DrawElements(4, 0, 0x1401, 1, map[]), 0, 0)

  /** The shadow state after the bind. */
  function Bound(): Recorder { Recorded(InitialRecorder(), THE_BIND.call) }

  // ----- the calls are recordable

  lemma {:induction false} NoBlocks(attribs: seq<Attrib>, mem: Memory, n: nat, i: nat)
    requires i <= |attribs| && forall j :: 0 <= j < |attribs| ==> !attribs[j].enabled
    ensures Blocks(attribs, mem, n, i) == []
    decreases |attribs| - i
  {
    hide Packed;
    if i == |attribs| {
    } else {
      NoBlocks(attribs, mem, n, i + 1);
    }
  }

  lemma DrawFields(r: Recorder)
    requires r == InitialRecorder() || r == Bound()
    ensures Fields(r, THE_DRAW.call) == [FInt(4)] + ([FInt(0)] + ([FInt(0x1401)] + [IndexField(r, THE_DRAW.call)]))
    ensures IndexField(r, THE_DRAW.call) == if r == Bound() then FPtr(1) else FBuf(Buf(Some([]), 0))
    ensures Bound() != InitialRecorder()
  {
    NoBlocks(r.attribs, map[], 0, 0);
    assert Bound().elementBuffer == 5 && InitialRecorder().elementBuffer == 0;
    assert LoadRange(map[], 1, 0) == [];
  }

  lemma CallsOk()
    ensures ItemOk(8, InitialRecorder(), THE_BIND) && ItemOk(8, Bound(), THE_DRAW)
    ensures TraceOk(8, InitialRecorder(), [THE_BIND, THE_DRAW])
  {
    WordSizes();
    DrawFields(Bound());
    var items := [THE_BIND, THE_DRAW];
    assert items[1..] == [THE_DRAW] && items[1..][1..] == [];
  }

  // ----- the schedule

  /** Thread 1 logs the bind, thread 2 the draw, and only then does thread 1 return. */
  lemma Interleaved() returns (ms: seq<Move>, s: World)
    ensures Run(START, ms) == Some(s) && Free(s) && Stack(s, 1) == [] && Stack(s, 2) == []
    ensures s.done == [Rec(THE_BIND, true, Fields(InitialRecorder(), THE_BIND.call) + Times(THE_BIND), false),
                       Rec(THE_DRAW, true, Fields(InitialRecorder(), THE_DRAW.call) + Times(THE_DRAW), false)]
  {
    hide Run, Fields, InitialRecorder, Recorded;
    FromStart();
    ms, s := Logs([], START, THE_BIND);
    ms, s := Logs(ms, s, THE_DRAW);
    ms, s := Returns(ms, s, THE_DRAW);
    ms, s := Returns(ms, s, THE_BIND);
  }

  /** What the two records are in the file: the first as it should be, the second with client indices. */
  function Misfields(): seq<Field> {
    [FInt(OPC_THREAD)] + ([FPtr(2)] + ([FInt(OPC_glDrawElements)] + DrawFront()))
  }

  function DrawFront(): seq<Field> { [FInt(4)] + ([FInt(0)] + ([FInt(0x1401)] + Tail())) }

  function Tail(): seq<Field> { [FBuf(Buf(Some([]), 0)), FU64(0), FU64(0)] }

  lemma LogOf(ms: seq<Move>, s: World)
    requires Run(START, ms) == Some(s) && s.open.None?
    requires s.done == [Rec(THE_BIND, true, Fields(InitialRecorder(), THE_BIND.call) + Times(THE_BIND), false),
                        Rec(THE_DRAW, true, Fields(InitialRecorder(), THE_DRAW.call) + Times(THE_DRAW), false)]
    ensures s.log == ItemFields(InitialRecorder(), 0, THE_BIND) + Misfields()
    ensures Items(s.done) == [THE_BIND, THE_DRAW]
  {
    hide Run, LockOk, Prefixed, LastThread, InitialRecorder, Fields;
    StartInv();
    EverySchedule(START, ms);
    var one := s.done[..1];
    assert one == [s.done[0]] && one[..0] == [];
    assert Concat(one) == [] + RecFields(s.done[0]);
    assert Concat(s.done) == Concat(one) + RecFields(s.done[1]);
    DrawFields(InitialRecorder());
    assert RecFields(s.done[0]) == ItemFields(InitialRecorder(), 0, THE_BIND);
    var body := s.done[1].body;
    assert body == [FInt(4)] + ([FInt(0)] + ([FInt(0x1401)] + Tail()));
  }

  // ----- the replay

  lemma TailBytes()
    ensures FieldsOk(8, Tail()) && EncAll(8, Tail()) == Zeros(20)
  {
    hide Le, EncAll;
    var a, b, c := FBuf(Buf(Some([]), 0)), FU64(0), FU64(0);
    LeZero(4);
    LeZero(8);
    EncOne(8, a);
    EncOne(8, b);
    EncOne(8, c);
    assert [a] + [b] == [a, b] && [a, b] + [c] == Tail();
    EncAllConcat(8, [a], [b]);
    EncAllConcat(8, [a, b], [c]);
    assert Enc(8, a) == Zeros(4);
    assert Zeros(4) + Zeros(8) + Zeros(8) == Zeros(20);
  }

  /** The replayer takes the index length and half of a time stamp for a pointer. */
  lemma PointerRead(d: seq<Byte>, p: int)
    requires At(d, p, EncAll(8, Tail()))
    ensures Get(8, KPtr, d, p) == (VPtr(0), p + 8)
  {
    hide Get, Le;
    TailBytes();
    LeZero(8);
    WordSizes();
    assert d[p..p + 8] == d[p..p + 20][..8] == Zeros(8);
    GetPtr(8, d, p, 0);
  }

  lemma ThreeThen(d: seq<Byte>, p: int, a: Int32, b: Int32, c: Int32)
    requires Get(8, KInt, d, p) == (VInt(a), p + 4) && Get(8, KInt, d, p + 4) == (VInt(b), p + 8)
    requires Get(8, KInt, d, p + 8) == (VInt(c), p + 12)
    ensures var (vs, q) := ReadKinds(8, [KPtr], d, p + 12);
      ReadKinds(8, [KInt, KInt, KInt, KPtr], d, p) == ([VInt(a), VInt(b), VInt(c)] + vs, q)
  {
    hide Get, ReadKinds;
    ReadOne(8, KInt, [KPtr], d, p + 8);
    ReadOne(8, KInt, [KInt, KPtr], d, p + 4);
    ReadOne(8, KInt, [KInt, KInt, KPtr], d, p);
    assert [KInt] + [KPtr] == [KInt, KPtr];
    assert [KInt] + [KInt, KPtr] == [KInt, KInt, KPtr];
    assert [KInt] + [KInt, KInt, KPtr] == [KInt, KInt, KInt, KPtr];
    var vs := ReadKinds(8, [KPtr], d, p + 12).0;
    assert [VInt(a)] + ([VInt(b)] + ([VInt(c)] + vs)) == [VInt(a), VInt(b), VInt(c)] + vs;
  }

  lemma FourValues(d: seq<Byte>, p: int, a: Int32, b: Int32, c: Int32, ptr: Val, q: int)
    requires GetInt(d, p) == (a, p + 4) && GetInt(d, p + 4) == (b, p + 8) && GetInt(d, p + 8) == (c, p + 12)
    requires Get(8, KPtr, d, p + 12) == (ptr, q)
    ensures ReadKinds(8, [KInt, KInt, KInt, KPtr], d, p) == ([VInt(a), VInt(b), VInt(c), ptr], q)
  {
    assert Get(8, KInt, d, p) == (VInt(a), p + 4);
    assert Get(8, KInt, d, p + 4) == (VInt(b), p + 8);
    assert Get(8, KInt, d, p + 8) == (VInt(c), p + 12);
    ThreeThen(d, p, a, b, c);
    ReadOne(8, KPtr, [], d, p + 12);
    assert [KPtr] + [] == [KPtr] && [ptr] + [] == [ptr];
    assert [VInt(a), VInt(b), VInt(c)] + [ptr] == [VInt(a), VInt(b), VInt(c), ptr];
  }

  /** The layout a replayer in step with the log expects. */
  lemma ExpectsPointer(pl: Player)
    requires Agree(false, Bound(), pl)
    ensures DrawKinds(pl) == [KInt, KInt, KInt, KPtr]
  {
    NoBlocks(Bound().attribs, map[], 0, 0);
    BlocksCount(Bound().attribs, pl.formats, map[], 0, 0);
    assert pl.formats[0..] == pl.formats;
  }

  lemma CommandAt(d: seq<Byte>, p: int, op: Int32)
    requires GetInt(d, p) == (op, p + 4)
    ensures GetCmd(d, p) == (op, p + 4)
  {
  }

  /** The words in front of the fields of the draw. */
  lemma PrefixRead(d: seq<Byte>, p: int)
    requires FieldsOk(8, Misfields()) && At(d, p, EncAll(8, Misfields()))
    ensures GetInt(d, p) == (OPC_THREAD, p + 4) && Get(8, KPtr, d, p + 4) == (VPtr(2), p + 12)
    ensures GetInt(d, p + 12) == (OPC_glDrawElements, p + 16)
    ensures FieldsOk(8, DrawFront()) && At(d, p + 16, EncAll(8, DrawFront()))
  {
    hide Get, GetInt, EncAll, FieldOk, DrawFront;
    var t := [FInt(OPC_glDrawElements)] + DrawFront();
    IntThen(8, OPC_THREAD, [FPtr(2)] + t, d, p);
    FieldThen(8, FPtr(2), t, d, p + 4);
    assert |Enc(8, FPtr(2))| == 8;
    WordSizes();
    IntThen(8, OPC_glDrawElements, DrawFront(), d, p + 12);
  }

  lemma FrontRead(d: seq<Byte>, p: int)
    requires FieldsOk(8, DrawFront()) && At(d, p, EncAll(8, DrawFront()))
    ensures ReadKinds(8, [KInt, KInt, KInt, KPtr], d, p) == ([VInt(4), VInt(0), VInt(0x1401), VPtr(0)], p + 20)
  {
    hide Get, GetInt, EncAll, FieldOk, ReadKinds, Tail;
    var t2 := [FInt(0x1401)] + Tail();
    var t1 := [FInt(0)] + t2;
    IntThen(8, 4, t1, d, p);
    IntThen(8, 0, t2, d, p + 4);
    IntThen(8, 0x1401, Tail(), d, p + 8);
    PointerRead(d, p + 12);
    FourValues(d, p, 4, 0, 0x1401, VPtr(0), p + 20);
  }

  /** At the record of the draw, the replayer reads a null pointer for the indices. */
  lemma StepMisreads(exec: bool, d: seq<Byte>, s: State)
    requires Agree(exec, Bound(), s.player) && FieldsOk(8, Misfields()) && At(d, s.pos, EncAll(8, Misfields()))
    ensures var o := Step(8, exec, d, s);
      && o.Next? && |o.s.log| == |s.log| + 1 && s.log <= o.s.log
      && var e := o.s.log[|s.log|]; e.op == OPC_glDrawElements && |e.vals| == 4 && e.vals[3] == VPtr(0)
  {
    hide Get, GetInt, EncAll, FieldOk, Word, Replayed, ReadKinds, DrawKinds, Misfields, DrawFront, Bound;
    var p := s.pos;
    PrefixRead(d, p);
    FrontRead(d, p + 16);
    ExpectsPointer(s.player);
    CommandAt(d, p, OPC_THREAD);
    CommandAt(d, p + 12, OPC_glDrawElements);
    assert ShapeOf(OPC_glDrawElements) == DrawShape;
  }

  lemma MisfieldsOk()
    ensures FieldsOk(8, Misfields())
  {
    WordSizes();
  }

  lemma ZeroThread()
    ensures 0 < Pow256(8) && SeePtr(8, 0) == 0
  {
    WordSizes();
  }

  /** The call that was made hands over offset 1 of the bound buffer. */
  lemma ExpectedDraw()
    ensures var deeds := Called(8, InitialRecorder(), [THE_BIND, THE_DRAW]);
      |deeds| == 2 && deeds[1].deed.DoDrawElements? && deeds[1].deed.indices == VPtr(1)
  {
    hide InitialRecorder, ShownArrays;
    var items := [THE_BIND, THE_DRAW];
    assert items[1..] == [THE_DRAW] && [THE_DRAW][1..] == [];
    assert Called(8, Bound(), [THE_DRAW]) == [Event(2, Made(8, Bound(), THE_DRAW.call), 0, 0)] + [];
  }

  lemma Misplayed(exec: bool, log: seq<Field>)
    requires log == ItemFields(InitialRecorder(), 0, THE_BIND) + Misfields()
    requires TraceOk(8, InitialRecorder(), [THE_BIND, THE_DRAW])
    ensures FieldsOk(8, Header(8)) && FieldsOk(8, log) && AllFit([THE_BIND, THE_DRAW])
    ensures !PlaysBack(8, exec, [THE_BIND, THE_DRAW], EncAll(8, Header(8)) + EncAll(8, log))
  {
    hide InitialRecorder, EncAll, FieldOk, Agree, Open, ItemFields, Misfields, Recorded, ItemOk, Step, Header,
        Called;
    CallsOk();
    HeaderOk(8);
    MisfieldsOk();
    ItemFieldsOk(8, InitialRecorder(), 0, THE_BIND);
    EncAllConcat(8, ItemFields(InitialRecorder(), 0, THE_BIND), Misfields());
    var head := EncAll(8, Header(8));
    var one, two := EncAll(8, ItemFields(InitialRecorder(), 0, THE_BIND)), EncAll(8, Misfields());
    var d := head + (one + two);
    assert d[0..|d|] == d;
    AtConcat(d, 0, head, one + two);
    AtConcat(d, |head|, one, two);
    OpensHeader(8, d);
    InitiallyAgree(exec);
    ZeroThread();
    StepItem(8, exec, InitialRecorder(), 0, Opened(), THE_BIND, d);
    var t := Step(8, exec, d, Opened()).s;
    assert Agree(exec, Bound(), t.player);
    StepMisreads(exec, d, t);
    if PlaysBack(8, exec, [THE_BIND, THE_DRAW], d) {
      var u := Step(8, exec, d, t).s;
      assert Loop(8, exec, d, -1, Opened(), 3) == Loop(8, exec, d, -1, t, 2);
      LogStays(8, exec, d, -1, u, 1);
      ExpectedDraw();
    }
  }

  /** The replayed trace is not that of the calls, although every call is recordable and fits. */
  lemma DrawMisread(exec: bool) returns (ms: seq<Move>, s: World)
    ensures Run(START, ms) == Some(s) && Free(s) && Stack(s, 1) == [] && Stack(s, 2) == []
    ensures TraceOk(8, InitialRecorder(), Items(s.done)) && AllFit(Items(s.done))
    ensures FieldsOk(8, Header(8)) && FieldsOk(8, s.log)
    ensures !PlaysBack(8, exec, Items(s.done), EncAll(8, Header(8)) + EncAll(8, s.log))
  {
    hide Run, InitialRecorder, EncAll, FieldOk, Agree, Open, Loop, Called, ItemFields, Misfields, Recorded, ItemOk,
         TraceOk;
    ms, s := Interleaved();
    LogOf(ms, s);
    CallsOk();
    Misplayed(exec, s.log);
  }
}
