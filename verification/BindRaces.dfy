/** Schedules on which recorder and replayer disagree: a draw logged before a bind is assigned, binds assigned in
    another order than they were logged, and a bind in a nested call, which is not logged at all. */
module BindRaces {
  import opened Sequences
  import opened Bytes
  import opened Options
  import opened Wire
  import opened VertexArrays
  import opened Calls
  import opened RoundTrip
  import opened Trace
  import opened Interposer
  import opened Shadows
  import opened ShadowOrders
  import opened Records
  import opened DrawReads

  /** The number of attribute blocks a draw writes, or expects, in a shadow state. */
  function BlockCount(r: Recorder): nat {
    if r.arrayBuffer != 0 then 0 else |Blocks(r.attribs, map[], 0, 0)|
  }

  lemma {:induction false} BlocksIndependent(attribs: seq<Attrib>, mem: Memory, n: nat, i: nat)
    requires i <= |attribs|
    ensures |Blocks(attribs, mem, n, i)| == |Blocks(attribs, map[], 0, i)|
    decreases |attribs| - i
  {
    hide Packed;
    if i == |attribs| {
    } else {
      BlocksIndependent(attribs, mem, n, i + 1);
    }
  }

  /** A draw logged in shadow state `r` has the layout that a replayer in step with `q` expects, exactly
      when both or neither bind an index buffer and they call for the same number of blocks. */
  lemma LayoutAgreesExactly(r: Recorder, q: Recorder, pl: Player, c: Call)
    requires c.DrawElements? && Agree(false, q, pl)
    ensures Kinds(Fields(r, c)) == DrawKinds(pl)
       <==> (r.elementBuffer == 0 <==> q.elementBuffer == 0) && BlockCount(r) == BlockCount(q)
  {
    hide Blocks, EnabledCount;
    var n := VertexCount(c.count);
    BlocksIndependent(r.attribs, c.mem, n, 0);
    BlocksIndependent(q.attribs, c.mem, n, 0);
    BlocksCount(q.attribs, pl.formats, c.mem, n, 0);
    assert pl.formats[0..] == pl.formats;
    var m := if pl.arrayBuffer != 0 then 0 else EnabledCount(pl.formats);
    assert m == BlockCount(q);
    assert Kinds(AttribFields(r, c)) == Repeat(KBuf, BlockCount(r));
    var head := [KInt, KInt, KInt, KindOf(IndexField(r, c))];
    assert Kinds(Fields(r, c)) == head + Repeat(KBuf, BlockCount(r));
    assert |Kinds(Fields(r, c))| == 4 + BlockCount(r) && |DrawKinds(pl)| == 4 + m;
    assert Kinds(Fields(r, c))[3] == KindOf(IndexField(r, c));
    assert DrawKinds(pl)[3] == if pl.elementBuffer != 0 then KPtr else KBuf;
  }

  lemma {:induction false} RunAppend(s: World, ms: seq<Move>, m: Move)
    requires Run(s, ms).Some?
    ensures Run(s, ms + [m]) == Apply(Run(s, ms).value, m)
    decreases |ms|
  {
    hide Apply;
    if ms == [] {
      assert ms + [m] == [m];
    } else {
      RunAppend(Apply(s, ms[0]).value, ms[1..], m);
      assert (ms + [m])[1..] == ms[1..] + [m];
    }
  }

  /** Nobody holds the lock. */
  predicate Free(s: World) { s.owner.None? && s.holds == 0 && s.open.None? && s.reentrance == 0 }

  /** Thread and call of `it` aside, the stacks are the same. */
  predicate OthersSame(s: World, u: World, t: Uint64) { forall t' :: t' != t ==> Stack(u, t') == Stack(s, t') }

  /** A thread begins a call, takes the free lock and opens its record. */
  lemma Opens(ms: seq<Move>, s: World, it: Item) returns (ns: seq<Move>, u: World)
    requires Run(START, ms) == Some(s) && Free(s) && Stack(s, it.thread) == []
    ensures Run(START, ns) == Some(u) && OthersSame(s, u, it.thread)
    ensures Stack(u, it.thread) == [Frame(it, Inside(Script(it, 0)))] && u.owner == Some(it.thread) && u.holds == 1
    ensures u.open == Some(Rec(it, it.thread != s.curThread, [], false)) && u.curThread == it.thread
    ensures u.reentrance == 1 && u.rec == s.rec && u.done == s.done && u.unapplied == s.unapplied
  {
    hide Run, Script, RecFields, InitialRecorder;
    var t := it.thread;
    RunAppend(START, ms, Begin(it, 0));
    ns, u := ms + [Begin(it, 0)], BeginCall(s, it, 0).value;
    assert Stack(u, t) == [Frame(it, AtLock(Script(it, 0)))];
    RunAppend(START, ns, Resume(t));
    ns, u := ns + [Resume(t)], Go(u, t).value;
    assert Stack(u, t) == [Frame(it, Locked(Script(it, 0)))];
    RunAppend(START, ns, Resume(t));
    ns, u := ns + [Resume(t)], Go(u, t).value;
  }

  lemma ActStep(s: World, it: Item, script: seq<Act>)
    requires Stack(s, it.thread) == [Frame(it, Inside(script))] && script != [] && script[0] != Update
    requires s.open.Some? && s.reentrance == 1
    ensures Go(s, it.thread).Some?
    ensures var u := Go(s, it.thread).value;
      && Stack(u, it.thread) == [Frame(it, Inside(script[1..]))] && OthersSame(s, u, it.thread)
      && u.open == Some(s.open.value.(body := s.open.value.body + Writes(s.rec, it.call, script[0])))
      && u.reentrance == 1 && u.rec == s.rec && u.done == s.done && u.owner == s.owner && u.holds == s.holds
      && u.curThread == s.curThread && u.unapplied == s.unapplied
  {
    hide IndexField, AttribFields, Recorded, RecFields;
    assert s.open.value.body + [] == s.open.value.body;
  }

  /** Inside an interceptor that updates no attribute, its thread carries out the rest of the script. */
  lemma {:induction false} RunsScript(ms: seq<Move>, s: World, it: Item, script: seq<Act>)
      returns (ns: seq<Move>, u: World)
    requires Run(START, ms) == Some(s) && Stack(s, it.thread) == [Frame(it, Inside(script))] && Update !in script
    requires s.open.Some? && s.open.value.item == it && s.reentrance == 1
    ensures Run(START, ns) == Some(u) && Stack(u, it.thread) == [Frame(it, Inside([]))] && OthersSame(s, u, it.thread)
    ensures u.open == Some(s.open.value.(body := s.open.value.body + ToWrite(s.rec, it.call, script)))
    ensures u.reentrance == 1 && u.rec == s.rec && u.done == s.done && u.owner == s.owner && u.holds == s.holds
    ensures u.curThread == s.curThread && u.unapplied == s.unapplied
    decreases |script|
  {
    hide Run, Go, Stack, Writes;
    if script == [] {
      ns, u := ms, s;
      assert s.open.value.body + [] == s.open.value.body;
    } else {
      var written := Writes(s.rec, it.call, script[0]);
      RunAppend(START, ms, Resume(it.thread));
      ActStep(s, it, script);
      var v := Go(s, it.thread).value;
      ns, u := RunsScript(ms + [Resume(it.thread)], v, it, script[1..]);
      Assoc(s.open.value.body, written, ToWrite(s.rec, it.call, script[1..]));
    }
  }

  lemma LeaveStep(s: World, it: Item)
    requires Stack(s, it.thread) == [Frame(it, Inside([]))] && s.open.Some? && s.reentrance == 1
    ensures Go(s, it.thread).Some?
    ensures var u := Go(s, it.thread).value;
      && Stack(u, it.thread) == [Frame(it, Exited)] && OthersSame(s, u, it.thread)
      && u.open.None? && u.reentrance == 0 && u.holds == s.holds && u.owner == s.owner
      && u.rec == s.rec && u.done == s.done + [s.open.value] && u.curThread == s.curThread
      && (!it.call.BindBuffer? ==> u.unapplied == s.unapplied)
  {
  }

  lemma UnlockStep(s: World, it: Item)
    requires Stack(s, it.thread) == [Frame(it, Exited)] && s.holds == 1
    ensures Go(s, it.thread).Some?
    ensures var u := Go(s, it.thread).value;
      && Stack(u, it.thread) == [Frame(it, Unlocked)] && OthersSame(s, u, it.thread)
      && u.open == s.open && u.reentrance == s.reentrance && u.holds == 0 && u.owner.None?
      && u.rec == s.rec && u.done == s.done && u.curThread == s.curThread && u.unapplied == s.unapplied
  {
  }

  /** Its record is closed and the lock released; the assignment is still to come. */
  lemma Closes(ms: seq<Move>, s: World, it: Item) returns (ns: seq<Move>, u: World)
    requires Run(START, ms) == Some(s) && Stack(s, it.thread) == [Frame(it, Inside([]))]
    requires s.open.Some? && s.reentrance == 1 && s.holds == 1
    ensures Run(START, ns) == Some(u) && Stack(u, it.thread) == [Frame(it, Unlocked)] && OthersSame(s, u, it.thread)
    ensures Free(u) && u.rec == s.rec && u.done == s.done + [s.open.value] && u.curThread == s.curThread
    ensures !it.call.BindBuffer? ==> u.unapplied == s.unapplied
  {
    hide Run, Go, Stack;
    LeaveStep(s, it);
    RunAppend(START, ms, Resume(it.thread));
    ns, u := ms + [Resume(it.thread)], Go(s, it.thread).value;
    UnlockStep(u, it);
    RunAppend(START, ns, Resume(it.thread));
    ns, u := ns + [Resume(it.thread)], Go(u, it.thread).value;
  }

  lemma NoUpdate(it: Item)
    requires it.call.BindBuffer? || it.call.DrawElements?
    ensures Update !in Script(it, 0)
  {
  }

  /** The record of a call made in the present shadow state. */
  function NewRecord(s: World, it: Item): Rec {
    Rec(it, it.thread != s.curThread, Fields(s.rec, it.call) + Times(it), false)
  }

  /** A thread logs a bind or a draw and releases the lock. */
  lemma Logs(ms: seq<Move>, s: World, it: Item) returns (ns: seq<Move>, u: World)
    requires Run(START, ms) == Some(s) && Free(s) && Stack(s, it.thread) == []
    requires it.call.BindBuffer? || it.call.DrawElements?
    ensures Run(START, ns) == Some(u) && Stack(u, it.thread) == [Frame(it, Unlocked)] && OthersSame(s, u, it.thread)
    ensures Free(u) && u.rec == s.rec && u.done == s.done + [NewRecord(s, it)] && u.curThread == it.thread
    ensures Items(u.done) == Items(s.done) + [it]
  {
    hide Run, Script, Fields, ToWrite;
    NoUpdate(it);
    ScriptWrites(s.rec, it, 0);
    ns, u := Opens(ms, s, it);
    ns, u := RunsScript(ns, u, it, Script(it, 0));
    assert [] + ToWrite(s.rec, it.call, Script(it, 0)) == Fields(s.rec, it.call) + Times(it);
    ns, u := Closes(ns, u, it);
  }

  /** It returns: a bind is assigned. */
  lemma Returns(ms: seq<Move>, s: World, it: Item) returns (ns: seq<Move>, u: World)
    requires Run(START, ms) == Some(s) && Stack(s, it.thread) == [Frame(it, Unlocked)] && Free(s)
    ensures Run(START, ns) == Some(u) && Stack(u, it.thread) == [] && OthersSame(s, u, it.thread)
    ensures Free(u) && u.rec == (if it.call.BindBuffer? then Recorded(s.rec, it.call) else s.rec) && u.done == s.done
    ensures s.unapplied == [] ==> u.unapplied == []
  {
    hide Run, Recorded;
    RunAppend(START, ms, Resume(it.thread));
    ns, u := ms + [Resume(it.thread)], Go(s, it.thread).value;
  }

  function Bind(thread: Uint64, buffer: Int32): Item { Item(thread, BindBuffer(GL_ELEMENT_ARRAY_BUFFER, buffer), 0, 0) }

  lemma FromStart()
    ensures Run(START, []) == Some(START) && Free(START) && START.done == [] && Items(START.done) == []
    ensures START.rec == InitialRecorder() && START.curThread == 0 && START.unapplied == []
    ensures forall t :: Stack(START, t) == []
  {
  }

  /** The index field shows whether an index buffer is bound, and nothing else of the shadow state. */
  lemma IndexReadExactly(r: Recorder, q: Recorder, c: Call)
    requires c.DrawElements?
    ensures IndexField(r, c) == IndexField(q, c) <==> (r.elementBuffer == 0 <==> q.elementBuffer == 0)
  {
  }

  lemma FieldsTellIndex(r: Recorder, q: Recorder, it: Item)
    requires it.call.DrawElements? && !(r.elementBuffer == 0 <==> q.elementBuffer == 0)
    ensures Fields(r, it.call) + Times(it) != Fields(q, it.call) + Times(it)
  {
    hide IndexField, AttribFields;
    IndexReadExactly(r, q, it.call);
    assert (Fields(r, it.call) + Times(it))[3] == IndexField(r, it.call);
    assert (Fields(q, it.call) + Times(it))[3] == IndexField(q, it.call);
  }

  /** Whenever recorder and replayer disagree on whether an index buffer is bound, a draw logged then is lost: the log
      is not the serial encoding of its calls any more. */
  lemma DrawAgainstLog(ms: seq<Move>, s: World, it: Item) returns (ns: seq<Move>, u: World)
    requires Run(START, ms) == Some(s) && Free(s) && Stack(s, it.thread) == [] && it.call.DrawElements?
    requires !(s.rec.elementBuffer == 0 <==> Logged(s).elementBuffer == 0)
    ensures Run(START, ns) == Some(u) && Free(u) && Stack(u, it.thread) == [] && OthersSame(s, u, it.thread)
    ensures Items(u.done) == Items(s.done) + [it] && u.rec == s.rec
    ensures u.log != TraceFields(InitialRecorder(), 0, Items(u.done)) && !DrawsRead(START, ns)
  {
    hide Run, Fields, TraceFields, DrawsRead, LockOk, Concat, Prefixed, LastThread, ScriptsOk, DoneShape, RecordedAll,
        InitialRecorder;
    ns, u := Logs(ms, s, it);
    ns, u := Returns(ns, u, it);
    StartInv();
    StartShaped();
    ScheduleReads(START, ns);
    LogIsTraceExactly(ns, u);
    FieldsTellIndex(s.rec, Logged(s), it);
    var k := |s.done|;
    assert u.done[..k] == s.done && u.done[k] == NewRecord(s, it);
    assert !DoneOk(u.done);
  }

  /** A draw is logged between a bind's unlock and its assignment: it is lost, although nothing is outstanding at the
      end. */
  lemma DrawInTheWindow(c: Call) returns (ms: seq<Move>, s: World)
    requires c.DrawElements?
    ensures Run(START, ms) == Some(s) && Free(s) && Stack(s, 1) == [] && Stack(s, 2) == []
    ensures Items(s.done) == [Bind(1, 5), Item(2, c, 0, 0)] && s.rec.elementBuffer == Logged(s).elementBuffer == 5
    ensures s.log != TraceFields(InitialRecorder(), 0, Items(s.done)) && !DrawsRead(START, ms)
  {
    hide Run, Script, Fields, InitialRecorder, Items, TraceFields, DrawsRead;
    FromStart();
    NothingChanged();
    ms, s := Logs([], START, Bind(1, 5));
    var one := [] + [Bind(1, 5)];
    RecordedAllAppend(InitialRecorder(), [], Bind(1, 5));
    ms, s := DrawAgainstLog(ms, s, Item(2, c, 0, 0));
    RecordedAllAppend(InitialRecorder(), one, Item(2, c, 0, 0));
    var ns, u := Returns(ms, s, Bind(1, 5));
    LostForGood(ms, s, ns, u);
    ms, s := ns, u;
  }

  /** A log that is not a trace stays one that is not. */
  lemma LostForGood(ms: seq<Move>, s: World, ns: seq<Move>, u: World)
    requires Run(START, ms) == Some(s) && Run(START, ns) == Some(u) && s.open.None? && u.open.None?
    requires u.done == s.done && s.log != TraceFields(InitialRecorder(), 0, Items(s.done))
    ensures u.log != TraceFields(InitialRecorder(), 0, Items(u.done)) && !DrawsRead(START, ns)
  {
    hide Run, TraceFields, DrawsRead, LockOk, Concat, Prefixed, LastThread, InitialRecorder, Items;
    StartInv();
    EverySchedule(START, ms);
    EverySchedule(START, ns);
    LogIsTraceExactly(ns, u);
  }

  /** Two threads whose binds are logged in one order and assigned in the other: nothing is outstanding any more, and
      recorder and replayer disagree from then on. */
  lemma BindsCross() returns (ms: seq<Move>, s: World)
    ensures Run(START, ms) == Some(s) && Free(s) && Stack(s, 1) == [] && Stack(s, 2) == []
    ensures s.rec.elementBuffer == 5 && Logged(s).elementBuffer == 6
  {
    hide Run, Script, InitialRecorder, Items;
    FromStart();
    ms, s := Logs([], START, Bind(1, 5));
    ms, s := Logs(ms, s, Bind(2, 6));
    ms, s := Returns(ms, s, Bind(2, 6));
    ms, s := Returns(ms, s, Bind(1, 5));
    var one := [] + [Bind(1, 5)];
    RecordedAllAppend(InitialRecorder(), [], Bind(1, 5));
    RecordedAllAppend(InitialRecorder(), one, Bind(2, 6));
  }

  // ----- binds in nested calls

  /** A nested command changes neither the log nor anything of another thread. */
  predicate Unlogged(s: World, u: World, t: Uint64) {
    && u.open == s.open && u.done == s.done && u.curThread == s.curThread && u.unapplied == s.unapplied
    && OthersSame(s, u, t)
  }

  /** Inside the original function of its outermost command, a thread makes another call and enters it. */
  lemma InnerOpens(ms: seq<Move>, s: World, outer: Frame, it: Item) returns (ns: seq<Move>, u: World)
    requires Run(START, ms) == Some(s) && Stack(s, it.thread) == [outer] && CanCall([outer])
    requires s.owner == Some(it.thread) && s.holds == 1 && s.reentrance == 1
    ensures Run(START, ns) == Some(u) && Stack(u, it.thread) == [outer, Frame(it, Inside(Script(it, 0)))]
    ensures u.owner == s.owner && u.holds == 2 && u.reentrance == 2 && u.rec == s.rec && Unlogged(s, u, it.thread)
  {
    hide Run, Script, RecFields, InitialRecorder;
    var t := it.thread;
    RunAppend(START, ms, Begin(it, 0));
    ns, u := ms + [Begin(it, 0)], BeginCall(s, it, 0).value;
    assert Stack(u, t) == [outer, Frame(it, AtLock(Script(it, 0)))];
    RunAppend(START, ns, Resume(t));
    ns, u := ns + [Resume(t)], Go(u, t).value;
    assert Stack(u, t) == [outer, Frame(it, Locked(Script(it, 0)))];
    RunAppend(START, ns, Resume(t));
    ns, u := ns + [Resume(t)], Go(u, t).value;
    assert Stack(u, t) == [outer, Frame(it, Inside(Script(it, 0)))];
  }

  lemma InnerAct(s: World, outer: Frame, it: Item, script: seq<Act>)
    requires Stack(s, it.thread) == [outer, Frame(it, Inside(script))] && script != [] && script[0] != Update
    requires s.reentrance == 2
    ensures Go(s, it.thread).Some?
    ensures var u := Go(s, it.thread).value;
      && Stack(u, it.thread) == [outer, Frame(it, Inside(script[1..]))] && Unlogged(s, u, it.thread)
      && u.owner == s.owner && u.holds == s.holds && u.reentrance == 2 && u.rec == s.rec
  {
    hide IndexField, AttribFields, Recorded;
  }

  lemma {:induction false} InnerRuns(ms: seq<Move>, s: World, outer: Frame, it: Item, script: seq<Act>)
      returns (ns: seq<Move>, u: World)
    requires Run(START, ms) == Some(s) && Stack(s, it.thread) == [outer, Frame(it, Inside(script))]
    requires Update !in script && s.reentrance == 2
    ensures Run(START, ns) == Some(u) && Stack(u, it.thread) == [outer, Frame(it, Inside([]))]
    ensures u.owner == s.owner && u.holds == s.holds && u.reentrance == 2 && u.rec == s.rec && Unlogged(s, u, it.thread)
    decreases |script|
  {
    hide Run, Go, Stack;
    if script == [] {
      ns, u := ms, s;
    } else {
      RunAppend(START, ms, Resume(it.thread));
      InnerAct(s, outer, it, script);
      ns, u := InnerRuns(ms + [Resume(it.thread)], Go(s, it.thread).value, outer, it, script[1..]);
    }
  }

  /** It leaves the nested command and returns from it: a bind is assigned, and no record of it was made. */
  lemma InnerReturns(ms: seq<Move>, s: World, outer: Frame, it: Item) returns (ns: seq<Move>, u: World)
    requires Run(START, ms) == Some(s) && Stack(s, it.thread) == [outer, Frame(it, Inside([]))] && it.call.BindBuffer?
    requires s.owner == Some(it.thread) && s.holds == 2 && s.reentrance == 2
    ensures Run(START, ns) == Some(u) && Stack(u, it.thread) == [outer] && u.rec == Recorded(s.rec, it.call)
    ensures u.owner == s.owner && u.holds == 1 && u.reentrance == 1 && Unlogged(s, u, it.thread)
  {
    hide Run, Recorded;
    var t := it.thread;
    RunAppend(START, ms, Resume(t));
    ns, u := ms + [Resume(t)], Go(s, t).value;
    assert Stack(u, t) == [outer, Frame(it, Exited)];
    RunAppend(START, ns, Resume(t));
    ns, u := ns + [Resume(t)], Go(u, t).value;
    assert Stack(u, t) == [outer, Frame(it, Unlocked)];
    RunAppend(START, ns, Resume(t));
    ns, u := ns + [Resume(t)], Go(u, t).value;
    assert Stack(u, t) == [outer];
  }

  const FINISH := Item(1, Fixed(144, []), 0, 0)

  /** glFinish has no arguments: its interceptor calls the original function, then puts the times. */
  lemma FinishScript()
    ensures Script(FINISH, 0) == [Orig, Put(FU64(0)), Put(FU64(0))] && Update !in Script(FINISH, 0)
  {
    var fs: seq<Field> := [];
    assert Fields(InitialRecorder(), FINISH.call) == fs && fs[..0] == fs && fs[0..] == fs;
    assert Puts(fs) == [];
  }

  /** Inside the original glFinish a thread binds an index buffer. At the end nothing is outstanding and no bind was
      ever unapplied, yet recorder and replayer disagree, and every draw from then on has a layout that no replayer in
      step with the log expects. */
  lemma NestedBind() returns (ms: seq<Move>, s: World)
    ensures Run(START, ms) == Some(s) && Free(s) && Stack(s, 1) == [] && s.unapplied == []
    ensures Items(s.done) == [FINISH] && s.rec.elementBuffer == 5 && Logged(s).elementBuffer == 0
    ensures forall c: Call, pl ::
      c.DrawElements? && Agree(false, Logged(s), pl) ==> Kinds(Fields(s.rec, c)) != DrawKinds(pl)
  {
    hide Run, Script, Fields, Kinds, DrawKinds, Agree, InitialRecorder, BlockCount, Recorded, ToWrite;
    FromStart();
    FinishScript();
    NoUpdate(Bind(1, 5));
    ms, s := Opens([], START, FINISH);
    var outer := Frame(FINISH, Inside(Script(FINISH, 0)));
    ms, s := InnerOpens(ms, s, outer, Bind(1, 5));
    ms, s := InnerRuns(ms, s, outer, Bind(1, 5), Script(Bind(1, 5), 0));
    ms, s := InnerReturns(ms, s, outer, Bind(1, 5));
    ms, s := RunsScript(ms, s, FINISH, Script(FINISH, 0));
    ms, s := Closes(ms, s, FINISH);
    ms, s := Returns(ms, s, FINISH);
    assert Items(s.done) == [] + [FINISH];
    RecordedAllAppend(InitialRecorder(), [], FINISH);
    NothingChanged();
    assert s.rec.elementBuffer == 5 && Logged(s).elementBuffer == 0 by { BindsAndFinishes(); }
    forall c: Call, pl | c.DrawElements? && Agree(false, Logged(s), pl)
      ensures Kinds(Fields(s.rec, c)) != DrawKinds(pl)
    {
      LayoutAgreesExactly(s.rec, Logged(s), pl, c);
    }
  }

  /** Any draw that follows is lost. */
  lemma DrawAfterNestedBind(c: Call) returns (ms: seq<Move>, s: World)
    requires c.DrawElements?
    ensures Run(START, ms) == Some(s) && Free(s) && Stack(s, 1) == []
    ensures Items(s.done) == [FINISH, Item(1, c, 0, 0)]
    ensures s.log != TraceFields(InitialRecorder(), 0, Items(s.done)) && !DrawsRead(START, ms)
  {
    hide Run, InitialRecorder, Items, TraceFields, DrawsRead, Fields, Kinds, DrawKinds, Agree;
    ms, s := NestedBind();
    ms, s := DrawAgainstLog(ms, s, Item(1, c, 0, 0));
  }

  lemma BindsAndFinishes()
    ensures Recorded(InitialRecorder(), Bind(1, 5).call).elementBuffer == 5
    ensures Recorded(InitialRecorder(), FINISH.call).elementBuffer == 0
  {
  }
}
