/** Whole traces: what a serial sequence of calls writes, and that replaying the file plays back those
    calls, with recorder and replayer agreeing on the shadow state before every record. */
module Trace {
  import opened Bytes
  import opened Options
  import opened Wire
  import opened TraceWriter
  import opened Calls
  import opened RoundTrip
  import opened Execution
  import opened Replay

  /** A call made by a thread, with the times taken around the original function. */
  datatype Item = Item(thread: Uint64, call: Call, bgn: Uint64, end: Uint64)

  function PrefixFields(cur: Uint64, thread: Uint64): seq<Field> {
    if thread != cur then [FInt(OPC_THREAD)] + [FPtr(thread)] else []
  }

  function BodyFields(r: Recorder, it: Item): seq<Field> {
    [FInt(Op(it.call))] + (Fields(r, it.call) + [FU64(it.bgn), FU64(it.end)])
  }

  /** One record: `putCmd`, the fields of the call, `putTime`. */
  function ItemFields(r: Recorder, cur: Uint64, it: Item): seq<Field> {
    PrefixFields(cur, it.thread) + BodyFields(r, it)
  }

  function TraceFields(r: Recorder, cur: Uint64, items: seq<Item>): seq<Field>
    decreases |items|
  {
    if items == [] then []
    else ItemFields(r, cur, items[0]) + TraceFields(Recorded(r, items[0].call), items[0].thread, items[1..])
  }

  predicate ItemOk(w: nat, r: Recorder, it: Item) {
    Recordable(w, r, it.call) && it.thread < Pow256(w)
  }

  predicate TraceOk(w: nat, r: Recorder, items: seq<Item>)
    decreases |items|
  {
    items == [] || (ItemOk(w, r, items[0]) && TraceOk(w, Recorded(r, items[0].call), items[1..]))
  }

  /** Every attribute list of the trace fits the replayer's buffer of 64 ints. */
  predicate AllFit(items: seq<Item>) {
    forall it :: it in items ==> AttrsFit(it.call)
  }

  function RecordedAll(r: Recorder, items: seq<Item>): Recorder
    decreases |items|
  {
    if items == [] then r else RecordedAll(Recorded(r, items[0].call), items[1..])
  }

  /** What the replayer should log for an item: same opcode, same values, same times, same thread. */
  function SeeItem(w: nat, r: Recorder, it: Item): Entry
    requires ItemOk(w, r, it)
  {
    Entry(SeePtr(w, it.thread), Op(it.call), SeeAll(w, Fields(r, it.call)), it.bgn, it.end)
  }

  function SeeTrace(w: nat, r: Recorder, items: seq<Item>): seq<Entry>
    requires TraceOk(w, r, items)
    decreases |items|
  {
    if items == [] then [] else [SeeItem(w, r, items[0])] + SeeTrace(w, Recorded(r, items[0].call), items[1..])
  }

  function Frames(items: seq<Item>): nat {
    if items == [] then 0 else (if Op(items[0].call) == OPC_eglSwapBuffers then 1 else 0) + Frames(items[1..])
  }

  lemma ItemFieldsOk(w: nat, r: Recorder, cur: Uint64, it: Item)
    requires ItemOk(w, r, it)
    ensures FieldsOk(w, BodyFields(r, it)) && FieldsOk(w, ItemFields(r, cur, it))
  {
  }

  lemma {:induction false} TraceFieldsOk(w: nat, r: Recorder, cur: Uint64, items: seq<Item>)
    requires TraceOk(w, r, items)
    ensures FieldsOk(w, TraceFields(r, cur, items))
    decreases |items|
  {
    hide Recordable, Fields, Recorded, FieldOk, AttrsFit;
    if items == [] {
    } else {
      ItemFieldsOk(w, r, cur, items[0]);
      TraceFieldsOk(w, Recorded(r, items[0].call), items[0].thread, items[1..]);
    }
  }

  /** The state the replayer should be in after an item. */
  function Played(w: nat, exec: bool, r: Recorder, s: State, it: Item, pos: int): State
    requires ItemOk(w, r, it)
  {
    State(pos, SeePtr(w, it.thread), Replayed(exec, s.player, Op(it.call), SeeAll(w, Fields(r, it.call))),
          if Op(it.call) == OPC_eglSwapBuffers then s.frame + 1 else s.frame, s.log + [SeeItem(w, r, it)])
  }

  lemma TimesAt(w: nat, bgn: Uint64, end: Uint64, d: seq<Byte>, p: int)
    requires WordSize(w) && At(d, p, EncAll(w, [FU64(bgn), FU64(end)]))
    ensures U64At(w, d, p) == (bgn, p + 8) && U64At(w, d, p + 8) == (end, p + 16)
    ensures |EncAll(w, [FU64(bgn), FU64(end)])| == 16
  {
    hide Get;
    assert [FU64(bgn), FU64(end)] == [FU64(bgn)] + [FU64(end)];
    FieldThen(w, FU64(bgn), [FU64(end)], d, p);
    FieldThen(w, FU64(end), [], d, p + 8);
    EncOne(w, FU64(end));
  }

  lemma DispatchItem(w: nat, exec: bool, r: Recorder, s: State, it: Item, d: seq<Byte>)
    requires WordSize(w) && ItemOk(w, r, it) && Agree(exec, r, s.player) && s.thread == SeePtr(w, it.thread)
    requires FieldsOk(w, BodyFields(r, it)) && At(d, s.pos, EncAll(w, BodyFields(r, it)))
    ensures GetCmd(d, s.pos).0 == Op(it.call)
    ensures Dispatch(w, exec, d, s) == if !AttrsFit(it.call) then Exit else
      Next(Played(w, exec, r, s, it, s.pos + |EncAll(w, BodyFields(r, it))|), Op(it.call) == OPC_eglSwapBuffers)
  {
    hide Enc, Get, See, FieldOk, EncAll, Recordable, Fields, Decode, Replayed, Word, ShapeOf, SeeAll, Op, AttrsFit;
    var times := [FU64(it.bgn), FU64(it.end)];
    IntThen(w, Op(it.call), Fields(r, it.call) + times, d, s.pos);
    SplitAt(w, Fields(r, it.call), times, d, s.pos + 4);
    DecodeCall(w, r, s.player, it.call, d, s.pos + 4);
    TimesAt(w, it.bgn, it.end, d, s.pos + 4 + |EncAll(w, Fields(r, it.call))|);
  }

  lemma OpIsNotThread(w: nat, r: Recorder, c: Call)
    requires Recordable(w, r, c)
    ensures Op(c) != OPC_THREAD
  {
    ShapeOfCall(w, r, c);
  }

  /** One iteration of the replay loop at a written record plays exactly that record, and the two
      shadow states agree again afterwards; it exits exactly on an attribute list that is too long. */
  lemma StepItem(w: nat, exec: bool, r: Recorder, cur: Uint64, s: State, it: Item, d: seq<Byte>)
    requires WordSize(w) && ItemOk(w, r, it) && Agree(exec, r, s.player)
    requires cur < Pow256(w) && s.thread == SeePtr(w, cur)
    requires FieldsOk(w, ItemFields(r, cur, it)) && At(d, s.pos, EncAll(w, ItemFields(r, cur, it)))
    ensures Step(w, exec, d, s) == if !AttrsFit(it.call) then Exit else
      Next(Played(w, exec, r, s, it, s.pos + |EncAll(w, ItemFields(r, cur, it))|), Op(it.call) == OPC_eglSwapBuffers)
    ensures AttrsFit(it.call) ==> Agree(exec, Recorded(r, it.call), Step(w, exec, d, s).s.player)
  {
    hide Enc, Get, See, FieldOk, EncAll, Recordable, Fields, Decode, Replayed, Word, ShapeOf, SeeAll, Op, Recorded,
        Agree, Dispatch, AttrsFit;
    AgreementKept(exec, w, r, s.player, it.call);
    ItemFieldsOk(w, r, cur, it);
    OpIsNotThread(w, r, it.call);
    SplitAt(w, PrefixFields(cur, it.thread), BodyFields(r, it), d, s.pos);
    if it.thread != cur {
      IntThen(w, OPC_THREAD, [FPtr(it.thread)], d, s.pos);
      FirstAt(w, [FPtr(it.thread)], d, s.pos + 4);
      ThreadAt(w, it.thread, d, s.pos + 4);
      var q := s.pos + |EncAll(w, PrefixFields(cur, it.thread))|;
      DispatchItem(w, exec, r, s.(pos := q, thread := SeePtr(w, it.thread)), it, d);
    } else {
      NothingWritten(w);
      DispatchItem(w, exec, r, s, it, d);
    }
  }

  lemma NothingWritten(w: nat)
    ensures EncAll(w, []) == []
  {
  }

  lemma ThreadAt(w: nat, thread: Uint64, d: seq<Byte>, p: int)
    requires WordSize(w) && thread < Pow256(w) && FieldsOk(w, [FPtr(thread)]) && At(d, p, EncAll(w, [FPtr(thread)]))
    ensures PtrAt(w, d, p) == (SeePtr(w, thread), p + |EncAll(w, [FPtr(thread)])|)
  {
    hide Get;
    FirstAt(w, [FPtr(thread)], d, p);
    EncOne(w, FPtr(thread));
  }

  // ----- runs of the replay loop

  /** The replayer after `k` iterations. */
  function Steps(w: nat, exec: bool, d: seq<Byte>, s: State, k: nat): Outcome
    decreases k
  {
    if k == 0 then Next(s, false)
    else
      match Step(w, exec, d, s)
      case Next(t, _) => Steps(w, exec, d, t, k - 1)
      case o => o
  }

  /** Where the first item ends and the rest of the trace begins. */
  lemma TraceSplit(w: nat, r: Recorder, cur: Uint64, items: seq<Item>, d: seq<Byte>, p: int)
    requires items != [] && TraceOk(w, r, items)
    requires FieldsOk(w, TraceFields(r, cur, items)) && At(d, p, EncAll(w, TraceFields(r, cur, items)))
    ensures var rest := TraceFields(Recorded(r, items[0].call), items[0].thread, items[1..]);
      && FieldsOk(w, ItemFields(r, cur, items[0])) && At(d, p, EncAll(w, ItemFields(r, cur, items[0])))
      && FieldsOk(w, rest) && At(d, p + |EncAll(w, ItemFields(r, cur, items[0]))|, EncAll(w, rest))
      && |EncAll(w, TraceFields(r, cur, items))| == |EncAll(w, ItemFields(r, cur, items[0]))| + |EncAll(w, rest)|
  {
    hide Enc, FieldOk, EncAll, Recordable, ItemFields, Recorded;
    var rest := TraceFields(Recorded(r, items[0].call), items[0].thread, items[1..]);
    SplitAt(w, ItemFields(r, cur, items[0]), rest, d, p);
  }

  lemma {:induction false} TraceOkPrefix(w: nat, r: Recorder, items: seq<Item>, k: nat)
    requires TraceOk(w, r, items) && k <= |items|
    ensures TraceOk(w, r, items[..k])
    decreases k
  {
    hide ItemOk, Recorded;
    if k == 0 {
    } else {
      TraceOkPrefix(w, Recorded(r, items[0].call), items[1..], k - 1);
      assert items[..k][1..] == items[1..][..k - 1];
    }
  }

  /** After `k` iterations the replayer has played exactly the first `k` calls, and agrees with the
      recorder as it was when it wrote the next one; so no record is read under the wrong layout. */
  lemma {:induction false} PlaysInStep(w: nat, exec: bool, r: Recorder, cur: Uint64, s: State, items: seq<Item>,
      k: nat, d: seq<Byte>)
    requires WordSize(w) && k <= |items| && TraceOk(w, r, items) && AllFit(items[..k]) && Agree(exec, r, s.player)
    requires cur < Pow256(w) && s.thread == SeePtr(w, cur)
    requires FieldsOk(w, TraceFields(r, cur, items)) && At(d, s.pos, EncAll(w, TraceFields(r, cur, items)))
    ensures TraceOk(w, r, items[..k])
    ensures var o := Steps(w, exec, d, s, k);
      && o.Next?
      && o.s.log == s.log + SeeTrace(w, r, items[..k])
      && Agree(exec, RecordedAll(r, items[..k]), o.s.player)
      && o.s.frame == s.frame + Frames(items[..k])
    decreases k
  {
    hide Enc, FieldOk, EncAll, ItemOk, Recordable, ItemFields, Recorded, Agree, Step, SeeItem, Op, AttrsFit;
    TraceOkPrefix(w, r, items, k);
    if k == 0 {
    } else {
      var it := items[0];
      assert items[..k][0] == it && items[..k][1..] == items[1..][..k - 1];
      TraceSplit(w, r, cur, items, d, s.pos);
      ItemThread(w, r, it);
      StepItem(w, exec, r, cur, s, it, d);
      PlaysInStep(w, exec, Recorded(r, it.call), it.thread, Step(w, exec, d, s).s, items[1..], k - 1, d);
    }
  }

  lemma ItemThread(w: nat, r: Recorder, it: Item)
    requires ItemOk(w, r, it)
    ensures Recordable(w, r, it.call) && it.thread < Pow256(w)
  {
  }

  lemma NoFields(w: nat, r: Recorder, cur: Uint64)
    ensures EncAll(w, TraceFields(r, cur, [])) == []
  {
  }

  /** At the end of a trace the loop stops where it is. */
  lemma StopsAtEnd(w: nat, exec: bool, d: seq<Byte>, s: State)
    requires s.pos == |d|
    ensures Step(w, exec, d, s) == Stop(s)
  {
    hide Decode;
    EofStops();
  }

  /** Playing to the end of a trace file, of any length, plays all of it and stops at its last byte, exactly when
      no attribute list is too long; otherwise the replayer exits. */
  lemma {:induction false} PlaysToEnd(w: nat, exec: bool, r: Recorder, cur: Uint64, s: State, items: seq<Item>,
                                      frames: int, d: seq<Byte>)
    requires WordSize(w) && TraceOk(w, r, items) && Agree(exec, r, s.player) && frames < 0
    requires cur < Pow256(w) && s.thread == SeePtr(w, cur)
    requires FieldsOk(w, TraceFields(r, cur, items)) && At(d, s.pos, EncAll(w, TraceFields(r, cur, items)))
    requires s.pos + |EncAll(w, TraceFields(r, cur, items))| == |d|
    ensures var o := Loop(w, exec, d, frames, s, |items| + 1);
      && o.Some? && (o.value.Some? <==> AllFit(items))
      && (o.value.Some? ==>
        && o.value.value.pos == |d|
        && o.value.value.log == s.log + SeeTrace(w, r, items)
        && Agree(exec, RecordedAll(r, items), o.value.value.player)
        && o.value.value.frame == s.frame + Frames(items))
    decreases |items|
  {
    hide EncAll, FieldOk, ItemOk, TraceFields, At, Recorded, Agree, Step, SeeItem, Op, AttrsFit;
    if items == [] {
      assert EncAll(w, TraceFields(r, cur, items)) == [] by { NoFields(w, r, cur); }
      StopsAtEnd(w, exec, d, s);
    } else {
      var it := items[0];
      TraceSplit(w, r, cur, items, d, s.pos);
      ItemThread(w, r, it);
      StepItem(w, exec, r, cur, s, it, d);
      var swapped := Op(it.call) == OPC_eglSwapBuffers;
      assert items == [it] + items[1..];
      if AttrsFit(it.call) {
        PlaysToEnd(w, exec, Recorded(r, it.call), it.thread, Step(w, exec, d, s).s, items[1..],
                   if swapped then frames - 1 else frames, d);
      }
    }
  }

  /** Playing any number of frames of a trace ends, and exits only at an attribute list that is too long. */
  lemma {:induction false} PlaysFrames(w: nat, exec: bool, r: Recorder, cur: Uint64, s: State, items: seq<Item>,
                                       frames: nat, d: seq<Byte>)
    requires WordSize(w) && TraceOk(w, r, items) && Agree(exec, r, s.player) && AllFit(items)
    requires cur < Pow256(w) && s.thread == SeePtr(w, cur)
    requires FieldsOk(w, TraceFields(r, cur, items)) && At(d, s.pos, EncAll(w, TraceFields(r, cur, items)))
    requires s.pos + |EncAll(w, TraceFields(r, cur, items))| == |d|
    ensures var o := Loop(w, exec, d, frames, s, |items| + 1);
      o.Some? && o.value.Some? && (o.value.value.frame == s.frame + frames || o.value.value.pos == |d|)
    decreases |items|
  {
    hide EncAll, FieldOk, ItemOk, TraceFields, At, Recorded, Agree, Step, SeeItem, Op, AttrsFit;
    if frames == 0 {
    } else if items == [] {
      assert EncAll(w, TraceFields(r, cur, items)) == [] by { NoFields(w, r, cur); }
      StopsAtEnd(w, exec, d, s);
    } else {
      var it := items[0];
      TraceSplit(w, r, cur, items, d, s.pos);
      ItemThread(w, r, it);
      StepItem(w, exec, r, cur, s, it, d);
      var swapped := Op(it.call) == OPC_eglSwapBuffers;
      assert it in items;
      PlaysFrames(w, exec, Recorded(r, it.call), it.thread, Step(w, exec, d, s).s, items[1..],
                  if swapped then frames - 1 else frames, d);
    }
  }

  /** On a trace, playing `m` frames and then `n` more is playing `m + n`. */
  lemma {:induction false} PlaysOn(w: nat, exec: bool, r: Recorder, cur: Uint64, s: State, items: seq<Item>,
                                   m: nat, n: nat, d: seq<Byte>)
    requires WordSize(w) && TraceOk(w, r, items) && Agree(exec, r, s.player) && AllFit(items) && m > 0 && n > 0
    requires cur < Pow256(w) && s.thread == SeePtr(w, cur)
    requires FieldsOk(w, TraceFields(r, cur, items)) && At(d, s.pos, EncAll(w, TraceFields(r, cur, items)))
    requires s.pos + |EncAll(w, TraceFields(r, cur, items))| == |d|
    ensures var first, k := Loop(w, exec, d, m, s, |items| + 1), |items| + 1;
      && first.Some? && first.value.Some?
      && Loop(w, exec, d, n, first.value.value, k) == Loop(w, exec, d, m + n, s, k)
      && Loop(w, exec, d, m + n, s, k).Some?
    decreases |items|
  {
    hide EncAll, FieldOk, ItemOk, TraceFields, At, Recorded, Agree, Step, SeeItem, Op, AttrsFit;
    if items == [] {
      assert EncAll(w, TraceFields(r, cur, items)) == [] by { NoFields(w, r, cur); }
      StopsAtEnd(w, exec, d, s);
    } else {
      var it, k := items[0], |items|;
      TraceSplit(w, r, cur, items, d, s.pos);
      ItemThread(w, r, it);
      StepItem(w, exec, r, cur, s, it, d);
      var swapped, t := Op(it.call) == OPC_eglSwapBuffers, Step(w, exec, d, s).s;
      assert it in items;
      if swapped && m == 1 {
        PlaysFrames(w, exec, Recorded(r, it.call), it.thread, t, items[1..], n, d);
        LoopDone(w, exec, d, n, t, k, k + 1);
      } else {
        var left := if swapped then m - 1 else m;
        PlaysOn(w, exec, Recorded(r, it.call), it.thread, t, items[1..], left, n, d);
        LoopDone(w, exec, d, n, Loop(w, exec, d, left, t, k).value.value, k, k + 1);
      }
    }
  }

  // ----- the file

  function TraceFile(w: nat, items: seq<Item>): seq<Byte>
    requires WordSize(w) && TraceOk(w, InitialRecorder(), items)
  {
    TraceFieldsOk(w, InitialRecorder(), 0, items);
    EncAll(w, Header(w)) + EncAll(w, TraceFields(InitialRecorder(), 0, items))
  }

  /** `iolib_init(IO_READ)`: the word size and the cursor, or `exit(1)` when the file is not a trace. */
  function Open(d: seq<Byte>): Option<(Int32, State)> {
    var (version, p1) := GetInt(d, 0);
    if version != OPC_VERSION then None
    else
      var p4 := GetInt(d, GetInt(d, GetInt(d, p1).1).1).1;
      var (wsize, p) := GetInt(d, p4);
      Some((wsize, State(p, 0, InitialPlayer(), 0, [])))
  }

  /** The state behind the header. */
  function Opened(): State { State(20, 0, InitialPlayer(), 0, []) }

  lemma OpensHeader(w: nat, d: seq<Byte>)
    requires WordSize(w) && FieldsOk(w, Header(w)) && At(d, 0, EncAll(w, Header(w)))
    ensures Open(d) == Some((w, Opened())) && |EncAll(w, Header(w))| == 20
  {
    hide Enc, GetInt, FieldOk;
    assert Header(w) == [FInt(OPC_VERSION)] + ([FInt(1)] + ([FInt(0)] + ([FInt(0)] + ([FInt(w)] + []))));
    IntThen(w, OPC_VERSION, [FInt(1)] + ([FInt(0)] + ([FInt(0)] + ([FInt(w)] + []))), d, 0);
    IntThen(w, 1, [FInt(0)] + ([FInt(0)] + ([FInt(w)] + [])), d, 4);
    IntThen(w, 0, [FInt(0)] + ([FInt(w)] + []), d, 8);
    IntThen(w, 0, [FInt(w)] + [], d, 12);
    IntThen(w, w, [], d, 16);
  }

  lemma InitiallyAgree(exec: bool)
    ensures Agree(exec, InitialRecorder(), InitialPlayer())
  {
  }

  // ----- what is performed is what was called

  /** A call made by a thread, with the times taken around it. */
  datatype Event = Event(thread: Uint64, deed: Deed, bgn: Uint64, end: Uint64)

  /** What the replayer did, record by record. */
  function Performed(log: seq<Entry>): seq<Event> {
    seq(|log|, i requires 0 <= i < |log| =>
      Event(log[i].thread, Executed(log[i].op, log[i].vals), log[i].bgn, log[i].end))
  }

  /** What was called, each call in the shadow state that those before it left. */
  function Called(w: nat, r: Recorder, items: seq<Item>): seq<Event>
    decreases |items|
  {
    if items == [] then []
    else
      var it := items[0];
      [Event(Shown(w, it.thread), Made(w, r, it.call), it.bgn, it.end)] + Called(w, Recorded(r, it.call), items[1..])
  }

  /** The number of calls of eglSwapBuffers, whose opcode is 730. */
  function Swaps(items: seq<Item>): nat {
    if items == [] then 0
    else (if items[0].call.Fixed? && items[0].call.op == 730 then 1 else 0) + Swaps(items[1..])
  }

  lemma {:induction false} PerformedIsCalled(w: nat, r: Recorder, items: seq<Item>)
    requires WordSize(w) && TraceOk(w, r, items)
    ensures Performed(SeeTrace(w, r, items)) == Called(w, r, items)
    decreases |items|
  {
    hide Recordable, Fields, Recorded, Executed, Made, Op, SeeAll, SeePtr, Shown;
    if items == [] {
    } else {
      var it := items[0];
      PerformedIsCalled(w, Recorded(r, it.call), items[1..]);
      ExecutesWhatWasCalled(w, r, it.call);
      SeePtrIsShown(w, it.thread);
      var log, rest := SeeTrace(w, r, items), SeeTrace(w, Recorded(r, it.call), items[1..]);
      assert log == [SeeItem(w, r, it)] + rest;
      assert Performed(log) == Performed([SeeItem(w, r, it)]) + Performed(rest);
    }
  }

  lemma SwapOpcode(w: nat, r: Recorder, c: Call)
    requires Recordable(w, r, c)
    ensures Op(c) == OPC_eglSwapBuffers <==> c.Fixed? && c.op == 730
  {
    hide FieldsOk;
  }

  lemma {:induction false} FramesAreSwaps(w: nat, r: Recorder, items: seq<Item>)
    requires TraceOk(w, r, items)
    ensures Frames(items) == Swaps(items)
    decreases |items|
  {
    hide Recordable, Recorded, Op;
    if items == [] {
    } else {
      SwapOpcode(w, r, items[0].call);
      FramesAreSwaps(w, Recorded(r, items[0].call), items[1..]);
    }
  }

  /** Replaying the file from its start ends at its last byte, having made exactly these calls, with their arguments,
      results, times and threads, counted the buffer swaps among them, and in agreement with the recorder. */
  ghost predicate PlaysBack(w: nat, exec: bool, items: seq<Item>, d: seq<Byte>) {
    && Open(d) == Some((w, Opened()))
    && var o := Loop(w, exec, d, -1, Opened(), |items| + 1);
       && o.Some? && o.value.Some?
       && o.value.value.pos == |d|
       && Performed(o.value.value.log) == Called(w, InitialRecorder(), items)
       && o.value.value.frame == Swaps(items)
       && Agree(exec, RecordedAll(InitialRecorder(), items), o.value.value.player)
  }

  /** The round trip of a whole trace: for every serial sequence of recordable calls, by any threads, the replayer makes
      the calls that were made, argument by argument, with the same results, times and threads, and ends in agreeing
      state, exactly when every attribute list fits the replayer's buffer; otherwise the replayer exits. */
  lemma TraceRoundTrip(w: nat, exec: bool, items: seq<Item>)
    requires WordSize(w) && TraceOk(w, InitialRecorder(), items)
    ensures PlaysBack(w, exec, items, TraceFile(w, items)) <==> AllFit(items)
    ensures !AllFit(items) ==> Loop(w, exec, TraceFile(w, items), -1, Opened(), |items| + 1) == Some(None)
  {
    hide EncAll, FieldOk, At, TraceOk, TraceFields, Agree, Loop, SeeTrace, RecordedAll, Open, AllFit, Performed, Called,
        Swaps, Frames;
    PerformedIsCalled(w, InitialRecorder(), items);
    FramesAreSwaps(w, InitialRecorder(), items);
    FileOpens(w, exec, items);
    assert [] + SeeTrace(w, InitialRecorder(), items) == SeeTrace(w, InitialRecorder(), items);
    PlaysToEnd(w, exec, InitialRecorder(), 0, Opened(), items, -1, TraceFile(w, items));
  }

  /** Behind the header, the file holds the trace, and recorder and replayer agree. */
  lemma FileOpens(w: nat, exec: bool, items: seq<Item>)
    requires WordSize(w) && TraceOk(w, InitialRecorder(), items)
    ensures var d, fs := TraceFile(w, items), TraceFields(InitialRecorder(), 0, items);
      && Open(d) == Some((w, Opened())) && Agree(exec, InitialRecorder(), Opened().player)
      && FieldsOk(w, fs) && At(d, 20, EncAll(w, fs)) && 20 + |EncAll(w, fs)| == |d|
  {
    hide Enc, FieldOk, EncAll, TraceOk, TraceFields, Agree, Open;
    var d := TraceFile(w, items);
    TraceFieldsOk(w, InitialRecorder(), 0, items);
    HeaderOk(w);
    assert d[0..|d|] == d;
    AtConcat(d, 0, EncAll(w, Header(w)), EncAll(w, TraceFields(InitialRecorder(), 0, items)));
    OpensHeader(w, d);
    InitiallyAgree(exec);
  }

  /** Replay is resumable on every trace of supported calls: from the start, `m` frames and then `n` end like
      `m + n`. */
  lemma TraceResumes(w: nat, exec: bool, items: seq<Item>, m: nat, n: nat)
    requires WordSize(w) && TraceOk(w, InitialRecorder(), items) && AllFit(items) && m > 0 && n > 0
    ensures var d, k := TraceFile(w, items), |items| + 1;
      var first := Loop(w, exec, d, m, Opened(), k);
      && first.Some? && first.value.Some?
      && Loop(w, exec, d, n, first.value.value, k) == Loop(w, exec, d, m + n, Opened(), k)
      && Loop(w, exec, d, m + n, Opened(), k).Some?
  {
    hide EncAll, FieldOk, At, TraceOk, TraceFields, Agree, Loop, Open, AllFit;
    FileOpens(w, exec, items);
    PlaysOn(w, exec, InitialRecorder(), 0, Opened(), items, m, n, TraceFile(w, items));
  }

  /** The same without counting iterations. */
  lemma TraceProcessResumes(w: nat, exec: bool, items: seq<Item>, m: nat, n: nat) returns (first: State)
    requires WordSize(w) && TraceOk(w, InitialRecorder(), items) && AllFit(items) && m > 0 && n > 0
    ensures var d := TraceFile(w, items);
      EndsAs(w, exec, d, m, Opened(), Some(first)) && Resumes(w, exec, d, m, n, Opened(), first)
  {
    hide EncAll, FieldOk, At, TraceOk, TraceFields, Agree, Loop, Open, AllFit, Resumes;
    var d, k := TraceFile(w, items), |items| + 1;
    FileOpens(w, exec, items);
    PlaysFrames(w, exec, InitialRecorder(), 0, Opened(), items, m, d);
    first := Loop(w, exec, d, m, Opened(), k).value.value;
    ProcessResumes(w, exec, d, m, n, Opened(), first);
  }

  lemma HeaderOk(w: nat)
    requires WordSize(w)
    ensures FieldsOk(w, Header(w))
  {
  }
}
