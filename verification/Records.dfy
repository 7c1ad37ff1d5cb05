/** The records of the log. Only draws have a record that depends on the shadow state. This module says what an
    interceptor writes, when a list of finished records is the serial encoding of its calls, and that no two different
    lists of records read the same. */
module Records {
  import opened Bytes
  import opened Wire
  import opened TraceWriter
  import opened VertexArrays
  import opened Calls
  import opened Trace
  import opened Interposer
  import opened Shadows

  function Times(it: Item): seq<Field> { [FU64(it.bgn), FU64(it.end)] }

  /** What an interceptor writes for one action when the shadow state is `r`. */
  function Writes(r: Recorder, c: Call, a: Act): seq<Field> {
    match a
    case Put(f) => [f]
    case PutIndices => if c.DrawElements? then [IndexField(r, c)] else []
    case PutAttribs => if c.DrawElements? then AttribFields(r, c) else []
    case _ => []
  }

  function ToWrite(r: Recorder, c: Call, acts: seq<Act>): seq<Field> {
    if acts == [] then [] else Writes(r, c, acts[0]) + ToWrite(r, c, acts[1..])
  }

  /** The fields of the whole record, whatever the shadow state. */
  ghost predicate WritesAll(it: Item, acts: seq<Act>) {
    forall r :: ToWrite(r, it.call, acts) == Fields(r, it.call) + Times(it)
  }

  /** Every finished record holds the fields of its call in the shadow state of the calls before it. */
  predicate DoneOk(done: seq<Rec>) {
    forall k :: 0 <= k < |done| ==>
      done[k].body == Fields(RecordedAll(InitialRecorder(), Items(done[..k])), done[k].item.call) + Times(done[k].item)
  }

  /** A record that, completed in shadow state `r`, holds the fields its call has in that state. */
  predicate Completes(rc: Rec, r: Recorder, rest: seq<Act>) {
    rc.body + ToWrite(r, rc.item.call, rest) == Fields(r, rc.item.call) + Times(rc.item)
  }

  // ----- scripts write whole records

  lemma {:induction false} ToWriteConcat(r: Recorder, c: Call, a: seq<Act>, b: seq<Act>)
    ensures ToWrite(r, c, a + b) == ToWrite(r, c, a) + ToWrite(r, c, b)
    decreases |a|
  {
    hide Writes;
    if a == [] {
      assert a + b == b;
    } else {
      ToWriteConcat(r, c, a[1..], b);
      assert (a + b)[1..] == a[1..] + b;
      assert Writes(r, c, a[0]) + (ToWrite(r, c, a[1..]) + ToWrite(r, c, b)) == ToWrite(r, c, a) + ToWrite(r, c, b);
    }
  }

  lemma {:induction false} ToWritePuts(r: Recorder, c: Call, fs: seq<Field>)
    ensures ToWrite(r, c, Puts(fs)) == fs
    decreases |fs|
  {
    if fs == [] {
    } else {
      ToWritePuts(r, c, fs[1..]);
      assert Puts(fs)[0] == Put(fs[0]) && Puts(fs)[1..] == Puts(fs[1..]);
      assert fs == [fs[0]] + fs[1..];
    }
  }

  lemma ThreePartWrites(r: Recorder, c: Call, a: seq<Field>, mid: seq<Act>, b: seq<Field>, times: seq<Field>)
    ensures ToWrite(r, c, Puts(a) + mid + Puts(b) + Puts(times)) == a + ToWrite(r, c, mid) + b + times
    ensures ToWrite(r, c, Puts(a) + mid + Puts(times)) == a + ToWrite(r, c, mid) + times
  {
    hide ToWrite, Puts;
    ToWritePuts(r, c, a);
    ToWritePuts(r, c, b);
    ToWritePuts(r, c, times);
    ToWriteConcat(r, c, Puts(a) + mid + Puts(b), Puts(times));
    ToWriteConcat(r, c, Puts(a) + mid, Puts(b));
    ToWriteConcat(r, c, Puts(a) + mid, Puts(times));
    ToWriteConcat(r, c, Puts(a), mid);
  }

  lemma SilentActs(r: Recorder, c: Call)
    ensures ToWrite(r, c, [Orig]) == [] && ToWrite(r, c, [Update, Orig]) == [] && ToWrite(r, c, [Orig, Update]) == []
  {
    assert [Update, Orig][1..] == [Orig] && [Orig, Update][1..] == [Update];
    assert ToWrite(r, c, [Update]) == [];
  }

  lemma DrawActs(r: Recorder, c: Call)
    requires c.DrawElements?
    ensures ToWrite(r, c, [PutIndices, PutAttribs, Orig]) == [IndexField(r, c)] + AttribFields(r, c)
  {
    hide IndexField, AttribFields;
    assert [PutIndices, PutAttribs, Orig][1..] == [PutAttribs, Orig] && [PutAttribs, Orig][1..] == [Orig];
    SilentActs(r, c);
    assert ToWrite(r, c, [PutAttribs, Orig]) == AttribFields(r, c);
  }

  /** Only draws have a record that depends on the shadow state. */
  lemma FieldsIndependent(r: Recorder, q: Recorder, c: Call)
    requires !c.DrawElements?
    ensures Fields(r, c) == Fields(q, c)
  {
  }

  lemma DrawScriptWrites(r: Recorder, it: Item)
    requires it.call.DrawElements?
    ensures ToWrite(r, it.call, Script(it, 0)) == Fields(r, it.call) + Times(it)
  {
    hide Puts, ToWrite, IndexField, AttribFields;
    var c := it.call;
    var head := [FInt(c.mode), FInt(c.count), FInt(c.typ)];
    ThreePartWrites(r, c, head, [PutIndices, PutAttribs, Orig], [], Times(it));
    DrawActs(r, c);
    assert head + ([IndexField(r, c)] + AttribFields(r, c)) == Fields(r, c);
  }

  lemma ScriptWrites(r: Recorder, it: Item, cut: nat)
    ensures ToWrite(r, it.call, Script(it, cut)) == Fields(r, it.call) + Times(it)
  {
    hide Puts, ToWrite, Fields;
    var c := it.call;
    if c.DrawElements? {
      DrawScriptWrites(r, it);
    } else {
      var fs := Fields(InitialRecorder(), c);
      SilentActs(r, c);
      FieldsIndependent(InitialRecorder(), r, c);
      var k := if cut <= |fs| then cut else |fs|;
      assert fs[..k] + fs[k..] == fs;
      ThreePartWrites(r, c, fs, [Update, Orig], [], Times(it));
      ThreePartWrites(r, c, fs, [Orig, Update], [], Times(it));
      ThreePartWrites(r, c, fs[..k], [Orig], fs[k..], Times(it));
    }
  }

  // ----- the shape of a draw record, whatever was read

  function Head(c: Call): seq<Field>
    requires c.DrawElements?
  {
    [FInt(c.mode), FInt(c.count), FInt(c.typ)]
  }

  /** The body of a draw after `k` of its eight actions: three words, the indices, blocks, two times. */
  predicate DrawBody(it: Item, body: seq<Field>, k: nat)
    requires it.call.DrawElements?
  {
    if k <= 3 then body == Head(it.call)[..k]
    else
      var n := if k < 6 then 0 else if k > 8 then 2 else k - 6;
      && |body| >= 4 + n && body[..3] == Head(it.call) && body[|body| - n..] == Times(it)[..n]
      && (k == 4 ==> |body| == 4)
      && forall j :: 4 <= j < |body| - n ==> body[j].FBuf?
  }

  lemma DrawScript(it: Item)
    requires it.call.DrawElements?
    ensures var head, times := Head(it.call), Times(it);
      Script(it, 0) == [Put(head[0]), Put(head[1]), Put(head[2]), PutIndices, PutAttribs, Orig, Put(times[0]),
                        Put(times[1])]
  {
  }

  lemma DrawScriptLength(it: Item)
    requires it.call.DrawElements?
    ensures |Script(it, 0)| == 8
  {
  }

  lemma DrawBodyStep(it: Item, body: seq<Field>, k: nat, r: Recorder)
    requires it.call.DrawElements? && k < 8 && DrawBody(it, body, k)
    ensures k < |Script(it, 0)| && DrawBody(it, body + Writes(r, it.call, Script(it, 0)[k]), k + 1)
  {
    hide Script, IndexField;
    DrawScript(it);
    var more := Writes(r, it.call, Script(it, 0)[k]);
    assert k != 3 && k != 4 && k != 5 ==> |more| == 1;
    assert body + [] == body;
  }

  /** The fields of a draw and its times have that shape too. */
  lemma DrawFieldsShape(r: Recorder, it: Item)
    requires it.call.DrawElements?
    ensures DrawBody(it, Fields(r, it.call) + Times(it), 8)
  {
    hide IndexField, Blocks;
  }

  predicate RecShape(rc: Rec, r: Recorder, rest: seq<Act>) {
    if rc.item.call.DrawElements? then
      var script := Script(rc.item, 0);
      && |rest| <= |script| && rest == script[|script| - |rest|..]
      && DrawBody(rc.item, rc.body, |script| - |rest|)
    else Completes(rc, r, rest)
  }

  predicate DoneShape(done: seq<Rec>) {
    forall k :: 0 <= k < |done| ==>
      if done[k].item.call.DrawElements? then DrawBody(done[k].item, done[k].body, 8)
      else Completes(done[k], RecordedAll(InitialRecorder(), Items(done[..k])), [])
  }

  // ----- one action of the open record

  /** A draw's next action keeps its record right exactly when the record was right and the action reads as logged. */
  lemma ReadExactly(rc: Rec, r: Recorder, q: Recorder, rest: seq<Act>)
    requires rc.item.call.DrawElements? && rest != [] && RecShape(rc, q, rest)
    ensures var c, now := rc.item.call, Writes(r, rc.item.call, rest[0]);
      Completes(rc.(body := rc.body + now), q, rest[1..]) <==> Completes(rc, q, rest) && now == Writes(q, c, rest[0])
  {
    hide Script, Fields, ToWrite, IndexField, AttribFields;
    var it, c := rc.item, rc.item.call;
    DrawScript(it);
    var k := 8 - |rest|;
    var now, then_, tail := Writes(r, c, rest[0]), Writes(q, c, rest[0]), ToWrite(q, c, rest[1..]);
    assert ToWrite(q, c, rest) == then_ + tail by { ToWriteFirst(q, c, rest); }
    assert rc.body + (then_ + tail) == (rc.body + then_) + tail;
    if k == 3 { IndexRead(rc.body, now[0], tail, q, it); }
    if k == 4 {
      assert rest[1..] == [Orig, Put(Times(it)[0]), Put(Times(it)[1])];
      AttribsRead(rc.body, now, q, it);
    }
  }

  lemma ToWriteFirst(r: Recorder, c: Call, acts: seq<Act>)
    requires acts != []
    ensures ToWrite(r, c, acts) == Writes(r, c, acts[0]) + ToWrite(r, c, acts[1..])
  {
  }

  lemma IndexRead(body: seq<Field>, f: Field, tail: seq<Field>, q: Recorder, it: Item)
    requires it.call.DrawElements? && |body| == 3
    ensures body + [f] + tail == Fields(q, it.call) + Times(it) ==> f == IndexField(q, it.call)
  {
    hide IndexField, AttribFields;
    var all := Fields(q, it.call) + Times(it);
    assert all[3] == IndexField(q, it.call);
    assert (body + [f] + tail)[3] == f;
  }

  lemma AttribsRead(body: seq<Field>, now: seq<Field>, q: Recorder, it: Item)
    requires it.call.DrawElements? && |body| == 4
    ensures var tail := ToWrite(q, it.call, [Orig, Put(Times(it)[0]), Put(Times(it)[1])]);
      body + now + tail == Fields(q, it.call) + Times(it) ==> now == AttribFields(q, it.call)
  {
    hide IndexField, AttribFields, ToWrite;
    TailWrites(q, it);
    var all, a := Fields(q, it.call) + Times(it), AttribFields(q, it.call);
    assert all[4..4 + |a|] == a && |all| == |a| + 6;
    assert (body + now + Times(it))[4..4 + |now|] == now;
  }

  lemma TailWrites(q: Recorder, it: Item)
    ensures ToWrite(q, it.call, [Orig, Put(Times(it)[0]), Put(Times(it)[1])]) == Times(it)
  {
    hide ToWrite;
    ToWritePuts(q, it.call, Times(it));
    ToWriteConcat(q, it.call, [Orig], Puts(Times(it)));
    SilentActs(q, it.call);
    assert [Orig] + Puts(Times(it)) == [Orig, Put(Times(it)[0]), Put(Times(it)[1])];
  }

  /** The records of other calls do not depend on the shadow state. */
  lemma WritesIndependent(r: Recorder, q: Recorder, c: Call, a: Act)
    requires !c.DrawElements?
    ensures Writes(r, c, a) == Writes(q, c, a)
  {
  }

  /** Any action of the open record. */
  lemma ActExactly(rc: Rec, r: Recorder, q: Recorder, rest: seq<Act>)
    requires rest != [] && RecShape(rc, q, rest)
    ensures var now := Writes(r, rc.item.call, rest[0]);
      var next := rc.(body := rc.body + now);
      && RecShape(next, q, rest[1..])
      && (Completes(next, q, rest[1..]) <==> Completes(rc, q, rest) && now == Writes(q, rc.item.call, rest[0]))
  {
    hide Script, Fields, ToWrite, Writes, DrawBody;
    var now, c := Writes(r, rc.item.call, rest[0]), rc.item.call;
    if c.DrawElements? {
      ReadExactly(rc, r, q, rest);
      DrawScriptLength(rc.item);
      DrawBodyStep(rc.item, rc.body, 8 - |rest|, r);
      assert rest[1..] == Script(rc.item, 0)[8 - |rest[1..]|..];
    } else {
      WritesIndependent(r, q, c, rest[0]);
      ToWriteFirst(q, c, rest);
      assert rc.body + (now + ToWrite(q, c, rest[1..])) == (rc.body + now) + ToWrite(q, c, rest[1..]);
    }
  }

  /** An empty record with the whole script ahead. */
  lemma OpensShaped(it: Item, rc: Rec, r: Recorder, script: seq<Act>)
    requires rc.item == it && rc.body == [] && WritesAll(it, script)
    requires it.call.DrawElements? ==> script == Script(it, 0)
    ensures RecShape(rc, r, script) && Completes(rc, r, script)
  {
    hide Script, Fields, ToWrite;
    assert ToWrite(r, it.call, script) == Fields(r, it.call) + Times(it);
    assert [] + ToWrite(r, it.call, script) == ToWrite(r, it.call, script);
  }

  lemma UpdatedAside(rc: Rec, updated: bool, r: Recorder, rest: seq<Act>)
    ensures Completes(rc.(updated := updated), r, rest) <==> Completes(rc, r, rest)
    ensures RecShape(rc.(updated := updated), r, rest) <==> RecShape(rc, r, rest)
  {
    hide Script, Fields, ToWrite, DrawBody;
  }

  /** Closing a record. */
  lemma CloseRecord(done: seq<Rec>, rc: Rec)
    ensures var r := RecordedAll(InitialRecorder(), Items(done));
      && (DoneOk(done + [rc]) <==> DoneOk(done) && Completes(rc, r, []))
      && (DoneShape(done) && RecShape(rc, r, []) ==> DoneShape(done + [rc]))
  {
    hide Fields, RecordedAll, DrawBody, InitialRecorder, Script;
    var all := done + [rc];
    assert all[..|done|] == done;
    assert forall k :: 0 <= k < |done| ==> all[..k] == done[..k];
    assert rc.body + [] == rc.body;
    if rc.item.call.DrawElements? { DrawScript(rc.item); }
    if DoneOk(all) {
      forall k | 0 <= k < |done|
        ensures done[k].body
             == Fields(RecordedAll(InitialRecorder(), Items(done[..k])), done[k].item.call) + Times(done[k].item)
      {
        assert all[k] == done[k];
      }
      assert all[|done|] == rc;
    }
  }

  // ----- the log as a trace

  lemma {:induction false} TraceFieldsAppend(r: Recorder, cur: Uint64, items: seq<Item>, it: Item)
    ensures TraceFields(r, cur, items + [it]) ==
      TraceFields(r, cur, items)
      + ItemFields(RecordedAll(r, items), if items == [] then cur else items[|items| - 1].thread, it)
    decreases |items|
  {
    hide Recorded, ItemFields;
    if items == [] {
      assert items + [it] == [it];
      assert TraceFields(Recorded(r, it.call), it.thread, [it][1..]) == [];
    } else {
      var rest := items[1..];
      assert (items + [it])[1..] == rest + [it];
      TraceFieldsAppend(Recorded(r, items[0].call), items[0].thread, rest, it);
      var last := ItemFields(RecordedAll(r, items), items[|items| - 1].thread, it);
      assert ItemFields(r, cur, items[0]) + (TraceFields(Recorded(r, items[0].call), items[0].thread, rest) + last)
        == TraceFields(r, cur, items) + last;
    }
  }

  /** The finished records, read as one list of fields, are the serial encoding of their calls. */
  lemma {:induction false} LogIsTrace(done: seq<Rec>)
    requires Prefixed(done) && DoneOk(done)
    ensures Concat(done) == TraceFields(InitialRecorder(), 0, Items(done))
    decreases |done|
  {
    hide RecordedAll, Fields, ItemFields, RecFields, TraceFields;
    if done != [] {
      var init, rc := done[..|done| - 1], done[|done| - 1];
      assert forall k :: 0 <= k < |init| ==> init[..k] == done[..k];
      assert Prefixed(init) && DoneOk(init);
      LogIsTrace(init);
      assert Items(done) == Items(init) + [rc.item];
      TraceFieldsAppend(InitialRecorder(), 0, Items(init), rc.item);
      RecordIsItem(init, rc);
    } else {
      EmptyTrace();
    }
  }

  lemma EmptyTrace()
    ensures TraceFields(InitialRecorder(), 0, []) == []
  {
  }

  lemma RecordIsItem(done: seq<Rec>, rc: Rec)
    requires rc.prefixed <==> rc.item.thread != LastThread(done)
    requires rc.body == Fields(RecordedAll(InitialRecorder(), Items(done)), rc.item.call) + Times(rc.item)
    ensures RecFields(rc) ==
      ItemFields(RecordedAll(InitialRecorder(), Items(done)),
                 if Items(done) == [] then 0 else Items(done)[|Items(done)| - 1].thread, rc.item)
  {
    hide RecordedAll, Fields, Op;
  }

  lemma {:induction false} ConcatPrefix(done: seq<Rec>, k: nat)
    requires k <= |done|
    ensures Concat(done[..k]) <= Concat(done)
    decreases |done|
  {
    hide RecFields;
    if k == |done| {
      assert done[..k] == done;
    } else {
      ConcatPrefix(done[..|done| - 1], k);
      assert done[..|done| - 1][..k] == done[..k];
    }
  }

  lemma {:induction false} TracePrefix(items: seq<Item>, k: nat)
    requires k <= |items|
    ensures TraceFields(InitialRecorder(), 0, items[..k]) <= TraceFields(InitialRecorder(), 0, items)
    decreases |items|
  {
    hide ItemFields, TraceFields, InitialRecorder;
    if k == |items| {
      assert items[..k] == items;
    } else {
      var init, it := items[..|items| - 1], items[|items| - 1];
      TracePrefix(init, k);
      assert init[..k] == items[..k] && init + [it] == items;
      TraceFieldsAppend(InitialRecorder(), 0, init, it);
    }
  }

  /** Draw records are prefix-free: of two bodies that start the same list, neither is longer. */
  lemma DrawPrefixFree(it: Item, a: seq<Field>, b: seq<Field>)
    requires it.call.DrawElements? && DrawBody(it, a, 8) && DrawBody(it, b, 8)
    requires a <= b || b <= a
    ensures a == b
  {
    assert a[|a| - 2] == a[|a| - 2..][0] == FU64(it.bgn);
    assert b[|b| - 2] == b[|b| - 2..][0] == FU64(it.bgn);
  }

  lemma SamePlace(p: seq<Field>, h: seq<Field>, a: seq<Field>, b: seq<Field>, all: seq<Field>)
    requires p + (h + a) <= all && p + (h + b) <= all
    ensures a <= b || b <= a
  {
    var n := |p| + |h|;
    assert a == all[n..n + |a|] by { assert (p + (h + a))[n..] == a; }
    assert b == all[n..n + |b|] by { assert (p + (h + b))[n..] == b; }
  }

  /** If the finished records read as a trace, so does each of them. */
  lemma {:induction false} TraceIsGood(done: seq<Rec>, k: nat)
    requires Prefixed(done) && DoneShape(done) && k <= |done|
    requires Concat(done) == TraceFields(InitialRecorder(), 0, Items(done))
    ensures DoneOk(done[..k])
    decreases k
  {
    hide Prefixed, Concat, TraceFields, RecFields, ItemFields, RecordedAll, InitialRecorder, DrawBody,
        DoneShape, DoneOk, Completes;
    if k == 0 {
      assert DoneOk(done[..0]) by { NothingDone(done); }
    } else {
      TraceIsGood(done, k - 1);
      var init, rc := done[..k - 1], done[k - 1];
      assert done[..k] == init + [rc];
      PrefixedInit(done, k - 1);
      LogIsTrace(init);
      RecordInPlace(done, k - 1);
      CloseRecord(init, rc);
    }
  }

  lemma NothingDone(done: seq<Rec>)
    ensures DoneOk(done[..0])
  {
  }

  lemma PrefixedInit(done: seq<Rec>, k: nat)
    requires Prefixed(done) && k <= |done|
    ensures Prefixed(done[..k]) && (k < |done| ==> (done[k].prefixed <==> done[k].item.thread != LastThread(done[..k])))
  {
    assert forall i :: 0 <= i < k ==> done[..k][..i] == done[..i];
  }

  /** The record at `k`, behind records that read as a trace. */
  lemma RecordInPlace(done: seq<Rec>, k: nat)
    requires k < |done| && Prefixed(done) && DoneShape(done)
    requires Concat(done) == TraceFields(InitialRecorder(), 0, Items(done))
    requires Concat(done[..k]) == TraceFields(InitialRecorder(), 0, Items(done[..k]))
    ensures Completes(done[k], RecordedAll(InitialRecorder(), Items(done[..k])), [])
  {
    hide Prefixed, Concat, TraceFields, Fields, RecordedAll, InitialRecorder, DrawBody, ToWrite, Op;
    var rc, r := done[k], RecordedAll(InitialRecorder(), Items(done[..k]));
    var it := rc.item;
    assert rc.body + [] == rc.body;
    assert ToWrite(r, it.call, []) == [] by { NothingToWrite(r, it.call); }
    if it.call.DrawElements? {
      var full := Fields(r, it.call) + Times(it);
      DrawFieldsShape(r, it);
      BothInPlace(done, k);
      var p := Concat(done[..k]);
      var h := (if rc.prefixed then [FInt(OPC_THREAD)] + [FPtr(it.thread)] else []) + [FInt(Op(it.call))];
      HeadFirst(rc, h);
      HeadFirst(rc.(body := full), h);
      SamePlace(p, h, rc.body, full, Concat(done));
      DrawPrefixFree(it, rc.body, full);
    }
  }

  lemma NothingToWrite(r: Recorder, c: Call)
    ensures ToWrite(r, c, []) == []
  {
  }

  lemma HeadFirst(rc: Rec, h: seq<Field>)
    requires h == (if rc.prefixed then [FInt(OPC_THREAD)] + [FPtr(rc.item.thread)] else []) + [FInt(Op(rc.item.call))]
    ensures RecFields(rc) == h + rc.body
  {
    hide Op;
  }

  lemma RecordPlaced(done: seq<Rec>, k: nat)
    requires k < |done|
    ensures Concat(done[..k]) + RecFields(done[k]) <= Concat(done)
  {
    hide RecFields;
    assert done[..k + 1][..k] == done[..k];
    ConcatPrefix(done, k + 1);
  }

  lemma ItemPlaced(items: seq<Item>, k: nat)
    requires k < |items|
    ensures TraceFields(InitialRecorder(), 0, items[..k])
        + ItemFields(RecordedAll(InitialRecorder(), items[..k]), if k == 0 then 0 else items[k - 1].thread, items[k])
      <= TraceFields(InitialRecorder(), 0, items)
  {
    hide ItemFields, TraceFields, RecordedAll, InitialRecorder;
    assert items[..k + 1] == items[..k] + [items[k]];
    TracePrefix(items, k + 1);
    TraceFieldsAppend(InitialRecorder(), 0, items[..k], items[k]);
  }

  lemma BothInPlace(done: seq<Rec>, k: nat)
    requires k < |done| && Prefixed(done)
    requires Concat(done) == TraceFields(InitialRecorder(), 0, Items(done))
    requires Concat(done[..k]) == TraceFields(InitialRecorder(), 0, Items(done[..k]))
    ensures var p, rc := Concat(done[..k]), done[k];
      var full := Fields(RecordedAll(InitialRecorder(), Items(done[..k])), rc.item.call) + Times(rc.item);
      p + RecFields(rc) <= Concat(done) && p + RecFields(rc.(body := full)) <= Concat(done)
  {
    hide Prefixed, Concat, TraceFields, Fields, RecordedAll, InitialRecorder, RecFields, ItemFields;
    var init, rc := done[..k], done[k];
    var r := RecordedAll(InitialRecorder(), Items(init));
    RecordPlaced(done, k);
    assert Items(done)[..k] == Items(init) && Items(done)[k] == rc.item;
    ItemPlaced(Items(done), k);
    PrefixedInit(done, k);
    RecordIsItem(init, rc.(body := Fields(r, rc.item.call) + Times(rc.item)));
  }
}
