/** The recorder at work on serial calls: each interceptor runs its own puts against the chunked writer and then
    updates the shadow state. The file that results is the trace file of the calls. */
module Recording {
  import opened Sequences
  import opened Bytes
  import opened Wire
  import opened TraceWriter
  import opened Calls
  import opened RoundTrip
  import opened Interceptors
  import opened Trace

  /** An interceptor from `putCmd` to `putTime`: one record, with a thread prefix if the thread is a new one. */
  method Intercept(wr: Writer, r: Recorder, it: Item)
    requires wr.Valid() && wr.Aligned() && wr.reentrance == 0 && ItemOk(wr.w, r, it)
    modifies wr, wr.chunk
    ensures wr.Valid() && wr.Aligned() && (wr.chunk == old(wr.chunk) || fresh(wr.chunk))
    ensures wr.reentrance == 0 && wr.curThread == it.thread
    ensures FieldsOk(wr.w, ItemFields(r, old(wr.curThread), it))
    ensures wr.written == old(wr.written) + EncAll(wr.w, ItemFields(r, old(wr.curThread), it))
  {
    hide Enc, FieldOk, Recordable, EncAll, Fields, Op, Le, EncInt, Prefix;
    ghost var cur := wr.curThread;
    FieldsRecordable(wr.w, r, it.call);
    RecordBytes(wr.w, r, cur, it);
    wr.PutCmd(it.thread, Op(it.call));
    PutCall(wr, r, it.call);
    wr.PutTime(it.bgn, it.end);
    ThreeParts(old(wr.written), Prefix(wr.w, cur, it.thread) + EncInt(Op(it.call)), EncAll(wr.w, Fields(r, it.call)),
               Le(it.bgn, 8) + Le(it.end, 8));
  }

  lemma ThreeParts(s: seq<Byte>, a: seq<Byte>, b: seq<Byte>, c: seq<Byte>)
    ensures s + a + b + c == s + (a + b + c)
  {
  }

  lemma FieldsRecordable(w: nat, r: Recorder, c: Call)
    requires Recordable(w, r, c)
    ensures FieldsOk(w, Fields(r, c))
  {
  }

  /** The bytes of a record: prefix, opcode, fields, times. */
  lemma RecordBytes(w: nat, r: Recorder, cur: Uint64, it: Item)
    requires ItemOk(w, r, it) && FieldsOk(w, Fields(r, it.call))
    ensures FieldsOk(w, ItemFields(r, cur, it))
    ensures EncAll(w, ItemFields(r, cur, it)) == Prefix(w, cur, it.thread) + EncInt(Op(it.call))
      + EncAll(w, Fields(r, it.call)) + (Le(it.bgn, 8) + Le(it.end, 8))
  {
    hide FieldOk, Recordable, EncAll, Fields, Op, Le, EncInt;
    var op, fs, times := [FInt(Op(it.call))], Fields(r, it.call), [FU64(it.bgn), FU64(it.end)];
    ItemFieldsOk(w, r, cur, it);
    assert FieldsOk(w, times) && FieldsOk(w, op)
        && FieldsOk(w, PrefixFields(cur, it.thread)) by { PartsOk(w, cur, it); }
    EncAllConcat(w, PrefixFields(cur, it.thread), BodyFields(r, it));
    EncAllConcat(w, op, fs + times);
    EncAllConcat(w, fs, times);
    EncOne(w, FInt(Op(it.call)));
    TimesBytes(w, it);
    PrefixBytes(w, cur, it);
    RegroupRecord(Prefix(w, cur, it.thread), EncInt(Op(it.call)), EncAll(w, fs), Le(it.bgn, 8) + Le(it.end, 8));
  }

  lemma RegroupRecord(a: seq<Byte>, b: seq<Byte>, c: seq<Byte>, d: seq<Byte>)
    ensures a + (b + (c + d)) == a + b + c + d
  {
  }

  lemma PartsOk(w: nat, cur: Uint64, it: Item)
    requires it.thread < Pow256(w)
    ensures FieldsOk(w, PrefixFields(cur, it.thread)) && FieldsOk(w, [FInt(Op(it.call))])
    ensures FieldsOk(w, [FU64(it.bgn), FU64(it.end)])
  {
  }

  lemma TimesBytes(w: nat, it: Item)
    ensures EncAll(w, [FU64(it.bgn), FU64(it.end)]) == Le(it.bgn, 8) + Le(it.end, 8)
  {
    hide Le, EncAll;
    EncOne(w, FU64(it.bgn));
    PutOne(w, [FU64(it.bgn)], FU64(it.end));
    assert [FU64(it.bgn)] + [FU64(it.end)] == [FU64(it.bgn), FU64(it.end)];
  }

  lemma PrefixBytes(w: nat, cur: Uint64, it: Item)
    requires it.thread < Pow256(w)
    ensures FieldsOk(w, PrefixFields(cur, it.thread))
    ensures EncAll(w, PrefixFields(cur, it.thread)) == Prefix(w, cur, it.thread)
  {
    hide Le, EncInt, EncAll;
    if it.thread != cur {
      EncOne(w, FInt(OPC_THREAD));
      PutOne(w, [FInt(OPC_THREAD)], FPtr(it.thread));
    } else {
      NothingPut(w);
    }
  }

  /** Recording serial calls, by any threads: the interceptors one after the other, each in the shadow state the
      ones before it left. For every chunk size the file is the trace file of the calls. */
  method RecordTrace(chunkSize: nat, w: nat, items: seq<Item>) returns (file: seq<Byte>)
    requires chunkSize > 0 && chunkSize % 4 == 0 && WordSize(w) && TraceOk(w, InitialRecorder(), items)
    ensures file == TraceFile(w, items)
  {
    hide Enc, FieldOk, EncAll, ItemFields, ItemOk, Recorded, Fields, InitialRecorder, Header;
    HeaderOk(w);
    TraceFieldsOk(w, InitialRecorder(), 0, items);
    var wr := new Writer(chunkSize, w);
    wr.PutAll(Header(w));
    assert [] + EncAll(w, Header(w)) == EncAll(w, Header(w));
    var r := InitialRecorder();
    var i := 0;
    while i < |items|
      invariant 0 <= i <= |items| && wr.w == w && fresh(wr) && fresh(wr.chunk)
      invariant wr.Valid() && wr.Aligned() && wr.reentrance == 0
      invariant TraceOk(w, r, items[i..]) && FieldsOk(w, TraceFields(r, wr.curThread, items[i..]))
      invariant wr.written + EncAll(w, TraceFields(r, wr.curThread, items[i..])) == TraceFile(w, items)
    {
      ghost var cur, before := wr.curThread, wr.written;
      ghost var rest := TraceFields(Recorded(r, items[i].call), items[i].thread, items[i + 1..]);
      assert items[i..][0] == items[i] && items[i..][1..] == items[i + 1..];
      TraceFieldsOk(w, Recorded(r, items[i].call), items[i].thread, items[i + 1..]);
      Intercept(wr, r, items[i]);
      EncAllConcat(w, ItemFields(r, cur, items[i]), rest);
      Assoc(before, EncAll(w, ItemFields(r, cur, items[i])), EncAll(w, rest));
      r := Recorded(r, items[i].call);
      i := i + 1;
    }
    NothingPut(w);
    assert items[i..] == [];
    assert wr.written + [] == wr.written;
    file := wr.Fini();
  }
}
