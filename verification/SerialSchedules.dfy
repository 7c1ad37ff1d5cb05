/** A discipline under which every draw reads as logged, and which a program can keep: no state changes in nested
    calls, no bind logged and no draw opened while a bind is unapplied. */
module SerialSchedules {
  import opened Options
  import opened Wire
  import opened TraceWriter
  import opened Calls
  import opened Trace
  import opened Interposer
  import opened Shadows
  import opened Records
  import opened DrawReads

  /** The thread is about to open the record of a draw. */
  predicate OpensDraw(s: World, m: Move) {
    m.Resume? &&
    var st := Stack(s, m.t);
    st != [] && st[|st| - 1].phase.Locked? && st[|st| - 1].item.call.DrawElements? && s.reentrance == 0
  }

  predicate Serial(s: World, m: Move) { Calm(s, m) && (OpensDraw(s, m) ==> s.unapplied == []) }

  predicate SerialRun(s: World, ms: seq<Move>)
    decreases |ms|
  {
    ms == [] || (Serial(s, ms[0]) && (Apply(s, ms[0]).Some? ==> SerialRun(Apply(s, ms[0]).value, ms[1..])))
  }

  /** While the record of a draw is open, nothing is unapplied. */
  predicate DrawAlone(s: World) { s.open.Some? && s.open.value.item.call.DrawElements? ==> s.unapplied == [] }

  lemma StaysAlone(s: World, m: Move)
    requires Inv(s) && DrawAlone(s) && Serial(s, m) && Apply(s, m).Some?
    ensures DrawAlone(Apply(s, m).value)
  {
    hide Script, IndexField, AttribFields, Recorded, RecFields, Concat, Prefixed, LastThread, LockOk, Calm;
    CountsCommands(s);
    if m.Resume? && s.unapplied == [] { assert Without(s.unapplied, m.t) == []; }
  }

  lemma CountsCommands(s: World)
    requires Inv(s)
    ensures s.reentrance >= 0
  {
  }

  /** A draw then reads the shadow state a replayer will have. */
  lemma AloneReads(s: World, m: Move)
    requires Inv(s) && Sync(s) && DrawAlone(s)
    ensures ReadsAsLogged(s, m)
  {
    hide Writes, RecordedAll, FramesOk, UnappliedOk, RecFields, Concat, Prefixed, LastThread;
    if m.Resume? && |Stack(s, m.t)| == 1 && Stack(s, m.t)[0].phase.Inside? && Stack(s, m.t)[0].phase.rest != [] {
      var f := Stack(s, m.t)[0];
      OwnerActs(s, m.t);
      assert s.open.Some? && s.open.value.item == f.item;
      if !f.item.call.DrawElements? { WritesIndependent(s.rec, Logged(s), f.item.call, f.phase.rest[0]); }
    }
  }

  /** Every draw of a serial schedule reads as logged. */
  lemma {:induction false} SerialSchedule(s: World, ms: seq<Move>)
    requires Inv(s) && Sync(s) && DrawAlone(s) && Run(s, ms).Some? && SerialRun(s, ms)
    ensures DrawsRead(s, ms)
    decreases |ms|
  {
    hide Inv, Sync, DrawAlone, Calm, Apply, ReadsAsLogged, OpensDraw;
    if ms == [] {
    } else {
      ApplyKeepsInv(s, ms[0]);
      ApplyKeepsSync(s, ms[0]);
      StaysAlone(s, ms[0]);
      AloneReads(s, ms[0]);
      SerialSchedule(Apply(s, ms[0]).value, ms[1..]);
    }
  }

  /** So its log is a trace, and replays. */
  lemma SerialScheduleReplays(w: nat, exec: bool, ms: seq<Move>, s: World)
    requires WordSize(w) && Run(START, ms) == Some(s) && SerialRun(START, ms) && s.open.None?
    requires TraceOk(w, InitialRecorder(), Items(s.done))
    ensures FieldsOk(w, Header(w)) && FieldsOk(w, s.log)
    ensures s.log == TraceFields(InitialRecorder(), 0, Items(s.done))
    ensures PlaysBack(w, exec, Items(s.done), EncAll(w, Header(w)) + EncAll(w, s.log)) <==> AllFit(Items(s.done))
  {
    hide Run, SerialRun, DrawsRead, Sync, EncAll, TraceOk, AllFit, FieldOk, PlaysBack, Header, Items, TraceFields,
        InitialRecorder;
    StartInv();
    StartSync();
    SerialSchedule(START, ms);
    LogIsTraceExactly(ms, s);
    ScheduleReplays(w, exec, ms, s);
  }
}
