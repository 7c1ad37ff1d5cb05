/** What draws read, over all schedules. Only draws have a record that depends on the shadow state; they read the
    recorder's, and a replayer will read the record with the state that the records before it leave. The log is the
    serial encoding of its calls exactly when each of these reads gives what it gives in the replayer's state. */
module DrawReads {
  import opened Bytes
  import opened Options
  import opened Wire
  import opened TraceWriter
  import opened Calls
  import opened Trace
  import opened Interposer
  import opened Shadows
  import opened Records

  /** An interceptor that has not begun its record has all of it ahead. */
  ghost predicate ScriptOk(f: Frame) {
    match f.phase
    case AtLock(script) => WritesAll(f.item, script) && (f.item.call.DrawElements? ==> script == Script(f.item, 0))
    case Locked(script) => WritesAll(f.item, script) && (f.item.call.DrawElements? ==> script == Script(f.item, 0))
    case _ => true
  }

  ghost predicate ScriptsOk(s: World) {
    forall t, i :: t in s.stacks && 0 <= i < |s.stacks[t]| ==> ScriptOk(s.stacks[t][i])
  }

  /** What the outermost command of the owner still has to do. */
  function OpenRest(s: World): seq<Act> {
    if s.owner.Some? && Stack(s, s.owner.value) != [] && Stack(s, s.owner.value)[0].phase.Inside?
    then Stack(s, s.owner.value)[0].phase.rest
    else []
  }

  predicate OpenOk(s: World) { s.open.Some? ==> Completes(s.open.value, Logged(s), OpenRest(s)) }

  /** So far, every record holds what a replayer will expect. */
  predicate Good(s: World) { DoneOk(s.done) && OpenOk(s) }

  /** What an outermost command writes next is what it would write in the replayer's shadow state. */
  predicate ReadsAsLogged(s: World, m: Move) {
    m.Resume? ==>
      var st := Stack(s, m.t);
      |st| == 1 && st[0].phase.Inside? && st[0].phase.rest != [] ==>
        Writes(s.rec, st[0].item.call, st[0].phase.rest[0]) == Writes(Logged(s), st[0].item.call, st[0].phase.rest[0])
  }

  predicate DrawsRead(s: World, ms: seq<Move>)
    decreases |ms|
  {
    ms == [] || (ReadsAsLogged(s, ms[0]) && (Apply(s, ms[0]).Some? ==> DrawsRead(Apply(s, ms[0]).value, ms[1..])))
  }

  predicate OpenShape(s: World) { s.open.Some? ==> RecShape(s.open.value, Logged(s), OpenRest(s)) }

  ghost predicate Shaped(s: World) { ScriptsOk(s) && OpenShape(s) && DoneShape(s.done) }

  // ----- every step of every schedule

  /** While a record is open, its command is the owner's outermost one. */
  lemma OpenInside(s: World)
    requires Inv(s) && s.open.Some?
    ensures s.owner.Some? && Stack(s, s.owner.value) != [] && Stack(s, s.owner.value)[0].phase.Inside?
    ensures s.open.value.item == Stack(s, s.owner.value)[0].item
  {
    hide RecFields, Concat, Prefixed, LastThread;
  }

  /** Steps that leave the open record and its command alone. */
  lemma SameOpen(s: World, u: World)
    requires u.open == s.open && u.done == s.done && (s.open.Some? ==> OpenRest(u) == OpenRest(s))
    ensures Good(u) <==> Good(s)
    ensures OpenShape(s) && DoneShape(s.done) ==> OpenShape(u) && DoneShape(u.done)
  {
    hide DoneOk, DoneShape, Completes, RecShape, RecordedAll;
  }

  lemma CallReads(s: World, it: Item, cut: nat)
    requires Inv(s) && Shaped(s) && BeginCall(s, it, cut).Some?
    ensures var u := BeginCall(s, it, cut).value; Shaped(u) && (Good(u) <==> Good(s))
  {
    hide Script, Fields, ToWrite, OpenShape, DoneShape, Good, LogOk;
    var u := BeginCall(s, it, cut).value;
    var st := Stack(s, it.thread);
    assert WritesAll(it, Script(it, cut)) by {
      forall r ensures ToWrite(r, it.call, Script(it, cut)) == Fields(r, it.call) + Times(it) {
        ScriptWrites(r, it, cut);
      }
    }
    DrawScripts(it, cut);
    assert Stack(u, it.thread) == st + [Frame(it, AtLock(Script(it, cut)))];
    if s.open.Some? { OpenInside(s); }
    if s.owner.Some? && s.owner.value != it.thread { assert Stack(u, s.owner.value) == Stack(s, s.owner.value); }
    SameOpen(s, u);
  }

  lemma DrawScripts(it: Item, cut: nat)
    ensures it.call.DrawElements? ==> Script(it, cut) == Script(it, 0)
  {
  }

  /** The scripts of the other frames are not touched. */
  lemma ScriptsStayOk(s: World, u: World, t: Uint64, p: Phase)
    requires LockOk(s) && ScriptsOk(s) && Stack(s, t) != [] && u.stacks == SetTop(s, t, p)
    requires ScriptOk(Stack(s, t)[|Stack(s, t)| - 1].(phase := p))
    ensures ScriptsOk(u)
  {
    hide ScriptOk;
  }

  /** A step of a thread that is not the outermost command of the open record. */
  lemma OtherReads(s: World, u: World, t: Uint64, p: Phase)
    requires Inv(s) && Shaped(s) && Stack(s, t) != [] && u.stacks == SetTop(s, t, p)
    requires ScriptOk(Stack(s, t)[|Stack(s, t)| - 1].(phase := p))
    requires u.open == s.open && u.done == s.done
    requires s.open.Some? ==> u.owner == s.owner && (s.owner != Some(t) || |Stack(s, t)| > 1)
    ensures Shaped(u) && (Good(u) <==> Good(s))
  {
    hide Good, OpenShape, DoneShape, ScriptOk, RecFields, Concat, Prefixed, LastThread;
    ScriptsStayOk(s, u, t, p);
    SetTopOk(s, t, p);
    if s.open.Some? {
      OpenInside(s);
      if s.owner.value != t { assert Stack(u, s.owner.value) == Stack(s, s.owner.value); }
    }
    SameOpen(s, u);
  }

  lemma ScriptAt(s: World, t: Uint64)
    requires ScriptsOk(s) && Stack(s, t) != []
    ensures ScriptOk(Stack(s, t)[|Stack(s, t)| - 1])
  {
  }

  lemma LockReads(s: World, t: Uint64)
    requires Inv(s) && Shaped(s) && Stack(s, t) != [] && Stack(s, t)[|Stack(s, t)| - 1].phase.AtLock?
        && Go(s, t).Some?
    ensures var u := Go(s, t).value; Shaped(u) && (Good(u) <==> Good(s))
  {
    hide Good, OpenShape, DoneShape, ScriptsOk, WritesAll, RecFields, Concat, Prefixed, LastThread, Script;
    var st := Stack(s, t);
    ScriptAt(s, t);
    if s.open.Some? { OpenInside(s); }
    OtherReads(s, Go(s, t).value, t, Locked(st[|st| - 1].phase.script));
  }

  lemma EnterReads(s: World, t: Uint64)
    requires Inv(s) && Shaped(s) && Stack(s, t) != [] && Stack(s, t)[|Stack(s, t)| - 1].phase.Locked?
    ensures var u := Go(s, t).value; Shaped(u) && (Good(u) <==> Good(s))
  {
    hide DoneOk, DoneShape, ScriptsOk, RecFields, Concat, Prefixed, LastThread, Script, Fields, ToWrite, RecordedAll;
    var st := Stack(s, t);
    var u := Go(s, t).value;
    var p := Inside(st[|st| - 1].phase.script);
    ScriptAt(s, t);
    OwnerActs(s, t);
    SetTopOk(s, t, p);
    if s.reentrance > 0 {
      OtherReads(s, u, t, p);
    } else {
      ScriptsStayOk(s, u, t, p);
      OpensShaped(st[0].item, u.open.value, Logged(u), p.rest);
      assert OpenRest(u) == p.rest;
    }
  }

  /** A step of the open record's own command. */
  lemma OuterActReads(s: World, t: Uint64)
    requires Inv(s) && Shaped(s) && |Stack(s, t)| == 1
    requires Stack(s, t)[0].phase.Inside? && Stack(s, t)[0].phase.rest != []
    ensures var u := Go(s, t).value; Shaped(u) && (Good(u) <==> Good(s) && ReadsAsLogged(s, Resume(t)))
  {
    hide DoneOk, DoneShape, ScriptsOk, RecFields, Concat, Prefixed, LastThread, Fields, RecordedAll, Completes,
        RecShape, Writes, IndexField, AttribFields, Recorded, ScriptOk;
    var f := Stack(s, t)[0];
    var u := Go(s, t).value;
    var rest := f.phase.rest;
    OwnerActs(s, t);
    SetTopOk(s, t, Inside(rest[1..]));
    assert ScriptOk(f.(phase := Inside(rest[1..]))) by { InsideIsOk(f, rest[1..]); }
    ScriptsStayOk(s, u, t, Inside(rest[1..]));
    assert s.open.Some? && s.open.value.item == f.item;
    ActWrites(s, t);
    ActExactly(s.open.value, s.rec, Logged(s), rest);
    var next := s.open.value.(body := s.open.value.body + Writes(s.rec, f.item.call, rest[0]));
    UpdatedAside(next, u.open.value.updated, Logged(s), rest[1..]);
    assert OpenRest(s) == rest && OpenRest(u) == rest[1..];
  }

  lemma InsideIsOk(f: Frame, rest: seq<Act>)
    ensures ScriptOk(f.(phase := Inside(rest)))
  {
  }

  lemma ActWrites(s: World, t: Uint64)
    requires |Stack(s, t)| == 1 && Stack(s, t)[0].phase.Inside? && Stack(s, t)[0].phase.rest != []
    requires s.open.Some? && s.reentrance == 1
    ensures var u, f := Go(s, t).value, Stack(s, t)[0];
      && u.done == s.done && u.open.Some? && u.owner == s.owner
      && u.open.value == s.open.value.(body := s.open.value.body + Writes(s.rec, f.item.call, f.phase.rest[0]),
                                       updated := u.open.value.updated)
  {
    hide IndexField, AttribFields, Recorded;
    assert s.open.value.body + [] == s.open.value.body;
  }

  lemma NestedActReads(s: World, t: Uint64)
    requires Inv(s) && Shaped(s) && |Stack(s, t)| > 1
    requires Stack(s, t)[|Stack(s, t)| - 1].phase.Inside? && Stack(s, t)[|Stack(s, t)| - 1].phase.rest != []
    ensures var u := Go(s, t).value; Shaped(u) && (Good(u) <==> Good(s))
  {
    hide Good, OpenShape, DoneShape, ScriptsOk, RecFields, Concat, Prefixed, LastThread, IndexField, AttribFields,
        Recorded;
    var st := Stack(s, t);
    OwnerActs(s, t);
    OtherReads(s, Go(s, t).value, t, Inside(st[|st| - 1].phase.rest[1..]));
  }

  lemma LeaveReads(s: World, t: Uint64)
    requires Inv(s) && Shaped(s) && Stack(s, t) != []
    requires Stack(s, t)[|Stack(s, t)| - 1].phase.Inside? && Stack(s, t)[|Stack(s, t)| - 1].phase.rest == []
    ensures var u := Go(s, t).value; Shaped(u) && (Good(u) <==> Good(s))
  {
    hide DoneOk, DoneShape, ScriptsOk, RecFields, Concat, Prefixed, LastThread, RecordedAll, Completes, RecShape;
    var st := Stack(s, t);
    var u := Go(s, t).value;
    OwnerActs(s, t);
    if |st| > 1 {
      OtherReads(s, u, t, Exited);
    } else {
      ScriptsStayOk(s, u, t, Exited);
      assert OpenRest(s) == [];
      CloseRecord(s.done, s.open.value);
    }
  }

  lemma UnlockReads(s: World, t: Uint64)
    requires Inv(s) && Shaped(s) && Stack(s, t) != [] && Stack(s, t)[|Stack(s, t)| - 1].phase.Exited?
    ensures var u := Go(s, t).value; Shaped(u) && (Good(u) <==> Good(s))
  {
    hide Good, OpenShape, DoneShape, ScriptsOk, RecFields, Concat, Prefixed, LastThread;
    OwnerActs(s, t);
    OtherReads(s, Go(s, t).value, t, Unlocked);
  }

  lemma ReturnReads(s: World, t: Uint64)
    requires Inv(s) && Shaped(s) && Stack(s, t) != [] && Stack(s, t)[|Stack(s, t)| - 1].phase.Unlocked?
    ensures var u := Go(s, t).value; Shaped(u) && (Good(u) <==> Good(s))
  {
    hide Good, OpenShape, DoneShape, RecFields, Concat, Prefixed, LastThread, Recorded, ScriptOk;
    var st := Stack(s, t);
    var u := Go(s, t).value;
    OwnerActs(s, t);
    assert Stack(u, t) == st[..|st| - 1];
    forall t', i | t' in u.stacks && 0 <= i < |u.stacks[t']| ensures ScriptOk(u.stacks[t'][i]) {
      assert ScriptOk(s.stacks[t'][i]);
    }
    if s.open.Some? {
      OpenInside(s);
      if s.owner.value != t { assert Stack(u, s.owner.value) == Stack(s, s.owner.value); }
    }
    SameOpen(s, u);
  }

  /** One step of any schedule keeps the log as a replayer will expect it if and only if it was so and the step reads
      as logged. */
  lemma ApplyReads(s: World, m: Move)
    requires Inv(s) && Shaped(s) && Apply(s, m).Some?
    ensures var u := Apply(s, m).value; Shaped(u) && (Good(u) <==> Good(s) && ReadsAsLogged(s, m))
  {
    hide Inv, Shaped, Good, Script, BeginCall, Perform, Enter, Leave, Writes;
    match m
    case Begin(it, cut) => CallReads(s, it, cut);
    case Resume(t) =>
      var st := Stack(s, t);
      match st[|st| - 1].phase {
        case AtLock(_) => LockReads(s, t);
        case Locked(_) => EnterReads(s, t);
        case Inside(rest) =>
          if rest == [] { LeaveReads(s, t); }
          else if |st| == 1 { OuterActReads(s, t); }
          else { NestedActReads(s, t); }
        case Exited => UnlockReads(s, t);
        case Unlocked => ReturnReads(s, t);
      }
  }

  lemma {:induction false} ScheduleReads(s: World, ms: seq<Move>)
    requires Inv(s) && Shaped(s) && Run(s, ms).Some?
    ensures var u := Run(s, ms).value; Inv(u) && Shaped(u) && (Good(u) <==> Good(s) && DrawsRead(s, ms))
    decreases |ms|
  {
    hide Inv, Shaped, Good, ReadsAsLogged, Apply;
    if ms == [] {
    } else {
      ApplyKeepsInv(s, ms[0]);
      ApplyReads(s, ms[0]);
      ScheduleReads(Apply(s, ms[0]).value, ms[1..]);
    }
  }

  /** The log of any schedule, with any interleaving and any nesting, is the serial encoding of its outermost calls, in
      the order in which their records were opened, if and only if every draw among them read what it would have read
      in the shadow state of the records before it. */
  lemma LogIsTraceExactly(ms: seq<Move>, s: World)
    requires Run(START, ms) == Some(s) && s.open.None?
    ensures s.log == TraceFields(InitialRecorder(), 0, Items(s.done)) <==> DrawsRead(START, ms)
  {
    hide Run, DrawsRead, LockOk, Prefixed, Concat, TraceFields, Items, ScriptsOk, DoneShape, DoneOk, InitialRecorder;
    StartInv();
    StartShaped();
    ScheduleReads(START, ms);
    assert s.done[..|s.done|] == s.done;
    if s.log == TraceFields(InitialRecorder(), 0, Items(s.done)) { TraceIsGood(s.done, |s.done|); }
    if DoneOk(s.done) { LogIsTrace(s.done); }
  }

  lemma StartShaped()
    ensures Shaped(START) && Good(START)
  {
  }

  /** End to end: whatever the threads, the interleaving and the nesting, a schedule whose draws read as logged and
      whose calls are recordable leaves a log that, behind the header, is a trace file; replaying it plays exactly the
      outermost calls, in the order of their records, with the values, times and threads they had, exactly when all
      their attribute lists fit the replayer's buffer. */
  lemma ScheduleReplays(w: nat, exec: bool, ms: seq<Move>, s: World)
    requires WordSize(w) && Run(START, ms) == Some(s) && DrawsRead(START, ms) && s.open.None?
    requires TraceOk(w, InitialRecorder(), Items(s.done))
    ensures FieldsOk(w, Header(w)) && FieldsOk(w, s.log)
    ensures PlaysBack(w, exec, Items(s.done), EncAll(w, Header(w)) + EncAll(w, s.log)) <==> AllFit(Items(s.done))
  {
    hide Run, DrawsRead, EncAll, TraceOk, AllFit, FieldOk, PlaysBack, Header, Items, TraceFields, InitialRecorder;
    LogIsTraceExactly(ms, s);
    TraceFieldsOk(w, InitialRecorder(), 0, Items(s.done));
    HeaderOk(w);
    TraceRoundTrip(w, exec, Items(s.done));
  }
}
