/** What becomes of the shadow state over all schedules. The recorder's is that of the changes made last, a replayer's
    that of the changes logged last. The two differ when binds are assigned, after the unlock, in another order than
    they were logged, and when an original function calls back into an interceptor that changes the state: that change
    is made, but not logged. */
module ShadowOrders {
  import opened Sequences
  import opened Bytes
  import opened Options
  import opened VertexArrays
  import opened Calls
  import opened Trace
  import opened Interposer
  import opened Shadows

  // ----- the shadow state is that of the changes made

  /** The changes of the shadow state a schedule makes, in that order: attribute updates inside their interceptor, binds
      when their thread returns from it; nested calls included. */
  function Made(s: World, ms: seq<Move>): seq<Call>
    decreases |ms|
  {
    if ms == [] || Apply(s, ms[0]).None? then [] else MadeBy(s, ms[0]) + Made(Apply(s, ms[0]).value, ms[1..])
  }

  function MadeBy(s: World, m: Move): seq<Call> {
    if m.Begin? || Stack(s, m.t) == [] then []
    else
      var f := Stack(s, m.t)[|Stack(s, m.t)| - 1];
      match f.phase
      case Inside(rest) => if rest != [] && rest[0] == Update then [f.item.call] else []
      case Unlocked => if f.item.call.BindBuffer? then [f.item.call] else []
      case _ => []
  }

  function After(r: Recorder, calls: seq<Call>): Recorder {
    if calls == [] then r else Recorded(After(r, calls[..|calls| - 1]), calls[|calls| - 1])
  }

  lemma AfterAppend(r: Recorder, calls: seq<Call>, c: Call)
    ensures After(r, calls + [c]) == Recorded(After(r, calls), c)
  {
    hide Recorded;
    assert (calls + [c])[..|calls|] == calls;
  }

  lemma StepMakes(s: World, m: Move)
    requires Apply(s, m).Some?
    ensures var u := Apply(s, m).value;
      |MadeBy(s, m)| <= 1 && u.rec == if MadeBy(s, m) == [] then s.rec else Recorded(s.rec, MadeBy(s, m)[0])
  {
    hide Recorded, Script, IndexField, AttribFields, RecFields;
  }

  /** Over every schedule, whatever the interleaving and the nesting. */
  lemma {:induction false} ChangesMade(r: Recorder, calls: seq<Call>, s: World, ms: seq<Move>)
    requires s.rec == After(r, calls) && Run(s, ms).Some?
    ensures Run(s, ms).value.rec == After(r, calls + Made(s, ms))
    decreases |ms|
  {
    hide Apply, MadeBy, After, Recorded;
    if ms == [] {
      assert calls + [] == calls;
    } else {
      var u, made := Apply(s, ms[0]).value, MadeBy(s, ms[0]);
      StepMakes(s, ms[0]);
      if made == [] {
        assert calls + made == calls;
      } else {
        assert made == [made[0]];
        AfterAppend(r, calls, made[0]);
      }
      ChangesMade(r, calls + made, u, ms[1..]);
      Assoc(calls, made, Made(u, ms[1..]));
    }
  }

  // ----- what the last change to each part decides

  /** The buffer of the last bind to a target. */
  function LastBound(target: Int32, calls: seq<Call>): Int32 {
    if calls == [] then 0
    else
      var c := calls[|calls| - 1];
      if c.BindBuffer? && c.target == target then c.buffer else LastBound(target, calls[..|calls| - 1])
  }

  /** Whether the last call to enable or disable an attribute enabled it. */
  function LastEnabled(i: Int32, calls: seq<Call>): bool {
    calls != [] &&
    var c := calls[|calls| - 1];
    if c.SetVertexAttribArray? && c.index == i then c.enable else LastEnabled(i, calls[..|calls| - 1])
  }

  /** The arguments of the last glVertexAttribPointer on an attribute. */
  function LastPointer(i: Int32, calls: seq<Call>): (Int32, Int32, Int32, Int32, Uint64) {
    if calls == [] then (0, 0, 0, 0, 0)
    else
      var c := calls[|calls| - 1];
      if c.VertexAttribPointer? && c.index == i then (c.size, c.typ, c.normalized, c.stride, c.pointer)
      else LastPointer(i, calls[..|calls| - 1])
  }

  function AttribAs(i: Int32, calls: seq<Call>): Attrib {
    var p := LastPointer(i, calls);
    Attrib(LastEnabled(i, calls), p.0, p.1, p.2, p.3, p.4)
  }

  /** The bindings, and the attribute table, are those of the last changes. */
  predicate BoundAs(r: Recorder, calls: seq<Call>) {
    r.arrayBuffer == LastBound(GL_ARRAY_BUFFER, calls) && r.elementBuffer == LastBound(GL_ELEMENT_ARRAY_BUFFER, calls)
  }

  predicate SetAs(r: Recorder, calls: seq<Call>) {
    |r.attribs| == MAX_VERTEX_ATTRIBS
    && forall i :: 0 <= i < MAX_VERTEX_ATTRIBS ==> r.attribs[i] == AttribAs(i, calls)
  }

  lemma LastAppend(calls: seq<Call>, c: Call, target: Int32, i: Int32)
    ensures LastBound(target, calls + [c])
      == if c.BindBuffer? && c.target == target then c.buffer else LastBound(target, calls)
    ensures LastEnabled(i, calls + [c])
      == if c.SetVertexAttribArray? && c.index == i then c.enable else LastEnabled(i, calls)
    ensures LastPointer(i, calls + [c])
      == if c.VertexAttribPointer? && c.index == i then (c.size, c.typ, c.normalized, c.stride, c.pointer)
         else LastPointer(i, calls)
  {
    assert (calls + [c])[..|calls|] == calls;
  }

  lemma LastChange(r: Recorder, calls: seq<Call>, c: Call)
    requires BoundAs(r, calls) && SetAs(r, calls)
    ensures BoundAs(Recorded(r, c), calls + [c]) && SetAs(Recorded(r, c), calls + [c])
  {
    hide LastBound, LastEnabled, LastPointer;
    LastAppend(calls, c, GL_ARRAY_BUFFER, 0);
    LastAppend(calls, c, GL_ELEMENT_ARRAY_BUFFER, 0);
    forall i | 0 <= i < MAX_VERTEX_ATTRIBS ensures Recorded(r, c).attribs[i] == AttribAs(i, calls + [c]) {
      LastAppend(calls, c, 0, i);
    }
  }

  lemma {:induction false} LastDecides(calls: seq<Call>)
    ensures var r := After(InitialRecorder(), calls); BoundAs(r, calls) && SetAs(r, calls)
    decreases |calls|
  {
    hide Recorded, LastBound, LastEnabled, LastPointer, BoundAs, SetAs;
    if calls == [] {
      NothingChanged();
    } else {
      var init := calls[..|calls| - 1];
      LastDecides(init);
      LastChange(After(InitialRecorder(), init), init, calls[|calls| - 1]);
      assert init + [calls[|calls| - 1]] == calls;
    }
  }

  lemma NothingChanged()
    ensures BoundAs(InitialRecorder(), []) && SetAs(InitialRecorder(), [])
    ensures RecordedAll(InitialRecorder(), []) == InitialRecorder()
  {
  }

  function CallsOf(items: seq<Item>): seq<Call> {
    seq(|items|, i requires 0 <= i < |items| => items[i].call)
  }

  lemma {:induction false} LoggedAfter(items: seq<Item>)
    ensures RecordedAll(InitialRecorder(), items) == After(InitialRecorder(), CallsOf(items))
    decreases |items|
  {
    hide Recorded, InitialRecorder;
    if items == [] {
    } else {
      var init, it := items[..|items| - 1], items[|items| - 1];
      LoggedAfter(init);
      assert init + [it] == items && CallsOf(items)[..|items| - 1] == CallsOf(init);
      RecordedAllAppend(InitialRecorder(), init, it);
    }
  }

  predicate SameBindings(a: seq<Call>, b: seq<Call>) {
    && LastBound(GL_ARRAY_BUFFER, a) == LastBound(GL_ARRAY_BUFFER, b)
    && LastBound(GL_ELEMENT_ARRAY_BUFFER, a) == LastBound(GL_ELEMENT_ARRAY_BUFFER, b)
  }

  predicate SameAttribs(a: seq<Call>, b: seq<Call>) {
    forall i :: 0 <= i < MAX_VERTEX_ATTRIBS ==>
      LastEnabled(i, a) == LastEnabled(i, b) && LastPointer(i, a) == LastPointer(i, b)
  }

  /** Two lists of changes leave the same bindings, and the same attributes, exactly when the last change to each part
      is the same. */
  lemma LastChangesDecide(a: seq<Call>, b: seq<Call>)
    ensures var r, q := After(InitialRecorder(), a), After(InitialRecorder(), b);
      && (r.arrayBuffer == q.arrayBuffer && r.elementBuffer == q.elementBuffer <==> SameBindings(a, b))
      && (r.attribs == q.attribs <==> SameAttribs(a, b))
  {
    hide After, LastBound, LastEnabled, LastPointer, InitialRecorder;
    var r, q := After(InitialRecorder(), a), After(InitialRecorder(), b);
    LastDecides(a);
    LastDecides(b);
    if r.attribs == q.attribs {
      forall i | 0 <= i < MAX_VERTEX_ATTRIBS
        ensures LastEnabled(i, a) == LastEnabled(i, b) && LastPointer(i, a) == LastPointer(i, b)
      {
        assert r.attribs[i] == q.attribs[i];
      }
    }
    if SameAttribs(a, b) {
      assert forall i :: 0 <= i < MAX_VERTEX_ATTRIBS ==> r.attribs[i] == q.attribs[i];
    }
  }

  /** Over every schedule, with any interleaving and any nesting: recorder and replayer have the same bindings if and
      only if, for both targets, the bind assigned last and the bind logged last bind the same buffer, and they have the
      same attribute table if and only if, for every attribute, the last enabling and the last format that were set are
      those that were logged. */
  lemma OrdersAgreeExactly(ms: seq<Move>, s: World)
    requires Run(START, ms) == Some(s)
    ensures var made, logged := Made(START, ms), CallsOf(Items(s.done));
      && (s.rec.arrayBuffer == Logged(s).arrayBuffer && s.rec.elementBuffer == Logged(s).elementBuffer
          <==> SameBindings(made, logged))
      && (s.rec.attribs == Logged(s).attribs <==> SameAttribs(made, logged))
      && (s.rec == Logged(s) <==> SameBindings(made, logged) && SameAttribs(made, logged))
  {
    hide Run, Recorded, RecordedAll, Made, SameBindings, SameAttribs, InitialRecorder;
    assert START.rec == After(InitialRecorder(), []) by { StartRecorder(); }
    ChangesMade(InitialRecorder(), [], START, ms);
    assert [] + Made(START, ms) == Made(START, ms);
    LoggedAfter(Items(s.done));
    LastChangesDecide(Made(START, ms), CallsOf(Items(s.done)));
  }

  // ----- attributes never get out of step without nested changes

  /** The original functions do not call back into state-changing interceptors. */
  predicate Quiet(s: World, m: Move) { m.Begin? && Stack(s, m.it.thread) != [] ==> !Changes(m.it.call) }

  predicate QuietRun(s: World, ms: seq<Move>)
    decreases |ms|
  {
    ms == [] || (Quiet(s, ms[0]) && (Apply(s, ms[0]).Some? ==> QuietRun(Apply(s, ms[0]).value, ms[1..])))
  }

  /** The attribute table is what a replayer of the log has, ahead of the open record's update. */
  predicate InStep(s: World) { FramesOk(s) && s.rec.attribs == LoggedAhead(s).attribs }

  lemma AttribsOnly(r: Recorder, q: Recorder, c: Call)
    requires r.attribs == q.attribs
    ensures Recorded(r, c).attribs == Recorded(q, c).attribs
    ensures !UpdatesInside(c) ==> Recorded(r, c).attribs == r.attribs
  {
  }

  lemma CallInStep(s: World, it: Item, cut: nat)
    requires Inv(s) && InStep(s) && Quiet(s, Begin(it, cut)) && BeginCall(s, it, cut).Some?
    ensures InStep(BeginCall(s, it, cut).value)
  {
    hide Script, Recorded, RecordedAll, LogOk;
    ScriptUpdates(it, cut);
    var u := BeginCall(s, it, cut).value;
    var st := Stack(s, it.thread);
    assert Stack(u, it.thread) == st + [Frame(it, AtLock(Script(it, cut)))];
    forall t, i | t in u.stacks && 0 <= i < |u.stacks[t]| ensures FrameOk(u, t, i) {
      if t != it.thread || i < |st| { assert FrameOk(s, t, i); }
    }
  }

  lemma LockInStep(s: World, t: Uint64)
    requires Inv(s) && InStep(s) && Stack(s, t) != [] && Go(s, t).Some?
    requires Stack(s, t)[|Stack(s, t)| - 1].phase.AtLock? || Stack(s, t)[|Stack(s, t)| - 1].phase.Exited?
    ensures InStep(Go(s, t).value)
  {
    hide Recorded, RecordedAll, LogOk, FramesOk;
    var st := Stack(s, t);
    var top := st[|st| - 1].phase;
    var p := if top.AtLock? then Locked(top.script) else Unlocked;
    SetTopOk(s, t, p);
    FrameAt(s, t, |st| - 1);
    OtherFrames(s, Go(s, t).value, t, p);
  }

  lemma EnterInStep(s: World, t: Uint64)
    requires Inv(s) && InStep(s) && Stack(s, t) != [] && Stack(s, t)[|Stack(s, t)| - 1].phase.Locked?
    ensures InStep(Go(s, t).value)
  {
    hide Recorded, RecordedAll, RecFields, Concat, Prefixed, LastThread, Updates, FramesOk;
    var st := Stack(s, t);
    var p := Inside(st[|st| - 1].phase.script);
    SetTopOk(s, t, p);
    OwnerActs(s, t);
    FrameAt(s, t, |st| - 1);
    OtherFrames(s, Go(s, t).value, t, p);
  }

  lemma PutInStep(s: World, t: Uint64)
    requires Inv(s) && InStep(s) && Stack(s, t) != []
    requires Stack(s, t)[|Stack(s, t)| - 1].phase.Inside? && Stack(s, t)[|Stack(s, t)| - 1].phase.rest != []
    requires Stack(s, t)[|Stack(s, t)| - 1].phase.rest[0] != Update
    ensures InStep(Go(s, t).value)
  {
    hide Recorded, RecordedAll, RecFields, Concat, Prefixed, LastThread, IndexField, AttribFields, FramesOk, LogOk;
    var st := Stack(s, t);
    var p := Inside(st[|st| - 1].phase.rest[1..]);
    SetTopOk(s, t, p);
    FrameAt(s, t, |st| - 1);
    OtherFrames(s, Go(s, t).value, t, p);
  }

  lemma UpdateInStep(s: World, t: Uint64)
    requires Inv(s) && InStep(s) && Stack(s, t) != []
    requires Stack(s, t)[|Stack(s, t)| - 1].phase.Inside? && Stack(s, t)[|Stack(s, t)| - 1].phase.rest != []
    requires Stack(s, t)[|Stack(s, t)| - 1].phase.rest[0] == Update
    ensures InStep(Go(s, t).value)
  {
    hide Recorded, RecordedAll, RecFields, Concat, Prefixed, LastThread, FramesOk;
    var st := Stack(s, t);
    var f := st[|st| - 1];
    var p := Inside(f.phase.rest[1..]);
    SetTopOk(s, t, p);
    OwnerActs(s, t);
    FrameAt(s, t, |st| - 1);
    assert |st| == 1 && s.open.value.item == f.item && !s.open.value.updated;
    OtherFrames(s, Go(s, t).value, t, p);
    AttribsOnly(s.rec, Logged(s), f.item.call);
  }

  lemma LeaveInStep(s: World, t: Uint64)
    requires Inv(s) && InStep(s) && Stack(s, t) != []
    requires Stack(s, t)[|Stack(s, t)| - 1].phase.Inside? && Stack(s, t)[|Stack(s, t)| - 1].phase.rest == []
    ensures InStep(Go(s, t).value)
  {
    hide Recorded, RecordedAll, RecFields, Concat, Prefixed, LastThread, FramesOk;
    var st := Stack(s, t);
    var f := st[|st| - 1];
    var u := Go(s, t).value;
    SetTopOk(s, t, Exited);
    OwnerActs(s, t);
    FrameAt(s, t, |st| - 1);
    OtherFrames(s, u, t, Exited);
    if |st| == 1 {
      assert Items(u.done) == Items(s.done) + [f.item];
      RecordedAllAppend(InitialRecorder(), Items(s.done), f.item);
      AttribsOnly(Logged(s), Logged(s), f.item.call);
    }
  }

  lemma ReturnInStep(s: World, t: Uint64)
    requires Inv(s) && InStep(s) && Stack(s, t) != [] && Stack(s, t)[|Stack(s, t)| - 1].phase.Unlocked?
    ensures InStep(Go(s, t).value)
  {
    hide Recorded, RecordedAll, LogOk;
    var st := Stack(s, t);
    var u := Go(s, t).value;
    AttribsOnly(s.rec, s.rec, st[|st| - 1].item.call);
    assert Stack(u, t) == st[..|st| - 1];
    forall t', i | t' in u.stacks && 0 <= i < |u.stacks[t']| ensures FrameOk(u, t', i) {
      assert FrameOk(s, t', i);
    }
  }

  lemma ApplyInStep(s: World, m: Move)
    requires Inv(s) && InStep(s) && Quiet(s, m) && Apply(s, m).Some?
    ensures InStep(Apply(s, m).value)
  {
    hide Inv, InStep, Script, BeginCall, Perform, Enter, Leave, Recorded;
    match m
    case Begin(it, cut) => CallInStep(s, it, cut);
    case Resume(t) =>
      var st := Stack(s, t);
      match st[|st| - 1].phase {
        case AtLock(_) => LockInStep(s, t);
        case Locked(_) => EnterInStep(s, t);
        case Inside(rest) =>
          if rest == [] { LeaveInStep(s, t); }
          else if rest[0] == Update { UpdateInStep(s, t); }
          else { PutInStep(s, t); }
        case Exited => LockInStep(s, t);
        case Unlocked => ReturnInStep(s, t);
      }
  }

  /** Over every schedule without state changes in nested calls, the attribute table stays in step with the log. */
  lemma {:induction false} QuietSchedule(s: World, ms: seq<Move>)
    requires Inv(s) && InStep(s) && Run(s, ms).Some? && QuietRun(s, ms)
    ensures var u := Run(s, ms).value; Inv(u) && InStep(u)
    decreases |ms|
  {
    hide Inv, InStep, Quiet, Apply;
    if ms == [] {
    } else {
      ApplyKeepsInv(s, ms[0]);
      ApplyInStep(s, ms[0]);
      QuietSchedule(Apply(s, ms[0]).value, ms[1..]);
    }
  }

  /** Between the records of such a schedule only the bindings can disagree. */
  lemma QuietAgreesExactly(ms: seq<Move>, s: World)
    requires Run(START, ms) == Some(s) && QuietRun(START, ms) && s.open.None?
    ensures s.rec == Logged(s) <==> SameBindings(Made(START, ms), CallsOf(Items(s.done)))
  {
    hide Inv, QuietRun, Run, Recorded, RecordedAll, FramesOk, Made, SameBindings, SameAttribs;
    StartInv();
    StartInStep();
    QuietSchedule(START, ms);
    OrdersAgreeExactly(ms, s);
  }

  lemma StartRecorder()
    ensures START.rec == After(InitialRecorder(), [])
  {
  }

  lemma StartInStep()
    ensures InStep(START)
  {
  }
}
