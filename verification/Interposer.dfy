/** The interceptors under concurrency. Every thread runs `putCmd`, its puts, the original function and
    `putTime` under one recursive mutex; the original function may call back into interceptors. A schedule
    is any interleaving of the threads' single steps. */
module Interposer {
  import opened Sequences
  import opened Bytes
  import opened Options
  import opened Wire
  import opened TraceWriter
  import opened Calls
  import opened Trace

  /** What an interceptor still has to do between `putCmd` and `endCmd`. */
  datatype Act =
    | Put(f: Field)
    | PutIndices            // glDrawElements: reads elementArrayBufferBinding
    | PutAttribs            // glDrawElements: reads arrayBufferBinding and vertexAttrib[]
    | Orig                  // inside the original function
    | Update                // vertexAttrib[index] = ...

  /** `AtLock`: about to lock; `Locked`: about to increment `reentrance`; `Inside`: between the two
      halves of the record; `Exited`: about to unlock; `Unlocked`: about to return. */
  datatype Phase = AtLock(script: seq<Act>) | Locked(script: seq<Act>) | Inside(rest: seq<Act>) | Exited | Unlocked

  datatype Frame = Frame(item: Item, phase: Phase)

  /** A record in the log: its call, whether a thread prefix precedes it, the fields put so far, and
      whether the interceptor has already updated the attribute table. */
  datatype Rec = Rec(item: Item, prefixed: bool, body: seq<Field>, updated: bool)

  /** The lock, the static variables of the recorder and the call stacks of the threads. `done`, `open`
      and `unapplied` only observe: the records of the log, and the binds that are logged while their
      assignment to the shadow binding, which follows the unlock, is still outstanding. */
  datatype World = World(
    owner: Option<Uint64>, holds: int, reentrance: int, curThread: Uint64, log: seq<Field>, rec: Recorder,
    stacks: map<Uint64, seq<Frame>>, done: seq<Rec>, open: Option<Rec>, unapplied: seq<(Uint64, Call)>)

  const START: World :=
    World(None, 0, 0, 0, [], InitialRecorder(), map[], [], None, [])

  function Puts(fs: seq<Field>): seq<Act> {
    seq(|fs|, i requires 0 <= i < |fs| => Put(fs[i]))
  }

  /** The body of the interceptor of a call; `cut` says how many fields are put before the original
      function is called, for the calls that also log results. */
  function Script(it: Item, cut: nat): seq<Act> {
    var c := it.call;
    var fs := Fields(InitialRecorder(), c);
    var times := Puts([FU64(it.bgn), FU64(it.end)]);
    match c
    case DrawElements(m, n, t, _, _) => Puts([FInt(m), FInt(n), FInt(t)]) + [PutIndices, PutAttribs, Orig] + times
    case VertexAttribPointer(_, _, _, _, _, _) => Puts(fs) + [Update, Orig] + times
    case SetVertexAttribArray(_, _) => Puts(fs) + [Orig, Update] + times
    case _ =>
      var k := if cut <= |fs| then cut else |fs|;
      Puts(fs[..k]) + [Orig] + Puts(fs[k..]) + times
  }

  function Stack(s: World, t: Uint64): seq<Frame> {
    if t in s.stacks then s.stacks[t] else []
  }

  function SetTop(s: World, t: Uint64, p: Phase): map<Uint64, seq<Frame>>
    requires Stack(s, t) != []
  {
    var st := Stack(s, t);
    s.stacks[t := st[..|st| - 1] + [st[|st| - 1].(phase := p)]]
  }

  /** A thread may start a call when it is in no interceptor, or inside an original function. */
  predicate CanCall(st: seq<Frame>) {
    st == [] || (st[|st| - 1].phase.Inside? && st[|st| - 1].phase.rest != [] && st[|st| - 1].phase.rest[0] == Orig)
  }

  function BeginCall(s: World, it: Item, cut: nat): Option<World> {
    var st := Stack(s, it.thread);
    if CanCall(st) then Some(s.(stacks := s.stacks[it.thread := st + [Frame(it, AtLock(Script(it, cut)))]])) else None
  }

  function RecFields(rc: Rec): seq<Field> {
    (if rc.prefixed then [FInt(OPC_THREAD)] + [FPtr(rc.item.thread)] else []) + ([FInt(Op(rc.item.call))] + rc.body)
  }

  /** `putCmd` after the lock has been taken. */
  function Enter(s: World, t: Uint64, it: Item, script: seq<Act>): World
    requires Stack(s, t) != []
  {
    var u := s.(reentrance := s.reentrance + 1, stacks := SetTop(s, t, Inside(script)));
    if u.reentrance > 1 then u
    else
      var rc := Rec(it, t != s.curThread, [], false);
      u.(curThread := t, log := s.log + RecFields(rc), open := Some(rc))
  }

  /** A `put`: nothing is written while `reentrance > 1`. */
  function Emit(s: World, fs: seq<Field>): World {
    if s.reentrance > 1 then s
    else
      s.(log := s.log + fs,
         open := if s.open.Some? then Some(s.open.value.(body := s.open.value.body + fs)) else None)
  }

  function Perform(s: World, c: Call, a: Act): World {
    match a
    case Put(f) => Emit(s, [f])
    case PutIndices => if c.DrawElements? then Emit(s, [IndexField(s.rec, c)]) else s
    case PutAttribs => if c.DrawElements? then Emit(s, AttribFields(s.rec, c)) else s
    case Orig => s
    case Update =>
      s.(rec := Recorded(s.rec, c),
         open := if s.reentrance <= 1 && s.open.Some? then Some(s.open.value.(updated := true)) else s.open)
  }

  /** `endCmd` up to the unlock. */
  function Leave(s: World, t: Uint64, c: Call): World
    requires Stack(s, t) != []
  {
    var u := s.(reentrance := s.reentrance - 1, stacks := SetTop(s, t, Exited));
    if s.reentrance != 1 || s.open.None? then u
    else
      u.(done := s.done + [s.open.value], open := None,
         unapplied := if c.BindBuffer? then s.unapplied + [(t, c)] else s.unapplied)
  }

  function Without(q: seq<(Uint64, Call)>, t: Uint64): seq<(Uint64, Call)> {
    if q == [] then [] else (if q[0].0 == t then [] else [q[0]]) + Without(q[1..], t)
  }

  /** The next step of thread `t`; `None` while it waits for the lock or has nothing to do. */
  function Go(s: World, t: Uint64): Option<World> {
    var st := Stack(s, t);
    if st == [] then None
    else
      var f := st[|st| - 1];
      match f.phase
      case AtLock(script) =>
        if s.owner == None || s.owner == Some(t) then
          Some(s.(owner := Some(t), holds := s.holds + 1, stacks := SetTop(s, t, Locked(script))))
        else None
      case Locked(script) => Some(Enter(s, t, f.item, script))
      case Inside(rest) =>
        if rest == [] then Some(Leave(s, t, f.item.call))
        else Some(Perform(s, f.item.call, rest[0]).(stacks := SetTop(s, t, Inside(rest[1..]))))
      case Exited =>
        Some(s.(holds := s.holds - 1, owner := if s.holds == 1 then None else s.owner,
          stacks := SetTop(s, t, Unlocked)))
      case Unlocked =>
        Some(s.(rec := if f.item.call.BindBuffer? then Recorded(s.rec, f.item.call) else s.rec,
                unapplied := if |st| == 1 then Without(s.unapplied, t) else s.unapplied,
                stacks := s.stacks[t := st[..|st| - 1]]))
  }

  datatype Move = Begin(it: Item, cut: nat) | Resume(t: Uint64)

  function Apply(s: World, m: Move): Option<World> {
    match m
    case Begin(it, cut) => BeginCall(s, it, cut)
    case Resume(t) => Go(s, t)
  }

  /** A schedule, as far as every move of it is enabled. */
  function Run(s: World, ms: seq<Move>): Option<World>
    decreases |ms|
  {
    if ms == [] then Some(s)
    else
      match Apply(s, ms[0])
      case None => None
      case Some(u) => Run(u, ms[1..])
  }

  // ----- the lock and the log, over all schedules

  /** How often a thread with this stack holds the mutex, and how many of its commands count in `reentrance`. */
  function Holds(st: seq<Frame>): nat {
    if st == [] then 0
    else if st[|st| - 1].phase.AtLock? || st[|st| - 1].phase.Unlocked? then |st| - 1 else |st|
  }

  function Depth(st: seq<Frame>): nat {
    if st == [] then 0 else if st[|st| - 1].phase.Inside? then |st| else |st| - 1
  }

  predicate StackOk(st: seq<Frame>, t: Uint64) {
    && (forall i :: 0 <= i < |st| ==> st[i].item.thread == t)
    && (forall i :: 0 <= i < |st| - 1 ==> st[i].phase.Inside?)
  }

  predicate LockOk(s: World) {
    && (forall t :: t in s.stacks ==> StackOk(s.stacks[t], t))
    && (forall t :: t in s.stacks && s.owner != Some(t) ==> Holds(s.stacks[t]) == 0)
    && (s.owner.None? ==> s.holds == 0 && s.reentrance == 0)
    && (s.owner.Some? ==>
          var st := Stack(s, s.owner.value);
          s.holds == Holds(st) > 0 && s.reentrance == Depth(st))
  }

  function Concat(rs: seq<Rec>): seq<Field> {
    if rs == [] then [] else Concat(rs[..|rs| - 1]) + RecFields(rs[|rs| - 1])
  }

  function LastThread(rs: seq<Rec>): Uint64 {
    if rs == [] then 0 else rs[|rs| - 1].item.thread
  }

  /** A thread prefix precedes exactly the records whose thread is not that of the record before. */
  predicate Prefixed(rs: seq<Rec>) {
    forall i :: 0 <= i < |rs| ==> (rs[i].prefixed <==> rs[i].item.thread != LastThread(rs[..i]))
  }

  function Records(s: World): seq<Rec> {
    if s.open.Some? then s.done + [s.open.value] else s.done
  }

  predicate LogOk(s: World) {
    && s.log == Concat(Records(s))
    && Prefixed(Records(s))
    && s.curThread == LastThread(Records(s))
    && (s.open.Some? <==> s.reentrance > 0)
    && (s.open.Some? ==>
          && s.owner.Some? && Stack(s, s.owner.value) != []
          && s.open.value.item == Stack(s, s.owner.value)[0].item)
  }

  ghost predicate Inv(s: World) { LockOk(s) && LogOk(s) }

  lemma SetTopOk(s: World, t: Uint64, p: Phase)
    requires Stack(s, t) != [] && StackOk(Stack(s, t), t)
    ensures var st := SetTop(s, t, p)[t];
      && |st| == |Stack(s, t)| && st[|st| - 1].phase == p && StackOk(st, t)
      && (forall i :: 0 <= i < |st| ==> st[i].item == Stack(s, t)[i].item)
  {
  }

  lemma CallKeepsInv(s: World, it: Item, cut: nat)
    requires Inv(s) && BeginCall(s, it, cut).Some?
    ensures Inv(BeginCall(s, it, cut).value)
  {
    hide Script, RecFields, Concat, Prefixed, LastThread;
    var u := BeginCall(s, it, cut).value;
    var st := Stack(s, it.thread);
    assert Stack(u, it.thread) == st + [Frame(it, AtLock(Script(it, cut)))];
    assert StackOk(Stack(u, it.thread), it.thread);
    assert Holds(Stack(u, it.thread)) == Holds(st) && Depth(Stack(u, it.thread)) == Depth(st);
    if s.owner.Some? && s.owner.value != it.thread { assert Stack(u, s.owner.value) == Stack(s, s.owner.value); }
  }

  /** A put of the outermost command extends the open record, and with it the log. */
  lemma EmitKeepsLog(s: World, fs: seq<Field>)
    requires LogOk(s) && s.reentrance > 0
    ensures var u := Emit(s, fs);
      && u.log == Concat(Records(u)) && Prefixed(Records(u)) && u.curThread == LastThread(Records(u))
      && u.open.Some? && u.open.value.item == s.open.value.item && u.done == s.done
  {
    hide RecFields, Concat, Prefixed, LastThread;
    if s.reentrance == 1 {
      var rc := s.open.value;
      var nrc := rc.(body := rc.body + fs);
      LongerRecord(rc, fs);
      ReplaceLast(s.done, rc, nrc);
      Assoc(Concat(s.done), RecFields(rc), fs);
    }
  }

  lemma LongerRecord(rc: Rec, fs: seq<Field>)
    ensures RecFields(rc.(body := rc.body + fs)) == RecFields(rc) + fs
  {
    hide Op;
    var head, op := if rc.prefixed then [FInt(OPC_THREAD)] + [FPtr(rc.item.thread)] else [], [FInt(Op(rc.item.call))];
    Assoc(op, rc.body, fs);
    Assoc(head, op + rc.body, fs);
  }

  /** A step that leaves the log alone, and the call of the owner's outermost frame. */
  lemma SameLog(s: World, u: World)
    requires LogOk(s) && u.log == s.log && u.done == s.done && u.open == s.open && u.curThread == s.curThread
    requires (u.reentrance > 0 <==> s.reentrance > 0) && u.owner == s.owner
    requires s.open.Some? && s.owner.Some? && Stack(s, s.owner.value) != [] ==>
      Stack(u, s.owner.value) != [] && Stack(u, s.owner.value)[0].item == Stack(s, s.owner.value)[0].item
    ensures LogOk(u)
  {
    hide RecFields, Concat, Prefixed, LastThread;
  }

  lemma ReplaceLast(done: seq<Rec>, a: Rec, b: Rec)
    requires a.item == b.item && a.prefixed == b.prefixed
    ensures Concat(done + [a]) == Concat(done) + RecFields(a) && Concat(done + [b]) == Concat(done) + RecFields(b)
    ensures Prefixed(done + [a]) ==> Prefixed(done + [b])
    ensures LastThread(done + [a]) == LastThread(done + [b])
  {
    hide RecFields;
    assert (done + [a])[..|done|] == done && (done + [b])[..|done|] == done;
    if Prefixed(done + [a]) {
      forall i | 0 <= i < |done + [b]|
        ensures (done + [b])[i].prefixed <==> (done + [b])[i].item.thread != LastThread((done + [b])[..i])
      {
        assert (done + [a])[..i] == (done + [b])[..i];
        assert (done + [a])[i].prefixed <==> (done + [a])[i].item.thread != LastThread((done + [a])[..i]);
      }
    }
  }

  /** The thread that is past its lock is the owner. */
  lemma OwnerActs(s: World, t: Uint64)
    requires LockOk(s) && Stack(s, t) != []
    ensures var st := Stack(s, t);
      (st[|st| - 1].phase.Locked? || st[|st| - 1].phase.Inside? || st[|st| - 1].phase.Exited? || |st| > 1)
        ==> s.owner == Some(t)
  {
  }

  lemma LockKeepsInv(s: World, t: Uint64)
    requires Inv(s) && Stack(s, t) != [] && Stack(s, t)[|Stack(s, t)| - 1].phase.AtLock? && Go(s, t).Some?
    ensures Inv(Go(s, t).value)
  {
    hide Concat, Prefixed, LastThread;
    var st := Stack(s, t);
    SetTopOk(s, t, Locked(st[|st| - 1].phase.script));
    OwnerActs(s, t);
  }

  lemma AppendRecord(done: seq<Rec>, rc: Rec)
    requires Prefixed(done) && (rc.prefixed <==> rc.item.thread != LastThread(done))
    ensures Prefixed(done + [rc]) && LastThread(done + [rc]) == rc.item.thread
    ensures Concat(done + [rc]) == Concat(done) + RecFields(rc)
  {
    hide RecFields;
    assert (done + [rc])[..|done|] == done;
    forall i | 0 <= i < |done + [rc]|
      ensures (done + [rc])[i].prefixed <==> (done + [rc])[i].item.thread != LastThread((done + [rc])[..i])
    {
      assert i < |done| ==> (done + [rc])[..i] == done[..i];
    }
  }

  lemma EnterKeepsInv(s: World, t: Uint64)
    requires Inv(s) && Stack(s, t) != [] && Stack(s, t)[|Stack(s, t)| - 1].phase.Locked?
    ensures Inv(Go(s, t).value)
  {
    hide RecFields, Concat, Prefixed, LastThread;
    var st := Stack(s, t);
    var f := st[|st| - 1];
    SetTopOk(s, t, Inside(f.phase.script));
    OwnerActs(s, t);
    if s.reentrance == 0 {
      AppendRecord(s.done, Rec(f.item, t != s.curThread, [], false));
    } else {
      SameLog(s, Go(s, t).value);
    }
  }

  lemma ActKeepsInv(s: World, t: Uint64)
    requires Inv(s) && Stack(s, t) != []
    requires Stack(s, t)[|Stack(s, t)| - 1].phase.Inside? && Stack(s, t)[|Stack(s, t)| - 1].phase.rest != []
    ensures Inv(Go(s, t).value)
  {
    hide RecFields, IndexField, AttribFields, Recorded, Concat, Prefixed, LastThread;
    var st := Stack(s, t);
    var f := st[|st| - 1];
    SetTopOk(s, t, Inside(f.phase.rest[1..]));
    OwnerActs(s, t);
    var a, c := f.phase.rest[0], f.item.call;
    match a {
      case Put(g) => EmitKeepsLog(s, [g]);
      case PutIndices => if c.DrawElements? { EmitKeepsLog(s, [IndexField(s.rec, c)]); }
      case PutAttribs => if c.DrawElements? { EmitKeepsLog(s, AttribFields(s.rec, c)); }
      case Orig =>
      case Update =>
        var rc := s.open.value;
        ReplaceLast(s.done, rc, rc.(updated := true));
        SameFields(rc);
    }
  }

  lemma SameFields(rc: Rec)
    ensures RecFields(rc.(updated := true)) == RecFields(rc)
  {
  }

  lemma LeaveKeepsInv(s: World, t: Uint64)
    requires Inv(s) && Stack(s, t) != []
    requires Stack(s, t)[|Stack(s, t)| - 1].phase.Inside? && Stack(s, t)[|Stack(s, t)| - 1].phase.rest == []
    ensures Inv(Go(s, t).value)
  {
    hide RecFields, Concat, Prefixed, LastThread;
    SetTopOk(s, t, Exited);
    OwnerActs(s, t);
  }

  lemma UnlockKeepsInv(s: World, t: Uint64)
    requires Inv(s) && Stack(s, t) != [] && Stack(s, t)[|Stack(s, t)| - 1].phase.Exited?
    ensures Inv(Go(s, t).value)
  {
    hide RecFields, Concat, Prefixed, LastThread;
    SetTopOk(s, t, Unlocked);
    OwnerActs(s, t);
  }

  lemma ReturnKeepsInv(s: World, t: Uint64)
    requires Inv(s) && Stack(s, t) != [] && Stack(s, t)[|Stack(s, t)| - 1].phase.Unlocked?
    ensures Inv(Go(s, t).value)
  {
    hide LogOk, Recorded;
    var st := Stack(s, t);
    var u := Go(s, t).value;
    assert Stack(u, t) == st[..|st| - 1];
    OwnerActs(s, t);
    SameLog(s, u);
  }

  lemma ApplyKeepsInv(s: World, m: Move)
    requires Inv(s) && Apply(s, m).Some?
    ensures Inv(Apply(s, m).value)
  {
    hide Inv, Script, BeginCall, Perform, Enter, Leave;
    match m
    case Begin(it, cut) => CallKeepsInv(s, it, cut);
    case Resume(t) =>
      var st := Stack(s, t);
      match st[|st| - 1].phase {
        case AtLock(_) => LockKeepsInv(s, t);
        case Locked(_) => EnterKeepsInv(s, t);
        case Inside(rest) => if rest == [] { LeaveKeepsInv(s, t); } else { ActKeepsInv(s, t); }
        case Exited => UnlockKeepsInv(s, t);
        case Unlocked => ReturnKeepsInv(s, t);
      }
  }

  /** For every schedule of any number of threads and any nesting: `reentrance` is the number of commands
      the owner of the lock is inside of, the log is whole records followed by at most one open record,
      and a thread prefix precedes a record exactly when the thread changes. */
  lemma {:induction false} EverySchedule(s: World, ms: seq<Move>)
    requires Inv(s) && Run(s, ms).Some?
    ensures Inv(Run(s, ms).value)
    decreases |ms|
  {
    hide Inv, Apply;
    if ms == [] {
    } else {
      ApplyKeepsInv(s, ms[0]);
      EverySchedule(Apply(s, ms[0]).value, ms[1..]);
    }
  }

  lemma StartInv()
    ensures Inv(START)
  {
  }

  /** Only outermost commands write: no step of a nested command changes the log. */
  lemma NestedIsSilent(s: World, m: Move)
    requires Inv(s) && Apply(s, m).Some?
    requires m.Begin? || |Stack(s, m.t)| > 1
    ensures Apply(s, m).value.log == s.log && Apply(s, m).value.done == s.done
  {
    hide RecFields, Concat, Prefixed, LastThread, Recorded, IndexField, AttribFields, Script;
    if m.Resume? { OwnerActs(s, m.t); }
  }
}
