/** Shadow state under concurrency. `glBindBuffer` assigns the recorder's shadow binding only after the
    record is closed and the lock released. This module says exactly when recorder and replayer agree
    nevertheless, for schedules in which nested calls do not change the shadow state and no bind is logged while
    another is unapplied. */
module Shadows {
  import opened Bytes
  import opened Options
  import opened Wire
  import opened Calls
  import opened Trace
  import opened Interposer

  /** The calls that change the shadow state, and those among them that do so under the lock. */
  predicate UpdatesInside(c: Call) { c.SetVertexAttribArray? || c.VertexAttribPointer? }
  predicate Changes(c: Call) { c.BindBuffer? || UpdatesInside(c) }

  function Items(rs: seq<Rec>): seq<Item> {
    seq(|rs|, i requires 0 <= i < |rs| => rs[i].item)
  }

  /** The shadow state a replayer has after the finished records. */
  function Logged(s: World): Recorder {
    RecordedAll(InitialRecorder(), Items(s.done))
  }

  /** The same, ahead of an update that the open record's interceptor has already made. */
  function LoggedAhead(s: World): Recorder {
    if s.open.Some? && s.open.value.updated then Recorded(Logged(s), s.open.value.item.call) else Logged(s)
  }

  function ApplyAll(r: Recorder, q: seq<(Uint64, Call)>): Recorder
    decreases |q|
  {
    if q == [] then r else ApplyAll(Recorded(r, q[0].1), q[1..])
  }

  /** The discipline under which agreement can be decided: the original functions do not call back into
      state-changing interceptors, and no bind is logged while another one is unapplied. */
  predicate Calm(s: World, m: Move) {
    match m
    case Begin(it, _) => Stack(s, it.thread) != [] ==> !Changes(it.call)
    case Resume(t) =>
      var st := Stack(s, t);
      st != [] && st[|st| - 1].phase.Locked? && st[|st| - 1].item.call.BindBuffer? && s.reentrance == 0
      ==> s.unapplied == []
  }

  predicate CalmRun(s: World, ms: seq<Move>)
    decreases |ms|
  {
    ms == [] || (Calm(s, ms[0]) && (Apply(s, ms[0]).Some? ==> CalmRun(Apply(s, ms[0]).value, ms[1..])))
  }

  function Updates(acts: seq<Act>): nat {
    if acts == [] then 0 else (if acts[0] == Update then 1 else 0) + Updates(acts[1..])
  }

  function Script1(c: Call): nat { if UpdatesInside(c) then 1 else 0 }

  /** A frame makes its update exactly once, and only the outermost frame makes one at all. */
  predicate FrameOk(s: World, t: Uint64, i: nat)
    requires i < |Stack(s, t)|
  {
    var f := Stack(s, t)[i];
    && (i > 0 ==> !Changes(f.item.call))
    && match f.phase
       case AtLock(script) => Updates(script) == Script1(f.item.call)
       case Locked(script) => Updates(script) == Script1(f.item.call)
       case Inside(rest) =>
         Updates(rest) == if i == 0 && s.open.Some? && s.open.value.updated then 0 else Script1(f.item.call)
       case _ => true
  }

  predicate FramesOk(s: World) {
    forall t, i :: t in s.stacks && 0 <= i < |s.stacks[t]| ==> FrameOk(s, t, i)
  }

  /** A bind is unapplied exactly from the end of its record until its thread returns. */
  predicate UnappliedOk(s: World) {
    && |s.unapplied| <= 1
    && (s.unapplied != [] ==>
          var (t, c) := s.unapplied[0];
          var st := Stack(s, t);
          c.BindBuffer? && |st| == 1 && st[0].item.call == c && (st[0].phase.Exited? || st[0].phase.Unlocked?))
    && (forall t :: t in s.stacks && |s.stacks[t]| == 1 && s.stacks[t][0].item.call.BindBuffer?
          && (s.stacks[t][0].phase.Exited? || s.stacks[t][0].phase.Unlocked?)
          ==> s.unapplied != [] && s.unapplied[0].0 == t)
    && (s.open.Some? && s.open.value.item.call.BindBuffer? ==> s.unapplied == [])
  }

  predicate Sync(s: World) {
    FramesOk(s) && UnappliedOk(s) && LoggedAhead(s) == ApplyAll(s.rec, s.unapplied)
  }

  // ----- scripts

  lemma {:induction false} UpdatesConcat(a: seq<Act>, b: seq<Act>)
    ensures Updates(a + b) == Updates(a) + Updates(b)
  {
    if a == [] {
      assert a + b == b;
    } else {
      UpdatesConcat(a[1..], b);
      assert (a + b)[1..] == a[1..] + b;
    }
  }

  lemma {:induction false} PutsDoNotUpdate(fs: seq<Field>)
    ensures Updates(Puts(fs)) == 0
  {
    if fs == [] {
    } else {
      PutsDoNotUpdate(fs[1..]);
      assert Puts(fs)[1..] == Puts(fs[1..]);
    }
  }

  lemma ThreePartUpdates(a: seq<Field>, mid: seq<Act>, b: seq<Field>, times: seq<Field>)
    ensures Updates(Puts(a) + mid + Puts(b) + Puts(times)) == Updates(mid)
    ensures Updates(Puts(a) + mid + Puts(times)) == Updates(mid)
  {
    hide Updates, Puts;
    PutsDoNotUpdate(a);
    PutsDoNotUpdate(b);
    PutsDoNotUpdate(times);
    UpdatesConcat(Puts(a) + mid + Puts(b), Puts(times));
    UpdatesConcat(Puts(a) + mid, Puts(b));
    UpdatesConcat(Puts(a) + mid, Puts(times));
    UpdatesConcat(Puts(a), mid);
  }

  lemma ScriptUpdates(it: Item, cut: nat)
    ensures Updates(Script(it, cut)) == Script1(it.call)
  {
    hide Fields, Puts;
    var c := it.call;
    var fs := Fields(InitialRecorder(), c);
    var times := [FU64(it.bgn), FU64(it.end)];
    match c {
      case DrawElements(m, n, t, _, _) => ThreePartUpdates([FInt(m), FInt(n), FInt(t)], [PutIndices, PutAttribs, Orig],
          [], times);
      case VertexAttribPointer(_, _, _, _, _, _) => ThreePartUpdates(fs, [Update, Orig], [], times);
      case SetVertexAttribArray(_, _) => ThreePartUpdates(fs, [Orig, Update], [], times);
      case _ =>
        var k := if cut <= |fs| then cut else |fs|;
        ThreePartUpdates(fs[..k], [Orig], fs[k..], times);
    }
  }

  lemma {:induction false} RecordedAllAppend(r: Recorder, items: seq<Item>, it: Item)
    ensures RecordedAll(r, items + [it]) == Recorded(RecordedAll(r, items), it.call)
    decreases |items|
  {
    hide Recorded;
    if items == [] {
      assert items + [it] == [it];
    } else {
      RecordedAllAppend(Recorded(r, items[0].call), items[1..], it);
      assert (items + [it])[1..] == items[1..] + [it];
    }
  }

  /** Attribute updates and binds touch different parts of the shadow state. */
  lemma UpdateCommutesWithBind(r: Recorder, c: Call, b: Call)
    requires UpdatesInside(c) && b.BindBuffer?
    ensures Recorded(Recorded(r, b), c) == Recorded(Recorded(r, c), b)
  {
  }

  // ----- every step of a calm schedule keeps Sync

  lemma CallKeepsSync(s: World, it: Item, cut: nat)
    requires Inv(s) && Sync(s) && Calm(s, Begin(it, cut)) && BeginCall(s, it, cut).Some?
    ensures Sync(BeginCall(s, it, cut).value)
  {
    hide Script, Recorded, RecordedAll, LogOk;
    ScriptUpdates(it, cut);
    var u := BeginCall(s, it, cut).value;
    var st := Stack(s, it.thread);
    assert Stack(u, it.thread) == st + [Frame(it, AtLock(Script(it, cut)))];
    forall t, i | t in u.stacks && 0 <= i < |u.stacks[t]| ensures FrameOk(u, t, i) {
      if t != it.thread || i < |st| { assert FrameOk(s, t, i); }
    }
    assert s.unapplied != [] ==> s.unapplied[0].0 != it.thread;
  }

  /** Frames other than the one that moves are not affected. */
  lemma OtherFrames(s: World, u: World, t: Uint64, p: Phase)
    requires LockOk(s) && FramesOk(s) && Stack(s, t) != [] && u.stacks == SetTop(s, t, p)
    requires
      || (u.open.Some? == s.open.Some? && (s.open.Some? ==> u.open.value.updated == s.open.value.updated))
      || (|Stack(s, t)| == 1 && (s.owner.Some? ==> s.owner == Some(t)))
    requires FrameOk(u, t, |Stack(s, t)| - 1)
    ensures FramesOk(u)
  {
    SetTopOk(s, t, p);
    OwnerActs(s, t);
    forall t', i | t' in u.stacks && 0 <= i < |u.stacks[t']| ensures FrameOk(u, t', i) {
      if t' != t || i < |Stack(s, t)| - 1 {
        assert FrameOk(s, t', i);
        assert Stack(u, t')[i] == Stack(s, t')[i];
        if t' != t { assert Holds(s.stacks[t']) == 0 || s.owner == Some(t'); }
      }
    }
  }

  lemma LockKeepsSync(s: World, t: Uint64)
    requires Inv(s) && Sync(s) && Stack(s, t) != [] && Stack(s, t)[|Stack(s, t)| - 1].phase.AtLock? && Go(s, t).Some?
    ensures Sync(Go(s, t).value)
  {
    hide Recorded, RecordedAll, LogOk;
    var st := Stack(s, t);
    var u := Go(s, t).value;
    SetTopOk(s, t, Locked(st[|st| - 1].phase.script));
    assert FrameOk(s, t, |st| - 1);
    OtherFrames(s, u, t, Locked(st[|st| - 1].phase.script));
  }

  /** The record is closed but its thread has not returned. */
  predicate Closing(p: Phase) { p.Exited? || p.Unlocked? }

  lemma SameUnapplied(s: World, u: World, t: Uint64, p: Phase)
    requires LockOk(s) && UnappliedOk(s) && Stack(s, t) != [] && u.stacks == SetTop(s, t, p)
        && u.unapplied == s.unapplied
    requires Closing(p) == Closing(Stack(s, t)[|Stack(s, t)| - 1].phase) || |Stack(s, t)| > 1
    requires u.open.Some? && u.open.value.item.call.BindBuffer? ==> u.unapplied == []
    ensures UnappliedOk(u)
  {
    SetTopOk(s, t, p);
    if u.unapplied != [] {
      var t0 := u.unapplied[0].0;
      if t0 != t { assert Stack(u, t0) == Stack(s, t0); }
    }
  }

  lemma ApplyOne(r: Recorder, q: seq<(Uint64, Call)>)
    requires |q| == 1
    ensures ApplyAll(r, q) == Recorded(r, q[0].1)
  {
    hide Recorded;
    assert q[1..] == [];
  }

  lemma EnterKeepsSync(s: World, t: Uint64)
    requires Inv(s) && Sync(s) && Calm(s, Resume(t))
    requires Stack(s, t) != [] && Stack(s, t)[|Stack(s, t)| - 1].phase.Locked?
    ensures Sync(Go(s, t).value)
  {
    hide Recorded, RecordedAll, RecFields, Concat, Prefixed, LastThread, Updates, UnappliedOk, FramesOk, ApplyAll;
    var st := Stack(s, t);
    var u := Go(s, t).value;
    var p := Inside(st[|st| - 1].phase.script);
    SetTopOk(s, t, p);
    OwnerActs(s, t);
    FrameAt(s, t, |st| - 1);
    OtherFrames(s, u, t, p);
    OpenUnapplied(s);
    SameUnapplied(s, u, t, p);
  }

  lemma FrameAt(s: World, t: Uint64, i: nat)
    requires FramesOk(s) && i < |Stack(s, t)|
    ensures FrameOk(s, t, i)
  {
  }

  lemma OpenUnapplied(s: World)
    requires UnappliedOk(s)
    ensures s.open.Some? && s.open.value.item.call.BindBuffer? ==> s.unapplied == []
    ensures |s.unapplied| <= 1 && (s.unapplied != [] ==> s.unapplied[0].1.BindBuffer?)
  {
  }

  lemma PutKeepsSync(s: World, t: Uint64)
    requires Inv(s) && Sync(s) && Stack(s, t) != []
    requires Stack(s, t)[|Stack(s, t)| - 1].phase.Inside? && Stack(s, t)[|Stack(s, t)| - 1].phase.rest != []
    requires Stack(s, t)[|Stack(s, t)| - 1].phase.rest[0] != Update
    ensures Sync(Go(s, t).value)
  {
    hide Recorded, RecordedAll, RecFields, Concat, Prefixed, LastThread, IndexField, AttribFields, UnappliedOk,
        FramesOk, ApplyAll, LogOk;
    var st := Stack(s, t);
    var u := Go(s, t).value;
    var p := Inside(st[|st| - 1].phase.rest[1..]);
    SetTopOk(s, t, p);
    FrameAt(s, t, |st| - 1);
    OtherFrames(s, u, t, p);
    OpenUnapplied(s);
    SameUnapplied(s, u, t, p);
  }

  lemma UpdateKeepsSync(s: World, t: Uint64)
    requires Inv(s) && Sync(s) && Stack(s, t) != []
    requires Stack(s, t)[|Stack(s, t)| - 1].phase.Inside? && Stack(s, t)[|Stack(s, t)| - 1].phase.rest != []
    requires Stack(s, t)[|Stack(s, t)| - 1].phase.rest[0] == Update
    ensures Sync(Go(s, t).value)
  {
    hide Recorded, RecordedAll, RecFields, Concat, Prefixed, LastThread, UnappliedOk, FramesOk, ApplyAll;
    var st := Stack(s, t);
    var f := st[|st| - 1];
    var u := Go(s, t).value;
    var p := Inside(f.phase.rest[1..]);
    SetTopOk(s, t, p);
    OwnerActs(s, t);
    FrameAt(s, t, |st| - 1);
    assert |st| == 1 && s.open.value.item == f.item && !s.open.value.updated;
    OtherFrames(s, u, t, p);
    OpenUnapplied(s);
    SameUnapplied(s, u, t, p);
    UpdateThenApply(s.rec, f.item.call, s.unapplied);
  }

  lemma UpdateThenApply(r: Recorder, c: Call, q: seq<(Uint64, Call)>)
    requires UpdatesInside(c) && |q| <= 1 && (q != [] ==> q[0].1.BindBuffer?)
    ensures ApplyAll(Recorded(r, c), q) == Recorded(ApplyAll(r, q), c)
  {
    hide Recorded;
    if q != [] {
      ApplyOne(r, q);
      ApplyOne(Recorded(r, c), q);
      UpdateCommutesWithBind(r, c, q[0].1);
    }
  }

  lemma LeaveNestedKeepsSync(s: World, t: Uint64)
    requires Inv(s) && Sync(s) && |Stack(s, t)| > 1
    requires Stack(s, t)[|Stack(s, t)| - 1].phase.Inside? && Stack(s, t)[|Stack(s, t)| - 1].phase.rest == []
    ensures Sync(Go(s, t).value)
  {
    hide Recorded, RecordedAll, RecFields, Concat, Prefixed, LastThread, UnappliedOk, FramesOk, ApplyAll;
    var u := Go(s, t).value;
    SetTopOk(s, t, Exited);
    OwnerActs(s, t);
    FrameAt(s, t, |Stack(s, t)| - 1);
    OtherFrames(s, u, t, Exited);
    OpenUnapplied(s);
    SameUnapplied(s, u, t, Exited);
  }

  /** Closing the record makes its effect part of what a replayer knows. */
  lemma LeaveOuterKeepsSync(s: World, t: Uint64)
    requires Inv(s) && Sync(s) && |Stack(s, t)| == 1
    requires Stack(s, t)[0].phase.Inside? && Stack(s, t)[0].phase.rest == []
    ensures Sync(Go(s, t).value)
  {
    hide RecordedAll, RecFields, Concat, Prefixed, LastThread, FramesOk;
    var f := Stack(s, t)[0];
    var c := f.item.call;
    var u := Go(s, t).value;
    SetTopOk(s, t, Exited);
    OwnerActs(s, t);
    FrameAt(s, t, 0);
    OtherFrames(s, u, t, Exited);
    assert Items(u.done) == Items(s.done) + [f.item];
    RecordedAllAppend(InitialRecorder(), Items(s.done), f.item);
    if c.BindBuffer? {
      assert s.unapplied + [(t, c)] == [(t, c)];
      ApplyOne(s.rec, [(t, c)]);
    } else {
      assert UnappliedOk(u);
    }
  }

  lemma UnlockKeepsSync(s: World, t: Uint64)
    requires Inv(s) && Sync(s) && Stack(s, t) != [] && Stack(s, t)[|Stack(s, t)| - 1].phase.Exited?
    ensures Sync(Go(s, t).value)
  {
    hide Recorded, RecordedAll, LogOk, UnappliedOk, FramesOk, ApplyAll;
    var u := Go(s, t).value;
    SetTopOk(s, t, Unlocked);
    FrameAt(s, t, |Stack(s, t)| - 1);
    OtherFrames(s, u, t, Unlocked);
    OpenUnapplied(s);
    SameUnapplied(s, u, t, Unlocked);
  }

  lemma ReturnFrames(s: World, t: Uint64)
    requires Inv(s) && Sync(s) && Stack(s, t) != [] && Stack(s, t)[|Stack(s, t)| - 1].phase.Unlocked?
    ensures FramesOk(Go(s, t).value)
  {
    hide Recorded, RecordedAll, LogOk, UnappliedOk, ApplyAll;
    var u := Go(s, t).value;
    assert Stack(u, t) == Stack(s, t)[..|Stack(s, t)| - 1];
    forall t', i | t' in u.stacks && 0 <= i < |u.stacks[t']| ensures FrameOk(u, t', i) {
      assert FrameOk(s, t', i);
    }
  }

  lemma ReturnNestedKeepsSync(s: World, t: Uint64)
    requires Inv(s) && Sync(s) && |Stack(s, t)| > 1 && Stack(s, t)[|Stack(s, t)| - 1].phase.Unlocked?
    ensures Sync(Go(s, t).value)
  {
    hide Recorded, RecordedAll, LogOk, FramesOk, ApplyAll;
    var st := Stack(s, t);
    var u := Go(s, t).value;
    FrameAt(s, t, |st| - 1);
    ReturnFrames(s, t);
    assert Stack(u, t) == st[..|st| - 1] && st[|st| - 2].phase.Inside?;
  }

  /** The assignment after the unlock applies the bind. */
  lemma ReturnOuterKeepsSync(s: World, t: Uint64)
    requires Inv(s) && Sync(s) && |Stack(s, t)| == 1 && Stack(s, t)[0].phase.Unlocked?
    ensures Sync(Go(s, t).value)
  {
    hide Recorded, RecordedAll, LogOk, FramesOk;
    var c := Stack(s, t)[0].item.call;
    var u := Go(s, t).value;
    ReturnFrames(s, t);
    assert Stack(u, t) == [];
    WithoutOne(s.unapplied, t);
    if c.BindBuffer? {
      assert s.unapplied == [(t, c)];
      ApplyOne(s.rec, s.unapplied);
    } else {
      assert s.unapplied != [] ==> s.unapplied[0].0 != t;
    }
  }

  lemma WithoutOne(q: seq<(Uint64, Call)>, t: Uint64)
    requires |q| <= 1
    ensures Without(q, t) == if q != [] && q[0].0 == t then [] else q
  {
    if q != [] { assert q[1..] == []; }
  }

  lemma ApplyKeepsSync(s: World, m: Move)
    requires Inv(s) && Sync(s) && Calm(s, m) && Apply(s, m).Some?
    ensures Sync(Apply(s, m).value)
  {
    hide Inv, Sync, Calm, Script, BeginCall, Perform, Enter, Leave;
    match m
    case Begin(it, cut) => CallKeepsSync(s, it, cut);
    case Resume(t) =>
      var st := Stack(s, t);
      match st[|st| - 1].phase {
        case AtLock(_) => LockKeepsSync(s, t);
        case Locked(_) => EnterKeepsSync(s, t);
        case Inside(rest) =>
          if rest == [] {
            if |st| == 1 { LeaveOuterKeepsSync(s, t); } else { LeaveNestedKeepsSync(s, t); }
          } else {
            if rest[0] == Update { UpdateKeepsSync(s, t); } else { PutKeepsSync(s, t); }
          }
        case Exited => UnlockKeepsSync(s, t);
        case Unlocked => if |st| == 1 { ReturnOuterKeepsSync(s, t); } else { ReturnNestedKeepsSync(s, t); }
      }
  }

  /** Over every calm schedule, what a replayer of the log knows is the recorder's shadow state plus the
      one bind that may still be unapplied. */
  lemma {:induction false} CalmSchedule(s: World, ms: seq<Move>)
    requires Inv(s) && Sync(s) && Run(s, ms).Some? && CalmRun(s, ms)
    ensures Sync(Run(s, ms).value) && Inv(Run(s, ms).value)
    decreases |ms|
  {
    hide Inv, Sync, Calm, Apply;
    if ms == [] {
    } else {
      ApplyKeepsInv(s, ms[0]);
      ApplyKeepsSync(s, ms[0]);
      CalmSchedule(Apply(s, ms[0]).value, ms[1..]);
    }
  }

  /** Recorder and replayer agree, between records of a calm schedule, exactly when no bind is unapplied
      or the unapplied bind would change nothing. */
  lemma AgreementExactly(ms: seq<Move>)
    requires Run(START, ms).Some? && CalmRun(START, ms) && Run(START, ms).value.open.None?
    ensures var s := Run(START, ms).value;
      s.rec == Logged(s) <==> s.unapplied == [] || Recorded(s.rec, s.unapplied[0].1) == s.rec
  {
    hide Inv, CalmRun, Run, Recorded, RecordedAll, FramesOk;
    StartInv();
    StartSync();
    CalmSchedule(START, ms);
    var s := Run(START, ms).value;
    if s.unapplied != [] { ApplyOne(s.rec, s.unapplied); }
  }

  lemma StartSync()
    ensures Sync(START)
  {
  }
}
