/** The replay loop of `retrace.c`: one record per iteration, until the requested number of frames has
    been played or the reader stops. */
module Replay {
  import opened Bytes
  import opened Options
  import opened Wire
  import opened TraceWriter
  import opened Calls

  /** A replayed record: thread, opcode, values read and the two time stamps. */
  datatype Entry = Entry(thread: Uint64, op: Int32, vals: seq<Val>, bgn: Uint64, end: Uint64)

  datatype State = State(pos: int, thread: Uint64, player: Player, frame: int, log: seq<Entry>)

  /** One iteration of `process`: on to the next record, a `return`, or `exit(1)`. */
  datatype Outcome = Next(s: State, swapped: bool) | Stop(s: State) | Exit

  function GetCmd(d: seq<Byte>, p: int): (Int32, int) {
    if p + 4 > |d| then (OPC_EOF, p) else (Word(d, p), p + 4)
  }

  function U64At(w: nat, d: seq<Byte>, p: int): (Uint64, int) {
    (Get(w, KU64, d, p).0.u, Get(w, KU64, d, p).1)
  }

  function PtrAt(w: nat, d: seq<Byte>, p: int): (Uint64, int) {
    (Get(w, KPtr, d, p).0.p, Get(w, KPtr, d, p).1)
  }

  /** The rest of an iteration, after the optional thread prefix. */
  function Dispatch(w: nat, exec: bool, d: seq<Byte>, s: State): Outcome {
    var (cmd, p) := GetCmd(d, s.pos);
    if ShapeOf(cmd).NoShape? then Stop(s.(pos := p))
    else
      match Decode(w, s.player, ShapeOf(cmd), d, p)
      case Fatal => Exit
      case Body(vals, q) =>
        var (bgn, e1) := U64At(w, d, q);
        var (end, e2) := U64At(w, d, e1);
        var swapped := cmd == OPC_eglSwapBuffers;
        Next(State(e2, s.thread, Replayed(exec, s.player, cmd, vals), if swapped then s.frame + 1 else s.frame,
                   s.log + [Entry(s.thread, cmd, vals, bgn, end)]), swapped)
  }

  function Step(w: nat, exec: bool, d: seq<Byte>, s: State): Outcome {
    var (cmd, p) := GetCmd(d, s.pos);
    if cmd == OPC_THREAD then
      var (thread, q) := PtrAt(w, d, p);
      Dispatch(w, exec, d, s.(pos := q, thread := thread))
    else Dispatch(w, exec, d, s)
  }

  // ----- progress: an iteration consumes input unless it reads a bad block

  /** None of the blocks and strings read is one that moves the reader backwards. */
  predicate KindsReadable(w: nat, ks: seq<Kind>, d: seq<Byte>, p: int) {
    ks == [] || (!BadBlock(ks[0], d, p) && KindsReadable(w, ks[1..], d, Get(w, ks[0], d, p).1))
  }

  predicate PartsReadable(w: nat, d: seq<Byte>, p: int, n: nat)
    decreases n
  {
    n == 0 ||
    var (len, q) := GetInt(d, p);
    var k := if len > 0 then KBuf else KStr;
    !BadBlock(k, d, q) && PartsReadable(w, d, Get(w, k, d, q).1, n - 1)
  }

  predicate BodyReadable(w: nat, pl: Player, shape: Shape, d: seq<Byte>, p: int) {
    match shape
    case FixedShape(kinds) => KindsReadable(w, kinds, d, p)
    case DrawShape => KindsReadable(w, DrawKinds(pl), d, p)
    case ShaderShape =>
      var (n, q) := GetInt(d, GetInt(d, p).1);
      PartsReadable(w, d, q, if n > 0 then n else 0)
    case UniformShape =>
      var (vs, q) := ReadKinds(w, UNIFORM_HEAD, d, p);
      ReadKindsLength(w, UNIFORM_HEAD, d, p);
      KindsReadable(w, UniformKinds(vs), d, q)
    case _ => true
  }

  predicate RecordReadable(w: nat, d: seq<Byte>, s: State) {
    var (cmd, p) := GetCmd(d, s.pos);
    BodyReadable(w, s.player, ShapeOf(cmd), d, p)
  }

  /** The same of everything one iteration reads. */
  predicate StepReadable(w: nat, d: seq<Byte>, s: State) {
    var (cmd, p) := GetCmd(d, s.pos);
    if cmd == OPC_THREAD then
      var (thread, q) := PtrAt(w, d, p);
      RecordReadable(w, d, s.(pos := q, thread := thread))
    else RecordReadable(w, d, s)
  }

  lemma {:induction false} ReadKindsAdvances(w: nat, ks: seq<Kind>, d: seq<Byte>, p: int)
    requires WordSize(w) && KindsReadable(w, ks, d, p)
    ensures p <= ReadKinds(w, ks, d, p).1
  {
    hide Get, BadBlock;
    if ks == [] {
    } else {
      GetAdvances(w, ks[0], d, p);
      ReadKindsAdvances(w, ks[1..], d, Get(w, ks[0], d, p).1);
    }
  }

  /** Words and pointers are never bad. */
  lemma {:induction false} WordsReadable(w: nat, ks: seq<Kind>, d: seq<Byte>, p: int)
    requires KStr !in ks && KBuf !in ks
    ensures KindsReadable(w, ks, d, p)
  {
    hide Get;
    if ks == [] {
    } else {
      WordsReadable(w, ks[1..], d, Get(w, ks[0], d, p).1);
    }
  }

  lemma WordsAdvance(w: nat, ks: seq<Kind>, d: seq<Byte>, p: int)
    requires WordSize(w) && KStr !in ks && KBuf !in ks
    ensures p <= ReadKinds(w, ks, d, p).1
  {
    WordsReadable(w, ks, d, p);
    ReadKindsAdvances(w, ks, d, p);
  }

  lemma {:induction false} ReadAttrsAdvances(d: seq<Byte>, p: int, i: nat)
    ensures ReadAttrs(d, p, i).Body? ==> p <= ReadAttrs(d, p, i).pos
    decreases 64 - i
  {
    hide Word;
    if i >= 64 {
    } else {
      ReadAttrsAdvances(d, GetInt(d, GetInt(d, p).1).1, i + 2);
    }
  }

  lemma {:induction false} ReadPartsAdvances(w: nat, d: seq<Byte>, p: int, n: nat)
    requires WordSize(w) && PartsReadable(w, d, p, n)
    ensures p <= ReadParts(w, d, p, n).1
    decreases n
  {
    hide Get, Word, BadBlock;
    if n == 0 {
    } else {
      var (len, q) := GetInt(d, p);
      var k := if len > 0 then KBuf else KStr;
      GetAdvances(w, k, d, q);
      ReadPartsAdvances(w, d, Get(w, k, d, q).1, n - 1);
    }
  }

  lemma DecodeAdvances(w: nat, pl: Player, shape: Shape, d: seq<Byte>, p: int)
    requires WordSize(w) && BodyReadable(w, pl, shape, d, p) && !shape.NoShape?
    ensures Decode(w, pl, shape, d, p).Body? ==> p <= Decode(w, pl, shape, d, p).pos
  {
    hide Get, Word, ReadKinds, ReadAttrs, ReadParts, DrawKinds, UniformKinds, KindsReadable, PartsReadable;
    match shape {
      case FixedShape(kinds) => ReadKindsAdvances(w, kinds, d, p);
      case CountedShape => WordsAdvance(w, Repeat(KInt, GetInt(d, p).0), d, GetInt(d, p).1);
      case DrawShape => ReadKindsAdvances(w, DrawKinds(pl), d, p);
      case ShaderShape =>
        var (n, q) := GetInt(d, GetInt(d, p).1);
        ReadPartsAdvances(w, d, q, if n > 0 then n else 0);
      case UniformShape =>
        WordsAdvance(w, UNIFORM_HEAD, d, p);
        ReadKindsLength(w, UNIFORM_HEAD, d, p);
        var (vs, q) := ReadKinds(w, UNIFORM_HEAD, d, p);
        ReadKindsAdvances(w, UniformKinds(vs), d, q);
      case ChooseConfigShape =>
        GetAdvances(w, KPtr, d, p);
        var q := Get(w, KPtr, d, p).1;
        ReadAttrsAdvances(d, q, 0);
        if ReadAttrs(d, q, 0).Body? {
          var (size, e1) := GetInt(d, ReadAttrs(d, q, 0).pos);
          var (num, e2) := GetInt(d, e1);
          WordsAdvance(w, Repeat(KPtr, ConfigCount(size, num)) + [KInt], d, e2);
        }
      case CreateShape =>
        WordsAdvance(w, [KPtr, KPtr, KPtr], d, p);
        var q := ReadKinds(w, [KPtr, KPtr, KPtr], d, p).1;
        ReadAttrsAdvances(d, q, 0);
        if ReadAttrs(d, q, 0).Body? { WordsAdvance(w, [KPtr], d, ReadAttrs(d, q, 0).pos); }
    }
  }

  lemma DispatchAdvances(w: nat, exec: bool, d: seq<Byte>, s: State)
    requires WordSize(w) && RecordReadable(w, d, s)
    ensures var o := Dispatch(w, exec, d, s);
      && (o.Next? ==> s.pos + 4 <= |d| && s.pos + 4 <= o.s.pos)
      && (o.Stop? ==> o.s == s.(pos := if s.pos + 4 > |d| then s.pos else s.pos + 4))
  {
    hide Get, Word, Decode, Replayed, ShapeOf, BodyReadable;
    assert ShapeOf(OPC_EOF).NoShape? by { EofStops(); }
    var (cmd, p) := GetCmd(d, s.pos);
    if !ShapeOf(cmd).NoShape? {
      DecodeAdvances(w, s.player, ShapeOf(cmd), d, p);
      if Decode(w, s.player, ShapeOf(cmd), d, p).Body? {
        var q := Decode(w, s.player, ShapeOf(cmd), d, p).pos;
        GetAdvances(w, KU64, d, q);
        GetAdvances(w, KU64, d, Get(w, KU64, d, q).1);
      }
    }
  }

  lemma EofStops()
    ensures ShapeOf(OPC_EOF).NoShape? && OPC_EOF != OPC_THREAD
  {
  }

  /** An iteration that reads no bad block, and does not end the loop, consumes input. */
  lemma StepAdvances(w: nat, exec: bool, d: seq<Byte>, s: State)
    requires WordSize(w) && StepReadable(w, d, s)
    ensures var o := Step(w, exec, d, s); o.Next? ==> s.pos + 4 <= |d| && s.pos + 4 <= o.s.pos
  {
    hide Get, Word, Decode, Replayed, ShapeOf, RecordReadable;
    EofStops();
    var (cmd, p) := GetCmd(d, s.pos);
    if cmd == OPC_THREAD {
      GetAdvances(w, KPtr, d, p);
      var (thread, q) := PtrAt(w, d, p);
      DispatchAdvances(w, exec, d, s.(pos := q, thread := thread));
    } else {
      DispatchAdvances(w, exec, d, s);
    }
  }

  /** On any file: an iteration that stops consumes the opcode it stops on, and stays where it is only when fewer than
      four bytes are left; one that goes on logs its record. */
  lemma StepOutcome(w: nat, exec: bool, d: seq<Byte>, s: State)
    requires WordSize(w)
    ensures var o := Step(w, exec, d, s);
      && (o.Stop? ==> (s.pos + 4 <= |d| ==> s.pos < o.s.pos) && o.s.frame == s.frame && o.s.log == s.log)
      && (s.pos + 4 > |d| ==> o == Stop(s))
      && (o.Next? ==> o.s.frame == s.frame + (if o.swapped then 1 else 0) && s.log < o.s.log)
  {
    hide Get, Word, Decode, Replayed, ShapeOf;
    EofStops();
    GetAdvances(w, KPtr, d, GetCmd(d, s.pos).1);
  }

  /** A file without any bad block is readable wherever the reader gets to. */
  lemma {:induction false} ReadableKinds(w: nat, ks: seq<Kind>, d: seq<Byte>, p: int)
    requires WordSize(w) && Readable(d) && 0 <= p
    ensures KindsReadable(w, ks, d, p)
  {
    hide Get, BadBlock;
    if ks == [] {
    } else {
      GetAdvances(w, ks[0], d, p);
      ReadableKinds(w, ks[1..], d, Get(w, ks[0], d, p).1);
    }
  }

  lemma {:induction false} ReadableParts(w: nat, d: seq<Byte>, p: int, n: nat)
    requires WordSize(w) && Readable(d) && 0 <= p
    ensures PartsReadable(w, d, p, n)
    decreases n
  {
    hide Get, Word, BadBlock;
    if n == 0 {
    } else {
      var (len, q) := GetInt(d, p);
      var k := if len > 0 then KBuf else KStr;
      GetAdvances(w, k, d, q);
      ReadableParts(w, d, Get(w, k, d, q).1, n - 1);
    }
  }

  lemma ReadableBody(w: nat, pl: Player, shape: Shape, d: seq<Byte>, p: int)
    requires WordSize(w) && Readable(d) && 0 <= p
    ensures BodyReadable(w, pl, shape, d, p)
  {
    hide Get, Word, ReadKinds, DrawKinds, UniformKinds, KindsReadable, PartsReadable, Readable;
    match shape {
      case FixedShape(kinds) => ReadableKinds(w, kinds, d, p);
      case DrawShape => ReadableKinds(w, DrawKinds(pl), d, p);
      case ShaderShape =>
        var (n, q) := GetInt(d, GetInt(d, p).1);
        ReadableParts(w, d, q, if n > 0 then n else 0);
      case UniformShape =>
        WordsAdvance(w, UNIFORM_HEAD, d, p);
        ReadKindsLength(w, UNIFORM_HEAD, d, p);
        var (vs, q) := ReadKinds(w, UNIFORM_HEAD, d, p);
        ReadableKinds(w, UniformKinds(vs), d, q);
      case _ =>
    }
  }

  lemma ReadableStep(w: nat, d: seq<Byte>, s: State)
    requires WordSize(w) && Readable(d) && 0 <= s.pos
    ensures StepReadable(w, d, s)
  {
    hide Get, Word, ShapeOf, BodyReadable, Readable;
    var (cmd, p) := GetCmd(d, s.pos);
    GetAdvances(w, KPtr, d, p);
    var q := if cmd == OPC_THREAD then PtrAt(w, d, p).1 else s.pos;
    ReadableBody(w, s.player, ShapeOf(GetCmd(d, q).0), d, GetCmd(d, q).1);
  }

  /** The loop of `process(frames)`, followed for at most `k` iterations, on any file; a negative count plays to the
      end. The outer `None` says that it is still going on, the inner one is `exit(1)`. */
  function Loop(w: nat, exec: bool, d: seq<Byte>, frames: int, s: State, k: nat): Option<Option<State>>
    decreases k
  {
    if frames == 0 then Some(Some(s))
    else if k == 0 then None
    else
      match Step(w, exec, d, s)
      case Exit => Some(None)
      case Stop(t) => Some(Some(t))
      case Next(t, swapped) => Loop(w, exec, d, if swapped then frames - 1 else frames, t, k - 1)
  }

  lemma {:induction false} LoopDone(w: nat, exec: bool, d: seq<Byte>, frames: int, s: State, k: nat, l: nat)
    requires Loop(w, exec, d, frames, s, k).Some? && k <= l
    ensures Loop(w, exec, d, frames, s, l) == Loop(w, exec, d, frames, s, k)
    decreases k
  {
    hide Step;
    if frames != 0 && Step(w, exec, d, s).Next? {
      var o := Step(w, exec, d, s);
      LoopDone(w, exec, d, if o.swapped then frames - 1 else frames, o.s, k - 1, l - 1);
    }
  }

  /** The first `k` iterations read no bad block. */
  predicate LoopReadable(w: nat, exec: bool, d: seq<Byte>, frames: int, s: State, k: nat)
    decreases k
  {
    frames == 0 || k == 0 ||
    (StepReadable(w, d, s) &&
     match Step(w, exec, d, s)
     case Next(t, swapped) => LoopReadable(w, exec, d, if swapped then frames - 1 else frames, t, k - 1)
     case _ => true)
  }

  /** The loop ends, after at most one iteration for every four bytes, on every file on which it gets to no bad
      block. */
  lemma {:induction false} LoopEnds(w: nat, exec: bool, d: seq<Byte>, frames: int, s: State, k: nat)
    requires WordSize(w) && LoopReadable(w, exec, d, frames, s, k) && |d| - s.pos < 4 * k && k > 0
    ensures Loop(w, exec, d, frames, s, k).Some?
    decreases k
  {
    hide Step, StepReadable;
    if frames == 0 {
    } else {
      StepAdvances(w, exec, d, s);
      if Step(w, exec, d, s).Next? {
        var o := Step(w, exec, d, s);
        LoopEnds(w, exec, d, if o.swapped then frames - 1 else frames, o.s, k - 1);
      }
    }
  }

  /** A run that gets to no bad block never moves the cursor back, consumes input if there is a word left, and plays at
      most the requested frames. */
  lemma {:induction false} LoopAdvances(w: nat, exec: bool, d: seq<Byte>, frames: int, s: State, k: nat)
    requires WordSize(w) && LoopReadable(w, exec, d, frames, s, k)
    requires var o := Loop(w, exec, d, frames, s, k); o.Some? && o.value.Some?
    ensures var r := Loop(w, exec, d, frames, s, k).value.value;
      && s.pos <= r.pos && s.frame <= r.frame
      && (frames != 0 && s.pos + 4 <= |d| ==> s.pos < r.pos)
      && (frames >= 0 ==> r.frame <= s.frame + frames)
    decreases k
  {
    hide Step, StepReadable;
    if frames == 0 {
    } else {
      StepAdvances(w, exec, d, s);
      StepOutcome(w, exec, d, s);
      var o := Step(w, exec, d, s);
      if o.Next? { LoopAdvances(w, exec, d, if o.swapped then frames - 1 else frames, o.s, k - 1); }
    }
  }

  /** A file without any bad block, reached or not, has no reachable one. */
  lemma {:induction false} ReadableLoop(w: nat, exec: bool, d: seq<Byte>, frames: int, s: State, k: nat)
    requires WordSize(w) && Readable(d) && 0 <= s.pos
    ensures LoopReadable(w, exec, d, frames, s, k)
    decreases k
  {
    hide Step, Readable, StepReadable;
    if frames == 0 || k == 0 {
    } else {
      ReadableStep(w, d, s);
      StepAdvances(w, exec, d, s);
      var o := Step(w, exec, d, s);
      if o.Next? { ReadableLoop(w, exec, d, if o.swapped then frames - 1 else frames, o.s, k - 1); }
    }
  }

  // ----- resuming

  /** The loop ends in `o`, which is `None` for `exit(1)`. */
  ghost predicate EndsAs(w: nat, exec: bool, d: seq<Byte>, frames: int, s: State, o: Option<State>) {
    exists k: nat :: Loop(w, exec, d, frames, s, k) == Some(o)
  }

  /** Playing `n` frames from `first` on ends exactly as playing `m + n` from `s` on does. */
  ghost predicate Resumes(w: nat, exec: bool, d: seq<Byte>, m: nat, n: nat, s: State, first: State) {
    forall o :: EndsAs(w, exec, d, n, first, o) <==> EndsAs(w, exec, d, m + n, s, o)
  }

  lemma EndsOnce(w: nat, exec: bool, d: seq<Byte>, frames: int, s: State, o: Option<State>, k: nat)
    requires EndsAs(w, exec, d, frames, s, o) && Loop(w, exec, d, frames, s, k).Some?
    ensures Loop(w, exec, d, frames, s, k) == Some(o)
  {
    hide Loop;
    var l: nat :| Loop(w, exec, d, frames, s, l) == Some(o);
    LoopDone(w, exec, d, frames, s, k, k + l);
    LoopDone(w, exec, d, frames, s, l, k + l);
  }

  /** What has been logged stays logged. */
  lemma {:induction false} LogStays(w: nat, exec: bool, d: seq<Byte>, frames: int, s: State, k: nat)
    requires WordSize(w)
    requires var o := Loop(w, exec, d, frames, s, k); o.Some? && o.value.Some?
    ensures s.log <= Loop(w, exec, d, frames, s, k).value.value.log
    decreases k
  {
    hide Step;
    if frames == 0 {
    } else {
      StepOutcome(w, exec, d, s);
      var o := Step(w, exec, d, s);
      if o.Next? { LogStays(w, exec, d, if o.swapped then frames - 1 else frames, o.s, k - 1); }
    }
  }

  /** A run of `m` frames that played them all is the beginning of every longer run; one that stopped earlier ends every
      longer run too. */
  lemma {:induction false} LongerRun(w: nat, exec: bool, d: seq<Byte>, m: nat, n: nat, s: State, k: nat, l: nat)
      returns (j: nat)
    requires WordSize(w) && m > 0
    requires var o := Loop(w, exec, d, m, s, k); o.Some? && o.value.Some?
    ensures var first := Loop(w, exec, d, m, s, k).value.value;
      if first.frame == s.frame + m then Loop(w, exec, d, m + n, s, j + l) == Loop(w, exec, d, n, first, l)
      else first.frame < s.frame + m && Loop(w, exec, d, m + n, s, k) == Some(Some(first))
    decreases k
  {
    hide Step;
    StepOutcome(w, exec, d, s);
    match Step(w, exec, d, s) {
      case Stop(_) => j := 0;
      case Next(t, swapped) =>
        if swapped && m == 1 {
          j := 1;
        } else {
          j := LongerRun(w, exec, d, if swapped then m - 1 else m, n, t, k - 1, l);
          j := j + 1;
        }
    }
  }

  /** A run that exits makes every longer run exit. */
  lemma {:induction false} ExitStays(w: nat, exec: bool, d: seq<Byte>, m: nat, n: nat, s: State, k: nat)
    requires Loop(w, exec, d, m, s, k) == Some(None)
    ensures Loop(w, exec, d, m + n, s, k) == Some(None)
    decreases k
  {
    hide Step;
    match Step(w, exec, d, s)
    case Exit =>
    case Next(t, swapped) => ExitStays(w, exec, d, if swapped then m - 1 else m, n, t, k - 1);
  }

  /** With input left, a further run does not end where it began. */
  lemma RunMoves(w: nat, exec: bool, d: seq<Byte>, n: nat, s: State)
    requires WordSize(w) && n > 0 && s.pos + 4 <= |d|
    ensures !EndsAs(w, exec, d, n, s, Some(s))
  {
    hide Step;
    StepOutcome(w, exec, d, s);
    var o := Step(w, exec, d, s);
    if EndsAs(w, exec, d, n, s, Some(s)) {
      var k: nat :| Loop(w, exec, d, n, s, k) == Some(Some(s));
      if o.Next? { LogStays(w, exec, d, if o.swapped then n - 1 else n, o.s, k - 1); }
    }
  }

  /** On any file, playing `m` frames and then `n` ends as playing `m + n` does, exactly when the first call played all
      its frames or ran out of input. A call that stopped on an opcode leaves the cursor behind it, and the next call
      goes on from there. */
  lemma ProcessResumes(w: nat, exec: bool, d: seq<Byte>, m: nat, n: nat, s: State, first: State)
    requires WordSize(w) && m > 0 && n > 0 && EndsAs(w, exec, d, m, s, Some(first))
    ensures Resumes(w, exec, d, m, n, s, first) <==> first.frame == s.frame + m || first.pos + 4 > |d|
  {
    hide Loop;
    var k: nat :| Loop(w, exec, d, m, s, k) == Some(Some(first));
    if first.frame == s.frame + m {
      forall o ensures EndsAs(w, exec, d, n, first, o) <==> EndsAs(w, exec, d, m + n, s, o) {
        SameEnd(w, exec, d, m, n, s, k, o);
      }
    } else {
      var _ := LongerRun(w, exec, d, m, n, s, k, 0);
      assert EndsAs(w, exec, d, m + n, s, Some(first));
      if first.pos + 4 > |d| {
        EndStops(w, exec, d, n, first);
        forall o ensures EndsAs(w, exec, d, n, first, o) <==> EndsAs(w, exec, d, m + n, s, o) {
          if EndsAs(w, exec, d, n, first, o) { EndsOnce(w, exec, d, n, first, o, 1); }
          if EndsAs(w, exec, d, m + n, s, o) { EndsOnce(w, exec, d, m + n, s, o, k); }
        }
      } else {
        RunMoves(w, exec, d, n, first);
      }
    }
  }

  lemma EndStops(w: nat, exec: bool, d: seq<Byte>, n: nat, s: State)
    requires WordSize(w) && n > 0 && s.pos + 4 > |d|
    ensures Loop(w, exec, d, n, s, 1) == Some(Some(s)) && EndsAs(w, exec, d, n, s, Some(s))
  {
    StepOutcome(w, exec, d, s);
  }

  lemma SameEnd(w: nat, exec: bool, d: seq<Byte>, m: nat, n: nat, s: State, k: nat, o: Option<State>)
    requires WordSize(w) && m > 0 && n > 0
    requires var r := Loop(w, exec, d, m, s, k); r.Some? && r.value.Some? && r.value.value.frame == s.frame + m
    ensures EndsAs(w, exec, d, n, Loop(w, exec, d, m, s, k).value.value, o) <==> EndsAs(w, exec, d, m + n, s, o)
  {
    hide Loop;
    var first := Loop(w, exec, d, m, s, k).value.value;
    if EndsAs(w, exec, d, n, first, o) {
      var l: nat :| Loop(w, exec, d, n, first, l) == Some(o);
      var j := LongerRun(w, exec, d, m, n, s, k, l);
    }
    if EndsAs(w, exec, d, m + n, s, o) {
      var l: nat :| Loop(w, exec, d, m + n, s, l) == Some(o);
      var j := LongerRun(w, exec, d, m, n, s, k, l);
      LoopDone(w, exec, d, m + n, s, l, j + l);
    }
  }

  /** An opcode the replayer does not know, with more input behind it: playing any number of frames and then any other
      does not end as playing them together. */
  lemma UnknownResumes(w: nat, exec: bool, d: seq<Byte>, m: nat, n: nat, s: State)
    requires WordSize(w) && m > 0 && n > 0 && s.pos + 8 <= |d|
    requires Word(d, s.pos) != OPC_THREAD && ShapeOf(Word(d, s.pos)).NoShape?
    ensures var first := s.(pos := s.pos + 4);
      EndsAs(w, exec, d, m, s, Some(first)) && !Resumes(w, exec, d, m, n, s, first)
  {
    hide Word, ShapeOf, Decode, Replayed, Get, Resumes;
    var first := s.(pos := s.pos + 4);
    assert Step(w, exec, d, s) == Stop(first);
    assert Loop(w, exec, d, m, s, 1) == Some(Some(first));
    ProcessResumes(w, exec, d, m, n, s, first);
  }
}
