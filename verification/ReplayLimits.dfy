/** Files on which `process` does not do what one expects: one on which it never ends, and one on which two calls do not
    end as one call for all their frames. */
module ReplayLimits {
  import opened Bytes
  import opened Options
  import opened Wire
  import opened TraceWriter
  import opened Calls
  import opened Replay
  import opened Trace

  const OPC_glBufferData: Int32 := 112

  /** The two block lengths: one that is skipped, and one that cannot be rounded up in an `int`. */
  const SKIPPED: Int32 := 0x7fff_ffb8
  const TURNING: Int32 := 0x7fff_fffd
  const DISTANCE := 0x8000_0000 - 36

  /** A glBufferData record at `p` whose block has length `len` and lies in the file. */
  predicate BufferData(d: seq<Byte>, p: int, len: Int32) {
    0 <= p && p + 16 + len <= |d| && Word(d, p) == OPC_glBufferData && Word(d, p + 12) == len
  }

  /** Two such records, the second of which leads back to the first. */
  predicate Circle(d: seq<Byte>, a: int) { BufferData(d, a, SKIPPED) && BufferData(d, a + DISTANCE, TURNING) }

  lemma BufferDataRead(w: nat, d: seq<Byte>, p: int, len: Int32)
    requires BufferData(d, p, len) && len > 0
    ensures ReadKinds(w, [KInt, KInt, KBuf, KInt], d, p + 4).1 == GetInt(d, p + 16 + RoundUp(len)).1
  {
    hide Word, RoundUp, ReadKinds;
    ReadOne(w, KInt, [KInt, KBuf, KInt], d, p + 4);
    ReadOne(w, KInt, [KBuf, KInt], d, p + 8);
    ReadOne(w, KBuf, [KInt], d, p + 12);
    ReadOne(w, KInt, [], d, p + 16 + RoundUp(len));
    assert [KInt] + [KInt, KBuf, KInt] == [KInt, KInt, KBuf, KInt] && [KInt] + [KBuf, KInt] == [KInt, KBuf, KInt];
    assert [KBuf] + [KInt] == [KBuf, KInt] && [KInt] + [] == [KInt];
    assert ReadKinds(w, [], d, GetInt(d, p + 16 + RoundUp(len)).1).1 == GetInt(d, p + 16 + RoundUp(len)).1 by {
      ReadNothing(w, d, GetInt(d, p + 16 + RoundUp(len)).1);
    }
  }

  lemma ReadNothing(w: nat, d: seq<Byte>, p: int)
    ensures ReadKinds(w, [], d, p) == ([], p)
  {
  }

  lemma Rounded()
    ensures RoundUp(SKIPPED) == SKIPPED && RoundUp(TURNING) == -0x8000_0000
  {
    assert WrapInt(SKIPPED + 3) == SKIPPED + 3 && (SKIPPED + 3) % 4 == 3;
    assert WrapInt(TURNING + 3) == -0x8000_0000 && -0x8000_0000 % 4 == 0;
  }

  /** One iteration at one of the two records leads to the other. */
  lemma CircleStep(w: nat, exec: bool, d: seq<Byte>, a: int, s: State)
    requires WordSize(w) && Circle(d, a) && a >= 0 && (s.pos == a || s.pos == a + DISTANCE)
    ensures var o := Step(w, exec, d, s);
      o.Next? && !o.swapped && o.s.pos == if s.pos == a then a + DISTANCE else a
  {
    hide Word, Replayed, ReadKinds, RoundUp, Signature;
    Rounded();
    var len := if s.pos == a then SKIPPED else TURNING;
    BufferDataRead(w, d, s.pos, len);
    assert ShapeOf(OPC_glBufferData) == FixedShape([KInt, KInt, KBuf, KInt]) by { BufferDataShape(); }
  }

  lemma BufferDataShape()
    ensures ShapeOf(OPC_glBufferData) == FixedShape([KInt, KInt, KBuf, KInt])
  {
  }

  /** From either record the loop goes on forever, whatever the number of frames. */
  lemma {:induction false} CircleIsEndless(w: nat, exec: bool, d: seq<Byte>, a: int, frames: int, s: State, k: nat)
    requires WordSize(w) && Circle(d, a) && a >= 0 && (s.pos == a || s.pos == a + DISTANCE) && frames != 0
    ensures Loop(w, exec, d, frames, s, k) == None
    decreases k
  {
    hide Step, Circle;
    if k == 0 {
    } else {
      CircleStep(w, exec, d, a, s);
      CircleIsEndless(w, exec, d, a, frames, Step(w, exec, d, s).s, k - 1);
    }
  }

  // ----- such a file

  function RecordStart(len: Int32): seq<Byte> { EncInt(OPC_glBufferData) + (Zeros(8) + EncInt(len)) }

  lemma RecordStarts(d: seq<Byte>, p: int, len: Int32)
    requires At(d, p, RecordStart(len))
    ensures Word(d, p) == OPC_glBufferData && Word(d, p + 12) == len
  {
    hide EncInt, Word;
    AtConcat(d, p, EncInt(OPC_glBufferData), Zeros(8) + EncInt(len));
    AtConcat(d, p + 4, Zeros(8), EncInt(len));
    WordAt(d, p, OPC_glBufferData);
    WordAt(d, p + 12, len);
  }

  /** A header and two records: the file opens, and no call of `process` on it ends, except for no frames. */
  lemma EndlessFile(w: nat) returns (d: seq<Byte>)
    requires WordSize(w)
    ensures Open(d) == Some((w, Opened()))
    ensures forall exec, frames: int, k: nat :: frames != 0 ==> Loop(w, exec, d, frames, Opened(), k) == None
  {
    hide EncAll, EncInt, Header, Zeros, Loop, Open, FieldOk;
    HeaderOk(w);
    var head := EncAll(w, Header(w));
    var gap, tail := Zeros(DISTANCE - 16), Zeros(TURNING);
    var first, second := RecordStart(SKIPPED), RecordStart(TURNING);
    d := head + (first + (gap + (second + tail)));
    assert d[0..|d|] == d;
    AtConcat(d, 0, head, first + (gap + (second + tail)));
    OpensHeader(w, d);
    AtConcat(d, 20, first, gap + (second + tail));
    AtConcat(d, 36, gap, second + tail);
    AtConcat(d, 20 + DISTANCE, second, tail);
    RecordStarts(d, 20, SKIPPED);
    RecordStarts(d, 20 + DISTANCE, TURNING);
    forall exec, frames: int, k: nat | frames != 0 ensures Loop(w, exec, d, frames, Opened(), k) == None {
      CircleIsEndless(w, exec, d, 20, frames, Opened(), k);
    }
  }

  // ----- an opcode the replayer stops on

  /** A header and two zero words: opcode 0 ends a call of `process`, and the next call goes on behind it. */
  lemma StoppedFile(w: nat, exec: bool, m: nat, n: nat) returns (d: seq<Byte>, first: State)
    requires WordSize(w) && m > 0 && n > 0
    ensures Open(d) == Some((w, Opened())) && EndsAs(w, exec, d, m, Opened(), Some(first))
    ensures !Resumes(w, exec, d, m, n, Opened(), first)
  {
    hide EncAll, EncInt, Header, EndsAs, Resumes, Open, FieldOk, Word, ShapeOf;
    HeaderOk(w);
    var head := EncAll(w, Header(w));
    d := head + (EncInt(0) + EncInt(0));
    assert d[0..|d|] == d;
    AtConcat(d, 0, head, EncInt(0) + EncInt(0));
    OpensHeader(w, d);
    AtConcat(d, 20, EncInt(0), EncInt(0));
    WordAt(d, 20, 0);
    assert ShapeOf(0).NoShape? by { NoneStops(); }
    first := Opened().(pos := 24);
    UnknownResumes(w, exec, d, m, n, Opened());
  }

  lemma NoneStops()
    ensures ShapeOf(0).NoShape?
  {
  }
}
