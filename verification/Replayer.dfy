/** `process` of `retrace.c` as it runs: a loop over a cursor, the current thread, the shadow bindings
    and the attribute table, all updated in place. It is proved against the function `Replay.Process`. */
module Replayer {
  import opened Bytes
  import opened Options
  import opened Wire
  import opened TraceWriter
  import opened Calls
  import opened Replay

  class Player {
    const file: seq<Byte>
    const w: nat
    const exec: bool
    const formats: array<Format>
    var cur: int
    var curThread: Uint64
    var arrayBuffer: Int32
    var elementBuffer: Int32
    var curFrame: int
    var log: seq<Entry>

    ghost predicate Valid()
      reads this
    {
      WordSize(w)
    }

    ghost function Shadow(): Calls.Player
      reads this, formats
    {
      Calls.Player(arrayBuffer, elementBuffer, formats[..])
    }

    ghost function Now(): State
      reads this, formats
    {
      State(cur, curThread, Shadow(), curFrame, log)
    }

    /** The static variables at start-up, with the cursor behind the header. */
    constructor (file: seq<Byte>, w: nat, exec: bool, cur: nat)
      requires WordSize(w)
      ensures Valid() && fresh(formats) && this.file == file && this.w == w && this.exec == exec
      ensures Now() == State(cur, 0, InitialPlayer(), 0, [])
    {
      this.file, this.w, this.exec, this.cur := file, w, exec, cur;
      curThread, arrayBuffer, elementBuffer, curFrame, log := 0, 0, 0, 0, [];
      formats := new Format[128](_ => Format(false, 0, 0, 0));
      new;
      assert formats[..] == InitialPlayer().formats;
    }

    method Fetch(k: Kind) returns (v: Val)
      modifies this`cur
      ensures (v, cur) == Get(w, k, file, old(cur))
    {
      var (val, q) := Get(w, k, file, cur);
      v, cur := val, q;
    }

    method FetchInt() returns (v: Int32)
      modifies this`cur
      ensures (v, cur) == GetInt(file, old(cur))
    {
      var (val, q) := GetInt(file, cur);
      v, cur := val, q;
    }

    method FetchCmd() returns (cmd: Int32)
      modifies this`cur
      ensures (cmd, cur) == GetCmd(file, old(cur))
    {
      var (val, q) := GetCmd(file, cur);
      cmd, cur := val, q;
    }

    method FetchAll(head: seq<Val>, ks: seq<Kind>) returns (vals: seq<Val>)
      modifies this`cur
      ensures Body(vals, cur) == ReadThen(w, head, ks, file, old(cur))
    {
      hide Get;
      vals := head;
      var i := 0;
      while i < |ks|
        invariant 0 <= i <= |ks|
        invariant ReadThen(w, vals, ks[i..], file, cur) == ReadThen(w, head, ks, file, old(cur))
      {
        ghost var before := ReadThen(w, vals, ks[i..], file, cur);
        var v := Fetch(ks[i]);
        assert ks[i..][1..] == ks[i + 1..];
        assert vals + ([v] + ReadKinds(w, ks[i + 1..], file, cur).0)
            == (vals + [v]) + ReadKinds(w, ks[i + 1..], file, cur).0;
        vals := vals + [v];
        i := i + 1;
      }
    }

    /** The `for (i=0;;)` loop that fills `attrib_list[64]`; false is the exit on too many attributes. */
    method FetchAttrs() returns (ok: bool, attrs: seq<Val>)
      modifies this`cur
      ensures ReadAttrs(file, old(cur), 0) == if ok then Body(attrs, cur) else Fatal
    {
      hide Word, GetInt, ReadAttrs;
      var i := 0;
      attrs := [];
      while true
        invariant 0 <= i
        invariant ReadAttrs(file, old(cur), 0) == Continue(attrs, ReadAttrs(file, cur, i))
        decreases 64 - i
      {
        AttrsStep(file, cur, i);
        if i >= 64 { return false, []; }
        var key := FetchInt();
        if key == EGL_NONE {
          attrs := attrs + [VInt(key)];
          return true, attrs;
        }
        var val := FetchInt();
        ContinueTwo(attrs, VInt(key), VInt(val), ReadAttrs(file, cur, i + 2));
        attrs := attrs + [VInt(key), VInt(val)];
        i := i + 2;
      }
    }

    method FetchParts(head: seq<Val>, n: nat) returns (vals: seq<Val>)
      modifies this`cur
      ensures vals == head + ReadParts(w, file, old(cur), n).0 && cur == ReadParts(w, file, old(cur), n).1
    {
      hide Get, Word, GetInt;
      vals := head;
      var i := 0;
      while i < n
        invariant 0 <= i <= n
        invariant vals + ReadParts(w, file, cur, n - i).0 == head + ReadParts(w, file, old(cur), n).0
        invariant ReadParts(w, file, cur, n - i).1 == ReadParts(w, file, old(cur), n).1
      {
        ghost var before := cur;
        var len := FetchInt();
        var v := Fetch(if len > 0 then KBuf else KStr);
        ghost var rest := ReadParts(w, file, cur, n - i - 1).0;
        assert ReadParts(w, file, before, n - i).0 == [VInt(len)] + ([v] + rest);
        assert vals + ([VInt(len)] + ([v] + rest)) == (vals + [VInt(len), v]) + rest;
        vals := vals + [VInt(len), v];
        i := i + 1;
      }
    }

    method EnabledAttribs() returns (n: nat)
      ensures n == EnabledCount(formats[..])
    {
      n := 0;
      var i := 0;
      while i < formats.Length
        invariant 0 <= i <= formats.Length
        invariant n + EnabledCount(formats[i..]) == EnabledCount(formats[..])
      {
        if formats[i].enabled { n := n + 1; }
        i := i + 1;
      }
    }

    method FetchBody(shape: Shape) returns (ok: bool, vals: seq<Val>)
      requires !shape.NoShape?
      modifies this`cur
      ensures Decode(w, Shadow(), shape, file, old(cur)) == if ok then Body(vals, cur) else Fatal
    {
      hide Get, Word, GetInt, ReadKinds, ReadAttrs, ReadParts, EnabledCount;
      ok := true;
      match shape {
        case FixedShape(kinds) => vals := FetchAll([], kinds);
        case CountedShape =>
          var n := FetchInt();
          vals := FetchAll([VInt(n)], Repeat(KInt, n));
        case DrawShape =>
          var blocks := 0;
          if arrayBuffer == 0 { blocks := EnabledAttribs(); }
          vals := FetchAll([], [KInt, KInt, KInt, if elementBuffer != 0 then KPtr else KBuf] + Repeat(KBuf, blocks));
        case ShaderShape =>
          var shader := FetchInt();
          var n := FetchInt();
          vals := FetchParts([VInt(shader), VInt(n)], if n > 0 then n else 0);
        case UniformShape =>
          ReadKindsLength(w, UNIFORM_HEAD, file, cur);
          vals := FetchAll([], UNIFORM_HEAD);
          vals := FetchAll(vals, UniformKinds(vals));
        case ChooseConfigShape =>
          var dpy := Fetch(KPtr);
          var attrs;
          ok, attrs := FetchAttrs();
          if ok {
            var size := FetchInt();
            var num := FetchInt();
            vals := FetchAll([dpy] + attrs + [VInt(size), VInt(num)], Repeat(KPtr, ConfigCount(size, num)) + [KInt]);
          } else { vals := []; }
        case CreateShape =>
          vals := FetchAll([], [KPtr, KPtr, KPtr]);
          var attrs;
          ok, attrs := FetchAttrs();
          if ok { vals := FetchAll(vals + attrs, [KPtr]); }
      }
    }

    method SetEnabled(i: Int32, e: bool)
      modifies formats
      ensures Shadow() == SetFormat(old(Shadow()), i, (f: Format) => f.(enabled := e))
    {
      if 0 <= i < formats.Length { formats[i] := formats[i].(enabled := e); }
    }

    /** What the `proc_` functions and the cases themselves leave in the shadow state. */
    method Update(op: Int32, vals: seq<Val>)
      modifies this`arrayBuffer, this`elementBuffer, formats
      ensures Shadow() == Replayed(exec, old(Shadow()), op, vals)
    {
      var a, b := IntAt(vals, 0), IntAt(vals, 1);
      if op == OPC_glBindBuffer {
        if a == GL_ARRAY_BUFFER { arrayBuffer := b; }
        else if a == GL_ELEMENT_ARRAY_BUFFER { elementBuffer := b; }
      } else if op == OPC_glEnableVertexAttribArray {
        SetEnabled(a, true);
      } else if op == OPC_glDisableVertexAttribArray {
        SetEnabled(a, false);
      } else if op == OPC_glVertexAttribPointer && exec {
        if 0 <= a < formats.Length {
          formats[a] := formats[a].(size := b, typ := IntAt(vals, 2), normalized := IntAt(vals, 3));
        }
      }
    }

    /** One iteration after the prefix; the results say whether the loop goes on, stops or exits. */
    method PlayRecord(cmd: Int32, ghost s: State) returns (exited: bool)
      requires Valid() && !ShapeOf(cmd).NoShape?
      requires (cmd, cur) == GetCmd(file, s.pos) && s.(pos := cur) == Now()
      modifies this, formats
      ensures Dispatch(w, exec, file, s) == if exited then Exit else Next(Now(), cmd == OPC_eglSwapBuffers)
      ensures exited || curFrame == old(curFrame) + if cmd == OPC_eglSwapBuffers then 1 else 0
    {
      hide Get, Word, Decode, Replayed, ShapeOf;
      var ok, vals := FetchBody(ShapeOf(cmd));
      if !ok { return true; }
      var (bgn, e1) := U64At(w, file, cur);
      var (end, e2) := U64At(w, file, e1);
      cur := e2;
      Update(cmd, vals);
      log := log + [Entry(curThread, cmd, vals, bgn, end)];
      if cmd == OPC_eglSwapBuffers { curFrame := curFrame + 1; }
      return false;
    }

    /** `process(frames)`, on every file on which its loop ends; `k` bounds its iterations. */
    method Process(frames: int, ghost k: nat) returns (exited: bool)
      requires Valid() && Loop(w, exec, file, frames, Now(), k).Some?
      modifies this, formats
      ensures Valid() && Loop(w, exec, file, frames, old(Now()), k) == Some(if exited then None else Some(Now()))
    {
      hide Get, Word, Decode, Replayed, ShapeOf;
      var left := frames;
      ghost var l := k;
      while left != 0
        invariant Valid()
        invariant Loop(w, exec, file, frames, old(Now()), k) == Loop(w, exec, file, left, Now(), l)
        decreases l
      {
        ghost var s := Now();
        var cmd := FetchCmd();
        if cmd == OPC_THREAD {
          var (thread, q) := PtrAt(w, file, cur);
          cur, curThread := q, thread;
          s := Now();
          cmd := FetchCmd();
        }
        if ShapeOf(cmd).NoShape? { return false; }
        var stop := PlayRecord(cmd, s);
        if stop { return true; }
        if cmd == OPC_eglSwapBuffers { left := left - 1; }
        l := l - 1;
      }
      return false;
    }
  }

  /** Attribute values read so far, followed by what the rest of the list decodes to. */
  function Continue(attrs: seq<Val>, b: Body): Body {
    match b
    case Fatal => Fatal
    case Body(vs, pos) => Body(attrs + vs, pos)
  }

  lemma AttrsStep(d: seq<Byte>, p: int, i: nat)
    ensures i >= 64 ==> ReadAttrs(d, p, i) == Fatal
    ensures i < 64 ==>
      var (key, q) := GetInt(d, p);
      var (val, e) := GetInt(d, q);
      ReadAttrs(d, p, i) ==
        if key == EGL_NONE then Body([VInt(key)], q) else Continue([VInt(key), VInt(val)], ReadAttrs(d, e, i + 2))
  {
    hide GetInt;
    if i < 64 {
      var (key, q) := GetInt(d, p);
      var (val, e) := GetInt(d, q);
      var b := ReadAttrs(d, e, i + 2);
      assert b.Body? ==> [VInt(key)] + ([VInt(val)] + b.vals) == [VInt(key), VInt(val)] + b.vals;
    }
  }

  lemma ContinueTwo(attrs: seq<Val>, k: Val, v: Val, b: Body)
    ensures Continue(attrs, Continue([k, v], b)) == Continue(attrs + [k, v], b)
  {
    if b.Body? { assert attrs + ([k, v] + b.vals) == (attrs + [k, v]) + b.vals; }
  }
}
