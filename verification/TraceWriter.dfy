/** The write half of `iolib.c`: a trace file that grows one mapped chunk at a time. Whatever the
    chunk size, the file is the plain concatenation of the encoded fields. */
module TraceWriter {
  import opened Sequences
  import opened Bytes
  import opened Options
  import opened Wire

  const OPC_VERSION: Int32 := 0xdeaf_ca1f - 0x1_0000_0000
  const OPC_THREAD: Int32 := 2

  function EncAll(w: nat, fs: seq<Field>): (s: seq<Byte>)
    requires forall f :: f in fs ==> FieldOk(w, f)
  {
    if fs == [] then [] else Enc(w, fs[0]) + EncAll(w, fs[1..])
  }

  /** The five words `iolib_init` puts at the start of every trace. */
  function Header(w: nat): seq<Field>
    requires WordSize(w)
  {
    [FInt(OPC_VERSION), FInt(1), FInt(0), FInt(0), FInt(w)]
  }

  /** The thread prefix `putCmd` puts in front of a command. */
  function Prefix(w: nat, curThread: Uint64, thr: Uint64): seq<Byte> {
    if thr != curThread then EncInt(OPC_THREAD) + Le(thr, w) else []
  }

  class Writer {
    const chunkSize: nat
    const w: nat              // sizeof(void*)
    var disk: seq<Byte>       // the part of the file before the mapped chunk
    var chunk: array<Byte>    // the mapped chunk, filePtr .. endPtr
    var cur: nat              // curPtr - filePtr
    var fileOffset: nat
    var reentrance: int
    var curThread: Uint64
    ghost var written: seq<Byte>  // every byte put so far

    ghost predicate Valid()
      reads this, chunk
    {
      && WordSize(w)
      && chunkSize > 0 && chunkSize % 4 == 0
      && (chunk.Length == 0 || chunk.Length == chunkSize)
      && cur <= chunk.Length
      && |disk| % 4 == 0
      && fileOffset == |disk| + chunk.Length
      && written == disk + chunk[..cur]
    }

    /** Between two puts the cursor is on a word boundary. */
    ghost predicate Aligned()
      reads this
    {
      |written| % 4 == 0
    }

    /** `iolib_init(IO_WRITE)` before its first `putInt`: an empty file and no mapping. */
    constructor (chunkSize: nat, w: nat)
      requires WordSize(w) && chunkSize > 0 && chunkSize % 4 == 0
      ensures Valid() && Aligned() && written == [] && fresh(chunk)
      ensures this.chunkSize == chunkSize && this.w == w && reentrance == 0 && curThread == 0
    {
      this.chunkSize, this.w := chunkSize, w;
      disk, cur, fileOffset, reentrance, curThread, written := [], 0, 0, 0, 0, [];
      chunk := new Byte[0];
    }

    method Enlarge()
      requires Valid() && cur == chunk.Length
      modifies this`disk, this`chunk, this`cur, this`fileOffset
      ensures Valid() && fresh(chunk) && cur == 0 && chunk.Length == chunkSize
      ensures fileOffset == old(fileOffset) + chunkSize
    {
      assert chunk[..cur] == chunk[..];
      disk := disk + chunk[..];
      chunk := new Byte[chunkSize](_ => 0);
      cur := 0;
      fileOffset := fileOffset + chunkSize;
    }

    /** The inner copy loop: bytes that fit in the mapped chunk. */
    method CopyRun(src: seq<Byte>)
      requires Valid() && cur + |src| <= chunk.Length
      modifies this`cur, this`written, chunk
      ensures Valid() && cur == old(cur) + |src| && written == old(written) + src
    {
      var i := 0;
      while i < |src|
        invariant 0 <= i <= |src| && cur == old(cur) + i && written == old(written)
        invariant chunk[..cur] == old(chunk[..cur]) + src[..i]
      {
        chunk[cur] := src[i];
        cur := cur + 1;
        i := i + 1;
        assert chunk[..cur] == chunk[..cur - 1] + [src[i - 1]];
        assert src[..i] == src[..i - 1] + [src[i - 1]];
      }
      assert src[..i] == src;
      Assoc(disk, old(chunk[..cur]), src);
      written := written + src;
    }

    /** The outer copy loop shared by `putLongLong`, `putPtr`, `putString` and `putBytes`. */
    method Copy(src: seq<Byte>)
      requires Valid()
      modifies this`disk, this`chunk, this`cur, this`fileOffset, this`written, chunk
      ensures Valid() && (chunk == old(chunk) || fresh(chunk))
      ensures written == old(written) + src
    {
      var rest := src;
      while rest != []
        invariant Valid() && (chunk == old(chunk) || fresh(chunk))
        invariant written + rest == old(written) + src
        decreases |rest|, cur == chunk.Length
      {
        var avail := chunk.Length - cur;
        if |rest| <= avail {
          CopyRun(rest);
          rest := [];
        } else {
          assert rest == rest[..avail] + rest[avail..];
          Assoc(written, rest[..avail], rest[avail..]);
          CopyRun(rest[..avail]);
          rest := rest[avail..];
          Enlarge();
        }
      }
    }

    /** `while ((long)curPtr & 3) *curPtr++ = 0`: mappings are page-aligned, so the offset decides. */
    method PadToWord()
      requires Valid()
      modifies this`cur, this`written, chunk
      ensures Valid() && Aligned()
      ensures written == old(written) + Zeros(PadLength(|old(written)|))
    {
      hide PadLength;
      ghost var n := PadLength(|written|);
      PadAligns(|written|);
      PadShift(|disk|, cur);
      PadStops(cur, cur, chunk.Length);
      while cur % 4 != 0
        invariant old(cur) <= cur <= old(cur) + n <= chunk.Length && written == old(written)
        invariant chunk[..old(cur)] == old(chunk[..cur])
        invariant forall i :: old(cur) <= i < cur ==> chunk[i] == 0
        decreases old(cur) + n - cur
      {
        PadStops(old(cur), cur, chunk.Length);
        chunk[cur] := 0;
        cur := cur + 1;
      }
      PadStops(old(cur), cur, chunk.Length);
      assert chunk[..cur] == old(chunk[..cur]) + Zeros(n);
      Assoc(disk, old(chunk[..cur]), Zeros(n));
      written := written + Zeros(n);
    }

    /** `if (curPtr >= endPtr) enlarge(); *(int*)curPtr = v; curPtr += 4`: an aligned word never
        crosses the end of the chunk. */
    method Store(v: Int32)
      requires Valid() && Aligned()
      modifies this`disk, this`chunk, this`cur, this`fileOffset, this`written, chunk
      ensures Valid() && Aligned() && (chunk == old(chunk) || fresh(chunk))
      ensures written == old(written) + EncInt(v)
    {
      if cur >= chunk.Length { Enlarge(); }
      PadShift(|disk|, cur);
      PadShift(|written|, 4);
      CopyRun(EncInt(v));
    }

    method PutInt(v: Int32)
      requires Valid() && Aligned()
      modifies this`disk, this`chunk, this`cur, this`fileOffset, this`written, chunk
      ensures Valid() && Aligned() && (chunk == old(chunk) || fresh(chunk))
      ensures written == old(written) + if reentrance > 1 then [] else EncInt(v)
    {
      if reentrance > 1 { return; }
      Store(v);
    }

    method PutIntPtr(o: Option<Int32>)
      requires Valid() && Aligned()
      modifies this`disk, this`chunk, this`cur, this`fileOffset, this`written, chunk
      ensures Valid() && Aligned() && (chunk == old(chunk) || fresh(chunk))
      ensures written == old(written) + if reentrance > 1 then [] else Enc(w, FOptInt(o))
    {
      hide Le;
      if reentrance > 1 { return; }
      var val: Int32 := 0;
      if o.None? || o.value == MARKER {
        Store(MARKER);
        if o.Some? { val := MARKER; }
      } else {
        val := o.value;
      }
      Store(val);
    }

    /** `putLongLong` (width 8) and `putPtr` (the word size). */
    method PutWide(u: Uint64, width: nat)
      requires Valid() && Aligned() && width % 4 == 0
      modifies this`disk, this`chunk, this`cur, this`fileOffset, this`written, chunk
      ensures Valid() && Aligned() && (chunk == old(chunk) || fresh(chunk))
      ensures written == old(written) + if reentrance > 1 then [] else Le(u, width)
    {
      if reentrance > 1 { return; }
      PadShift(|written|, width);
      Copy(Le(u, width));
    }

    method PutString(s: Option<seq<Byte>>)
      requires Valid() && Aligned() && FieldOk(w, FStr(s))
      modifies this`disk, this`chunk, this`cur, this`fileOffset, this`written, chunk
      ensures Valid() && Aligned() && (chunk == old(chunk) || fresh(chunk))
      ensures written == old(written) + if reentrance > 1 then [] else Enc(w, FStr(s))
    {
      if reentrance > 1 { return; }
      if s.None? {
        PutInt(0);
        return;
      }
      PadShift(|written|, |s.value| + 1);
      Copy(s.value + [0]);
      PadToWord();
    }

    method PutBytes(b: Buf)
      requires Valid() && Aligned() && FieldOk(w, FBuf(b))
      modifies this`disk, this`chunk, this`cur, this`fileOffset, this`written, chunk
      ensures Valid() && Aligned() && (chunk == old(chunk) || fresh(chunk))
      ensures written == old(written) + if reentrance > 1 then [] else Enc(w, FBuf(b))
    {
      hide Le;
      if reentrance > 1 { return; }
      var left := if b.data.None? then 0 else b.size;
      ghost var before := written;
      PutInt(left);
      if left > 0 {
        PadShift(|written|, left);
        Copy(b.data.value[..left]);
      }
      PadToWord();
      if left > 0 {
        Assoc(before, EncInt(left), b.data.value[..left]);
        Assoc(before, EncInt(left) + b.data.value[..left], Zeros(PadLength(left)));
      }
    }

    method Put(f: Field)
      requires Valid() && Aligned() && FieldOk(w, f)
      modifies this`disk, this`chunk, this`cur, this`fileOffset, this`written, chunk
      ensures Valid() && Aligned() && (chunk == old(chunk) || fresh(chunk))
      ensures written == old(written) + if reentrance > 1 then [] else Enc(w, f)
    {
      match f {
        case FInt(v) => PutInt(v);
        case FOptInt(o) => PutIntPtr(o);
        case FU64(u) => PutWide(u, 8);
        case FPtr(p) => PutWide(p, w);
        case FStr(s) => PutString(s);
        case FBuf(b) => PutBytes(b);
      }
    }

    /** The thread prefix, when the thread is not the one of the last record. */
    method PutThread(thr: Uint64)
      requires Valid() && Aligned() && reentrance == 1
      modifies this`disk, this`chunk, this`cur, this`fileOffset, this`written, this`curThread, chunk
      ensures Valid() && Aligned() && (chunk == old(chunk) || fresh(chunk)) && curThread == thr
      ensures written == old(written) + Prefix(w, old(curThread), thr)
    {
      hide Le, EncInt;
      if thr != curThread {
        PutInt(OPC_THREAD);
        PutWide(thr, w);
        Assoc(old(written), EncInt(OPC_THREAD), Le(thr, w));
        curThread := thr;
      }
    }

    /** `putCmd` on thread `thr`, which holds the lock. */
    method PutCmd(thr: Uint64, cmd: Int32)
      requires Valid() && Aligned() && reentrance >= 0 && thr < Pow256(w)
      modifies this, chunk
      ensures Valid() && Aligned() && (chunk == old(chunk) || fresh(chunk))
      ensures reentrance == old(reentrance) + 1
      ensures curThread == if reentrance > 1 then old(curThread) else thr
      ensures written == old(written) + if reentrance > 1 then [] else Prefix(w, old(curThread), thr) + EncInt(cmd)
    {
      hide Le, EncInt, Prefix;
      reentrance := reentrance + 1;
      if reentrance > 1 { return; }
      PutThread(thr);
      PutInt(cmd);
      Assoc(old(written), Prefix(w, old(curThread), thr), EncInt(cmd));
    }

    method PutTime(bgn: Uint64, end: Uint64)
      requires Valid() && Aligned() && reentrance >= 1
      modifies this, chunk
      ensures Valid() && Aligned() && (chunk == old(chunk) || fresh(chunk))
      ensures reentrance == old(reentrance) - 1 && curThread == old(curThread)
      ensures written == old(written) + if old(reentrance) > 1 then [] else Le(bgn, 8) + Le(end, 8)
    {
      PutWide(bgn, 8);
      PutWide(end, 8);
      Assoc(old(written), Le(bgn, 8), Le(end, 8));
      reentrance := reentrance - 1;
    }

    method PutAll(fs: seq<Field>)
      requires Valid() && Aligned() && reentrance <= 1 && forall f :: f in fs ==> FieldOk(w, f)
      modifies this`disk, this`chunk, this`cur, this`fileOffset, this`written, chunk
      ensures Valid() && Aligned() && (chunk == old(chunk) || fresh(chunk))
      ensures written == old(written) + EncAll(w, fs)
    {
      hide Enc, FieldOk;
      var i := 0;
      while i < |fs|
        invariant 0 <= i <= |fs| && Valid() && Aligned() && (chunk == old(chunk) || fresh(chunk))
        invariant written + EncAll(w, fs[i..]) == old(written) + EncAll(w, fs)
      {
        ghost var before := written;
        Put(fs[i]);
        assert fs[i..][1..] == fs[i + 1..];
        Assoc(before, Enc(w, fs[i]), EncAll(w, fs[i + 1..]));
        i := i + 1;
      }
    }

    /** `iolib_fini`: unmapping leaves whole chunks on disk, truncation drops the unused tail. */
    method Fini() returns (file: seq<Byte>)
      requires Valid()
      ensures file == written
      ensures |file| == fileOffset - (chunk.Length - cur)
    {
      file := disk + chunk[..];
      if cur < chunk.Length {
        file := file[..fileOffset - (chunk.Length - cur)];
      }
    }
  }

  /** The chunked writer refines plain append: the file does not depend on the chunk size. */
  method Record(chunkSize: nat, w: nat, fs: seq<Field>) returns (file: seq<Byte>)
    requires chunkSize > 0 && chunkSize % 4 == 0 && WordSize(w)
    requires forall f :: f in fs ==> FieldOk(w, f)
    ensures file == EncAll(w, fs)
  {
    var writer := new Writer(chunkSize, w);
    writer.PutAll(fs);
    file := writer.Fini();
  }
}
