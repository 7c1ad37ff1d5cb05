/** The numbers of the file format and of GL, written out: what recorder and replayer have to agree on with other
    programs, and not only with each other. */
module FileFormat {
  import opened Bytes
  import opened Options
  import opened Wire
  import opened TraceWriter
  import opened Calls
  import opened RoundTrip
  import opened Trace

  lemma FourBytes(n: nat)
    requires n < 0x1_0000_0000
    ensures Le(n, 4) == [n % 0x100, n / 0x100 % 0x100, n / 0x1_0000 % 0x100, n / 0x100_0000]
  {
    WordSizes();
    LeByte(n, 4, 0);
    LeByte(n, 4, 1);
    LeByte(n, 4, 2);
    LeByte(n, 4, 3);
    assert Pow256(0) == 1 && Pow256(1) == 0x100 && Pow256(2) == 0x1_0000 && Pow256(3) == 0x100_0000;
  }

  /** A word is stored least significant byte first, a negative number as its two's complement. */
  lemma WordBytes(v: Int32)
    ensures var u := if v < 0 then v + 0x1_0000_0000 else v;
      EncInt(v) == [u % 0x100, u / 0x100 % 0x100, u / 0x1_0000 % 0x100, u / 0x100_0000]
  {
    FourBytes(if v < 0 then v + 0x1_0000_0000 else v);
  }

  /** The first twenty bytes of every trace: magic number, version 1.0.0 and word size. */
  lemma HeaderBytes(w: nat)
    requires WordSize(w)
    ensures FieldsOk(w, Header(w))
    ensures EncAll(w, Header(w))
      == [0x1f, 0xca, 0xaf, 0xde] + [1, 0, 0, 0] + [0, 0, 0, 0] + [0, 0, 0, 0] + [w, 0, 0, 0]
  {
    hide EncAll, EncInt;
    HeaderOk(w);
    var fs := Header(w);
    WordBytes(fs[0].v);
    WordBytes(1);
    WordBytes(0);
    WordBytes(w);
    FiveWords(w, fs[0].v, 1, 0, 0, w);
  }

  lemma FiveWords(w: nat, a: Int32, b: Int32, c: Int32, d: Int32, e: Int32)
    ensures EncAll(w, [FInt(a), FInt(b), FInt(c), FInt(d), FInt(e)])
      == EncInt(a) + EncInt(b) + EncInt(c) + EncInt(d) + EncInt(e)
  {
    hide EncAll, EncInt;
    EncOne(w, FInt(a));
    EncOne(w, FInt(b));
    EncOne(w, FInt(c));
    EncOne(w, FInt(d));
    EncOne(w, FInt(e));
    EncAllConcat(w, [FInt(a)], [FInt(b)]);
    EncAllConcat(w, [FInt(a)] + [FInt(b)], [FInt(c)]);
    EncAllConcat(w, [FInt(a)] + [FInt(b)] + [FInt(c)], [FInt(d)]);
    EncAllConcat(w, [FInt(a)] + [FInt(b)] + [FInt(c)] + [FInt(d)], [FInt(e)]);
    assert [FInt(a)] + [FInt(b)] + [FInt(c)] + [FInt(d)] + [FInt(e)] == [FInt(a), FInt(b), FInt(c), FInt(d), FInt(e)];
  }

  /** The thread prefix is opcode 2 and the thread. */
  lemma PrefixBytesAre(w: nat, cur: Uint64, thread: Uint64)
    ensures Prefix(w, cur, thread) == if thread == cur then [] else [2, 0, 0, 0] + Le(thread, w)
  {
    hide EncInt, Le;
    WordBytes(2);
  }

  /** A null int is the escape word 0xdeadbead and a zero; an int that equals the escape word is written twice. */
  lemma OptionalBytes(w: nat, v: Int32)
    ensures Enc(w, FOptInt(None)) == [0xad, 0xbe, 0xad, 0xde, 0, 0, 0, 0]
    ensures Enc(w, FOptInt(Some(v)))
      == if v == 0xdead_bead - 0x1_0000_0000 then [0xad, 0xbe, 0xad, 0xde, 0xad, 0xbe, 0xad, 0xde] else EncInt(v)
  {
    hide EncInt;
    WordBytes(0xdead_bead - 0x1_0000_0000);
    WordBytes(0);
  }

  /** The opcodes of the calls with a constructor of their own. */
  lemma Opcodes(w: nat, r: Recorder, c: Call)
    requires Recordable(w, r, c)
    ensures c.BindBuffer? ==> Op(c) == 103
    ensures c.SetVertexAttribArray? ==> Op(c) == if c.enable then 143 else 139
    ensures c.DrawElements? ==> Op(c) == 141
    ensures c.GetActiveUniform? ==> Op(c) == 155
    ensures c.ShaderSource? ==> Op(c) == 198
    ensures c.VertexAttribPointer? ==> Op(c) == 240
    ensures c.ChooseConfig? ==> Op(c) == 706
    ensures c.CreateWithAttribs? ==> Op(c) == 708 || Op(c) == 721
  {
  }

  /** GL_ARRAY_BUFFER is 0x8892 and GL_ELEMENT_ARRAY_BUFFER 0x8893; recorder and replayer bind to the same of the
      two. */
  lemma BindTargets(exec: bool, r: Recorder, pl: Player, target: Int32, buffer: Int32)
    ensures Recorded(r, BindBuffer(target, buffer))
      == if target == 0x8892 then r.(arrayBuffer := buffer)
         else if target == 0x8893 then r.(elementBuffer := buffer) else r
    ensures Replayed(exec, pl, 103, [VInt(target), VInt(buffer)])
      == if target == 0x8892 then pl.(arrayBuffer := buffer)
         else if target == 0x8893 then pl.(elementBuffer := buffer) else pl
  {
  }

  /** Attribute lists end with 0x3038, EGL_NONE. */
  lemma {:induction false} ListsEnd(attrs: seq<(Int32, Int32)>)
    ensures |AttrFields(attrs)| == 2 * |attrs| + 1 && AttrFields(attrs)[2 * |attrs|] == FInt(0x3038)
    ensures forall i :: 0 <= i < |attrs| ==>
      AttrFields(attrs)[2 * i] == FInt(attrs[i].0) && AttrFields(attrs)[2 * i + 1] == FInt(attrs[i].1)
  {
    if attrs == [] {
    } else {
      ListsEnd(attrs[1..]);
      var fs, rest := AttrFields(attrs), AttrFields(attrs[1..]);
      assert fs == [FInt(attrs[0].0), FInt(attrs[0].1)] + rest;
      forall i | 0 <= i < |attrs| ensures fs[2 * i] == FInt(attrs[i].0) && fs[2 * i + 1] == FInt(attrs[i].1) {
        if i > 0 { assert fs[2 * i] == rest[2 * (i - 1)] && fs[2 * i + 1] == rest[2 * (i - 1) + 1]; }
      }
    }
  }
}
