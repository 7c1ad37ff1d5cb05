/** Object maps: sixteen small tables in one array of pointers, searched from the front. */
module ObjectMaps {
  import opened Options

  const MAX_MAPS := 16
  const MAX_KEYS := 16
  const SLICE := 32        // a key and a value for each of the keys of a map
  const NULL := 0

  type Pointer = int

  // ----- one slice as a finite map

  function Key(s: seq<Pointer>, base: nat, i: nat): Pointer
    requires i < MAX_KEYS && base + SLICE <= |s|
  {
    s[base + 2 * i]
  }

  /** The pairs from slot `i` up to the first free slot; an earlier pair counts before a later one. */
  function Contents(s: seq<Pointer>, base: nat, i: nat): map<Pointer, Pointer>
    requires i <= MAX_KEYS && base + SLICE <= |s|
    decreases MAX_KEYS - i
  {
    if i == MAX_KEYS || Key(s, base, i) == NULL then map[]
    else Contents(s, base, i + 1)[Key(s, base, i) := s[base + 2 * i + 1]]
  }

  /** The keys are distinct and occupy a prefix. */
  ghost predicate Packed(s: seq<Pointer>, base: nat)
    requires base + SLICE <= |s|
  {
    forall i, j :: 0 <= i < j < MAX_KEYS && Key(s, base, j) != NULL
        ==> Key(s, base, i) != NULL && Key(s, base, i) != Key(s, base, j)
  }

  function Get(m: map<Pointer, Pointer>, key: Pointer): Pointer { if key in m then m[key] else NULL }

  lemma {:induction false} ContentsKeys(s: seq<Pointer>, base: nat, i: nat, key: Pointer)
    requires i <= MAX_KEYS && base + SLICE <= |s| && Packed(s, base)
    ensures key in Contents(s, base, i) <==> key != NULL && exists j :: i <= j < MAX_KEYS && Key(s, base, j) == key
    decreases MAX_KEYS - i
  {
    if i < MAX_KEYS && Key(s, base, i) != NULL { ContentsKeys(s, base, i + 1, key); }
  }

  /** Distinct keys: as many pairs as occupied slots. */
  lemma {:induction false} ContentsSize(s: seq<Pointer>, base: nat, i: nat)
    requires i <= MAX_KEYS && base + SLICE <= |s| && Packed(s, base)
    ensures |Contents(s, base, i)| <= MAX_KEYS - i
    ensures |Contents(s, base, i)| == MAX_KEYS - i <==> forall j :: i <= j < MAX_KEYS ==> Key(s, base, j) != NULL
    decreases MAX_KEYS - i
  {
    if i == MAX_KEYS {
    } else {
      if Key(s, base, i) != NULL {
        ContentsSize(s, base, i + 1);
        ContentsKeys(s, base, i + 1, Key(s, base, i));
      }
    }
  }

  /** Writing a pair into the first slot that is free or has the key. */
  function Write(s: seq<Pointer>, base: nat, i: nat, key: Pointer, val: Pointer): seq<Pointer>
    requires i < MAX_KEYS && base + SLICE <= |s|
  {
    s[base + 2 * i := key][base + 2 * i + 1 := val]
  }

  predicate Chosen(s: seq<Pointer>, base: nat, i: nat, key: Pointer)
    requires i < MAX_KEYS && base + SLICE <= |s|
  {
    && (Key(s, base, i) == NULL || Key(s, base, i) == key)
    && forall j :: 0 <= j < i ==> Key(s, base, j) != NULL && Key(s, base, j) != key
  }

  lemma {:induction false} WritePuts(s: seq<Pointer>, base: nat, j: nat, i: nat, key: Pointer, val: Pointer)
    requires j <= i < MAX_KEYS && base + SLICE <= |s| && Packed(s, base) && Chosen(s, base, i, key)
    ensures var t := Write(s, base, i, key, val);
      Contents(t, base, j) == if key == NULL then Contents(s, base, j) else Contents(s, base, j)[key := val]
    decreases i - j
  {
    var t := Write(s, base, i, key, val);
    assert Key(t, base, j) == if j == i then key else Key(s, base, j);
    if j < i {
      WritePuts(s, base, j + 1, i, key, val);
      assert t[base + 2 * j + 1] == s[base + 2 * j + 1];
    } else {
      Behind(s, t, base, i + 1);
      if Key(s, base, i) == NULL && i + 1 < MAX_KEYS { assert Key(s, base, i + 1) == NULL; }
    }
  }

  lemma {:induction false} Behind(s: seq<Pointer>, t: seq<Pointer>, base: nat, i: nat)
    requires i <= MAX_KEYS && base + SLICE <= |s| == |t|
    requires forall k :: base + 2 * i <= k < base + SLICE ==> s[k] == t[k]
    ensures Contents(s, base, i) == Contents(t, base, i)
    decreases MAX_KEYS - i
  {
    if i == MAX_KEYS {
    } else {
      Behind(s, t, base, i + 1);
    }
  }

  lemma SameSlice(s: seq<Pointer>, t: seq<Pointer>, base: nat)
    requires base + SLICE <= |s| == |t| && forall k :: base <= k < base + SLICE ==> s[k] == t[k]
    ensures Contents(s, base, 0) == Contents(t, base, 0) && (Packed(s, base) <==> Packed(t, base))
  {
    Behind(s, t, base, 0);
    assert forall i :: 0 <= i < MAX_KEYS ==> Key(s, base, i) == Key(t, base, i);
  }

  lemma WritePacks(s: seq<Pointer>, base: nat, i: nat, key: Pointer, val: Pointer)
    requires i < MAX_KEYS && base + SLICE <= |s| && Packed(s, base) && Chosen(s, base, i, key)
    ensures Packed(Write(s, base, i, key, val), base)
  {
    var t := Write(s, base, i, key, val);
    assert forall j :: 0 <= j < MAX_KEYS ==> Key(t, base, j) == if j == i then key else Key(s, base, j);
  }

  // ----- the tables

  class Maps {
    const space: array<Pointer>
    var lastMap: int
    ghost var maps: seq<map<Pointer, Pointer>>   // what has been put into each map made so far

    ghost predicate Valid()
      reads this, space
    {
      && space.Length == MAX_MAPS * SLICE && -1 <= lastMap < MAX_MAPS && |maps| == lastMap + 1
      && (forall m :: 0 <= m < MAX_MAPS ==> Packed(space[..], m * SLICE))
      && (forall m :: 0 <= m < |maps| ==> maps[m] == Contents(space[..], m * SLICE, 0))
      && (forall m :: |maps| <= m < MAX_MAPS ==> Contents(space[..], m * SLICE, 0) == map[])
    }

    constructor ()
      ensures Valid() && maps == [] && fresh(space)
    {
      space := new Pointer[MAX_MAPS * SLICE](_ => NULL);
      lastMap := -1;
      maps := [];
    }

    /** A new map, unless all are in use, which is fatal. */
    method CreateMap() returns (m: Option<nat>)
      requires Valid()
      modifies this
      ensures m.Some? <==> |old(maps)| < MAX_MAPS
      ensures m.Some? ==> Valid() && m.value == |old(maps)| * SLICE && maps == old(maps) + [map[]]
      ensures m == None ==> unchanged(space)
    {
      lastMap := lastMap + 1;
      if lastMap >= MAX_MAPS { return None; }
      maps := maps + [map[]];
      m := Some(lastMap * SLICE);
    }

    /** The slot that decides: the first free one or the one with the key, or none. */
    method FindSlot(base: nat, key: Pointer) returns (i: nat)
      requires Valid() && base + SLICE <= space.Length
      ensures i <= MAX_KEYS
      ensures i < MAX_KEYS ==> Chosen(space[..], base, i, key)
      ensures i == MAX_KEYS ==>
        forall j :: 0 <= j < MAX_KEYS ==> Key(space[..], base, j) != NULL && Key(space[..], base, j) != key
    {
      i := 0;
      while i < MAX_KEYS && space[base + 2 * i] != NULL && space[base + 2 * i] != key
        invariant i <= MAX_KEYS
        invariant forall j :: 0 <= j < i ==> Key(space[..], base, j) != NULL && Key(space[..], base, j) != key
      {
        i := i + 1;
      }
    }

    /** Put a pair into a map: the map gets it, no other map changes. A full map takes no new key (fatal), and a
        null key leaves no trace. */
    method PutMap(m: nat, key: Pointer, val: Pointer) returns (ok: bool)
      requires Valid() && m < |maps|
      modifies this`maps, space
      ensures ok <==> |old(maps)[m]| < MAX_KEYS || key in old(maps)[m]
      ensures Valid()
      ensures maps == if ok && key != NULL then old(maps)[m := old(maps)[m][key := val]] else old(maps)
    {
      hide Contents, Packed, Chosen;
      ghost var s, base := space[..], m * SLICE;
      assert Packed(s, base);
      var i := FindSlot(m * SLICE, key);
      ContentsSize(s, base, 0);
      ContentsKeys(s, base, 0, key);
      if i == MAX_KEYS { return false; }
      ChosenRoom(s, base, i, key);
      space[m * SLICE + 2 * i] := key;
      space[m * SLICE + 2 * i + 1] := val;
      assert space[..] == Write(s, base, i, key, val);
      WritePuts(s, base, 0, i, key, val);
      WritePacks(s, base, i, key, val);
      forall n | 0 <= n < MAX_MAPS && n != m
        ensures Contents(space[..], n * SLICE, 0) == Contents(s, n * SLICE, 0) && Packed(space[..], n * SLICE)
      {
        assert Packed(s, n * SLICE);
        SameSlice(s, space[..], n * SLICE);
      }
      if key != NULL { maps := maps[m := maps[m][key := val]]; }
      ok := true;
    }

    /** The value put last under the key, or null. */
    method GetMap(m: nat, key: Pointer) returns (val: Pointer)
      requires Valid() && m < |maps|
      ensures val == Get(maps[m], key)
    {
      hide Packed;
      ghost var s, base := space[..], m * SLICE;
      var i := 0;
      while i < MAX_KEYS
        invariant 0 <= i <= MAX_KEYS
        invariant Get(Contents(s, base, i), key) == Get(maps[m], key)
      {
        if space[m * SLICE + 2 * i] == NULL { return NULL; }
        if space[m * SLICE + 2 * i] == key { return space[m * SLICE + 2 * i + 1]; }
        i := i + 1;
      }
      val := NULL;
    }
  }

  lemma ChosenRoom(s: seq<Pointer>, base: nat, i: nat, key: Pointer)
    requires i < MAX_KEYS && base + SLICE <= |s| && Packed(s, base) && Chosen(s, base, i, key)
    ensures |Contents(s, base, 0)| < MAX_KEYS || key in Contents(s, base, 0)
  {
    ContentsSize(s, base, 0);
    ContentsKeys(s, base, 0, key);
  }
}
