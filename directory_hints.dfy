/**
 * Directory hints: a record from a compiler attribute name (`meshdir`,
 * `texturedir`, ...) to the directories it names.  Keys keep their insertion
 * order, as JavaScript object keys and Python dictionary keys do, so the
 * record is an ordered sequence of entries.  Both asset collectors merge a
 * parent file's hints with an included file's own the same way.
 */
module DirectoryHints {
  import opened Text

  datatype Hint<T> = Hint(key: string, dirs: seq<T>)
  type Hints<T> = seq<Hint<T>>

  /** The compiler attributes that hint where a tag's files live. */
  function TagDirectoryHints(tag: string): seq<string> {
    if tag == "include" then ["includedir"]
    else if tag == "mesh" then ["meshdir"]
    else if tag == "texture" then ["texturedir"]
    else if tag == "heightfield" then ["heightfielddir"]
    else if tag == "skin" then ["skindir"]
    else []
  }

  /** The directories hinted under each of `names`, in that order. */
  function HintedDirs<T>(names: seq<string>, hints: Hints<T>): seq<T> {
    if names == [] then [] else Get(hints, names[0]) + HintedDirs(names[1..], hints)
  }

  function Keys<T>(h: Hints<T>): seq<string> {
    if h == [] then [] else [h[0].key] + Keys(h[1..])
  }

  predicate HasKey<T>(h: Hints<T>, key: string) {
    key in Keys(h)
  }

  predicate DistinctKeys<T>(h: Hints<T>) {
    h == [] || (h[0].key !in Keys(h[1..]) && DistinctKeys(h[1..]))
  }

  /** `h[key]`, with a missing key read as no directories. */
  function Get<T>(h: Hints<T>, key: string): seq<T> {
    if h == [] then []
    else if h[0].key == key then h[0].dirs
    else Get(h[1..], key)
  }

  /** `h[key] = dirs`: replaces the entry in place, or appends a new key. */
  function Put<T>(h: Hints<T>, key: string, dirs: seq<T>): Hints<T> {
    if h == [] then [Hint(key, dirs)]
    else if h[0].key == key then [Hint(key, dirs)] + h[1..]
    else [h[0]] + Put(h[1..], key, dirs)
  }

  /** `Object.values(h)` flattened, in key order. */
  function AllDirs<T>(h: Hints<T>): seq<T> {
    if h == [] then [] else h[0].dirs + AllDirs(h[1..])
  }

  lemma {:induction false} GetPut<T>(h: Hints<T>, key: string, dirs: seq<T>, other: string)
    ensures Get(Put(h, key, dirs), key) == dirs
    ensures other != key ==> Get(Put(h, key, dirs), other) == Get(h, other)
    ensures Keys(Put(h, key, dirs)) == if key in Keys(h) then Keys(h) else Keys(h) + [key]
    ensures DistinctKeys(h) ==> DistinctKeys(Put(h, key, dirs))
  {
    if h != [] {
      GetPut(h[1..], key, dirs, other);
      var p := Put(h, key, dirs);
      if h[0].key == key {
        assert p[1..] == h[1..];
      } else {
        assert p[1..] == Put(h[1..], key, dirs);
        assert Keys(p) == [h[0].key] + Keys(Put(h[1..], key, dirs));
      }
    }
  }

  lemma {:induction false} GetAbsent<T>(h: Hints<T>, key: string)
    requires !HasKey(h, key)
    ensures Get(h, key) == []
  {
    if h != [] {
      GetAbsent(h[1..], key);
    }
  }

  // ---------------------------------------------------------------------------
  // Merging a parent's hints with a file's own

  function MergeInto<T>(m: Hints<T>, local: Hints<T>): Hints<T>
    decreases |local|
  {
    if local == [] then m
    else MergeInto(Put(m, local[0].key, Get(m, local[0].key) + local[0].dirs), local[1..])
  }

  function DedupValues<T(==)>(h: Hints<T>): (r: Hints<T>)
    ensures |r| == |h|
    ensures forall i :: 0 <= i < |h| ==> r[i] == Hint(h[i].key, Dedup(h[i].dirs))
  {
    if h == [] then [] else [Hint(h[0].key, Dedup(h[0].dirs))] + DedupValues(h[1..])
  }

  /** Merging: a copy of the parent with each local list
      appended under its key, every list then deduplicated. */
  function MergeHints<T(==)>(parent: Hints<T>, local: Hints<T>): Hints<T> {
    DedupValues(MergeInto(parent, local))
  }

  lemma {:induction false} MergeIntoSpec<T>(m: Hints<T>, local: Hints<T>, key: string)
    requires DistinctKeys(local)
    ensures Get(MergeInto(m, local), key) == Get(m, key) + Get(local, key)
    ensures HasKey(MergeInto(m, local), key) <==> HasKey(m, key) || HasKey(local, key)
    ensures Keys(m) <= Keys(MergeInto(m, local))
    decreases |local|
  {
    if local == [] {
      assert Get(m, key) + [] == Get(m, key);
    } else {
      var k0 := local[0].key;
      var m1 := Put(m, k0, Get(m, k0) + local[0].dirs);
      GetPut(m, k0, Get(m, k0) + local[0].dirs, key);
      MergeIntoSpec(m1, local[1..], key);
      if k0 == key {
        GetAbsent(local[1..], key);
        assert (Get(m, key) + local[0].dirs) + [] == Get(m, key) + Get(local, key);
      }
    }
  }

  lemma {:induction false} DedupValuesGet<T>(h: Hints<T>, key: string)
    ensures Get(DedupValues(h), key) == Dedup(Get(h, key))
    ensures Keys(DedupValues(h)) == Keys(h)
  {
    if h != [] {
      DedupValuesGet(h[1..], key);
      var d := DedupValues(h);
      assert d[1..] == DedupValues(h[1..]);
    } else {
      assert Dedup<T>([]) == [];
    }
  }

  /** Merging: every parent key survives and local keys are
      added; each key's list is the parent's directories followed by the local
      ones, without repeats (first occurrence kept); the parent's keys keep
      their order at the front. */
  lemma MergeHintsSpec<T>(parent: Hints<T>, local: Hints<T>, key: string)
    requires DistinctKeys(local)
    ensures var merged := MergeHints(parent, local);
      && Get(merged, key) == Dedup(Get(parent, key) + Get(local, key))
      && (HasKey(merged, key) <==> HasKey(parent, key) || HasKey(local, key))
      && Keys(parent) <= Keys(merged)
      && Distinct(Get(merged, key))
      && (forall d :: d in Get(merged, key) <==> d in Get(parent, key) || d in Get(local, key))
  {
    MergeIntoSpec(parent, local, key);
    DedupValuesGet(MergeInto(parent, local), key);
    DedupSpec(Get(parent, key) + Get(local, key));
  }
}
