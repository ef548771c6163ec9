/**
 * The string primitives the JavaScript and Python sources lean on:
 * `split`/`join` on one separator character, prefix and suffix tests,
 * `trim` and ASCII lower-casing.  Strings are sequences of characters.
 */
module Text {

  /** `s.split(c)` in JavaScript (no limit) and `s.split(c)` in Python. */
  function Split(s: string, c: char): (r: seq<string>)
    ensures |r| >= 1
    ensures forall i :: 0 <= i < |r| ==> c !in r[i]
    ensures c in s ==> |r| >= 2
  {
    if s == [] then [[]]
    else
      var rest := Split(s[1..], c);
      if s[0] == c then [[]] + rest
      else [[s[0]] + rest[0]] + rest[1..]
  }

  /** `parts.join(c)`. */
  function Join(parts: seq<string>, c: char): string
  {
    if |parts| == 0 then []
    else if |parts| == 1 then parts[0]
    else parts[0] + [c] + Join(parts[1..], c)
  }

  /** Joining the pieces of a split gives back the string. */
  lemma {:induction false} JoinSplit(s: string, c: char)
    ensures Join(Split(s, c), c) == s
  {
    if s != [] {
      var rest := Split(s[1..], c);
      JoinSplit(s[1..], c);
      if s[0] == c {
        assert Split(s, c) == [[]] + rest;
      } else {
        var r := Split(s, c);
        assert r == [[s[0]] + rest[0]] + rest[1..];
        if |rest| == 1 {
          assert Join(rest, c) == rest[0];
        } else {
          assert Join(rest, c) == rest[0] + [c] + Join(rest[1..], c);
          assert r[1..] == rest[1..];
        }
      }
    }
  }

  /** Splitting a join of separator-free pieces gives back the pieces. */
  lemma {:induction false} SplitJoin(parts: seq<string>, c: char)
    requires |parts| >= 1
    requires forall i :: 0 <= i < |parts| ==> c !in parts[i]
    ensures Split(Join(parts, c), c) == parts
  {
    if |parts| == 1 {
      SplitNoSep(parts[0], c);
    } else {
      SplitJoin(parts[1..], c);
      SplitAppend(parts[0], Join(parts[1..], c), c);
      SplitNoSep(parts[0], c);
      assert parts == [parts[0]] + parts[1..];
    }
  }

  /** A string without the separator splits into itself. */
  lemma {:induction false} SplitNoSep(s: string, c: char)
    requires c !in s
    ensures Split(s, c) == [s]
  {
    if s != [] {
      SplitNoSep(s[1..], c);
      assert [s[0]] + s[1..] == s;
    }
  }

  /** Splitting around one separator concatenates the two splits, joining their
      facing pieces. */
  lemma {:induction false} SplitAppend(a: string, b: string, c: char)
    ensures Split(a + [c] + b, c) == Split(a, c) + Split(b, c)
  {
    var s := a + [c] + b;
    if a == [] {
      assert s[0] == c && s[1..] == b;
    } else {
      var t := a[1..] + [c] + b;
      assert s[0] == a[0] && s[1..] == t;
      SplitAppend(a[1..], b, c);
      var ra := Split(a[1..], c);
      var sb := Split(b, c);
      var rest := Split(t, c);
      assert rest == ra + sb;
      if a[0] == c {
        assert Split(s, c) == [[]] + rest;
        assert Split(a, c) == [[]] + ra;
      } else {
        assert Split(s, c) == [[a[0]] + rest[0]] + rest[1..];
        assert rest[0] == ra[0];
        assert rest[1..] == ra[1..] + sb;
        assert Split(a, c) == [[a[0]] + ra[0]] + ra[1..];
      }
    }
  }

  function StartsWith(s: string, prefix: string): bool {
    |prefix| <= |s| && s[..|prefix|] == prefix
  }

  /** A string starts with the first character of any non-empty prefix it has. */
  lemma StartsWithHead(s: string, prefix: string)
    requires StartsWith(s, prefix) && prefix != []
    ensures s != [] && s[0] == prefix[0]
  {
    assert s[..|prefix|][0] == s[0];
  }

  function EndsWith(s: string, suffix: string): bool {
    |suffix| <= |s| && s[|s| - |suffix|..] == suffix
  }

  /** The characters JavaScript's `trim()` removes: white space (tab, vertical
      tab, form feed, space, no-break space, the byte order mark and the
      other space separators) and line terminators. */
  predicate IsSpace(ch: char) {
    ch == ' ' || ch == '\t' || ch == '\n' || ch == '\r' || ch == '\U{B}' || ch == '\U{C}'
    || ch == '\U{A0}' || ch == '\U{1680}' || ('\U{2000}' <= ch <= '\U{200A}')
    || ch == '\U{2028}' || ch == '\U{2029}' || ch == '\U{202F}' || ch == '\U{205F}'
    || ch == '\U{3000}' || ch == '\U{FEFF}'
  }

  function TrimStart(s: string): (r: string)
    ensures r == [] || !IsSpace(r[0])
    ensures |r| <= |s| && s[|s| - |r|..] == r
  {
    if s != [] && IsSpace(s[0]) then TrimStart(s[1..]) else s
  }

  function TrimEnd(s: string): (r: string)
    ensures r == [] || !IsSpace(r[|r| - 1])
    ensures |r| <= |s| && s[..|r|] == r
  {
    if s != [] && IsSpace(s[|s| - 1]) then TrimEnd(s[..|s| - 1]) else s
  }

  /** `s.trim()`: a middle part of `s` with no blank at either end. */
  function Trim(s: string): (r: string)
    ensures r == [] || (!IsSpace(r[0]) && !IsSpace(r[|r| - 1]))
  {
    TrimEnd(TrimStart(s))
  }

  /** Trimming twice is trimming once. */
  lemma TrimIdempotent(s: string)
    ensures Trim(Trim(s)) == Trim(s)
  {
    var t := Trim(s);
    assert TrimStart(t) == t;
    assert TrimEnd(t) == t;
  }

  /** The string is empty once trimmed (`!s.trim()`). */
  predicate IsBlank(s: string) {
    Trim(s) == []
  }

  function LowerChar(ch: char): char {
    if 'A' <= ch <= 'Z' then (ch as int + 32) as char else ch
  }

  /** `toLowerCase()` on the ASCII letters. */
  function Lower(s: string): (r: string)
    ensures |r| == |s|
    ensures forall i :: 0 <= i < |s| ==> r[i] == LowerChar(s[i])
  {
    if s == [] then [] else [LowerChar(s[0])] + Lower(s[1..])
  }

  /** Case-insensitive equality as the sources write it (`a.toLowerCase() === b.toLowerCase()`). */
  predicate SameIgnoringCase(a: string, b: string) {
    Lower(a) == Lower(b)
  }

  /** Index of the first `c` in `s`, or `|s|` when there is none. */
  function IndexOf(s: string, c: char): (k: nat)
    ensures k <= |s|
    ensures forall i :: 0 <= i < k ==> s[i] != c
    ensures k < |s| ==> s[k] == c
  {
    if s == [] then 0 else if s[0] == c then 0 else 1 + IndexOf(s[1..], c)
  }

  /** Duplicates removed, first occurrences kept in order: `[...new Set(xs)]`. */
  function Dedup<T(==)>(xs: seq<T>): (r: seq<T>)
  {
    DedupFrom(xs, [])
  }

  function DedupFrom<T(==)>(xs: seq<T>, seen: seq<T>): seq<T>
  {
    if xs == [] then []
    else if xs[0] in seen then DedupFrom(xs[1..], seen)
    else [xs[0]] + DedupFrom(xs[1..], seen + [xs[0]])
  }

  predicate Distinct<T(==)>(xs: seq<T>) {
    forall i, j :: 0 <= i < j < |xs| ==> xs[i] != xs[j]
  }

  /** What `DedupFrom` keeps: exactly the elements not already seen, without repeats. */
  lemma {:induction false} DedupFromSpec<T>(xs: seq<T>, seen: seq<T>)
    ensures Distinct(DedupFrom(xs, seen))
    ensures forall x :: x in DedupFrom(xs, seen) <==> x in xs && x !in seen
  {
    if xs != [] {
      DedupFromSpec(xs[1..], seen);
      DedupFromSpec(xs[1..], seen + [xs[0]]);
      assert xs == [xs[0]] + xs[1..];
    }
  }

  /** `[...new Set(xs)]` is duplicate-free and keeps every element. */
  lemma DedupSpec<T>(xs: seq<T>)
    ensures Distinct(Dedup(xs))
    ensures forall x :: x in Dedup(xs) <==> x in xs
  {
    DedupFromSpec(xs, []);
  }

  /** Deduplicating a concatenation keeps the deduplicated left part as a prefix. */
  lemma {:induction false} DedupFromPrefix<T>(xs: seq<T>, ys: seq<T>, seen: seq<T>)
    ensures DedupFrom(xs + ys, seen) == DedupFrom(xs, seen) + DedupFrom(ys, seen + DedupFrom(xs, seen))
  {
    if xs == [] {
      assert xs + ys == ys;
      assert seen + [] == seen;
    } else {
      assert (xs + ys)[0] == xs[0];
      assert (xs + ys)[1..] == xs[1..] + ys;
      if xs[0] in seen {
        DedupFromPrefix(xs[1..], ys, seen);
      } else {
        DedupFromPrefix(xs[1..], ys, seen + [xs[0]]);
        DedupFromSeenSet(ys, seen + [xs[0]] + DedupFrom(xs[1..], seen + [xs[0]]),
                         seen + ([xs[0]] + DedupFrom(xs[1..], seen + [xs[0]])));
      }
    }
  }

  /** Only the set of seen elements matters. */
  lemma {:induction false} DedupFromSeenSet<T>(xs: seq<T>, s1: seq<T>, s2: seq<T>)
    requires forall x :: x in s1 <==> x in s2
    ensures DedupFrom(xs, s1) == DedupFrom(xs, s2)
  {
    if xs != [] {
      DedupFromSeenSet(xs[1..], s1, s2);
      DedupFromSeenSet(xs[1..], s1 + [xs[0]], s2 + [xs[0]]);
    }
  }

  /** A duplicate-free sequence is its own deduplication. */
  lemma {:induction false} DedupDistinct<T>(xs: seq<T>, seen: seq<T>)
    requires Distinct(xs)
    requires forall x :: x in xs ==> x !in seen
    ensures DedupFrom(xs, seen) == xs
  {
    if xs != [] {
      var tail := xs[1..];
      DistinctTail(xs);
      DedupDistinct(tail, seen + [xs[0]]);
      assert xs == [xs[0]] + tail;
    }
  }

  lemma DistinctTail<T>(xs: seq<T>)
    requires Distinct(xs) && xs != []
    ensures Distinct(xs[1..])
    ensures xs[0] in xs && forall x :: x in xs[1..] ==> x in xs && x != xs[0]
  {
    var tail := xs[1..];
    assert forall i :: 0 <= i < |tail| ==> tail[i] == xs[i + 1];
  }

  // ---------------------------------------------------------------------------
  // Set sizes, for the termination of walks that only grow a visited set

  lemma SubsetCard<T>(a: set<T>, b: set<T>)
    requires a <= b
    ensures |a| <= |b|
    decreases |a|
  {
    if a != {} {
      var x :| x in a;
      SubsetCard(a - {x}, b - {x});
    }
  }

  /** Visiting a new key shrinks the set of keys not yet visited. */
  lemma CardShrinks<T>(keys: set<T>, v0: set<T>, v1: set<T>, x: T)
    requires v0 <= v1 && x in keys && x !in v0 && x in v1
    ensures |keys - v1| < |keys - v0|
  {
    SubsetCard(keys - v1, (keys - v0) - {x});
  }

  /** Taking one more element of a sequence, after a fixed prefix. */
  lemma TakeOneMore<T>(done: seq<T>, s: seq<T>, k: nat)
    requires k < |s|
    ensures done + s[..k + 1] == (done + s[..k]) + [s[k]]
    ensures s[..k + 1] == s[..k] + [s[k]]
  {
    assert s[..k + 1] == s[..k] + [s[k]];
  }

  function DigitChar(d: nat): char
    requires d < 10
  {
    ('0' as int + d) as char
  }

  /** The decimal digits of `n`, as a template literal prints a
      non-negative integer. */
  function NatToString(n: nat): (s: string)
    ensures |s| > 0 && forall i :: 0 <= i < |s| ==> '0' <= s[i] <= '9'
  {
    if n < 10 then [DigitChar(n)] else NatToString(n / 10) + [DigitChar(n % 10)]
  }
}
