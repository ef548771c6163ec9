/** `Array.prototype.sort()` with the default comparator on distinct strings:
    character-by-character order, a proper prefix first. */
module Sorting {

  /** `a` sorts strictly before `b`. */
  predicate Less(a: string, b: string)
    decreases |a|
  {
    if a == [] then b != []
    else if b == [] then false
    else if a[0] != b[0] then a[0] < b[0]
    else Less(a[1..], b[1..])
  }

  lemma {:induction false} LessIrreflexive(a: string)
    ensures !Less(a, a)
  {
    if a != [] { LessIrreflexive(a[1..]); }
  }

  lemma {:induction false} LessTotal(a: string, b: string)
    requires a != b
    ensures Less(a, b) || Less(b, a)
  {
    if a != [] && b != [] && a[0] == b[0] {
      assert a == [a[0]] + a[1..] && b == [b[0]] + b[1..];
      LessTotal(a[1..], b[1..]);
    }
  }

  lemma {:induction false} LessTransitive(a: string, b: string, c: string)
    requires Less(a, b) && Less(b, c)
    ensures Less(a, c)
  {
    if a != [] && a[0] == b[0] && b[0] == c[0] {
      LessTransitive(a[1..], b[1..], c[1..]);
    }
  }

  lemma LessAsymmetric(a: string, b: string)
    requires Less(a, b)
    ensures !Less(b, a)
  {
    if Less(b, a) {
      LessTransitive(a, b, a);
      LessIrreflexive(a);
    }
  }

  predicate StrictlySorted(xs: seq<string>) {
    forall i, j :: 0 <= i < j < |xs| ==> Less(xs[i], xs[j])
  }

  /** Insert `x` at its place in a strictly sorted sequence. */
  function Insert(xs: seq<string>, x: string): seq<string> {
    if xs == [] then [x]
    else if Less(x, xs[0]) then [x] + xs
    else [xs[0]] + Insert(xs[1..], x)
  }

  lemma {:induction false} InsertSorted(xs: seq<string>, x: string)
    requires StrictlySorted(xs) && x !in xs
    ensures StrictlySorted(Insert(xs, x))
    ensures forall y :: y in Insert(xs, x) <==> y in xs || y == x
  {
    if xs == [] {
    } else if Less(x, xs[0]) {
      var r := [x] + xs;
      forall i, j | 0 <= i < j < |r| ensures Less(r[i], r[j]) {
        if i == 0 && j > 1 { LessTransitive(x, xs[0], xs[j - 1]); }
      }
    } else {
      LessTotal(x, xs[0]);
      assert xs == [xs[0]] + xs[1..];
      InsertSorted(xs[1..], x);
      var t := Insert(xs[1..], x);
      var r := [xs[0]] + t;
      forall i, j | 0 <= i < j < |r| ensures Less(r[i], r[j]) {
        if i == 0 {
          assert r[j] in t;
          if r[j] != x {
            var k :| 1 <= k < |xs| && xs[k] == r[j];
          }
        }
      }
    }
  }

  /** `Array.from(s).sort()`: the elements of `s` in strictly increasing order. */
  method SortedList(s: set<string>) returns (r: seq<string>)
    ensures StrictlySorted(r)
    ensures forall y :: y in r <==> y in s
  {
    r := [];
    var rest := s;
    while rest != {}
      invariant StrictlySorted(r)
      invariant forall y :: y in r ==> y in s && y !in rest
      invariant forall y :: y in s ==> y in r || y in rest
      invariant rest <= s
      decreases |rest|
    {
      var x :| x in rest;
      InsertSorted(r, x);
      r := Insert(r, x);
      rest := rest - {x};
    }
  }

  /** A strictly sorted sequence has no repeated element. */
  lemma SortedDistinct(xs: seq<string>, i: int, j: int)
    requires StrictlySorted(xs) && 0 <= i < j < |xs|
    ensures xs[i] != xs[j]
  {
    LessIrreflexive(xs[i]);
  }
}
