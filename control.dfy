/**
 * Shared vocabulary of the action managers: zero-filled `Float32Array`s,
 * reads that tolerate a missing index, and the effect of writing a list of
 * values into `mjData.ctrl` at given addresses (a typed array ignores writes
 * outside its bounds).
 */
module Control {

  /** `new Float32Array(n)`. */
  function Zeros(n: nat): (z: seq<real>)
    ensures |z| == n && forall i :: 0 <= i < n ==> z[i] == 0.0
  {
    seq(n, _ => 0.0)
  }

  /** `new Float32Array(n).fill(x)`. */
  function Fill(n: nat, x: real): (f: seq<real>)
    ensures |f| == n && forall i :: 0 <= i < n ==> f[i] == x
  {
    seq(n, _ => x)
  }

  /** `array.fill(0)`. */
  method ZeroFill(a: array<real>)
    modifies a
    ensures a[..] == Zeros(a.Length)
  {
    for i := 0 to a.Length
      invariant forall j :: 0 <= j < i ==> a[j] == 0.0
    {
      a[i] := 0.0;
    }
  }

  /** A history shifted one slot back by `h[i] = h[i - 1]` from the back:
      the oldest entry drops out and slot 0 keeps what it held, so slots 0
      and 1 then hold the same entry. */
  function ShiftedBack<T>(buffer: seq<T>): (r: seq<T>)
    ensures |r| == |buffer|
    ensures |buffer| > 0 ==> r[0] == buffer[0]
    ensures forall i :: 0 < i < |buffer| ==> r[i] == buffer[i - 1]
  {
    if buffer == [] then [] else [buffer[0]] + buffer[..|buffer| - 1]
  }

  /** `for (i = h.length - 1; i > 0; i--) h[i] = h[i - 1]`. */
  method ShiftBack<T>(buffer: seq<T>) returns (r: seq<T>)
    ensures r == ShiftedBack(buffer)
  {
    r := buffer;
    var i := |r| - 1;
    while i > 0
      invariant 0 <= i < |buffer| || (i == -1 && buffer == [])
      invariant |r| == |buffer|
      invariant forall j :: 0 <= j <= i ==> r[j] == buffer[j]
      invariant forall j :: i < j < |buffer| ==> r[j] == buffer[j - 1]
    {
      r := r[i := r[i - 1]];
      i := i - 1;
    }
  }

  /** The history after a new entry: each entry moves one slot back, the
      oldest drops out, and slot 0 holds the new entry.  An empty history
      gains its first slot (`h[0] = x` on an empty array). */
  function Shifted<T>(buffer: seq<T>, x: T): (r: seq<T>)
    ensures |r| == if buffer == [] then 1 else |buffer|
    ensures r[0] == x
    ensures forall i :: 0 < i < |buffer| ==> r[i] == buffer[i - 1]
  {
    if buffer == [] then [x] else ShiftedBack(buffer)[0 := x]
  }

  /** The shift loop followed by `h[0] = x`. */
  method ShiftHistory<T>(buffer: seq<T>, x: T) returns (r: seq<T>)
    ensures r == Shifted(buffer, x)
  {
    r := ShiftBack(buffer);
    if r == [] {
      r := [x];
    } else {
      r := r[0 := x];
    }
  }

  /** `s.indexOf(x)` and `s.findIndex(y => y === x)`: the first position of
      `x`, or -1. */
  function IndexOf<T(==)>(s: seq<T>, x: T): (r: int)
    ensures -1 <= r < |s|
    ensures r == -1 <==> x !in s
    ensures r >= 0 ==> s[r] == x && forall j :: 0 <= j < r ==> s[j] != x
  {
    if s == [] then -1
    else if s[0] == x then 0
    else
      var k := IndexOf(s[1..], x);
      if k < 0 then -1 else k + 1
  }

  /** `s[i]` read as a number; a missing element reads as 0. */
  function RealAt(s: seq<real>, i: int): real {
    if 0 <= i < |s| then s[i] else 0.0
  }

  /** `s[i]` read as an address; a missing element reads as -1, an address
      no array has. */
  function IntAt(s: seq<int>, i: int): int {
    if 0 <= i < |s| then s[i] else -1
  }

  /** `ctrl[adr] = v`: a write outside the array changes nothing. */
  function Put(ctrl: seq<real>, adr: int, v: real): (c: seq<real>)
    ensures |c| == |ctrl|
  {
    if 0 <= adr < |ctrl| then ctrl[adr := v] else ctrl
  }

  /** `for (i = 0; i < n; i++) ctrl[addrs[i]] = values[i]`. */
  function Written(ctrl: seq<real>, addrs: seq<int>, values: seq<real>, n: nat): (c: seq<real>)
    ensures |c| == |ctrl|
  {
    if n == 0 then ctrl else Put(Written(ctrl, addrs, values, n - 1), IntAt(addrs, n - 1), RealAt(values, n - 1))
  }

  /** The last of the first `n` writes aimed at slot `c`, or -1. */
  function LastWriter(addrs: seq<int>, n: nat, c: int): (k: int)
    ensures -1 <= k < n
    ensures k >= 0 ==> IntAt(addrs, k) == c && forall j :: k < j < n ==> IntAt(addrs, j) != c
    ensures k == -1 ==> forall j :: 0 <= j < n ==> IntAt(addrs, j) != c
  {
    if n == 0 then -1 else if IntAt(addrs, n - 1) == c then n - 1 else LastWriter(addrs, n - 1, c)
  }

  /** After the writes, each slot holds the value of the last write aimed at
      it, and a slot no write aimed at keeps its old value. */
  lemma {:induction false} WrittenSlot(ctrl: seq<real>, addrs: seq<int>, values: seq<real>, n: nat, c: int)
    requires 0 <= c < |ctrl|
    ensures var k := LastWriter(addrs, n, c);
      Written(ctrl, addrs, values, n)[c] == if k == -1 then ctrl[c] else RealAt(values, k)
  {
    if n > 0 {
      WrittenSlot(ctrl, addrs, values, n - 1, c);
    }
  }

  /** One more write on top of `n` writes. */
  lemma WrittenStep(ctrl: seq<real>, addrs: seq<int>, values: seq<real>, n: nat)
    ensures Written(ctrl, addrs, values, n + 1)
         == Put(Written(ctrl, addrs, values, n), IntAt(addrs, n), RealAt(values, n))
  {
  }

  /** The PD law `kp * (target - q) + kd * (targetVel - qd)`. */
  function PdTorque(kp: real, kd: real, target: real, q: real, targetVel: real, qd: real): (t: real)
    ensures kp == 0.0 && kd == 0.0 ==> t == 0.0
    ensures target == q && targetVel == qd ==> t == 0.0
  {
    kp * (target - q) + kd * (targetVel - qd)
  }
}
