/**
 * The atomic observation components of `src/core/observation/atomic.ts`.
 * Each keeps `history_steps` slots of readings and returns them flattened,
 * one block per slot.  The frame rotations that produce the base-frame
 * vectors are floating-point geometry and enter as already-rotated inputs.
 */
module Atomic {
  import opened Wrappers
  import opened Control

  datatype Vec3 = Vec3(x: real, y: real, z: real)

  /** `new Float32Array([v.x * s, v.y * s, v.z * s])`. */
  function Scaled(v: Vec3, s: real): (r: seq<real>)
    ensures |r| == 3
  {
    [v.x * s, v.y * s, v.z * s]
  }

  lemma MulMono(a: int, b: int, n: int)
    requires n > 0 && a <= b
    ensures a * n <= b * n
  {
    var d := b - a;
    assert b * n == a * n + d * n;
    assert d * n >= 0;
  }

  lemma MulGap(a: int, b: int, n: int)
    requires n > 0
    ensures a < b ==> a * n + n <= b * n
  {
    if a < b {
      MulMono(a + 1, b, n);
      assert (a + 1) * n == a * n + n;
    }
  }

  /** Cell `j` of block `i` lies inside a buffer of `steps` blocks of `n`. */
  lemma BlockInside(i: int, j: int, n: int, steps: int)
    requires n > 0 && 0 <= j < n && 0 <= i < steps
    ensures 0 <= i * n + j < steps * n
  {
    MulMono(0, i, n);
    MulGap(i, steps, n);
  }

  lemma DivModOf(i: int, j: int, n: int)
    requires n > 0 && 0 <= j < n && i >= 0
    ensures (i * n + j) / n == i && (i * n + j) % n == j
  {
    var k := i * n + j;
    var q := k / n;
    assert q * n + k % n == k;
    MulGap(q, i, n);
    MulGap(i, q, n);
  }

  /** Row `i` of a history, or `new Float32Array(n)` for a missing row. */
  function Row(rows: seq<seq<real>>, n: nat, i: int): seq<real> {
    if 0 <= i < |rows| then rows[i] else Zeros(n)
  }

  /** Entry `j` of row `i`; a missing entry reads as 0. */
  function Cell(rows: seq<seq<real>>, n: nat, i: int, j: int): real {
    RealAt(Row(rows, n, i), j)
  }

  /** `flattened.set(rows[i], i * n)` for every `i < steps`: block `i` of
      the result is row `i`. */
  function Flattened(rows: seq<seq<real>>, n: nat, steps: nat): (f: seq<real>)
    ensures |f| == steps * n
  {
    seq(steps * n, k requires 0 <= k < steps * n => if n == 0 then 0.0 else Cell(rows, n, k / n, k % n))
  }

  /** `flattened[j * steps + i] = rows[i][j]`: the rows laid out column by
      column. */
  function Transposed(rows: seq<seq<real>>, n: nat, steps: nat): (f: seq<real>)
    ensures |f| == steps * n
  {
    seq(steps * n, k requires 0 <= k < steps * n => if steps == 0 then 0.0 else Cell(rows, n, k % steps, k / steps))
  }

  /** Position `i * n + j` of the flattened history holds entry `j` of row
      `i`. */
  lemma FlattenedAt(rows: seq<seq<real>>, n: nat, steps: nat, i: int, j: int)
    requires 0 <= i < steps && 0 <= j < n
    ensures 0 <= i * n + j < steps * n && Flattened(rows, n, steps)[i * n + j] == Cell(rows, n, i, j)
  {
    BlockInside(i, j, n, steps);
    DivModOf(i, j, n);
  }

  /** Position `j * steps + i` of the transposed layout holds entry `j` of
      row `i`: the same entries as the flattened layout, column-major. */
  lemma TransposedAt(rows: seq<seq<real>>, n: nat, steps: nat, i: int, j: int)
    requires 0 <= i < steps && 0 <= j < n
    ensures 0 <= j * steps + i < steps * n && Transposed(rows, n, steps)[j * steps + i] == Cell(rows, n, i, j)
  {
    BlockInside(j, i, steps, n);
    DivModOf(j, i, steps);
  }

  /** Block `i` of the flattened history is row `i`, and it ends inside
      the buffer. */
  lemma FlattenedBlock(rows: seq<seq<real>>, n: nat, steps: nat, i: int)
    requires 0 <= i < steps
    ensures (i + 1) * n == i * n + n && i * n + n <= steps * n
    ensures forall j :: 0 <= j < n ==> Flattened(rows, n, steps)[i * n + j] == RealAt(Row(rows, n, i), j)
  {
    if n > 0 {
      MulGap(i, steps, n);
      forall j | 0 <= j < n
        ensures Flattened(rows, n, steps)[i * n + j] == RealAt(Row(rows, n, i), j)
      {
        FlattenedAt(rows, n, steps, i, j);
      }
    }
  }

  /** `flattened.set(source, off)` for the first `n` entries of `source`. */
  method WriteRow(flat: array<real>, off: nat, source: seq<real>, n: nat, ghost spec: seq<real>)
    requires off + n <= flat.Length == |spec|
    requires forall j :: 0 <= j < n ==> spec[off + j] == RealAt(source, j)
    requires forall k :: 0 <= k < flat.Length ==> flat[k] == if k < off then spec[k] else 0.0
    modifies flat
    ensures forall k :: 0 <= k < flat.Length ==> flat[k] == if k < off + n then spec[k] else 0.0
  {
    for j := 0 to n
      invariant forall k :: 0 <= k < flat.Length ==> flat[k] == if k < off + j then spec[k] else 0.0
    {
      flat[off + j] := RealAt(source, j);
    }
  }

  /** The normal flattening loop: `flattened.set(source, i * n)` per row,
      the part of a row past `n` left out. */
  method FlattenRows(rows: seq<seq<real>>, n: nat, steps: nat) returns (r: seq<real>)
    ensures r == Flattened(rows, n, steps)
  {
    var flat := new real[steps * n](_ => 0.0);
    ghost var spec := Flattened(rows, n, steps);
    var off := 0;
    for i := 0 to steps
      invariant off == i * n
      invariant forall k :: 0 <= k < flat.Length ==> flat[k] == if k < off then spec[k] else 0.0
    {
      FlattenedBlock(rows, n, steps, i);
      WriteRow(flat, off, Row(rows, n, i), n, spec);
      off := off + n;
    }
    r := flat[..];
    assert forall k :: 0 <= k < |r| ==> r[k] == spec[k];
  }

  /** Slot `k` of the transposed layout has been written once the loops
      reach row `i`, column `j`. */
  predicate Filled(k: int, steps: nat, i: int, j: int) {
    steps > 0 && (k % steps < i || (k % steps == i && k / steps < j))
  }

  lemma FilledStep(steps: nat, i: int, j: int, k: int)
    requires 0 <= i < steps && 0 <= j && 0 <= k
    ensures Filled(k, steps, i, j + 1) <==> Filled(k, steps, i, j) || k == j * steps + i
  {
    DivModOf(j, i, steps);
  }

  lemma FilledRow(steps: nat, n: nat, i: int, k: int)
    requires 0 <= i < steps && 0 <= k < steps * n
    ensures Filled(k, steps, i, n) <==> Filled(k, steps, i + 1, 0)
  {
    var q := k / steps;
    assert q * steps + k % steps == k;
    MulGap(n, q, steps);
  }

  /** The transposed flattening loop. */
  method TransposeRows(rows: seq<seq<real>>, n: nat, steps: nat) returns (r: seq<real>)
    ensures r == Transposed(rows, n, steps)
  {
    var flat := new real[steps * n](_ => 0.0);
    ghost var spec := Transposed(rows, n, steps);
    for i := 0 to steps
      invariant forall k :: 0 <= k < flat.Length ==> flat[k] == if Filled(k, steps, i, 0) then spec[k] else 0.0
    {
      var source := Row(rows, n, i);
      for j := 0 to n
        invariant forall k :: 0 <= k < flat.Length ==> flat[k] == if Filled(k, steps, i, j) then spec[k] else 0.0
      {
        TransposedAt(rows, n, steps, i, j);
        forall k | 0 <= k < flat.Length {
          FilledStep(steps, i, j, k);
        }
        flat[j * steps + i] := RealAt(source, j);
      }
      forall k | 0 <= k < flat.Length {
        FilledRow(steps, n, i, k);
      }
    }
    r := flat[..];
  }

  /**
   * `BaseLinearVelocity`, `BaseAngularVelocity` and `ProjectedGravity`: a
   * history of `steps` three-vectors.  Each reading is a fresh array put in
   * slot 0 after the references move one slot back, so block `i` of the
   * output is the reading of `i` calls ago, newest first.
   */
  class VectorHistory {
    const steps: nat
    /** `scale`; `ProjectedGravity` applies none (1). */
    const scale: real
    var history: seq<seq<real>>

    /** `history_steps` zero vectors. */
    constructor(steps: nat, scale: real)
      ensures this.steps == steps && this.scale == scale
      ensures |history| == steps && forall i :: 0 <= i < steps ==> history[i] == Zeros(3)
    {
      this.steps := steps;
      this.scale := scale;
      history := seq(steps, _ => Zeros(3));
    }

    /** `compute()` given the reading `v` (rotated into the base frame where
        the component does so). */
    method Compute(v: Vec3) returns (out: seq<real>)
      modifies this
      ensures history == Shifted(old(history), Scaled(v, scale))
      ensures out == Flattened(history, 3, steps)
    {
      history := ShiftHistory(history, Scaled(v, scale));
      out := FlattenRows(history, 3, steps);
    }
  }

  /** `BaseAngularVelocity`'s reading: `qvel[3..6]` in the world frame, or
      the rotated vector in the base frame. */
  function AngularReading(worldFrame: bool, qvel: seq<real>, rotated: Vec3): (v: Vec3)
    ensures worldFrame ==> v == Vec3(RealAt(qvel, 3), RealAt(qvel, 4), RealAt(qvel, 5))
    ensures !worldFrame ==> v == rotated
  {
    if worldFrame then Vec3(RealAt(qvel, 3), RealAt(qvel, 4), RealAt(qvel, 5)) else rotated
  }

  /** After a reading, block 0 of the output is that reading and every later
      block is the block before it in the previous output: newest first. */
  lemma NewestFirst(h: seq<seq<real>>, x: seq<real>, n: nat, i: int, j: int)
    requires |h| > 0 && 0 < i < |h| && 0 <= j < n
    ensures Flattened(Shifted(h, x), n, |h|)[i * n + j] == Flattened(h, n, |h|)[(i - 1) * n + j]
    ensures Flattened(Shifted(h, x), n, |h|)[j] == RealAt(x, j)
  {
    FlattenedAt(Shifted(h, x), n, |h|, i, j);
    FlattenedAt(h, n, |h|, i - 1, j);
    FlattenedAt(Shifted(h, x), n, |h|, 0, j);
  }

  /** What a joint component reads: `JointPositions` (positions at the
      `jnt_qposadr` addresses, optionally minus the default pose) or
      `JointVelocities` (velocities at the `jnt_dofadr` addresses). */
  datatype JointSource =
    | Positions(qposAdr: seq<int>, subtractDefault: bool, scale: real)
    | Velocities(qvelAdr: seq<int>, scale: real)
  {
    function Width(): nat {
      if Positions? then |qposAdr| else |qvelAdr|
    }
  }

  /** The current reading of each joint, scaled; a missing
      `runtime.defaultJpos` is all zeros, so subtracting it changes
      nothing. */
  function Readings(src: JointSource, qpos: seq<real>, qvel: seq<real>, defaultJpos: Option<seq<real>>)
    : (r: seq<real>)
    ensures |r| == src.Width()
    ensures src.Positions? && (!src.subtractDefault || defaultJpos.None?) ==>
      forall i :: 0 <= i < |r| ==> r[i] == RealAt(qpos, src.qposAdr[i]) * src.scale
    ensures src.Positions? && src.subtractDefault && defaultJpos.Some? ==>
      forall i :: 0 <= i < |r| ==> r[i] == (RealAt(qpos, src.qposAdr[i]) - RealAt(defaultJpos.value, i)) * src.scale
    ensures src.Velocities? ==> forall i :: 0 <= i < |r| ==> r[i] == RealAt(qvel, src.qvelAdr[i]) * src.scale
  {
    match src
      case Positions(adr, sub, s) =>
        var defaults := defaultJpos.GetOr(Zeros(|adr|));
        seq(|adr|, i requires 0 <= i < |adr| =>
          (RealAt(qpos, adr[i]) - (if sub then RealAt(defaults, i) else 0.0)) * s)
      case Velocities(adr, s) =>
        seq(|adr|, i requires 0 <= i < |adr| => RealAt(qvel, adr[i]) * s)
  }

  /** `JointPositions`' address table: `jnt_qposadr[jointNamesMJC.indexOf(name)]`,
      -1 (no address) for a joint the runtime does not list. */
  function PositionAdrs(names: seq<string>, namesMJC: seq<string>, jntQposAdr: seq<int>): (a: seq<int>)
    ensures |a| == |names|
    ensures forall i :: 0 <= i < |names| && names[i] !in namesMJC && |jntQposAdr| > 0 ==> a[i] == -1
    ensures forall i :: 0 <= i < |names| && names[i] in namesMJC ==>
      a[i] == IntAt(jntQposAdr, IndexOf(namesMJC, names[i])) && namesMJC[IndexOf(namesMJC, names[i])] == names[i]
  {
    seq(|names|, i requires 0 <= i < |names| => IntAt(jntQposAdr, IndexOf(namesMJC, names[i])))
  }

  /** `JointVelocities`' constructor: every name must be one the runtime
      lists, else it throws; the table is `jnt_dofadr` of each. */
  function VelocityAdrs(names: seq<string>, namesMJC: seq<string>, jntDofAdr: seq<int>): (r: Result<seq<int>>)
    ensures r.Err? <==> exists i :: 0 <= i < |names| && names[i] !in namesMJC
    ensures r.Ok? ==> |r.value| == |names| && forall i :: 0 <= i < |names| ==>
      namesMJC[IndexOf(namesMJC, names[i])] == names[i] && r.value[i] == IntAt(jntDofAdr, IndexOf(namesMJC, names[i]))
  {
    if names == [] then Ok([])
    else if names[0] !in namesMJC then Err("JointVelocities: joint \"" + names[0] + "\" not found in jointNamesMJC")
    else
      var rest := VelocityAdrs(names[1..], namesMJC, jntDofAdr);
      if rest.Err? then rest
      else
        assert forall i :: 1 <= i < |names| ==> names[i] == names[1..][i - 1];
        Ok([IntAt(jntDofAdr, IndexOf(namesMJC, names[0]))] + rest.value)
  }

  /** The contents of a history of typed arrays. */
  function Contents(h: seq<array<real>>): (c: seq<seq<real>>)
    reads set a | a in h
    ensures |c| == |h| && forall i :: 0 <= i < |h| ==> c[i] == h[i][..]
  {
    seq(|h|, i reads set a | a in h requires 0 <= i < |h| => h[i][..])
  }

  /** `history_steps` fresh zero arrays of `n` entries. */
  method ZeroArrays(steps: nat, n: nat) returns (h: seq<array<real>>)
    ensures |h| == steps
    ensures forall i :: 0 <= i < steps ==> fresh(h[i]) && h[i][..] == Zeros(n)
    ensures forall i, j :: 0 <= i < j < steps ==> h[i] != h[j]
  {
    h := [];
    for i := 0 to steps
      invariant |h| == i
      invariant forall k :: 0 <= k < i ==> fresh(h[k]) && h[k][..] == Zeros(n)
      invariant forall k, l :: 0 <= k < l < i ==> h[k] != h[l]
    {
      var a := new real[n](_ => 0.0);
      h := h + [a];
    }
  }

  /** `history[0][i] = …` for every joint: the slot now holds the reading. */
  method WriteReading(slot: array<real>, reading: seq<real>)
    requires slot.Length == |reading|
    modifies slot
    ensures slot[..] == reading
  {
    for i := 0 to slot.Length
      invariant forall k :: 0 <= k < i ==> slot[k] == reading[k]
    {
      slot[i] := reading[i];
    }
  }

  /** Moving the last array to the front keeps the slots distinct and of
      the same width, and no later slot is the front one. */
  lemma Rotation(before: seq<array<real>>, h: seq<array<real>>, n: nat)
    requires |h| == |before| > 0
    requires h[0] == before[|before| - 1]
    requires forall i :: 0 < i < |h| ==> h[i] == before[i - 1]
    requires forall i :: 0 <= i < |before| ==> before[i].Length == n
    requires forall i, j :: 0 <= i < j < |before| ==> before[i] != before[j]
    ensures forall i :: 0 <= i < |h| ==> h[i].Length == n && h[i] in before
    ensures forall i, j :: 0 <= i < j < |h| ==> h[i] != h[j]
  {
    forall i, j | 0 <= i < j < |h|
      ensures h[i] != h[j]
    {
      if i > 0 {
        assert h[i] == before[i - 1] && h[j] == before[j - 1];
      } else {
        assert h[j] == before[j - 1];
      }
    }
  }

  /** Slots that hold the reading, then the previous rows in order, read as
      the previous contents shifted by the reading. */
  lemma ContentsRotated(h: seq<array<real>>, before: seq<seq<real>>, reading: seq<real>)
    requires |h| == |before| > 0
    requires h[0][..] == reading
    requires forall i :: 0 < i < |h| ==> h[i][..] == before[i - 1]
    ensures Contents(h) == Shifted(before, reading)
  {
    var c := Contents(h);
    assert forall i :: 0 <= i < |h| ==> c[i] == Shifted(before, reading)[i];
  }

  /** The shift loop with the oldest array carried to the front and
      overwritten by the reading: the slots stay distinct and read as the
      previous contents shifted by the reading. */
  method RotateIn(history: seq<array<real>>, reading: seq<real>) returns (h: seq<array<real>>)
    requires |history| > 0
    requires forall i :: 0 <= i < |history| ==> history[i].Length == |reading|
    requires forall i, j :: 0 <= i < j < |history| ==> history[i] != history[j]
    modifies history[|history| - 1]
    ensures |h| == |history|
    ensures forall i :: 0 <= i < |h| ==> h[i].Length == |reading| && h[i] in history
    ensures forall i, j :: 0 <= i < j < |h| ==> h[i] != h[j]
    ensures Contents(h) == Shifted(old(Contents(history)), reading)
  {
    ghost var before := Contents(history);
    var slot := history[|history| - 1];
    h := ShiftBack(history);
    h := h[0 := slot];
    Rotation(history, h, |reading|);
    WriteReading(slot, reading);
    assert forall i :: 0 < i < |h| ==> h[i][..] == before[i - 1];
    ContentsRotated(h, before, reading);
  }

  /**
   * `JointPositions` and `JointVelocities` as written: the references move
   * one slot back and the reading is then written INTO `history[0]`, which
   * slot 1 now shares.  Blocks 0 and 1 of the output are therefore always
   * equal, and every slot is either that shared array or an array never
   * written since construction.
   */
  class JointHistory {
    const source: JointSource
    const steps: nat
    var history: seq<array<real>>

    /** Every slot has the width of the reading. */
    predicate Shaped()
      reads this, set a | a in history
    {
      |history| == steps && forall i :: 0 <= i < |history| ==> history[i].Length == source.Width()
    }

    /** Every slot is slot 0 or still all zero. */
    predicate CurrentOrZero()
      reads this, set a | a in history
    {
      forall i :: 0 <= i < |history| ==> history[i] == history[0] || history[i][..] == Zeros(history[i].Length)
    }

    constructor(source: JointSource, steps: nat)
      ensures this.source == source && this.steps == steps && Shaped() && CurrentOrZero()
      ensures forall i :: 0 <= i < steps ==> fresh(history[i])
      ensures forall i :: 0 <= i < steps ==> history[i][..] == Zeros(source.Width())
    {
      this.source := source;
      this.steps := steps;
      var h := ZeroArrays(steps, source.Width());
      history := h;
    }

    /**
     * `compute()` on the current `qpos`/`qvel` and `runtime.defaultJpos`.
     * With no slot and at least one joint, `history[0][i] = …` throws.
     * Otherwise slot 0 (shared with slot 1) holds the reading, and every
     * output block is the reading or zeros: no past reading is reported.
     */
    method Compute(qpos: seq<real>, qvel: seq<real>, defaultJpos: Option<seq<real>>) returns (r: Result<seq<real>>)
      requires Shaped() && CurrentOrZero()
      modifies this, if |history| > 0 then {history[0]} else {}
      ensures Shaped() && CurrentOrZero()
      ensures forall i :: 0 <= i < |history| ==> history[i] in old(history)
      ensures r.Err? <==> steps == 0 && source.Width() > 0
      ensures r.Ok? ==> history == ShiftedBack(old(history)) && r.value == Flattened(Contents(history), source.Width(), steps)
      ensures r.Ok? && steps > 0 ==> history[0][..] == Readings(source, qpos, qvel, defaultJpos)
      ensures r.Ok? && steps >= 2 ==> history[1] == history[0]
      ensures r.Ok? ==> forall i :: 0 <= i < steps ==>
        Contents(history)[i] == Readings(source, qpos, qvel, defaultJpos) || Contents(history)[i] == Zeros(source.Width())
    {
      var reading := Readings(source, qpos, qvel, defaultJpos);
      if steps == 0 && source.Width() > 0 {
        return Err("Cannot set properties of undefined");
      }
      var h := ShiftBack(history);
      if steps > 0 {
        WriteReading(h[0], reading);
      }
      history := h;
      var out := FlattenRows(Contents(history), source.Width(), steps);
      return Ok(out);
    }
  }

  /**
   * `JointPositions`/`JointVelocities` as the comment in their `compute`
   * means them ("reuse the shifted array (was at history[steps-1], now at
   * history[0])"): the oldest array is rotated to slot 0 and overwritten,
   * so the slots stay distinct and the history is newest first, like the
   * vector components.
   */
  class RotatingJointHistory {
    const source: JointSource
    const steps: nat
    var history: seq<array<real>>

    /** Every slot has the width of the reading and no two slots share an
        array. */
    predicate Valid()
      reads this, set a | a in history
    {
      && |history| == steps
      && (forall i :: 0 <= i < |history| ==> history[i].Length == source.Width())
      && (forall i, j :: 0 <= i < j < |history| ==> history[i] != history[j])
    }

    constructor(source: JointSource, steps: nat)
      ensures this.source == source && this.steps == steps && Valid()
      ensures forall i :: 0 <= i < steps ==> fresh(history[i])
      ensures Contents(history) == seq(steps, _ => Zeros(source.Width()))
    {
      this.source := source;
      this.steps := steps;
      var h := ZeroArrays(steps, source.Width());
      history := h;
    }

    /** `compute()`: with no slot and at least one joint it throws;
        otherwise the history gains the reading at the front and drops its
        oldest entry, and the output is the history flattened. */
    method Compute(qpos: seq<real>, qvel: seq<real>, defaultJpos: Option<seq<real>>) returns (r: Result<seq<real>>)
      requires Valid()
      modifies this, if |history| > 0 then {history[|history| - 1]} else {}
      ensures Valid()
      ensures forall i :: 0 <= i < |history| ==> history[i] in old(history)
      ensures r.Err? <==> steps == 0 && source.Width() > 0
      ensures r.Ok? && steps > 0 ==> Contents(history) == Shifted(old(Contents(history)), Readings(source, qpos, qvel, defaultJpos))
      ensures r.Ok? ==> r.value == Flattened(Contents(history), source.Width(), steps)
    {
      var reading := Readings(source, qpos, qvel, defaultJpos);
      if steps == 0 {
        if source.Width() > 0 {
          return Err("Cannot set properties of undefined");
        }
        return Ok([]);
      }
      var h := RotateIn(history, reading);
      history := h;
      var out := FlattenRows(Contents(history), source.Width(), steps);
      return Ok(out);
    }
  }

  /** One joint read from `qvel[0]` at scale 1 reads `v`. */
  lemma OneJointReading(v: real)
    ensures Readings(Velocities([0], 1.0), [], [v], None) == [v]
  {
    var r := Readings(Velocities([0], 1.0), [], [v], None);
    assert r[0] == RealAt([v], 0) * 1.0;
  }

  /** Two one-entry rows flatten to their two entries. */
  lemma TwoRowsFlattened(a: real, b: real)
    ensures Flattened([[a], [b]], 1, 2) == [a, b]
  {
    FlattenedAt([[a], [b]], 1, 2, 0, 0);
    FlattenedAt([[a], [b]], 1, 2, 1, 0);
  }

  /** Two readings, 1 then 2, of one joint with two history slots, as
      written: both blocks report the newest reading. */
  method AliasedTwoReadings() returns (out: seq<real>)
    ensures out == [2.0, 2.0]
  {
    var c := new JointHistory(Velocities([0], 1.0), 2);
    OneJointReading(1.0);
    OneJointReading(2.0);
    var r1 := c.Compute([], [1.0], None);
    var r2 := c.Compute([], [2.0], None);
    assert Contents(c.history) == [[2.0], [2.0]];
    TwoRowsFlattened(2.0, 2.0);
    out := r2.value;
  }

  /** A rotating history of one joint, two slots, after the reading 1. */
  method RotatingAfterOne() returns (c: RotatingJointHistory)
    ensures fresh(c) && c.Valid() && c.steps == 2 && c.source == Velocities([0], 1.0)
    ensures forall i :: 0 <= i < |c.history| ==> fresh(c.history[i])
    ensures Contents(c.history) == [[1.0], [0.0]]
  {
    c := new RotatingJointHistory(Velocities([0], 1.0), 2);
    OneJointReading(1.0);
    assert Zeros(1) == [0.0];
    var r1 := c.Compute([], [1.0], None);
  }

  /** The same two readings with the rotating history: newest first. */
  method RotatingTwoReadings() returns (out: seq<real>)
    ensures out == [2.0, 1.0]
  {
    var c := RotatingAfterOne();
    OneJointReading(2.0);
    var r2 := c.Compute([], [2.0], None);
    assert Contents(c.history) == [[2.0], [1.0]];
    TwoRowsFlattened(2.0, 1.0);
    out := r2.value;
  }


  /** `PreviousActions`: `history_steps`, `transpose`, and
      `runtime.numActions` captured at construction. */
  datatype PreviousActions = PreviousActions(steps: nat, transpose: bool, numActions: nat)

  /** `compute()` over the action history (newest first); rows past its end
      read as zeros. */
  method PreviousActionsCompute(p: PreviousActions, actionBuffer: seq<seq<real>>) returns (out: seq<real>)
    ensures !p.transpose ==> out == Flattened(actionBuffer, p.numActions, p.steps)
    ensures p.transpose ==> out == Transposed(actionBuffer, p.numActions, p.steps)
  {
    if p.transpose {
      out := TransposeRows(actionBuffer, p.numActions, p.steps);
    } else {
      out := FlattenRows(actionBuffer, p.numActions, p.steps);
    }
  }

  /** `scale` as given: a number, or a list. */
  datatype ScaleArg = Uniform(s: real) | PerAxis(s3: seq<real>)

  /** `Array.isArray(scale) ? scale : [scale, scale, scale]`. */
  function ScaleList(a: ScaleArg): (s: seq<real>)
    ensures a.Uniform? ==> s == [a.s, a.s, a.s]
    ensures a.PerAxis? ==> s == a.s3
  {
    match a
      case Uniform(x) => [x, x, x]
      case PerAxis(xs) => xs
  }

  /** The command `[command_vel_x · s0, 0 · s1, 0 · s2]`, with an unset,
      zero or non-numeric `command_vel_x` read as 0. */
  function VelocityCommand(commandVelX: Option<real>, scale: seq<real>): (c: seq<real>)
    ensures |c| == 3 && c[0] == commandVelX.GetOr(0.0) * RealAt(scale, 0) && c[1] == 0.0 && c[2] == 0.0
  {
    [commandVelX.GetOr(0.0) * RealAt(scale, 0), 0.0 * RealAt(scale, 1), 0.0 * RealAt(scale, 2)]
  }

  /** `SimpleVelocityCommand.compute()`: the command itself for one step,
      else the command repeated `history_steps` times. */
  method SimpleVelocityCommandCompute(steps: nat, scale: ScaleArg, commandVelX: Option<real>) returns (out: seq<real>)
    ensures steps == 1 ==> out == VelocityCommand(commandVelX, ScaleList(scale))
    ensures |out| == steps * 3
    ensures out == Flattened(seq(steps, _ => VelocityCommand(commandVelX, ScaleList(scale))), 3, steps)
  {
    var command := VelocityCommand(commandVelX, ScaleList(scale));
    if steps == 1 {
      assert command == Flattened([command], 3, 1) by {
        FlattenedAt([command], 3, 1, 0, 0);
        FlattenedAt([command], 3, 1, 0, 1);
        FlattenedAt([command], 3, 1, 0, 2);
      }
      assert seq(steps, _ => command) == [command];
      return command;
    }
    out := FlattenRows(seq(steps, _ => command), 3, steps);
  }

  /** Every block of a repeated command is the command. */
  lemma RepeatedCommand(c: seq<real>, steps: nat, i: int, j: int)
    requires |c| == 3 && 0 <= i < steps && 0 <= j < 3
    ensures Flattened(seq(steps, _ => c), 3, steps)[i * 3 + j] == c[j]
  {
    FlattenedAt(seq(steps, _ => c), 3, steps, i, j);
  }
}
