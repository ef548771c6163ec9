/**
 * `TrajectoryActionManager`
 * (`src/mujoco_wasm/runtime/managers/actions/TrajectoryActionManager.js`):
 * plays back a recorded trajectory by PD-tracking the joint targets of the
 * frame the playback clock has reached.  The clock (`nowSeconds()`) is a
 * parameter; `mjData.qpos`/`qvel` are passed in where they are read.
 */
module TrajectoryAction {
  import opened Wrappers
  import opened Control
  import Text
  import IsaacAction
  import Runtime

  type SceneModel = IsaacAction.SceneModel

  /** A frame's `qpos` or `qvel`: missing (`null`/`undefined`), an array or
      typed array (elements that are numbers or not), an object keyed by
      joint name, or a value that is no object. */
  datatype Container = Missing | Items(items: seq<Option<real>>) | Fields(fields: map<string, Option<real>>) | Scalar

  datatype Frame = Frame(qpos: Container, qvel: Container)

  datatype Trajectory = Trajectory(name: string, dt: real, frames: seq<Frame>)

  /** What `loadTrajectory` is given; `None` is a missing or non-array field
      (`frames`, `joint_names`) or a non-number (`dt`).  A joint name that is
      not a string is `None`. */
  datatype TrajectoryData = TrajectoryData(name: Option<string>, dt: Option<real>, frames: Option<seq<Frame>>,
                                           jointNames: Option<seq<Option<string>>>)

  /** `ctrlAdr`, `qposAdr`, `qvelAdr` and `jointNames`; an address read past
      the end of a model array is `None` (`undefined`). */
  datatype Mapping = Mapping(ctrl: seq<int>, qpos: seq<Option<int>>, qvel: seq<Option<int>>, names: seq<string>)
  {
    predicate Aligned() {
      |qpos| == |ctrl| && |qvel| == |ctrl| && |names| == |ctrl|
    }

    function Push(a: int, q: Option<int>, v: Option<int>, name: string): Mapping {
      Mapping(ctrl + [a], qpos + [q], qvel + [v], names + [name])
    }
  }

  const NoMapping := Mapping([], [], [], [])

  /** `actuator_trnid[2 * i]` for every actuator: the joint it drives. */
  function Actuators(m: SceneModel): (a: seq<int>)
    requires m.WellFormed()
    ensures |a| == m.nu && forall i :: 0 <= i < m.nu ==> a[i] == m.trnId[2 * i]
  {
    seq(m.nu, i requires 0 <= i < m.nu => m.trnId[2 * i])
  }

  /** A typed-array read: `undefined` outside the array. */
  function AdrAt(s: seq<int>, i: int): Option<int> {
    if 0 <= i < |s| then Some(s[i]) else None
  }

  /** `findActuatorIndexForJoint(jointId)`: the first actuator driving the
      joint, -1 when none does or there is no model. */
  method FindActuatorIndexForJoint(m: Option<SceneModel>, jointId: int) returns (r: int)
    requires m.Some? ==> m.value.WellFormed()
    ensures m.None? ==> r == -1
    ensures m.Some? ==> r == IndexOf(Actuators(m.value), jointId)
  {
    if m.None? {
      return -1;
    }
    var model := m.value;
    for i := 0 to model.nu
      invariant forall k :: 0 <= k < i ==> model.trnId[2 * k] != jointId
    {
      if model.trnId[2 * i] == jointId {
        return i;
      }
    }
    return -1;
  }

  /** The mappings for `joint_names_isaac`: a name the model lacks, or whose
      joint no actuator drives, is skipped. */
  function NamedMapping(m: SceneModel, names: seq<string>): (r: Mapping)
    requires m.WellFormed()
    ensures r.Aligned() && |r.ctrl| <= |names|
  {
    if names == [] then NoMapping
    else
      var prefix := NamedMapping(m, names[..|names| - 1]);
      var name := names[|names| - 1];
      var j := IndexOf(m.jointNames, name);
      var a := IndexOf(Actuators(m), j);
      if j < 0 || a < 0 then prefix else prefix.Push(a, AdrAt(m.jntQposAdr, j), AdrAt(m.jntDofAdr, j), name)
  }

  /** The fallback mappings: every actuator `0 .. k-1` that drives a joint, with
      that joint's name, or `joint_<actuator>` when the joint has none. */
  function FallbackMapping(m: SceneModel, k: nat): (r: Mapping)
    requires m.WellFormed() && k <= m.nu
    ensures r.Aligned() && |r.ctrl| <= k
  {
    if k == 0 then NoMapping
    else
      var prefix := FallbackMapping(m, k - 1);
      var j := m.trnId[2 * (k - 1)];
      if j < 0 then prefix
      else prefix.Push(k - 1, AdrAt(m.jntQposAdr, j), AdrAt(m.jntDofAdr, j),
                       if j < |m.jointNames| then m.jointNames[j] else "joint_" + Text.NatToString(k - 1))
  }

  /** `buildJointMappings()`: nothing without a model; by name when the
      metadata lists joint names and the engine is reachable; else by
      actuator. */
  function Mappings(m: Option<SceneModel>, isaacNames: Option<seq<string>>, hasMujoco: bool): (r: Mapping)
    requires m.Some? ==> m.value.WellFormed()
    ensures r.Aligned()
  {
    if m.None? then NoMapping
    else if isaacNames.Some? && |isaacNames.value| > 0 && hasMujoco then NamedMapping(m.value, isaacNames.value)
    else FallbackMapping(m.value, m.value.nu)
  }

  /** Every named mapping is a policy joint the model has, driven by the
      lowest-numbered actuator of that joint, with that joint's addresses;
      and every such joint is mapped. */
  lemma {:induction false} NamedMappingSpec(m: SceneModel, names: seq<string>)
    requires m.WellFormed()
    ensures var r := NamedMapping(m, names);
      && (forall k :: 0 <= k < |r.ctrl| ==>
            var j := IndexOf(m.jointNames, r.names[k]);
            && r.names[k] in names && 0 <= j && 0 <= r.ctrl[k] < m.nu && m.trnId[2 * r.ctrl[k]] == j
            && (forall a :: 0 <= a < r.ctrl[k] ==> m.trnId[2 * a] != j)
            && r.qpos[k] == Some(m.jntQposAdr[j]) && r.qvel[k] == Some(m.jntDofAdr[j]))
      && (forall n :: n in names && n in m.jointNames && IndexOf(m.jointNames, n) in Actuators(m) ==> n in r.names)
  {
    if names != [] {
      NamedMappingSpec(m, names[..|names| - 1]);
      assert names == names[..|names| - 1] + [names[|names| - 1]];
    }
  }

  /** `c` lists, in increasing order, exactly the actuators below `k`
      whose transmission drives a joint. */
  ghost predicate DrivingActuators(m: SceneModel, c: seq<int>, k: nat)
    requires m.WellFormed() && k <= m.nu
  {
    && (forall i :: 0 <= i < |c| ==> 0 <= c[i] < k && m.trnId[2 * c[i]] >= 0)
    && (forall i, i' :: 0 <= i < i' < |c| ==> c[i] < c[i'])
    && (forall a :: 0 <= a < k && m.trnId[2 * a] >= 0 ==> a in c)
  }

  /** One more actuator: the fallback's control list grows by `k - 1`
      exactly when that actuator drives a joint. */
  lemma FallbackCtrlStep(m: SceneModel, k: nat)
    requires m.WellFormed() && 0 < k <= m.nu
    ensures FallbackMapping(m, k).ctrl ==
      if m.trnId[2 * (k - 1)] >= 0 then FallbackMapping(m, k - 1).ctrl + [k - 1] else FallbackMapping(m, k - 1).ctrl
  {
  }

  /** Appending an actuator that drives a joint keeps the list exact. */
  lemma DrivingActuatorsSnoc(m: SceneModel, p: seq<int>, k: nat)
    requires m.WellFormed() && 0 < k <= m.nu
    requires DrivingActuators(m, p, k - 1) && m.trnId[2 * (k - 1)] >= 0
    ensures DrivingActuators(m, p + [k - 1], k)
  {
    var c := p + [k - 1];
    forall i | 0 <= i < |c|
      ensures 0 <= c[i] < k && m.trnId[2 * c[i]] >= 0
    {
      if i < |p| {
        assert c[i] == p[i];
      }
    }
    forall a | 0 <= a < k && m.trnId[2 * a] >= 0
      ensures a in c
    {
      if a == k - 1 {
        assert c[|p|] == a;
      } else {
        assert a in p;
      }
    }
  }

  /** The fallback maps exactly the actuators that drive a joint, in
      increasing order. */
  lemma {:induction false} FallbackMappingSpec(m: SceneModel, k: nat)
    requires m.WellFormed() && k <= m.nu
    ensures DrivingActuators(m, FallbackMapping(m, k).ctrl, k)
  {
    if k > 0 {
      FallbackMappingSpec(m, k - 1);
      FallbackCtrlStep(m, k);
      var p := FallbackMapping(m, k - 1).ctrl;
      if m.trnId[2 * (k - 1)] >= 0 {
        DrivingActuatorsSnoc(m, p, k);
      } else {
        assert DrivingActuators(m, p, k - 1);
      }
    }
  }

  /** The named branch's loop. */
  method NamedMappingLoop(m: SceneModel, names: seq<string>) returns (r: Mapping)
    requires m.WellFormed()
    ensures r == NamedMapping(m, names)
  {
    r := NoMapping;
    for i := 0 to |names|
      invariant r == NamedMapping(m, names[..i])
    {
      assert names[..i + 1][..i] == names[..i];
      var jointId := IndexOf(m.jointNames, names[i]);
      if jointId < 0 {
        continue;
      }
      var actuatorIndex := FindActuatorIndexForJoint(Some(m), jointId);
      if actuatorIndex < 0 {
        continue;
      }
      r := r.Push(actuatorIndex, AdrAt(m.jntQposAdr, jointId), AdrAt(m.jntDofAdr, jointId), names[i]);
    }
    assert names[..|names|] == names;
  }

  /** The fallback branch's loop. */
  method FallbackMappingLoop(m: SceneModel) returns (r: Mapping)
    requires m.WellFormed()
    ensures r == FallbackMapping(m, m.nu)
  {
    r := NoMapping;
    for actuatorIndex := 0 to m.nu
      invariant r == FallbackMapping(m, actuatorIndex)
    {
      var jointId := m.trnId[2 * actuatorIndex];
      if jointId < 0 {
        continue;
      }
      var jointName := if jointId < |m.jointNames| then m.jointNames[jointId] else "joint_" + Text.NatToString(actuatorIndex);
      r := r.Push(actuatorIndex, AdrAt(m.jntQposAdr, jointId), AdrAt(m.jntDofAdr, jointId), jointName);
    }
  }

  /** `new Float32Array(n)`. */
  method NewZeros(n: nat) returns (a: array<real>)
    ensures fresh(a) && a[..] == Zeros(n)
  {
    a := new real[n](_ => 0.0);
  }

  /** `buildJointMappings()` on given inputs. */
  method ComputeMappings(m: Option<SceneModel>, isaacNames: Option<seq<string>>, hasMujoco: bool) returns (r: Mapping)
    requires m.Some? ==> m.value.WellFormed()
    ensures r == Mappings(m, isaacNames, hasMujoco)
  {
    if m.None? {
      return NoMapping;
    }
    if isaacNames.Some? && |isaacNames.value| > 0 && hasMujoco {
      r := NamedMappingLoop(m.value, isaacNames.value);
    } else {
      r := FallbackMappingLoop(m.value);
    }
  }

  /** The last position holding `name`, or -1: `Map.set` lets a later
      duplicate win. */
  function LastIndex(names: seq<Option<string>>, name: string): (r: int)
    ensures -1 <= r < |names|
    ensures r >= 0 ==> names[r] == Some(name) && forall j :: r < j < |names| ==> names[j] != Some(name)
    ensures r == -1 <==> Some(name) !in names
  {
    if names == [] then -1
    else if names[|names| - 1] == Some(name) then |names| - 1
    else LastIndex(names[..|names| - 1], name)
  }

  /** `jointRemap`: for each mapped joint, where the trajectory keeps it
      (-1 if it does not); `None` when either list is empty. */
  function Remap(jointNames: seq<string>, trajNames: Option<seq<Option<string>>>): (r: Option<seq<int>>)
    ensures r.None? <==> trajNames.None? || |trajNames.value| == 0 || |jointNames| == 0
    ensures r.Some? ==> |r.value| == |jointNames|
  {
    if trajNames.None? || |trajNames.value| == 0 || |jointNames| == 0 then None
    else Some(seq(|jointNames|, i requires 0 <= i < |jointNames| => LastIndex(trajNames.value, jointNames[i])))
  }

  /** The `forEach` that fills the lookup map: each name maps to its last
      position, since a later `set` overwrites an earlier one. */
  method LastIndexLookup(names: seq<Option<string>>) returns (lookup: map<string, int>)
    ensures forall n :: n in lookup <==> LastIndex(names, n) >= 0
    ensures forall n :: n in lookup ==> lookup[n] == LastIndex(names, n)
  {
    lookup := map[];
    for index := 0 to |names|
      invariant forall n :: n in lookup <==> LastIndex(names[..index], n) >= 0
      invariant forall n :: n in lookup ==> lookup[n] == LastIndex(names[..index], n)
    {
      assert names[..index + 1][..index] == names[..index];
      if names[index].Some? {
        lookup := lookup[names[index].value := index];
      }
    }
    assert names[..|names|] == names;
  }

  /** `updateTrajectoryRemap()`: the lookup map built by `forEach`, then
      `map` over the joint names. */
  method ComputeRemap(jointNames: seq<string>, trajNames: Option<seq<Option<string>>>) returns (r: Option<seq<int>>)
    ensures r == Remap(jointNames, trajNames)
  {
    if trajNames.None? || |trajNames.value| == 0 || |jointNames| == 0 {
      return None;
    }
    var names := trajNames.value;
    var lookup := LastIndexLookup(names);
    var remap := [];
    for i := 0 to |jointNames|
      invariant |remap| == i && forall k :: 0 <= k < i ==> remap[k] == LastIndex(names, jointNames[k])
    {
      remap := remap + [if jointNames[i] in lookup then lookup[jointNames[i]] else -1];
    }
    assert remap == Remap(jointNames, trajNames).value;
    return Some(remap);
  }

  /** The key an object container is read with: the trajectory's name for
      the index, else the mapped joint's name. */
  function KeyFor(index: int, trajNames: Option<seq<Option<string>>>, jointNames: seq<string>): Option<string> {
    if trajNames.Some? && 0 <= index < |trajNames.value| && trajNames.value[index].Some? then trajNames.value[index]
    else if 0 <= index < |jointNames| then Some(jointNames[index])
    else None
  }

  /** `getTargetValue(container, index)` as a number, `None` for anything
      else. */
  function TargetValue(c: Container, index: int, trajNames: Option<seq<Option<string>>>, jointNames: seq<string>)
    : (v: Option<real>)
    ensures index < 0 || c.Missing? || c.Scalar? ==> v.None?
    ensures c.Items? && 0 <= index < |c.items| ==> v == c.items[index]
  {
    if index < 0 then None
    else match c
      case Missing => None
      case Scalar => None
      case Items(xs) => if index < |xs| then xs[index] else None
      case Fields(f) =>
        var key := KeyFor(index, trajNames, jointNames);
        if key.Some? && key.value != "" && key.value in f then f[key.value] else None
  }

  /** `Math.floor(elapsed / dt)`: the frame whose time slot holds `elapsed`. */
  function FrameIndex(elapsed: real, dt: real): (k: int)
    requires dt > 0.0
    ensures k as real * dt <= elapsed < (k + 1) as real * dt
  {
    var x := elapsed / dt;
    assert x * dt == elapsed;
    FloorScale(x, x.Floor as real, dt, elapsed);
    x.Floor
  }

  lemma FloorScale(x: real, k: real, t: real, e: real)
    requires t > 0.0 && x * t == e && k <= x < k + 1.0
    ensures k * t <= e < (k + 1.0) * t
  {
    LowScale(x, k, t, e);
    HighScale(x, k, t, e);
  }

  lemma LowScale(x: real, k: real, t: real, e: real)
    requires t > 0.0 && x * t == e && k <= x
    ensures k * t <= e
  {
    Runtime.MulNonneg(x - k, t);
    var lo := k * t;
    assert (x - k) * t == x * t - lo;
  }

  lemma HighScale(x: real, k: real, t: real, e: real)
    requires t > 0.0 && x * t == e && x < k + 1.0
    ensures e < (k + 1.0) * t
  {
    Runtime.MulPos(k + 1.0 - x, t);
    var hi := (k + 1.0) * t;
    assert (k + 1.0 - x) * t == hi - x * t;
  }

  /** The frame index is the only `k` whose slot `[k*dt, (k+1)*dt)` holds
      `elapsed`; in particular playback shows frame 0 for the first `dt`
      seconds. */
  lemma FrameIndexUnique(elapsed: real, dt: real, k: int)
    requires dt > 0.0 && k as real * dt <= elapsed < (k + 1) as real * dt
    ensures FrameIndex(elapsed, dt) == k
  {
    SameSlot(elapsed, dt, k, FrameIndex(elapsed, dt));
  }

  /** Two slots that both hold `e` are the same slot. */
  lemma SameSlot(e: real, dt: real, k: int, j: int)
    requires dt > 0.0 && k as real * dt <= e < (k + 1) as real * dt
    requires j as real * dt <= e < (j + 1) as real * dt
    ensures j == k
  {
    if j < k {
      SlotEnd(j, k, dt, e);
    } else if k < j {
      SlotEnd(k, j, dt, e);
    }
  }

  /** A time at or after the start of slot `k` is past the end of every
      earlier slot. */
  lemma SlotEnd(j: int, k: int, dt: real, e: real)
    requires dt > 0.0 && j < k && k as real * dt <= e
    ensures (j + 1) as real * dt <= e
  {
    Runtime.MulNonneg((k - j - 1) as real, dt);
    var hi := k as real * dt;
    assert (k - j - 1) as real * dt == hi - (j + 1) as real * dt;
  }

  /** `frames[i]`, `undefined` outside the list. */
  function FrameAt(frames: seq<Frame>, i: int): Option<Frame> {
    if 0 <= i < |frames| then Some(frames[i]) else None
  }

  /** The trajectory `loadTrajectory` keeps: unnamed is `unnamed`, a
      non-positive or missing step is 0.02 s. */
  function LoadedTrajectory(data: TrajectoryData): (t: Trajectory)
    requires data.frames.Some?
    ensures t.dt > 0.0 && t.frames == data.frames.value
    ensures data.dt.Some? && data.dt.value > 0.0 ==> t.dt == data.dt.value
    ensures data.dt.None? || data.dt.value <= 0.0 ==> t.dt == 0.02
  {
    Trajectory(data.name.GetOr("unnamed"), if data.dt.Some? && data.dt.value > 0.0 then data.dt.value else 0.02,
               data.frames.value)
  }

  /** The playback clock: `trajectory`, `currentFrame`, `isPlaying`,
      `startTime` and `loop`. */
  datatype Playback = Playback(trajectory: Option<Trajectory>, currentFrame: int, isPlaying: bool,
                               startTime: Option<real>, loop: bool)
  {
    /** `stop()` has run: not playing and no start time. */
    predicate Stopped() {
      !isPlaying && startTime.None?
    }
  }

  /** What the scene gave: whether `runtime.mujoco` is reachable, `mjModel`,
      whether `mjData` is set, `assetMeta.joint_names_isaac` when it is an
      array, and `numActuators`. */
  datatype Scene = Scene(hasMujoco: bool, model: Option<SceneModel>, hasData: bool,
                         isaacNames: Option<seq<string>>, numActuators: nat)

  /** `pdGains`. */
  datatype Gains = Gains(kp: real, kd: real)

  /** Playback after `stop()`. */
  function Stopped(p: Playback): (q: Playback)
    ensures q.Stopped() && q.trajectory == p.trajectory && q.currentFrame == p.currentFrame && q.loop == p.loop
  {
    p.(isPlaying := false, startTime := None)
  }

  /** Playback after `reset()` at `now`: frame 0, and the clock restarted
      when playing and cleared otherwise. */
  function Rewound(p: Playback, now: real): (q: Playback)
    ensures q.currentFrame == 0 && q.isPlaying == p.isPlaying && q.trajectory == p.trajectory && q.loop == p.loop
    ensures q.startTime == (if p.isPlaying then Some(now) else None)
  {
    p.(currentFrame := 0, startTime := if p.isPlaying then Some(now) else None)
  }

  /** The frame `getCurrentTargetState` gives for playback `p` at `now`:
      nothing unless playing a trajectory; past the end, frame 0 when
      looping and the last frame otherwise. */
  function TargetFrame(p: Playback, now: real): (f: Option<Frame>)
    requires p.trajectory.Some? ==> p.trajectory.value.dt > 0.0
    ensures f.Some? ==> p.isPlaying && p.trajectory.Some? && f.value in p.trajectory.value.frames
    ensures p.trajectory.Some? && p.isPlaying && p.trajectory.value.frames != [] && p.startTime.GetOr(0.0) <= now ==>
              f.Some?
  {
    if p.trajectory.None? || !p.isPlaying then None
    else
      var frames := p.trajectory.value.frames;
      var k := FrameIndex(now - p.startTime.GetOr(0.0), p.trajectory.value.dt);
      if k < |frames| then FrameAt(frames, k)
      else if p.loop then FrameAt(frames, 0)
      else FrameAt(frames, |frames| - 1)
  }

  /** The playback `getCurrentTargetState` leaves at `now`: untouched unless
      playing a trajectory; the frame index recorded while inside it; past
      the end, rewound to `now` when looping and stopped otherwise. */
  function AfterTarget(p: Playback, now: real): (q: Playback)
    requires p.trajectory.Some? ==> p.trajectory.value.dt > 0.0
    ensures q.trajectory == p.trajectory && q.loop == p.loop
    ensures q.isPlaying ==> p.isPlaying
    ensures q.isPlaying && p.trajectory.Some? ==> TargetFrame(p, now) == FrameAt(p.trajectory.value.frames, q.currentFrame)
  {
    if p.trajectory.None? || !p.isPlaying then p
    else
      var k := FrameIndex(now - p.startTime.GetOr(0.0), p.trajectory.value.dt);
      if k < |p.trajectory.value.frames| then p.(currentFrame := k)
      else if p.loop then Rewound(p, now)
      else Stopped(p)
  }

  class TrajectoryActionManager {
    var scene: Scene
    var playback: Playback
    var gains: Gains
    var mapping: Mapping
    /** `joint_names` of the loaded trajectory, when it is an array. */
    var trajectoryJointNames: Option<seq<Option<string>>>
    var jointRemap: Option<seq<int>>
    /** The buffer `computePDControl` fills and returns, every time the same one. */
    var commandBuffer: array<real>
    var zeroAction: array<real>

    predicate Valid()
      reads this
    {
      (scene.model.Some? ==> scene.model.value.WellFormed())
      && (playback.trajectory.Some? ==> playback.trajectory.value.dt > 0.0)
      && mapping.Aligned() && commandBuffer != zeroAction
    }

    /** `new TrajectoryActionManager()`: gains 25/0.5, nothing loaded,
        stopped at frame 0, not looping, empty buffers. */
    constructor()
      ensures Valid() && scene == Scene(false, None, false, None, 0)
      ensures playback == Playback(None, 0, false, None, false) && gains == Gains(25.0, 0.5)
      ensures mapping == NoMapping && trajectoryJointNames.None? && jointRemap.None?
      ensures commandBuffer.Length == 0 && zeroAction.Length == 0
    {
      scene := Scene(false, None, false, None, 0);
      playback := Playback(None, 0, false, None, false);
      gains := Gains(25.0, 0.5);
      mapping := NoMapping;
      trajectoryJointNames := None;
      jointRemap := None;
      commandBuffer := new real[0];
      zeroAction := new real[0];
    }

    /** `onRuntimeAttached(runtime)`: only whether the engine is reachable is
        kept. */
    method OnRuntimeAttached(mujocoAvailable: bool)
      modifies this
      ensures scene == old(scene).(hasMujoco := mujocoAvailable)
      ensures playback == old(playback) && mapping == old(mapping) && gains == old(gains)
      ensures trajectoryJointNames == old(trajectoryJointNames) && jointRemap == old(jointRemap)
      ensures commandBuffer == old(commandBuffer) && zeroAction == old(zeroAction)
    {
      scene := scene.(hasMujoco := mujocoAvailable);
    }

    /**
     * `onSceneLoaded({ mjModel, mjData, assetMeta })`: fresh zero buffers
     * of one entry per actuator, the joint mappings and the remap rebuilt,
     * playback stopped and rewound.
     */
    method OnSceneLoaded(m: SceneModel, dataPresent: bool, names: Option<seq<string>>)
      requires Valid() && m.WellFormed()
      modifies this
      ensures Valid() && scene == Scene(old(scene).hasMujoco, Some(m), dataPresent, names, m.nu)
      ensures fresh(commandBuffer) && fresh(zeroAction)
      ensures commandBuffer[..] == Zeros(m.nu) && zeroAction[..] == Zeros(m.nu)
      ensures mapping == Mappings(Some(m), names, scene.hasMujoco)
      ensures jointRemap == Remap(mapping.names, trajectoryJointNames)
      ensures playback == Rewound(Stopped(old(playback)), 0.0)
      ensures trajectoryJointNames == old(trajectoryJointNames) && gains == old(gains)
    {
      var jm := ComputeMappings(Some(m), names, scene.hasMujoco);
      var remap := ComputeRemap(jm.names, trajectoryJointNames);
      var buffer := NewZeros(m.nu);
      var zeros := NewZeros(m.nu);
      scene := Scene(scene.hasMujoco, Some(m), dataPresent, names, m.nu);
      commandBuffer := buffer;
      zeroAction := zeros;
      mapping := jm;
      jointRemap := remap;
      playback := Rewound(Stopped(playback), 0.0);
    }

    /** `onPolicyCleared()`: playback stops. */
    method OnPolicyCleared()
      modifies this
      ensures playback == Stopped(old(playback))
      ensures scene == old(scene) && mapping == old(mapping) && jointRemap == old(jointRemap)
      ensures gains == old(gains) && trajectoryJointNames == old(trajectoryJointNames)
      ensures commandBuffer == old(commandBuffer) && zeroAction == old(zeroAction)
    {
      Stop();
    }

    /** `buildJointMappings()`. */
    method BuildJointMappings()
      requires Valid()
      modifies this
      ensures Valid() && scene == old(scene) && mapping == Mappings(scene.model, scene.isaacNames, scene.hasMujoco)
      ensures playback == old(playback) && trajectoryJointNames == old(trajectoryJointNames)
      ensures jointRemap == old(jointRemap) && gains == old(gains)
      ensures commandBuffer == old(commandBuffer) && zeroAction == old(zeroAction)
    {
      mapping := ComputeMappings(scene.model, scene.isaacNames, scene.hasMujoco);
    }

    /** `updateTrajectoryRemap()`. */
    method UpdateTrajectoryRemap()
      modifies this
      ensures jointRemap == Remap(mapping.names, trajectoryJointNames)
      ensures scene == old(scene) && mapping == old(mapping) && playback == old(playback)
      ensures trajectoryJointNames == old(trajectoryJointNames) && gains == old(gains)
      ensures commandBuffer == old(commandBuffer) && zeroAction == old(zeroAction)
    {
      jointRemap := ComputeRemap(mapping.names, trajectoryJointNames);
    }

    /**
     * `loadTrajectory(data)`: data without a frame list drops the
     * trajectory and changes nothing else; otherwise the trajectory, its
     * joint names and the remap are taken, and playback is stopped at
     * frame 0.
     */
    method LoadTrajectory(data: Option<TrajectoryData>)
      requires Valid()
      modifies this
      ensures Valid() && scene == old(scene) && mapping == old(mapping) && gains == old(gains)
      ensures data.None? || data.value.frames.None? ==>
        playback == old(playback).(trajectory := None) && jointRemap == old(jointRemap)
        && trajectoryJointNames == old(trajectoryJointNames)
      ensures data.Some? && data.value.frames.Some? ==>
        && playback == Playback(Some(LoadedTrajectory(data.value)), 0, false, None, old(playback).loop)
        && trajectoryJointNames == data.value.jointNames
        && jointRemap == Remap(mapping.names, data.value.jointNames)
      ensures commandBuffer == old(commandBuffer) && zeroAction == old(zeroAction)
    {
      if data.None? || data.value.frames.None? {
        playback := playback.(trajectory := None);
        return;
      }
      playback := playback.(trajectory := Some(LoadedTrajectory(data.value)));
      trajectoryJointNames := data.value.jointNames;
      UpdateTrajectoryRemap();
      playback := playback.(currentFrame := 0, isPlaying := false, startTime := None);
    }

    /** `play()`: needs a trajectory; starts at frame 0 now. */
    method Play(now: real)
      modifies this
      ensures playback.trajectory.None? ==> playback == old(playback)
      ensures playback.trajectory.Some? ==> playback == old(playback).(isPlaying := true, startTime := Some(now), currentFrame := 0)
      ensures scene == old(scene) && mapping == old(mapping) && jointRemap == old(jointRemap)
      ensures commandBuffer == old(commandBuffer) && zeroAction == old(zeroAction)
      ensures gains == old(gains) && trajectoryJointNames == old(trajectoryJointNames)
    {
      if playback.trajectory.None? {
        return;
      }
      playback := playback.(isPlaying := true, startTime := Some(now), currentFrame := 0);
    }

    /** `stop()`. */
    method Stop()
      modifies this
      ensures playback == Stopped(old(playback))
      ensures scene == old(scene) && mapping == old(mapping) && jointRemap == old(jointRemap)
      ensures commandBuffer == old(commandBuffer) && zeroAction == old(zeroAction)
      ensures gains == old(gains) && trajectoryJointNames == old(trajectoryJointNames)
    {
      playback := Stopped(playback);
    }

    /** `reset()`. */
    method Reset(now: real)
      modifies this
      ensures playback == Rewound(old(playback), now)
      ensures scene == old(scene) && mapping == old(mapping) && jointRemap == old(jointRemap)
      ensures commandBuffer == old(commandBuffer) && zeroAction == old(zeroAction)
      ensures gains == old(gains) && trajectoryJointNames == old(trajectoryJointNames)
    {
      playback := Rewound(playback, now);
    }

    /**
     * `getCurrentTargetState()`: nothing unless playing a trajectory.  The
     * frame is the one whose slot holds the time since the start; past the
     * end a looping playback rewinds and gives frame 0, and a non-looping
     * one stops and gives the last frame.
     */
    method GetCurrentTargetState(now: real) returns (f: Option<Frame>)
      requires Valid()
      modifies this
      ensures Valid() && scene == old(scene) && mapping == old(mapping) && gains == old(gains)
      ensures trajectoryJointNames == old(trajectoryJointNames) && jointRemap == old(jointRemap)
      ensures commandBuffer == old(commandBuffer) && zeroAction == old(zeroAction)
      ensures f == TargetFrame(old(playback), now) && playback == AfterTarget(old(playback), now)
      ensures old(playback).trajectory.None? || !old(playback).isPlaying ==> f.None? && playback == old(playback)
      ensures old(playback).trajectory.Some? && old(playback).isPlaying ==>
        var p := old(playback);
        var frames := p.trajectory.value.frames;
        var k := FrameIndex(now - p.startTime.GetOr(0.0), p.trajectory.value.dt);
        && (k < |frames| ==> f == FrameAt(frames, k) && playback == p.(currentFrame := k))
        && (k >= |frames| && p.loop ==> f == FrameAt(frames, 0) && playback == Rewound(p, now))
        && (k >= |frames| && !p.loop ==> f == FrameAt(frames, |frames| - 1) && playback == Stopped(p))
    {
      if playback.trajectory.None? || !playback.isPlaying {
        return None;
      }
      var t := playback.trajectory.value;
      var elapsedTime := now - playback.startTime.GetOr(0.0);
      var frameIndex := FrameIndex(elapsedTime, t.dt);
      if frameIndex >= |t.frames| {
        if playback.loop {
          playback := Rewound(playback, now);
          return FrameAt(t.frames, 0);
        }
        playback := Stopped(playback);
        return FrameAt(t.frames, |t.frames| - 1);
      }
      playback := playback.(currentFrame := frameIndex);
      return FrameAt(t.frames, frameIndex);
    }

    /** Where the trajectory keeps mapped joint `i`: the remap entry, or `i`
        itself without a remap; -1 when there is none. */
    function SourceIndex(i: int): int
      reads this
    {
      if jointRemap.Some? then IntAt(jointRemap.value, i) else i
    }

    /** The actuator mapped joint `i` writes to, or -1 when it is skipped:
        no source index, no numeric target position, or no address. */
    function CommandAdr(i: int, targetQpos: Container): int
      reads this
    {
      var src := SourceIndex(i);
      if src >= 0 && TargetValue(targetQpos, src, trajectoryJointNames, mapping.names).Some?
         && 0 <= i < |mapping.qpos| && mapping.qpos[i].Some? && 0 <= i < |mapping.qvel| && mapping.qvel[i].Some?
      then IntAt(mapping.ctrl, i) else -1
    }

    /** The PD command for mapped joint `i`; a missing target velocity is 0. */
    function Command(i: int, targetQpos: Container, targetQvel: Container, qpos: seq<real>, qvel: seq<real>): real
      reads this
    {
      var src := SourceIndex(i);
      var tp := TargetValue(targetQpos, src, trajectoryJointNames, mapping.names).GetOr(0.0);
      var tv := TargetValue(targetQvel, src, trajectoryJointNames, mapping.names).GetOr(0.0);
      var qa := if 0 <= i < |mapping.qpos| && mapping.qpos[i].Some? then mapping.qpos[i].value else -1;
      var va := if 0 <= i < |mapping.qvel| && mapping.qvel[i].Some? then mapping.qvel[i].value else -1;
      PdTorque(gains.kp, gains.kd, tp, RealAt(qpos, qa), tv, RealAt(qvel, va))
    }

    function CommandAdrs(targetQpos: Container): (s: seq<int>)
      reads this
      ensures |s| == |mapping.ctrl|
    {
      seq(|mapping.ctrl|, i reads this => CommandAdr(i, targetQpos))
    }

    function Commands(targetQpos: Container, targetQvel: Container, qpos: seq<real>, qvel: seq<real>): (s: seq<real>)
      reads this
      ensures |s| == |mapping.ctrl|
    {
      seq(|mapping.ctrl|, i reads this => Command(i, targetQpos, targetQvel, qpos, qvel))
    }

    /**
     * `computePDControl(targetQpos, targetQvel)`: the shared command buffer,
     * zeroed, then for each mapped joint with a numeric target the PD
     * command written to its actuator; without data or mappings it stays
     * zero.
     */
    method ComputePDControl(targetQpos: Container, targetQvel: Container, qpos: seq<real>, qvel: seq<real>)
      returns (action: array<real>)
      modifies commandBuffer
      ensures action == commandBuffer
      ensures !scene.hasData || |mapping.ctrl| == 0 ==> action[..] == Zeros(action.Length)
      ensures scene.hasData && |mapping.ctrl| > 0 ==>
        action[..] == Written(Zeros(action.Length), CommandAdrs(targetQpos),
                              Commands(targetQpos, targetQvel, qpos, qvel), |mapping.ctrl|)
    {
      action := commandBuffer;
      ZeroFill(action);
      if !scene.hasData || |mapping.ctrl| == 0 {
        return;
      }
      ghost var adrs := CommandAdrs(targetQpos);
      ghost var values := Commands(targetQpos, targetQvel, qpos, qvel);
      for i := 0 to |mapping.ctrl|
        invariant action[..] == Written(Zeros(action.Length), adrs, values, i)
      {
        var ctrlIndex := CommandAdr(i, targetQpos);
        if 0 <= ctrlIndex < action.Length {
          action[ctrlIndex] := Command(i, targetQpos, targetQvel, qpos, qvel);
        }
        WrittenStep(Zeros(action.Length), adrs, values, i);
      }
    }

    /**
     * `generateAction(observations)`: the zero action without model and
     * data, without a target frame, or when the frame's `qpos` is no
     * object; otherwise the PD command towards the frame, in the shared
     * command buffer.
     */
    method GenerateAction(now: real, qpos: seq<real>, qvel: seq<real>) returns (action: array<real>)
      requires Valid()
      modifies this, commandBuffer
      ensures Valid() && commandBuffer == old(commandBuffer) && zeroAction == old(zeroAction)
      ensures unchanged(zeroAction)
      ensures scene == old(scene) && mapping == old(mapping) && gains == old(gains)
      ensures trajectoryJointNames == old(trajectoryJointNames) && jointRemap == old(jointRemap)
      ensures scene.model.None? || !scene.hasData ==> action == zeroAction && playback == old(playback)
      ensures scene.model.Some? && scene.hasData ==> playback == AfterTarget(old(playback), now)
      ensures scene.model.Some? && scene.hasData ==>
        var f := TargetFrame(old(playback), now);
        if f.None? || f.value.qpos.Missing? || f.value.qpos.Scalar? then
          action == zeroAction
        else
          && action == commandBuffer
          && (|mapping.ctrl| == 0 ==> action[..] == Zeros(action.Length))
          && (|mapping.ctrl| > 0 ==>
                action[..] == Written(Zeros(action.Length), CommandAdrs(f.value.qpos),
                                      Commands(f.value.qpos, f.value.qvel, qpos, qvel), |mapping.ctrl|))
    {
      if scene.model.None? || !scene.hasData {
        return zeroAction;
      }
      var targetState := GetCurrentTargetState(now);
      if targetState.None? {
        return zeroAction;
      }
      var frame := targetState.value;
      if frame.qpos.Missing? || frame.qpos.Scalar? {
        return zeroAction;
      }
      action := ComputePDControl(frame.qpos, frame.qvel, qpos, qvel);
    }

    /** `setPDGains(kp, kd)`: only numeric arguments change a gain. */
    method SetPDGains(newKp: Option<real>, newKd: Option<real>)
      modifies this
      ensures gains == Gains(newKp.GetOr(old(gains).kp), newKd.GetOr(old(gains).kd))
      ensures scene == old(scene) && playback == old(playback) && mapping == old(mapping)
      ensures trajectoryJointNames == old(trajectoryJointNames) && jointRemap == old(jointRemap)
      ensures commandBuffer == old(commandBuffer) && zeroAction == old(zeroAction)
    {
      if newKp.Some? {
        gains := gains.(kp := newKp.value);
      }
      if newKd.Some? {
        gains := gains.(kd := newKd.value);
      }
    }

    /** `setLoop(enabled)`, with `enabled` already made boolean. */
    method SetLoop(enabled: bool)
      modifies this
      ensures playback == old(playback).(loop := enabled)
      ensures scene == old(scene) && mapping == old(mapping) && gains == old(gains)
      ensures trajectoryJointNames == old(trajectoryJointNames) && jointRemap == old(jointRemap)
      ensures commandBuffer == old(commandBuffer) && zeroAction == old(zeroAction)
    {
      playback := playback.(loop := enabled);
    }

    /** `dispose()`: stopped, rewound, the trajectory, runtime, model, data,
        metadata, mappings and remap dropped and the buffers emptied; the
        gains, the loop flag and the actuator count stay. */
    method Dispose()
      modifies this
      ensures Valid()
      ensures playback == Rewound(Stopped(old(playback)), 0.0).(trajectory := None)
      ensures scene == Scene(false, None, false, None, old(scene).numActuators)
      ensures mapping == NoMapping && trajectoryJointNames.None? && jointRemap.None? && gains == old(gains)
      ensures commandBuffer.Length == 0 && zeroAction.Length == 0
    {
      playback := Rewound(Stopped(playback), 0.0).(trajectory := None);
      scene := Scene(false, None, false, None, scene.numActuators);
      mapping := NoMapping;
      trajectoryJointNames := None;
      jointRemap := None;
      commandBuffer := new real[0];
      zeroAction := new real[0];
    }
  }

  /** Each actuator slot of a PD command holds the command of the last
      mapped joint written to it, and 0 where no joint writes. */
  lemma PdCommandSlot(n: nat, adrs: seq<int>, values: seq<real>, count: nat, c: nat)
    requires c < n
    ensures var k := LastWriter(adrs, count, c);
      Written(Zeros(n), adrs, values, count)[c] == if k == -1 then 0.0 else RealAt(values, k)
  {
    WrittenSlot(Zeros(n), adrs, values, count, c);
  }
}
