/**
 * `IsaacActionManager` (`src/core/action/IsaacActionManager.ts`): maps the
 * policy's joint order (`joint_names_isaac`) onto MuJoCo actuators and DoFs,
 * smooths the policy output, keeps a four-deep history of actions and turns
 * the current action into actuator commands before every physics step.
 * Float32 rounding is not modelled: values are reals.
 */
module IsaacAction {
  import opened Wrappers
  import opened Control
  import Runtime

  /** `mjtTrn.mjTRN_JOINT`. */
  const TRN_JOINT := 0

  const FLOATING_BASE := "floating_base_joint"

  /** What `onSceneLoaded` reads from `mjModel`: per actuator its
      transmission type and the pair `actuator_trnid[2i..2i+2]`, per joint
      its decoded name and its `jnt_qposadr`/`jnt_dofadr`, and the timestep. */
  datatype SceneModel = SceneModel(nu: nat, trnType: seq<int>, trnId: seq<int>, jointNames: seq<string>,
                                   jntQposAdr: seq<int>, jntDofAdr: seq<int>, timestep: real)
  {
    /** The array sizes MuJoCo guarantees for a compiled model. */
    predicate WellFormed() {
      |trnType| >= nu && |trnId| >= 2 * nu
      && |jntQposAdr| == |jointNames| && |jntDofAdr| == |jointNames| && timestep > 0.0
    }
  }

  /** One value of `actuators` in the asset metadata: not an object, or an
      object whose `action_scale`/`stiffness`/`damping` may be numbers. */
  datatype ActuatorEntry = NotObject | Entry(actionScale: Option<real>, stiffness: Option<real>, damping: Option<real>)

  /** The asset metadata the manager reads; `None` is a missing key. */
  datatype AssetMeta = AssetMeta(jointNamesIsaac: Option<seq<string>>, defaultJointPos: Option<seq<real>>,
                                 actuators: seq<ActuatorEntry>)

  /** `defaultActuatorParams`. */
  datatype Defaults = Defaults(actionScale: real, stiffness: real, damping: real)

  /** A value handed to `normalizeParam`: a `Float32Array`, a plain array
      (elements that are numbers or not), a number, or anything else. */
  datatype ParamValue = Floats(values: seq<real>) | List(items: seq<Option<real>>) | Number(x: real) | Other

  /** The parts of a policy config the manager reads. */
  datatype PolicyConfig = PolicyConfig(controlType: Option<string>, actionScale: ParamValue,
                                       stiffness: ParamValue, damping: ParamValue)

  /** `actionSmoothing`. */
  datatype Smoothing = Smoothing(prev: real, current: real)

  /** Per policy joint: its actuator (`-1` for none), `qpos` and `qvel` address. */
  datatype JointMap = JointMap(ctrl: seq<int>, qpos: seq<int>, qvel: seq<int>)

  /** `actuator2joint`: the driven joint of every actuator, or `None` when an
      actuator has a non-joint transmission (the scene load throws). */
  function Actuator2Joint(m: SceneModel): (r: Option<seq<int>>)
    requires m.WellFormed()
    ensures r.None? <==> exists i :: 0 <= i < m.nu && m.trnType[i] != TRN_JOINT
    ensures r.Some? ==> |r.value| == m.nu && forall i :: 0 <= i < m.nu ==> r.value[i] == m.trnId[2 * i]
  {
    if exists i :: 0 <= i < m.nu && m.trnType[i] != TRN_JOINT then None
    else Some(seq(m.nu, i requires 0 <= i < m.nu => m.trnId[2 * i]))
  }

  /** The loop over actuators in `onSceneLoaded`. */
  method BuildActuator2Joint(m: SceneModel) returns (r: Result<seq<int>>)
    requires m.WellFormed()
    ensures r.Ok? <==> Actuator2Joint(m).Some?
    ensures r.Ok? ==> r.value == Actuator2Joint(m).value
  {
    var a2j := [];
    for i := 0 to m.nu
      invariant |a2j| == i && forall k :: 0 <= k < i ==> m.trnType[k] == TRN_JOINT && a2j[k] == m.trnId[2 * k]
    {
      if m.trnType[i] != TRN_JOINT {
        return Err("Expected actuator transmission type to be mjTRN_JOINT");
      }
      a2j := a2j + [m.trnId[2 * i]];
    }
    return Ok(a2j);
  }

  /** `jointNamesMJC`: the model's joint names, an unnamed joint 0 being the
      floating base. */
  function MjcJointNames(raw: seq<string>): (names: seq<string>)
    ensures |names| == |raw|
    ensures forall j :: 0 <= j < |raw| ==> names[j] == (if j == 0 && raw[j] == "" then FLOATING_BASE else raw[j])
  {
    seq(|raw|, j requires 0 <= j < |raw| => if j == 0 && raw[j] == "" then FLOATING_BASE else raw[j])
  }

  /** Only the first joint may be renamed, and only when it has no name. */
  lemma MjcJointNamesKeepOthers(raw: seq<string>)
    ensures forall j :: 0 < j < |raw| ==> MjcJointNames(raw)[j] == raw[j]
    ensures |raw| > 0 && raw[0] != "" ==> MjcJointNames(raw) == raw
  {
  }

  /** The position of the first policy joint missing from the model, or
      `|names|` when all are present. */
  function FirstMissing(names: seq<string>, mjc: seq<string>): (k: nat)
    ensures k <= |names|
    ensures forall j :: 0 <= j < k ==> names[j] in mjc
    ensures k < |names| ==> names[k] !in mjc
  {
    if names == [] then 0
    else if names[|names| - 1] in mjc && FirstMissing(names[..|names| - 1], mjc) == |names| - 1 then |names|
    else if FirstMissing(names[..|names| - 1], mjc) < |names| - 1 then FirstMissing(names[..|names| - 1], mjc)
    else |names| - 1
  }

  /** The per-joint addresses of policy joints that all exist in the model. */
  function JointMapOf(names: seq<string>, mjc: seq<string>, a2j: seq<int>, qposAdr: seq<int>, dofAdr: seq<int>)
    : (jm: JointMap)
    requires |qposAdr| == |mjc| && |dofAdr| == |mjc|
    requires forall k :: 0 <= k < |names| ==> names[k] in mjc
    ensures |jm.ctrl| == |names| && |jm.qpos| == |names| && |jm.qvel| == |names|
  {
    JointMap(seq(|names|, k requires 0 <= k < |names| => IndexOf(a2j, IndexOf(mjc, names[k]))),
             seq(|names|, k requires 0 <= k < |names| => qposAdr[IndexOf(mjc, names[k])]),
             seq(|names|, k requires 0 <= k < |names| => dofAdr[IndexOf(mjc, names[k])]))
  }

  /** Each policy joint is the first model joint of that name; its actuator
      is the lowest-numbered actuator driving that joint, and -1 exactly
      when no actuator drives it. */
  lemma JointMapSpec(names: seq<string>, mjc: seq<string>, a2j: seq<int>, qposAdr: seq<int>, dofAdr: seq<int>, k: nat)
    requires |qposAdr| == |mjc| && |dofAdr| == |mjc|
    requires forall i :: 0 <= i < |names| ==> names[i] in mjc
    requires k < |names|
    ensures var jm := JointMapOf(names, mjc, a2j, qposAdr, dofAdr);
      var j := IndexOf(mjc, names[k]);
      && 0 <= j < |mjc| && mjc[j] == names[k] && (forall i :: 0 <= i < j ==> mjc[i] != names[k])
      && jm.qpos[k] == qposAdr[j] && jm.qvel[k] == dofAdr[j]
      && (jm.ctrl[k] == -1 <==> j !in a2j)
      && (jm.ctrl[k] >= 0 ==> a2j[jm.ctrl[k]] == j && forall a :: 0 <= a < jm.ctrl[k] ==> a2j[a] != j)
  {
  }

  /** The loop over `jointNamesIsaac`: it pushes the addresses of each joint
      in turn and throws at the first one the model lacks, leaving the lists
      holding the joints before it. */
  method BuildJointMap(names: seq<string>, mjc: seq<string>, a2j: seq<int>, qposAdr: seq<int>, dofAdr: seq<int>)
    returns (jm: JointMap, r: Result<bool>)
    requires |qposAdr| == |mjc| && |dofAdr| == |mjc|
    ensures var k := FirstMissing(names, mjc);
      && (r.Err? <==> k < |names|)
      && jm == JointMapOf(names[..k], mjc, a2j, qposAdr, dofAdr)
  {
    var ctrl, qpos, qvel := [], [], [];
    var i := 0;
    while i < |names|
      invariant i <= |names| && forall j :: 0 <= j < i ==> names[j] in mjc
      invariant JointMap(ctrl, qpos, qvel) == JointMapOf(names[..i], mjc, a2j, qposAdr, dofAdr)
    {
      var jointIdx := IndexOf(mjc, names[i]);
      if jointIdx < 0 {
        FirstMissingAt(names, mjc, i);
        return JointMap(ctrl, qpos, qvel), Err("Failed to find joint " + names[i] + " in MuJoCo model names");
      }
      ctrl := ctrl + [IndexOf(a2j, jointIdx)];
      qpos := qpos + [qposAdr[jointIdx]];
      qvel := qvel + [dofAdr[jointIdx]];
      i := i + 1;
      assert names[..i][..i - 1] == names[..i - 1];
    }
    FirstMissingNone(names, mjc);
    assert names[..|names|] == names;
    return JointMap(ctrl, qpos, qvel), Ok(true);
  }

  lemma {:induction false} FirstMissingAt(names: seq<string>, mjc: seq<string>, i: nat)
    requires i < |names| && names[i] !in mjc && forall j :: 0 <= j < i ==> names[j] in mjc
    ensures FirstMissing(names, mjc) == i
  {
  }

  lemma FirstMissingNone(names: seq<string>, mjc: seq<string>)
    requires forall j :: 0 <= j < |names| ==> names[j] in mjc
    ensures FirstMissing(names, mjc) == |names|
  {
  }

  /** What `normalizeParam(value, fallback)` returns for `numActions == n`. */
  function NormalizedParam(value: ParamValue, fallback: real, n: nat): (r: seq<real>)
  {
    match value
    case Floats(xs) => if |xs| == n then xs else Fill(n, fallback)
    case List(items) => seq(n, i requires 0 <= i < n => if i < |items| && items[i].Some? then items[i].value else fallback)
    case Number(x) => Fill(n, x)
    case Other => Fill(n, fallback)
  }

  /** A normalized parameter always has one entry per action; a plain array
      keeps its numbers and takes the fallback for everything else, past its
      end included. */
  lemma NormalizedParamSpec(value: ParamValue, fallback: real, n: nat)
    ensures |NormalizedParam(value, fallback, n)| == n
    ensures value.List? ==> forall i :: 0 <= i < n ==>
      NormalizedParam(value, fallback, n)[i] == (if i < |value.items| && value.items[i].Some? then value.items[i].value else fallback)
    ensures value.Floats? && |value.values| == n ==> NormalizedParam(value, fallback, n) == value.values
    ensures (value.Floats? && |value.values| != n) || value.Other? ==> NormalizedParam(value, fallback, n) == Fill(n, fallback)
  {
  }

  /** `normalizeParam(value, fallback)`. */
  method NormalizeParam(value: ParamValue, fallback: real, n: nat) returns (r: seq<real>)
    ensures r == NormalizedParam(value, fallback, n)
  {
    if value.Floats? && |value.values| == n {
      return value.values;
    }
    if value.List? {
      var a := new real[n];
      for i := 0 to n
        invariant forall j :: 0 <= j < i ==>
          a[j] == (if j < |value.items| && value.items[j].Some? then value.items[j].value else fallback)
      {
        a[i] := if i < |value.items| && value.items[i].Some? then value.items[i].value else fallback;
      }
      return a[..];
    }
    var fillValue := if value.Number? then value.x else fallback;
    return Fill(n, fillValue);
  }

  /** The defaults taken from one actuator entry: its numeric fields over
      (1, 0, 0). */
  function EntryDefaults(e: ActuatorEntry): Defaults
    requires e.Entry?
  {
    Defaults(e.actionScale.GetOr(1.0), e.stiffness.GetOr(0.0), e.damping.GetOr(0.0))
  }

  /** `initializeDefaultActuatorParams`: the first object-valued entry decides. */
  function DefaultsFrom(entries: seq<ActuatorEntry>): Defaults
  {
    if entries == [] then Defaults(1.0, 0.0, 0.0)
    else if entries[0].NotObject? then DefaultsFrom(entries[1..])
    else EntryDefaults(entries[0])
  }

  /** Only the first object-valued entry counts; with none the defaults are
      (1, 0, 0). */
  lemma {:induction false} DefaultsFromFirstEntry(entries: seq<ActuatorEntry>, k: nat)
    requires k <= |entries| && forall j :: 0 <= j < k ==> entries[j].NotObject?
    ensures k < |entries| && entries[k].Entry? ==> DefaultsFrom(entries) == EntryDefaults(entries[k])
    ensures k == |entries| ==> DefaultsFrom(entries) == Defaults(1.0, 0.0, 0.0)
  {
    if k > 0 {
      DefaultsFromFirstEntry(entries[1..], k - 1);
    }
  }

  /** The `for ... of Object.values(actuators)` loop with its `break`. */
  method InitialDefaults(entries: seq<ActuatorEntry>) returns (d: Defaults)
    ensures d == DefaultsFrom(entries)
  {
    d := Defaults(1.0, 0.0, 0.0);
    var i := 0;
    while i < |entries|
      invariant i <= |entries| && DefaultsFrom(entries) == DefaultsFrom(entries[i..])
    {
      if entries[i].NotObject? {
        assert entries[i..][1..] == entries[i + 1..];
        i := i + 1;
        continue;
      }
      d := EntryDefaults(entries[i]);
      return;
    }
  }

  /** `lastActions[i] * prev + raw[i] * current` for every action. */
  function Smoothed(last: seq<real>, raw: seq<real>, s: Smoothing): (r: seq<real>)
    requires |last| == |raw|
    ensures |r| == |raw|
  {
    seq(|raw|, i requires 0 <= i < |raw| => last[i] * s.prev + raw[i] * s.current)
  }

  /** Starting from fresh zeros (a first output, or one whose size changed),
      the smoothed action is the raw action scaled by `current`. */
  lemma SmoothedFromZeros(raw: seq<real>, s: Smoothing)
    ensures forall i :: 0 <= i < |raw| ==> Smoothed(Zeros(|raw|), raw, s)[i] == raw[i] * s.current
  {
  }

  /** Whether `onSceneLoaded` throws: a non-joint actuator, or a policy
      joint the model does not name. */
  predicate SceneLoadFails(m: SceneModel, names: seq<string>)
    requires m.WellFormed()
  {
    Actuator2Joint(m).None? || FirstMissing(names, MjcJointNames(m.jointNames)) < |names|
  }

  /** The joint layout a successful scene load produces. */
  function SceneLayout(m: SceneModel, names: seq<string>): (jm: JointMap)
    requires m.WellFormed() && !SceneLoadFails(m, names)
    ensures |jm.ctrl| == |names| && |jm.qpos| == |names| && |jm.qvel| == |names|
  {
    JointMapOf(names, MjcJointNames(m.jointNames), Actuator2Joint(m).value, m.jntQposAdr, m.jntDofAdr)
  }

  /** The two lookup loops of `onSceneLoaded`, with the layout they leave
      behind when one of them throws. */
  method ResolveJoints(m: SceneModel, names: seq<string>) returns (r: Result<bool>, mjc: seq<string>, jm: JointMap)
    requires m.WellFormed()
    ensures r.Err? <==> SceneLoadFails(m, names)
    ensures Actuator2Joint(m).Some? ==> mjc == MjcJointNames(m.jointNames)
    ensures r.Ok? ==> jm == SceneLayout(m, names)
  {
    mjc := [];
    var a2j := BuildActuator2Joint(m);
    if a2j.Err? {
      return Err(a2j.msg), mjc, JointMap([], [], []);
    }
    mjc := MjcJointNames(m.jointNames);
    jm, r := BuildJointMap(names, mjc, a2j.value, m.jntQposAdr, m.jntDofAdr);
    if r.Ok? {
      assert names[..|names|] == names;
    }
  }

  /** `Math.max(1, Math.round(0.02 / timestep))`. */
  function ActionDecimation(timestep: real): (d: nat)
    requires timestep > 0.0
    ensures d >= 1 && d >= Runtime.Decimation(timestep)
  {
    if Runtime.Decimation(timestep) < 1 then 1 else Runtime.Decimation(timestep)
  }

  class IsaacActionManager {
    const smoothing: Smoothing
    var controlType: string
    /** Whether `mjData` is set. */
    var hasData: bool
    var jointNamesIsaac: seq<string>
    var jointNamesMJC: seq<string>
    var ctrlAdrIsaac: seq<int>
    var qposAdrIsaac: seq<int>
    var qvelAdrIsaac: seq<int>
    var numActions: nat
    var defaultJpos: seq<real>
    var lastActions: Option<seq<real>>
    var actionBuffer: seq<seq<real>>
    var decimation: nat
    var defaultActuatorParams: Option<Defaults>
    var actionScale: seq<real>
    var jntKp: seq<real>
    var jntKd: seq<real>

    /** The action history has one vector per slot, as long as the action. */
    predicate Valid()
      reads this
    {
      lastActions.Some? ==> |lastActions.value| == numActions
    }

    /** `new IsaacActionManager(options)`: smoothing 0.2/0.8 unless given. */
    constructor(options: Option<Smoothing>)
      ensures smoothing == options.GetOr(Smoothing(0.2, 0.8))
      ensures controlType == "joint_position" && lastActions.None? && actionBuffer == [] && decimation == 1
      ensures defaultActuatorParams.None? && !hasData && Valid()
    {
      smoothing := options.GetOr(Smoothing(0.2, 0.8));
      controlType := "joint_position";
      hasData := false;
      jointNamesIsaac := [];
      jointNamesMJC := [];
      ctrlAdrIsaac := [];
      qposAdrIsaac := [];
      qvelAdrIsaac := [];
      numActions := 0;
      defaultJpos := [];
      lastActions := None;
      actionBuffer := [];
      decimation := 1;
      defaultActuatorParams := None;
      actionScale := [];
      jntKp := [];
      jntKd := [];
    }

    /** `setActuatorParams({ actionScale, stiffness, damping })`. */
    method SetActuatorParams(scale: ParamValue, stiffness: ParamValue, damping: ParamValue)
      modifies this
      ensures actionScale == NormalizedParam(scale, 1.0, numActions)
      ensures jntKp == NormalizedParam(stiffness, 0.0, numActions)
      ensures jntKd == NormalizedParam(damping, 0.0, numActions)
      ensures controlType == old(controlType) && hasData == old(hasData) && jointNamesIsaac == old(jointNamesIsaac)
      ensures jointNamesMJC == old(jointNamesMJC) && ctrlAdrIsaac == old(ctrlAdrIsaac) && qposAdrIsaac == old(qposAdrIsaac)
      ensures qvelAdrIsaac == old(qvelAdrIsaac) && numActions == old(numActions) && defaultJpos == old(defaultJpos)
      ensures lastActions == old(lastActions) && actionBuffer == old(actionBuffer) && decimation == old(decimation)
      ensures defaultActuatorParams == old(defaultActuatorParams)
    {
      actionScale := NormalizeParam(scale, 1.0, numActions);
      jntKp := NormalizeParam(stiffness, 0.0, numActions);
      jntKd := NormalizeParam(damping, 0.0, numActions);
    }

    /** `initializeDefaultActuatorParams(assetMeta)`. */
    method InitializeDefaultActuatorParams(entries: seq<ActuatorEntry>)
      modifies this
      ensures defaultActuatorParams == Some(DefaultsFrom(entries))
      ensures actionScale == Fill(numActions, DefaultsFrom(entries).actionScale)
      ensures jntKp == Fill(numActions, DefaultsFrom(entries).stiffness)
      ensures jntKd == Fill(numActions, DefaultsFrom(entries).damping)
      ensures controlType == old(controlType) && hasData == old(hasData) && jointNamesIsaac == old(jointNamesIsaac)
      ensures jointNamesMJC == old(jointNamesMJC) && ctrlAdrIsaac == old(ctrlAdrIsaac) && qposAdrIsaac == old(qposAdrIsaac)
      ensures qvelAdrIsaac == old(qvelAdrIsaac) && numActions == old(numActions) && defaultJpos == old(defaultJpos)
      ensures lastActions == old(lastActions) && actionBuffer == old(actionBuffer) && decimation == old(decimation)
    {
      var d := InitialDefaults(entries);
      defaultActuatorParams := Some(d);
      SetActuatorParams(Number(d.actionScale), Number(d.stiffness), Number(d.damping));
    }

    /**
     * `onSceneLoaded({ mjModel, mjData, assetMeta })`.  A non-joint actuator
     * or a policy joint missing from the model throws; otherwise there is
     * one action per policy joint, with its actuator, `qpos` and `qvel`
     * addresses, a zero action, four zero history entries, a decimation of
     * at least 1, and the actuator defaults from the metadata applied to
     * the scale and both gains.  The control type stays.  A throw leaves the
     * address lists as far as the lookup got, and the model's joint names
     * assigned once every actuator proved joint-driven.
     */
    method OnSceneLoaded(m: SceneModel, meta: AssetMeta) returns (r: Result<bool>)
      requires m.WellFormed()
      modifies this
      ensures r.Err? <==> SceneLoadFails(m, meta.jointNamesIsaac.GetOr([]))
      ensures hasData && jointNamesIsaac == meta.jointNamesIsaac.GetOr([])
      ensures jointNamesMJC == if Actuator2Joint(m).Some? then MjcJointNames(m.jointNames) else old(jointNamesMJC)
      ensures r.Err? ==> numActions == old(numActions) && lastActions == old(lastActions) && actionBuffer == old(actionBuffer)
      ensures r.Err? ==> decimation == old(decimation) && defaultJpos == old(defaultJpos)
      ensures r.Err? ==> defaultActuatorParams == old(defaultActuatorParams) && actionScale == old(actionScale)
      ensures r.Err? ==> jntKp == old(jntKp) && jntKd == old(jntKd)
      ensures r.Ok? ==> JointMap(ctrlAdrIsaac, qposAdrIsaac, qvelAdrIsaac) == SceneLayout(m, jointNamesIsaac)
      ensures r.Ok? ==> numActions == |jointNamesIsaac| && lastActions == Some(Zeros(numActions))
      ensures r.Ok? ==> actionBuffer == [Zeros(numActions), Zeros(numActions), Zeros(numActions), Zeros(numActions)]
      ensures r.Ok? ==> decimation == ActionDecimation(m.timestep) && defaultJpos == meta.defaultJointPos.GetOr([])
      ensures r.Ok? ==> var d := DefaultsFrom(meta.actuators);
                        && defaultActuatorParams == Some(d) && actionScale == Fill(numActions, d.actionScale)
                        && jntKp == Fill(numActions, d.stiffness) && jntKd == Fill(numActions, d.damping)
      ensures controlType == old(controlType)
      ensures Valid() == (r.Ok? || old(Valid()))
    {
      hasData := true;
      jointNamesIsaac := meta.jointNamesIsaac.GetOr([]);
      var mjc, jm;
      r, mjc, jm := ResolveJoints(m, jointNamesIsaac);
      ctrlAdrIsaac, qposAdrIsaac, qvelAdrIsaac := jm.ctrl, jm.qpos, jm.qvel;
      if Actuator2Joint(m).Some? {
        jointNamesMJC := mjc;
      }
      if r.Err? {
        return;
      }
      ResetActions(|jointNamesIsaac|, meta.defaultJointPos.GetOr([]), m.timestep, meta.actuators);
    }

    /** The end of `onSceneLoaded`: sizes, zero action and history,
        decimation and actuator defaults. */
    method ResetActions(n: nat, jpos: seq<real>, timestep: real, actuators: seq<ActuatorEntry>)
      requires timestep > 0.0
      modifies this
      ensures numActions == n && lastActions == Some(Zeros(n)) && Valid()
      ensures actionBuffer == [Zeros(n), Zeros(n), Zeros(n), Zeros(n)]
      ensures decimation == ActionDecimation(timestep) && defaultJpos == jpos
      ensures var d := DefaultsFrom(actuators);
        && defaultActuatorParams == Some(d) && actionScale == Fill(n, d.actionScale)
        && jntKp == Fill(n, d.stiffness) && jntKd == Fill(n, d.damping)
      ensures controlType == old(controlType) && hasData == old(hasData) && jointNamesIsaac == old(jointNamesIsaac)
      ensures jointNamesMJC == old(jointNamesMJC) && ctrlAdrIsaac == old(ctrlAdrIsaac) && qposAdrIsaac == old(qposAdrIsaac)
      ensures qvelAdrIsaac == old(qvelAdrIsaac)
    {
      numActions := n;
      defaultJpos := jpos;
      actionBuffer := [Zeros(n), Zeros(n), Zeros(n), Zeros(n)];
      lastActions := Some(Zeros(n));
      decimation := ActionDecimation(timestep);
      InitializeDefaultActuatorParams(actuators);
    }

    /** `onPolicyLoaded({ config })`: the control type (default
        `joint_position`) and the parameters the config gives. */
    method OnPolicyLoaded(config: PolicyConfig)
      modifies this
      ensures controlType == config.controlType.GetOr("joint_position")
      ensures actionScale == NormalizedParam(config.actionScale, 1.0, numActions)
      ensures jntKp == NormalizedParam(config.stiffness, 0.0, numActions)
      ensures jntKd == NormalizedParam(config.damping, 0.0, numActions)
      ensures hasData == old(hasData) && jointNamesIsaac == old(jointNamesIsaac) && jointNamesMJC == old(jointNamesMJC)
      ensures ctrlAdrIsaac == old(ctrlAdrIsaac) && qposAdrIsaac == old(qposAdrIsaac) && qvelAdrIsaac == old(qvelAdrIsaac)
      ensures numActions == old(numActions) && defaultJpos == old(defaultJpos) && lastActions == old(lastActions)
      ensures actionBuffer == old(actionBuffer) && decimation == old(decimation) && defaultActuatorParams == old(defaultActuatorParams)
    {
      controlType := config.controlType.GetOr("joint_position");
      SetActuatorParams(config.actionScale, config.stiffness, config.damping);
    }

    /** `onPolicyCleared()`: back to `joint_position` and the scene's
        defaults, or to (1, 0, 0) before any scene. */
    method OnPolicyCleared()
      modifies this
      ensures controlType == "joint_position"
      ensures var d := defaultActuatorParams.GetOr(Defaults(1.0, 0.0, 0.0));
        actionScale == Fill(numActions, d.actionScale) && jntKp == Fill(numActions, d.stiffness)
        && jntKd == Fill(numActions, d.damping)
      ensures hasData == old(hasData) && jointNamesIsaac == old(jointNamesIsaac) && jointNamesMJC == old(jointNamesMJC)
      ensures ctrlAdrIsaac == old(ctrlAdrIsaac) && qposAdrIsaac == old(qposAdrIsaac) && qvelAdrIsaac == old(qvelAdrIsaac)
      ensures numActions == old(numActions) && defaultJpos == old(defaultJpos) && lastActions == old(lastActions)
      ensures actionBuffer == old(actionBuffer) && decimation == old(decimation) && defaultActuatorParams == old(defaultActuatorParams)
    {
      controlType := "joint_position";
      if defaultActuatorParams.Some? {
        var d := defaultActuatorParams.value;
        SetActuatorParams(Number(d.actionScale), Number(d.stiffness), Number(d.damping));
      } else {
        SetActuatorParams(Other, Other, Other);
      }
    }

    /**
     * `onPolicyOutput(result)`: no action, no change.  Otherwise a missing
     * or differently sized action vector is replaced by zeros of the new
     * size, the action is smoothed into it, and the history shifts with a
     * copy of it in front.
     */
    method OnPolicyOutput(action: Option<seq<real>>)
      requires Valid()
      modifies this
      ensures action.None? ==> lastActions == old(lastActions) && actionBuffer == old(actionBuffer)
                               && numActions == old(numActions)
      ensures action.Some? ==> numActions == |action.value|
      ensures action.Some? ==>
        var base := if old(lastActions).Some? && |action.value| == old(numActions) then old(lastActions).value
                    else Zeros(|action.value|);
        && lastActions == Some(Smoothed(base, action.value, smoothing))
        && actionBuffer == Shifted(old(actionBuffer), lastActions.value)
      ensures Valid()
      ensures controlType == old(controlType) && hasData == old(hasData) && jointNamesIsaac == old(jointNamesIsaac)
      ensures jointNamesMJC == old(jointNamesMJC) && ctrlAdrIsaac == old(ctrlAdrIsaac) && qposAdrIsaac == old(qposAdrIsaac)
      ensures qvelAdrIsaac == old(qvelAdrIsaac) && defaultJpos == old(defaultJpos) && decimation == old(decimation)
      ensures defaultActuatorParams == old(defaultActuatorParams) && actionScale == old(actionScale)
      ensures jntKp == old(jntKp) && jntKd == old(jntKd)
    {
      if action.None? {
        return;
      }
      var raw := action.value;
      var base := if lastActions.Some? && |raw| == numActions then lastActions.value else Zeros(|raw|);
      var last := base;
      for i := 0 to |raw|
        invariant |last| == |raw|
        invariant forall j :: 0 <= j < i ==> last[j] == base[j] * smoothing.prev + raw[j] * smoothing.current
        invariant forall j :: i <= j < |raw| ==> last[j] == base[j]
      {
        last := last[i := last[i] * smoothing.prev + raw[i] * smoothing.current];
      }
      assert forall j :: 0 <= j < |raw| ==> last[j] == Smoothed(base, raw, smoothing)[j];
      assert last == Smoothed(base, raw, smoothing);
      numActions := |raw|;
      lastActions := Some(last);
      actionBuffer := ShiftHistory(actionBuffer, last);
    }

    /** The torques the `joint_position` branch computes: a PD law pulling
        each joint towards `actionScale * lastActions + defaultJpos` with zero
        target velocity. */
    function JointPositionTorques(qpos: seq<real>, qvel: seq<real>): (t: seq<real>)
      reads this
      requires lastActions.Some?
      ensures |t| == numActions
    {
      var kp, kd, scale, last, jpos, qposAdr, qvelAdr :=
        jntKp, jntKd, actionScale, lastActions.value, defaultJpos, qposAdrIsaac, qvelAdrIsaac;
      seq(numActions, i =>
        PdTorque(RealAt(kp, i), RealAt(kd, i), RealAt(scale, i) * RealAt(last, i) + RealAt(jpos, i),
                 RealAt(qpos, IntAt(qposAdr, i)), 0.0, RealAt(qvel, IntAt(qvelAdr, i))))
    }

    /** The torques of the `torque` branch: the scaled action. */
    function DirectTorques(): (t: seq<real>)
      reads this
      requires lastActions.Some?
      ensures |t| == numActions
    {
      var scale, last := actionScale, lastActions.value;
      seq(numActions, i => RealAt(scale, i) * RealAt(last, i))
    }

    /**
     * `beforeSimulationStep()`: without data or an action nothing is
     * written; `joint_position` writes the PD torques and `torque` the scaled
     * action to each joint's actuator (no write where there is none); any
     * other control type leaves `ctrl` alone.
     */
    method BeforeSimulationStep(ctrl: array<real>, qpos: seq<real>, qvel: seq<real>)
      modifies ctrl
      ensures !hasData || lastActions.None? || controlType !in {"joint_position", "torque"} ==> ctrl[..] == old(ctrl[..])
      ensures hasData && lastActions.Some? && controlType == "joint_position" ==>
        ctrl[..] == Written(old(ctrl[..]), ctrlAdrIsaac, JointPositionTorques(qpos, qvel), numActions)
      ensures hasData && lastActions.Some? && controlType == "torque" ==>
        ctrl[..] == Written(old(ctrl[..]), ctrlAdrIsaac, DirectTorques(), numActions)
    {
      if !hasData || lastActions.None? {
        return;
      }
      if controlType == "joint_position" {
        WriteTorques(ctrl, JointPositionTorques(qpos, qvel));
      } else if controlType == "torque" {
        WriteTorques(ctrl, DirectTorques());
      }
    }

    /** The write loop shared by both branches. */
    method WriteTorques(ctrl: array<real>, torques: seq<real>)
      requires |torques| == numActions
      modifies ctrl
      ensures ctrl[..] == Written(old(ctrl[..]), ctrlAdrIsaac, torques, numActions)
    {
      for i := 0 to numActions
        invariant ctrl[..] == Written(old(ctrl[..]), ctrlAdrIsaac, torques, i)
      {
        var ctrlAdr := IntAt(ctrlAdrIsaac, i);
        if 0 <= ctrlAdr < ctrl.Length {
          ctrl[ctrlAdr] := torques[i];
        }
        WrittenStep(old(ctrl[..]), ctrlAdrIsaac, torques, i);
      }
    }

    /** `dispose()`: model, data and metadata dropped, so later steps write nothing. */
    method Dispose()
      modifies this
      ensures !hasData
      ensures controlType == old(controlType) && jointNamesIsaac == old(jointNamesIsaac) && jointNamesMJC == old(jointNamesMJC)
      ensures ctrlAdrIsaac == old(ctrlAdrIsaac) && qposAdrIsaac == old(qposAdrIsaac) && qvelAdrIsaac == old(qvelAdrIsaac)
      ensures numActions == old(numActions) && defaultJpos == old(defaultJpos) && lastActions == old(lastActions)
      ensures actionBuffer == old(actionBuffer) && decimation == old(decimation) && defaultActuatorParams == old(defaultActuatorParams)
      ensures actionScale == old(actionScale) && jntKp == old(jntKp) && jntKd == old(jntKd)
    {
      hasData := false;
    }
  }
}
