/**
 * `GoCommandManager` (`src/core/engine/managers/CommandManager.ts`): the
 * user-facing setters of the shared `runtime.params` record, each of which
 * also tells the setpoint service, found by name in the runtime's registry,
 * about the change when that service defines the matching hook.
 */
module Commands {
  import opened Wrappers

  /** `runtime.params`: one mutable record shared by the runtime, the
      command manager and the env managers. */
  class RuntimeParams {
    var paused: bool
    var commandVelX: real
    var impedanceKp: real
    var useSetpoint: bool
    var compliantMode: bool
    var impulseRemainTime: real

    constructor(paused: bool, commandVelX: real, impedanceKp: real, useSetpoint: bool,
                compliantMode: bool, impulseRemainTime: real)
      ensures this.paused == paused && this.commandVelX == commandVelX && this.impedanceKp == impedanceKp
      ensures this.useSetpoint == useSetpoint && this.compliantMode == compliantMode
      ensures this.impulseRemainTime == impulseRemainTime
    {
      this.paused := paused;
      this.commandVelX := commandVelX;
      this.impedanceKp := impedanceKp;
      this.useSetpoint := useSetpoint;
      this.compliantMode := compliantMode;
      this.impulseRemainTime := impulseRemainTime;
    }
  }

  /** The hooks a setpoint service object may define. */
  datatype ServiceHook =
    | ImpedanceChangeHook | SetpointEnabledHook | SetpointDisabledHook
    | CompliantModeChangeHook | ImpulseTriggeredHook | ResetHook

  /** A call the command manager makes on the setpoint service. */
  datatype ServiceCall =
    | OnImpedanceChange(kp: real)
    | OnSetpointEnabled
    | OnSetpointDisabled
    | OnCompliantModeChange(flag: bool, kp: real)
    | OnImpulseTriggered(duration: real)
    | ResetService

  /** The hook a call needs. */
  function HookOf(c: ServiceCall): ServiceHook {
    match c
    case OnImpedanceChange(_) => ImpedanceChangeHook
    case OnSetpointEnabled => SetpointEnabledHook
    case OnSetpointDisabled => SetpointDisabledHook
    case OnCompliantModeChange(_, _) => CompliantModeChangeHook
    case OnImpulseTriggered(_) => ImpulseTriggeredHook
    case ResetService => ResetHook
  }

  /** `if (service && typeof service.hook === 'function') service.hook(...)`:
      the call reaches the service exactly when the service exists and
      defines the hook; otherwise nothing happens. */
  function Delivered(service: Option<set<ServiceHook>>, c: ServiceCall): (sent: seq<ServiceCall>)
    ensures sent == [] || sent == [c]
    ensures sent == [c] <==> service.Some? && HookOf(c) in service.value
  {
    if service.Some? && HookOf(c) in service.value then [c] else []
  }

  /** The runtime as the managers of this module and `LocomotionEnv` see it:
      the shared params, the service registry (each service described by
      the hooks it defines), the physics timestep, whether a three.js scene
      exists and the names of the body objects (`None` for a missing one). */
  class SharedRuntime {
    const params: RuntimeParams
    var services: map<string, set<ServiceHook>>
    var timestep: real
    var hasScene: bool
    var bodies: seq<Option<string>>

    constructor(params: RuntimeParams, timestep: real, hasScene: bool, bodies: seq<Option<string>>)
      ensures this.params == params && services == map[]
      ensures this.timestep == timestep && this.hasScene == hasScene && this.bodies == bodies
    {
      this.params := params;
      services := map[];
      this.timestep := timestep;
      this.hasScene := hasScene;
      this.bodies := bodies;
    }

    /** `getService(name)`. */
    function GetService(name: string): (s: Option<set<ServiceHook>>)
      reads this
      ensures s.Some? <==> name in services
      ensures s.Some? ==> s.value == services[name]
    {
      if name in services then Some(services[name]) else None
    }
  }

  /** The constructor options; `None` for a missing option. */
  datatype CommandOptions = CommandOptions(setpointServiceName: Option<string>, minImpedance: Option<real>,
                                           maxImpedance: Option<real>, defaultImpedance: Option<real>)

  const DefaultServiceName: string := "setpoint-control"

  /** `options.setpointServiceName || 'setpoint-control'`: an empty name is
      falsy and also gives the default. */
  function ServiceNameOf(name: Option<string>): (n: string)
    ensures name.Some? && name.value != "" ==> n == name.value
    ensures name.None? || name.value == "" ==> n == DefaultServiceName
    ensures n != ""
  {
    if name.Some? && name.value != "" then name.value else DefaultServiceName
  }

  /** `Math.min(Math.max(value, lo), hi)`. */
  function Clamp(value: real, lo: real, hi: real): (r: real)
    ensures lo <= hi ==> lo <= r <= hi
    ensures lo <= value <= hi ==> r == value
    ensures value < lo && lo <= hi ==> r == lo
    ensures hi < value ==> r == hi
  {
    var raised := if value < lo then lo else value;
    if raised < hi then raised else hi
  }

  /** Clamping twice to the same range changes nothing more. */
  lemma ClampIdempotent(value: real, lo: real, hi: real)
    requires lo <= hi
    ensures Clamp(Clamp(value, lo, hi), lo, hi) == Clamp(value, lo, hi)
  {
  }

  /** The impedance range, `options.minImpedance ?? 12` to `options.maxImpedance ?? 24`. */
  function MinKp(o: CommandOptions): real { o.minImpedance.GetOr(12.0) }
  function MaxKp(o: CommandOptions): real { o.maxImpedance.GetOr(24.0) }

  /** The gain `setCompliantMode(flag)` stores: 0 in compliant mode, else
      `options.defaultImpedance ?? 24`. */
  function CompliantKp(o: CommandOptions, flag: bool): real {
    if flag then 0.0 else o.defaultImpedance.GetOr(24.0)
  }

  /** With the default options, compliant mode stores a gain below the range
      `setImpedanceKp` can ever store, and leaving it restores the top of
      that range. */
  lemma CompliantKpOutsideRange(value: real)
    ensures var o := CommandOptions(None, None, None, None);
      && CompliantKp(o, true) < Clamp(value, MinKp(o), MaxKp(o))
      && CompliantKp(o, false) == MaxKp(o)
      && Clamp(CompliantKp(o, false), MinKp(o), MaxKp(o)) == CompliantKp(o, false)
  {
  }

  class GoCommandManager {
    const options: CommandOptions
    const setpointServiceName: string
    var runtime: SharedRuntime?
    /** Every call made on the setpoint service so far, in order. */
    var sent: seq<ServiceCall>

    /** `new GoCommandManager(options)`. */
    constructor(options: CommandOptions)
      ensures this.options == options && setpointServiceName == ServiceNameOf(options.setpointServiceName)
      ensures runtime == null && sent == []
    {
      this.options := options;
      setpointServiceName := ServiceNameOf(options.setpointServiceName);
      runtime := null;
      sent := [];
    }

    /** `attachRuntime(runtime)` (the manager has no `onRuntimeAttached`). */
    method AttachRuntime(r: SharedRuntime)
      modifies this
      ensures runtime == r && sent == old(sent)
    {
      runtime := r;
    }

    /** The `setpointService` getter: `runtime?.getService(name)`. */
    function SetpointService(): (s: Option<set<ServiceHook>>)
      reads this, runtime
      ensures runtime == null ==> s.None?
      ensures runtime != null ==> s == runtime.GetService(setpointServiceName)
    {
      if runtime == null then None else runtime.GetService(setpointServiceName)
    }

    /** One optional hook call on the setpoint service. */
    method Notify(c: ServiceCall)
      modifies this`sent
      ensures sent == old(sent) + Delivered(SetpointService(), c)
    {
      var service := SetpointService();
      if service.Some? && HookOf(c) in service.value {
        sent := sent + [c];
      }
    }

    /** `setPaused(paused)`. */
    method SetPaused(paused: bool)
      requires runtime != null
      modifies runtime.params
      ensures runtime.params.paused == paused
      ensures unchanged(runtime.params`commandVelX, runtime.params`impedanceKp, runtime.params`useSetpoint,
                        runtime.params`compliantMode, runtime.params`impulseRemainTime)
    {
      runtime.params.paused := paused;
    }

    /** `setCommandVelocityX(value)`. */
    method SetCommandVelocityX(value: real)
      requires runtime != null
      modifies runtime.params
      ensures runtime.params.commandVelX == value
      ensures unchanged(runtime.params`paused, runtime.params`impedanceKp, runtime.params`useSetpoint,
                        runtime.params`compliantMode, runtime.params`impulseRemainTime)
    {
      runtime.params.commandVelX := value;
    }

    /** `setImpedanceKp(value)`: the value clamped to the configured range is
        stored and passed to the service's `onImpedanceChange`. */
    method SetImpedanceKp(value: real)
      requires runtime != null
      modifies runtime.params, this`sent
      ensures runtime.params.impedanceKp == Clamp(value, MinKp(options), MaxKp(options))
      ensures sent == old(sent) + Delivered(SetpointService(), OnImpedanceChange(runtime.params.impedanceKp))
      ensures unchanged(runtime.params`paused, runtime.params`commandVelX, runtime.params`useSetpoint,
                        runtime.params`compliantMode, runtime.params`impulseRemainTime)
    {
      var clamped := Clamp(value, MinKp(options), MaxKp(options));
      runtime.params.impedanceKp := clamped;
      Notify(OnImpedanceChange(clamped));
    }

    /** `setUseSetpoint(flag)`: enabling stops the commanded forward velocity
        and calls `onSetpointEnabled`; disabling keeps the velocity and calls
        `onSetpointDisabled`. */
    method SetUseSetpoint(flag: bool)
      requires runtime != null
      modifies runtime.params, this`sent
      ensures runtime.params.useSetpoint == flag
      ensures runtime.params.commandVelX == if flag then 0.0 else old(runtime.params.commandVelX)
      ensures sent == old(sent) + Delivered(SetpointService(), if flag then OnSetpointEnabled else OnSetpointDisabled)
      ensures unchanged(runtime.params`paused, runtime.params`impedanceKp, runtime.params`compliantMode,
                        runtime.params`impulseRemainTime)
    {
      runtime.params.useSetpoint := flag;
      if flag {
        runtime.params.commandVelX := 0.0;
        Notify(OnSetpointEnabled);
      } else {
        Notify(OnSetpointDisabled);
      }
    }

    /** `setCompliantMode(flag)`: compliant mode zeroes the gain and the
        velocity; leaving it restores the default gain; the service then
        hears the flag with the gain now stored. */
    method SetCompliantMode(flag: bool)
      requires runtime != null
      modifies runtime.params, this`sent
      ensures runtime.params.compliantMode == flag
      ensures runtime.params.impedanceKp == CompliantKp(options, flag)
      ensures runtime.params.commandVelX == if flag then 0.0 else old(runtime.params.commandVelX)
      ensures sent == old(sent) + Delivered(SetpointService(), OnCompliantModeChange(flag, CompliantKp(options, flag)))
      ensures unchanged(runtime.params`paused, runtime.params`useSetpoint, runtime.params`impulseRemainTime)
    {
      runtime.params.compliantMode := flag;
      if flag {
        runtime.params.impedanceKp := 0.0;
        runtime.params.commandVelX := 0.0;
      } else {
        runtime.params.impedanceKp := options.defaultImpedance.GetOr(24.0);
      }
      Notify(OnCompliantModeChange(flag, runtime.params.impedanceKp));
    }

    /** `triggerImpulse(duration = 0.1)`: `None` is an omitted argument. */
    method TriggerImpulse(duration: Option<real>)
      requires runtime != null
      modifies runtime.params, this`sent
      ensures runtime.params.impulseRemainTime == duration.GetOr(0.1)
      ensures sent == old(sent) + Delivered(SetpointService(), OnImpulseTriggered(duration.GetOr(0.1)))
      ensures unchanged(runtime.params`paused, runtime.params`commandVelX, runtime.params`impedanceKp,
                        runtime.params`useSetpoint, runtime.params`compliantMode)
    {
      var d := duration.GetOr(0.1);
      runtime.params.impulseRemainTime := d;
      Notify(OnImpulseTriggered(d));
    }

    /** `reset()`: only forwarded to the service. */
    method Reset()
      modifies this`sent
      ensures sent == old(sent) + Delivered(SetpointService(), ResetService)
    {
      Notify(ResetService);
    }
  }
}

/**
 * `LocomotionEnvManager`
 * (`src/core/mujoco/runtime/managers/environment/LocomotionEnvManager.js`):
 * the visibility rule of the draggable setpoint ball, the setpoint service
 * it registers, the clearing of applied forces before every physics
 * sub-step and the countdown of a triggered impulse on the base body.
 */
module LocomotionEnv {
  import opened Wrappers
  import opened Control
  import opened Commands
  import opened Coordinates

  /** `options.serviceName ?? 'setpoint-control'`: unlike the command
      manager's `||`, an empty name is kept. */
  function EnvServiceName(name: Option<string>): (n: string)
    ensures name.Some? ==> n == name.value
    ensures name.None? ==> n == DefaultServiceName
  {
    name.GetOr(DefaultServiceName)
  }

  /** The two managers find each other under the same name unless the
      configured name is the empty string. */
  lemma ServiceNamesAgree(name: Option<string>)
    ensures name != Some("") ==> EnvServiceName(name) == ServiceNameOf(name)
    ensures name == Some("") ==> EnvServiceName(name) != ServiceNameOf(name)
  {
  }

  /** The ball is shown for the `facet` policy outside compliant mode while
      the setpoint is in use or the ball was asked for. */
  predicate BallShown(isFacet: bool, compliant: bool, useSetpoint: bool, desired: bool) {
    isFacet && !compliant && (useSetpoint || desired)
  }

  /** The hooks of the service object `createServiceInterface` builds: all of
      those the command manager may call. */
  const EnvServiceHooks: set<ServiceHook> :=
    {ImpedanceChangeHook, SetpointEnabledHook, SetpointDisabledHook, CompliantModeChangeHook,
     ImpulseTriggeredHook, ResetHook}

  /** Registered under the name the command manager looks up, the env
      service receives every notification the command manager sends. */
  lemma EnvServiceReceivesAll(services: map<string, set<ServiceHook>>, name: Option<string>, c: ServiceCall)
    requires name != Some("")
    ensures var reg := services[EnvServiceName(name) := EnvServiceHooks];
      Delivered(if ServiceNameOf(name) in reg then Some(reg[ServiceNameOf(name)]) else None, c) == [c]
  {
    ServiceNamesAgree(name);
  }

  /** `a - b` and `a × b` of three.js vectors. */
  function Sub(a: Vec3, b: Vec3): Vec3 {
    Vec3(a.x - b.x, a.y - b.y, a.z - b.z)
  }

  function Cross(a: Vec3, b: Vec3): Vec3 {
    Vec3(a.y * b.z - a.z * b.y, a.z * b.x - a.x * b.z, a.x * b.y - a.y * b.x)
  }

  /** `xfrc_applied` after an impulse step: zero except the six entries of
      body `p`, which hold the force followed by the torque. */
  function ImpulseFrame(n: nat, p: nat, force: Vec3, torque: Vec3): (f: seq<real>)
    requires 6 * p + 6 <= n
    ensures |f| == n
    ensures f[6 * p] == force.x && f[6 * p + 1] == force.y && f[6 * p + 2] == force.z
    ensures f[6 * p + 3] == torque.x && f[6 * p + 4] == torque.y && f[6 * p + 5] == torque.z
    ensures forall i :: 0 <= i < n && !(6 * p <= i < 6 * p + 6) ==> f[i] == 0.0
  {
    seq(n, i requires 0 <= i < n =>
      if i == 6 * p then force.x else if i == 6 * p + 1 then force.y else if i == 6 * p + 2 then force.z
      else if i == 6 * p + 3 then torque.x else if i == 6 * p + 4 then torque.y
      else if i == 6 * p + 5 then torque.z else 0.0)
  }

  /** The torque of the impulse: the application point is read from `xpos`
      without swizzling, so it is the body's own position and the lever arm
      is zero. */
  lemma ImpulseTorqueVanishes(xpos: seq<real>, p: nat, force: Vec3)
    requires 3 * p + 2 < |xpos|
    ensures Cross(Sub(GetPosition(xpos, p, false), Stored(xpos, p)), force) == Vec3(0.0, 0.0, 0.0)
  {
  }

  /** `impulse_remain_time` after `k` sub-steps with a base body found: each
      step that starts with time left takes off one timestep. */
  function Remaining(d: real, timestep: real, k: nat): real {
    if k == 0 then d
    else
      var r := Remaining(d, timestep, k - 1);
      if r > 0.0 then r - timestep else r
  }

  /** With a positive timestep, the impulse is pushed in exactly the sub-steps
      `k` with `d - k * timestep > 0`, so for `ceil(d / timestep)` steps,
      with the time left going down by one timestep per step until then. */
  lemma {:induction false} ImpulseCountdown(d: real, timestep: real, k: nat)
    requires timestep > 0.0
    ensures d - (k as real) * timestep > 0.0 ==> Remaining(d, timestep, k) == d - (k as real) * timestep
    ensures Remaining(d, timestep, k) > 0.0 <==> d - (k as real) * timestep > 0.0
  {
    if k > 0 {
      ImpulseCountdown(d, timestep, k - 1);
      assert (k as real) * timestep == ((k - 1) as real) * timestep + timestep;
    }
  }

  /** `mjData`'s applied-force arrays and body positions. */
  class EnvData {
    const qfrcApplied: array<real>
    const xfrcApplied: array<real>
    const xpos: seq<real>

    constructor(qfrcApplied: array<real>, xfrcApplied: array<real>, xpos: seq<real>)
      ensures this.qfrcApplied == qfrcApplied && this.xfrcApplied == xfrcApplied && this.xpos == xpos
    {
      this.qfrcApplied := qfrcApplied;
      this.xfrcApplied := xfrcApplied;
      this.xpos := xpos;
    }
  }

  /** A call on the env service object (`setPosition` and the command
      manager's notifications included). */
  datatype EnvServiceCall =
    | SetActivePolicy(policyId: Option<string>)
    | SetVisible(visible: bool)
    | SetPosition(x: real, y: real, z: real)
    | FromCommand(call: ServiceCall)

  /** The first body index below `nbody` whose body object is named `base`. */
  predicate IsBase(bodies: seq<Option<string>>, b: nat) {
    b < |bodies| && bodies[b] == Some("base")
  }

  /** The pelvis lookup of `onSceneLoaded`: the lowest index below `nbody`
      whose body object exists and is named `base`, or `None`. */
  method FindPelvis(nbody: nat, bodies: seq<Option<string>>) returns (p: Option<nat>)
    ensures p.Some? ==> p.value < nbody && IsBase(bodies, p.value)
    ensures p.Some? ==> forall j :: 0 <= j < p.value ==> !IsBase(bodies, j)
    ensures p.None? ==> forall j :: 0 <= j < nbody ==> !IsBase(bodies, j)
  {
    p := None;
    var b := 0;
    while b < nbody
      invariant b <= nbody
      invariant forall j :: 0 <= j < b ==> !IsBase(bodies, j)
    {
      if b < |bodies| && bodies[b] == Some("base") {
        return Some(b);
      }
      b := b + 1;
    }
  }

  class LocomotionEnvManager {
    const serviceName: string
    const ballHeight: real
    const impulseForce: Vec3
    var runtime: SharedRuntime?
    var activePolicyId: Option<string>
    var isFacetPolicyActive: bool
    var desiredVisibility: bool
    var useSetpointActive: bool
    var compliantModeActive: bool
    /** `runtime.scene` was present at attach time. */
    var hasScene: bool
    /** The ball (created on attach) has the scene as its parent. */
    var ballInScene: bool
    var ballVisible: bool
    var ballPosition: Vec3
    var disposed: bool
    var nbody: nat
    var data: EnvData?
    var pelvisBodyId: Option<nat>

    /** `defaultBallPosition`. */
    function DefaultBallPosition(): Vec3 {
      Vec3(0.0, ballHeight, 0.0)
    }

    /** Whether the ball should be shown now. */
    predicate Display()
      reads this
    {
      BallShown(isFacetPolicyActive, compliantModeActive, useSetpointActive, desiredVisibility)
    }

    /** Before attach there is no ball; without a scene it is never added;
        otherwise, until disposal, it is in the scene and visible exactly
        when it should be shown.  Forces are only touched once a scene
        was loaded on an attached manager, with the base body among the
        model's bodies and the MuJoCo array sizes. */
    ghost predicate Valid()
      reads this, runtime, data
    {
      && (runtime == null ==> !ballInScene && !ballVisible && data == null)
      && (runtime != null && !hasScene ==> !ballInScene && !ballVisible)
      && (runtime != null && hasScene && !disposed ==> ballInScene == Display() && ballVisible == Display())
      && (pelvisBodyId.Some? ==> pelvisBodyId.value < nbody)
      && (data != null ==> && data.qfrcApplied != data.xfrcApplied
                           && data.xfrcApplied.Length == 6 * nbody && |data.xpos| == 3 * nbody)
    }

    /** `new LocomotionEnvManager(options)`; `None` for a missing option. */
    constructor(serviceName: Option<string>, ballHeight: Option<real>, impulseForce: Option<Vec3>)
      ensures Valid() && runtime == null && !disposed
      ensures this.serviceName == EnvServiceName(serviceName) && this.ballHeight == ballHeight.GetOr(0.5)
      ensures this.impulseForce == impulseForce.GetOr(Vec3(0.0, 50.0, 0.0))
      ensures activePolicyId.None? && !isFacetPolicyActive && !desiredVisibility && !useSetpointActive
      ensures !compliantModeActive && data == null && pelvisBodyId.None?
    {
      this.serviceName := EnvServiceName(serviceName);
      this.ballHeight := ballHeight.GetOr(0.5);
      this.impulseForce := impulseForce.GetOr(Vec3(0.0, 50.0, 0.0));
      runtime := null;
      activePolicyId := None;
      isFacetPolicyActive := false;
      desiredVisibility := false;
      useSetpointActive := false;
      compliantModeActive := false;
      hasScene := false;
      ballInScene := false;
      ballVisible := false;
      ballPosition := Vec3(0.0, ballHeight.GetOr(0.5), 0.0);
      disposed := false;
      nbody := 0;
      data := null;
      pelvisBodyId := None;
    }

    /** `updateBallPresence()`: with a ball and a scene, the ball is added to
        or removed from the scene and its visibility set, both to whether it
        should be shown; otherwise nothing happens. */
    method UpdateBallPresence()
      modifies this`ballInScene, this`ballVisible
      ensures runtime != null && hasScene ==> ballInScene == Display() && ballVisible == Display()
      ensures !(runtime != null && hasScene) ==> ballInScene == old(ballInScene) && ballVisible == old(ballVisible)
    {
      if runtime == null || !hasScene {
        return;
      }
      var shouldDisplay := Display();
      if shouldDisplay {
        if !ballInScene {
          ballInScene := true;
        }
      } else if ballInScene {
        ballInScene := false;
      }
      ballVisible := shouldDisplay;
    }

    /** `attachRuntime(r)` and `onRuntimeAttached(r)`: the ball is created at
        its default position, hidden and outside the scene, the service is
        registered under `serviceName` and the ball's presence computed. */
    method AttachRuntime(r: SharedRuntime)
      requires Valid() && runtime == null
      modifies this, r`services
      ensures Valid() && runtime == r && hasScene == r.hasScene && ballPosition == DefaultBallPosition()
      ensures r.services == old(r.services)[serviceName := EnvServiceHooks]
      ensures r.timestep == old(r.timestep) && r.hasScene == old(r.hasScene) && r.bodies == old(r.bodies)
      ensures r.hasScene && !disposed ==> ballInScene == Display() && ballVisible == Display()
      ensures !r.hasScene ==> !ballInScene && !ballVisible
      ensures activePolicyId == old(activePolicyId) && disposed == old(disposed) && nbody == old(nbody)
      ensures data == old(data) && pelvisBodyId == old(pelvisBodyId)
      ensures isFacetPolicyActive == old(isFacetPolicyActive) && useSetpointActive == old(useSetpointActive)
      ensures compliantModeActive == old(compliantModeActive) && desiredVisibility == old(desiredVisibility)
    {
      runtime := r;
      hasScene := r.hasScene;
      ballPosition := DefaultBallPosition();
      ballInScene := false;
      ballVisible := false;
      r.services := r.services[serviceName := EnvServiceHooks];
      UpdateBallPresence();
    }

    /** `setActivePolicy(policyId)`: the facet flag follows the id and the
        presence is recomputed only when the flag changes. */
    method SetActivePolicyId(policyId: Option<string>)
      requires Valid()
      modifies this`activePolicyId, this`isFacetPolicyActive, this`ballInScene, this`ballVisible
      ensures Valid() && activePolicyId == policyId
      ensures isFacetPolicyActive <==> policyId == Some("facet")
      ensures isFacetPolicyActive == old(isFacetPolicyActive) ==> ballInScene == old(ballInScene) && ballVisible == old(ballVisible)
    {
      activePolicyId := policyId;
      var isFacet := policyId == Some("facet");
      if isFacetPolicyActive != isFacet {
        isFacetPolicyActive := isFacet;
        UpdateBallPresence();
      }
    }

    /** `setBallVisibilityState(visible)`. */
    method SetBallVisibilityState(visible: bool)
      requires Valid()
      modifies this`desiredVisibility, this`ballInScene, this`ballVisible
      ensures Valid() && desiredVisibility == visible
      ensures runtime != null && hasScene ==> ballInScene == Display() && ballVisible == Display()
    {
      desiredVisibility := visible;
      UpdateBallPresence();
    }

    /** `setUseSetpointActive(flag)`. */
    method SetUseSetpointActive(flag: bool)
      requires Valid()
      modifies this`useSetpointActive, this`ballInScene, this`ballVisible
      ensures Valid() && useSetpointActive == flag
      ensures runtime != null && hasScene ==> ballInScene == Display() && ballVisible == Display()
    {
      useSetpointActive := flag;
      UpdateBallPresence();
    }

    /** `setCompliantModeActive(flag, kp)`: a numeric `kp` is written to the
        shared params (`None` stands for a non-number); compliant mode hides
        the ball. */
    method SetCompliantModeActive(flag: bool, kp: Option<real>)
      requires Valid() && runtime != null
      modifies this`compliantModeActive, this`ballInScene, this`ballVisible, runtime.params
      ensures Valid() && compliantModeActive == flag
      ensures runtime.params.impedanceKp == if kp.Some? then kp.value else old(runtime.params.impedanceKp)
      ensures hasScene ==> ballInScene == Display() && ballVisible == Display()
      ensures flag ==> !ballInScene && !ballVisible
      ensures unchanged(runtime.params`paused, runtime.params`commandVelX, runtime.params`useSetpoint,
                        runtime.params`compliantMode, runtime.params`impulseRemainTime)
    {
      compliantModeActive := flag;
      if kp.Some? {
        runtime.params.impedanceKp := kp.value;
      }
      UpdateBallPresence();
    }

    /** The service object's methods, as `createServiceInterface` binds them. */
    method HandleServiceCall(c: EnvServiceCall)
      requires Valid() && runtime != null
      modifies this`activePolicyId, this`isFacetPolicyActive, this`desiredVisibility, this`useSetpointActive
      modifies this`compliantModeActive, this`ballInScene, this`ballVisible, this`ballPosition, runtime.params
      ensures Valid()
      ensures c.SetActivePolicy? ==> activePolicyId == c.policyId && (isFacetPolicyActive <==> c.policyId == Some("facet"))
      ensures c.SetVisible? ==> desiredVisibility == c.visible
      ensures c.SetVisible? && hasScene ==> ballInScene == Display() && ballVisible == Display()
      ensures !c.SetActivePolicy? ==> activePolicyId == old(activePolicyId) && isFacetPolicyActive == old(isFacetPolicyActive)
      ensures !c.SetVisible? ==> desiredVisibility == old(desiredVisibility)
      ensures !(c == FromCommand(OnSetpointEnabled) || c == FromCommand(OnSetpointDisabled)) ==>
                useSetpointActive == old(useSetpointActive)
      ensures !(c.FromCommand? && c.call.OnCompliantModeChange?) ==> compliantModeActive == old(compliantModeActive)
      ensures !(c.SetPosition? || c == FromCommand(ResetService)) ==> ballPosition == old(ballPosition)
      ensures c.SetPosition? ==> ballPosition == Vec3(c.x, c.y, c.z)
      ensures c == FromCommand(ResetService) ==> ballPosition == DefaultBallPosition()
      ensures c == FromCommand(OnSetpointEnabled) ==> useSetpointActive
      ensures c == FromCommand(OnSetpointDisabled) ==> !useSetpointActive
      ensures c.FromCommand? && c.call.OnCompliantModeChange? ==>
                compliantModeActive == c.call.flag && runtime.params.impedanceKp == c.call.kp
      ensures c.FromCommand? && (c.call.OnImpedanceChange? || c.call.OnImpulseTriggered?) ==>
                unchanged(this) && unchanged(runtime.params)
      ensures !(c.FromCommand? && c.call.OnCompliantModeChange?) ==> unchanged(runtime.params)
    {
      match c
      case SetActivePolicy(id) => SetActivePolicyId(id);
      case SetVisible(v) => SetBallVisibilityState(v);
      case SetPosition(x, y, z) => ballPosition := Vec3(x, y, z);
      case FromCommand(call) =>
        match call
        case ResetService =>
          ballPosition := DefaultBallPosition();
          UpdateBallPresence();
        case OnSetpointEnabled => SetUseSetpointActive(true);
        case OnSetpointDisabled => SetUseSetpointActive(false);
        case OnCompliantModeChange(flag, kp) => SetCompliantModeActive(flag, Some(kp));
        case OnImpedanceChange(_) =>
        case OnImpulseTriggered(_) =>
    }

    /** `onSceneLoaded({ mjModel, mjData })`: the data is kept, the ball goes
        back to its default position and the pelvis is the first body named
        `base`. */
    method OnSceneLoaded(modelBodies: nat, d: EnvData)
      requires Valid() && runtime != null
      requires d.qfrcApplied != d.xfrcApplied
      requires d.xfrcApplied.Length == 6 * modelBodies && |d.xpos| == 3 * modelBodies
      modifies this`nbody, this`data, this`ballPosition, this`pelvisBodyId
      ensures Valid() && nbody == modelBodies && data == d && ballPosition == DefaultBallPosition()
      ensures pelvisBodyId.Some? ==> IsBase(runtime.bodies, pelvisBodyId.value)
      ensures pelvisBodyId.Some? ==> forall j :: 0 <= j < pelvisBodyId.value ==> !IsBase(runtime.bodies, j)
      ensures pelvisBodyId.None? ==> forall j :: 0 <= j < nbody ==> !IsBase(runtime.bodies, j)
    {
      nbody := modelBodies;
      data := d;
      ballPosition := DefaultBallPosition();
      pelvisBodyId := FindPelvis(modelBodies, runtime.bodies);
    }

    /** `beforeSimulationStep()` while nothing is being dragged: without
        data nothing happens; otherwise every applied force is cleared, and
        while impulse time is left and a base body was found, the impulse
        force (with its vanishing torque) is applied to that body and one
        timestep is taken off the time left. */
    method BeforeSimulationStep()
      requires Valid()
      modifies if data != null then {data.qfrcApplied, data.xfrcApplied} else {}
      modifies if data != null then {runtime.params} else {}
      ensures Valid()
      ensures data != null ==> data.qfrcApplied[..] == Zeros(data.qfrcApplied.Length)
      ensures data != null && old(runtime.params.impulseRemainTime) > 0.0 && pelvisBodyId.Some? ==>
                && data.xfrcApplied[..] == ImpulseFrame(6 * nbody, pelvisBodyId.value, impulseForce, Vec3(0.0, 0.0, 0.0))
                && runtime.params.impulseRemainTime == old(runtime.params.impulseRemainTime) - runtime.timestep
      ensures data != null && !(old(runtime.params.impulseRemainTime) > 0.0 && pelvisBodyId.Some?) ==>
                && data.xfrcApplied[..] == Zeros(data.xfrcApplied.Length)
                && runtime.params.impulseRemainTime == old(runtime.params.impulseRemainTime)
      ensures data != null ==> unchanged(runtime.params`paused, runtime.params`commandVelX, runtime.params`impedanceKp,
                                         runtime.params`useSetpoint, runtime.params`compliantMode)
    {
      if data == null {
        return;
      }
      ZeroFill(data.qfrcApplied);
      ZeroFill(data.xfrcApplied);
      if runtime.params.impulseRemainTime > 0.0 && pelvisBodyId.Some? {
        ApplyImpulse(data.xfrcApplied, data.xpos, pelvisBodyId.value, impulseForce);
        runtime.params.impulseRemainTime := runtime.params.impulseRemainTime - runtime.timestep;
      }
    }

    /** `reset()`: the ball goes back to its default position; without a
        runtime (never attached) there is no ball and the call throws. */
    method Reset() returns (r: Result<bool>)
      requires Valid()
      modifies this`ballPosition
      ensures runtime == null ==> r.Err? && ballPosition == old(ballPosition)
      ensures runtime != null ==> r.Ok? && ballPosition == DefaultBallPosition()
      ensures Valid()
    {
      if runtime == null {
        return Err("TypeError: Cannot read properties of undefined (reading 'position')");
      }
      ballPosition := DefaultBallPosition();
      return Ok(true);
    }

    /** `dispose()`: the ball leaves the scene and the service is
        unregistered; without a runtime (never attached) the call throws. */
    method Dispose() returns (r: Result<bool>)
      requires Valid()
      modifies this`ballInScene, this`disposed, (if runtime == null then {} else {runtime})`services
      ensures runtime == null ==> r.Err? && unchanged(this)
      ensures runtime != null ==> r.Ok? && !ballInScene && disposed && Valid()
      ensures runtime != null ==> runtime.services == old(runtime.services) - {serviceName}
      ensures runtime != null ==> runtime.timestep == old(runtime.timestep) && runtime.hasScene == old(runtime.hasScene)
                                  && runtime.bodies == old(runtime.bodies)
    {
      if runtime == null {
        return Err("Cannot read properties of null (reading 'unregisterService')");
      }
      if ballInScene {
        ballInScene := false;
      }
      disposed := true;
      runtime.services := runtime.services - {serviceName};
      r := Ok(true);
    }
  }

  /** The impulse branch of `beforeSimulationStep`: the force applied at the
      base body's own position, so its torque vanishes. */
  method ApplyImpulse(xfrc: array<real>, xpos: seq<real>, p: nat, force: Vec3)
    requires 6 * p + 6 <= xfrc.Length && 3 * p + 2 < |xpos|
    requires xfrc[..] == Zeros(xfrc.Length)
    modifies xfrc
    ensures xfrc[..] == ImpulseFrame(xfrc.Length, p, force, Vec3(0.0, 0.0, 0.0))
  {
    var point := GetPosition(xpos, p, false);
    var bodyPos := Vec3(xpos[3 * p], xpos[3 * p + 1], xpos[3 * p + 2]);
    var torque := Cross(Sub(point, bodyPos), force);
    ImpulseTorqueVanishes(xpos, p, force);
    WriteWrench(xfrc, p, force, torque);
  }

  /** Writes the six wrench entries of body `p`, leaving the rest. */
  method WriteWrench(xfrc: array<real>, p: nat, force: Vec3, torque: Vec3)
    requires 6 * p + 6 <= xfrc.Length
    requires xfrc[..] == Zeros(xfrc.Length)
    modifies xfrc
    ensures xfrc[..] == ImpulseFrame(xfrc.Length, p, force, torque)
  {
    xfrc[6 * p] := force.x;
    xfrc[6 * p + 1] := force.y;
    xfrc[6 * p + 2] := force.z;
    xfrc[6 * p + 3] := torque.x;
    xfrc[6 * p + 4] := torque.y;
    xfrc[6 * p + 5] := torque.z;
  }
}
