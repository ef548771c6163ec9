/**
 * `MujocoRuntime` (`src/mujoco_wasm/runtime/MujocoRuntime.js`) as a state
 * machine: the loop flags, the service registry, `applyAction`, the sub-step
 * loop and the order in which managers are notified.  Manager hooks, the
 * physics step, downloads and resets of the engine appear as events appended
 * to `trace`; which hooks a manager defines is part of its description.
 * Awaits are taken in program order.
 */
module Runtime {
  import opened Wrappers

  /** The hooks the runtime may call on a manager. */
  datatype HookName =
    | OnRuntimeAttached | OnInit | OnSceneLoaded | OnPolicyLoaded | OnPolicyCleared
    | BeforeSimulationStep | AfterSimulationStep | OnPolicyOutput | Collect | Reset | Dispose
    | GenerateAction

  /** A manager, as far as the runtime can see it: the hooks it defines
      (`typeof manager.x === 'function'`) and whether it is a
      `TrajectoryActionManager`. */
  datatype Manager = Manager(hooks: set<HookName>, isTrajectory: bool)

  datatype Group = Observations | Envs

  datatype Who = CommandManager | ActionManager | Member(group: Group, index: nat)

  datatype Event =
    | Notify(who: Who, hook: HookName)
    | PhysicsStep(substep: nat)
    | ResetData
    | Download(scenePath: string)

  /** The one-manager call `if (m && typeof m.hook === 'function') m.hook()`. */
  function Notified(m: Option<Manager>, who: Who, hook: HookName): (es: seq<Event>)
    ensures es == [] || es == [Notify(who, hook)]
    ensures es != [] <==> m.Some? && hook in m.value.hooks
  {
    if m.Some? && hook in m.value.hooks then [Notify(who, hook)] else []
  }

  /** `for (const manager of ms) if (typeof manager.hook === 'function') manager.hook()`. */
  function NotifyGroup(ms: seq<Manager>, g: Group, hook: HookName): (es: seq<Event>)
    ensures |es| <= |ms|
  {
    if ms == [] then []
    else NotifyGroup(ms[..|ms| - 1], g, hook)
         + (if hook in ms[|ms| - 1].hooks then [Notify(Member(g, |ms| - 1), hook)] else [])
  }

  /** A group notification calls exactly the members defining the hook, in
      list order, each once. */
  lemma {:induction false} NotifyGroupSpec(ms: seq<Manager>, g: Group, hook: HookName)
    ensures var es := NotifyGroup(ms, g, hook);
      && (forall k :: 0 <= k < |es| ==> es[k].Notify? && es[k].hook == hook && es[k].who.Member?
                                         && es[k].who.group == g && es[k].who.index < |ms|)
      && (forall i :: 0 <= i < |ms| ==> (Notify(Member(g, i), hook) in es <==> hook in ms[i].hooks))
      && (forall k, l :: 0 <= k < l < |es| ==> es[k].who.index < es[l].who.index)
  {
    if ms != [] {
      NotifyGroupSpec(ms[..|ms| - 1], g, hook);
    }
  }

  /** One pass of the sub-step loop: action manager before, env managers
      before, the physics step, action manager after, env managers after. */
  function SubStep(action: Option<Manager>, envs: seq<Manager>, substep: nat): seq<Event> {
    Notified(action, ActionManager, BeforeSimulationStep) + NotifyGroup(envs, Envs, BeforeSimulationStep)
    + [PhysicsStep(substep)]
    + Notified(action, ActionManager, AfterSimulationStep) + NotifyGroup(envs, Envs, AfterSimulationStep)
  }

  /** Sub-steps `0 .. n-1`, in order. */
  function SubSteps(action: Option<Manager>, envs: seq<Manager>, n: nat): (es: seq<Event>) {
    if n == 0 then [] else SubSteps(action, envs, n - 1) + SubStep(action, envs, n - 1)
  }

  /** The sub-step numbers of the physics steps in a trace. */
  function PhysicsSteps(es: seq<Event>): seq<nat> {
    if es == [] then []
    else PhysicsSteps(es[..|es| - 1]) + (if es[|es| - 1].PhysicsStep? then [es[|es| - 1].substep] else [])
  }

  lemma {:induction false} PhysicsStepsAppend(a: seq<Event>, b: seq<Event>)
    ensures PhysicsSteps(a + b) == PhysicsSteps(a) + PhysicsSteps(b)
    decreases |b|
  {
    if b != [] {
      PhysicsStepsAppend(a, b[..|b| - 1]);
      assert (a + b)[..|a + b| - 1] == a + b[..|b| - 1];
    } else {
      assert a + b == a;
    }
  }

  lemma {:induction false} NoPhysicsInGroup(ms: seq<Manager>, g: Group, hook: HookName)
    ensures PhysicsSteps(NotifyGroup(ms, g, hook)) == []
  {
    if ms != [] {
      NoPhysicsInGroup(ms[..|ms| - 1], g, hook);
      var tail := if hook in ms[|ms| - 1].hooks then [Notify(Member(g, |ms| - 1), hook)] else [];
      PhysicsStepsAppend(NotifyGroup(ms[..|ms| - 1], g, hook), tail);
      assert PhysicsSteps(tail) == [] by {
        if tail != [] {
          assert tail[..0] == [];
        }
      }
    }
  }

  function Range(n: nat): (r: seq<nat>)
    ensures |r| == n && forall i :: 0 <= i < n ==> r[i] == i
  {
    if n == 0 then [] else Range(n - 1) + [n - 1]
  }

  /** One sub-step holds exactly one physics step, with its number. */
  lemma OneStepPerSubStep(action: Option<Manager>, envs: seq<Manager>, s: nat)
    ensures PhysicsSteps(SubStep(action, envs, s)) == [s]
  {
    var b1 := Notified(action, ActionManager, BeforeSimulationStep);
    var b2 := NotifyGroup(envs, Envs, BeforeSimulationStep);
    var a1 := Notified(action, ActionManager, AfterSimulationStep);
    var a2 := NotifyGroup(envs, Envs, AfterSimulationStep);
    NoPhysicsInGroup(envs, Envs, BeforeSimulationStep);
    NoPhysicsInGroup(envs, Envs, AfterSimulationStep);
    assert PhysicsSteps(b1) == [] by { if b1 != [] { assert b1[..0] == []; } }
    assert PhysicsSteps(a1) == [] by { if a1 != [] { assert a1[..0] == []; } }
    assert PhysicsSteps([PhysicsStep(s)]) == [s] by { assert [PhysicsStep(s)][..0] == []; }
    PhysicsStepsAppend(b1, b2);
    PhysicsStepsAppend(b1 + b2, [PhysicsStep(s)]);
    PhysicsStepsAppend(b1 + b2 + [PhysicsStep(s)], a1);
    PhysicsStepsAppend(b1 + b2 + [PhysicsStep(s)] + a1, a2);
  }

  /** `executeSimulationSteps` runs exactly `decimation` physics steps,
      numbered 0, 1, ... in order. */
  lemma {:induction false} SubStepsRunEachStepOnce(action: Option<Manager>, envs: seq<Manager>, n: nat)
    ensures PhysicsSteps(SubSteps(action, envs, n)) == Range(n)
  {
    if n > 0 {
      SubStepsRunEachStepOnce(action, envs, n - 1);
      OneStepPerSubStep(action, envs, n - 1);
      PhysicsStepsAppend(SubSteps(action, envs, n - 1), SubStep(action, envs, n - 1));
    }
  }

  /** Within a sub-step every hook before the physics step is a
      before-step hook and every hook after it an after-step hook, and the
      action manager comes first on each side. */
  lemma SubStepOrder(action: Option<Manager>, envs: seq<Manager>, s: nat)
    ensures var es := SubStep(action, envs, s);
      var k := |Notified(action, ActionManager, BeforeSimulationStep) + NotifyGroup(envs, Envs, BeforeSimulationStep)|;
      && k < |es| && es[k] == PhysicsStep(s)
      && (forall i :: 0 <= i < k ==> es[i].Notify? && es[i].hook == BeforeSimulationStep && (es[i].who == ActionManager ==> i == 0))
      && (forall i :: k < i < |es| ==> es[i].Notify? && es[i].hook == AfterSimulationStep && (es[i].who == ActionManager ==> i == k + 1))
  {
    NotifyGroupSpec(envs, Envs, BeforeSimulationStep);
    NotifyGroupSpec(envs, Envs, AfterSimulationStep);
  }

  /** `Math.max(0, timestep * decimation - elapsed)`: the loop sleeps what is
      left of one control period, never a negative time. */
  function SleepTime(timestep: real, decimation: nat, elapsed: real): (t: real)
    ensures t >= 0.0 && t >= timestep * decimation as real - elapsed
    ensures t == 0.0 || t == timestep * decimation as real - elapsed
  {
    if timestep * decimation as real - elapsed > 0.0 then timestep * decimation as real - elapsed else 0.0
  }

  /** What `applyAction(action)` leaves in a `ctrl` of length `n`: `None`
      is an action without a numeric `length`. */
  function Applied(n: nat, action: Option<seq<real>>): (c: seq<real>)
    ensures |c| == n
  {
    if action.None? then seq(n, _ => 0.0)
    else seq(n, i requires 0 <= i < n => if i < |action.value| then action.value[i] else 0.0)
  }

  /** The copied prefix is the action's, the rest is zero; an invalid action
      zeroes everything. */
  lemma AppliedSpec(n: nat, action: Option<seq<real>>)
    ensures action.None? ==> forall i :: 0 <= i < n ==> Applied(n, action)[i] == 0.0
    ensures action.Some? ==> forall i :: 0 <= i < n && i < |action.value| ==> Applied(n, action)[i] == action.value[i]
    ensures action.Some? ==> forall i :: |action.value| <= i < n ==> Applied(n, action)[i] == 0.0
  {
  }

  function Min(a: int, b: int): int {
    if a < b then a else b
  }

  /** `Math.round(0.02 / timestep)`: sub-steps per 20 ms control period. */
  function Decimation(timestep: real): (d: nat)
    requires timestep > 0.0
    ensures (d as real - 0.5) * timestep <= 0.02 < (d as real + 0.5) * timestep
  {
    var x := 0.02 / timestep;
    assert x > 0.0;
    assert (x + 0.5).Floor >= 0;
    assert x * timestep == 0.02;
    RoundBounds(x);
    DecimationScale(x, (x + 0.5).Floor as real, timestep);
    (x + 0.5).Floor
  }

  lemma RoundBounds(x: real)
    ensures (x + 0.5).Floor as real - 0.5 <= x < (x + 0.5).Floor as real + 0.5
  {
  }

  lemma DecimationScale(x: real, d: real, timestep: real)
    requires timestep > 0.0 && x * timestep == 0.02
    requires d - 0.5 <= x < d + 0.5
    ensures (d - 0.5) * timestep <= 0.02 < (d + 0.5) * timestep
  {
    ScaleLow(x, d, timestep);
    ScaleHigh(x, d, timestep);
  }

  lemma ScaleLow(x: real, d: real, t: real)
    requires t > 0.0 && x * t == 0.02 && d - 0.5 <= x
    ensures (d - 0.5) * t <= 0.02
  {
    MulNonneg(x - (d - 0.5), t);
    var lo := (d - 0.5) * t;
    assert (x - (d - 0.5)) * t == x * t - lo;
  }

  lemma ScaleHigh(x: real, d: real, t: real)
    requires t > 0.0 && x * t == 0.02 && x < d + 0.5
    ensures 0.02 < (d + 0.5) * t
  {
    MulPos(d + 0.5 - x, t);
    var hi := (d + 0.5) * t;
    assert (d + 0.5 - x) * t == hi - x * t;
  }

  lemma MulNonneg(a: real, b: real)
    requires a >= 0.0 && b > 0.0
    ensures a * b >= 0.0
  {
  }

  lemma MulPos(a: real, b: real)
    requires a > 0.0 && b > 0.0
    ensures a * b > 0.0
  {
  }

  /** The loop flags: `params.paused`, `running`, `alive`, and whether a
      `loopPromise` exists. */
  datatype LoopState = LoopState(paused: bool, running: bool, alive: bool, loopActive: bool)

  /** `policy`, `inputDict` and `isInferencing`, as presence flags. */
  datatype PolicyState = PolicyState(hasPolicy: bool, hasInput: bool, isInferencing: bool)

  /** Whether `mjModel`/`mjData` are loaded, the step sizes and the counters. */
  datatype SimState = SimState(hasModel: bool, timestep: real, decimation: nat, mujocoTime: real,
                               simStepCount: nat, inferenceStepCount: nat)

  /** The simulation state after `n` sub-steps, each adding one step and one
      timestep (in milliseconds) to the simulated time. */
  function Advanced(s: SimState, n: nat): (r: SimState)
    ensures r.hasModel == s.hasModel && r.timestep == s.timestep && r.decimation == s.decimation
    ensures r.inferenceStepCount == s.inferenceStepCount
  {
    if n == 0 then s
    else
      var p := Advanced(s, n - 1);
      p.(mujocoTime := p.mujocoTime + p.timestep * 1000.0, simStepCount := p.simStepCount + 1)
  }

  /** `n` sub-steps add `n` to the step count and `n` timesteps to the time. */
  lemma {:induction false} AdvancedSpec(s: SimState, n: nat)
    ensures Advanced(s, n) == s.(simStepCount := s.simStepCount + n,
                                 mujocoTime := s.mujocoTime + n as real * (s.timestep * 1000.0))
  {
    if n > 0 {
      AdvancedSpec(s, n - 1);
      assert n as real * (s.timestep * 1000.0) == (n - 1) as real * (s.timestep * 1000.0) + s.timestep * 1000.0;
    }
  }

  /** How the inner promise of `loadScene` gets on: the engine reports an
      invalid model (an early, quiet return), the engine's loader throws,
      the metadata fetch or its JSON parse throws (or the safe guard on
      `opt` does) after the model was assigned, or the scene loads. */
  datatype SceneOutcome = ModelInvalid | LoaderFails | MetaFails | SceneLoads

  /** Whether `loadScene` resolves: the awaited earlier `loadingScene` must
      not have rejected, and the inner promise must not throw. */
  predicate SceneLoadOk(rejected: bool, o: SceneOutcome) {
    !rejected && (o == ModelInvalid || o == SceneLoads)
  }

  /** Whether `loadingScene` holds a rejected promise afterwards: it is only
      cleared at the end of a successful load, so a rejection stays. */
  predicate RejectedAfter(rejected: bool, o: SceneOutcome) {
    rejected || o == LoaderFails || o == MetaFails
  }

  /** Whether each of a series of `loadScene` calls resolves, as written,
      starting from a `loadingScene` that has or has not rejected. */
  function LoadSeries(rejected: bool, os: seq<SceneOutcome>): (r: seq<bool>)
    ensures |r| == |os|
    decreases |os|
  {
    if os == [] then []
    else [SceneLoadOk(rejected, os[0])] + LoadSeries(RejectedAfter(rejected, os[0]), os[1..])
  }

  /** Once a load has rejected, no later load resolves, whatever it would do. */
  lemma {:induction false} RejectedLoadPoisons(os: seq<SceneOutcome>)
    ensures forall i :: 0 <= i < |os| ==> !LoadSeries(true, os)[i]
  {
    if os != [] {
      RejectedLoadPoisons(os[1..]);
      assert forall i :: 1 <= i < |os| ==> LoadSeries(true, os)[i] == LoadSeries(true, os[1..])[i - 1];
    }
  }

  /** A metadata fetch that fails once makes every later scene load fail:
      failing, then loading a good scene, gives two rejections. */
  lemma FailedLoadBlocksLaterLoads(os: seq<SceneOutcome>)
    ensures LoadSeries(false, [MetaFails] + os) == [false] + LoadSeries(true, os)
    ensures LoadSeries(false, [MetaFails, SceneLoads]) == [false, false]
  {
    assert ([MetaFails] + os)[1..] == os;
    assert [MetaFails, SceneLoads][1..] == [SceneLoads];
  }

  /** The same series with `loadingScene` cleared in a `finally`: a rejection
      no longer outlives its own call. */
  function LoadSeriesCorrected(os: seq<SceneOutcome>): (r: seq<bool>)
    ensures |r| == |os|
  {
    if os == [] then [] else [SceneLoadOk(false, os[0])] + LoadSeriesCorrected(os[1..])
  }

  /** Corrected, every load resolves exactly when its own scene loads (or is
      quietly invalid), whatever came before it. */
  lemma {:induction false} CorrectedLoadsIndependent(os: seq<SceneOutcome>)
    ensures forall i :: 0 <= i < |os| ==>
              LoadSeriesCorrected(os)[i] == (os[i] == ModelInvalid || os[i] == SceneLoads)
  {
    if os != [] {
      CorrectedLoadsIndependent(os[1..]);
      assert forall i :: 1 <= i < |os| ==> LoadSeriesCorrected(os)[i] == LoadSeriesCorrected(os[1..])[i - 1];
    }
  }

  /** How `loadPolicy` gets on: the fetch or JSON parse throws, the session
      `init()` throws (after `policy` was already assigned), or both succeed. */
  datatype PolicyLoad = FetchFails | InitFails | Loads

  /** A `for (const manager of ms)` loop calling `hook` where it is defined. */
  method NotifyEach(ms: seq<Manager>, g: Group, hook: HookName) returns (es: seq<Event>)
    ensures es == NotifyGroup(ms, g, hook)
  {
    es := [];
    for i := 0 to |ms|
      invariant es == NotifyGroup(ms[..i], g, hook)
    {
      assert ms[..i + 1][..i] == ms[..i];
      if hook in ms[i].hooks {
        es := es + [Notify(Member(g, i), hook)];
      }
    }
    assert ms[..|ms|] == ms;
  }

  /** `for (const manager of ms) manager.attachRuntime(this)`. */
  method AttachEach(ms: seq<Manager>, g: Group) returns (es: seq<Event>)
    ensures es == AttachAll(ms, g)
  {
    es := [];
    for i := 0 to |ms|
      invariant es == AttachAll(ms[..i], g)
    {
      assert ms[..i + 1][..i] == ms[..i];
      es := es + [Notify(Member(g, i), OnRuntimeAttached)];
    }
    assert ms[..|ms|] == ms;
  }

  class MujocoRuntime {
    const commandManager: Option<Manager>
    const actionManager: Option<Manager>
    const observationManagers: seq<Manager>
    const envManagers: seq<Manager>

    var services: map<string, nat>
    var loop: LoopState
    var policy: PolicyState
    var sim: SimState
    /** `mjData.ctrl`; `null` when there is no data. */
    var ctrl: array?<real>
    var trace: seq<Event>
    /** Whether `loadingScene` was left holding a rejected promise. */
    var sceneLoadRejected: bool

    /** The constructor's state, after `attachManagers`: paused, not running,
        nothing loaded, an empty registry, and each manager attached once,
        command, action, observation and env managers in that order. */
    constructor(commandManager: Option<Manager>, actionManager: Option<Manager>,
                observationManagers: seq<Manager>, envManagers: seq<Manager>)
      ensures this.commandManager == commandManager && this.actionManager == actionManager
      ensures this.observationManagers == observationManagers && this.envManagers == envManagers
      ensures services == map[] && loop == LoopState(true, false, false, false)
      ensures policy == PolicyState(false, false, false) && !sim.hasModel && ctrl == null && !sceneLoadRejected
      ensures trace == Attachments(commandManager, actionManager, observationManagers, envManagers)
    {
      this.commandManager := commandManager;
      this.actionManager := actionManager;
      this.observationManagers := observationManagers;
      this.envManagers := envManagers;
      services := map[];
      loop := LoopState(true, false, false, false);
      policy := PolicyState(false, false, false);
      sim := SimState(false, 0.0, 0, 0.0, 0, 0);
      ctrl := null;
      trace := [];
      sceneLoadRejected := false;
      new;
      AttachManagers();
    }

    /** `attachManagers()`. */
    method AttachManagers()
      modifies this
      ensures trace == old(trace) + Attachments(commandManager, actionManager, observationManagers, envManagers)
      ensures sceneLoadRejected == old(sceneLoadRejected)
      ensures services == old(services) && loop == old(loop) && policy == old(policy) && sim == old(sim) && ctrl == old(ctrl)
    {
      var command := if commandManager.Some? then [Notify(CommandManager, OnRuntimeAttached)] else [];
      var action := if actionManager.Some? then [Notify(ActionManager, OnRuntimeAttached)] else [];
      var observations := AttachEach(observationManagers, Observations);
      var envs := AttachEach(envManagers, Envs);
      trace := trace + (command + action + observations + envs);
    }

    /** `registerService(name, service)`. */
    method RegisterService(name: string, service: nat)
      modifies this
      ensures services == old(services)[name := service]
      ensures trace == old(trace) && loop == old(loop) && policy == old(policy) && sim == old(sim) && ctrl == old(ctrl)
      ensures sceneLoadRejected == old(sceneLoadRejected)
    {
      services := services[name := service];
    }

    /** `unregisterService(name)`. */
    method UnregisterService(name: string)
      modifies this
      ensures services == old(services) - {name}
      ensures trace == old(trace) && loop == old(loop) && policy == old(policy) && sim == old(sim) && ctrl == old(ctrl)
      ensures sceneLoadRejected == old(sceneLoadRejected)
    {
      services := services - {name};
    }

    /** `getService(name)`: `None` for `undefined`. */
    function GetService(name: string): (r: Option<nat>)
      reads this
      ensures r.Some? <==> name in services
      ensures r.Some? ==> r.value == services[name]
    {
      Lookup(services, name)
    }

    /** `applyAction(action)`: nothing without `ctrl`; otherwise the action is
        copied into the front of `ctrl` and the rest zeroed, `ctrl` keeping
        its length. */
    method ApplyAction(action: Option<seq<real>>)
      modifies ctrl
      ensures ctrl != null ==> ctrl[..] == Applied(ctrl.Length, action)
    {
      if ctrl == null {
        return;
      }
      var c := ctrl;
      if action.None? {
        for i := 0 to c.Length
          invariant forall j :: 0 <= j < i ==> c[j] == 0.0
        {
          c[i] := 0.0;
        }
        assert c[..] == Applied(c.Length, action);
        return;
      }
      var a := action.value;
      var length := Min(|a|, c.Length);
      for i := 0 to length
        invariant forall j :: 0 <= j < i ==> c[j] == a[j]
      {
        c[i] := a[i];
      }
      for i := length to c.Length
        invariant forall j :: 0 <= j < length ==> c[j] == a[j]
        invariant forall j :: length <= j < i ==> c[j] == 0.0
      {
        c[i] := 0.0;
      }
      assert c[..] == Applied(c.Length, action);
    }

    /** `executeSimulationSteps()`: `decimation` sub-steps, in order;
        `simStepCount` and the simulated time advance once per sub-step. */
    method ExecuteSimulationSteps()
      modifies this
      ensures trace == old(trace) + SubSteps(actionManager, envManagers, sim.decimation)
      ensures sim == old(sim).(simStepCount := old(sim).simStepCount + old(sim).decimation,
                              mujocoTime := old(sim).mujocoTime + old(sim).decimation as real * (old(sim).timestep * 1000.0))
      ensures services == old(services) && loop == old(loop) && policy == old(policy) && ctrl == old(ctrl)
      ensures sceneLoadRejected == old(sceneLoadRejected)
    {
      for substep := 0 to sim.decimation
        invariant trace == old(trace) + SubSteps(actionManager, envManagers, substep)
        invariant sim == Advanced(old(sim), substep)
        invariant services == old(services) && loop == old(loop) && policy == old(policy) && ctrl == old(ctrl)
        invariant sceneLoadRejected == old(sceneLoadRejected)
      {
        RunSubStep(substep);
      }
      AdvancedSpec(old(sim), old(sim).decimation);
    }

    /** One pass of the sub-step loop: the action manager then the env
        managers before the physics step, and again after it. */
    method RunSubStep(substep: nat)
      modifies this
      ensures trace == old(trace) + SubStep(actionManager, envManagers, substep)
      ensures sim == old(sim).(mujocoTime := old(sim).mujocoTime + old(sim).timestep * 1000.0,
                              simStepCount := old(sim).simStepCount + 1)
      ensures services == old(services) && loop == old(loop) && policy == old(policy) && ctrl == old(ctrl)
      ensures sceneLoadRejected == old(sceneLoadRejected)
    {
      var es := Notified(actionManager, ActionManager, BeforeSimulationStep);
      var group := NotifyEach(envManagers, Envs, BeforeSimulationStep);
      es := es + group + [PhysicsStep(substep)];
      sim := sim.(mujocoTime := sim.mujocoTime + sim.timestep * 1000.0, simStepCount := sim.simStepCount + 1);
      es := es + Notified(actionManager, ActionManager, AfterSimulationStep);
      group := NotifyEach(envManagers, Envs, AfterSimulationStep);
      trace := trace + (es + group);
    }

    /** `startLoop()`: an existing loop is returned as is, so at most one
        loop exists; otherwise `running` is set and a loop started. */
    method StartLoop()
      modifies this
      ensures loop.loopActive && loop.paused == old(loop).paused && loop.alive == old(loop).alive
      ensures loop.running == (old(loop).running || !old(loop).loopActive)
      ensures trace == old(trace) && services == old(services) && policy == old(policy) && sim == old(sim) && ctrl == old(ctrl)
      ensures sceneLoadRejected == old(sceneLoadRejected)
    {
      if loop.loopActive {
        return;
      }
      loop := loop.(running := true, loopActive := true);
    }

    /** `stop()` once the loop it awaits has finished: not running, no loop,
        not alive. */
    method Stop()
      modifies this
      ensures loop == old(loop).(running := false, alive := false, loopActive := false)
      ensures trace == old(trace) && services == old(services) && policy == old(policy) && sim == old(sim) && ctrl == old(ctrl)
      ensures sceneLoadRejected == old(sceneLoadRejected)
    {
      loop := loop.(running := false, alive := false, loopActive := false);
    }

    /** `clearPolicy()`: policy and input dropped, inference flag cleared,
        then the action manager and the observation managers are told, in
        that order. */
    method ClearPolicy()
      modifies this
      ensures policy == PolicyState(false, false, false)
      ensures trace == old(trace) + Notified(actionManager, ActionManager, OnPolicyCleared)
                                  + NotifyGroup(observationManagers, Observations, OnPolicyCleared)
      ensures services == old(services) && loop == old(loop) && sim == old(sim) && ctrl == old(ctrl)
      ensures sceneLoadRejected == old(sceneLoadRejected)
    {
      policy := PolicyState(false, false, false);
      var es := NotifyEach(observationManagers, Observations, OnPolicyCleared);
      trace := trace + Notified(actionManager, ActionManager, OnPolicyCleared) + es;
    }

    /** `loadScene(mjcfPath, metaPath)` once the engine has loaded the model
        (`data` is its `ctrl`).  An earlier load whose promise rejected is
        awaited first and rethrows, so nothing happens.  Otherwise an invalid
        model ends the load early and quietly; a throwing loader has already
        deleted the old model and data, so it leaves neither behind; a
        failing metadata fetch throws with the new
        model and data already assigned; and a full load restarts the time
        and counters, takes the decimation from the timestep, and tells the
        action manager then the env managers, in that order.  A throw leaves
        `loadingScene` rejected. */
    method LoadScene(outcome: SceneOutcome, newTimestep: real, data: array?<real>) returns (r: Result<bool>)
      requires outcome == SceneLoads ==> newTimestep > 0.0
      modifies this
      ensures r.Ok? <==> SceneLoadOk(old(sceneLoadRejected), outcome)
      ensures sceneLoadRejected == RejectedAfter(old(sceneLoadRejected), outcome)
      ensures old(sceneLoadRejected) ==> trace == old(trace) && sim == old(sim) && ctrl == old(ctrl)
      ensures !old(sceneLoadRejected) && outcome == LoaderFails ==>
                trace == old(trace) && sim == old(sim).(hasModel := false) && ctrl == null
      ensures !old(sceneLoadRejected) && outcome == ModelInvalid ==>
                trace == old(trace) && sim == old(sim).(hasModel := false) && ctrl == null
      ensures !old(sceneLoadRejected) && outcome == MetaFails ==>
                trace == old(trace) && sim == old(sim).(hasModel := true) && ctrl == data
      ensures !old(sceneLoadRejected) && outcome == SceneLoads ==>
                && sim == SimState(true, newTimestep, Decimation(newTimestep), 0.0, 0, 0) && ctrl == data
                && trace == old(trace) + Notified(actionManager, ActionManager, OnSceneLoaded)
                                       + NotifyGroup(envManagers, Envs, OnSceneLoaded)
      ensures services == old(services) && loop == old(loop) && policy == old(policy)
    {
      if sceneLoadRejected {
        return Err("Scene load failed");
      }
      if outcome == LoaderFails {
        sim := sim.(hasModel := false);
        ctrl := null;
        sceneLoadRejected := true;
        return Err("Scene load failed");
      }
      if outcome == ModelInvalid {
        sim := sim.(hasModel := false);
        ctrl := null;
        return Ok(true);
      }
      ctrl := data;
      sim := sim.(hasModel := true);
      if outcome == MetaFails {
        sceneLoadRejected := true;
        return Err("Scene metadata failed to load");
      }
      sim := SimState(true, newTimestep, Decimation(newTimestep), 0.0, 0, 0);
      var es := NotifyEach(envManagers, Envs, OnSceneLoaded);
      trace := trace + Notified(actionManager, ActionManager, OnSceneLoaded) + es;
      return Ok(true);
    }

    /** `loadPolicy(policyPath)` once no inference is running: a failing fetch
        throws with the old policy in place, a failing `init()` throws with
        the new policy already assigned, and in both cases no manager is
        told; otherwise the action, observation and env managers are told in
        that order, the engine state is reset, and a fresh input is made. */
    method LoadPolicy(outcome: PolicyLoad) returns (r: Result<bool>)
      modifies this
      ensures r.Err? <==> outcome != Loads
      ensures r.Err? ==> trace == old(trace)
      ensures outcome == FetchFails ==> policy == old(policy)
      ensures outcome == InitFails ==> policy == old(policy).(hasPolicy := true)
      ensures outcome == Loads ==> policy == PolicyState(true, true, false)
      ensures outcome == Loads ==> trace == old(trace) + Notified(actionManager, ActionManager, OnPolicyLoaded)
                                                     + NotifyGroup(observationManagers, Observations, OnPolicyLoaded)
                                                     + NotifyGroup(envManagers, Envs, OnPolicyLoaded) + [ResetData]
      ensures services == old(services) && loop == old(loop) && sim == old(sim) && ctrl == old(ctrl)
      ensures sceneLoadRejected == old(sceneLoadRejected)
    {
      if outcome == FetchFails {
        return Err("Failed to load policy");
      }
      policy := policy.(hasPolicy := true);
      if outcome == InitFails {
        return Err("Failed to load policy");
      }
      var es := Notified(actionManager, ActionManager, OnPolicyLoaded);
      var group := NotifyEach(observationManagers, Observations, OnPolicyLoaded);
      es := es + group;
      group := NotifyEach(envManagers, Envs, OnPolicyLoaded);
      trace := trace + (es + group) + [ResetData];
      policy := policy.(hasInput := true, isInferencing := false);
      return Ok(true);
    }

    /** `loadEnvironment({ scenePath, metaPath, policyPath })`: stop, download,
        load the scene, load or clear the policy, then mark the runtime alive
        and running and start the loop.  A failing download, scene load or
        policy load propagates and leaves the runtime stopped. */
    method LoadEnvironment(scenePath: string, policyPath: Option<string>, downloadFails: bool,
                           sceneOutcome: SceneOutcome, newTimestep: real, data: array?<real>, outcome: PolicyLoad)
      returns (r: Result<bool>)
      requires sceneOutcome == SceneLoads ==> newTimestep > 0.0
      modifies this
      ensures r.Ok? <==> !downloadFails && SceneLoadOk(old(sceneLoadRejected), sceneOutcome)
                         && (policyPath.Some? ==> outcome == Loads)
      ensures r.Ok? ==> loop == old(loop).(running := true, alive := true, loopActive := true)
      ensures r.Err? ==> loop == old(loop).(running := false, alive := false, loopActive := false)
      ensures |trace| > |old(trace)| && trace[|old(trace)|] == Download(scenePath)
      ensures downloadFails ==> trace == old(trace) + [Download(scenePath)] && sim == old(sim) && ctrl == old(ctrl)
      ensures !downloadFails && old(sceneLoadRejected) ==> sim == old(sim) && ctrl == old(ctrl)
      ensures !downloadFails && !old(sceneLoadRejected) ==>
                && sim.hasModel == (sceneOutcome in {SceneLoads, MetaFails})
                && ctrl == (if sceneOutcome in {SceneLoads, MetaFails} then data else null)
      ensures downloadFails || !SceneLoadOk(old(sceneLoadRejected), sceneOutcome) ==> policy == old(policy)
      ensures r.Ok? ==> policy == PolicyState(policyPath.Some?, policyPath.Some?, false)
      ensures r.Ok? ==> sim.hasModel == (sceneOutcome == SceneLoads)
      ensures services == old(services)
      ensures sceneLoadRejected == (old(sceneLoadRejected) || (!downloadFails && RejectedAfter(false, sceneOutcome)))
    {
      Stop();
      trace := trace + [Download(scenePath)];
      if downloadFails {
        return Err("Failed to download the scene");
      }
      r := LoadScene(sceneOutcome, newTimestep, data);
      if r.Err? {
        return;
      }
      if policyPath.Some? {
        r := LoadPolicy(outcome);
        if r.Err? {
          return;
        }
      } else {
        ClearPolicy();
        r := Ok(true);
      }
      loop := loop.(alive := true, running := true);
      StartLoop();
    }

    /** `runInference()`: nothing without a policy or while one runs;
        otherwise the step is counted, the action manager gets the output
        and a new input is kept; whatever happens the inference flag ends
        cleared. */
    method RunInference(inferenceOk: bool) returns (r: Result<bool>)
      modifies this
      ensures !old(policy).hasPolicy || old(policy).isInferencing ==>
        r.Ok? && sim == old(sim) && trace == old(trace) && policy == old(policy)
      ensures old(policy).hasPolicy && !old(policy).isInferencing ==>
        sim == old(sim).(inferenceStepCount := old(sim).inferenceStepCount + 1) && !policy.isInferencing
        && policy.hasPolicy
      ensures old(policy).hasPolicy && !old(policy).isInferencing && inferenceOk ==>
        r.Ok? && policy.hasInput && trace == old(trace) + Notified(actionManager, ActionManager, OnPolicyOutput)
      ensures old(policy).hasPolicy && !old(policy).isInferencing && !inferenceOk ==>
        r.Err? && trace == old(trace) && policy == old(policy)
      ensures services == old(services) && loop == old(loop) && ctrl == old(ctrl)
      ensures sceneLoadRejected == old(sceneLoadRejected)
    {
      if !policy.hasPolicy || policy.isInferencing {
        return Ok(true);
      }
      policy := policy.(isInferencing := true);
      sim := sim.(inferenceStepCount := sim.inferenceStepCount + 1);
      if !inferenceOk {
        policy := policy.(isInferencing := false);
        return Err("Inference error");
      }
      trace := trace + Notified(actionManager, ActionManager, OnPolicyOutput);
      policy := policy.(hasInput := true, isInferencing := false);
      return Ok(true);
    }

    /** Whether a pass of `mainLoop` advances the simulation. */
    predicate Ready()
      reads this
    {
      !loop.paused && sim.hasModel
    }

    /** Whether the action manager is a `TrajectoryActionManager`. */
    predicate TrajectoryDriven() {
      actionManager.Some? && actionManager.value.isTrajectory
    }

    /** Whether a pass of `mainLoop` runs the policy (and may fail). */
    predicate RunsPolicy()
      reads this
    {
      Ready() && !TrajectoryDriven() && policy.hasPolicy
    }

    /** Whether that pass starts an inference, which is what can fail. */
    predicate StartsInference()
      reads this
    {
      RunsPolicy() && !policy.isInferencing
    }

    /** One pass of `mainLoop` while `running`: when ready, a trajectory
        manager generates and applies an action before stepping, a policy
        runs inference before stepping (an inference error stops the loop:
        not running, no loop), and otherwise the simulation just steps; the
        pass then sleeps what is left of the control period. */
    method LoopPass(action: Option<seq<real>>, inferenceOk: bool, elapsed: real) returns (sleep: real)
      requires loop.running && loop.loopActive
      modifies this, ctrl
      ensures !old(Ready()) ==> trace == old(trace) && sim == old(sim) && loop == old(loop)
      ensures old(Ready()) && !(old(StartsInference()) && !inferenceOk) ==>
        sim.simStepCount == old(sim).simStepCount + old(sim).decimation && loop == old(loop)
      ensures old(StartsInference()) && !inferenceOk ==>
        loop == old(loop).(running := false, loopActive := false) && sim.simStepCount == old(sim).simStepCount
      ensures old(Ready()) && TrajectoryDriven() ==>
        && trace == old(trace) + NotifyGroup(observationManagers, Observations, Collect)
                               + [Notify(ActionManager, GenerateAction)]
                               + SubSteps(actionManager, envManagers, old(sim).decimation)
        && ctrl == old(ctrl) && (ctrl != null ==> ctrl[..] == Applied(ctrl.Length, action))
      ensures old(RunsPolicy()) && old(StartsInference()) && !inferenceOk ==>
        trace == old(trace) + NotifyGroup(observationManagers, Observations, Collect)
      ensures old(RunsPolicy()) && !(old(StartsInference()) && !inferenceOk) ==>
        trace == old(trace) + NotifyGroup(observationManagers, Observations, Collect)
                            + (if old(StartsInference()) then Notified(actionManager, ActionManager, OnPolicyOutput) else [])
                            + SubSteps(actionManager, envManagers, old(sim).decimation)
      ensures old(Ready()) && !TrajectoryDriven() && !old(policy).hasPolicy ==>
        trace == old(trace) + SubSteps(actionManager, envManagers, old(sim).decimation)
      ensures loop.running ==> sleep == SleepTime(sim.timestep, sim.decimation, elapsed)
      ensures services == old(services) && sim.hasModel == old(sim).hasModel
      ensures sceneLoadRejected == old(sceneLoadRejected)
    {
      if Ready() {
        if TrajectoryDriven() {
          var es := NotifyEach(observationManagers, Observations, Collect);
          trace := trace + es + [Notify(ActionManager, GenerateAction)];
          ApplyAction(action);
          ExecuteSimulationSteps();
        } else if policy.hasPolicy {
          var es := NotifyEach(observationManagers, Observations, Collect);
          trace := trace + es;
          var r := RunInference(inferenceOk);
          if r.Err? {
            loop := loop.(running := false, loopActive := false);
            return 0.0;
          }
          ExecuteSimulationSteps();
        } else {
          ExecuteSimulationSteps();
        }
      }
      sleep := SleepTime(sim.timestep, sim.decimation, elapsed);
    }

    /** `pause()`. */
    method Pause()
      modifies this
      ensures loop == old(loop).(paused := true)
      ensures trace == old(trace) && services == old(services) && policy == old(policy) && sim == old(sim)
      ensures ctrl == old(ctrl) && sceneLoadRejected == old(sceneLoadRejected)
    {
      loop := loop.(paused := true);
    }

    /** `resume()`. */
    method Resume()
      modifies this
      ensures loop == old(loop).(paused := false)
      ensures trace == old(trace) && services == old(services) && policy == old(policy) && sim == old(sim)
      ensures ctrl == old(ctrl) && sceneLoadRejected == old(sceneLoadRejected)
    {
      loop := loop.(paused := false);
    }

    /** `reset()`: nothing without data; otherwise the engine state is reset,
        the runtime ends unpaused whatever it was, and the command manager
        then the env managers are reset. */
    method Reset()
      modifies this
      ensures !old(sim).hasModel ==> trace == old(trace) && loop == old(loop)
      ensures old(sim).hasModel ==> loop == old(loop).(paused := false)
      ensures old(sim).hasModel ==> trace == old(trace) + [ResetData] + Notified(commandManager, CommandManager, HookName.Reset)
                                                       + NotifyGroup(envManagers, Envs, HookName.Reset)
      ensures services == old(services) && policy == old(policy) && sim == old(sim)
      ensures ctrl == old(ctrl) && sceneLoadRejected == old(sceneLoadRejected)
    {
      if !sim.hasModel {
        return;
      }
      loop := loop.(paused := true);
      trace := trace + [ResetData];
      loop := loop.(paused := false);
      var es := NotifyEach(envManagers, Envs, HookName.Reset);
      trace := trace + Notified(commandManager, CommandManager, HookName.Reset) + es;
    }

    /** `dispose()`.  It calls `stop()` without awaiting it: `running` drops
        at once, but with a loop pending `alive` and the loop handle are only
        cleared once that loop ends, after `dispose` has returned.  The
        policy, the engine handles and the registry are dropped and every
        manager's `dispose` runs: command, action, observation, env. */
    method Dispose()
      modifies this
      ensures old(loop).loopActive ==> loop == old(loop).(running := false)
      ensures !old(loop).loopActive ==> loop == old(loop).(running := false, alive := false)
      ensures !policy.hasPolicy && !policy.hasInput && !sim.hasModel && ctrl == null && services == map[]
      ensures trace == old(trace) + Notified(commandManager, CommandManager, HookName.Dispose)
                                  + Notified(actionManager, ActionManager, HookName.Dispose)
                                  + NotifyGroup(observationManagers, Observations, HookName.Dispose)
                                  + NotifyGroup(envManagers, Envs, HookName.Dispose)
      ensures policy == old(policy).(hasPolicy := false, hasInput := false)
      ensures sceneLoadRejected == old(sceneLoadRejected)
      ensures sim == old(sim).(hasModel := false)
    {
      loop := loop.(running := false);
      if !loop.loopActive {
        loop := loop.(alive := false);
      }
      policy := policy.(hasPolicy := false, hasInput := false);
      ctrl := null;
      sim := sim.(hasModel := false);
      var obs := NotifyEach(observationManagers, Observations, HookName.Dispose);
      var envs := NotifyEach(envManagers, Envs, HookName.Dispose);
      trace := trace + Notified(commandManager, CommandManager, HookName.Dispose)
                     + Notified(actionManager, ActionManager, HookName.Dispose) + obs + envs;
      services := map[];
    }
  }

  /** `services.get(name)`. */
  function Lookup(services: map<string, nat>, name: string): (r: Option<nat>)
    ensures r.Some? <==> name in services
  {
    if name in services then Some(services[name]) else None
  }

  /** The registry laws: a registered service is found under its name,
      an unregistered name is not found, and other names are unaffected. */
  lemma RegistryLaws(services: map<string, nat>, name: string, other: string, s: nat)
    ensures Lookup(services[name := s], name) == Some(s)
    ensures Lookup(services - {name}, name) == None
    ensures other != name ==> Lookup(services[name := s], other) == Lookup(services, other)
    ensures other != name ==> Lookup(services - {name}, other) == Lookup(services, other)
    ensures Lookup(map[], name) == None
  {
  }

  /** `attachRuntime` on each member of a group, in order. */
  function AttachAll(ms: seq<Manager>, g: Group): (es: seq<Event>)
    ensures |es| == |ms|
    ensures forall i :: 0 <= i < |ms| ==> es[i] == Notify(Member(g, i), OnRuntimeAttached)
  {
    if ms == [] then [] else AttachAll(ms[..|ms| - 1], g) + [Notify(Member(g, |ms| - 1), OnRuntimeAttached)]
  }

  /** The attachment order of `attachManagers`. */
  function Attachments(command: Option<Manager>, action: Option<Manager>, observations: seq<Manager>, envs: seq<Manager>)
    : seq<Event>
  {
    (if command.Some? then [Notify(CommandManager, OnRuntimeAttached)] else [])
    + (if action.Some? then [Notify(ActionManager, OnRuntimeAttached)] else [])
    + AttachAll(observations, Observations) + AttachAll(envs, Envs)
  }
}
