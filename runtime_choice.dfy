// The `useRuntime` composables (the app's and the viewer's): which action
// manager the runtime gets for a task/policy pair and how a manager of the
// wrong kind is swapped out, the clamped impedance and setpoint toggles
// forwarded to the command manager, the app's trajectory playback state, and
// disposal. The app composable supports trajectory policies; the viewer
// composable is the same without them (`supportsTrajectory == false`).

module RuntimeChoice {
  import opened Wrappers
  import opened ConfigRules
  import Commands
  import TrajectoryAction

  datatype ManagerKind = IsaacKind | PassiveKind | TrajectoryKind

  /** The action manager a ref holds. Isaac and passive managers are told
      apart by the serial they were created with; a trajectory manager is the
      object whose playback the composable drives. */
  datatype ActionSlot =
    | NoManager
    | Isaac(serial: nat)
    | Passive(serial: nat)
    | Trajectory(m: TrajectoryAction.TrajectoryActionManager)

  /** `instanceof`: the class of the manager in a slot. */
  function KindOf(slot: ActionSlot): Option<ManagerKind> {
    match slot
    case NoManager => None
    case Isaac(_) => Some(IsaacKind)
    case Passive(_) => Some(PassiveKind)
    case Trajectory(_) => Some(TrajectoryKind)
  }

  /** The lifecycle calls `ensureActionManager` makes on the runtime's managers. */
  datatype LifecycleEvent = Disposed(slot: ActionSlot) | Attached(slot: ActionSlot) | Initialised(slot: ActionSlot)

  /** `trajectoryPlaybackState`: `'play' | 'stop' | 'reset'`. */
  datatype PlaybackState = PlayState | StopState | ResetState

  /** `policyConfig?.type === 'trajectory'`. */
  predicate IsTrajectoryPolicy(policy: Option<PolicyItem>) {
    policy.Some? && policy.value.kind == Some("trajectory")
  }

  /** The kind of manager a task/policy pair needs: a trajectory policy (where
      supported) gets a trajectory manager; otherwise the metadata decides
      between the Isaac and the passive manager. */
  function NeededKind(supportsTrajectory: bool, needsIsaac: bool, policy: Option<PolicyItem>): (k: ManagerKind)
    ensures k == TrajectoryKind <==> supportsTrajectory && IsTrajectoryPolicy(policy)
    ensures k == IsaacKind <==> needsIsaac && !(supportsTrajectory && IsTrajectoryPolicy(policy))
  {
    if supportsTrajectory && IsTrajectoryPolicy(policy) then TrajectoryKind
    else if needsIsaac then IsaacKind
    else PassiveKind
  }

  /** The lifecycle calls of swapping `next` into a runtime whose manager is `previous`. */
  function SwapEvents(previous: ActionSlot, next: ActionSlot): (r: seq<LifecycleEvent>)
    ensures previous.NoManager? ==> r == [Attached(next), Initialised(next)]
    ensures !previous.NoManager? ==> r == [Disposed(previous), Attached(next), Initialised(next)]
  {
    (if previous.NoManager? then [] else [Disposed(previous)]) + [Attached(next), Initialised(next)]
  }

  /** In a swap the outgoing manager is disposed before the incoming one is attached,
      and attached before it is initialised. */
  lemma SwapOrder(previous: ActionSlot, next: ActionSlot, i: nat, j: nat)
    requires i < j < |SwapEvents(previous, next)|
    ensures SwapEvents(previous, next)[i].Disposed? ==> SwapEvents(previous, next)[j].slot == next
    ensures SwapEvents(previous, next)[j].Attached? ==> !SwapEvents(previous, next)[i].Initialised?
  {
  }

  /** A trajectory path that `loadTrajectoryData` follows: present and not empty. */
  predicate GivenPath(path: Option<string>) {
    path.Some? && path.value != ""
  }

  class RuntimeComposable {
    /** The app composable handles trajectory policies; the viewer's does not. */
    const supportsTrajectory: bool
    /** `runtime.value`: the shared params and services, `null` once disposed. */
    var runtime: Commands.SharedRuntime?
    /** `runtime.value.actionManager`. */
    var runtimeAction: ActionSlot
    var actionManager: ActionSlot
    var trajectoryManager: TrajectoryAction.TrajectoryActionManager?
    var playbackState: PlaybackState
    var trajectoryLoop: bool
    var commandManager: Commands.GoCommandManager?
    var facetKp: real
    var commandVelX: real
    var useSetpoint: bool
    /** Serial of the next Isaac or passive manager created. */
    var serials: nat
    var lifecycle: seq<LifecycleEvent>
    /** How often `runtime.dispose()` was called. */
    var runtimeDisposals: nat

    ghost predicate Valid()
      reads this, commandManager, if actionManager.Trajectory? then {actionManager.m} else {}
    {
      && (trajectoryManager != null ==> supportsTrajectory && actionManager == Trajectory(trajectoryManager))
      && (actionManager.Trajectory? ==> supportsTrajectory && actionManager.m.Valid())
      && (!supportsTrajectory ==> trajectoryManager == null && playbackState == StopState && !trajectoryLoop)
      && (runtime != null ==> runtimeAction == actionManager)
      && (commandManager != null ==> commandManager.runtime != null)
      && (runtime != null && commandManager != null ==> commandManager.runtime == runtime)
    }

    /** The refs before `initRuntime`: no runtime or managers, kp 24, velocity 0,
        setpoint on, playback stopped, no looping. */
    constructor(supportsTrajectory: bool)
      ensures Valid() && this.supportsTrajectory == supportsTrajectory
      ensures runtime == null && actionManager == NoManager && trajectoryManager == null && commandManager == null
      ensures facetKp == 24.0 && commandVelX == 0.0 && useSetpoint
      ensures playbackState == StopState && !trajectoryLoop && lifecycle == [] && runtimeDisposals == 0
    {
      this.supportsTrajectory := supportsTrajectory;
      runtime := null;
      runtimeAction := NoManager;
      actionManager := NoManager;
      trajectoryManager := null;
      playbackState := StopState;
      trajectoryLoop := false;
      commandManager := null;
      facetKp := 24.0;
      commandVelX := 0.0;
      useSetpoint := true;
      serials := 0;
      lifecycle := [];
      runtimeDisposals := 0;
    }

    /** The part of `initRuntime` that builds the runtime: it takes the command
        manager (already attached to it) and the current action manager. */
    method BuildRuntime(rt: Commands.SharedRuntime, cm: Commands.GoCommandManager)
      requires Valid() && cm.runtime == rt
      modifies this
      ensures Valid() && runtime == rt && commandManager == cm && runtimeAction == old(actionManager)
      ensures actionManager == old(actionManager) && trajectoryManager == old(trajectoryManager)
      ensures playbackState == old(playbackState) && trajectoryLoop == old(trajectoryLoop)
      ensures lifecycle == old(lifecycle) && facetKp == old(facetKp) && commandVelX == old(commandVelX)
      ensures useSetpoint == old(useSetpoint) && serials == old(serials)
      ensures runtimeDisposals == old(runtimeDisposals)
    {
      runtime := rt;
      commandManager := cm;
      runtimeAction := actionManager;
    }

    /** Swaps `next` into the live runtime: the runtime's manager is disposed,
        `next` becomes the runtime's manager, is attached and initialised. */
    method SwapIn(next: ActionSlot)
      requires runtime != null
      modifies this
      ensures runtimeAction == next && lifecycle == old(lifecycle) + SwapEvents(old(runtimeAction), next)
      ensures runtime == old(runtime) && actionManager == old(actionManager) && trajectoryManager == old(trajectoryManager)
      ensures commandManager == old(commandManager) && serials == old(serials)
      ensures playbackState == old(playbackState) && trajectoryLoop == old(trajectoryLoop)
      ensures facetKp == old(facetKp) && commandVelX == old(commandVelX) && useSetpoint == old(useSetpoint)
      ensures runtimeDisposals == old(runtimeDisposals)
    {
      if !runtimeAction.NoManager? {
        lifecycle := lifecycle + [Disposed(runtimeAction)];
      }
      runtimeAction := next;
      lifecycle := lifecycle + [Attached(next), Initialised(next)];
    }

    /** The trajectory branch of `ensureActionManager`: a current trajectory
        manager is kept, otherwise a new one replaces the current manager;
        either way it loads the trajectory (when a path was given and the file
        was read) and the loop flag, and playback reads `'stop'`. */
    method UseTrajectoryManager(path: Option<string>, trajectoryData: Option<TrajectoryAction.TrajectoryData>)
      requires Valid() && supportsTrajectory
      modifies this, if actionManager.Trajectory? then {actionManager.m} else {}
      ensures Valid() && actionManager.Trajectory? && trajectoryManager == actionManager.m
      ensures old(actionManager).Trajectory? ==>
                actionManager == old(actionManager) && lifecycle == old(lifecycle) && runtimeAction == old(runtimeAction)
      ensures !old(actionManager).Trajectory? ==>
                && fresh(actionManager.m)
                && (old(runtime) != null ==> lifecycle == old(lifecycle) + SwapEvents(old(runtimeAction), actionManager))
                && (old(runtime) == null ==> lifecycle == old(lifecycle) && runtimeAction == old(runtimeAction))
      ensures playbackState == StopState && trajectoryLoop == old(trajectoryLoop)
      ensures trajectoryManager.playback.loop == trajectoryLoop
      ensures GivenPath(path) && trajectoryData.Some? && trajectoryData.value.frames.Some? ==>
                trajectoryManager.playback.trajectory == Some(TrajectoryAction.LoadedTrajectory(trajectoryData.value))
      ensures runtime == old(runtime) && commandManager == old(commandManager) && serials == old(serials)
      ensures facetKp == old(facetKp) && commandVelX == old(commandVelX) && useSetpoint == old(useSetpoint)
      ensures runtimeDisposals == old(runtimeDisposals)
    {
      if actionManager.Trajectory? {
        KeepTrajectoryManager(path, trajectoryData);
      } else {
        NewTrajectoryManager(path, trajectoryData);
      }
    }

    /** A trajectory manager already in place is kept and reloaded. */
    method KeepTrajectoryManager(path: Option<string>, trajectoryData: Option<TrajectoryAction.TrajectoryData>)
      requires Valid() && supportsTrajectory && actionManager.Trajectory?
      modifies this, actionManager.m
      ensures Valid() && actionManager == old(actionManager) && trajectoryManager == actionManager.m
      ensures lifecycle == old(lifecycle) && runtimeAction == old(runtimeAction)
      ensures playbackState == StopState && trajectoryLoop == old(trajectoryLoop)
      ensures trajectoryManager.playback.loop == trajectoryLoop
      ensures GivenPath(path) && trajectoryData.Some? && trajectoryData.value.frames.Some? ==>
                trajectoryManager.playback.trajectory == Some(TrajectoryAction.LoadedTrajectory(trajectoryData.value))
      ensures runtime == old(runtime) && commandManager == old(commandManager) && serials == old(serials)
      ensures facetKp == old(facetKp) && commandVelX == old(commandVelX) && useSetpoint == old(useSetpoint)
      ensures runtimeDisposals == old(runtimeDisposals)
    {
      var m := actionManager.m;
      if GivenPath(path) && trajectoryData.Some? {
        m.LoadTrajectory(trajectoryData);
      }
      trajectoryManager := m;
      m.SetLoop(trajectoryLoop);
      playbackState := StopState;
    }

    /** Any other manager is replaced by a new trajectory manager, swapped
        into the runtime when there is one, then loaded. */
    method NewTrajectoryManager(path: Option<string>, trajectoryData: Option<TrajectoryAction.TrajectoryData>)
      requires Valid() && supportsTrajectory && !actionManager.Trajectory?
      modifies this
      ensures Valid() && actionManager.Trajectory? && trajectoryManager == actionManager.m && fresh(actionManager.m)
      ensures old(runtime) != null ==> lifecycle == old(lifecycle) + SwapEvents(old(runtimeAction), actionManager)
      ensures old(runtime) == null ==> lifecycle == old(lifecycle) && runtimeAction == old(runtimeAction)
      ensures playbackState == StopState && trajectoryLoop == old(trajectoryLoop)
      ensures trajectoryManager.playback.loop == trajectoryLoop
      ensures GivenPath(path) && trajectoryData.Some? && trajectoryData.value.frames.Some? ==>
                trajectoryManager.playback.trajectory == Some(TrajectoryAction.LoadedTrajectory(trajectoryData.value))
      ensures runtime == old(runtime) && commandManager == old(commandManager) && serials == old(serials)
      ensures facetKp == old(facetKp) && commandVelX == old(commandVelX) && useSetpoint == old(useSetpoint)
      ensures runtimeDisposals == old(runtimeDisposals)
    {
      var next := new TrajectoryAction.TrajectoryActionManager();
      if runtime != null {
        SwapIn(Trajectory(next));
      }
      ReadyTrajectoryManager(next, runtime != null, path, trajectoryData, trajectoryLoop);
      actionManager := Trajectory(next);
      trajectoryManager := next;
      playbackState := StopState;
    }

    /** A new trajectory manager is attached to the runtime (when there is
        one), loads the trajectory and takes the loop flag. */
    static method ReadyTrajectoryManager(next: TrajectoryAction.TrajectoryActionManager, attach: bool,
                                         path: Option<string>, trajectoryData: Option<TrajectoryAction.TrajectoryData>,
                                         loop: bool)
      requires next.Valid()
      modifies next
      ensures next.Valid() && next.playback.loop == loop
      ensures GivenPath(path) && trajectoryData.Some? && trajectoryData.value.frames.Some? ==>
                next.playback.trajectory == Some(TrajectoryAction.LoadedTrajectory(trajectoryData.value))
    {
      if attach {
        next.OnRuntimeAttached(true);
      }
      if GivenPath(path) && trajectoryData.Some? {
        next.LoadTrajectory(trajectoryData);
      }
      next.SetLoop(loop);
    }

    /** The other branch of `ensureActionManager`: the trajectory refs are
        cleared, and a manager of the needed kind (Isaac or passive) is kept,
        otherwise a new one replaces the current manager. */
    method UseStepManager(needsIsaac: bool)
      requires Valid()
      modifies this
      ensures Valid() && KindOf(actionManager) == Some(if needsIsaac then IsaacKind else PassiveKind)
      ensures trajectoryManager == null && playbackState == StopState && !trajectoryLoop
      ensures KindOf(old(actionManager)) == KindOf(actionManager) ==>
                actionManager == old(actionManager) && lifecycle == old(lifecycle) && runtimeAction == old(runtimeAction)
      ensures KindOf(old(actionManager)) != KindOf(actionManager) ==>
                && actionManager.serial == old(serials) && serials == old(serials) + 1
                && (old(runtime) != null ==> lifecycle == old(lifecycle) + SwapEvents(old(runtimeAction), actionManager))
                && (old(runtime) == null ==> lifecycle == old(lifecycle) && runtimeAction == old(runtimeAction))
      ensures runtime == old(runtime) && commandManager == old(commandManager)
      ensures facetKp == old(facetKp) && commandVelX == old(commandVelX) && useSetpoint == old(useSetpoint)
      ensures KindOf(old(actionManager)) == KindOf(actionManager) ==> serials == old(serials)
      ensures runtimeDisposals == old(runtimeDisposals)
    {
      trajectoryManager := null;
      playbackState := StopState;
      trajectoryLoop := false;
      if needsIsaac && actionManager.Isaac? {
        return;
      }
      if !needsIsaac && actionManager.Passive? {
        return;
      }
      var next := if needsIsaac then Isaac(serials) else Passive(serials);
      serials := serials + 1;
      if runtime != null {
        SwapIn(next);
      }
      actionManager := next;
    }

    /**
     * `ensureActionManager(metaPath, policyConfig)`. `meta` is how fetching and
     * parsing the metadata ended and `trajectoryData` the parsed trajectory
     * file (`None` when it could not be fetched or parsed). The manager ends
     * up of the needed kind: a manager of that kind is kept, any other is
     * replaced (with a live runtime: disposed, then the new one attached and
     * initialised).
     */
    method EnsureActionManager(metaPath: Option<string>, meta: MetaFetch, policy: Option<PolicyItem>,
                               trajectoryData: Option<TrajectoryAction.TrajectoryData>)
      requires Valid()
      modifies this, if actionManager.Trajectory? then {actionManager.m} else {}
      ensures Valid()
      ensures KindOf(actionManager) == Some(NeededKind(supportsTrajectory, NeedsIsaac(metaPath, meta), policy))
      ensures KindOf(old(actionManager)) == KindOf(actionManager) ==>
                actionManager == old(actionManager) && lifecycle == old(lifecycle) && runtimeAction == old(runtimeAction)
      ensures KindOf(old(actionManager)) != KindOf(actionManager) ==>
                && (old(runtime) != null ==> lifecycle == old(lifecycle) + SwapEvents(old(runtimeAction), actionManager))
                && (old(runtime) == null ==> lifecycle == old(lifecycle) && runtimeAction == old(runtimeAction))
      ensures actionManager.Trajectory? ==>
                && trajectoryManager == actionManager.m && playbackState == StopState
                && trajectoryLoop == old(trajectoryLoop) && trajectoryManager.playback.loop == trajectoryLoop
                && (GivenPath(policy.value.trajectoryPath) && trajectoryData.Some? && trajectoryData.value.frames.Some? ==>
                      trajectoryManager.playback.trajectory == Some(TrajectoryAction.LoadedTrajectory(trajectoryData.value)))
      ensures !actionManager.Trajectory? ==> trajectoryManager == null && playbackState == StopState && !trajectoryLoop
      ensures runtime == old(runtime) && commandManager == old(commandManager)
      ensures facetKp == old(facetKp) && commandVelX == old(commandVelX) && useSetpoint == old(useSetpoint)
      ensures !actionManager.Trajectory? && KindOf(old(actionManager)) != KindOf(actionManager) ==>
                actionManager.serial == old(serials) && serials == old(serials) + 1
      ensures actionManager.Trajectory? || KindOf(old(actionManager)) == KindOf(actionManager) ==> serials == old(serials)
      ensures runtimeDisposals == old(runtimeDisposals)
    {
      if supportsTrajectory && IsTrajectoryPolicy(policy) {
        UseTrajectoryManager(policy.value.trajectoryPath, trajectoryData);
      } else {
        UseStepManager(NeedsIsaac(metaPath, meta));
      }
    }

    /** `updateFacetKp()`: the ref is clamped to [12, 24] and forwarded; the
        command manager clamps again to its own range, and the ref then reads
        back what the runtime holds. */
    method UpdateFacetKp()
      requires Valid()
      modifies this, if commandManager != null then {commandManager, commandManager.runtime.params} else {}
      ensures Valid()
      ensures commandManager == null ==> facetKp == Commands.Clamp(old(facetKp), 12.0, 24.0)
      ensures commandManager != null ==>
        var kp := Commands.Clamp(Commands.Clamp(old(facetKp), 12.0, 24.0),
                                 Commands.MinKp(commandManager.options), Commands.MaxKp(commandManager.options));
        && commandManager.runtime.params.impedanceKp == kp
        && facetKp == (if runtime != null then kp else Commands.Clamp(old(facetKp), 12.0, 24.0))
      ensures runtime == old(runtime) && commandManager == old(commandManager) && actionManager == old(actionManager)
      ensures trajectoryManager == old(trajectoryManager) && playbackState == old(playbackState)
      ensures commandVelX == old(commandVelX) && useSetpoint == old(useSetpoint) && lifecycle == old(lifecycle)
      ensures runtimeAction == old(runtimeAction) && trajectoryLoop == old(trajectoryLoop)
      ensures serials == old(serials) && runtimeDisposals == old(runtimeDisposals)
    {
      facetKp := if facetKp < 12.0 then 12.0 else facetKp;
      facetKp := if facetKp > 24.0 then 24.0 else facetKp;
      if commandManager == null {
        return;
      }
      commandManager.SetImpedanceKp(facetKp);
      if runtime != null {
        facetKp := runtime.params.impedanceKp;
      }
    }

    /** `updateUseSetpoint()`: forwards the flag; turning the setpoint on also
        zeroes the velocity ref and the runtime's velocity command. */
    method UpdateUseSetpoint()
      requires Valid()
      modifies this, if commandManager != null then {commandManager, commandManager.runtime.params} else {}
      ensures Valid()
      ensures runtime == old(runtime) && commandManager == old(commandManager) && actionManager == old(actionManager)
      ensures commandManager == null ==> commandVelX == old(commandVelX)
      ensures commandManager != null ==>
        && commandManager.runtime.params.useSetpoint == useSetpoint
        && (useSetpoint ==> commandVelX == 0.0 && commandManager.runtime.params.commandVelX == 0.0)
        && (!useSetpoint ==> commandVelX == old(commandVelX)
                             && commandManager.runtime.params.commandVelX == old(commandManager.runtime.params.commandVelX))
      ensures useSetpoint == old(useSetpoint) && facetKp == old(facetKp)
      ensures trajectoryManager == old(trajectoryManager) && playbackState == old(playbackState) && lifecycle == old(lifecycle)
      ensures runtimeAction == old(runtimeAction) && trajectoryLoop == old(trajectoryLoop)
      ensures serials == old(serials) && runtimeDisposals == old(runtimeDisposals)
    {
      if commandManager == null {
        return;
      }
      commandManager.SetUseSetpoint(useSetpoint);
      if useSetpoint {
        commandVelX := 0.0;
        commandManager.SetCommandVelocityX(commandVelX);
      }
    }

    /** `playTrajectory()`: the state reads `'play'` whenever a trajectory
        manager exists, even when it has no trajectory and so does not start. */
    method PlayTrajectory(now: real)
      requires Valid()
      modifies this, trajectoryManager
      ensures Valid() && trajectoryManager == old(trajectoryManager) && actionManager == old(actionManager)
      ensures trajectoryManager == null ==> playbackState == old(playbackState)
      ensures trajectoryManager != null ==>
        && playbackState == PlayState
        && (trajectoryManager.playback.isPlaying <==>
              old(trajectoryManager.playback).trajectory.Some? || old(trajectoryManager.playback).isPlaying)
      ensures runtime == old(runtime) && runtimeAction == old(runtimeAction)
      ensures commandManager == old(commandManager) && facetKp == old(facetKp)
      ensures commandVelX == old(commandVelX) && useSetpoint == old(useSetpoint)
      ensures trajectoryLoop == old(trajectoryLoop) && lifecycle == old(lifecycle) && serials == old(serials)
      ensures runtimeDisposals == old(runtimeDisposals)
    {
      if trajectoryManager == null {
        return;
      }
      trajectoryManager.Play(now);
      playbackState := PlayState;
    }

    /** `stopTrajectory()`: the manager stops and the state reads `'stop'`. */
    method StopTrajectory()
      requires Valid()
      modifies this, trajectoryManager
      ensures Valid() && trajectoryManager == old(trajectoryManager) && actionManager == old(actionManager)
      ensures trajectoryManager == null ==> playbackState == old(playbackState)
      ensures trajectoryManager != null ==> playbackState == StopState && trajectoryManager.playback.Stopped()
      ensures runtime == old(runtime) && runtimeAction == old(runtimeAction)
      ensures commandManager == old(commandManager) && facetKp == old(facetKp)
      ensures commandVelX == old(commandVelX) && useSetpoint == old(useSetpoint)
      ensures trajectoryLoop == old(trajectoryLoop) && lifecycle == old(lifecycle) && serials == old(serials)
      ensures runtimeDisposals == old(runtimeDisposals)
    {
      if trajectoryManager == null {
        return;
      }
      trajectoryManager.Stop();
      playbackState := StopState;
    }

    /** `resetTrajectory()`: the manager rewinds; the state reads `'play'` if it
        was playing (it goes on playing) and `'reset'` otherwise. */
    method ResetTrajectory(now: real)
      requires Valid()
      modifies this, trajectoryManager
      ensures Valid() && trajectoryManager == old(trajectoryManager) && actionManager == old(actionManager)
      ensures trajectoryManager == null ==> playbackState == old(playbackState)
      ensures trajectoryManager != null ==>
        && playbackState == (if old(trajectoryManager.playback.isPlaying) then PlayState else ResetState)
        && trajectoryManager.playback.currentFrame == 0
        && (playbackState == PlayState <==> trajectoryManager.playback.isPlaying)
      ensures runtime == old(runtime) && runtimeAction == old(runtimeAction)
      ensures commandManager == old(commandManager) && facetKp == old(facetKp)
      ensures commandVelX == old(commandVelX) && useSetpoint == old(useSetpoint)
      ensures trajectoryLoop == old(trajectoryLoop) && lifecycle == old(lifecycle) && serials == old(serials)
      ensures runtimeDisposals == old(runtimeDisposals)
    {
      if trajectoryManager == null {
        return;
      }
      var wasPlaying := trajectoryManager.playback.isPlaying;
      trajectoryManager.Reset(now);
      playbackState := if wasPlaying then PlayState else ResetState;
    }

    /** `updateTrajectoryLoop(value)`. */
    method UpdateTrajectoryLoop(value: bool)
      requires Valid() && supportsTrajectory
      modifies this, trajectoryManager
      ensures Valid() && trajectoryLoop == value && trajectoryManager == old(trajectoryManager)
      ensures trajectoryManager != null ==> trajectoryManager.playback == old(trajectoryManager.playback).(loop := value)
      ensures playbackState == old(playbackState) && actionManager == old(actionManager)
      ensures runtime == old(runtime) && runtimeAction == old(runtimeAction)
      ensures commandManager == old(commandManager) && facetKp == old(facetKp)
      ensures commandVelX == old(commandVelX) && useSetpoint == old(useSetpoint)
      ensures lifecycle == old(lifecycle) && serials == old(serials)
      ensures runtimeDisposals == old(runtimeDisposals)
    {
      trajectoryLoop := value;
      if trajectoryManager != null {
        trajectoryManager.SetLoop(value);
      }
    }

    /** `dispose()`: the runtime's own disposal may throw, which is swallowed;
        the runtime ref is null afterwards either way. */
    method Dispose()
      requires Valid()
      modifies this
      ensures Valid() && runtime == null
      ensures runtimeDisposals == old(runtimeDisposals) + (if old(runtime) != null then 1 else 0)
      ensures actionManager == old(actionManager) && commandManager == old(commandManager)
      ensures trajectoryManager == old(trajectoryManager) && lifecycle == old(lifecycle)
      ensures playbackState == old(playbackState) && trajectoryLoop == old(trajectoryLoop)
      ensures facetKp == old(facetKp) && commandVelX == old(commandVelX) && useSetpoint == old(useSetpoint)
      ensures runtimeAction == old(runtimeAction) && serials == old(serials)
    {
      if runtime != null {
        runtimeDisposals := runtimeDisposals + 1;
      }
      runtime := null;
    }
  }

  /** With the command manager's default range, the composable's clamp and the
      manager's agree, so the forwarded value is the composable's clamp. */
  lemma DefaultRangeClampOnce(kp: real)
    ensures var o := Commands.CommandOptions(None, None, None, None);
      Commands.Clamp(Commands.Clamp(kp, 12.0, 24.0), Commands.MinKp(o), Commands.MaxKp(o)) ==
      Commands.Clamp(kp, 12.0, 24.0)
  {
    var o := Commands.CommandOptions(None, None, None, None);
    assert Commands.MinKp(o) == 12.0 && Commands.MaxKp(o) == 24.0;
    Commands.ClampIdempotent(kp, 12.0, 24.0);
  }
}
