/**
 * `PassiveActionManager`, in the typed copy (`src/core/action`) and the
 * legacy copy (`src/core/mujoco/runtime/managers/actions`), which behave the
 * same: no policy drives the robot, so the action state is kept empty (all
 * zeros, sized to the model's actuators) and `ctrl` is zeroed before every
 * physics step.  The manager mirrors its state onto the runtime it is
 * attached to.
 */
module PassiveAction {
  import opened Wrappers
  import opened Control

  /** The per-action state the manager keeps and mirrors onto the runtime. */
  datatype ActionState = ActionState(
    controlType: string, numActions: nat, lastActions: seq<real>, actionBuffer: seq<seq<real>>,
    defaultJpos: seq<real>, actionScale: seq<real>, jntKp: seq<real>, jntKd: seq<real>,
    jointNamesIsaac: seq<string>, jointNamesMJC: seq<string>,
    ctrlAdrIsaac: seq<int>, qposAdrIsaac: seq<int>, qvelAdrIsaac: seq<int>)

  /** `typeof n === 'number' && n > 0 ? n : 0`; `None` is a value that is
      not a number. */
  function ClampCount(n: Option<int>): (c: nat)
    ensures n.Some? && n.value > 0 ==> c == n.value
    ensures n.None? || n.value <= 0 ==> c == 0
  {
    if n.Some? && n.value > 0 then n.value else 0
  }

  /** The state `resetState(n)` builds. */
  function EmptyState(controlType: string, n: Option<int>): ActionState {
    var k := ClampCount(n);
    ActionState(controlType, k, Zeros(k), [Zeros(k), Zeros(k), Zeros(k), Zeros(k)],
                Zeros(k), Zeros(k), Zeros(k), Zeros(k), [], [], [], [], [])
  }

  /** Every per-action array of a reset state is zero and as long as the
      clamped count, the history has four rows, and the lookup lists are
      empty. */
  lemma EmptyStateSpec(controlType: string, n: Option<int>)
    ensures var s := EmptyState(controlType, n);
      && s.numActions == ClampCount(n) && s.controlType == controlType
      && |s.actionBuffer| == 4 && (forall i :: 0 <= i < 4 ==> s.actionBuffer[i] == Zeros(s.numActions))
      && s.lastActions == Zeros(s.numActions) && s.defaultJpos == Zeros(s.numActions)
      && s.actionScale == Zeros(s.numActions) && s.jntKp == Zeros(s.numActions) && s.jntKd == Zeros(s.numActions)
      && s.jointNamesIsaac == [] && s.jointNamesMJC == [] && s.ctrlAdrIsaac == [] && s.qposAdrIsaac == [] && s.qvelAdrIsaac == []
  {
  }

  /** The runtime fields the manager writes. */
  class RuntimeView {
    var mirrored: Option<ActionState>

    constructor()
      ensures mirrored.None?
    {
      mirrored := None;
    }
  }

  class PassiveActionManager {
    var runtime: RuntimeView?
    /** `mjModel?.nu` when it is a number; `None` without a model. */
    var modelNu: Option<int>
    /** `mjData?.ctrl`. */
    var ctrl: array?<real>
    var hasAssetMeta: bool
    var hasPolicyConfig: bool
    var state: ActionState

    /** `new PassiveActionManager()`: control type `none`, nothing loaded, an
        empty state. */
    constructor()
      ensures runtime == null && modelNu.None? && ctrl == null && !hasAssetMeta && !hasPolicyConfig
      ensures state == EmptyState("none", Some(0))
    {
      runtime := null;
      modelNu := None;
      ctrl := null;
      hasAssetMeta := false;
      hasPolicyConfig := false;
      state := EmptyState("none", Some(0));
    }

    /** `updateRuntimeState()`: the state is copied onto the runtime, if one
        is attached, and nowhere else. */
    method UpdateRuntimeState()
      modifies runtime
      ensures runtime != null ==> runtime.mirrored == Some(state)
    {
      if runtime == null {
        return;
      }
      runtime.mirrored := Some(state);
    }

    /** `attachRuntime(r)`: stores `r`, then `onRuntimeAttached` mirrors the
        state onto it. */
    method AttachRuntime(r: RuntimeView)
      modifies this, r
      ensures runtime == r && r.mirrored == Some(state) && state == old(state)
      ensures modelNu == old(modelNu) && ctrl == old(ctrl)
      ensures hasAssetMeta == old(hasAssetMeta) && hasPolicyConfig == old(hasPolicyConfig)
    {
      runtime := r;
      UpdateRuntimeState();
    }

    /** `resetState(n)`: the empty state for `n` actions, keeping the control
        type, mirrored when attached. */
    method ResetState(n: Option<int>)
      modifies this, runtime
      ensures state == EmptyState(old(state).controlType, n)
      ensures runtime == old(runtime) && (runtime != null ==> runtime.mirrored == Some(state))
      ensures modelNu == old(modelNu) && ctrl == old(ctrl) && hasPolicyConfig == old(hasPolicyConfig)
      ensures hasAssetMeta == old(hasAssetMeta)
    {
      state := EmptyState(state.controlType, n);
      UpdateRuntimeState();
    }

    /** `onSceneLoaded({ mjModel, mjData, assetMeta })`: the state is sized to
        the model's actuator count and `ctrl` is zeroed. */
    method OnSceneLoaded(nu: Option<int>, data: array?<real>, assetMeta: bool)
      modifies this, runtime, data
      ensures modelNu == nu && ctrl == data && hasAssetMeta == assetMeta
      ensures state == EmptyState(old(state).controlType, nu)
      ensures runtime == old(runtime) && (runtime != null ==> runtime.mirrored == Some(state))
      ensures data != null ==> data[..] == Zeros(data.Length)
      ensures hasPolicyConfig == old(hasPolicyConfig)
    {
      modelNu := nu;
      ctrl := data;
      hasAssetMeta := assetMeta;
      ResetState(nu);
      if ctrl != null {
        ZeroFill(ctrl);
      }
    }

    /** `onPolicyLoaded({ config })`: the control type stays `none` and the
        state is rebuilt empty. */
    method OnPolicyLoaded(config: bool)
      modifies this, runtime
      ensures hasPolicyConfig == config && state == EmptyState("none", modelNu)
      ensures runtime == old(runtime) && (runtime != null ==> runtime.mirrored == Some(state))
      ensures modelNu == old(modelNu) && ctrl == old(ctrl) && hasAssetMeta == old(hasAssetMeta)
    {
      hasPolicyConfig := config;
      state := state.(controlType := "none");
      ResetState(modelNu);
    }

    /** `onPolicyCleared()`: as a policy load, without a config. */
    method OnPolicyCleared()
      modifies this, runtime
      ensures !hasPolicyConfig && state == EmptyState("none", modelNu)
      ensures runtime == old(runtime) && (runtime != null ==> runtime.mirrored == Some(state))
      ensures modelNu == old(modelNu) && ctrl == old(ctrl) && hasAssetMeta == old(hasAssetMeta)
    {
      hasPolicyConfig := false;
      state := state.(controlType := "none");
      ResetState(modelNu);
    }

    /** `onPolicyOutput(result)`: ignored. */
    method OnPolicyOutput(action: Option<seq<real>>)
      ensures unchanged(this)
    {
    }

    /** `beforeSimulationStep()`: `ctrl`, when there is one, is all zero. */
    method BeforeSimulationStep()
      modifies ctrl
      ensures ctrl != null ==> ctrl[..] == Zeros(ctrl.Length)
    {
      if ctrl != null {
        ZeroFill(ctrl);
      }
    }

    /** `dispose()`: `ctrl` zeroed, model, data, metadata and config dropped,
        and the empty state for no actions. */
    method Dispose()
      modifies this, runtime, ctrl
      ensures old(ctrl) != null ==> old(ctrl)[..] == Zeros(old(ctrl).Length)
      ensures modelNu.None? && ctrl == null && !hasAssetMeta && !hasPolicyConfig
      ensures state == EmptyState(old(state).controlType, Some(0))
      ensures runtime == old(runtime) && (runtime != null ==> runtime.mirrored == Some(state))
    {
      if ctrl != null {
        ZeroFill(ctrl);
      }
      modelNu := None;
      ctrl := null;
      hasAssetMeta := false;
      hasPolicyConfig := false;
      ResetState(Some(0));
    }
  }
}
