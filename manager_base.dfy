/**
 * `BaseManager` (the typed copy in `src/core/engine/managers` and the
 * untyped legacy copy in `src/core/mujoco/runtime/managers`, identical in
 * behaviour): `attachRuntime` stores the runtime and then calls the optional
 * `onRuntimeAttached` hook; the default lifecycle hooks do nothing.
 */
module ManagerBase {
  import opened Wrappers

  /** The runtime a manager is attached to, by identity. */
  type RuntimeRef = nat

  class BaseManager {
    var runtime: Option<RuntimeRef>
    /** Whether the subclass defines `onRuntimeAttached`. */
    const hasAttachedHook: bool
    /** The arguments of every `onRuntimeAttached` call so far, in order. */
    var attachedCalls: seq<RuntimeRef>

    constructor(hasAttachedHook: bool)
      ensures this.hasAttachedHook == hasAttachedHook
      ensures runtime.None? && attachedCalls == []
    {
      this.hasAttachedHook := hasAttachedHook;
      runtime := None;
      attachedCalls := [];
    }

    /** `attachRuntime(runtime)`: the field is set first, then the hook (if
        defined) runs once with the same runtime.  There is no once-only
        guard: attaching again overwrites and calls again. */
    method AttachRuntime(r: RuntimeRef)
      modifies this
      ensures runtime == Some(r)
      ensures attachedCalls == old(attachedCalls) + (if hasAttachedHook then [r] else [])
    {
      runtime := Some(r);
      if hasAttachedHook {
        OnRuntimeAttached(r);
      }
    }

    /** The subclass hook; it sees the runtime already stored. */
    method OnRuntimeAttached(r: RuntimeRef)
      requires hasAttachedHook && runtime == Some(r)
      modifies this
      ensures runtime == old(runtime) && attachedCalls == old(attachedCalls) + [r]
    {
      attachedCalls := attachedCalls + [r];
    }

    /** `onInit`, `onSceneLoaded`, `onPolicyLoaded`, `beforeSimulationStep`,
        `afterSimulationStep` and `dispose` as the base class defines them. */
    method DefaultHook()
      ensures unchanged(this)
    {
    }
  }

  /** Attaching twice leaves the second runtime in place and records both
      hook calls, in order. */
  method AttachTwice(m: BaseManager, r1: RuntimeRef, r2: RuntimeRef)
    requires m.hasAttachedHook
    modifies m
    ensures m.runtime == Some(r2)
    ensures m.attachedCalls == old(m.attachedCalls) + [r1, r2]
  {
    m.AttachRuntime(r1);
    m.AttachRuntime(r2);
  }
}
