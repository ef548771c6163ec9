// `MwxViewer` and its builders. The project, scene and policy configurations
// are mutable objects: a builder edits the very configuration object the
// viewer stores, so a scene added through a project builder after
// `addProject` is visible to the viewer's lookups.

module Viewer {
  import opened Wrappers
  import opened Text
  import ConfigRules

  /** `x || fallback` on an optional string: a missing or empty string gives the fallback. */
  function Or(s: Option<string>, fallback: string): (r: string)
    ensures s.Some? && s.value != "" ==> r == s.value
    ensures s.None? || s.value == "" ==> r == fallback
  {
    if s.Some? && s.value != "" then s.value else fallback
  }

  /** `config.id || `${prefix}-${Date.now()}``, the clock reading given as `stamp`. */
  function IdOr(id: Option<string>, prefix: string, stamp: nat): (r: string)
    ensures r != ""
    ensures id.Some? && id.value != "" ==> r == id.value
    ensures (id.None? || id.value == "") ==> r == prefix + "-" + NatToString(stamp)
  {
    Or(id, prefix + "-" + NatToString(stamp))
  }

  /** The ONNX model reference and the observation groups a policy may carry. */
  datatype Onnx = Onnx(path: string, inKeys: seq<string>, outKeys: seq<string>)
  type ObsConfig = map<string, seq<string>>
  type Metadata = map<string, ConfigRules.Json>

  /** What a caller passes for a policy (`Partial<PolicyConfig>`); `None` is absent. */
  datatype PolicyFields = PolicyFields(
    id: Option<string>, name: Option<string>, description: Option<string>,
    onnx: Option<Onnx>, obsConfig: Option<ObsConfig>, actionScale: Option<real>,
    stiffness: Option<real>, damping: Option<real>, modelXml: Option<string>,
    assetMeta: Option<string>, uiControls: Option<seq<string>>, path: Option<string>)

  class PolicyConfig {
    const id: string
    var name: string
    var description: Option<string>
    var onnx: Option<Onnx>
    var obsConfig: Option<ObsConfig>
    var actionScale: Option<real>
    var stiffness: Option<real>
    var damping: Option<real>
    var modelXml: Option<string>
    var assetMeta: Option<string>
    var uiControls: Option<seq<string>>
    var path: Option<string>

    /** A configuration with the given id and name and the other fields of `f`. */
    constructor(id: string, name: string, f: PolicyFields)
      ensures this.id == id && this.name == name && description == f.description && onnx == f.onnx
      ensures obsConfig == f.obsConfig && actionScale == f.actionScale && stiffness == f.stiffness
      ensures damping == f.damping && modelXml == f.modelXml && assetMeta == f.assetMeta
      ensures uiControls == f.uiControls && path == f.path
    {
      this.id := id;
      this.name := name;
      description := f.description;
      onnx := f.onnx;
      obsConfig := f.obsConfig;
      actionScale := f.actionScale;
      stiffness := f.stiffness;
      damping := f.damping;
      modelXml := f.modelXml;
      assetMeta := f.assetMeta;
      uiControls := f.uiControls;
      path := f.path;
    }

    /** The configuration's current fields. */
    function Fields(): (f: PolicyFields)
      reads this
      ensures f.id == Some(id) && f.name == Some(name)
    {
      PolicyFields(Some(id), Some(name), description, onnx, obsConfig, actionScale, stiffness, damping,
                   modelXml, assetMeta, uiControls, path)
    }
  }

  datatype SceneFields = SceneFields(
    id: Option<string>, name: Option<string>, modelXml: Option<string>, assetMeta: Option<string>,
    metadata: Option<Metadata>, defaultPolicy: Option<string>, policies: seq<PolicyConfig>,
    camera: Option<ConfigRules.Camera>, backgroundColor: Option<string>, description: Option<string>,
    preview: Option<string>)

  class SceneConfig {
    const id: string
    var name: string
    var modelXml: string
    var assetMeta: Option<string>
    var metadata: Option<Metadata>
    var defaultPolicy: Option<string>
    var policies: seq<PolicyConfig>
    var camera: Option<ConfigRules.Camera>
    var backgroundColor: Option<string>
    var description: Option<string>
    var preview: Option<string>

    constructor(id: string, name: string, modelXml: string, f: SceneFields)
      ensures this.id == id && this.name == name && this.modelXml == modelXml
      ensures assetMeta == f.assetMeta && metadata == f.metadata && defaultPolicy == f.defaultPolicy
      ensures policies == f.policies && camera == f.camera && backgroundColor == f.backgroundColor
      ensures description == f.description && preview == f.preview
    {
      this.id := id;
      this.name := name;
      this.modelXml := modelXml;
      assetMeta := f.assetMeta;
      metadata := f.metadata;
      defaultPolicy := f.defaultPolicy;
      policies := f.policies;
      camera := f.camera;
      backgroundColor := f.backgroundColor;
      description := f.description;
      preview := f.preview;
    }

    /** The configuration's current fields. */
    function Fields(): (f: SceneFields)
      reads this
      ensures f.id == Some(id) && f.name == Some(name) && f.modelXml == Some(modelXml) && f.policies == policies
    {
      SceneFields(Some(id), Some(name), Some(modelXml), assetMeta, metadata, defaultPolicy, policies,
                  camera, backgroundColor, description, preview)
    }
  }

  /** A project as given (`Partial<ProjectConfig>` or one of `projects`); a
      missing scene list is the empty one. */
  datatype ProjectFields = ProjectFields(
    id: Option<string>, projectName: Option<string>, projectLink: Option<string>,
    scenes: seq<SceneConfig>, defaultScene: Option<string>)

  class ProjectConfig {
    const id: string
    var projectName: Option<string>
    var projectLink: Option<string>
    var scenes: seq<SceneConfig>
    var defaultScene: Option<string>

    /** `{ ...f, id }`: the fields of `f` under the given id. */
    constructor(id: string, f: ProjectFields)
      ensures Fields() == f.(id := Some(id)) && this.id == id
    {
      this.id := id;
      projectName := f.projectName;
      projectLink := f.projectLink;
      scenes := f.scenes;
      defaultScene := f.defaultScene;
    }

    /** The configuration's current fields. */
    function Fields(): (f: ProjectFields)
      reads this
      ensures f.id == Some(id) && f.scenes == scenes && f.defaultScene == defaultScene
    {
      ProjectFields(Some(id), projectName, projectLink, scenes, defaultScene)
    }
  }

  // ---------------------------------------------------------------------------
  // Builders

  /** The `Policy` builder: edits its configuration in place. */
  class Policy {
    const config: PolicyConfig
    const scene: Scene

    /** `new Policy(scene, config)`: id `policy-<stamp>` and name `Untitled Policy` unless given. */
    constructor(scene: Scene, f: PolicyFields, stamp: nat)
      ensures this.scene == scene && fresh(config)
      ensures config.id == IdOr(f.id, "policy", stamp)
      ensures config.Fields() == f.(id := Some(IdOr(f.id, "policy", stamp)), name := Some(Or(f.name, "Untitled Policy")))
    {
      this.scene := scene;
      config := new PolicyConfig(IdOr(f.id, "policy", stamp), Or(f.name, "Untitled Policy"), f);
    }

    method SetOnnx(onnx: Option<Onnx>)
      modifies config
      ensures config.Fields() == old(config.Fields()).(onnx := onnx)
    {
      config.onnx := onnx;
    }

    method SetObservationConfig(obsConfig: Option<ObsConfig>)
      modifies config
      ensures config.Fields() == old(config.Fields()).(obsConfig := obsConfig)
    {
      config.obsConfig := obsConfig;
    }

    /** `setPDParams({ stiffness, damping })`: only the gains that are given change. */
    method SetPDParams(stiffness: Option<real>, damping: Option<real>)
      modifies config
      ensures config.Fields() == old(config.Fields()).(
                stiffness := if stiffness.Some? then stiffness else old(config.stiffness),
                damping := if damping.Some? then damping else old(config.damping))
    {
      if stiffness.Some? {
        config.stiffness := stiffness;
      }
      if damping.Some? {
        config.damping := damping;
      }
    }

    method SetActionScale(scale: real)
      modifies config
      ensures config.Fields() == old(config.Fields()).(actionScale := Some(scale))
    {
      config.actionScale := Some(scale);
    }

    method SetUIControls(controls: Option<seq<string>>)
      modifies config
      ensures config.Fields() == old(config.Fields()).(uiControls := controls)
    {
      config.uiControls := controls;
    }
  }

  /** `{ ...old, ...update }`: the keys of both, the update's value winning. */
  function MergeMetadata(current: Option<Metadata>, update: Metadata): (r: Metadata)
    ensures r.Keys == (if current.Some? then current.value.Keys else {}) + update.Keys
    ensures forall k :: k in update ==> r[k] == update[k]
    ensures forall k :: current.Some? && k in current.value && k !in update ==> r[k] == current.value[k]
  {
    (if current.Some? then current.value else map[]) + update
  }

  /** Merging the same update twice is merging it once. */
  lemma MergeMetadataIdempotent(current: Option<Metadata>, update: Metadata)
    ensures MergeMetadata(Some(MergeMetadata(current, update)), update) == MergeMetadata(current, update)
  {
    var once := MergeMetadata(current, update);
    var twice := MergeMetadata(Some(once), update);
    assert twice.Keys == once.Keys;
    forall k | k in once ensures twice[k] == once[k] {
    }
  }

  /** The `Scene` builder. */
  class Scene {
    const config: SceneConfig
    const project: Project

    /** `new Scene(project, config)`: id `scene-<stamp>`, name `Untitled Scene` and
        an empty model path unless given. */
    constructor(project: Project, f: SceneFields, stamp: nat)
      ensures this.project == project && fresh(config)
      ensures config.id == IdOr(f.id, "scene", stamp)
      ensures config.Fields() == f.(id := Some(IdOr(f.id, "scene", stamp)), name := Some(Or(f.name, "Untitled Scene")),
                                    modelXml := Some(Or(f.modelXml, "")))
    {
      this.project := project;
      config := new SceneConfig(IdOr(f.id, "scene", stamp), Or(f.name, "Untitled Scene"), Or(f.modelXml, ""), f);
    }

    /** `addPolicy(f)`: a new policy appended to this scene's list. */
    method AddPolicy(f: PolicyFields, stamp: nat) returns (p: Policy)
      modifies config
      ensures fresh(p) && fresh(p.config) && p.scene == this
      ensures config.Fields() == old(config.Fields()).(policies := old(config.policies) + [p.config])
      ensures p.config.id == IdOr(f.id, "policy", stamp)
      ensures p.config.Fields() == f.(id := Some(IdOr(f.id, "policy", stamp)), name := Some(Or(f.name, "Untitled Policy")))
    {
      p := new Policy(this, f, stamp);
      config.policies := config.policies + [p.config];
    }

    /** `setMetadata(m)`: a shallow merge in which `m`'s keys win. */
    method SetMetadata(update: Metadata)
      modifies config
      ensures config.Fields() == old(config.Fields()).(metadata := Some(MergeMetadata(old(config.metadata), update)))
    {
      config.metadata := Some(MergeMetadata(config.metadata, update));
    }

    method SetCamera(camera: Option<ConfigRules.Camera>)
      modifies config
      ensures config.Fields() == old(config.Fields()).(camera := camera)
    {
      config.camera := camera;
    }

    method SetBackgroundColor(color: string)
      modifies config
      ensures config.Fields() == old(config.Fields()).(backgroundColor := Some(color))
    {
      config.backgroundColor := Some(color);
    }

    method SetDefaultPolicy(policyId: string)
      modifies config
      ensures config.Fields() == old(config.Fields()).(defaultPolicy := Some(policyId))
    {
      config.defaultPolicy := Some(policyId);
    }
  }

  /** The `Project` builder. */
  class Project {
    const config: ProjectConfig
    const viewer: MwxViewer

    /** `new Project(viewer, f)`: id `project-<stamp>` unless given. */
    constructor(viewer: MwxViewer, f: ProjectFields, stamp: nat)
      ensures this.viewer == viewer && fresh(config)
      ensures config.Fields() == f.(id := Some(IdOr(f.id, "project", stamp)))
    {
      this.viewer := viewer;
      config := new ProjectConfig(IdOr(f.id, "project", stamp), f);
    }

    /** `addScene(f)`: a new scene appended to this project's list. */
    method AddScene(f: SceneFields, stamp: nat) returns (s: Scene)
      modifies config
      ensures fresh(s) && fresh(s.config) && s.project == this
      ensures config.Fields() == old(config.Fields()).(scenes := old(config.scenes) + [s.config])
      ensures s.config.id == IdOr(f.id, "scene", stamp)
      ensures s.config.Fields() == f.(id := Some(IdOr(f.id, "scene", stamp)), name := Some(Or(f.name, "Untitled Scene")),
                                      modelXml := Some(Or(f.modelXml, "")))
    {
      s := new Scene(this, f, stamp);
      config.scenes := config.scenes + [s.config];
    }

    /** `setMetadata({ name, link })`: only non-empty values are taken. */
    method SetMetadata(name: Option<string>, link: Option<string>)
      modifies config
      ensures config.Fields() == old(config.Fields()).(
                projectName := if name.Some? && name.value != "" then name else old(config.projectName),
                projectLink := if link.Some? && link.value != "" then link else old(config.projectLink))
    {
      if name.Some? && name.value != "" {
        config.projectName := name;
      }
      if link.Some? && link.value != "" {
        config.projectLink := link;
      }
    }

    method SetDefaultScene(sceneId: string)
      modifies config
      ensures config.Fields() == old(config.Fields()).(defaultScene := Some(sceneId))
    {
      config.defaultScene := Some(sceneId);
    }
  }

  // ---------------------------------------------------------------------------
  // The viewer

  datatype EventName = ProjectChanged | SceneChanged | PolicyChanged | ParamsChanged | StateChanged | ErrorEvent

  /** A registered callback, told apart by `tag`; `throws` says whether calling it raises. */
  datatype Listener = Listener(tag: nat, throws: bool)

  /** One callback invocation by `emit`, and whether it raised (and was swallowed). */
  datatype Delivery = Delivery(event: EventName, listener: Listener, raised: bool)

  /** `set.add(l)` on an insertion-ordered set. */
  function AddListener(ls: seq<Listener>, l: Listener): (r: seq<Listener>)
    ensures l in r && forall x :: x in ls ==> x in r
    ensures forall x :: x in r ==> x in ls || x == l
    ensures Distinct(ls) ==> Distinct(r)
  {
    if l in ls then ls else ls + [l]
  }

  /** `set.delete(l)`: every other listener stays, in order. */
  function RemoveListener(ls: seq<Listener>, l: Listener): seq<Listener>
  {
    if ls == [] then []
    else if ls[0] == l then RemoveListener(ls[1..], l)
    else [ls[0]] + RemoveListener(ls[1..], l)
  }

  /** Deleting from a set: exactly `l` is gone, the others stay, and no
      listener appears twice afterwards if none did before. */
  lemma {:induction false} RemoveListenerSpec(ls: seq<Listener>, l: Listener)
    ensures l !in RemoveListener(ls, l)
    ensures forall x :: x in RemoveListener(ls, l) <==> x in ls && x != l
    ensures Distinct(ls) ==> Distinct(RemoveListener(ls, l))
  {
    if ls != [] {
      RemoveListenerSpec(ls[1..], l);
      assert forall x :: x in ls <==> x == ls[0] || x in ls[1..];
      if Distinct(ls) {
        assert forall i :: 0 <= i < |ls| - 1 ==> ls[1..][i] == ls[i + 1];
        assert Distinct(ls[1..]) && ls[0] !in ls[1..];
        if ls[0] != l {
          var rest := RemoveListener(ls[1..], l);
          var r := [ls[0]] + rest;
          forall i, j | 0 <= i < j < |r| ensures r[i] != r[j] {
            assert r[j] == rest[j - 1] && r[j] in rest;
            if i > 0 {
              assert r[i] == rest[i - 1];
            }
          }
        }
      }
    }
  }

  /** Adding a new listener and removing it again gives back the same set, in the same order. */
  lemma {:induction false} AddRemoveListener(ls: seq<Listener>, l: Listener)
    requires l !in ls
    ensures RemoveListener(AddListener(ls, l), l) == ls
  {
    RemoveAbsent(ls, l);
    RemoveAppend(ls, [l], l);
    assert RemoveListener([l], l) == [];
  }

  lemma {:induction false} RemoveAbsent(ls: seq<Listener>, l: Listener)
    requires l !in ls
    ensures RemoveListener(ls, l) == ls
  {
    if ls != [] {
      RemoveAbsent(ls[1..], l);
    }
  }

  lemma {:induction false} RemoveAppend(a: seq<Listener>, b: seq<Listener>, l: Listener)
    ensures RemoveListener(a + b, l) == RemoveListener(a, l) + RemoveListener(b, l)
  {
    if a != [] {
      var ab := a + b;
      assert ab[0] == a[0] && ab[1..] == a[1..] + b;
      RemoveAppend(a[1..], b, l);
      var left, right := RemoveListener(a[1..], l), RemoveListener(b, l);
      if a[0] != l {
        assert [a[0]] + (left + right) == ([a[0]] + left) + right;
      }
    } else {
      assert a + b == b;
    }
  }

  /** The invocations `emit(event)` makes: every listener, in order, whether or not an earlier one raised. */
  function Deliveries(event: EventName, ls: seq<Listener>): (r: seq<Delivery>)
    ensures |r| == |ls|
    ensures forall i :: 0 <= i < |ls| ==> r[i] == Delivery(event, ls[i], ls[i].throws)
  {
    if ls == [] then [] else [Delivery(event, ls[0], ls[0].throws)] + Deliveries(event, ls[1..])
  }

  /** `Map.set(key, v)` on the insertion order of keys: a new key goes last, an existing one keeps its place. */
  function SetKey(keys: seq<string>, key: string): (r: seq<string>)
    ensures key in r && forall k :: k in r <==> k in keys || k == key
    ensures Distinct(keys) ==> Distinct(r)
    ensures key in keys ==> r == keys
    ensures key !in keys ==> r == keys + [key]
  {
    if key in keys then keys else keys + [key]
  }

  /** The key `loadConfig` stores a project under: its id, else its name, else `project-<size>`. */
  function ProjectKey(p: ProjectFields, size: nat): (k: string)
    ensures k != ""
    ensures p.id.Some? && p.id.value != "" ==> k == p.id.value
    ensures (p.id.None? || p.id.value == "") && p.projectName.Some? && p.projectName.value != "" ==> k == p.projectName.value
  {
    Or(p.id, Or(p.projectName, "project-" + NatToString(size)))
  }

  /** The key order after storing `ps` one by one into a map with keys `keys`. */
  function StoredKeys(keys: seq<string>, ps: seq<ProjectFields>): (r: seq<string>)
    ensures Distinct(keys) ==> Distinct(r)
    ensures forall k :: k in keys ==> k in r
    ensures |keys| <= |r| <= |keys| + |ps|
    ensures keys <= r
    decreases |ps|
  {
    if ps == [] then keys else StoredKeys(SetKey(keys, ProjectKey(ps[0], |keys|)), ps[1..])
  }

  /** How `loadConfig` is given its configuration: `projects` (a single project is
      a one-element list) and the optional initial selections. */
  datatype ViewerConfig = ViewerConfig(projects: seq<ProjectFields>, initialProject: Option<string>,
                                       initialScene: Option<string>, initialPolicy: Option<string>)

  /** The first scene of `scenes` with the given id. */
  function SceneWithId(scenes: seq<SceneConfig>, sceneId: string): (r: Option<SceneConfig>)
    ensures r.Some? ==> r.value in scenes && r.value.id == sceneId
    ensures r.None? <==> forall s :: s in scenes ==> s.id != sceneId
  {
    if scenes == [] then None
    else if scenes[0].id == sceneId then Some(scenes[0])
    else SceneWithId(scenes[1..], sceneId)
  }

  /** The first policy of `policies` with the given id. */
  function PolicyWithId(policies: seq<PolicyConfig>, policyId: string): (r: Option<PolicyConfig>)
    ensures r.Some? ==> r.value in policies && r.value.id == policyId
    ensures r.None? <==> forall p :: p in policies ==> p.id != policyId
  {
    if policies == [] then None
    else if policies[0].id == policyId then Some(policies[0])
    else PolicyWithId(policies[1..], policyId)
  }

  /** The first policy with the given id among the scenes, in order. */
  function PolicyInScenes(scenes: seq<SceneConfig>, policyId: string): (r: Option<PolicyConfig>)
    reads set s | s in scenes
    ensures r.Some? ==> r.value.id == policyId && exists s :: s in scenes && r.value in s.policies
    ensures r.None? <==> forall s, p :: s in scenes && p in s.policies ==> p.id != policyId
  {
    if scenes == [] then None
    else
      var p := PolicyWithId(scenes[0].policies, policyId);
      if p.Some? then p else PolicyInScenes(scenes[1..], policyId)
  }

  class MwxViewer {
    /** The keys of `projects`, in insertion order. */
    var projectIds: seq<string>
    var projects: map<string, ProjectConfig>
    var currentProjectId: Option<string>
    var currentSceneId: Option<string>
    var currentPolicyId: Option<string>
    var listeners: map<EventName, seq<Listener>>
    /** Every callback invocation so far. */
    var delivered: seq<Delivery>
    var hasContainer: bool
    /** `runtime.params`, when there is a runtime: a name maps to `None` when
        it holds `undefined`. */
    var runtimeParams: Option<map<string, Option<real>>>
    /** How often the runtime was stopped by `destroy`. */
    var runtimeStops: nat
    var initialized: bool

    ghost predicate Valid()
      reads this
    {
      && Distinct(projectIds)
      && (forall k :: k in projects <==> k in projectIds)
      && (forall e :: e in listeners ==> Distinct(listeners[e]))
    }

    /** `new MwxViewer(container)`: nothing stored, no runtime. */
    constructor(hasContainer: bool)
      ensures Valid() && projectIds == [] && projects == map[] && listeners == map[] && delivered == []
      ensures currentProjectId.None? && currentSceneId.None? && currentPolicyId.None?
      ensures this.hasContainer == hasContainer && runtimeParams.None? && !initialized
    {
      projectIds := [];
      projects := map[];
      currentProjectId := None;
      currentSceneId := None;
      currentPolicyId := None;
      listeners := map[];
      delivered := [];
      this.hasContainer := hasContainer;
      runtimeParams := None;
      runtimeStops := 0;
      initialized := false;
    }

    /** The stored project configurations. */
    ghost function ProjectObjs(): set<ProjectConfig>
      reads this
    {
      set k | k in projects :: projects[k]
    }

    /** The scene configurations of the stored projects. */
    ghost function SceneObjs(): set<SceneConfig>
      reads this, ProjectObjs()
    {
      set p, s | p in ProjectObjs() && s in p.scenes :: s
    }

    /** The listeners of an event, in registration order. */
    function ListenersOf(event: EventName): (r: seq<Listener>)
      reads this
      ensures event !in listeners ==> r == []
    {
      if event in listeners then listeners[event] else []
    }

    /** `on(event, callback)`. */
    method On(event: EventName, l: Listener)
      requires Valid()
      modifies this
      ensures Valid() && listeners == old(listeners)[event := AddListener(old(ListenersOf(event)), l)]
      ensures projectIds == old(projectIds) && projects == old(projects) && delivered == old(delivered)
      ensures currentProjectId == old(currentProjectId) && currentSceneId == old(currentSceneId)
      ensures currentPolicyId == old(currentPolicyId) && hasContainer == old(hasContainer)
      ensures runtimeParams == old(runtimeParams) && runtimeStops == old(runtimeStops)
      ensures initialized == old(initialized)
    {
      listeners := listeners[event := AddListener(ListenersOf(event), l)];
    }

    /** `off(event, callback)`: removes that callback only; an event never
        registered stays unregistered. */
    method Off(event: EventName, l: Listener)
      requires Valid()
      modifies this
      ensures Valid()
      ensures event in old(listeners) ==> listeners == old(listeners)[event := RemoveListener(old(listeners[event]), l)]
      ensures event !in old(listeners) ==> listeners == old(listeners)
      ensures projectIds == old(projectIds) && projects == old(projects) && delivered == old(delivered)
      ensures currentProjectId == old(currentProjectId) && currentSceneId == old(currentSceneId)
      ensures currentPolicyId == old(currentPolicyId) && hasContainer == old(hasContainer)
      ensures runtimeParams == old(runtimeParams) && runtimeStops == old(runtimeStops)
      ensures initialized == old(initialized)
    {
      if event in listeners {
        RemoveListenerSpec(listeners[event], l);
        listeners := listeners[event := RemoveListener(listeners[event], l)];
      }
    }

    /** `emit(event, data)`: each listener is called in turn; one that raises
        is logged and the rest are still called. */
    method Emit(event: EventName)
      modifies this`delivered
      ensures delivered == old(delivered) + Deliveries(event, ListenersOf(event))
    {
      var ls := ListenersOf(event);
      var i := 0;
      while i < |ls|
        invariant 0 <= i <= |ls|
        invariant delivered == old(delivered) + Deliveries(event, ls[..i])
      {
        assert ls[..i + 1] == ls[..i] + [ls[i]];
        DeliveriesAppend(event, ls[..i], ls[i]);
        delivered := delivered + [Delivery(event, ls[i], ls[i].throws)];
        i := i + 1;
      }
      assert ls[..i] == ls;
    }

    /** `addProject(f)`: the builder's configuration is stored under its id (a
        stored project with that id is replaced in place) and becomes current
        when it is the only project. */
    method AddProject(f: ProjectFields, stamp: nat) returns (p: Project)
      requires Valid()
      modifies this
      ensures Valid() && fresh(p) && fresh(p.config) && p.viewer == this
      ensures p.config.Fields() == f.(id := Some(IdOr(f.id, "project", stamp)))
      ensures projects == old(projects)[p.config.id := p.config]
      ensures projectIds == SetKey(old(projectIds), p.config.id)
      ensures currentProjectId == (if |projectIds| == 1 then Some(p.config.id) else old(currentProjectId))
      ensures listeners == old(listeners) && delivered == old(delivered)
      ensures currentSceneId == old(currentSceneId) && currentPolicyId == old(currentPolicyId)
      ensures hasContainer == old(hasContainer) && runtimeParams == old(runtimeParams)
      ensures runtimeStops == old(runtimeStops) && initialized == old(initialized)
    {
      p := new Project(this, f, stamp);
      var id := p.config.id;
      projects := projects[id := p.config];
      projectIds := SetKey(projectIds, id);
      if |projectIds| == 1 {
        currentProjectId := Some(id);
      }
    }

    /** `getCurrentProject()`. */
    function GetCurrentProject(): (r: Option<ProjectConfig>)
      reads this
      ensures r.Some? <==> currentProjectId.Some? && currentProjectId.value != "" && currentProjectId.value in projects
      ensures r.Some? ==> r.value == projects[currentProjectId.value]
    {
      if currentProjectId.Some? && currentProjectId.value != "" && currentProjectId.value in projects then
        Some(projects[currentProjectId.value])
      else None
    }

    /** `projects.set(key, { ...p, id: key })` with the key `loadConfig` chooses. */
    method StoreProject(p: ProjectFields) returns (key: string)
      requires Valid()
      modifies this
      ensures Valid() && key == ProjectKey(p, |old(projectIds)|)
      ensures projectIds == SetKey(old(projectIds), key)
      ensures key in projects && fresh(projects[key]) && projects == old(projects)[key := projects[key]]
      ensures FieldsOf(projects) == old(FieldsOf(projects))[key := p.(id := Some(key))]
      ensures currentProjectId == old(currentProjectId) && listeners == old(listeners) && delivered == old(delivered)
      ensures currentSceneId == old(currentSceneId) && currentPolicyId == old(currentPolicyId)
      ensures hasContainer == old(hasContainer) && runtimeParams == old(runtimeParams)
      ensures runtimeStops == old(runtimeStops) && initialized == old(initialized)
    {
      ghost var before := projects;
      ghost var fields := FieldsOf(projects);
      key := ProjectKey(p, |projectIds|);
      var stored := new ProjectConfig(key, p);
      assert FieldsOf(before) == fields;
      projects := projects[key := stored];
      projectIds := SetKey(projectIds, key);
      assert FieldsOf(before) == fields && stored.Fields() == p.(id := Some(key));
      FieldsOfStore(before, key, stored);
    }

    /** `getCurrentScene()`: the current scene id looked up across all projects. */
    function GetCurrentScene(): (r: Option<SceneConfig>)
      requires Valid()
      reads this, ProjectObjs()
      ensures currentSceneId.None? || currentSceneId.value == "" ==> r.None?
      ensures r.Some? ==> r.value.id == currentSceneId.value && r == FindScene(currentSceneId.value)
    {
      if currentSceneId.Some? && currentSceneId.value != "" then FindScene(currentSceneId.value) else None
    }

    /** `getCurrentPolicy()`: the current policy id looked up across all scenes. */
    function GetCurrentPolicy(): (r: Option<PolicyConfig>)
      requires Valid()
      reads this, ProjectObjs(), SceneObjs()
      ensures currentPolicyId.None? || currentPolicyId.value == "" ==> r.None?
      ensures r.Some? ==> r.value.id == currentPolicyId.value && r == FindPolicy(currentPolicyId.value)
    {
      if currentPolicyId.Some? && currentPolicyId.value != "" then FindPolicy(currentPolicyId.value) else None
    }

    /** The loop of `loadConfig` that stores each project in turn. */
    method StoreProjects(ps: seq<ProjectFields>)
      requires Valid()
      modifies this
      ensures Valid()
      ensures projectIds == StoredKeys(old(projectIds), ps)
      ensures FieldsOf(projects) == StoredFields(old(projectIds), old(FieldsOf(projects)), ps)
      ensures currentProjectId == old(currentProjectId) && listeners == old(listeners) && delivered == old(delivered)
      ensures currentSceneId == old(currentSceneId) && currentPolicyId == old(currentPolicyId)
      ensures hasContainer == old(hasContainer) && runtimeParams == old(runtimeParams)
      ensures runtimeStops == old(runtimeStops) && initialized == old(initialized)
    {
      var i := 0;
      while i < |ps|
        invariant 0 <= i <= |ps|
        invariant Valid() && listeners == old(listeners) && delivered == old(delivered)
        invariant currentProjectId == old(currentProjectId)
        invariant currentSceneId == old(currentSceneId) && currentPolicyId == old(currentPolicyId)
        invariant hasContainer == old(hasContainer) && runtimeParams == old(runtimeParams)
        invariant runtimeStops == old(runtimeStops) && initialized == old(initialized)
        invariant StoredKeys(projectIds, ps[i..]) == StoredKeys(old(projectIds), ps)
        invariant StoredFields(projectIds, FieldsOf(projects), ps[i..]) == StoredFields(old(projectIds), old(FieldsOf(projects)), ps)
      {
        assert ps[i..][1..] == ps[i + 1..];
        var _ := StoreProject(ps[i]);
        i := i + 1;
      }
    }

    /**
     * The storing and selecting part of `loadConfig(config)`: each project is
     * stored, as a copy carrying its key, under `ProjectKey`; the current
     * project becomes `initialProject` or else the first stored one; and the
     * scene to select is `initialScene`, else the current project's default
     * scene, else its first scene. Fetching the configuration, initialising
     * the runtime and loading the selections are not part of this method.
     */
    method LoadConfig(config: ViewerConfig) returns (sceneToSelect: Option<string>)
      requires Valid()
      modifies this
      ensures Valid()
      ensures projectIds == StoredKeys(old(projectIds), config.projects)
      ensures FieldsOf(projects) == StoredFields(old(projectIds), old(FieldsOf(projects)), config.projects)
      ensures config.initialProject.Some? && config.initialProject.value != "" ==> currentProjectId == config.initialProject
      ensures (config.initialProject.None? || config.initialProject.value == "") ==>
                currentProjectId == (if projectIds != [] then Some(projectIds[0]) else old(currentProjectId))
      ensures config.initialScene.Some? && config.initialScene.value != "" ==> sceneToSelect == config.initialScene
      ensures (config.initialScene.None? || config.initialScene.value == "") ==>
                sceneToSelect == DefaultSceneOf(GetCurrentProject())
      ensures listeners == old(listeners) && delivered == old(delivered)
      ensures currentSceneId == old(currentSceneId) && currentPolicyId == old(currentPolicyId)
      ensures hasContainer == old(hasContainer) && runtimeParams == old(runtimeParams)
      ensures runtimeStops == old(runtimeStops) && initialized == old(initialized)
    {
      StoreProjects(config.projects);
      ChooseCurrentProject(config.initialProject);
      if config.initialScene.Some? && config.initialScene.value != "" {
        sceneToSelect := config.initialScene;
      } else {
        sceneToSelect := DefaultSceneOf(GetCurrentProject());
      }
    }

    /** The current project chosen by `loadConfig`: `initialProject` when
        given and non-empty, else the first stored project, else unchanged. */
    method ChooseCurrentProject(initialProject: Option<string>)
      modifies this`currentProjectId
      ensures initialProject.Some? && initialProject.value != "" ==> currentProjectId == initialProject
      ensures (initialProject.None? || initialProject.value == "") ==>
                currentProjectId == (if projectIds != [] then Some(projectIds[0]) else old(currentProjectId))
    {
      if initialProject.Some? && initialProject.value != "" {
        currentProjectId := initialProject;
      } else if |projectIds| > 0 {
        currentProjectId := Some(projectIds[0]);
      }
    }

    /** `findScene(id)`: the first scene with that id, over the projects in insertion order. */
    function FindScene(sceneId: string): (r: Option<SceneConfig>)
      requires Valid()
      reads this, ProjectObjs()
      ensures r.Some? ==> r.value.id == sceneId && exists i :: 0 <= i < |projectIds| && r.value in projects[projectIds[i]].scenes
      ensures r.None? <==> forall i :: 0 <= i < |projectIds| ==> SceneWithId(projects[projectIds[i]].scenes, sceneId).None?
      ensures r.Some? ==> exists i :: 0 <= i < |projectIds| && r == SceneWithId(projects[projectIds[i]].scenes, sceneId)
                                      && forall j :: 0 <= j < i ==> SceneWithId(projects[projectIds[j]].scenes, sceneId).None?
    {
      FindSceneFromFirst(projectIds, sceneId);
      FindSceneFrom(projectIds, sceneId)
    }

    function FindSceneFrom(ids: seq<string>, sceneId: string): (r: Option<SceneConfig>)
      requires forall k :: k in ids ==> k in projects
      reads this, ProjectObjs()
      ensures r.Some? ==> r.value.id == sceneId && exists i :: 0 <= i < |ids| && r.value in projects[ids[i]].scenes
      ensures r.None? <==> forall i :: 0 <= i < |ids| ==> SceneWithId(projects[ids[i]].scenes, sceneId).None?
      ensures ids != [] && SceneWithId(projects[ids[0]].scenes, sceneId).Some? ==>
                r == SceneWithId(projects[ids[0]].scenes, sceneId)
    {
      if ids == [] then None
      else
        var s := SceneWithId(projects[ids[0]].scenes, sceneId);
        if s.Some? then s
        else
          var r := FindSceneFrom(ids[1..], sceneId);
          assert forall i :: 1 <= i < |ids| ==> ids[i] == ids[1..][i - 1];
          r
    }

    /** A scene found over `ids` is the one of the first project that has a
        scene with that id. */
    lemma FindSceneFromFirst(ids: seq<string>, sceneId: string)
      requires forall k :: k in ids ==> k in projects
      ensures var r := FindSceneFrom(ids, sceneId);
              r.Some? ==> exists i :: 0 <= i < |ids| && r == SceneWithId(projects[ids[i]].scenes, sceneId)
                                      && forall j :: 0 <= j < i ==> SceneWithId(projects[ids[j]].scenes, sceneId).None?
    {
      var i := FindSceneFromIndex(ids, sceneId);
    }

    /** The index of the project whose scene `FindSceneFrom` returns. */
    lemma {:induction false} FindSceneFromIndex(ids: seq<string>, sceneId: string) returns (i: nat)
      requires forall k :: k in ids ==> k in projects
      ensures FindSceneFrom(ids, sceneId).Some? ==>
                && i < |ids| && FindSceneFrom(ids, sceneId) == SceneWithId(projects[ids[i]].scenes, sceneId)
                && forall j :: 0 <= j < i ==> SceneWithId(projects[ids[j]].scenes, sceneId).None?
      decreases |ids|
    {
      i := 0;
      if ids != [] && SceneWithId(projects[ids[0]].scenes, sceneId).None? && FindSceneFrom(ids, sceneId).Some? {
        var tail := ids[1..];
        var k := FindSceneFromIndex(tail, sceneId);
        NoEarlierScene(ids, sceneId, k);
        assert ids[k + 1] == tail[k];
        i := k + 1;
      }
    }

    /** No project of `ids` before index `k + 1` has the scene, when the first
        one has none and none of the tail's first `k` has it. */
    lemma NoEarlierScene(ids: seq<string>, sceneId: string, k: nat)
      requires forall x :: x in ids ==> x in projects
      requires k < |ids| - 1 && SceneWithId(projects[ids[0]].scenes, sceneId).None?
      requires forall j :: 0 <= j < k ==> SceneWithId(projects[ids[1..][j]].scenes, sceneId).None?
      ensures forall j :: 0 <= j < k + 1 ==> SceneWithId(projects[ids[j]].scenes, sceneId).None?
    {
      forall j | 0 <= j < k + 1
        ensures SceneWithId(projects[ids[j]].scenes, sceneId).None?
      {
        if j > 0 {
          assert ids[j] == ids[1..][j - 1];
        }
      }
    }

    /** `findPolicy(id)`: the first policy with that id, over the projects in
        insertion order and their scenes in order. */
    function FindPolicy(policyId: string): (r: Option<PolicyConfig>)
      requires Valid()
      reads this, ProjectObjs(), SceneObjs()
      ensures r.Some? ==> r.value.id == policyId
      ensures r.Some? ==> exists i, s :: 0 <= i < |projectIds| && s in projects[projectIds[i]].scenes && r.value in s.policies
      ensures r.None? <==> forall i :: 0 <= i < |projectIds| ==> PolicyInScenes(projects[projectIds[i]].scenes, policyId).None?
      ensures r.Some? ==> exists i :: 0 <= i < |projectIds| && r == PolicyInScenes(projects[projectIds[i]].scenes, policyId)
                                      && forall j :: 0 <= j < i ==> PolicyInScenes(projects[projectIds[j]].scenes, policyId).None?
    {
      FindPolicyFromFirst(projectIds, policyId);
      FindPolicyFrom(projectIds, policyId)
    }

    function FindPolicyFrom(ids: seq<string>, policyId: string): (r: Option<PolicyConfig>)
      requires forall k :: k in ids ==> k in projects
      reads this, ProjectObjs(), SceneObjs()
      ensures r.Some? ==> r.value.id == policyId
      ensures r.None? <==> forall i :: 0 <= i < |ids| ==> PolicyInScenes(projects[ids[i]].scenes, policyId).None?
    {
      if ids == [] then None
      else
        var p := PolicyInScenes(projects[ids[0]].scenes, policyId);
        if p.Some? then p
        else
          var r := FindPolicyFrom(ids[1..], policyId);
          assert forall i :: 1 <= i < |ids| ==> ids[i] == ids[1..][i - 1];
          r
    }

    /** A policy found over `ids` is the one of the first project that has a
        policy with that id in one of its scenes. */
    lemma FindPolicyFromFirst(ids: seq<string>, policyId: string)
      requires forall k :: k in ids ==> k in projects
      ensures var r := FindPolicyFrom(ids, policyId);
              r.Some? ==> exists i :: 0 <= i < |ids| && r == PolicyInScenes(projects[ids[i]].scenes, policyId)
                                      && forall j :: 0 <= j < i ==> PolicyInScenes(projects[ids[j]].scenes, policyId).None?
    {
      var i := FindPolicyFromIndex(ids, policyId);
    }

    /** The index of the project whose policy `FindPolicyFrom` returns. */
    lemma {:induction false} FindPolicyFromIndex(ids: seq<string>, policyId: string) returns (i: nat)
      requires forall k :: k in ids ==> k in projects
      ensures FindPolicyFrom(ids, policyId).Some? ==>
                && i < |ids| && FindPolicyFrom(ids, policyId) == PolicyInScenes(projects[ids[i]].scenes, policyId)
                && forall j :: 0 <= j < i ==> PolicyInScenes(projects[ids[j]].scenes, policyId).None?
      decreases |ids|
    {
      i := 0;
      if ids != [] && PolicyInScenes(projects[ids[0]].scenes, policyId).None? && FindPolicyFrom(ids, policyId).Some? {
        var tail := ids[1..];
        var k := FindPolicyFromIndex(tail, policyId);
        NoEarlierPolicy(ids, policyId, k);
        assert ids[k + 1] == tail[k];
        i := k + 1;
      }
    }

    /** No project of `ids` before index `k + 1` has the policy, when the first
        one has none and none of the tail's first `k` has it. */
    lemma NoEarlierPolicy(ids: seq<string>, policyId: string, k: nat)
      requires forall x :: x in ids ==> x in projects
      requires k < |ids| - 1 && PolicyInScenes(projects[ids[0]].scenes, policyId).None?
      requires forall j :: 0 <= j < k ==> PolicyInScenes(projects[ids[1..][j]].scenes, policyId).None?
      ensures forall j :: 0 <= j < k + 1 ==> PolicyInScenes(projects[ids[j]].scenes, policyId).None?
    {
      forall j | 0 <= j < k + 1
        ensures PolicyInScenes(projects[ids[j]].scenes, policyId).None?
      {
        if j > 0 {
          assert ids[j] == ids[1..][j - 1];
        }
      }
    }

    /** The state part of `selectProject(id)`: an unknown id is an error and
        changes nothing; otherwise the project becomes current, the
        `project-changed` listeners are called, and the scene to load next is
        its default scene or else its first one. */
    method SelectProject(projectId: string) returns (r: Result<Option<string>>)
      requires Valid()
      modifies this`currentProjectId, this`delivered
      ensures projectId !in projects ==>
                && r == Err("Project not found: " + projectId)
                && currentProjectId == old(currentProjectId) && delivered == old(delivered)
      ensures projectId in projects ==>
                && r == Ok(DefaultSceneOf(Some(projects[projectId])))
                && currentProjectId == Some(projectId)
                && delivered == old(delivered) + Deliveries(ProjectChanged, ListenersOf(ProjectChanged))
    {
      if projectId !in projects {
        return Err("Project not found: " + projectId);
      }
      currentProjectId := Some(projectId);
      Emit(ProjectChanged);
      r := Ok(DefaultSceneOf(Some(projects[projectId])));
    }

    /** The state part of `selectScene(id)`, once the viewer is initialised:
        an unknown scene is an error and changes nothing; otherwise the scene
        becomes current and the `scene-changed` listeners are called. Whether
        the runtime fails to load the environment is given as `loadFails`; a
        failure calls the `error` listeners. On success the result is the
        scene's default policy, the one to load next. */
    method SelectScene(sceneId: string, loadFails: bool) returns (r: Result<Option<string>>)
      requires Valid()
      modifies this`currentSceneId, this`delivered
      ensures old(FindScene(sceneId)).None? ==>
                && r == Err("Scene not found: " + sceneId)
                && currentSceneId == old(currentSceneId) && delivered == old(delivered)
      ensures old(FindScene(sceneId)).Some? ==> currentSceneId == Some(sceneId)
      ensures old(FindScene(sceneId)).Some? && loadFails ==>
                && r.Err?
                && delivered == old(delivered) + Deliveries(SceneChanged, ListenersOf(SceneChanged))
                                               + Deliveries(ErrorEvent, ListenersOf(ErrorEvent))
      ensures old(FindScene(sceneId)).Some? && !loadFails ==>
                && r == Ok(Given(old(FindScene(sceneId)).value.defaultPolicy))
                && delivered == old(delivered) + Deliveries(SceneChanged, ListenersOf(SceneChanged))
    {
      var scene := FindScene(sceneId);
      if scene.None? {
        return Err("Scene not found: " + sceneId);
      }
      currentSceneId := Some(sceneId);
      Emit(SceneChanged);
      if loadFails {
        Emit(ErrorEvent);
        return Err("scene-loading");
      }
      r := Ok(Given(scene.value.defaultPolicy));
    }

    /** The state part of `selectPolicy(id)`: an unknown policy is an error and
        changes nothing; otherwise the policy becomes current and the
        `policy-changed` listeners are called. Whether the runtime fails to
        load the scene override or the policy is given as `loadFails`. After a
        successful load a policy with a stiffness or a damping passes both to
        `updateParams`. A failure of either calls the `error` listeners. */
    method SelectPolicy(policyId: string, loadFails: bool) returns (r: Result<()>)
      requires Valid()
      modifies this`currentPolicyId, this`delivered, this`runtimeParams
      ensures old(FindPolicy(policyId)).None? ==>
                && r == Err("Policy not found: " + policyId)
                && currentPolicyId == old(currentPolicyId) && delivered == old(delivered)
                && runtimeParams == old(runtimeParams)
      ensures old(FindPolicy(policyId)).Some? ==> currentPolicyId == Some(policyId)
      ensures old(FindPolicy(policyId)).Some? && !loadFails && old(PDGiven(FindPolicy(policyId).value)) && old(runtimeParams).Some? ==>
                && r.Ok?
                && runtimeParams == Some(old(runtimeParams).value + old(PDUpdate(FindPolicy(policyId).value)))
                && delivered == old(delivered) + Deliveries(PolicyChanged, ListenersOf(PolicyChanged))
                                               + Deliveries(ParamsChanged, ListenersOf(ParamsChanged))
      ensures old(FindPolicy(policyId)).Some? && !loadFails && !old(PDGiven(FindPolicy(policyId).value)) ==>
                && r.Ok? && runtimeParams == old(runtimeParams)
                && delivered == old(delivered) + Deliveries(PolicyChanged, ListenersOf(PolicyChanged))
      ensures old(FindPolicy(policyId)).Some? && (loadFails || (old(PDGiven(FindPolicy(policyId).value)) && old(runtimeParams).None?)) ==>
                && r.Err? && runtimeParams == old(runtimeParams)
                && delivered == old(delivered) + Deliveries(PolicyChanged, ListenersOf(PolicyChanged))
                                               + Deliveries(ErrorEvent, ListenersOf(ErrorEvent))
    {
      var policy := FindPolicy(policyId);
      if policy.None? {
        return Err("Policy not found: " + policyId);
      }
      r := LoadSelectedPolicy(policyId, PDGiven(policy.value), PDUpdate(policy.value), loadFails);
    }

    /** The part of `selectPolicy` after the policy was found: the id is set
        and announced, the load either fails or is followed by the gains
        update when the policy gives any (`pdGiven`). */
    method LoadSelectedPolicy(policyId: string, pdGiven: bool, update: map<string, Option<real>>, loadFails: bool)
      returns (r: Result<()>)
      modifies this`currentPolicyId, this`delivered, this`runtimeParams
      ensures currentPolicyId == Some(policyId)
      ensures !loadFails && pdGiven && old(runtimeParams).Some? ==>
                && r.Ok? && runtimeParams == Some(old(runtimeParams).value + update)
                && delivered == old(delivered) + Deliveries(PolicyChanged, ListenersOf(PolicyChanged))
                                               + Deliveries(ParamsChanged, ListenersOf(ParamsChanged))
      ensures !loadFails && !pdGiven ==>
                && r.Ok? && runtimeParams == old(runtimeParams)
                && delivered == old(delivered) + Deliveries(PolicyChanged, ListenersOf(PolicyChanged))
      ensures loadFails || (pdGiven && old(runtimeParams).None?) ==>
                && r.Err? && runtimeParams == old(runtimeParams)
                && delivered == old(delivered) + Deliveries(PolicyChanged, ListenersOf(PolicyChanged))
                                               + Deliveries(ErrorEvent, ListenersOf(ErrorEvent))
    {
      currentPolicyId := Some(policyId);
      Emit(PolicyChanged);
      if loadFails {
        Emit(ErrorEvent);
        return Err("policy-loading");
      }
      if pdGiven {
        r := UpdateParams(update);
        if r.Err? {
          Emit(ErrorEvent);
        }
      } else {
        r := Ok(());
      }
    }

    /** `updateParams(update)`: an error without a runtime; otherwise every key
        of the update (an `undefined` value included) is assigned and the
        listeners of `params-changed` are called. */
    method UpdateParams(update: map<string, Option<real>>) returns (r: Result<()>)
      modifies this`runtimeParams, this`delivered
      ensures old(runtimeParams).None? ==> r == Err("Runtime not initialized") && runtimeParams == old(runtimeParams)
                                           && delivered == old(delivered)
      ensures old(runtimeParams).Some? ==>
                && r.Ok? && runtimeParams == Some(old(runtimeParams).value + update)
                && delivered == old(delivered) + Deliveries(ParamsChanged, ListenersOf(ParamsChanged))
    {
      if runtimeParams.None? {
        return Err("Runtime not initialized");
      }
      runtimeParams := Some(runtimeParams.value + update);
      Emit(ParamsChanged);
      r := Ok(());
    }

    /** `destroy()`: the runtime is stopped and dropped, the projects and
        listeners are cleared and the viewer is no longer initialised. The
        current ids are left as they were. */
    method Destroy()
      modifies this
      ensures Valid() && projectIds == [] && projects == map[] && listeners == map[]
      ensures runtimeParams.None? && !initialized
      ensures runtimeStops == old(runtimeStops) + (if old(runtimeParams).Some? then 1 else 0)
      ensures currentProjectId == old(currentProjectId) && currentSceneId == old(currentSceneId)
      ensures currentPolicyId == old(currentPolicyId) && delivered == old(delivered)
      ensures hasContainer == old(hasContainer)
    {
      if runtimeParams.Some? {
        runtimeStops := runtimeStops + 1;
        runtimeParams := None;
      }
      projectIds := [];
      projects := map[];
      listeners := map[];
      initialized := false;
    }
  }

  /** The fields stored under each key after storing `ps` one by one into a
      map with key order `keys` and contents `m`: the last project stored
      under a key wins. */
  function StoredFields(keys: seq<string>, m: map<string, ProjectFields>, ps: seq<ProjectFields>): (r: map<string, ProjectFields>)
    ensures forall k :: k in m ==> k in r
    decreases |ps|
  {
    if ps == [] then m
    else
      var k := ProjectKey(ps[0], |keys|);
      StoredFields(SetKey(keys, k), m[k := ps[0].(id := Some(k))], ps[1..])
  }

  /** After `loadConfig` the stored keys, in order, are exactly the keys of the map. */
  lemma {:induction false} StoredKeysMatchFields(keys: seq<string>, m: map<string, ProjectFields>, ps: seq<ProjectFields>)
    requires forall k :: k in m <==> k in keys
    ensures forall k :: k in StoredFields(keys, m, ps) <==> k in StoredKeys(keys, ps)
    decreases |ps|
  {
    if ps != [] {
      var k := ProjectKey(ps[0], |keys|);
      StoredKeysMatchFields(SetKey(keys, k), m[k := ps[0].(id := Some(k))], ps[1..]);
    }
  }

  /** A project given with a non-empty id that no later project shares is stored, as given, under that id. */
  lemma {:induction false} LoadedProjectKeepsId(keys: seq<string>, m: map<string, ProjectFields>, ps: seq<ProjectFields>, i: nat)
    requires i < |ps| && ps[i].id.Some? && ps[i].id.value != ""
    requires forall j :: i < j < |ps| ==> ps[j].id.Some? && ps[j].id.value != "" && ps[j].id.value != ps[i].id.value
    ensures ps[i].id.value in StoredFields(keys, m, ps)
    ensures StoredFields(keys, m, ps)[ps[i].id.value] == ps[i]
    decreases |ps|
  {
    var k := ProjectKey(ps[0], |keys|);
    assert forall j :: 0 <= j < |ps| - 1 ==> ps[1..][j] == ps[j + 1];
    if i == 0 {
      StoredFieldsKeepsUntouched(SetKey(keys, k), m[k := ps[0].(id := Some(k))], ps[1..], k);
    } else {
      LoadedProjectKeepsId(SetKey(keys, k), m[k := ps[0].(id := Some(k))], ps[1..], i - 1);
    }
  }

  /** A key that no project in `ps` is stored under keeps its entry. */
  lemma {:induction false} StoredFieldsKeepsUntouched(keys: seq<string>, m: map<string, ProjectFields>, ps: seq<ProjectFields>, key: string)
    requires key in m
    requires forall j :: 0 <= j < |ps| ==> ps[j].id.Some? && ps[j].id.value != "" && ps[j].id.value != key
    ensures StoredFields(keys, m, ps)[key] == m[key]
    decreases |ps|
  {
    if ps != [] {
      var k := ProjectKey(ps[0], |keys|);
      assert forall j :: 0 <= j < |ps| - 1 ==> ps[1..][j] == ps[j + 1];
      StoredFieldsKeepsUntouched(SetKey(keys, k), m[k := ps[0].(id := Some(k))], ps[1..], key);
    }
  }

  /** The fields of every project in a registry, by key. */
  ghost function FieldsOf(projects: map<string, ProjectConfig>): map<string, ProjectFields>
    reads set k | k in projects :: projects[k]
  {
    map k | k in projects :: projects[k].Fields()
  }

  /** Storing a project object changes the stored fields at its key only. */
  lemma FieldsOfStore(projects: map<string, ProjectConfig>, key: string, stored: ProjectConfig)
    ensures FieldsOf(projects[key := stored]) == FieldsOf(projects)[key := stored.Fields()]
  {
  }

  /** `x || undefined` on an optional string. */
  function Given(s: Option<string>): (r: Option<string>)
    ensures r.Some? <==> s.Some? && s.value != ""
    ensures r.Some? ==> r == s
  {
    if s.Some? && s.value != "" then s else None
  }

  /** A policy carries PD gains to apply: `stiffness !== undefined || damping !== undefined`. */
  predicate PDGiven(p: PolicyConfig)
    reads p
  {
    p.stiffness.Some? || p.damping.Some?
  }

  /** `{ stiffness, damping }` as `updateParams` receives it: both keys, an absent gain as `undefined`. */
  function PDUpdate(p: PolicyConfig): (u: map<string, Option<real>>)
    reads p
    ensures u.Keys == {"stiffness", "damping"}
    ensures u["stiffness"] == p.stiffness && u["damping"] == p.damping
  {
    map["stiffness" := p.stiffness, "damping" := p.damping]
  }

  /** The scene `loadConfig` selects in a project when no initial scene is given. */
  function DefaultSceneOf(project: Option<ProjectConfig>): (r: Option<string>)
    reads if project.Some? then {project.value} else {}
    ensures project.None? ==> r.None?
    ensures project.Some? && project.value.defaultScene.Some? && project.value.defaultScene.value != "" ==>
              r == project.value.defaultScene
    ensures project.Some? && (project.value.defaultScene.None? || project.value.defaultScene.value == "") ==>
              (r.Some? <==> |project.value.scenes| > 0) &&
              (r.Some? ==> r.value == project.value.scenes[0].id)
  {
    if project.None? then None
    else if project.value.defaultScene.Some? && project.value.defaultScene.value != "" then project.value.defaultScene
    else if |project.value.scenes| > 0 then Some(project.value.scenes[0].id)
    else None
  }

  lemma {:induction false} DeliveriesAppend(event: EventName, ls: seq<Listener>, l: Listener)
    ensures Deliveries(event, ls + [l]) == Deliveries(event, ls) + [Delivery(event, l, l.throws)]
  {
  }
}
