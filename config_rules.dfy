// The pure selection rules over the task/policy configuration: the default
// policy of a task, lookup by display name, the scene and metadata paths a
// task/policy pair resolves to, the test that decides whether parsed asset
// metadata calls for the Isaac action manager, and the conversion of the
// legacy `tasks` configuration into the project/scene/policy form.

module ConfigRules {
  import opened Wrappers
  import opened Text

  /** Camera placement as the configuration gives it (every part optional). */
  datatype Camera = Camera(position: Option<Vec>, target: Option<Vec>, fov: Option<real>)
  datatype Vec = Vec(x: real, y: real, z: real)

  /** A policy entry of a task. Optional fields are `None` when absent or null:
      every rule below treats `null` and `undefined` alike (`??`). */
  datatype PolicyItem = PolicyItem(
    id: string,
    name: string,
    path: Option<string>,
    kind: Option<string>,            // `type`, e.g. "trajectory"
    trajectoryPath: Option<string>,
    modelXml: Option<string>,        // overrides the task's scene
    assetMeta: Option<string>,       // overrides the task's metadata
    uiControls: Option<seq<string>>,
    showSetpoint: Option<bool>)

  datatype TaskItem = TaskItem(
    id: string,
    name: string,
    modelXml: string,
    assetMeta: Option<string>,
    camera: Option<Camera>,
    defaultPolicy: Option<string>,
    policies: seq<PolicyItem>)

  /** The configuration; a missing `tasks` list is the empty one (`tasks || []`). */
  datatype AppConfig = AppConfig(projectName: Option<string>, projectLink: Option<string>, tasks: seq<TaskItem>)

  // ---------------------------------------------------------------------------
  // Default policy

  /** `resolveDefaultPolicy`: the explicit default when one is set, else the
      first policy's id, else nothing. */
  function ResolveDefaultPolicy(task: Option<TaskItem>): (r: Option<string>)
    ensures task.None? ==> r.None?
    ensures task.Some? && task.value.defaultPolicy.Some? ==> r == task.value.defaultPolicy
    ensures task.Some? && task.value.defaultPolicy.None? && task.value.policies != [] ==>
              r == Some(task.value.policies[0].id)
    ensures r.None? <==> task.None? || (task.value.defaultPolicy.None? && task.value.policies == [])
  {
    match task
    case None => None
    case Some(t) =>
      if t.defaultPolicy.Some? then t.defaultPolicy
      else if |t.policies| > 0 then Some(t.policies[0].id)
      else None
  }

  /** The explicit default is trusted as it stands: it need not name any listed policy. */
  lemma DefaultNeedNotBeListed()
    ensures exists t: TaskItem :: ResolveDefaultPolicy(Some(t)).Some? &&
              forall p :: p in t.policies ==> Some(p.id) != ResolveDefaultPolicy(Some(t))
  {
    var t := TaskItem("t", "T", "scene.xml", None, None, Some("ghost"), []);
    assert ResolveDefaultPolicy(Some(t)) == Some("ghost");
  }

  // ---------------------------------------------------------------------------
  // Lookup by name, case-insensitively, first match

  /** Index of the first task whose name matches `name` ignoring case, or -1. */
  function TaskIndexByName(tasks: seq<TaskItem>, name: string): (k: int)
    ensures -1 <= k < |tasks|
    ensures k >= 0 ==> SameIgnoringCase(tasks[k].name, name)
    ensures forall j :: 0 <= j < |tasks| && (k < 0 || j < k) ==> !SameIgnoringCase(tasks[j].name, name)
  {
    if tasks == [] then -1
    else if SameIgnoringCase(tasks[0].name, name) then 0
    else
      var k := TaskIndexByName(tasks[1..], name);
      if k < 0 then -1 else k + 1
  }

  /** `findTaskByName`: the first task named `name` up to case, or nothing. */
  function FindTaskByName(config: AppConfig, name: string): (r: Option<TaskItem>)
    ensures r.Some? ==> (exists k :: 0 <= k < |config.tasks| && r.value == config.tasks[k] &&
                           SameIgnoringCase(config.tasks[k].name, name) &&
                           forall j :: 0 <= j < k ==> !SameIgnoringCase(config.tasks[j].name, name))
    ensures r.None? <==> forall t :: t in config.tasks ==> !SameIgnoringCase(t.name, name)
  {
    var k := TaskIndexByName(config.tasks, name);
    if k >= 0 then Some(config.tasks[k]) else None
  }

  /** Index of the first policy whose name matches `name` ignoring case, or -1. */
  function PolicyIndexByName(policies: seq<PolicyItem>, name: string): (k: int)
    ensures -1 <= k < |policies|
    ensures k >= 0 ==> SameIgnoringCase(policies[k].name, name)
    ensures forall j :: 0 <= j < |policies| && (k < 0 || j < k) ==> !SameIgnoringCase(policies[j].name, name)
  {
    if policies == [] then -1
    else if SameIgnoringCase(policies[0].name, name) then 0
    else
      var k := PolicyIndexByName(policies[1..], name);
      if k < 0 then -1 else k + 1
  }

  /** `findPolicyByName`: the first policy of the task named `name` up to case, or nothing. */
  function FindPolicyByName(task: TaskItem, name: string): (r: Option<PolicyItem>)
    ensures r.Some? ==> (exists k :: 0 <= k < |task.policies| && r.value == task.policies[k] &&
                           SameIgnoringCase(task.policies[k].name, name) &&
                           forall j :: 0 <= j < k ==> !SameIgnoringCase(task.policies[j].name, name))
    ensures r.None? <==> forall p :: p in task.policies ==> !SameIgnoringCase(p.name, name)
  {
    var k := PolicyIndexByName(task.policies, name);
    if k >= 0 then Some(task.policies[k]) else None
  }

  // ---------------------------------------------------------------------------
  // Scene and metadata paths

  datatype ScenePaths = ScenePaths(scenePath: Option<string>, metaPath: Option<string>)

  /** `metaRaw === 'null' || metaRaw === '' ? null : metaRaw`. */
  function NormaliseMeta(raw: Option<string>): (r: Option<string>)
    ensures r.Some? ==> r == raw && r.value != "null" && r.value != ""
    ensures raw.Some? && raw.value != "null" && raw.value != "" ==> r == raw
  {
    if raw == Some("null") || raw == Some("") then None else raw
  }

  /** `resolveSceneConfig`: a policy's own scene and metadata override the task's. */
  function ResolveSceneConfig(task: Option<TaskItem>, policy: Option<PolicyItem>): (r: ScenePaths)
    ensures task.None? ==> r == ScenePaths(None, None)
    ensures task.Some? && policy.Some? && policy.value.modelXml.Some? ==> r.scenePath == policy.value.modelXml
    ensures task.Some? && (policy.None? || policy.value.modelXml.None?) ==> r.scenePath == Some(task.value.modelXml)
    ensures r.metaPath.Some? ==> r.metaPath.value != "null" && r.metaPath.value != ""
    ensures task.Some? && policy.Some? && policy.value.assetMeta.Some? ==>
              r.metaPath == NormaliseMeta(policy.value.assetMeta)
    ensures task.Some? && (policy.None? || policy.value.assetMeta.None?) ==>
              r.metaPath == NormaliseMeta(task.value.assetMeta)
  {
    match task
    case None => ScenePaths(None, None)
    case Some(t) =>
      var scene := if policy.Some? && policy.value.modelXml.Some? then policy.value.modelXml else Some(t.modelXml);
      var raw := if policy.Some? && policy.value.assetMeta.Some? then policy.value.assetMeta else t.assetMeta;
      ScenePaths(scene, NormaliseMeta(raw))
  }

  /** An empty policy override is an override: `??` only falls through on null. */
  lemma EmptySceneOverrideWins(t: TaskItem, p: PolicyItem)
    requires p.modelXml == Some("")
    ensures ResolveSceneConfig(Some(t), Some(p)).scenePath == Some("")
  {
  }

  /** A policy metadata of `'null'` hides the task's metadata instead of falling back to it. */
  lemma NullMetaOverrideHidesTask(t: TaskItem, p: PolicyItem)
    requires p.assetMeta == Some("null")
    ensures ResolveSceneConfig(Some(t), Some(p)).metaPath.None?
  {
  }

  /** `hasAssetMeta`: `Boolean(metaPath)`, a present, non-empty string. */
  predicate HasAssetMeta(metaPath: Option<string>) {
    metaPath.Some? && metaPath.value != ""
  }

  /** Every metadata path `ResolveSceneConfig` yields passes `hasAssetMeta`. */
  lemma ResolvedMetaIsUsable(task: Option<TaskItem>, policy: Option<PolicyItem>)
    ensures ResolveSceneConfig(task, policy).metaPath.Some? <==> HasAssetMeta(ResolveSceneConfig(task, policy).metaPath)
  {
  }

  // ---------------------------------------------------------------------------
  // Does the metadata call for the Isaac action manager?

  /** Parsed JSON. Arrays are dense, objects keep their keys. */
  datatype Json =
    | JNull
    | JBool(b: bool)
    | JNumber(x: real)
    | JString(s: string)
    | JArray(items: seq<Json>)
    | JObject(fields: map<string, Json>)

  /** JavaScript truthiness (a NaN number is not representable here). */
  predicate Truthy(v: Json) {
    match v
    case JNull => false
    case JBool(b) => b
    case JNumber(x) => x != 0.0
    case JString(s) => s != ""
    case _ => true
  }

  /** `typeof v === 'object'` for a non-null value: arrays and objects. */
  predicate IsObject(v: Json) {
    v.JArray? || v.JObject?
  }

  /** `meta.key`; `None` stands for `undefined` (arrays carry no such named key). */
  function Field(meta: Json, key: string): Option<Json> {
    if meta.JObject? && key in meta.fields then Some(meta.fields[key]) else None
  }

  /** `Array.isArray(v) && v.length > 0`. */
  predicate NonEmptyArray(v: Option<Json>) {
    v.Some? && v.value.JArray? && |v.value.items| > 0
  }

  /** `v && typeof v === 'object' && Object.keys(v).length > 0`. */
  predicate HasKeys(v: Option<Json>) {
    v.Some? && Truthy(v.value) && IsObject(v.value) &&
    (if v.value.JArray? then |v.value.items| > 0 else |v.value.fields| > 0)
  }

  /** How fetching and parsing the metadata file ended. */
  datatype MetaFetch = FetchThrows | NotOk | ParseThrows | Parsed(value: Json)

  /** `needsIsaacActionManager` (and the same test inline in `ensureActionManager`):
      every failure, from a missing path to an unparsable body, gives false. */
  predicate NeedsIsaac(metaPath: Option<string>, fetched: MetaFetch) {
    HasAssetMeta(metaPath) && fetched.Parsed? &&
    var meta := fetched.value;
    Truthy(meta) && IsObject(meta) &&
    (NonEmptyArray(Field(meta, "joint_names_isaac")) ||
     HasKeys(Field(meta, "actuators")) ||
     NonEmptyArray(Field(meta, "default_joint_pos")))
  }

  /** The rule in the metadata's own terms: an object document with a non-empty
      Isaac joint list, a non-empty actuator table or a non-empty default pose. */
  lemma NeedsIsaacSpec(metaPath: Option<string>, fetched: MetaFetch)
    ensures NeedsIsaac(metaPath, fetched) <==>
      metaPath.Some? && metaPath.value != "" && fetched.Parsed? && fetched.value.JObject? &&
      var f := fetched.value.fields;
      (("joint_names_isaac" in f && f["joint_names_isaac"].JArray? && f["joint_names_isaac"].items != []) ||
       ("actuators" in f && ((f["actuators"].JObject? && f["actuators"].fields != map[]) ||
                             (f["actuators"].JArray? && f["actuators"].items != []))) ||
       ("default_joint_pos" in f && f["default_joint_pos"].JArray? && f["default_joint_pos"].items != []))
  {
    if NeedsIsaac(metaPath, fetched) {
      var f := fetched.value.fields;
      if HasKeys(Field(fetched.value, "actuators")) && f["actuators"].JObject? {
        assert |f["actuators"].fields| > 0;
      }
    } else if metaPath.Some? && metaPath.value != "" && fetched.Parsed? && fetched.value.JObject? {
      var f := fetched.value.fields;
      if "actuators" in f && f["actuators"].JObject? && f["actuators"].fields != map[] {
        var k :| k in f["actuators"].fields;
        assert |f["actuators"].fields| > 0;
        assert HasKeys(Field(fetched.value, "actuators"));
      }
    }
  }

  /** A top-level array is an object to `typeof` but has none of the three keys. */
  lemma ArrayDocumentNeverNeedsIsaac(metaPath: Option<string>, items: seq<Json>)
    ensures !NeedsIsaac(metaPath, Parsed(JArray(items)))
  {
  }

  /** A string `actuators` has keys to `Object.keys` but is not an object, so it does not count. */
  lemma StringActuatorsDoNotCount(metaPath: Option<string>, s: string)
    requires s != ""
    ensures !NeedsIsaac(metaPath, Parsed(JObject(map["actuators" := JString(s)])))
  {
  }

  // ---------------------------------------------------------------------------
  // Legacy configuration conversion

  datatype LegacyPolicy = LegacyPolicy(id: string, name: string, path: Option<string>,
                                       modelXml: Option<string>, assetMeta: Option<string>,
                                       uiControls: Option<seq<string>>)
  datatype LegacyTask = LegacyTask(id: string, name: string, modelXml: string, assetMeta: Option<string>,
                                   camera: Option<Camera>, defaultPolicy: Option<string>,
                                   policies: seq<LegacyPolicy>)
  datatype LegacyConfig = LegacyConfig(projectName: Option<string>, projectLink: Option<string>,
                                       tasks: seq<LegacyTask>)

  /** The fields of a project-form policy that the conversion can fill; the
      others (`onnx`, `obs_config`, gains, ...) stay absent. */
  datatype ApiPolicy = ApiPolicy(id: string, name: string, path: Option<string>,
                                 modelXml: Option<string>, assetMeta: Option<string>,
                                 uiControls: Option<seq<string>>)
  datatype ApiScene = ApiScene(id: string, name: string, modelXml: string, assetMeta: Option<string>,
                               camera: Option<Camera>, defaultPolicy: Option<string>,
                               policies: seq<ApiPolicy>)
  datatype ApiProject = ApiProject(id: Option<string>, projectName: Option<string>, projectLink: Option<string>,
                                   scenes: seq<ApiScene>, defaultScene: Option<string>)

  function ConvertPolicy(p: LegacyPolicy): (r: ApiPolicy)
    ensures r.id == p.id && r.name == p.name && r.path == p.path
    ensures r.modelXml == p.modelXml && r.assetMeta == p.assetMeta && r.uiControls == p.uiControls
  {
    ApiPolicy(p.id, p.name, p.path, p.modelXml, p.assetMeta, p.uiControls)
  }

  function ConvertPolicies(ps: seq<LegacyPolicy>): (r: seq<ApiPolicy>)
    ensures |r| == |ps|
    ensures forall i :: 0 <= i < |ps| ==> r[i] == ConvertPolicy(ps[i])
  {
    if ps == [] then [] else [ConvertPolicy(ps[0])] + ConvertPolicies(ps[1..])
  }

  function ConvertTask(t: LegacyTask): (r: ApiScene)
    ensures r.id == t.id && r.name == t.name && r.modelXml == t.modelXml && r.assetMeta == t.assetMeta
    ensures r.camera == t.camera && r.defaultPolicy == t.defaultPolicy
    ensures |r.policies| == |t.policies|
  {
    ApiScene(t.id, t.name, t.modelXml, t.assetMeta, t.camera, t.defaultPolicy, ConvertPolicies(t.policies))
  }

  function ConvertTasks(ts: seq<LegacyTask>): (r: seq<ApiScene>)
    ensures |r| == |ts|
    ensures forall i :: 0 <= i < |ts| ==> r[i] == ConvertTask(ts[i])
  {
    if ts == [] then [] else [ConvertTask(ts[0])] + ConvertTasks(ts[1..])
  }

  /** `convertLegacyConfig`. */
  function ConvertLegacyConfig(legacy: LegacyConfig): (r: ApiProject)
    ensures r.id.None? && r.defaultScene.None?
    ensures r.projectName == legacy.projectName && r.projectLink == legacy.projectLink
    ensures |r.scenes| == |legacy.tasks|
  {
    ApiProject(None, legacy.projectName, legacy.projectLink, ConvertTasks(legacy.tasks), None)
  }

  /** Scene `i` is task `i`, field by field, and its policies are the task's, one
      for one in the same order. */
  lemma ConvertLegacyKeepsOrder(legacy: LegacyConfig, i: nat, j: nat)
    requires i < |legacy.tasks| && j < |legacy.tasks[i].policies|
    ensures var s := ConvertLegacyConfig(legacy).scenes[i]; var t := legacy.tasks[i];
      s.id == t.id && s.name == t.name && s.modelXml == t.modelXml && s.assetMeta == t.assetMeta &&
      s.camera == t.camera && s.defaultPolicy == t.defaultPolicy &&
      |s.policies| == |t.policies| &&
      s.policies[j].id == t.policies[j].id && s.policies[j].name == t.policies[j].name &&
      s.policies[j].path == t.policies[j].path && s.policies[j].modelXml == t.policies[j].modelXml &&
      s.policies[j].assetMeta == t.policies[j].assetMeta && s.policies[j].uiControls == t.policies[j].uiControls
  {
  }

  /** The conversion loses nothing: the legacy configuration can be read back from it. */
  function RecoverLegacy(p: ApiProject): LegacyConfig {
    LegacyConfig(p.projectName, p.projectLink, RecoverTasks(p.scenes))
  }

  function RecoverTasks(ss: seq<ApiScene>): seq<LegacyTask> {
    if ss == [] then [] else
      [LegacyTask(ss[0].id, ss[0].name, ss[0].modelXml, ss[0].assetMeta, ss[0].camera,
                  ss[0].defaultPolicy, RecoverPolicies(ss[0].policies))] + RecoverTasks(ss[1..])
  }

  function RecoverPolicies(ps: seq<ApiPolicy>): seq<LegacyPolicy> {
    if ps == [] then [] else
      [LegacyPolicy(ps[0].id, ps[0].name, ps[0].path, ps[0].modelXml, ps[0].assetMeta, ps[0].uiControls)]
      + RecoverPolicies(ps[1..])
  }

  lemma {:induction false} RecoverPoliciesInverse(ps: seq<LegacyPolicy>)
    ensures RecoverPolicies(ConvertPolicies(ps)) == ps
  {
    if ps != [] {
      RecoverPoliciesInverse(ps[1..]);
      assert ConvertPolicies(ps)[1..] == ConvertPolicies(ps[1..]);
    }
  }

  lemma {:induction false} RecoverTasksInverse(ts: seq<LegacyTask>)
    ensures RecoverTasks(ConvertTasks(ts)) == ts
  {
    if ts != [] {
      RecoverTasksInverse(ts[1..]);
      RecoverPoliciesInverse(ts[0].policies);
      assert ConvertTasks(ts)[1..] == ConvertTasks(ts[1..]);
    }
  }

  lemma ConvertLegacyRoundTrip(legacy: LegacyConfig)
    ensures RecoverLegacy(ConvertLegacyConfig(legacy)) == legacy
  {
    RecoverTasksInverse(legacy.tasks);
  }
}
