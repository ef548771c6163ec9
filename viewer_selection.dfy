// The viewer's scene/policy selection: the configuration refs `useConfig`
// fills from the URL parameters, and the selection and wrap-around
// navigation `useScenePolicy` performs on the same refs.

module ViewerConfig {
  import opened Wrappers
  import opened ConfigRules

  /** A URL parameter that counts: present and not empty (`if (sceneParam)`). */
  predicate Given(p: Option<string>) {
    p.Some? && p.value != ""
  }

  /** `warnings.join(sep)`. */
  function JoinWith(parts: seq<string>, sep: string): (r: string)
    ensures parts == [] ==> r == ""
    ensures |parts| == 1 ==> r == parts[0]
  {
    if parts == [] then "" else if |parts| == 1 then parts[0] else parts[0] + sep + JoinWith(parts[1..], sep)
  }

  /** Number of occurrences of `c` in `s`. */
  function CountChar(s: string, c: char): (n: nat)
    ensures n <= |s|
    ensures n == 0 <==> c !in s
  {
    if s == [] then 0 else (if s[0] == c then 1 else 0) + CountChar(s[1..], c)
  }

  lemma {:induction false} CountCharAppend(a: string, b: string, c: char)
    ensures CountChar(a + b, c) == CountChar(a, c) + CountChar(b, c)
  {
    if a != [] {
      assert (a + b)[0] == a[0];
      assert (a + b)[1..] == a[1..] + b;
      CountCharAppend(a[1..], b, c);
      assert CountChar(a + b, c) == (if a[0] == c then 1 else 0) + CountChar(a[1..] + b, c);
    } else {
      assert a + b == b;
    }
  }

  /** The quote character. */
  const Quote: char := '"'

  function SceneWarning(sceneParam: string): string {
    "Scene " + [Quote] + sceneParam + [Quote] + " not found"
  }

  /** The policy warning as the source pushes it: the scene name is opened with
      a quote that is never closed. */
  function PolicyWarningAsWritten(policyParam: string, sceneName: string): string {
    "Policy " + [Quote] + policyParam + [Quote] + " not found for scene " + [Quote] + sceneName
  }

  /** The policy warning with its closing quote, as the console message next to it has. */
  function PolicyWarning(policyParam: string, sceneName: string): string {
    PolicyWarningAsWritten(policyParam, sceneName) + [Quote]
  }

  /** The quote count of the as-written warning, from its pieces. */
  lemma PolicyWarningQuotes(policyParam: string, sceneName: string)
    ensures CountChar(PolicyWarningAsWritten(policyParam, sceneName), Quote) ==
              3 + CountChar(policyParam, Quote) + CountChar(sceneName, Quote)
  {
    var q := [Quote];
    var head, middle := "Policy ", " not found for scene ";
    assert CountChar(q, Quote) == 1;
    assert Quote !in head && Quote !in middle;
    var a := head + q;
    var b := a + policyParam;
    var c := b + q;
    var d := c + middle;
    var e := d + q;
    assert PolicyWarningAsWritten(policyParam, sceneName) == e + sceneName;
    CountCharAppend(head, q, Quote);
    CountCharAppend(a, policyParam, Quote);
    CountCharAppend(b, q, Quote);
    CountCharAppend(c, middle, Quote);
    CountCharAppend(d, q, Quote);
    CountCharAppend(e, sceneName, Quote);
  }

  /** For names without quotes the pushed warning has three quote characters: one is unmatched. */
  lemma PolicyWarningAsWrittenUnbalanced(policyParam: string, sceneName: string)
    requires Quote !in policyParam && Quote !in sceneName
    ensures CountChar(PolicyWarningAsWritten(policyParam, sceneName), Quote) == 3
  {
    PolicyWarningQuotes(policyParam, sceneName);
  }

  /** The corrected warning quotes both names: four quote characters, two pairs. */
  lemma PolicyWarningBalanced(policyParam: string, sceneName: string)
    requires Quote !in policyParam && Quote !in sceneName
    ensures CountChar(PolicyWarning(policyParam, sceneName), Quote) == 4
  {
    PolicyWarningQuotes(policyParam, sceneName);
    assert CountChar([Quote], Quote) == 1;
    CountCharAppend(PolicyWarningAsWritten(policyParam, sceneName), [Quote], Quote);
  }

  /** The task the URL selects: the first task named like the `scene` parameter,
      else the first task. */
  function SceneChoice(config: AppConfig, sceneParam: Option<string>): (r: Option<TaskItem>)
    ensures r.None? <==> config.tasks == []
    ensures r.Some? ==> r.value in config.tasks
    ensures Given(sceneParam) && FindTaskByName(config, sceneParam.value).Some? ==>
              r == FindTaskByName(config, sceneParam.value)
    ensures config.tasks != [] && (!Given(sceneParam) || FindTaskByName(config, sceneParam.value).None?) ==>
              r == Some(config.tasks[0])
  {
    var found := if Given(sceneParam) then FindTaskByName(config, sceneParam.value) else None;
    if found.Some? then found else if config.tasks != [] then Some(config.tasks[0]) else None
  }

  /** Whether the `policy` parameter is looked up at all: given, and the task has policies. */
  predicate PolicyLookedUp(task: Option<TaskItem>, policyParam: Option<string>) {
    Given(policyParam) && task.Some? && task.value.policies != []
  }

  /** The policy the URL selects: the matched policy's id, else the task's default. */
  function PolicyChoice(task: Option<TaskItem>, policyParam: Option<string>): (r: Option<string>)
    ensures r.Some? ==> task.Some?
    ensures PolicyLookedUp(task, policyParam) && FindPolicyByName(task.value, policyParam.value).Some? ==>
              r == Some(FindPolicyByName(task.value, policyParam.value).value.id) &&
              exists p :: p in task.value.policies && p.id == r.value && SameIgnoringCaseName(p, policyParam.value)
    ensures !(PolicyLookedUp(task, policyParam) && FindPolicyByName(task.value, policyParam.value).Some?) ==>
              r == ResolveDefaultPolicy(task)
  {
    if PolicyLookedUp(task, policyParam) && FindPolicyByName(task.value, policyParam.value).Some? then
      Some(FindPolicyByName(task.value, policyParam.value).value.id)
    else ResolveDefaultPolicy(task)
  }

  predicate SameIgnoringCaseName(p: PolicyItem, name: string) {
    Text.SameIgnoringCase(p.name, name)
  }

  /** The warnings `loadConfig` collects: an unmatched scene, then an unmatched policy. */
  function Warnings(config: AppConfig, sceneParam: Option<string>, policyParam: Option<string>): (r: seq<string>)
    ensures var sceneMissed := Given(sceneParam) && FindTaskByName(config, sceneParam.value).None?;
            var t := SceneChoice(config, sceneParam);
            var policyMissed := PolicyLookedUp(t, policyParam) && FindPolicyByName(t.value, policyParam.value).None?;
            && |r| == (if sceneMissed then 1 else 0) + (if policyMissed then 1 else 0)
            && (sceneMissed ==> r[0] == SceneWarning(sceneParam.value))
            && (policyMissed ==> r[|r| - 1] == PolicyWarningAsWritten(policyParam.value, t.value.name))
  {
    var t := SceneChoice(config, sceneParam);
    var sceneMissed := Given(sceneParam) && FindTaskByName(config, sceneParam.value).None?;
    var policyMissed := PolicyLookedUp(t, policyParam) && FindPolicyByName(t.value, policyParam.value).None?;
    (if sceneMissed then [SceneWarning(sceneParam.value)] else []) +
    (if policyMissed then [PolicyWarningAsWritten(policyParam.value, t.value.name)] else [])
  }

  /** Whether the policy parameter was looked up in the chosen task and matched none of its policies. */
  predicate PolicyMissed(config: AppConfig, sceneParam: Option<string>, policyParam: Option<string>) {
    var t := SceneChoice(config, sceneParam);
    PolicyLookedUp(t, policyParam) && FindPolicyByName(t.value, policyParam.value).None?
  }

  /** The warnings with the policy warning's scene name closed by a quote. */
  function CorrectedWarnings(config: AppConfig, sceneParam: Option<string>, policyParam: Option<string>): (r: seq<string>)
    ensures |r| == |Warnings(config, sceneParam, policyParam)|
  {
    var w := Warnings(config, sceneParam, policyParam);
    if PolicyMissed(config, sceneParam, policyParam) then
      w[..|w| - 1] + [PolicyWarning(policyParam.value, SceneChoice(config, sceneParam).value.name)]
    else w
  }

  /** The scene warning quotes its name: two quotes plus those inside the name. */
  lemma SceneWarningQuotes(sceneParam: string)
    ensures CountChar(SceneWarning(sceneParam), Quote) == 2 + CountChar(sceneParam, Quote)
  {
    var q := [Quote];
    var head, tail := "Scene ", " not found";
    assert CountChar(q, Quote) == 1;
    assert Quote !in head && Quote !in tail;
    var a := head + q;
    var b := a + sceneParam;
    var c := b + q;
    assert SceneWarning(sceneParam) == c + tail;
    CountCharAppend(head, q, Quote);
    CountCharAppend(a, sceneParam, Quote);
    CountCharAppend(b, q, Quote);
    CountCharAppend(c, tail, Quote);
  }

  /** With names free of quotes, the last warning of an unmatched policy
      parameter holds three quotes: the message `loadConfig` builds is unbalanced. */
  lemma WarningsUnbalanced(config: AppConfig, sceneParam: Option<string>, policyParam: Option<string>)
    requires PolicyMissed(config, sceneParam, policyParam)
    requires Quote !in policyParam.value && Quote !in SceneChoice(config, sceneParam).value.name
    ensures var w := Warnings(config, sceneParam, policyParam); w != [] && CountChar(w[|w| - 1], Quote) == 3
  {
    PolicyWarningAsWrittenUnbalanced(policyParam.value, SceneChoice(config, sceneParam).value.name);
  }

  /** A scene warning for a name free of quotes holds an even number of them. */
  lemma SceneWarningEven(sceneParam: string)
    requires Quote !in sceneParam
    ensures CountChar(SceneWarning(sceneParam), Quote) % 2 == 0
  {
    SceneWarningQuotes(sceneParam);
  }

  /** A corrected policy warning for names free of quotes holds an even number of them. */
  lemma PolicyWarningEven(policyParam: string, sceneName: string)
    requires Quote !in policyParam && Quote !in sceneName
    ensures CountChar(PolicyWarning(policyParam, sceneName), Quote) % 2 == 0
  {
    var n := CountChar(PolicyWarning(policyParam, sceneName), Quote);
    PolicyWarningBalanced(policyParam, sceneName);
    assert n == 4;
  }

  /** With names free of quotes, every corrected warning holds an even number
      of quotes: each quoted name is closed. */
  lemma CorrectedWarningsBalanced(config: AppConfig, sceneParam: Option<string>, policyParam: Option<string>)
    requires sceneParam.Some? ==> Quote !in sceneParam.value
    requires policyParam.Some? ==> Quote !in policyParam.value
    requires forall t :: t in config.tasks ==> Quote !in t.name
    ensures var r := CorrectedWarnings(config, sceneParam, policyParam);
            forall i :: 0 <= i < |r| ==> CountChar(r[i], Quote) % 2 == 0
  {
    var w := Warnings(config, sceneParam, policyParam);
    var r := CorrectedWarnings(config, sceneParam, policyParam);
    var t := SceneChoice(config, sceneParam);
    var sceneMissed := Given(sceneParam) && FindTaskByName(config, sceneParam.value).None?;
    var policyMissed := PolicyMissed(config, sceneParam, policyParam);
    forall i | 0 <= i < |r| ensures CountChar(r[i], Quote) % 2 == 0 {
      if policyMissed && i == |r| - 1 {
        assert r[i] == PolicyWarning(policyParam.value, t.value.name);
        PolicyWarningEven(policyParam.value, t.value.name);
      } else {
        assert r[i] == w[i];
        assert i == 0 && sceneMissed;
        SceneWarningEven(sceneParam.value);
      }
    }
  }

  /** Name of the first policy of `task` whose id is `policy`, else "default". */
  function DefaultPolicyName(task: TaskItem, policy: Option<string>): (r: string)
    ensures r != "default" ==> exists p :: p in task.policies && Some(p.id) == policy && p.name == r
  {
    DefaultPolicyNameFrom(task.policies, policy)
  }

  function DefaultPolicyNameFrom(policies: seq<PolicyItem>, policy: Option<string>): (r: string)
    ensures r != "default" ==> exists p :: p in policies && Some(p.id) == policy && p.name == r
  {
    if policies == [] then "default"
    else if Some(policies[0].id) == policy then policies[0].name
    else DefaultPolicyNameFrom(policies[1..], policy)
  }

  /** The message shown when a URL parameter was not honoured. */
  function ErrorMessage(task: Option<TaskItem>, policy: Option<string>, warnings: seq<string>): (r: string)
    ensures r == "" <==> warnings == [] || task.None?
  {
    if warnings != [] && task.Some? then
      JoinWith(warnings, ". ") + ".\n\nLoading default: " + task.value.name + " - " + DefaultPolicyName(task.value, policy)
    else ""
  }

  /** The refs `useConfig` returns: the configuration, the selected task and
      policy ids and the URL parameter error message. */
  class ConfigRefs {
    var config: AppConfig
    var task: Option<string>
    var policy: Option<string>
    var urlParamErrorMessage: string

    constructor()
      ensures config == AppConfig(None, None, []) && task.None? && policy.None? && urlParamErrorMessage == ""
    {
      config := AppConfig(None, None, []);
      task := None;
      policy := None;
      urlParamErrorMessage := "";
    }

    /** `loadConfig`: `source` is the fetched (or given) configuration, `None`
        when fetching or parsing failed, in which case the error is passed on
        and nothing is assigned. The `scene`/`policy` URL parameters are inputs. */
    method LoadConfig(source: Option<AppConfig>, sceneParam: Option<string>, policyParam: Option<string>)
      returns (ok: bool)
      modifies this
      ensures ok <==> source.Some?
      ensures !ok ==> unchanged(this)
      ensures ok ==> config == source.value
      ensures ok ==> var t := SceneChoice(config, sceneParam);
        && task == (if t.Some? then Some(t.value.id) else None)
        && policy == PolicyChoice(t, policyParam)
        && urlParamErrorMessage == ErrorMessage(t, policy, Warnings(config, sceneParam, policyParam))
    {
      if source.None? {
        return false;
      }
      config := source.value;
      var selected, sceneWarnings := ChooseScene(config, sceneParam);
      task := if selected.Some? then Some(selected.value.id) else None;
      var chosen, policyWarnings := ChoosePolicy(selected, policyParam);
      policy := chosen;
      urlParamErrorMessage := ErrorMessage(selected, policy, sceneWarnings + policyWarnings);
      ok := true;
    }
  }

  /** The task part of `loadConfig`: the task the `scene` parameter names,
      else the first task, with a warning when a given name matched none. */
  method ChooseScene(config: AppConfig, sceneParam: Option<string>) returns (selected: Option<TaskItem>, warnings: seq<string>)
    ensures selected == SceneChoice(config, sceneParam)
    ensures warnings == if Given(sceneParam) && FindTaskByName(config, sceneParam.value).None?
                        then [SceneWarning(sceneParam.value)] else []
  {
    selected := None;
    warnings := [];
    if Given(sceneParam) {
      selected := FindTaskByName(config, sceneParam.value);
      if selected.None? {
        warnings := warnings + [SceneWarning(sceneParam.value)];
      }
    }
    if selected.None? {
      selected := if config.tasks != [] then Some(config.tasks[0]) else None;
    }
  }

  /** The policy part of `loadConfig`: the policy the `policy` parameter
      names in the selected task, else the task's default, with a warning
      when a looked-up name matched none. */
  method ChoosePolicy(selected: Option<TaskItem>, policyParam: Option<string>) returns (policy: Option<string>, warnings: seq<string>)
    ensures policy == PolicyChoice(selected, policyParam)
    ensures warnings == if PolicyLookedUp(selected, policyParam) && FindPolicyByName(selected.value, policyParam.value).None?
                        then [PolicyWarningAsWritten(policyParam.value, selected.value.name)] else []
  {
    var selectedPolicyId: Option<string> := None;
    warnings := [];
    if Given(policyParam) && selected.Some? && |selected.value.policies| > 0 {
      var found := FindPolicyByName(selected.value, policyParam.value);
      if found.Some? {
        selectedPolicyId := Some(found.value.id);
      } else {
        warnings := warnings + [PolicyWarningAsWritten(policyParam.value, selected.value.name)];
      }
    }
    policy := if selectedPolicyId.Some? then selectedPolicyId else ResolveDefaultPolicy(selected);
  }

  /** A scene parameter naming an existing task selects it, with no message
      unless the policy parameter then misses. */
  lemma MatchedSceneIsSelected(config: AppConfig, sceneParam: string, policyParam: Option<string>)
    requires sceneParam != "" && FindTaskByName(config, sceneParam).Some?
    ensures SceneChoice(config, Some(sceneParam)) == FindTaskByName(config, sceneParam)
    ensures !PolicyLookedUp(SceneChoice(config, Some(sceneParam)), policyParam) ==>
              ErrorMessage(SceneChoice(config, Some(sceneParam)),
                           PolicyChoice(SceneChoice(config, Some(sceneParam)), policyParam),
                           Warnings(config, Some(sceneParam), policyParam)) == ""
  {
    var w := Warnings(config, Some(sceneParam), policyParam);
    if w != [] {
      assert w[|w| - 1] == w[0];
    }
  }
}

module ScenePolicy {
  import opened Wrappers
  import opened Text
  import opened ConfigRules
  import ViewerConfig

  function TaskIds(tasks: seq<TaskItem>): (r: seq<string>)
    ensures |r| == |tasks| && forall i :: 0 <= i < |tasks| ==> r[i] == tasks[i].id
  {
    if tasks == [] then [] else [tasks[0].id] + TaskIds(tasks[1..])
  }

  function PolicyIds(policies: seq<PolicyItem>): (r: seq<string>)
    ensures |r| == |policies| && forall i :: 0 <= i < |policies| ==> r[i] == policies[i].id
  {
    if policies == [] then [] else [policies[0].id] + PolicyIds(policies[1..])
  }

  /** `findIndex(x => x.id === id)`: the first position holding `id`, or -1
      (a null id matches nothing). */
  function IndexOfId(ids: seq<string>, id: Option<string>): (k: int)
    ensures -1 <= k < |ids|
    ensures k >= 0 ==> Some(ids[k]) == id
    ensures forall j :: 0 <= j < |ids| && (k < 0 || j < k) ==> Some(ids[j]) != id
  {
    if ids == [] then -1
    else if Some(ids[0]) == id then 0
    else
      var k := IndexOfId(ids[1..], id);
      if k < 0 then -1 else k + 1
  }

  /** With distinct ids, the first position holding an id is its only position. */
  lemma IndexOfDistinct(ids: seq<string>, i: nat)
    requires Distinct(ids) && i < |ids|
    ensures IndexOfId(ids, Some(ids[i])) == i
  {
  }

  /** One step of `navigateScene`/`navigatePolicy`: `current + direction`, with
      -1 wrapping to the last index and `n` wrapping to 0. */
  function WrapIndex(i: int, direction: int, n: int): (r: int)
    requires 0 <= i < n && (direction == 1 || direction == -1)
    ensures 0 <= r < n
    ensures r == (i + direction) % n
  {
    var next := i + direction;
    if next < 0 then n - 1 else if next >= n then 0 else next
  }

  /** Stepping forward then back (or back then forward) returns to the start. */
  lemma WrapRoundTrip(i: int, n: int)
    requires 0 <= i < n
    ensures WrapIndex(WrapIndex(i, 1, n), -1, n) == i
    ensures WrapIndex(WrapIndex(i, -1, n), 1, n) == i
  {
  }

  /** The id `direction` steps away from `current` in `ids`; `None` when the
      list is empty or `current` is not in it. */
  function StepId(ids: seq<string>, current: Option<string>, direction: int): (r: Option<string>)
    requires direction == 1 || direction == -1
    ensures r.Some? ==> r.value in ids && current.Some? && current.value in ids
    ensures r.None? <==> current.None? || current.value !in ids
  {
    var k := IndexOfId(ids, current);
    if ids == [] || k < 0 then None else Some(ids[WrapIndex(k, direction, |ids|)])
  }

  /** With distinct ids, navigating forward then backward comes back to where it started. */
  lemma {:induction false} StepRoundTrip(ids: seq<string>, x: string)
    requires Distinct(ids) && x in ids
    ensures StepId(ids, StepId(ids, Some(x), 1), -1) == Some(x)
    ensures StepId(ids, StepId(ids, Some(x), -1), 1) == Some(x)
  {
    var k := IndexOfId(ids, Some(x));
    var n := |ids|;
    var f := WrapIndex(k, 1, n);
    var b := WrapIndex(k, -1, n);
    IndexOfDistinct(ids, f);
    IndexOfDistinct(ids, b);
    WrapRoundTrip(k, n);
  }

  /** Without distinct ids the round trip can fail: in `[a, b, a]` a step forward
      from `b` reaches the last `a`, whose id is found first at position 0, so the
      step back wraps to position 2 and yields `a` again instead of `b`. */
  lemma DuplicateIdsBreakRoundTrip()
    ensures StepId(["a", "b", "a"], StepId(["a", "b", "a"], Some("b"), 1), -1) == Some("a")
    ensures StepId(["a", "b", "a"], Some("a"), 1) == Some("b")
  {
    assert IndexOfId(["a", "b", "a"], Some("b")) == 1;
    assert IndexOfId(["a", "b", "a"], Some("a")) == 0;
  }

  /** What the callbacks `onTaskChange`/`onPolicyChange` are handed, in call order. */
  datatype Change =
    | TaskChanged(task: TaskItem, defaultPolicy: Option<PolicyItem>)
    | PolicyChanged(task: TaskItem, policy: PolicyItem)

  /** The policy `selectTask` picks for a task: the default id, kept only if it
      names a listed policy. */
  function DefaultListedPolicy(t: TaskItem): (r: Option<PolicyItem>)
    ensures r.Some? ==> r.value in t.policies && Some(r.value.id) == ResolveDefaultPolicy(Some(t))
    ensures r.None? <==> forall p :: p in t.policies ==> Some(p.id) != ResolveDefaultPolicy(Some(t))
  {
    var j := IndexOfId(PolicyIds(t.policies), ResolveDefaultPolicy(Some(t)));
    if j >= 0 then Some(t.policies[j]) else None
  }

  /** `useScenePolicy` over the refs of `useConfig`. */
  class ScenePolicyNav {
    const refs: ViewerConfig.ConfigRefs
    var changes: seq<Change>

    constructor(refs: ViewerConfig.ConfigRefs)
      ensures this.refs == refs && changes == []
    {
      this.refs := refs;
      changes := [];
    }

    /** The `selectedTask` computed value: the first task with the current id. */
    function SelectedTask(): (r: Option<TaskItem>)
      reads refs
      ensures r.Some? ==> r.value in refs.config.tasks && Some(r.value.id) == refs.task
      ensures r.None? <==> forall t :: t in refs.config.tasks ==> Some(t.id) != refs.task
    {
      var k := IndexOfId(TaskIds(refs.config.tasks), refs.task);
      if k >= 0 then Some(refs.config.tasks[k]) else None
    }

    /** `selectTask(id)`: an unknown id changes nothing; otherwise the task is
        selected and the policy becomes its default when that is listed, else null. */
    method SelectTask(id: string)
      modifies refs, this
      ensures refs.config == old(refs.config) && refs.urlParamErrorMessage == old(refs.urlParamErrorMessage)
      ensures id !in TaskIds(refs.config.tasks) ==>
                refs.task == old(refs.task) && refs.policy == old(refs.policy) && changes == old(changes)
      ensures id in TaskIds(refs.config.tasks) ==>
                var t := refs.config.tasks[IndexOfId(TaskIds(refs.config.tasks), Some(id))];
                && refs.task == Some(id)
                && refs.policy == (if DefaultListedPolicy(t).Some? then Some(DefaultListedPolicy(t).value.id) else None)
                && changes == old(changes) + [TaskChanged(t, DefaultListedPolicy(t))]
    {
      var k := IndexOfId(TaskIds(refs.config.tasks), Some(id));
      if k < 0 {
        return;
      }
      var next := refs.config.tasks[k];
      refs.task := Some(next.id);
      var defaultPolicy := DefaultListedPolicy(next);
      refs.policy := if defaultPolicy.Some? then Some(defaultPolicy.value.id) else None;
      changes := changes + [TaskChanged(next, defaultPolicy)];
    }

    /** `selectPolicy(id)`: only a listed policy of the selected task is taken. */
    method SelectPolicy(id: string)
      modifies refs, this
      ensures refs.config == old(refs.config) && refs.task == old(refs.task)
      ensures refs.urlParamErrorMessage == old(refs.urlParamErrorMessage)
      ensures var t := old(SelectedTask());
        if t.Some? && id in PolicyIds(t.value.policies) then
          refs.policy == Some(id) &&
          changes == old(changes) + [PolicyChanged(t.value, t.value.policies[IndexOfId(PolicyIds(t.value.policies), Some(id))])]
        else
          refs.policy == old(refs.policy) && changes == old(changes)
    {
      var t := SelectedTask();
      if t.None? {
        return;
      }
      var j := IndexOfId(PolicyIds(t.value.policies), Some(id));
      if j < 0 {
        return;
      }
      refs.policy := Some(id);
      changes := changes + [PolicyChanged(t.value, t.value.policies[j])];
    }

    /** `navigateScene(direction)`: selects the task one step away, wrapping around. */
    method NavigateScene(direction: int)
      requires direction == 1 || direction == -1
      modifies refs, this
      ensures refs.config == old(refs.config) && refs.urlParamErrorMessage == old(refs.urlParamErrorMessage)
      ensures var next := StepId(TaskIds(old(refs.config.tasks)), old(refs.task), direction);
        if next.Some? then
          var t := refs.config.tasks[IndexOfId(TaskIds(refs.config.tasks), next)];
          && refs.task == next
          && refs.policy == (if DefaultListedPolicy(t).Some? then Some(DefaultListedPolicy(t).value.id) else None)
          && changes == old(changes) + [TaskChanged(t, DefaultListedPolicy(t))]
        else refs.task == old(refs.task) && refs.policy == old(refs.policy) && changes == old(changes)
    {
      var next := StepId(TaskIds(refs.config.tasks), refs.task, direction);
      if next.None? {
        return;
      }
      SelectTask(next.value);
    }

    /** `navigatePolicy(direction)`: selects the selected task's policy one step away. */
    method NavigatePolicy(direction: int)
      requires direction == 1 || direction == -1
      modifies refs, this
      ensures refs.config == old(refs.config) && refs.task == old(refs.task)
      ensures refs.urlParamErrorMessage == old(refs.urlParamErrorMessage)
      ensures var t := old(SelectedTask());
        var next := if t.Some? then StepId(PolicyIds(t.value.policies), old(refs.policy), direction) else None;
        if next.Some? then
          && refs.policy == next
          && changes == old(changes) + [PolicyChanged(t.value, t.value.policies[IndexOfId(PolicyIds(t.value.policies), next)])]
        else refs.policy == old(refs.policy) && changes == old(changes)
    {
      var t := SelectedTask();
      if t.None? {
        return;
      }
      var next := StepId(PolicyIds(t.value.policies), refs.policy, direction);
      if next.None? {
        return;
      }
      SelectPolicy(next.value);
    }
  }
}
