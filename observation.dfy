/**
 * The observation managers: `ConfigObservationManager` in
 * `src/core/observation/ObservationManager.ts` and its legacy copy in
 * `src/mujoco_wasm/runtime/managers/observations/ConfigObservationManager.js`.
 * A policy's `obs_config` names groups of observation components; a group
 * either concatenates its components' outputs, or (history format) keeps a
 * buffer of `steps` past concatenations, newest first.  The components are
 * opaque here: a component is the record it was built from, and what it
 * computes is an input.
 */
module Observation {
  import opened Wrappers
  import opened Control

  /** The component names of the observation registry. */
  const Registry: set<string> := {
    "BaseLinearVelocity", "BaseAngularVelocity", "ProjectedGravity", "JointPositions",
    "JointVelocities", "PreviousActions", "SimpleVelocityCommand", "VelocityCommand",
    "VelocityCommandWithOscillators", "ImpedanceCommand", "Oscillator"
  }

  /** The identity of a JavaScript object (a model, a data block, asset
      metadata). */
  type ObjectId = nat

  /** A component's `joint_names`: absent, a list, or some other string. */
  datatype JointNamesArg = NotGiven | Listed(names: seq<string>) | Named(s: string)

  /** One component entry of `obs_config`: its `name`, its `joint_names` and
      its `history_steps`; the other keyword arguments pass through
      untouched and are not modelled.  An entry that is not an object has
      no name. */
  datatype ObsItem = ObsItem(name: Option<string>, jointNames: JointNamesArg, historySteps: Option<int>)

  /** The value of one `obs_config` key: a falsy value, a list of entries,
      or an object (an entry of its own, possibly with `interleaved`,
      `history_steps` and `components`).  `interleaved` is `Some(b)` when
      defined, `b` being its truthiness. */
  datatype ConfigValue =
    | Falsy
    | List(items: seq<ObsItem>)
    | Object(fields: ObsItem, interleaved: Option<bool>, components: Option<seq<ObsItem>>)

  /** The argument of `onPolicyLoaded` as the runtime passes it. */
  datatype HookArgs = HookArgs(mjModel: Option<ObjectId>, mjData: Option<ObjectId>, assetMeta: Option<ObjectId>)

  /** A constructed component: its class name, its keyword arguments after
      substitution, and the model, data and asset metadata it was given. */
  datatype Component = Component(
    name: string, jointNames: JointNamesArg, historySteps: Option<int>,
    model: Option<ObjectId>, data: Option<ObjectId>, assetMeta: Option<ObjectId>)

  /** Which manager: the typed one, the legacy one as written, or the legacy
      one reading the handles the runtime passes. */
  datatype Flavor = Typed | Legacy | LegacyCorrected

  /** What a load depends on besides `obs_config`: the manager, the
      component registry, the hook's argument, the runtime's Isaac joint
      order, and the length of each component's first `compute()` output
      (the components themselves are opaque). */
  datatype Load = Load(
    flavor: Flavor, registry: set<string>, args: HookArgs,
    isaacNames: Option<seq<string>>, width: Component -> nat)

  datatype HistoryConfig = HistoryConfig(steps: int, interleaved: bool)

  /** `observationGroups`, `historyConfig` and `historyBuffers`, with the
      insertion order of the group keys. */
  datatype Groups = Groups(
    order: seq<string>, groups: map<string, seq<Component>>,
    configs: map<string, HistoryConfig>, buffers: map<string, seq<real>>)

  const NoGroups := Groups([], map[], map[], map[])

  /** The group keys are listed once each in `order`, every history config
      belongs to a group and every buffer to a history config. */
  ghost predicate Valid(g: Groups) {
    && (forall k :: k in g.groups <==> k in g.order)
    && (forall i, j :: 0 <= i < j < |g.order| ==> g.order[i] != g.order[j])
    && g.buffers.Keys <= g.configs.Keys
    && g.configs.Keys <= g.groups.Keys
  }

  /** `order` with `key` added at the end unless already there. */
  function Appended(order: seq<string>, key: string): (r: seq<string>)
    ensures key in order ==> r == order
    ensures key !in order ==> r == order + [key]
  {
    if key in order then order else order + [key]
  }

  /** Appending a key keeps the order free of repeats. */
  lemma AppendedDistinct(order: seq<string>, key: string)
    requires forall i, j :: 0 <= i < j < |order| ==> order[i] != order[j]
    ensures var r := Appended(order, key); forall i, j :: 0 <= i < j < |r| ==> r[i] != r[j]
  {
  }

  /** `val && !Array.isArray(val) && (val.interleaved !== undefined ||
      val.history_steps !== undefined)`. */
  predicate IsHistoryFormat(v: ConfigValue) {
    v.Object? && (v.interleaved.Some? || v.fields.historySteps.Some?)
  }

  /** `val.history_steps || 1`. */
  function HistorySteps(h: Option<int>): (s: int)
    ensures s != 0
    ensures h.None? || h.value == 0 ==> s == 1
    ensures h.Some? && h.value != 0 ==> s == h.value
  {
    if h.Some? && h.value != 0 then h.value else 1
  }

  /** `joint_names: 'isaac'` becomes the runtime's Isaac joint order (absent
      when the runtime has none); anything else is kept. */
  function Substituted(j: JointNamesArg, isaacNames: Option<seq<string>>): (r: JointNamesArg)
    ensures j != Named("isaac") ==> r == j
    ensures j == Named("isaac") && isaacNames.Some? ==> r == Listed(isaacNames.value)
    ensures j == Named("isaac") && isaacNames.None? ==> r == NotGiven
  {
    if j == Named("isaac") then
      if isaacNames.Some? then Listed(isaacNames.value) else NotGiven
    else j
  }

  /** The model and data a component is constructed with.  The legacy hook
      destructures `{ config, model, simulation, assetMeta }`, but the
      runtime's argument has `mjModel` and `mjData`, so both read as
      undefined. */
  function Handles(flavor: Flavor, args: HookArgs): (h: (Option<ObjectId>, Option<ObjectId>))
  {
    if flavor == Legacy then (None, None) else (args.mjModel, args.mjData)
  }

  /** An entry the registry has no component for. */
  predicate Unknown(item: ObsItem, registry: set<string>) {
    item.name.None? || item.name.value !in registry
  }

  /** `createObservationInstance`: an unknown name throws; otherwise the
      component of that name gets the substituted keyword arguments, the
      hook's model and data, and (typed manager only) the asset metadata. */
  function Instantiate(ld: Load, item: ObsItem): (r: Result<Component>)
    ensures r.Err? <==> Unknown(item, ld.registry)
    ensures r.Ok? ==> r.value.name == item.name.value && r.value.historySteps == item.historySteps
    ensures r.Ok? ==> r.value.jointNames == Substituted(item.jointNames, ld.isaacNames)
    ensures r.Ok? && ld.flavor == Legacy ==> r.value.model.None? && r.value.data.None? && r.value.assetMeta.None?
    ensures r.Ok? && ld.flavor != Legacy ==> r.value.model == ld.args.mjModel && r.value.data == ld.args.mjData
    ensures r.Ok? ==> r.value.assetMeta == if ld.flavor == Typed then ld.args.assetMeta else None
  {
    if item.name.None? then Err("Unknown observation type: undefined")
    else if item.name.value !in ld.registry then Err("Unknown observation type: " + item.name.value)
    else
      var (model, data) := Handles(ld.flavor, ld.args);
      Ok(Component(item.name.value, Substituted(item.jointNames, ld.isaacNames), item.historySteps,
                   model, data, if ld.flavor == Typed then ld.args.assetMeta else None))
  }

  /** `items.map(createObservationInstance)`: the first unknown name throws. */
  function InstantiateAll(ld: Load, items: seq<ObsItem>): (r: Result<seq<Component>>)
    ensures r.Err? <==> exists i :: 0 <= i < |items| && Unknown(items[i], ld.registry)
    ensures r.Ok? ==> |r.value| == |items|
    ensures r.Ok? ==> forall i :: 0 <= i < |items| ==> Instantiate(ld, items[i]) == Ok(r.value[i])
  {
    if items == [] then Ok([])
    else
      var first := Instantiate(ld, items[0]);
      var rest := InstantiateAll(ld, items[1..]);
      assert forall i :: 1 <= i < |items| ==> items[i] == items[1..][i - 1];
      if first.Err? then Err(first.msg)
      else if rest.Err? then rest
      else Ok([first.value] + rest.value)
  }

  /** `{ ...item, history_steps: 1 }`. */
  function SingleStep(items: seq<ObsItem>): (r: seq<ObsItem>)
    ensures |r| == |items|
    ensures forall i :: 0 <= i < |items| ==> r[i] == items[i].(historySteps := Some(1))
  {
    seq(|items|, i requires 0 <= i < |items| => items[i].(historySteps := Some(1)))
  }

  /** The summed length of the components' first outputs. */
  function SumWidths(cs: seq<Component>, width: Component -> nat): nat {
    if cs == [] then 0 else SumWidths(cs[..|cs| - 1], width) + width(cs[|cs| - 1])
  }

  /** The component entries a config value stands for: `components || []`
      in history format, else the list itself or the value as one entry. */
  function EntryItems(value: ConfigValue): seq<ObsItem> {
    if IsHistoryFormat(value) then value.components.GetOr([])
    else match value
      case List(xs) => xs
      case Object(fields, _, _) => [fields]
      case Falsy => [ObsItem(None, NotGiven, None)]
  }

  /** A negative product of a count has a negative factor. */
  lemma ProductSign(a: nat, b: int)
    ensures a * b < 0 ==> b < 0
  {
    if b >= 0 {
      assert a * b >= 0;
    }
  }

  /** `observationGroups[key] = comps`. */
  function WithGroup(g: Groups, key: string, comps: seq<Component>): (r: Groups)
    ensures Valid(g) ==> Valid(r)
  {
    g.(order := Appended(g.order, key), groups := g.groups[key := comps])
  }

  /** One `obs_config` entry.  A history-format value builds its components
      with one history step each, records `steps` and `interleaved`, and
      gets a zero buffer of `dims × steps` (a negative length throws after
      the group and config are set).  Any other value is a list of entries,
      or one entry.  An unknown component leaves the state as it was. */
  function AddEntry(ld: Load, g: Groups, key: string, value: ConfigValue): (r: (Groups, Option<string>))
    ensures r.1.None? ==> key in r.0.groups && r.0.order == Appended(g.order, key)
    ensures !IsHistoryFormat(value) ==> r.0.configs == g.configs && r.0.buffers == g.buffers
    ensures IsHistoryFormat(value) && r.1.None? ==>
      && key in r.0.configs && key in r.0.buffers
      && r.0.configs[key] == HistoryConfig(HistorySteps(value.fields.historySteps), value.interleaved == Some(true))
      && |r.0.buffers[key]| == SumWidths(r.0.groups[key], ld.width) * r.0.configs[key].steps
      && (forall i :: 0 <= i < |r.0.buffers[key]| ==> r.0.buffers[key][i] == 0.0)
      && forall c :: c in r.0.groups[key] ==> c.historySteps == Some(1)
    ensures r.1.Some? ==>
      (exists i :: 0 <= i < |EntryItems(value)| && Unknown(EntryItems(value)[i], ld.registry))
      || (IsHistoryFormat(value) && HistorySteps(value.fields.historySteps) < 0)
    ensures r.1.None? <== (forall i :: 0 <= i < |EntryItems(value)| ==> !Unknown(EntryItems(value)[i], ld.registry))
      && (IsHistoryFormat(value) ==> HistorySteps(value.fields.historySteps) > 0)
  {
    var items := EntryItems(value);
    if IsHistoryFormat(value) then
      var made := InstantiateAll(ld, SingleStep(items));
      if made.Err? then (g, Some(made.msg))
      else
        var steps := HistorySteps(value.fields.historySteps);
        var dims := SumWidths(made.value, ld.width);
        var g1 := WithGroup(g, key, made.value);
        var g2 := g1.(configs := g1.configs[key := HistoryConfig(steps, value.interleaved == Some(true))]);
        var len := dims * steps;
        if len < 0 then
          ProductSign(dims, steps);
          (g2, Some("Invalid typed array length: " + "negative"))
        else
          (g2.(buffers := g2.buffers[key := Zeros(len)]), None)
    else
      var made := InstantiateAll(ld, items);
      if made.Err? then (g, Some(made.msg))
      else (WithGroup(g, key, made.value), None)
  }

  /** The component entries an `obs_config` value builds. */
  function BuiltItems(value: ConfigValue): seq<ObsItem> {
    if IsHistoryFormat(value) then SingleStep(EntryItems(value)) else EntryItems(value)
  }

  /** An entry either leaves the state as it was or sets the group of its
      own key, and adds a history config and buffer only for that key. */
  lemma AddEntryShape(ld: Load, g: Groups, key: string, value: ConfigValue)
    ensures var made := InstantiateAll(ld, BuiltItems(value)); var r := AddEntry(ld, g, key, value).0;
      && (made.Err? ==> r == g)
      && (made.Ok? ==>
            && r.groups == g.groups[key := made.value] && r.order == Appended(g.order, key)
            && r.configs.Keys - {key} == g.configs.Keys - {key} && r.buffers.Keys - {key} == g.buffers.Keys - {key}
            && (IsHistoryFormat(value) ==> key in r.configs)
            && (!IsHistoryFormat(value) ==> r.configs == g.configs && r.buffers == g.buffers))
  {
  }

  /** An entry keeps the state valid and touches only its own key. */
  lemma AddEntryFrame(ld: Load, g: Groups, key: string, value: ConfigValue)
    ensures var r := AddEntry(ld, g, key, value).0;
      && (Valid(g) ==> Valid(r))
      && (forall k :: k != key ==> (k in r.groups <==> k in g.groups))
      && (forall k :: k != key && k in g.groups ==> r.groups[k] == g.groups[k])
  {
    AddEntryShape(ld, g, key, value);
    var made := InstantiateAll(ld, BuiltItems(value));
    var r := AddEntry(ld, g, key, value).0;
    if made.Ok? && Valid(g) {
      AppendedDistinct(g.order, key);
      assert forall k :: k in r.groups <==> k in r.order;
      assert r.buffers.Keys <= r.configs.Keys;
    }
  }

  /** Every component of every group was built with the model `m` and the
      data `d`. */
  ghost predicate BuiltWith(g: Groups, m: Option<ObjectId>, d: Option<ObjectId>) {
    forall k, c :: k in g.groups && c in g.groups[k] ==> c.model == m && c.data == d
  }

  /** Every component built from a list of entries has the flavor's handles. */
  lemma InstantiatedHandles(ld: Load, items: seq<ObsItem>)
    requires InstantiateAll(ld, items).Ok?
    ensures forall c :: c in InstantiateAll(ld, items).value ==>
      c.model == Handles(ld.flavor, ld.args).0 && c.data == Handles(ld.flavor, ld.args).1
  {
    var cs := InstantiateAll(ld, items).value;
    forall c | c in cs
      ensures c.model == Handles(ld.flavor, ld.args).0 && c.data == Handles(ld.flavor, ld.args).1
    {
      var i :| 0 <= i < |cs| && cs[i] == c;
      assert Instantiate(ld, items[i]) == Ok(c);
    }
  }

  /** An entry builds its components with the flavor's handles. */
  lemma AddEntryHandles(ld: Load, g: Groups, key: string, value: ConfigValue)
    requires BuiltWith(g, Handles(ld.flavor, ld.args).0, Handles(ld.flavor, ld.args).1)
    ensures BuiltWith(AddEntry(ld, g, key, value).0, Handles(ld.flavor, ld.args).0, Handles(ld.flavor, ld.args).1)
  {
    AddEntryShape(ld, g, key, value);
    if InstantiateAll(ld, BuiltItems(value)).Ok? {
      InstantiatedHandles(ld, BuiltItems(value));
    }
  }

  /** `onPolicyLoaded`: from empty maps, each `obs_config` entry in turn, up
      to the first that throws. */
  function Build(ld: Load, entries: seq<(string, ConfigValue)>): (r: (Groups, Option<string>)) {
    if entries == [] then (NoGroups, None)
    else
      var prev := Build(ld, entries[..|entries| - 1]);
      if prev.1.Some? then prev
      else AddEntry(ld, prev.0, entries[|entries| - 1].0, entries[|entries| - 1].1)
  }

  /** The state a load leaves, failed or not, is valid. */
  lemma {:induction false} BuildValid(ld: Load, entries: seq<(string, ConfigValue)>)
    ensures Valid(Build(ld, entries).0)
  {
    if entries != [] {
      var init := entries[..|entries| - 1];
      BuildValid(ld, init);
      var prev := Build(ld, init);
      if prev.1.None? {
        AddEntryFrame(ld, prev.0, entries[|entries| - 1].0, entries[|entries| - 1].1);
      }
    }
  }

  /** A load that succeeds has exactly one group per `obs_config` key. */
  lemma {:induction false} BuildKeys(ld: Load, entries: seq<(string, ConfigValue)>)
    ensures var r := Build(ld, entries);
      r.1.None? ==> forall k :: k in r.0.groups <==> k in Keys(entries)
  {
    if entries != [] {
      var init := entries[..|entries| - 1];
      var last := entries[|entries| - 1];
      BuildKeys(ld, init);
      var prev := Build(ld, init);
      KeysSnoc(entries);
      if prev.1.None? {
        var r := AddEntry(ld, prev.0, last.0, last.1);
        assert Build(ld, entries) == r;
        if r.1.None? {
          AddEntryFrame(ld, prev.0, last.0, last.1);
          forall k
            ensures k in r.0.groups <==> k in Keys(entries)
          {
            if k != last.0 {
              assert k in r.0.groups <==> k in prev.0.groups;
            }
          }
        }
      }
    }
  }

  /** The keys of the `obs_config` entries. */
  function Keys(entries: seq<(string, ConfigValue)>): set<string> {
    set i | 0 <= i < |entries| :: entries[i].0
  }

  lemma KeysSnoc(entries: seq<(string, ConfigValue)>)
    requires entries != []
    ensures Keys(entries) == Keys(entries[..|entries| - 1]) + {entries[|entries| - 1].0}
  {
    var init := entries[..|entries| - 1];
    forall k | k in Keys(entries)
      ensures k in Keys(init) + {entries[|entries| - 1].0}
    {
      var i :| 0 <= i < |entries| && entries[i].0 == k;
      if i < |init| {
        assert init[i].0 == k;
      }
    }
    forall k | k in Keys(init)
      ensures k in Keys(entries)
    {
      var i :| 0 <= i < |init| && init[i].0 == k;
      assert entries[i].0 == k;
    }
  }

  /** Every component a load builds has the flavor's model and data. */
  lemma {:induction false} BuildHandles(ld: Load, entries: seq<(string, ConfigValue)>)
    ensures BuiltWith(Build(ld, entries).0, Handles(ld.flavor, ld.args).0, Handles(ld.flavor, ld.args).1)
  {
    if entries != [] {
      var init := entries[..|entries| - 1];
      BuildHandles(ld, init);
      var prev := Build(ld, init);
      if prev.1.None? {
        AddEntryHandles(ld, prev.0, entries[|entries| - 1].0, entries[|entries| - 1].1);
      }
    }
  }

  /** The legacy manager as written: whatever model and data the runtime
      passes, every component it builds gets neither. */
  lemma LegacyComponentsLackHandles(ld: Load, entries: seq<(string, ConfigValue)>)
    requires ld.flavor == Legacy
    ensures BuiltWith(Build(ld, entries).0, None, None)
  {
    BuildHandles(ld, entries);
  }

  /** The typed manager, and the legacy one reading `mjModel`/`mjData`:
      every component gets the model and data the runtime passes. */
  lemma ComponentsCarryHandles(ld: Load, entries: seq<(string, ConfigValue)>)
    requires ld.flavor != Legacy
    ensures BuiltWith(Build(ld, entries).0, ld.args.mjModel, ld.args.mjData)
  {
    BuildHandles(ld, entries);
  }

  /** One history group of one known component, loaded by the runtime with
      a model and data: the legacy manager builds it without them, the
      corrected one with them. */
  lemma LegacyHandleMismatch()
    ensures var entries := [("policy", Object(ObsItem(None, NotGiven, Some(2)), None, Some([ObsItem(Some("JointVelocities"), Named("isaac"), None)])))];
      var args := HookArgs(Some(1), Some(2), None);
      var legacy := Build(Load(Legacy, Registry, args, Some(["hip"]), _ => 1), entries);
      var fixed := Build(Load(LegacyCorrected, Registry, args, Some(["hip"]), _ => 1), entries);
      && legacy.1.None? && "policy" in legacy.0.groups && |legacy.0.groups["policy"]| == 1
      && legacy.0.groups["policy"][0].data.None?
      && fixed.1.None? && "policy" in fixed.0.groups && |fixed.0.groups["policy"]| == 1
      && fixed.0.groups["policy"][0].data == Some(2)
  {
    var entries := [("policy", Object(ObsItem(None, NotGiven, Some(2)), None, Some([ObsItem(Some("JointVelocities"), Named("isaac"), None)])))];
    assert entries[..0] == [];
    assert "JointVelocities" in Registry;
  }

  /** `obsList` outputs spread one after another into one list. */
  function Concat(outs: seq<seq<real>>): seq<real> {
    if outs == [] then [] else Concat(outs[..|outs| - 1]) + outs[|outs| - 1]
  }

  /** The concatenation starts with the first output and continues with the
      concatenation of the rest. */
  lemma {:induction false} ConcatFront(outs: seq<seq<real>>)
    requires outs != []
    ensures Concat(outs) == outs[0] + Concat(outs[1..])
  {
    if |outs| > 1 {
      ConcatFront(outs[..|outs| - 1]);
      assert outs[..|outs| - 1][1..] == outs[1..][..|outs[1..]| - 1];
    }
  }

  /** `for (const obs of obsList) currentObs.push(...obs.compute())`. */
  method Gather(outs: seq<seq<real>>) returns (r: seq<real>)
    ensures r == Concat(outs)
  {
    r := [];
    for i := 0 to |outs|
      invariant r == Concat(outs[..i])
    {
      assert outs[..i + 1][..i] == outs[..i];
      r := r + outs[i];
    }
    assert outs[..|outs|] == outs;
  }

  /** The history buffer after one step: the current values at the front,
      the previous contents moved back by their length, the oldest dropped.
      A current list longer than the buffer makes `buffer.set` throw. */
  function ShiftedIn(buffer: seq<real>, current: seq<real>): (r: Result<seq<real>>)
    ensures r.Err? <==> |current| > |buffer|
    ensures r.Ok? ==> |r.value| == |buffer|
    ensures r.Ok? ==> forall i :: 0 <= i < |current| ==> r.value[i] == current[i]
    ensures r.Ok? ==> forall i :: |current| <= i < |buffer| ==> r.value[i] == buffer[i - |current|]
  {
    if |current| > |buffer| then Err("offset is out of bounds")
    else Ok(current + buffer[..|buffer| - |current|])
  }

  /** `for (i = len - 1; i >= d; i--) buffer[i] = buffer[i - d]` followed by
      `buffer.set(current, 0)`. */
  method ShiftIn(buffer: seq<real>, current: seq<real>) returns (r: Result<seq<real>>)
    ensures r == ShiftedIn(buffer, current)
  {
    var b := buffer;
    var d := |current|;
    var i := |b| - 1;
    while i >= d
      invariant -1 <= i < |buffer| && |b| == |buffer|
      invariant i >= d - 1 || i == |buffer| - 1
      invariant forall j :: 0 <= j <= i ==> b[j] == buffer[j]
      invariant forall j :: i < j < |buffer| ==> b[j] == buffer[j - d]
    {
      b := b[i := b[i - d]];
      i := i - 1;
    }
    if d > |b| {
      return Err("offset is out of bounds");
    }
    b := current + b[d..];
    assert b == current + buffer[..|buffer| - d];
    return Ok(b);
  }

  /** What one call reports for group `k`: the shifted buffer of a history
      group (throwing when it has no buffer), else the concatenation. */
  function GroupTensor(g: Groups, k: string, outputs: map<string, seq<seq<real>>>): (r: Result<seq<real>>)
    ensures k !in g.configs ==> r == Ok(Concat(Outputs(outputs, k)))
    ensures k in g.configs && k !in g.buffers ==> r.Err?
    ensures k in g.configs && k in g.buffers ==> r == ShiftedIn(g.buffers[k], Concat(Outputs(outputs, k)))
  {
    var current := Concat(Outputs(outputs, k));
    if k !in g.configs then Ok(current)
    else if k !in g.buffers then Err("Cannot read properties of undefined (reading 'length')")
    else ShiftedIn(g.buffers[k], current)
  }

  /** The outputs of group `k`'s components, none when not given. */
  function Outputs(outputs: map<string, seq<seq<real>>>, k: string): seq<seq<real>> {
    if k in outputs then outputs[k] else []
  }

  /** The state of `collect` part way through: the tensors so far, the
      buffers, and the error that stopped it. */
  datatype Collection = Collection(tensors: map<string, seq<real>>, buffers: map<string, seq<real>>, error: Option<string>)

  /** `collect` on one group key.  The `interleaved` flag is never read: both
      of its branches shift the same way. */
  function CollectKey(c: Collection, g: Groups, k: string, outputs: map<string, seq<seq<real>>>): Collection {
    if c.error.Some? || k !in g.groups then c
    else
      var current := Concat(Outputs(outputs, k));
      if k !in g.configs then c.(tensors := c.tensors[k := current])
      else if k !in c.buffers then c.(error := Some("Cannot read properties of undefined (reading 'length')"))
      else match ShiftedIn(c.buffers[k], current)
        case Err(m) => c.(error := Some(m))
        case Ok(b) => c.(tensors := c.tensors[k := b], buffers := c.buffers[k := b])
  }

  /** The body of `collect`'s loop for key `k`. */
  method CollectOne(c: Collection, g: Groups, k: string, outputs: map<string, seq<seq<real>>>) returns (d: Collection)
    ensures d == CollectKey(c, g, k, outputs)
  {
    if c.error.Some? || k !in g.groups {
      return c;
    }
    var current := Gather(Outputs(outputs, k));
    if k !in g.configs {
      return c.(tensors := c.tensors[k := current]);
    }
    if k !in c.buffers {
      return c.(error := Some("Cannot read properties of undefined (reading 'length')"));
    }
    var shifted := ShiftIn(c.buffers[k], current);
    if shifted.Err? {
      return c.(error := Some(shifted.msg));
    }
    return c.(tensors := c.tensors[k := shifted.value], buffers := c.buffers[k := shifted.value]);
  }

  /** `collect` over the given keys in order. */
  function Collected(g: Groups, keys: seq<string>, outputs: map<string, seq<seq<real>>>): Collection {
    if keys == [] then Collection(map[], g.buffers, None)
    else CollectKey(Collected(g, keys[..|keys| - 1], outputs), g, keys[|keys| - 1], outputs)
  }

  predicate Distinct(keys: seq<string>) {
    forall i, j :: 0 <= i < j < |keys| ==> keys[i] != keys[j]
  }

  /** One key of `collect` keeps the other keys' buffers and tensors. */
  lemma CollectKeyFrame(c: Collection, g: Groups, k: string, outputs: map<string, seq<seq<real>>>)
    ensures var d := CollectKey(c, g, k, outputs);
      && (c.error.Some? || k !in g.groups ==> d == c)
      && d.buffers.Keys == c.buffers.Keys
      && (forall x :: x != k && x in c.buffers ==> d.buffers[x] == c.buffers[x])
      && (forall x :: x != k ==> (x in d.tensors <==> x in c.tensors))
      && (forall x :: x != k && x in c.tensors ==> d.tensors[x] == c.tensors[x])
  {
  }

  /** From a state without error, one key of `collect` fails iff the
      group's tensor (over the buffers so far) throws, and otherwise records
      that tensor, and as the buffer of a history group. */
  lemma CollectKeyStep(c: Collection, g: Groups, k: string, outputs: map<string, seq<seq<real>>>)
    requires c.error.None? && k in g.groups
    ensures var d := CollectKey(c, g, k, outputs);
      && (d.error.None? <==> GroupTensor(g.(buffers := c.buffers), k, outputs).Ok?)
      && (d.error.None? ==>
            && k in d.tensors && GroupTensor(g.(buffers := c.buffers), k, outputs) == Ok(d.tensors[k])
            && (k in g.configs ==> k in d.buffers && d.buffers[k] == d.tensors[k]))
  {
    var h := g.(buffers := c.buffers);
    var current := Concat(Outputs(outputs, k));
    if k in g.configs && k in c.buffers {
      assert GroupTensor(h, k, outputs) == ShiftedIn(c.buffers[k], current);
    }
  }

  /** A group's tensor reads only its own buffer. */
  lemma GroupTensorLocal(g: Groups, b: map<string, seq<real>>, k: string, outputs: map<string, seq<seq<real>>>)
    requires (k in b <==> k in g.buffers) && (k in b ==> b[k] == g.buffers[k])
    ensures GroupTensor(g.(buffers := b), k, outputs) == GroupTensor(g, k, outputs)
  {
  }

  /** `collect` changes only the buffers of the keys it has been through. */
  lemma {:induction false} CollectedBuffers(g: Groups, keys: seq<string>, outputs: map<string, seq<seq<real>>>)
    ensures var c := Collected(g, keys, outputs);
      && c.buffers.Keys == g.buffers.Keys
      && forall k :: k in g.buffers && k !in keys ==> c.buffers[k] == g.buffers[k]
  {
    if keys != [] {
      var init := keys[..|keys| - 1];
      CollectedBuffers(g, init, outputs);
      CollectKeyFrame(Collected(g, init, outputs), g, keys[|keys| - 1], outputs);
      assert forall x :: x in keys <==> x in init || x == keys[|keys| - 1];
    }
  }

  /** Over distinct group keys, `collect` fails iff some group's tensor
      throws. */
  lemma {:induction false} CollectedError(g: Groups, keys: seq<string>, outputs: map<string, seq<seq<real>>>)
    requires Distinct(keys) && forall k :: k in keys ==> k in g.groups
    ensures Collected(g, keys, outputs).error.Some? <==> exists k :: k in keys && GroupTensor(g, k, outputs).Err?
  {
    if keys != [] {
      var init := keys[..|keys| - 1];
      var k := keys[|keys| - 1];
      var c := Collected(g, init, outputs);
      CollectedError(g, init, outputs);
      CollectedBuffers(g, init, outputs);
      CollectKeyFrame(c, g, k, outputs);
      if c.error.None? {
        CollectKeyStep(c, g, k, outputs);
      }
      assert k !in init;
      GroupTensorLocal(g, c.buffers, k, outputs);
      assert forall x :: x in keys <==> x in init || x == k;
    }
  }

  /** Over distinct group keys, a `collect` that succeeds has one tensor per
      key, each the group's tensor, and a history group's buffer becomes
      its tensor. */
  lemma {:induction false} CollectedTensors(g: Groups, keys: seq<string>, outputs: map<string, seq<seq<real>>>)
    requires Distinct(keys) && forall k :: k in keys ==> k in g.groups
    ensures var c := Collected(g, keys, outputs);
      c.error.None? ==>
        && (forall k :: k in c.tensors <==> k in keys)
        && (forall k :: k in keys ==> k in c.tensors && GroupTensor(g, k, outputs) == Ok(c.tensors[k]))
        && (forall k :: k in keys && k in g.configs ==> k in c.buffers && c.buffers[k] == c.tensors[k])
  {
    if keys != [] {
      var init := keys[..|keys| - 1];
      var k := keys[|keys| - 1];
      var c := Collected(g, init, outputs);
      CollectedTensors(g, init, outputs);
      CollectedBuffers(g, init, outputs);
      CollectKeyFrame(c, g, k, outputs);
      if c.error.None? {
        CollectKeyStep(c, g, k, outputs);
      }
      assert k !in init;
      GroupTensorLocal(g, c.buffers, k, outputs);
      assert forall x :: x in keys <==> x in init || x == k;
    }
  }

  /** `collect` over all the groups of a valid state: it succeeds iff no
      group's tensor throws, it then has one tensor per group, and the
      state stays valid. */
  lemma CollectOutcome(g: Groups, outputs: map<string, seq<seq<real>>>)
    requires Valid(g)
    ensures var c := Collected(g, g.order, outputs);
      && Valid(g.(buffers := c.buffers))
      && (c.error.None? <==> forall k :: k in g.groups ==> GroupTensor(g, k, outputs).Ok?)
      && (c.error.None? ==> c.tensors.Keys == g.groups.Keys)
      && (c.error.None? ==> forall k :: k in c.tensors ==> GroupTensor(g, k, outputs) == Ok(c.tensors[k]))
  {
    CollectedError(g, g.order, outputs);
    CollectedBuffers(g, g.order, outputs);
    CollectedTensors(g, g.order, outputs);
  }

  /** The `interleaved` flag changes nothing in `collect`. */
  lemma {:induction false} InterleavedIgnored(g: Groups, keys: seq<string>, outputs: map<string, seq<seq<real>>>,
                                              flags: map<string, bool>)
    ensures var h := g.(configs := map k | k in g.configs :: g.configs[k].(interleaved := if k in flags then flags[k] else g.configs[k].interleaved));
      Collected(h, keys, outputs) == Collected(g, keys, outputs)
  {
    if keys != [] {
      InterleavedIgnored(g, keys[..|keys| - 1], outputs, flags);
    }
  }

  /** A history group keeps its length, gets the current values at the
      front, and the previous contents behind them. */
  lemma HistoryCollect(g: Groups, k: string, outputs: map<string, seq<seq<real>>>)
    requires k in g.configs && k in g.buffers && GroupTensor(g, k, outputs).Ok?
    ensures var t := GroupTensor(g, k, outputs).value; var cur := Concat(Outputs(outputs, k));
      && |t| == |g.buffers[k]| && t[..|cur|] == cur && t[|cur|..] == g.buffers[k][..|t| - |cur|]
  {
    var t := GroupTensor(g, k, outputs).value;
    var cur := Concat(Outputs(outputs, k));
    assert t == cur + g.buffers[k][..|t| - |cur|];
  }

  /** A load that has not failed by entry `i` goes on with that entry. */
  lemma BuildNext(ld: Load, entries: seq<(string, ConfigValue)>, i: nat)
    requires i < |entries| && Build(ld, entries[..i]).1.None?
    ensures Build(ld, entries[..i + 1]) == AddEntry(ld, Build(ld, entries[..i]).0, entries[i].0, entries[i].1)
  {
    assert entries[..i + 1][..i] == entries[..i];
  }

  /** Once a load has failed, later entries change nothing. */
  lemma {:induction false} BuildStopped(ld: Load, entries: seq<(string, ConfigValue)>, i: nat)
    requires i <= |entries| && Build(ld, entries[..i]).1.Some?
    ensures Build(ld, entries) == Build(ld, entries[..i])
    decreases |entries| - i
  {
    if i < |entries| {
      assert entries[..i + 1][..i] == entries[..i];
      BuildStopped(ld, entries, i + 1);
    } else {
      assert entries[..i] == entries;
    }
  }

  /** Once `collect` has failed at key `i`, later keys change nothing. */
  lemma {:induction false} CollectStopped(g: Groups, i: nat, outputs: map<string, seq<seq<real>>>)
    requires i < |g.order| && Collected(g, g.order[..i + 1], outputs).error.Some?
    ensures Collected(g, g.order, outputs) == Collected(g, g.order[..i + 1], outputs)
    decreases |g.order| - i
  {
    if i + 1 < |g.order| {
      assert g.order[..i + 2][..i + 1] == g.order[..i + 1];
      CollectStopped(g, i + 1, outputs);
    } else {
      assert g.order[..i + 1] == g.order;
    }
  }

  /** `collect`'s loop over the group keys in order, up to the first
      group that throws. */
  method CollectAll(g: Groups, outputs: map<string, seq<seq<real>>>) returns (c: Collection)
    ensures c == Collected(g, g.order, outputs)
  {
    c := Collection(map[], g.buffers, None);
    var i := 0;
    while i < |g.order| && c.error.None?
      invariant 0 <= i <= |g.order|
      invariant c == Collected(g, g.order[..i], outputs)
    {
      assert g.order[..i + 1][..i] == g.order[..i];
      c := CollectOne(c, g, g.order[i], outputs);
      i := i + 1;
    }
    if i < |g.order| {
      CollectStopped(g, i - 1, outputs);
    } else {
      assert g.order[..i] == g.order;
    }
  }

  class ObservationManager {
    const flavor: Flavor
    /** The component classes the manager can build, by name. */
    const registry: set<string>
    var state: Groups

    /** A new manager has no groups, buffers or history configs. */
    constructor(flavor: Flavor)
      ensures this.flavor == flavor && registry == Registry && state == NoGroups
    {
      this.flavor := flavor;
      registry := Registry;
      state := NoGroups;
    }

    /** `onPolicyLoaded({ config, mjModel, mjData, assetMeta })`: the maps are
        cleared and rebuilt from `config.obs_config || {}`, entry by entry;
        the entry that throws ends the load. */
    method OnPolicyLoaded(obsConfig: Option<seq<(string, ConfigValue)>>, args: HookArgs,
                          isaacNames: Option<seq<string>>, width: Component -> nat) returns (err: Option<string>)
      modifies this
      ensures (state, err) == Build(Load(flavor, registry, args, isaacNames, width), obsConfig.GetOr([]))
      ensures Valid(state)
    {
      var ld := Load(flavor, registry, args, isaacNames, width);
      var entries := obsConfig.GetOr([]);
      var g := NoGroups;
      err := None;
      var i := 0;
      while i < |entries| && err.None?
        invariant 0 <= i <= |entries|
        invariant (g, err) == Build(ld, entries[..i])
      {
        BuildNext(ld, entries, i);
        var (next, e) := AddEntry(ld, g, entries[i].0, entries[i].1);
        g, err := next, e;
        i := i + 1;
      }
      if i < |entries| {
        BuildStopped(ld, entries, i);
      } else {
        assert entries[..i] == entries;
      }
      BuildValid(ld, entries);
      state := g;
    }

    /** `onPolicyCleared()`: no groups, buffers or history configs. */
    method OnPolicyCleared()
      modifies this
      ensures state == NoGroups
    {
      state := NoGroups;
    }

    /** `collect()` with the outputs each group's components compute on this
        call: one tensor per group, or the error of the first group that
        throws (the buffers of the groups before it already shifted). */
    method Collect(outputs: map<string, seq<seq<real>>>) returns (r: Result<map<string, seq<real>>>)
      requires Valid(state)
      modifies this
      ensures var c := Collected(old(state), old(state).order, outputs);
        && state == old(state).(buffers := c.buffers)
        && r == if c.error.Some? then Err(c.error.value) else Ok(c.tensors)
      ensures Valid(state)
      ensures r.Ok? <==> forall k :: k in old(state).groups ==> GroupTensor(old(state), k, outputs).Ok?
      ensures r.Ok? ==> r.value.Keys == old(state).groups.Keys
      ensures r.Ok? ==> forall k :: k in r.value ==> GroupTensor(old(state), k, outputs) == Ok(r.value[k])
    {
      var g := state;
      var c := CollectAll(g, outputs);
      CollectOutcome(g, outputs);
      state := g.(buffers := c.buffers);
      r := if c.error.Some? then Err(c.error.value) else Ok(c.tensors);
    }
  }
}
