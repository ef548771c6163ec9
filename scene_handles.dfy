/**
 * The handle teardown of `loadSceneFromURL` (identical in `scene.ts` and
 * `mujocoScene.js`): the parent's old `MjData` and `MjModel` are deleted and
 * cleared before anything else, and a new model whose `MjData` cannot be
 * created is deleted again.  WASM objects are handles; `live` is the set not
 * yet deleted.  Building the three.js scene afterwards is not modelled.
 */
module SceneHandles {
  import opened Wrappers
  import opened Text
  import opened ScenePaths

  type Handle = nat

  /** `/working/` plus the trimmed, `./`- and `public/`-stripped, normalized
      file name: where the downloaded scene XML lives. */
  function ModelPath(filename: string): (p: string)
    ensures StartsWith(p, "/working/")
    ensures p[9..] == NormalizePathSegments(StripPublic(StripDotSlashes(Trim(filename))))
  {
    "/working/" + NormalizePathSegments(StripPublic(StripDotSlashes(Trim(filename))))
  }

  /** The scene XML is looked up under `/working/` by a clean relative path:
      no leading '/', no empty, `.` or `..` segment. */
  lemma ModelPathShape(filename: string)
    ensures var rest := ModelPath(filename)[9..];
      && NormalizePathSegments(rest) == rest
      && (rest != [] ==> rest[0] != '/' && rest[|rest| - 1] != '/')
  {
    NormalizePathSegmentsShape(StripPublic(StripDotSlashes(Trim(filename))));
  }

  /** What the engine does when asked for a model and its data. */
  datatype Engine = Engine(onDisk: set<string>, modelLoads: bool, dataCreates: bool)

  /** A WASM-side object (`MjModel` or `MjData`) and whether `delete()` was called. */
  class WasmObject {
    var deleted: bool

    constructor()
      ensures !deleted
    {
      deleted := false;
    }

    /** `x.delete()`; a throwing delete is ignored by every caller. */
    method Delete()
      modifies this
      ensures deleted
    {
      deleted := true;
    }
  }

  /** The `parent` whose `mjModel`/`mjData` the loader replaces. */
  class SceneParent {
    var mjModel: WasmObject?
    var mjData: WasmObject?

    constructor()
      ensures mjModel == null && mjData == null
    {
      mjModel := null;
      mjData := null;
    }

    /**
     * The handle part of `loadSceneFromURL(mujoco, filename, parent)`: see
     * `ReplaceHandles`, called on the path the scene XML was written to.
     */
    method LoadScene(filename: string, engine: Engine) returns (r: Result<bool>, ghost newModel: WasmObject?)
      modifies this, mjModel, mjData
      ensures old(mjData) != null ==> old(mjData).deleted
      ensures old(mjModel) != null ==> old(mjModel).deleted
      ensures r.Err? <==> ModelPath(filename) !in engine.onDisk || !engine.modelLoads || !engine.dataCreates
      ensures r.Err? ==> mjModel == null && mjData == null
      ensures r.Ok? ==> mjModel == newModel && mjModel != null && mjData != null && mjModel != mjData
      ensures r.Ok? ==> fresh(mjModel) && fresh(mjData) && !mjModel.deleted && !mjData.deleted
    {
      var modelPath := ModelPath(filename);
      r, newModel := ReplaceHandles(modelPath, engine);
    }

    /**
     * The old data and model are deleted and cleared first, whatever happens
     * next; a missing XML or a failed model load leaves the parent empty; a
     * failed `MjData` deletes the new model (returned as `newModel`) too; on
     * success the parent holds a new model and new data, both undeleted.
     */
    method ReplaceHandles(modelPath: string, engine: Engine) returns (r: Result<bool>, ghost newModel: WasmObject?)
      modifies this, mjModel, mjData
      ensures old(mjData) != null ==> old(mjData).deleted
      ensures old(mjModel) != null ==> old(mjModel).deleted
      ensures r.Err? <==> modelPath !in engine.onDisk || !engine.modelLoads || !engine.dataCreates
      ensures r.Err? ==> mjModel == null && mjData == null
      ensures r.Err? ==> (newModel != null <==> modelPath in engine.onDisk && engine.modelLoads)
      ensures r.Err? && newModel != null ==> fresh(newModel) && newModel.deleted
      ensures r.Ok? ==> mjModel == newModel && mjModel != null && mjData != null && mjModel != mjData
      ensures r.Ok? ==> fresh(mjModel) && fresh(mjData) && !mjModel.deleted && !mjData.deleted
    {
      newModel := null;
      if mjData != null {
        mjData.Delete();
        mjData := null;
      }
      if mjModel != null {
        mjModel.Delete();
        mjModel := null;
      }
      if modelPath !in engine.onDisk {
        return Err("Scene XML not accessible at " + modelPath), newModel;
      }
      if !engine.modelLoads {
        return Err("Failed to load MjModel from " + modelPath), newModel;
      }
      var model := new WasmObject();
      newModel := model;
      if !engine.dataCreates {
        model.Delete();
        return Err("Failed to create MjData"), newModel;
      }
      var newData := new WasmObject();
      mjModel := model;
      mjData := newData;
      return Ok(true), newModel;
    }
  }
}
