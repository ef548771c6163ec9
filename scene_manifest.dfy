/**
 * `downloadExampleScenesFolder`, shared by the two scene loaders: pick a
 * manifest (the asset collector's list, else the folder's `index.json`),
 * keep the local string entries, clean them, drop duplicates by cleaned
 * path, and write every fetched file into the virtual file system.  One
 * download per scene path is remembered; a failed one is forgotten.
 *
 * The two copies differ in one step: `scene.ts` uses the cleaned entry as
 * it is, while `mujocoScene.js` resolves it against the scene's directory.
 */
module SceneManifest {
  import opened Wrappers
  import opened Text
  import opened AssetPaths
  import opened ScenePaths

  /** Which copy of the loader. */
  datatype Loader = CoreScene | RuntimeScene

  /** A manifest entry: the JSON value is a string or something else. */
  datatype Item = Str(s: string) | NonString

  /** A local asset: the manifest text and the path it is stored under. */
  datatype Asset = Asset(original: string, normalized: string)

  /** One file written under `/working`, as bytes or as text. */
  datatype Write = Write(target: string, binary: bool)

  /** `scenePath.replace(/^[./]+/, '')`: the leading run of '.' and '/' goes. */
  function StripDotsAndSlashes(s: string): (r: string)
    ensures r == [] || (r[0] != '.' && r[0] != '/')
    ensures |r| <= |s| && s[|s| - |r|..] == r
  {
    if s != [] && (s[0] == '.' || s[0] == '/') then StripDotsAndSlashes(s[1..]) else s
  }

  /** The filter: string entries that are not http(s) URLs. */
  predicate IsLocal(item: Item) {
    item.Str? && !StartsWith(item.s, "http://") && !StartsWith(item.s, "https://")
  }

  /** The path an entry is stored under, or nothing when it is skipped. */
  function AssetPathOf(loader: Loader, xmlDirectory: string, original: string): (r: Option<string>)
    ensures r.Some? ==> r.value != []
  {
    match loader
    case CoreScene =>
      var cleaned := CleanAssetPath(original);
      if cleaned == [] then None else Some(cleaned)
    case RuntimeScene => ResolveAssetPath(xmlDirectory, original)
  }

  /** The `filter`/`map`/`filter(Boolean)` chain over the manifest, with
      `pathOf` the loader's way of turning an entry into a stored path. */
  function LocalAssets(pathOf: string -> Option<string>, manifest: seq<Item>): seq<Asset> {
    if manifest == [] then []
    else
      var rest := LocalAssets(pathOf, manifest[1..]);
      if !IsLocal(manifest[0]) then rest
      else
        match pathOf(manifest[0].s)
        case None => rest
        case Some(p) => [Asset(manifest[0].s, p)] + rest
  }

  /** Every kept asset comes from a local string entry of the manifest and is
      stored under the path the loader gives that entry. */
  lemma {:induction false} LocalAssetsSpec(pathOf: string -> Option<string>, manifest: seq<Item>)
    ensures forall a :: a in LocalAssets(pathOf, manifest) ==>
      Str(a.original) in manifest && IsLocal(Str(a.original)) && pathOf(a.original) == Some(a.normalized)
  {
    if manifest != [] {
      LocalAssetsSpec(pathOf, manifest[1..]);
      assert forall x :: x in manifest[1..] ==> x in manifest;
    }
  }

  /** Every local entry the loader gives a path is kept. */
  lemma {:induction false} LocalAssetsComplete(pathOf: string -> Option<string>, manifest: seq<Item>, i: nat)
    requires i < |manifest| && IsLocal(manifest[i]) && pathOf(manifest[i].s).Some?
    ensures Asset(manifest[i].s, pathOf(manifest[i].s).value) in LocalAssets(pathOf, manifest)
  {
    if i > 0 {
      assert manifest[1..][i - 1] == manifest[i];
      LocalAssetsComplete(pathOf, manifest[1..], i - 1);
    }
  }

  /** The two loaders' paths: `scene.ts` stores an entry under its cleaned
      text, `mujocoScene.js` under the cleaned text resolved below the scene
      directory (a normalized relative path); neither stores an empty path. */
  lemma AssetPathOfSpec(loader: Loader, xmlDirectory: string, original: string)
    ensures var r := AssetPathOf(loader, xmlDirectory, original);
      && (loader.CoreScene? ==> r == (if CleanAssetPath(original) == [] then None else Some(CleanAssetPath(original))))
      && (loader.RuntimeScene? ==> r == ResolveAssetPath(xmlDirectory, original))
      && (r.Some? ==> r.value != [])
      && (loader.RuntimeScene? && r.Some? ==> r.value[0] != '/' && NormalizePathSegments(r.value) == r.value)
  {
    if loader.RuntimeScene? {
      ResolveAssetPathSpec(xmlDirectory, original);
    }
  }

  // ---------------------------------------------------------------------------
  // Deduplication by stored path

  /** No two assets are stored under the same path. */
  predicate DistinctPaths(assets: seq<Asset>) {
    forall i, j :: 0 <= i < j < |assets| ==> assets[i].normalized != assets[j].normalized
  }

  /** The assets whose path is not seen yet, first occurrences kept. */
  function UniqueFrom(assets: seq<Asset>, seen: set<string>): seq<Asset>
    decreases |assets|
  {
    if assets == [] then []
    else if assets[0].normalized in seen then UniqueFrom(assets[1..], seen)
    else [assets[0]] + UniqueFrom(assets[1..], seen + {assets[0].normalized})
  }

  function Paths(assets: seq<Asset>): set<string> {
    set a | a in assets :: a.normalized
  }

  /** The index of the first asset stored under `p` (`|assets|` when none). */
  function FirstWith(assets: seq<Asset>, p: string): (k: nat)
    ensures k <= |assets|
    ensures forall j :: 0 <= j < k ==> assets[j].normalized != p
    ensures k < |assets| ==> assets[k].normalized == p
  {
    if assets == [] then 0
    else if assets[0].normalized == p then 0
    else 1 + FirstWith(assets[1..], p)
  }

  /** The paths of the kept assets are those of the input not seen before. */
  lemma {:induction false} UniqueFromPaths(assets: seq<Asset>, seen: set<string>)
    ensures Paths(UniqueFrom(assets, seen)) == Paths(assets) - seen
    decreases |assets|
  {
    if assets != [] {
      var a := assets[0];
      var rest := assets[1..];
      assert Paths(assets) == {a.normalized} + Paths(rest) by {
        assert forall x :: x in assets <==> x == a || x in rest;
      }
      if a.normalized in seen {
        UniqueFromPaths(rest, seen);
      } else {
        UniqueFromPaths(rest, seen + {a.normalized});
        var tail := UniqueFrom(rest, seen + {a.normalized});
        assert Paths([a] + tail) == {a.normalized} + Paths(tail) by {
          assert forall x :: x in [a] + tail <==> x == a || x in tail;
        }
      }
    }
  }

  /** No two kept assets share a path. */
  lemma {:induction false} UniqueFromDistinct(assets: seq<Asset>, seen: set<string>)
    ensures DistinctPaths(UniqueFrom(assets, seen))
    decreases |assets|
  {
    if assets != [] && assets[0].normalized !in seen {
      var a := assets[0];
      var seen2 := seen + {a.normalized};
      UniqueFromDistinct(assets[1..], seen2);
      UniqueFromPaths(assets[1..], seen2);
      var tail := UniqueFrom(assets[1..], seen2);
      var r := [a] + tail;
      assert UniqueFrom(assets, seen) == r;
      forall i, j | 0 <= i < j < |r| ensures r[i].normalized != r[j].normalized {
        if i == 0 {
          assert r[j] == tail[j - 1];
          assert tail[j - 1].normalized in Paths(tail);
        }
      }
    } else if assets != [] {
      UniqueFromDistinct(assets[1..], seen);
      assert UniqueFrom(assets, seen) == UniqueFrom(assets[1..], seen);
    }
  }

  /** Each kept asset is the first one of the input with its path. */
  lemma {:induction false} UniqueFromFirst(assets: seq<Asset>, seen: set<string>)
    ensures var r := UniqueFrom(assets, seen);
      forall k :: 0 <= k < |r| ==>
        FirstWith(assets, r[k].normalized) < |assets| && r[k] == assets[FirstWith(assets, r[k].normalized)]
    decreases |assets|
  {
    if assets != [] {
      var a := assets[0];
      var rest := assets[1..];
      var seen2 := if a.normalized in seen then seen else seen + {a.normalized};
      UniqueFromFirst(rest, seen2);
      UniqueFromPaths(rest, seen2);
      var tail := UniqueFrom(rest, seen2);
      var r := UniqueFrom(assets, seen);
      assert r == (if a.normalized in seen then tail else [a] + tail);
      forall k | 0 <= k < |r|
        ensures FirstWith(assets, r[k].normalized) < |assets|
             && r[k] == assets[FirstWith(assets, r[k].normalized)]
      {
        var off := if a.normalized in seen then 0 else 1;
        if k >= off {
          assert r[k] == tail[k - off];
          assert tail[k - off].normalized in Paths(tail);
          assert r[k].normalized != a.normalized;
          assert FirstWith(assets, r[k].normalized) == 1 + FirstWith(rest, r[k].normalized);
        }
      }
    }
  }

  /** The deduplication keeps the first asset of each path, once, and every
      path of the input. */
  lemma UniqueAssetsSpec(assets: seq<Asset>)
    ensures var r := UniqueFrom(assets, {});
      && DistinctPaths(r)
      && Paths(r) == Paths(assets)
      && (forall k :: 0 <= k < |r| ==>
            FirstWith(assets, r[k].normalized) < |assets| && r[k] == assets[FirstWith(assets, r[k].normalized)])
  {
    UniqueFromDistinct(assets, {});
    UniqueFromPaths(assets, {});
    UniqueFromFirst(assets, {});
  }

  /** The `seenPaths`/`uniqueAssets` loop. */
  method UniqueAssets(assets: seq<Asset>) returns (unique: seq<Asset>)
    ensures unique == UniqueFrom(assets, {})
  {
    var seenPaths: set<string> := {};
    unique := [];
    var i := 0;
    while i < |assets|
      invariant 0 <= i <= |assets|
      invariant unique + UniqueFrom(assets[i..], seenPaths) == UniqueFrom(assets, {})
    {
      var asset := assets[i];
      assert assets[i..] == [asset] + assets[i + 1..];
      if asset.normalized !in seenPaths {
        seenPaths := seenPaths + {asset.normalized};
        unique := unique + [asset];
      }
      i := i + 1;
    }
  }

  // ---------------------------------------------------------------------------
  // Writing the fetched files

  /** The write of one fetched asset: the target is `/working/<path>`, as
      bytes when either the path or the manifest text has a binary extension. */
  function WriteOf(a: Asset): (w: Write)
    ensures |w.target| == 9 + |a.normalized| && w.target[9..] == a.normalized
  {
    Write("/working/" + a.normalized, IsBinaryAsset(a.normalized) || IsBinaryAsset(a.original))
  }

  /** The assets whose fetch succeeded, in order. */
  function FetchedAssets(unique: seq<Asset>, fetched: set<string>): seq<Asset> {
    if unique == [] then []
    else if unique[0].normalized in fetched then [unique[0]] + FetchedAssets(unique[1..], fetched)
    else FetchedAssets(unique[1..], fetched)
  }

  /** The writes for the assets whose fetch succeeded, in order. */
  function Writes(unique: seq<Asset>, fetched: set<string>): seq<Write> {
    if unique == [] then []
    else if unique[0].normalized in fetched then [WriteOf(unique[0])] + Writes(unique[1..], fetched)
    else Writes(unique[1..], fetched)
  }

  /** One write per fetched asset, in order. */
  lemma {:induction false} WritesOfFetched(unique: seq<Asset>, fetched: set<string>)
    ensures var f := FetchedAssets(unique, fetched);
      |Writes(unique, fetched)| == |f| && forall k :: 0 <= k < |f| ==> Writes(unique, fetched)[k] == WriteOf(f[k])
  {
    if unique != [] {
      WritesOfFetched(unique[1..], fetched);
    }
  }

  /** The fetched assets are the assets, in order, whose path was fetched; a
      filter keeps distinct paths distinct. */
  lemma {:induction false} FetchedAssetsSpec(unique: seq<Asset>, fetched: set<string>)
    ensures var f := FetchedAssets(unique, fetched);
      && (forall a :: a in f <==> a in unique && a.normalized in fetched)
      && (DistinctPaths(unique) ==> DistinctPaths(f))
  {
    if unique != [] {
      var a := unique[0];
      var rest := unique[1..];
      FetchedAssetsSpec(rest, fetched);
      assert forall b :: b in unique <==> b == a || b in rest;
      if DistinctPaths(unique) {
        assert DistinctPaths(rest) by {
          forall i, j | 0 <= i < j < |rest| ensures rest[i].normalized != rest[j].normalized {
            assert rest[i] == unique[i + 1] && rest[j] == unique[j + 1];
          }
        }
        if a.normalized in fetched {
          var t := FetchedAssets(rest, fetched);
          var f := [a] + t;
          forall i, j | 0 <= i < j < |f| ensures f[i].normalized != f[j].normalized {
            if i == 0 {
              assert f[j] == t[j - 1] && t[j - 1] in rest;
              var m :| 0 <= m < |rest| && rest[m] == t[j - 1];
              assert unique[m + 1] == f[j];
            } else {
              assert f[i] == t[i - 1] && f[j] == t[j - 1];
            }
          }
        }
      }
    }
  }

  /** The write loop over the responses. */
  method WriteFetched(unique: seq<Asset>, fetched: set<string>) returns (writes: seq<Write>)
    ensures writes == Writes(unique, fetched)
  {
    writes := [];
    var i := 0;
    while i < |unique|
      invariant 0 <= i <= |unique|
      invariant writes + Writes(unique[i..], fetched) == Writes(unique, fetched)
    {
      var a := unique[i];
      assert unique[i..][1..] == unique[i + 1..];
      if a.normalized in fetched {
        writes := writes + [WriteOf(a)];
      }
      i := i + 1;
    }
    assert unique[i..] == [];
  }

  // ---------------------------------------------------------------------------
  // The download and its promise cache

  /** What one call to `downloadExampleScenesFolder` does. */
  datatype Outcome =
    | NoWork                 // empty scene path, or one with no directory part
    | Cached                 // a download for this path is already remembered
    | Failed(msg: string)    // no manifest could be read, or an asset fetch rejected
    | Wrote(writes: seq<Write>)

  /** The manifest used: the collector's list when it is a non-empty array,
      else the fallback `index.json` array; nothing when both fail. */
  function ChooseManifest(collected: Option<seq<Item>>, fallback: Option<seq<Item>>): Option<seq<Item>> {
    if collected.Some? && |collected.value| > 0 then collected
    else fallback
  }

  /** The scene directory: all but the last piece of the stripped path. */
  function SceneDirectory(scenePath: string): string {
    DirName(StripDotsAndSlashes(scenePath))
  }

  /** The loader's entry-to-path function for one scene directory. */
  function PathOf(loader: Loader, xmlDirectory: string): string -> Option<string> {
    s => AssetPathOf(loader, xmlDirectory, s)
  }

  /** The work of one download once its manifest is known. */
  function Plan(loader: Loader, xmlDirectory: string, manifest: seq<Item>, fetched: set<string>): seq<Write> {
    Writes(UniqueFrom(LocalAssets(PathOf(loader, xmlDirectory), manifest), {}), fetched)
  }

  /** Some asset the download requests has a `fetch` that rejects (a network
      error, as opposed to a response that is not ok): `Promise.all` then
      rejects before any response is read. */
  predicate AnyRejected(loader: Loader, xmlDirectory: string, manifest: seq<Item>, rejected: set<string>) {
    exists a :: a in UniqueFrom(LocalAssets(PathOf(loader, xmlDirectory), manifest), {}) && a.normalized in rejected
  }

  predicate DistinctTargets(writes: seq<Write>) {
    forall i, j :: 0 <= i < j < |writes| ==> writes[i].target != writes[j].target
  }

  /** No two writes go to the same file. */
  lemma PlanDistinctTargets(loader: Loader, xmlDirectory: string, manifest: seq<Item>, fetched: set<string>)
    ensures DistinctTargets(Plan(loader, xmlDirectory, manifest, fetched))
  {
    var local := LocalAssets(PathOf(loader, xmlDirectory), manifest);
    UniqueFromDistinct(local, {});
    WritesDistinct(UniqueFrom(local, {}), fetched);
    assert Plan(loader, xmlDirectory, manifest, fetched) == Writes(UniqueFrom(local, {}), fetched);
  }

  lemma WritesDistinct(unique: seq<Asset>, fetched: set<string>)
    requires DistinctPaths(unique)
    ensures DistinctTargets(Writes(unique, fetched))
  {
    WritesOfFetched(unique, fetched);
    FetchedAssetsSpec(unique, fetched);
    var f := FetchedAssets(unique, fetched);
    var w := Writes(unique, fetched);
    forall i, j | 0 <= i < j < |w| ensures w[i].target != w[j].target {
      assert w[i].target[9..] == f[i].normalized;
      assert w[j].target[9..] == f[j].normalized;
    }
  }

  /**
   * The module-level `sceneDownloadPromises` map of one loader, with each
   * remembered download settled.  Collector results, the fallback manifest
   * and which fetches succeed are inputs.
   */
  class SceneDownloads {
    const loader: Loader
    var remembered: set<string>

    constructor (loader: Loader)
      ensures this.loader == loader && remembered == {}
    {
      this.loader := loader;
      remembered := {};
    }

    /** `downloadExampleScenesFolder(mujoco, scenePath)`: `fetched` holds the
        normalised paths whose response is ok, `rejected` those whose fetch
        rejects. */
    method Download(scenePath: string, collected: Option<seq<Item>>, fallback: Option<seq<Item>>,
                    fetched: set<string>, rejected: set<string>)
      returns (r: Outcome)
      modifies this
      ensures var key := StripDotsAndSlashes(scenePath);
        var dir := SceneDirectory(scenePath);
        var manifest := ChooseManifest(collected, fallback);
        && (scenePath == [] || dir == [] ==> r == NoWork && remembered == old(remembered))
        && (scenePath != [] && dir != [] && key in old(remembered) ==> r == Cached && remembered == old(remembered))
        && (scenePath != [] && dir != [] && key !in old(remembered) && manifest.None? ==>
              r.Failed? && remembered == old(remembered))
        && (scenePath != [] && dir != [] && key !in old(remembered) && manifest.Some? &&
            AnyRejected(loader, dir, manifest.value, rejected) ==>
              r.Failed? && remembered == old(remembered))
        && (scenePath != [] && dir != [] && key !in old(remembered) && manifest.Some? &&
            !AnyRejected(loader, dir, manifest.value, rejected) ==>
              r == Wrote(Plan(loader, dir, manifest.value, fetched)) && remembered == old(remembered) + {key})
    {
      if scenePath == [] {
        return NoWork;
      }
      var key := StripDotsAndSlashes(scenePath);
      var dir := SceneDirectory(scenePath);
      if dir == [] {
        return NoWork;
      }
      if key in remembered {
        return Cached;
      }
      var manifest := ChooseManifest(collected, fallback);
      remembered := remembered + {key};
      if manifest.None? {
        // The awaited promise rejected: it is evicted and the error rethrown.
        remembered := remembered - {key};
        assert remembered == old(remembered);
        return Failed("Both asset analysis and index.json fallback failed");
      }
      if AnyRejected(loader, dir, manifest.value, rejected) {
        // `Promise.all` rejected: the key is evicted and the error rethrown.
        remembered := remembered - {key};
        assert remembered == old(remembered);
        return Failed("Failed to fetch");
      }
      var writes := PlanWrites(dir, manifest.value, fetched);
      return Wrote(writes);
    }

    /** The writes of one download: the manifest's local assets, once each,
        for the entries whose fetch succeeded. */
    method PlanWrites(dir: string, manifest: seq<Item>, fetched: set<string>) returns (writes: seq<Write>)
      ensures writes == Plan(loader, dir, manifest, fetched)
    {
      var local := LocalAssets(PathOf(loader, dir), manifest);
      var unique := UniqueAssets(local);
      writes := WriteFetched(unique, fetched);
    }
  }
}
