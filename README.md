# muwanx core, modelled in Dafny

muwanx runs MuJoCo robot simulations and their ONNX control policies in the browser. A scene is an MJCF file with its meshes and textures. A policy drives the robot through a loop of managers that build observations, turn policy output into actuator commands and apply user commands. This project models the deterministic core of that system and proves properties of the model:

- **Asset dependency resolution.** The browser asset collector (`MuJoCoAssetCollector`) and its offline twin `generate_index.py` are modelled separately, because their search orders and archive handling differ. The model covers:
  - the path algebra;
  - directory hints from `<compiler>` elements;
  - the search order for each reference;
  - first-hit resolution against an existence probe;
  - the depth-first walk over `<include>` files.
- **Scene loading.** Covers:
  - asset path resolution and binary-asset classification;
  - the de-duplicated download manifest;
  - MuJoCo/three.js coordinate swizzles;
  - mesh (vertex, normal, uv) de-duplication;
  - texel expansion to RGBA and cube-face layout;
  - the teardown of the old WASM model and data handles.
- **Runtime orchestration.** `MujocoRuntime` is modelled as a state machine over:
  - its loop flags and service registry;
  - `applyAction`;
  - the sub-step loop and the order of manager notifications;
  - the inference guard.
- **Managers.**
  - The manager base class.
  - The Isaac action manager: index tables, smoothing, action history and PD/torque commands.
  - The passive action manager.
  - The trajectory action manager: playback clock, frame lookup, joint mapping and PD tracking.
  - The observation managers and the atomic observation components, with their newest-first histories.
  - The command manager's parameter setters.
  - The locomotion environment manager's service, ball visibility, force clearing and impulse countdown.
- **Configuration and selection.** Covers:
  - default-policy resolution and name lookup;
  - scene/metadata override chains;
  - the legacy configuration conversion;
  - the `MwxViewer` registry, builders and listeners;
  - the viewer's URL-driven selection and wrap-around navigation;
  - the `useRuntime` composables' choice, reuse and replacement of the action manager.

Pure helpers are functions with lemmas. Objects whose fields the source updates are classes whose methods state the whole new state. In-place buffer updates keep their arrays. Fetches, parsed XML/JSON, the clock and the outcome of foreign calls (the physics step, ONNX inference, downloads) enter as parameters.

## Model

| member | source | states |
|---|---|---|
| AssetPaths.NormalizePath | src/core/engine/utils/mujocoAssetCollector.ts:443-477 | the source's segment loop (skip empty and `.`, pop on `..` without going above the start, push the rest) computes exactly the segment definition `Normalize` |
| AssetPaths.NormalizeBySegments | src/core/engine/utils/mujocoAssetCollector.ts:443-477 | `_normalizePath` (`Normalize`) is the resolved segments joined by '/', with a leading '/' exactly for an absolute input whose result is not empty |
| AssetPaths.NormalizeShape | src/core/engine/utils/mujocoAssetCollector.ts:443-477 | the output has no empty, `.` or `..` segment and no trailing '/'; it starts with '/' iff the input was absolute and the result is non-empty; it is empty iff no segment survives |
| AssetPaths.DotDotAtStartDropped | src/core/engine/utils/mujocoAssetCollector.ts:459-464 | a `..` with nothing to pop is dropped: the path is clipped at the start |
| AssetPaths.SegmentsOfNormalized | src/core/engine/utils/mujocoAssetCollector.ts:443-477 | normalizing keeps the resolved segments of the path |
| AssetPaths.NormalizeIdempotent | src/core/engine/utils/mujocoAssetCollector.ts:443-477 | normalizing a normalized path changes nothing |
| AssetPaths.NormalizeCollapsed | src/core/engine/utils/mujocoAssetCollector.ts:448 | collapsing slash runs first changes neither the result nor the segments |
| AssetPaths.CollapseSlashes | src/core/engine/utils/mujocoAssetCollector.ts:448 | the result keeps the first character and never holds two '/' in a row |
| AssetPaths.SegmentsOfJoin | src/core/engine/utils/mujocoAssetCollector.ts:470 | clean segments joined by '/' split back into the same segments |
| AssetPaths.JoinCleanEmpty | src/core/engine/utils/mujocoAssetCollector.ts:470 | joined clean segments are empty iff there are none, and otherwise neither start nor end with '/' |
| AssetPaths.ResolveClean | src/core/engine/utils/mujocoAssetCollector.ts:455-468 | the segment loop only ever holds clean segments |
| AssetPaths.ResolveOfClean | src/core/engine/utils/mujocoAssetCollector.ts:455-468 | clean segments pass through the loop unchanged |
| AssetPaths.JoinPathAbsolute | src/core/engine/utils/mujocoAssetCollector.ts:484-496 | with an absolute first part, `_joinPath` is `_normalizePath` of the '/'-join of the parts other than `.` |
| AssetPaths.JoinPathRelative | src/core/engine/utils/mujocoAssetCollector.ts:484-496 | with a relative first part, `_joinPath` is the resolved segments of that join, never starting with '/' |
| AssetPaths.LastIndexOf | src/core/engine/utils/mujocoAssetCollector.ts:479-482 | the index of the last occurrence of the character, or -1 when there is none |
| AssetPaths.DirNameSpec | src/core/engine/utils/mujocoAssetCollector.ts:479-482 | `_getDirectoryPath` is everything before the last '/', and empty when there is none |
| AssetPaths.StripNamespacePlain | src/core/engine/utils/mujocoAssetCollector.ts:436-441 | a tag without ':' is returned unchanged |
| AssetPaths.StripNamespacePrefixed | src/core/engine/utils/mujocoAssetCollector.ts:436-441 | with a ':' the result is the text after the first ':' up to the next ':' or the end, so it holds no ':' |
| DirectoryHints.MergeIntoSpec | src/core/engine/utils/mujocoAssetCollector.ts:272-282 | appending the local lists: each key's list is the parent's followed by the local one, the key set is the union and the parent's keys stay in front |
| DirectoryHints.DedupValues | src/core/engine/utils/mujocoAssetCollector.ts:284-286 | every key keeps its place and its list is deduplicated |
| DirectoryHints.DedupValuesGet | src/core/engine/utils/mujocoAssetCollector.ts:284-286 | deduplicating the values keeps the keys and deduplicates each looked-up list |
| DirectoryHints.MergeHintsSpec | src/core/engine/utils/mujocoAssetCollector.ts:272-289 | every parent key survives and local keys are added, in order; each list is the parent's directories then the local ones, without repeats (first kept) and losing none; the parent value is not changed (it is a value) (the same behaviour also at examples/assets/scene/generate_index.py:123-131) |
| AssetCollector.ParseCompilerDirectoriesDistinct | src/core/engine/utils/mujocoAssetCollector.ts:192-235 | each compiler attribute name appears once among the parsed hints |
| AssetCollector.AddCompilerAttrSpec | src/core/engine/utils/mujocoAssetCollector.ts:211-231 | an attribute not ending in `dir` or `path`, or with a blank value, changes nothing; an accepted one appends its normalized directory (absolute kept, else joined onto the file's folder) under its lower-cased name |
| AssetCollector.SearchOrderSpec | src/core/engine/utils/mujocoAssetCollector.ts:291-343 | the search order holds each directory once and exactly the pushed candidates; the root folder `''` and a given rootDir are always in it |
| AssetCollector.SearchOrderIncludeFirst | src/core/engine/utils/mujocoAssetCollector.ts:295-302 | an include searches its own folder and then `''` first (only `''` when it has no folder) |
| AssetCollector.SearchOrderHintsFirst | src/core/engine/utils/mujocoAssetCollector.ts:303-310 | for any other tag the tag's hinted directories, deduplicated, form a prefix of the search order |
| AssetCollector.FirstHit | src/core/engine/utils/mujocoAssetCollector.ts:363-387 | the index of the first search directory whose candidate exists: no earlier candidate exists, and the one at the index does |
| AssetCollector.ResolveLocalFile | src/core/engine/utils/mujocoAssetCollector.ts:345-393 | blank gives nothing; an absolute value that exists is returned without its '/' ; otherwise the first existing candidate in search order, or nothing |
| AssetCollector.ResolveLocalFileSpec | src/core/engine/utils/mujocoAssetCollector.ts:345-393 | nothing exactly for a blank value or when neither the absolute path nor any candidate exists; otherwise, unless the absolute path exists, a candidate the server has with no earlier directory's candidate present |
| AssetCollector.ResolveLocalFileLoop | src/core/engine/utils/mujocoAssetCollector.ts:345-393 | the probing loop computes `ResolveLocalFile` |
| AssetCollector.Probe | src/core/engine/utils/mujocoAssetCollector.ts:363-387 | the loop stops at the first search directory whose candidate exists, which is `FirstHit` |
| AssetCollector.ResolvedIsNormalized | src/core/engine/utils/mujocoAssetCollector.ts:345-393 | every path `_resolveLocalFile` returns is normalized |
| AssetCollector.ResolveReferenceUrls | src/core/engine/utils/mujocoAssetCollector.ts:395-410 | http(s) values come back verbatim as text; `file://` values and blank values give nothing |
| AssetCollector.ArchivePieces | src/core/engine/utils/mujocoAssetCollector.ts:412-414 | `split('@', 2)` gives the text before the first '@' and the text from there up to the next '@' or the end |
| AssetCollector.ArchiveRefSpec | src/core/engine/utils/mujocoAssetCollector.ts:412-423 | `file@member` resolves only the file part and yields `resolved@member`; an empty member, an unresolved file or a file resolving to the empty path gives nothing; the member never holds '@' |
| AssetCollector.ResolveReferenceArchive | src/core/engine/utils/mujocoAssetCollector.ts:395-434 | a non-URL value holding '@' (not at the start) takes the archive branch |
| AssetCollector.ResolveReferenceLocal | src/core/engine/utils/mujocoAssetCollector.ts:426-433 | a plain local reference resolves to the file `_resolveLocalFile` finds, as a normalized path; nothing when it finds none or only the empty path |
| AssetCollector.ResolveReferenceNonEmpty | src/core/engine/utils/mujocoAssetCollector.ts:395-433 | no reference is the empty path or an empty text |
| AssetCollector.ReferenceAt | src/core/engine/utils/mujocoAssetCollector.ts:141-155 | resolving attribute k of an element gives entry k of the element's references, with the include flag set exactly for an include's `file` |
| AssetCollector.CoveredStep | src/core/engine/utils/mujocoAssetCollector.ts:143-169 | after the walk has grown, covering one more reference extends the covered prefix by one |
| AssetCollector.AssetWalk.BoundedVisit | src/core/engine/utils/mujocoAssetCollector.ts:98-104 | visiting a new file reached from the root or through an include keeps the walk bounded: the root comes first, every other visited file has the include that reached it, and every collected string has a cause |
| AssetCollector.AssetWalk.BoundedCollect | src/core/engine/utils/mujocoAssetCollector.ts:157-167 | collecting a string that a reference of a walked file names keeps every collected string caused |
| AssetCollector.AssetWalk.BoundedWalked | src/core/engine/utils/mujocoAssetCollector.ts:119-121 | recording a parsed file with its own hints merged over those of the file that reached it keeps every walked file's hints traced to the walk |
| AssetCollector.AssetWalk.Finished | src/core/engine/utils/mujocoAssetCollector.ts:173-180 | a finished walk in which every visited file is done has exactly the outcome `WalkOutcome` describes, with both its lower and its upper bounds |
| AssetCollector.AssetWalk.Walk | src/core/engine/utils/mujocoAssetCollector.ts:94-171 | the walked file is visited and collected, even when its fetch or parse fails; visited and collected only grow; no walked file's record changes; every newly visited file is done: each reference its elements make under its merged hints is collected, and an include's file is walked; the walk stays bounded |
| AssetCollector.AssetWalk.Visit | src/core/engine/utils/mujocoAssetCollector.ts:98-104 | `visited.add` and `collected.add` of the normalised path, and nothing else; the path's hints source (none for the root, the including file's otherwise) is recorded |
| AssetCollector.AssetWalk.Collect | src/core/engine/utils/mujocoAssetCollector.ts:159 | `collected.add` of a string named by a reference of a walked file, and nothing else |
| AssetCollector.AssetWalk.WalkParsed | src/core/engine/utils/mujocoAssetCollector.ts:119-170 | a parsed file's own hints are merged over its parent's, it is recorded with the references it makes under them, and it is done |
| AssetCollector.AssetWalk.FollowElements | src/core/engine/utils/mujocoAssetCollector.ts:140-170 | every reference of every element of the file is covered |
| AssetCollector.AssetWalk.FollowElement | src/core/engine/utils/mujocoAssetCollector.ts:141-169 | the element's references, a slice of the file's, are covered one after the other |
| AssetCollector.AssetWalk.FollowAttr | src/core/engine/utils/mujocoAssetCollector.ts:143-168 | one attribute of an element, reference i of the file, is resolved and covered |
| AssetCollector.AssetWalk.FollowRef | src/core/engine/utils/mujocoAssetCollector.ts:157-168 | a path or text is collected, and an include's `file` path is walked with the including file's hints; reference i becomes covered |
| AssetCollector.CollectAssets | src/core/engine/utils/mujocoAssetCollector.ts:88-190 | the result is strictly sorted (so duplicate-free) and holds the root even when its fetch fails; every visited file is collected and every reference of every parsed visited file is covered (lower bound); every visited file other than the root was reached through an include of a walked file, and every collected asset is a visited file or named by a walked file's reference (upper bound); the parsed files are exactly the visited ones whose fetch and parse succeed, each walked with its own hints merged over its includer's |
| AssetCollector.AssetAnalyzer.constructor | src/core/engine/utils/mujocoAssetCollector.ts:19-40 | a new collector starts with an empty analysis cache |
| AssetCollector.AssetAnalyzer.AnalyzeScene | src/core/engine/utils/mujocoAssetCollector.ts:49-79 | blank arguments are errors; a cached key returns the cached list; a collection that throws gives `[]` uncached; otherwise the sorted list, holding the root and being exactly the outcome of a walk from it, is cached and returned |
| AssetCollector.AssetAnalyzer.ClearCache | src/core/engine/utils/mujocoAssetCollector.ts:84-86 | the cache is empty |
| Text.DedupSpec | examples/assets/scene/generate_index.py:69-80 | `unique_paths` (and the collectors' `[...new Set(xs)]`): the result has no repeats and holds exactly the input's elements |
| Text.DedupFromPrefix | examples/assets/scene/generate_index.py:69-80 | deduplicating a concatenation keeps the deduplicated left part as a prefix (first occurrences win) |
| Text.DedupDistinct | examples/assets/scene/generate_index.py:69-80 | a duplicate-free sequence is its own deduplication |
| GenerateIndex.ResolveIsClean | examples/assets/scene/generate_index.py:102-120 | resolving a value against a resolved folder gives a resolved path |
| GenerateIndex.StripNamespaceSpec | examples/assets/scene/generate_index.py:61-66 | a tag without '}' is unchanged; otherwise the tag is a '}'-free namespace, '}', and the result |
| GenerateIndex.UriPath | examples/assets/scene/generate_index.py:108-112 | what `urlparse` keeps of a `file://` remainder as location and path: its longest prefix holding no '?' or '#' |
| GenerateIndex.NormaliseToPathSpec | examples/assets/scene/generate_index.py:102-120 | blank values give nothing, and every other value a resolved path (absolute as given, relative below the base folder) |
| GenerateIndex.ParseCompilerDirectoriesSpec | examples/assets/scene/generate_index.py:83-99 | only `...dir`/`...path` attribute names become keys, each once, and no key lists a directory twice |
| GenerateIndex.AddCompilerAttrSpec | examples/assets/scene/generate_index.py:88-97 | an accepted attribute with a non-blank value appends its resolved path under its lower-cased name; any other attribute changes nothing |
| GenerateIndex.BuildSearchOrderSpec | examples/assets/scene/generate_index.py:134-154 | the order lists each directory once, exactly the candidates, always the file's own folder, and the root folder when given |
| GenerateIndex.BuildSearchOrderHintsFirst | examples/assets/scene/generate_index.py:134-154 | the tag's own hinted directories, deduplicated, come first |
| GenerateIndex.FirstExisting | examples/assets/scene/generate_index.py:176-181 | the index of the first search directory under which the value exists: none before it does, and it does |
| GenerateIndex.ResolveLocalFile | examples/assets/scene/generate_index.py:157-182 | blank gives nothing; an absolute value only if it exists; every result exists |
| GenerateIndex.ResolveLocalFileRelative | examples/assets/scene/generate_index.py:176-182 | a relative value gives the first existing candidate in search order, and nothing when none exists |
| GenerateIndex.ResolveLocalFileLoop | examples/assets/scene/generate_index.py:157-182 | the script's loop computes `ResolveLocalFile` |
| GenerateIndex.PosixRoundTrip | examples/assets/scene/generate_index.py:230-237 | reading a POSIX string back segment by segment gives its parts |
| GenerateIndex.RelStringRoundTrip | examples/assets/scene/generate_index.py:230-237 | resolving `to_relative_string` against the root gives the path back, below the root or above it |
| GenerateIndex.ResolveReferenceUrls | examples/assets/scene/generate_index.py:185-205 | blank values give nothing; http(s) values come back verbatim as text; a `file://` URI gives its path exactly when that path exists |
| GenerateIndex.ArchiveRefSpec | examples/assets/scene/generate_index.py:206-220 | `split("@", 1)` cuts at the first '@' only, so the member keeps any later '@'; the entry is the archive's root-relative name, '@' and the member; an empty member or a missing archive gives nothing |
| GenerateIndex.ResolveReferenceLocal | examples/assets/scene/generate_index.py:206-227 | a value with an '@' after its first character takes the archive branch, any other the local file branch |
| GenerateIndex.ResolveReferenceOnDisk | examples/assets/scene/generate_index.py:185-227 | every local path a reference resolves to exists |
| GenerateIndex.CoveredStep | examples/assets/scene/generate_index.py:273-293 | after the walk has grown, covering one more reference extends the covered prefix by one |
| GenerateIndex.ElementRefsAt | examples/assets/scene/generate_index.py:273-275 | an element's references sit in the file's references right after those of the elements before it |
| GenerateIndex.PyWalk.BoundedVisit | examples/assets/scene/generate_index.py:253-256 | visiting a new file reached from the root or through an include keeps the walk bounded: the root comes first, every other visited file has the include that reached it, and every collected string has a cause |
| GenerateIndex.PyWalk.BoundedCollect | examples/assets/scene/generate_index.py:288-293 | collecting a string that a reference of a walked file names keeps every collected string caused |
| GenerateIndex.PyWalk.BoundedWalked | examples/assets/scene/generate_index.py:268-271 | recording a readable file with its own hints merged over those of the file that reached it keeps every walked file's hints traced to the walk |
| GenerateIndex.PyWalk.Finished | examples/assets/scene/generate_index.py:295-296 | a finished walk in which every visited file is done has exactly the outcome `PyWalkOutcome` describes, with both its lower and its upper bounds |
| GenerateIndex.PyWalk.Walk | examples/assets/scene/generate_index.py:251-293 | the walked file is visited and collected under its root-relative name, even when missing or unparseable; visited and collected only grow; every newly visited file is done; the walk stays bounded |
| GenerateIndex.PyWalk.Visit | examples/assets/scene/generate_index.py:253-256 | `visited.add` and `collected.add` of the root-relative name, and nothing else; the hints source is recorded |
| GenerateIndex.PyWalk.Collect | examples/assets/scene/generate_index.py:288-293 | `collected.add` of a string named by a reference of a walked file, and nothing else |
| GenerateIndex.PyWalk.WalkParsed | examples/assets/scene/generate_index.py:268-293 | a readable file's own hints are merged over the parent's, it is recorded with the references it makes under them, and it is done |
| GenerateIndex.PyWalk.FollowElements | examples/assets/scene/generate_index.py:273-293 | every reference of every element is covered |
| GenerateIndex.PyWalk.FollowElement | examples/assets/scene/generate_index.py:274-293 | the element's references, a slice of the file's, are covered one after the other |
| GenerateIndex.PyWalk.FollowAttr | examples/assets/scene/generate_index.py:275-293 | one attribute of an element, reference i of the file, is resolved and covered |
| GenerateIndex.PyWalk.FollowRef | examples/assets/scene/generate_index.py:286-293 | only `include`/`file` paths are walked; other paths and non-empty texts are only collected; reference i becomes covered |
| GenerateIndex.CollectAssets | examples/assets/scene/generate_index.py:240-296 | an error exactly when the root file does not exist; otherwise a strictly sorted list in which every visited file is collected and every reference of every readable visited file is covered (lower bound), every visited file other than the root was reached through an include of a walked file and every entry is a visited file's name or named by a walked file's reference (upper bound), and the walked files are exactly the readable visited ones, each with its own hints merged over its includer's |
| Sorting.SortedList | src/core/engine/utils/mujocoAssetCollector.ts:180 | `Array.from(set).sort()`: strictly increasing, and exactly the set's elements |
| Sorting.SortedDistinct | src/core/engine/utils/mujocoAssetCollector.ts:180 | a strictly sorted list has no repeated element |
| ScenePaths.EndsWithAny | src/core/scene/scene.ts:11-14 | true iff the text ends with one of the listed extensions (the test `isBinaryAsset` applies to the lower-cased path) (the same behaviour also at src/mujoco_wasm/runtime/utils/mujocoScene.js:9-12) |
| ScenePaths.IsBinaryAssetIgnoresCase | src/core/scene/scene.ts:11-14 | `isBinaryAsset` (`IsBinaryAsset`): a path and its lower-cased form are classed alike (the same behaviour also at src/mujoco_wasm/runtime/utils/mujocoScene.js:9-12) |
| ScenePaths.NormalizePathSegmentsLoop | src/core/scene/scene.ts:29-48 | the source's loop computes the segment definition (the same behaviour also at src/mujoco_wasm/runtime/utils/mujocoScene.js:27-46) |
| ScenePaths.NormalizePathSegmentsShape | src/core/scene/scene.ts:29-48 | the result keeps the path's resolved segments, has no empty, `.` or `..` piece, never starts or ends with '/', and is a fixed point (the same behaviour also at src/mujoco_wasm/runtime/utils/mujocoScene.js:27-46) |
| ScenePaths.LeadingDotDotDropped | src/core/scene/scene.ts:37-41 | a `..` at the start has nothing to pop and is dropped (the same behaviour also at src/mujoco_wasm/runtime/utils/mujocoScene.js:35-39) |
| ScenePaths.StripDotSlashes | src/core/scene/scene.ts:56 | the result is a suffix of the input that does not start with `./` (the same behaviour also at src/mujoco_wasm/runtime/utils/mujocoScene.js:54) |
| ScenePaths.ResolveAssetPath | src/core/scene/scene.ts:50-73 | a result is never empty (the same behaviour also at src/mujoco_wasm/runtime/utils/mujocoScene.js:48-71) |
| ScenePaths.JoinedSegments | src/core/scene/scene.ts:67-72 | joining onto the scene directory resolves the cleaned path's pieces starting from the directory's own segments (the same behaviour also at src/mujoco_wasm/runtime/utils/mujocoScene.js:65-70) |
| ScenePaths.ResolveAssetPathSpec | src/core/scene/scene.ts:50-73 | blank gives nothing; an `examples/` path is returned normalized without joining; any other is resolved below the scene directory (the cleaned path alone when that is empty); every result is a non-empty normalized relative path (the same behaviour also at src/mujoco_wasm/runtime/utils/mujocoScene.js:48-71) |
| Coordinates.ThreeToMjcInverse | src/core/scene/coordinate.ts:8-18 | `threeToMjcCoordinate` (`ThreeToMjc`) undoes `mjcToThreeCoordinate` (`MjcToThree`): converting to three.js and back gives the MuJoCo vector |
| Coordinates.MjcToThreeInverse | src/core/scene/coordinate.ts:8-18 | `mjcToThreeCoordinate` (`MjcToThree`) undoes `threeToMjcCoordinate` (`ThreeToMjc`): converting to MuJoCo and back gives the three.js vector |
| Coordinates.MjcToThreeKeepsLength | src/core/scene/coordinate.ts:8-10 | `mjcToThreeCoordinate` (`MjcToThree`) is a rotation about x: it keeps vector lengths |
| Coordinates.GetPosition | src/core/scene/scene.ts:465-476 | swizzled, the stored triple converted to three.js axes; unswizzled, copied (the same behaviour also at src/mujoco_wasm/runtime/utils/mujocoScene.js:483-494) |
| Coordinates.ToMujocoPos | src/core/scene/scene.ts:493-495 | `toMujocoPos` is the three.js-to-MuJoCo conversion (the same behaviour also at src/mujoco_wasm/runtime/utils/mujocoScene.js:511-513) |
| Coordinates.PositionRoundTrip | src/core/scene/scene.ts:465-495 | `toMujocoPos(getPosition(buf, i))` is the stored triple (the same behaviour also at src/mujoco_wasm/runtime/utils/mujocoScene.js:483-513) |
| Coordinates.QuaternionSwizzle | src/core/scene/scene.ts:478-491 | swizzled, stored (w, x, y, z) at 4i becomes (-x, -z, y, -w); unswizzled, the four numbers are copied in order (the same behaviour also at src/mujoco_wasm/runtime/utils/mujocoScene.js:496-509) |
| SceneManifest.StripDotsAndSlashes | src/core/scene/scene.ts:502 | the result is a suffix of the input that does not start with '.' or '/' (the same behaviour also at src/mujoco_wasm/runtime/utils/mujocoScene.js:520) |
| SceneManifest.AssetPathOf | src/core/scene/scene.ts:551-562 | a stored path is never empty (the same behaviour also at src/mujoco_wasm/runtime/utils/mujocoScene.js:569-576) |
| SceneManifest.AssetPathOfSpec | src/core/scene/scene.ts:551-562 | `scene.ts` stores an entry under its cleaned text without joining; `mujocoScene.js` resolves it below the scene directory into a normalized relative path; unresolvable entries are skipped (the same behaviour also at src/mujoco_wasm/runtime/utils/mujocoScene.js:569-576) |
| SceneManifest.LocalAssetsSpec | src/core/scene/scene.ts:545-563 | every kept asset comes from a string, non-http(s) entry and is stored under the path the loader gives it (the same behaviour also at src/mujoco_wasm/runtime/utils/mujocoScene.js:563-577) |
| SceneManifest.LocalAssetsComplete | src/core/scene/scene.ts:545-563 | every local entry the loader gives a path is kept (the same behaviour also at src/mujoco_wasm/runtime/utils/mujocoScene.js:563-577) |
| SceneManifest.FirstWith | src/core/scene/scene.ts:565-573 | the index of the first asset stored under a path: no earlier asset has it, and that one does |
| SceneManifest.UniqueFromPaths | src/core/scene/scene.ts:565-573 | the kept paths are the input's paths not seen before |
| SceneManifest.UniqueFromDistinct | src/core/scene/scene.ts:565-573 | no two kept assets share a path |
| SceneManifest.UniqueFromFirst | src/core/scene/scene.ts:565-573 | each kept asset is the first of the input with its path |
| SceneManifest.UniqueAssetsSpec | src/core/scene/scene.ts:565-573 | deduplication keeps, once, the first asset of each path, and loses no path (the same behaviour also at src/mujoco_wasm/runtime/utils/mujocoScene.js:579-587) |
| SceneManifest.UniqueAssets | src/core/scene/scene.ts:565-573 | the `seenPaths` loop computes the first-occurrence deduplication (the same behaviour also at src/mujoco_wasm/runtime/utils/mujocoScene.js:579-587) |
| SceneManifest.WriteOf | src/core/scene/scene.ts:591-603 | the target is `/working/` followed by the stored path |
| SceneManifest.WritesOfFetched | src/core/scene/scene.ts:582-607 | one write per fetched asset, in order |
| SceneManifest.FetchedAssetsSpec | src/core/scene/scene.ts:582-589 | the fetched assets are the assets, in order, whose fetch succeeded, and their paths stay distinct |
| SceneManifest.WriteFetched | src/core/scene/scene.ts:582-607 | the response loop writes exactly the fetched assets, in order, skipping failed responses (the same behaviour also at src/mujoco_wasm/runtime/utils/mujocoScene.js:596-621) |
| SceneManifest.PlanDistinctTargets | src/core/scene/scene.ts:545-607 | no two writes of one download go to the same file |
| SceneManifest.WritesDistinct | src/core/scene/scene.ts:582-607 | distinct stored paths give distinct write targets |
| SceneManifest.SceneDownloads.constructor | src/core/scene/scene.ts:9 | no scene download is remembered at first |
| SceneManifest.SceneDownloads.Download | src/core/scene/scene.ts:497-618 | an empty scene path or one with no directory does no work; a remembered key is reused; with no usable manifest, or when some requested asset's fetch rejects (before any write), the download fails and its key is evicted; otherwise the planned writes are made and the key is remembered (the same behaviour also at src/mujoco_wasm/runtime/utils/mujocoScene.js:515-633) |
| SceneManifest.SceneDownloads.PlanWrites | src/core/scene/scene.ts:544-607 | the writes are the manifest's local assets, first occurrence of each normalised path only, for those whose fetch succeeded, in manifest order |
| MeshGeometry.SwizzleBuffer | src/core/scene/scene.ts:216-232 | after the in-place loop every triple of the buffer is its old triple converted from MuJoCo to three.js axes |
| MeshGeometry.SwizzleTwice | src/core/scene/scene.ts:216-232 | converting twice does not give the original back: it negates y and z, so a buffer must be converted exactly once |
| MeshGeometry.Corners | src/core/scene/scene.ts:255-260 | corner k of the mesh is the triple (vertex, normal, uv index) read at position k of the three face buffers |
| MeshGeometry.DedupSnoc | src/core/scene/scene.ts:261-266 | one more corner adds a new output vertex exactly when its triple has not been seen |
| MeshGeometry.PositionsSpec | src/core/scene/scene.ts:266-270 | output vertex u carries the three coordinates of its triple's vertex index |
| MeshGeometry.NormalsSpec | src/core/scene/scene.ts:271-275 | output vertex u carries the three components of its triple's normal index |
| MeshGeometry.UvsSpec | src/core/scene/scene.ts:276-279 | output vertex u carries the two coordinates of its triple's uv index; a uv index outside the uv buffer, as in a mesh without texture coordinates, reads `undefined`, taken as 0 (`At`) |
| MeshGeometry.IndexedAdd | src/core/scene/scene.ts:281 | pushing the triple's output index keeps every corner pointing at its own triple |
| MeshGeometry.IndexMapAdd | src/core/scene/scene.ts:262-266 | a new triple enters `tupleToIndex` with the next output index, and earlier entries keep theirs |
| MeshGeometry.AddCorner | src/core/scene/scene.ts:258-281 | one pass of the corner loop keeps the map, the three output buffers and the index list in step with the corners seen |
| MeshGeometry.CornersPrefix | src/core/scene/scene.ts:256-258 | the corners up to k+1 are the corners up to k followed by corner k |
| MeshGeometry.AddFace | src/core/scene/scene.ts:257-282 | the three corners of face t extend the state of the loop by exactly those corners |
| MeshGeometry.DedupCorners | src/core/scene/scene.ts:253-288 | the output vertices are the distinct corner triples in first-seen order, each with its position, normal and uv, and every corner's index names its own triple; any face indices are accepted, a read outside a buffer giving 0 |
| Textures.Texel | src/core/scene/textures.ts:14-57 | each pixel becomes exactly four RGBA bytes |
| Textures.Expanded | src/core/scene/textures.ts:14-57 | `count` pixels expand to `4 * count` bytes |
| Textures.ExpandedPixel | src/core/scene/textures.ts:14-57 | pixel p of the expansion is that pixel's texel: luminance copied to R, G and B, luminance-alpha, RGB with a full alpha, or RGBA |
| Textures.ExpandedCopy | src/core/scene/textures.ts:45-47 | four channels are copied byte for byte |
| Textures.PickTexel | src/core/scene/textures.ts:14-57 | the source channels of one pixel can be read back from its texel |
| Textures.ExpandedLossless | src/core/scene/textures.ts:14-57 | expansion to RGBA loses nothing: picking the channels back out of every expanded pixel gives that pixel's source bytes |
| Textures.ExpandedAlpha | src/core/scene/textures.ts:14-57 | the alpha fill changes only the alpha byte of luminance and RGB pixels; luminance-alpha and RGBA pixels keep their own (the same behaviour also at src/mujoco_wasm/runtime/utils/mujocoScene.js:98-149) |
| Textures.PutPixel | src/core/scene/textures.ts:19-43 | writing one pixel's four bytes extends the filled prefix by those bytes and keeps the bytes before it |
| Textures.FillLuminance | src/core/scene/textures.ts:18-26 | the luminance loop (and the fallback for unsupported channel counts) fills the buffer with the expansion (the same behaviour also at src/core/scene/textures.ts:49-55) |
| Textures.FillLuminanceAlpha | src/core/scene/textures.ts:27-36 | the luminance-alpha loop fills the buffer with the expansion |
| Textures.FillRGB | src/core/scene/textures.ts:37-44 | the RGB loop fills the buffer with the expansion, alpha 255 |
| Textures.CopyInto | src/core/scene/textures.ts:45-47 | `dest.set(src)` copies the source to the front of the buffer and keeps the rest |
| Textures.ExpandChannelsToRGBA | src/core/scene/textures.ts:14-57 | the buffer holds the expansion of its pixel count; with four channels the source is copied over the front |
| Textures.Texture2DSpec | src/core/scene/textures.ts:63-100 | a 2D texture exists exactly when the model has the texture and enough data, and then it has `width * height` RGBA pixels, each giving back the source bytes of its pixel |
| Textures.Reorder | src/core/scene/textures.ts:168-175 | the reordered face list has six faces |
| Textures.ReorderPermutation | src/core/scene/textures.ts:168-175 | the three.js face order is a permutation of MuJoCo's: each face appears once, at its inverse position |
| Textures.CubeOrderInverse | src/core/scene/textures.ts:168-175 | the face order and its inverse undo each other |
| Textures.Face | src/core/scene/textures.ts:148-166 | a face expands to `4 * faceSize * faceSize` bytes |
| Textures.CubeFacesFrom | src/core/scene/textures.ts:148-166 | the faces read are as many as asked for |
| Textures.CubeFacesFromAt | src/core/scene/textures.ts:148-166 | face k is the expansion of the data at its offset: the same offset for a repeated face, `k` faces further for a stack |
| Textures.CubeShape | src/core/scene/textures.ts:106-135 | only a square image or a stack of six square faces makes a cube, with faces as wide as the image |
| Textures.CubeFaces | src/core/scene/textures.ts:106-175 | a cube's faces are MuJoCo's faces in three.js order, each the expansion of its slice |
| Textures.CubeRepeated | src/core/scene/textures.ts:117-122 | a square image repeats its one face on all six sides (the same behaviour also at src/core/scene/textures.ts:148-175) |
| Textures.ExpandInto | src/core/scene/textures.ts:86-90 | the freshly allocated buffer holds the expansion of the source (the same behaviour also at src/core/scene/textures.ts:157-160) |
| Textures.Create2DTexture | src/core/scene/textures.ts:63-100 | the builder as written gives the specified 2D texture, null on every missing-data path |
| Textures.CreateCubeTexture | src/core/scene/textures.ts:106-180 | the builder as written gives the specified cube faces, null on every missing-data path |
| Textures.ReadCubeFaces | src/core/scene/textures.ts:148-166 | the face loop gives all six faces, or null as soon as one lacks data |
| Textures.NoneStaysNone | src/core/scene/textures.ts:148-166 | once one face lacks data, the whole cube is null |
| Textures.CreateTexture | src/core/scene/textures.ts:226-241 | the dispatch as written agrees with its specification |
| Textures.TextureOfDispatch | src/core/scene/textures.ts:226-241 | `createTexture` (`TextureOf`): null without a model or for a negative id or an unknown type; a missing type array means 2D |
| Textures.BaseTextureAgrees | src/core/scene/textures.ts:63-100 | the legacy 2D builder gives a texture exactly when `create2DTexture` does, and the pixels differ only in the alpha of luminance and RGB data (the same behaviour also at src/mujoco_wasm/runtime/utils/mujocoScene.js:73-169) |
| Textures.ExpandedFillIgnored | src/core/scene/textures.ts:27-36 | luminance-alpha and RGBA data never read the alpha fill (the same behaviour also at src/core/scene/textures.ts:45-47) |
| Textures.BaseLuminance | src/mujoco_wasm/runtime/utils/mujocoScene.js:104-114 | the legacy luminance loop writes the expansion with alpha 1 |
| Textures.BaseLuminanceAlpha | src/mujoco_wasm/runtime/utils/mujocoScene.js:115-126 | the legacy luminance-alpha loop writes the expansion |
| Textures.BaseRGB | src/mujoco_wasm/runtime/utils/mujocoScene.js:127-136 | the legacy RGB loop writes the expansion with alpha 1 |
| Textures.ExpandBase | src/mujoco_wasm/runtime/utils/mujocoScene.js:103-149 | the legacy channel switch writes the expansion with alpha 1 |
| Textures.CreateBaseTexture | src/mujoco_wasm/runtime/utils/mujocoScene.js:73-169 | the legacy builder as written agrees with its specification |
| SceneHandles.ModelPath | src/core/scene/scene.ts:86-93 | the scene XML path starts with `/working/` and continues with the trimmed, `./`- and `public/`-stripped, normalized file name (the same behaviour also at src/mujoco_wasm/runtime/utils/mujocoScene.js:181-189) |
| SceneHandles.ModelPathShape | src/core/scene/scene.ts:86-93 | the XML is looked up under `/working/` by a clean relative path: no leading '/', no empty, `.` or `..` segment (the same behaviour also at src/mujoco_wasm/runtime/utils/mujocoScene.js:181-189) |
| SceneHandles.WasmObject.Delete | src/core/scene/scene.ts:78 | `delete()` marks the WASM object as freed (the same behaviour also at src/core/scene/scene.ts:82; src/core/scene/scene.ts:119; src/core/scene/scene.ts:123) |
| SceneHandles.SceneParent.constructor | src/core/scene/scene.ts:75 | a parent starts with no model and no data |
| SceneHandles.SceneParent.LoadScene | src/core/scene/scene.ts:75-125 | the old data and model are always deleted; the load fails exactly when the XML is missing, the model does not load or the data cannot be created, and then the parent is left empty; on success the parent holds a fresh, live model and its data (the same behaviour also at src/mujoco_wasm/runtime/utils/mujocoScene.js:171-219) |
| SceneHandles.SceneParent.ReplaceHandles | src/core/scene/scene.ts:76-125 | as `LoadScene` for a given model path; in addition, a model loaded before a failed `MjData` is deleted rather than leaked (the same behaviour also at src/mujoco_wasm/runtime/utils/mujocoScene.js:172-219) |
| ManagerBase.BaseManager.constructor | src/core/engine/managers/BaseManager.ts:1-3 | a manager starts with no runtime and no hook calls (the same behaviour also at src/core/mujoco/runtime/managers/BaseManager.ts:1) |
| ManagerBase.BaseManager.AttachRuntime | src/core/engine/managers/BaseManager.ts:5-10 | the runtime is stored, then the subclass hook (when it has one) is called once with it; attaching again overwrites and calls again (the same behaviour also at src/core/mujoco/runtime/managers/BaseManager.ts:2-7) |
| ManagerBase.BaseManager.OnRuntimeAttached | src/core/engine/managers/BaseManager.ts:7-9 | the hook runs with the runtime already stored and records the call (the same behaviour also at src/core/mujoco/runtime/managers/BaseManager.ts:4-6) |
| ManagerBase.BaseManager.DefaultHook | src/core/engine/managers/BaseManager.ts:12-22 | the default lifecycle hooks change nothing (the same behaviour also at src/core/mujoco/runtime/managers/BaseManager.ts:9-19) |
| ManagerBase.AttachTwice | src/core/engine/managers/BaseManager.ts:5-10 | attaching twice leaves the second runtime in place and records both hook calls in order |
| Runtime.Notified | src/mujoco_wasm/runtime/MujocoRuntime.js:166-180 | one optional manager is notified exactly when it is present and defines the hook (the same behaviour also at src/mujoco_wasm/runtime/MujocoRuntime.js:222-237) |
| Runtime.NotifyGroup | src/mujoco_wasm/runtime/MujocoRuntime.js:222-237 | a group notification makes at most one call per member (the same behaviour also at src/mujoco_wasm/runtime/MujocoRuntime.js:324-346) |
| Runtime.NotifyGroupSpec | src/mujoco_wasm/runtime/MujocoRuntime.js:222-237 | a group notification calls exactly the members defining the hook, in list order, each once (the same behaviour also at src/mujoco_wasm/runtime/MujocoRuntime.js:324-346; src/mujoco_wasm/runtime/MujocoRuntime.js:660-720) |
| Runtime.OneStepPerSubStep | src/mujoco_wasm/runtime/MujocoRuntime.js:454-482 | each sub-step holds exactly one physics step, with its own number |
| Runtime.SubStepsRunEachStepOnce | src/mujoco_wasm/runtime/MujocoRuntime.js:453-483 | `executeSimulationSteps` (`SubSteps`) runs exactly `decimation` physics steps, numbered 0, 1, ... in order |
| Runtime.SubStepOrder | src/mujoco_wasm/runtime/MujocoRuntime.js:455-481 | within a sub-step the action manager's `beforeSimulationStep` precedes the env managers', those precede the physics step, and the `afterSimulationStep` calls follow it in the same order |
| Runtime.SleepTime | src/mujoco_wasm/runtime/MujocoRuntime.js:427-429 | the loop sleeps what is left of one control period, and never a negative time |
| Runtime.AppliedSpec | src/mujoco_wasm/runtime/MujocoRuntime.js:435-451 | `applyAction` (`Applied`) copies the action's prefix into `ctrl` and zeroes the rest; an invalid action zeroes everything |
| Runtime.Decimation | src/mujoco_wasm/runtime/MujocoRuntime.js:215-216 | the decimation is `0.02 / timestep` rounded to the nearest integer: within half a sub-step of one 20 ms control period |
| Runtime.NotifyEach | src/mujoco_wasm/runtime/MujocoRuntime.js:225-236 | the `for (const manager of ...)` loop makes exactly the calls of `NotifyGroup` |
| Runtime.AttachEach | src/mujoco_wasm/runtime/MujocoRuntime.js:113-118 | the attach loop attaches every member of the group, in order |
| Runtime.MujocoRuntime.constructor | src/mujoco_wasm/runtime/MujocoRuntime.js:10-104 | the managers are kept as given, the registry is empty, no model or policy is loaded, and the managers are attached in order |
| Runtime.MujocoRuntime.AttachManagers | src/mujoco_wasm/runtime/MujocoRuntime.js:106-119 | command, action, observation and env managers are attached in that order, and nothing else changes |
| Runtime.MujocoRuntime.RegisterService | src/mujoco_wasm/runtime/MujocoRuntime.js:121-123 | the service is stored under its name, replacing any earlier one, and nothing else changes |
| Runtime.MujocoRuntime.UnregisterService | src/mujoco_wasm/runtime/MujocoRuntime.js:125-127 | the name is removed from the registry, and nothing else changes |
| Runtime.MujocoRuntime.GetService | src/mujoco_wasm/runtime/MujocoRuntime.js:129-131 | a service is found exactly when one is registered under the name, and it is that one |
| Runtime.MujocoRuntime.ApplyAction | src/mujoco_wasm/runtime/MujocoRuntime.js:435-451 | `ctrl` holds the applied action afterwards |
| Runtime.MujocoRuntime.ExecuteSimulationSteps | src/mujoco_wasm/runtime/MujocoRuntime.js:453-483 | the trace grows by `decimation` sub-steps, and the step count and simulated time advance once per sub-step |
| Runtime.MujocoRuntime.RunSubStep | src/mujoco_wasm/runtime/MujocoRuntime.js:454-482 | one sub-step: the action manager then the env managers before the physics step and again after it; one step and one timestep in milliseconds are added |
| Runtime.Advanced | src/mujoco_wasm/runtime/MujocoRuntime.js:471-472 | sub-steps change only the time and the step count: the model flag, timestep, decimation and inference count are kept |
| Runtime.AdvancedSpec | src/mujoco_wasm/runtime/MujocoRuntime.js:453-483 | `n` sub-steps add `n` to the step count and `n` timesteps (in milliseconds) to the simulated time |
| Runtime.MujocoRuntime.StartLoop | src/mujoco_wasm/runtime/MujocoRuntime.js:359-366 | an existing loop is kept as is, so at most one loop runs; otherwise the runtime starts running |
| Runtime.MujocoRuntime.Stop | src/mujoco_wasm/runtime/MujocoRuntime.js:368-376 | afterwards the runtime is not running, not alive and has no loop |
| Runtime.MujocoRuntime.ClearPolicy | src/mujoco_wasm/runtime/MujocoRuntime.js:166-180 | the policy, its input and the inference flag are cleared, and the action manager is told, when it defines `onPolicyCleared` |
| Runtime.MujocoRuntime.LoadScene | src/mujoco_wasm/runtime/MujocoRuntime.js:182-249 | after an earlier rejected load the call rethrows and changes nothing; otherwise an invalid model quietly leaves the runtime without a model, a throwing loader leaves the runtime with no model and no `ctrl`, since `loadSceneFromURL` (src/mujoco_wasm/runtime/utils/mujocoScene.js:173-180) deletes both before it can throw, a failing metadata fetch throws with the new model and `ctrl` bound, and a full load sets the timestep and its decimation, resets the counters, binds `ctrl` and notifies the action manager and then the env managers; a throw leaves `loadingScene` rejected (`RejectedAfter`) and the call resolves exactly as `SceneLoadOk` says |
| Runtime.LoadSeries | src/mujoco_wasm/runtime/MujocoRuntime.js:182-186 | one resolve-or-reject outcome per `loadScene` call of a series, as written |
| Runtime.RejectedLoadPoisons | src/mujoco_wasm/runtime/MujocoRuntime.js:183-186 | once `loadingScene` holds a rejected promise, every later `loadScene` rejects, whatever its own scene would do |
| Runtime.FailedLoadBlocksLaterLoads | src/mujoco_wasm/runtime/MujocoRuntime.js:197-240 | a failing metadata fetch makes the following loads reject: a failure and then a good scene give two rejections |
| Runtime.LoadSeriesCorrected | src/mujoco_wasm/runtime/MujocoRuntime.js:182-243 | one outcome per call of a series with `loadingScene` cleared whatever the load's outcome |
| Runtime.CorrectedLoadsIndependent | src/mujoco_wasm/runtime/MujocoRuntime.js:182-243 | with `loadingScene` cleared whatever the outcome, each load resolves exactly when its own scene loads or is quietly invalid, whatever came before |
| Runtime.MujocoRuntime.LoadPolicy | src/mujoco_wasm/runtime/MujocoRuntime.js:303-357 | the load fails exactly when the fetch or the session fails, leaving the trace as it was; a successful load sets the policy and its input and notifies the action manager and the env managers |
| Runtime.MujocoRuntime.LoadEnvironment | src/mujoco_wasm/runtime/MujocoRuntime.js:151-164 | the runtime stops and downloads the scene first; it runs again exactly when the download, the scene load and the optional policy load all succeed, and stays stopped otherwise; a failed download or scene load keeps the policy; after the download the model and `ctrl` are those the scene load leaves (none after a throwing loader); a rejected scene load stays recorded |
| Runtime.MujocoRuntime.RunInference | src/mujoco_wasm/runtime/MujocoRuntime.js:504-527 | without a policy or while an inference runs nothing happens; otherwise an inference runs, and a failure clears the inference flag and propagates |
| Runtime.MujocoRuntime.LoopPass | src/mujoco_wasm/runtime/MujocoRuntime.js:378-434 | a pass that is not ready changes nothing; a ready pass with a trajectory manager collects observations, generates the action, leaves `ctrl` holding the applied action (`Applied`) and runs `decimation` sub-steps (`SubSteps`); with a policy it collects observations, runs inference (its output reported when an inference starts) and then the sub-steps, unless the inference fails, which stops the loop with no step taken; otherwise it runs the sub-steps alone; a running loop sleeps the rest of the control period |
| Runtime.MujocoRuntime.Pause | src/mujoco_wasm/runtime/MujocoRuntime.js:632-634 | only the pause flag is set |
| Runtime.MujocoRuntime.Resume | src/mujoco_wasm/runtime/MujocoRuntime.js:636-638 | only the pause flag is cleared |
| Runtime.MujocoRuntime.Reset | src/mujoco_wasm/runtime/MujocoRuntime.js:640-656 | without a model nothing happens; otherwise the data is reset, the runtime ends unpaused, and the command manager then the env managers are reset |
| Runtime.MujocoRuntime.Dispose | src/mujoco_wasm/runtime/MujocoRuntime.js:658-721 | the loop stops; policy and input (the inference flag stays), model, `ctrl` and registry are cleared; every manager's `dispose` runs, command manager first; the timestep, counters and the rejected-load record stay |
| Runtime.RegistryLaws | src/mujoco_wasm/runtime/MujocoRuntime.js:121-131 | a registered service is found under its name, an unregistered name is not found, and other names are unaffected |
| Runtime.AttachAll | src/mujoco_wasm/runtime/MujocoRuntime.js:106-119 | each member of a group receives one `onRuntimeAttached` notification, in order |
| IsaacAction.Actuator2Joint | src/core/action/IsaacActionManager.ts:59-66 | the mapping exists exactly when every actuator has a joint transmission, and then actuator i drives joint `trnid[2 * i]` |
| IsaacAction.BuildActuator2Joint | src/core/action/IsaacActionManager.ts:59-66 | the actuator loop fails (throws) exactly when some actuator is not joint-driven, and otherwise builds the mapping |
| IsaacAction.MjcJointNames | src/core/action/IsaacActionManager.ts:70-83 | one name per model joint; an unnamed joint 0 is the floating base |
| IsaacAction.MjcJointNamesKeepOthers | src/core/action/IsaacActionManager.ts:70-83 | only the first joint may be renamed, and only when it has no name |
| IsaacAction.FirstMissing | src/core/action/IsaacActionManager.ts:85-89 | the first policy joint the model does not name: every earlier one is named, and it is not |
| IsaacAction.JointMapOf | src/core/action/IsaacActionManager.ts:85-94 | one control, position and velocity address per policy joint |
| IsaacAction.JointMapSpec | src/core/action/IsaacActionManager.ts:85-94 | policy joint k gets its joint's `qpos` and `dof` addresses and the first actuator driving it, or -1 when none does |
| IsaacAction.BuildJointMap | src/core/action/IsaacActionManager.ts:85-94 | the lookup loop throws at the first policy joint missing from the model, holding the addresses of the joints before it, and otherwise builds the whole map |
| IsaacAction.FirstMissingAt | src/core/action/IsaacActionManager.ts:85-89 | a missing joint preceded only by present ones is the first missing |
| IsaacAction.FirstMissingNone | src/core/action/IsaacActionManager.ts:85-89 | with every joint present, none is missing |
| IsaacAction.NormalizedParamSpec | src/core/action/IsaacActionManager.ts:177-190 | a parameter becomes exactly `numActions` values: a typed array of the right length is kept, a list is read element-wise with the fallback past its end or for non-numbers, anything else is the fallback repeated |
| IsaacAction.NormalizeParam | src/core/action/IsaacActionManager.ts:177-190 | the normalising loop computes that parameter |
| IsaacAction.DefaultsFromFirstEntry | src/core/action/IsaacActionManager.ts:134-161 | only the first object-valued actuator entry decides the defaults; with none they are scale 1, stiffness 0, damping 0 |
| IsaacAction.InitialDefaults | src/core/action/IsaacActionManager.ts:142-158 | the loop with its `break` computes those defaults |
| IsaacAction.Smoothed | src/core/action/IsaacActionManager.ts:203-205 | the smoothed action has one entry per raw action |
| IsaacAction.SmoothedFromZeros | src/core/action/IsaacActionManager.ts:197-205 | starting from fresh zeros, the smoothed action is the raw action scaled by `current` |
| IsaacAction.SceneLayout | src/core/action/IsaacActionManager.ts:85-94 | the layout of a successful scene load has one address triple per policy joint |
| IsaacAction.ResolveJoints | src/core/action/IsaacActionManager.ts:59-94 | the two lookup loops fail exactly when an actuator is not joint-driven or a policy joint is missing, and otherwise give the model's joint names and the layout |
| IsaacAction.ActionDecimation | src/core/action/IsaacActionManager.ts:109 | the action decimation is at least 1 and at least the runtime's rounded decimation |
| IsaacAction.IsaacActionManager.constructor | src/core/action/IsaacActionManager.ts:36-46 | smoothing 0.2/0.8 unless given, control type `joint_position`, no actions, an empty history, decimation 1 and no defaults |
| IsaacAction.IsaacActionManager.SetActuatorParams | src/core/action/IsaacActionManager.ts:163-175 | scale, stiffness and damping become their normalised values with fallbacks 1, 0 and 0, and nothing else changes |
| IsaacAction.IsaacActionManager.InitializeDefaultActuatorParams | src/core/action/IsaacActionManager.ts:134-161 | the defaults are those of the first object entry and every action gets them, and nothing else changes |
| IsaacAction.IsaacActionManager.OnSceneLoaded | src/core/action/IsaacActionManager.ts:48-112 | the load throws exactly when the model lacks a policy joint or has a non-joint actuator; otherwise there is one action per policy joint, a zero action and four-slot zero history, the joint layout, the decimation, the actuator defaults, and action scale, `jntKp` and `jntKd` filled per action from the first actuator entry's `action_scale`, `stiffness` and `damping`; a failed load keeps all of these; the control type and every field it does not set stay |
| IsaacAction.IsaacActionManager.ResetActions | src/core/action/IsaacActionManager.ts:96-111 | the end of a scene load sizes the action and history to the policy, zeroes them, sets the decimation and the defaults, and fills action scale, `jntKp` and `jntKd` with the defaults' `actionScale`, `stiffness` and `damping`; the control type and the joint layout stay |
| IsaacAction.IsaacActionManager.OnPolicyLoaded | src/core/action/IsaacActionManager.ts:114-122 | the control type is the config's (default `joint_position`) and the parameters the config gives are normalised |
| IsaacAction.IsaacActionManager.OnPolicyCleared | src/core/action/IsaacActionManager.ts:124-132 | back to `joint_position` and the scene's defaults, or scale 1, stiffness 0, damping 0 before any scene |
| IsaacAction.IsaacActionManager.OnPolicyOutput | src/core/action/IsaacActionManager.ts:192-212 | no action, no change; otherwise the action is smoothed against the last one (zeros when missing or resized) and pushed to the front of the history |
| IsaacAction.IsaacActionManager.JointPositionTorques | src/core/action/IsaacActionManager.ts:218-227 | one PD torque per action |
| IsaacAction.IsaacActionManager.DirectTorques | src/core/action/IsaacActionManager.ts:228-233 | one torque per action |
| IsaacAction.IsaacActionManager.BeforeSimulationStep | src/core/action/IsaacActionManager.ts:214-235 | without data or an action nothing is written; `joint_position` writes the PD torques and `torque` the scaled action, each to its actuator; any other control type writes nothing |
| IsaacAction.IsaacActionManager.WriteTorques | src/core/action/IsaacActionManager.ts:219-233 | torque i lands at the control address of action i, and the rest of `ctrl` is unchanged |
| IsaacAction.IsaacActionManager.Dispose | src/core/action/IsaacActionManager.ts:241-245 | the data is dropped, so later steps write nothing; the actions are kept |
| PassiveAction.ClampCount | src/core/action/PassiveActionManager.ts:35-37 | a positive number is the action count; anything else is 0 (the same behaviour also at src/core/mujoco/runtime/managers/actions/PassiveActionManager.ts:15-17) |
| PassiveAction.EmptyStateSpec | src/core/action/PassiveActionManager.ts:35-49 | the reset state has the clamped count, the given control type, zero actions of that length and an empty history (the same behaviour also at src/core/mujoco/runtime/managers/actions/PassiveActionManager.ts:15-29) |
| PassiveAction.RuntimeView.constructor | src/core/action/PassiveActionManager.ts:51-68 | a runtime starts with no mirrored state |
| PassiveAction.PassiveActionManager.constructor | src/core/action/PassiveActionManager.ts:24-33 | control type `none`, no runtime, model, data, metadata or config, and the empty state for no actions (the same behaviour also at src/core/mujoco/runtime/managers/actions/PassiveActionManager.ts:4-13) |
| PassiveAction.PassiveActionManager.UpdateRuntimeState | src/core/action/PassiveActionManager.ts:51-68 | the state is copied onto the attached runtime, if any, and nowhere else (the same behaviour also at src/core/mujoco/runtime/managers/actions/PassiveActionManager.ts:31-48) |
| PassiveAction.PassiveActionManager.AttachRuntime | src/core/action/PassiveActionManager.ts:70-72 | attaching stores the runtime and mirrors the unchanged state onto it; the model size, control array and the metadata and policy-config flags stay (the same behaviour also at src/core/mujoco/runtime/managers/actions/PassiveActionManager.ts:50-52) |
| PassiveAction.PassiveActionManager.ResetState | src/core/action/PassiveActionManager.ts:35-49 | the state becomes the empty state for the count, keeping the control type, mirrored when attached (the same behaviour also at src/core/mujoco/runtime/managers/actions/PassiveActionManager.ts:15-29) |
| PassiveAction.PassiveActionManager.OnSceneLoaded | src/core/action/PassiveActionManager.ts:74-83 | the state is sized to the model's actuator count and `ctrl` is zeroed; the policy-config flag stays (the same behaviour also at src/core/mujoco/runtime/managers/actions/PassiveActionManager.ts:54-63) |
| PassiveAction.PassiveActionManager.OnPolicyLoaded | src/core/action/PassiveActionManager.ts:85-90 | the control type stays `none` and the state is rebuilt empty for the model's actuators; the model size, control array and metadata flag stay (the same behaviour also at src/core/mujoco/runtime/managers/actions/PassiveActionManager.ts:65-70) |
| PassiveAction.PassiveActionManager.OnPolicyCleared | src/core/action/PassiveActionManager.ts:92-97 | as a policy load, without a config (the same behaviour also at src/core/mujoco/runtime/managers/actions/PassiveActionManager.ts:72-77) |
| PassiveAction.PassiveActionManager.OnPolicyOutput | src/core/action/PassiveActionManager.ts:99-101 | a policy output changes nothing (the same behaviour also at src/core/mujoco/runtime/managers/actions/PassiveActionManager.ts:79-81) |
| PassiveAction.PassiveActionManager.BeforeSimulationStep | src/core/action/PassiveActionManager.ts:103-107 | every step leaves `ctrl` all zero (the same behaviour also at src/core/mujoco/runtime/managers/actions/PassiveActionManager.ts:83-87) |
| PassiveAction.PassiveActionManager.Dispose | src/core/action/PassiveActionManager.ts:113-122 | `ctrl` is zeroed, model, data, metadata and config are dropped, and the state is empty for no actions (the same behaviour also at src/core/mujoco/runtime/managers/actions/PassiveActionManager.ts:93-102) |
| TrajectoryAction.Actuators | src/mujoco_wasm/runtime/managers/actions/TrajectoryActionManager.js:114-115 | one entry per actuator: the joint it drives |
| TrajectoryAction.FindActuatorIndexForJoint | src/mujoco_wasm/runtime/managers/actions/TrajectoryActionManager.js:110-121 | -1 without a model; otherwise the first actuator driving the joint, or -1 when none does |
| TrajectoryAction.NamedMapping | src/mujoco_wasm/runtime/managers/actions/TrajectoryActionManager.js:73-94 | the named mappings are aligned and at most one per policy joint |
| TrajectoryAction.FallbackMapping | src/mujoco_wasm/runtime/managers/actions/TrajectoryActionManager.js:95-107 | the fallback mappings are aligned and at most one per actuator |
| TrajectoryAction.Mappings | src/mujoco_wasm/runtime/managers/actions/TrajectoryActionManager.js:61-108 | every mapping keeps its control, position, velocity and name lists aligned |
| TrajectoryAction.NamedMappingSpec | src/mujoco_wasm/runtime/managers/actions/TrajectoryActionManager.js:73-94 | every named mapping is a policy joint the model has, driven by its lowest-numbered actuator, with that joint's addresses; and every such joint is mapped |
| TrajectoryAction.FallbackMappingSpec | src/mujoco_wasm/runtime/managers/actions/TrajectoryActionManager.js:95-107 | the fallback maps exactly the actuators that drive a joint, in increasing order |
| TrajectoryAction.NamedMappingLoop | src/mujoco_wasm/runtime/managers/actions/TrajectoryActionManager.js:73-94 | the named loop computes the named mappings |
| TrajectoryAction.FallbackMappingLoop | src/mujoco_wasm/runtime/managers/actions/TrajectoryActionManager.js:95-107 | the fallback loop computes the fallback mappings |
| TrajectoryAction.NewZeros | src/mujoco_wasm/runtime/managers/actions/TrajectoryActionManager.js:49-50 | a fresh buffer of zeros |
| TrajectoryAction.ComputeMappings | src/mujoco_wasm/runtime/managers/actions/TrajectoryActionManager.js:61-108 | `buildJointMappings` computes the mappings its inputs call for |
| TrajectoryAction.LastIndex | src/mujoco_wasm/runtime/managers/actions/TrajectoryActionManager.js:146-151 | the last position holding the name, or -1 exactly when no position holds it: a later duplicate wins |
| TrajectoryAction.Remap | src/mujoco_wasm/runtime/managers/actions/TrajectoryActionManager.js:142-154 | no remap when either name list is empty; otherwise one entry per mapped joint |
| TrajectoryAction.ComputeRemap | src/mujoco_wasm/runtime/managers/actions/TrajectoryActionManager.js:142-154 | the `forEach`/`map` pair computes that remap |
| TrajectoryAction.LastIndexLookup | src/mujoco_wasm/runtime/managers/actions/TrajectoryActionManager.js:147-152 | the lookup map holds exactly the string names, each at its last position in the list |
| TrajectoryAction.TargetValue | src/mujoco_wasm/runtime/managers/actions/TrajectoryActionManager.js:264-278 | no value for a negative index, a missing or scalar container; an array container gives its entry |
| TrajectoryAction.FrameIndex | src/mujoco_wasm/runtime/managers/actions/TrajectoryActionManager.js:203-204 | the frame index is the one whose time slot holds the elapsed time |
| TrajectoryAction.FrameIndexUnique | src/mujoco_wasm/runtime/managers/actions/TrajectoryActionManager.js:203-204 | exactly one slot holds the elapsed time |
| TrajectoryAction.SameSlot | src/mujoco_wasm/runtime/managers/actions/TrajectoryActionManager.js:203-204 | two slots that both hold a time are the same slot |
| TrajectoryAction.SlotEnd | src/mujoco_wasm/runtime/managers/actions/TrajectoryActionManager.js:203-204 | a time at or after the start of slot k is past the end of every earlier slot |
| TrajectoryAction.LoadedTrajectory | src/mujoco_wasm/runtime/managers/actions/TrajectoryActionManager.js:160-172 | the kept trajectory has the given frames and a positive step: the given one, else 0.02 s |
| TrajectoryAction.Stopped | src/mujoco_wasm/runtime/managers/actions/TrajectoryActionManager.js:186-192 | after `stop()` playback is stopped and keeps its trajectory, frame and loop flag |
| TrajectoryAction.Rewound | src/mujoco_wasm/runtime/managers/actions/TrajectoryActionManager.js:194-197 | after `reset()` the frame is 0 and the clock restarts when playing, and is cleared otherwise |
| TrajectoryAction.TrajectoryActionManager.constructor | src/mujoco_wasm/runtime/managers/actions/TrajectoryActionManager.js:11-34 | gains 25 and 0.5, nothing loaded, stopped at frame 0, not looping, empty buffers |
| TrajectoryAction.TrajectoryActionManager.OnRuntimeAttached | src/mujoco_wasm/runtime/managers/actions/TrajectoryActionManager.js:36-38 | only the runtime (whether the engine is reachable) changes: playback, gains, mappings, joint names, remap and buffers stay |
| TrajectoryAction.TrajectoryActionManager.OnSceneLoaded | src/mujoco_wasm/runtime/managers/actions/TrajectoryActionManager.js:44-55 | fresh zero buffers with one entry per actuator, the mappings and the remap rebuilt, and playback stopped and rewound |
| TrajectoryAction.TrajectoryActionManager.OnPolicyCleared | src/mujoco_wasm/runtime/managers/actions/TrajectoryActionManager.js:57-59 | playback stops; scene, mappings, gains, joint names, remap and buffers stay |
| TrajectoryAction.TrajectoryActionManager.BuildJointMappings | src/mujoco_wasm/runtime/managers/actions/TrajectoryActionManager.js:61-108 | the mappings are recomputed from the scene, and nothing else changes |
| TrajectoryAction.TrajectoryActionManager.UpdateTrajectoryRemap | src/mujoco_wasm/runtime/managers/actions/TrajectoryActionManager.js:142-154 | the remap is recomputed from the mapped and the trajectory's joint names, and nothing else changes |
| TrajectoryAction.TrajectoryActionManager.LoadTrajectory | src/mujoco_wasm/runtime/managers/actions/TrajectoryActionManager.js:156-173 | data without a frame list drops the trajectory; otherwise the trajectory, its joint names and the remap are taken and playback stands stopped at frame 0; scene, mappings, gains and buffers stay |
| TrajectoryAction.TrajectoryActionManager.Play | src/mujoco_wasm/runtime/managers/actions/TrajectoryActionManager.js:175-184 | without a trajectory nothing changes; otherwise playback starts at frame 0 now; scene, mappings, gains, joint names, remap and buffers stay |
| TrajectoryAction.TrajectoryActionManager.Stop | src/mujoco_wasm/runtime/managers/actions/TrajectoryActionManager.js:186-192 | playback stops; scene, mappings, gains, joint names, remap and buffers stay |
| TrajectoryAction.TrajectoryActionManager.Reset | src/mujoco_wasm/runtime/managers/actions/TrajectoryActionManager.js:194-197 | playback is rewound; scene, mappings, gains, joint names, remap and buffers stay |
| TrajectoryAction.TargetFrame | src/mujoco_wasm/runtime/managers/actions/TrajectoryActionManager.js:199-215 | a frame is given only while playing a trajectory and is one of its frames; from the start time on, a playing non-empty trajectory always gives one |
| TrajectoryAction.AfterTarget | src/mujoco_wasm/runtime/managers/actions/TrajectoryActionManager.js:199-215 | the playback keeps its trajectory and loop flag and never starts; while it goes on playing, the target frame is the frame at the index it records |
| TrajectoryAction.TrajectoryActionManager.GetCurrentTargetState | src/mujoco_wasm/runtime/managers/actions/TrajectoryActionManager.js:199-215 | the frame is `TargetFrame` and the playback left is `AfterTarget`: nothing unless playing; the frame whose slot holds the time since the start; past the end a looping trajectory restarts at frame 0 now and a non-looping one stops on its last frame |
| TrajectoryAction.TrajectoryActionManager.CommandAdrs | src/mujoco_wasm/runtime/managers/actions/TrajectoryActionManager.js:223-241 | one control address per mapped joint |
| TrajectoryAction.TrajectoryActionManager.Commands | src/mujoco_wasm/runtime/managers/actions/TrajectoryActionManager.js:223-241 | one PD command per mapped joint |
| TrajectoryAction.TrajectoryActionManager.ComputePDControl | src/mujoco_wasm/runtime/managers/actions/TrajectoryActionManager.js:217-243 | the shared buffer is returned; without data or mappings it is all zero; otherwise it is zero except where mapped joints with a numeric target write their PD command, the last writer winning |
| TrajectoryAction.TrajectoryActionManager.GenerateAction | src/mujoco_wasm/runtime/managers/actions/TrajectoryActionManager.js:245-262 | the zero action, never written, without model and data, without a target frame (`TargetFrame`) or when the frame's `qpos` is missing or no object; otherwise the shared command buffer holding `computePDControl`'s commands towards the frame (zero without mapped joints); with model and data the playback advances as in `getCurrentTargetState` (`AfterTarget`); the scene, mappings, gains and remap stay |
| TrajectoryAction.TrajectoryActionManager.SetPDGains | src/mujoco_wasm/runtime/managers/actions/TrajectoryActionManager.js:280-287 | only numeric arguments change a gain; scene, playback, mappings, joint names, remap and buffers stay |
| TrajectoryAction.TrajectoryActionManager.SetLoop | src/mujoco_wasm/runtime/managers/actions/TrajectoryActionManager.js:289-291 | only the loop flag changes |
| TrajectoryAction.TrajectoryActionManager.Dispose | src/mujoco_wasm/runtime/managers/actions/TrajectoryActionManager.js:293-309 | playback stopped and rewound with no trajectory, no scene, no mappings or remap, empty buffers; gains and loop flag kept; the manager stays valid |
| TrajectoryAction.PdCommandSlot | src/mujoco_wasm/runtime/managers/actions/TrajectoryActionManager.js:223-241 | each actuator slot holds the command of the last mapped joint written to it, and 0 where none writes |
| Atomic.Scaled | src/core/observation/atomic.ts:46-50 | a scaled reading has three entries |
| Atomic.Flattened | src/core/observation/atomic.ts:53-57 | the flattened history has `steps * n` entries (the same behaviour also at src/core/observation/atomic.ts:236-239) |
| Atomic.Transposed | src/core/observation/atomic.ts:337-344 | the transposed layout has `steps * n` entries |
| Atomic.FlattenedAt | src/core/observation/atomic.ts:53-57 | position `i * n + j` of the flattened history holds entry j of row i, a missing row or entry reading 0 (the same behaviour also at src/core/observation/atomic.ts:346-351) |
| Atomic.TransposedAt | src/core/observation/atomic.ts:337-344 | position `j * steps + i` of the transposed layout holds entry j of row i: the same entries, column by column |
| Atomic.FlattenRows | src/core/observation/atomic.ts:346-351 | the normal flattening loop computes the flattened history, a row's entries past `n` left out |
| Atomic.FilledStep | src/core/observation/atomic.ts:339-344 | one more inner step fills exactly one more slot |
| Atomic.FilledRow | src/core/observation/atomic.ts:339-344 | finishing a row's columns is starting the next row |
| Atomic.TransposeRows | src/core/observation/atomic.ts:337-344 | the transposed loop computes the transposed layout |
| Atomic.VectorHistory.constructor | src/core/observation/atomic.ts:22-30 | `history_steps` zero vectors with the given scale (the same behaviour also at src/core/observation/atomic.ts:74-87; src/core/observation/atomic.ts:143-158) |
| Atomic.VectorHistory.Compute | src/core/observation/atomic.ts:32-62 | the scaled reading enters at slot 0, the others move one slot back, and the output is the history flattened (the same behaviour also at src/core/observation/atomic.ts:89-131; src/core/observation/atomic.ts:160-180) |
| Atomic.AngularReading | src/core/observation/atomic.ts:89-114 | the world-frame reading is `qvel[3..6]`, otherwise the rotated vector |
| Atomic.NewestFirst | src/core/observation/atomic.ts:1-6 | after a reading, block 0 of the output is that reading and every later block is the previous output's block before it: newest first (the same behaviour also at src/core/observation/atomic.ts:43-57) |
| Atomic.Readings | src/core/observation/atomic.ts:219-234 | one value per joint: scaled positions, minus the defaults when asked and present, or scaled velocities (the same behaviour also at src/core/observation/atomic.ts:293-295) |
| Atomic.PositionAdrs | src/core/observation/atomic.ts:212-216 | one address per joint: the model's `qpos` address of the named joint, or none for an unlisted joint |
| Atomic.VelocityAdrs | src/core/observation/atomic.ts:276-283 | the constructor throws exactly when a joint is not listed, and otherwise gives each joint's DoF address |
| Atomic.Contents | src/core/observation/atomic.ts:236-239 | the contents of each slot, in order |
| Atomic.ZeroArrays | src/core/observation/atomic.ts:209 | `history_steps` fresh, distinct zero arrays (the same behaviour also at src/core/observation/atomic.ts:274) |
| Atomic.JointHistory.constructor | src/core/observation/atomic.ts:194-217 | fresh zero slots of one entry per joint (the same behaviour also at src/core/observation/atomic.ts:260-284) |
| Atomic.JointHistory.Compute | src/core/observation/atomic.ts:219-246 | as written: the references move one slot back and the reading is written into slot 0, which slot 1 now shares; no slot fails only with joints and no history (the same behaviour also at src/core/observation/atomic.ts:286-311) |
| Atomic.RotatingJointHistory.constructor | src/core/observation/atomic.ts:194-217 | fresh, distinct zero slots (the same behaviour also at src/core/observation/atomic.ts:260-284) |
| Atomic.RotatingJointHistory.Compute | src/core/observation/atomic.ts:219-246 | as the code comment intends: the oldest array is reused for the new reading at slot 0, so the history stays newest first and its output is the history flattened (the same behaviour also at src/core/observation/atomic.ts:286-311) |
| Atomic.AliasedTwoReadings | src/core/observation/atomic.ts:219-246 | two readings, 1 then 2, with two slots as written give `[2, 2]`: the previous reading is lost |
| Atomic.RotatingTwoReadings | src/core/observation/atomic.ts:219-246 | the same readings with the rotating history give `[2, 1]`: newest first |
| Atomic.PreviousActionsCompute | src/core/observation/atomic.ts:334-358 | the output is the action history flattened row by row, or column by column when transposed; missing rows read as zeros |
| Atomic.ScaleList | src/core/observation/atomic.ts:372-374 | a single scale is repeated for the three axes; a list is kept |
| Atomic.VelocityCommand | src/core/observation/atomic.ts:377-382 | the command is `[command_vel_x · s0, 0, 0]`, an unset or zero speed reading 0 |
| Atomic.SimpleVelocityCommandCompute | src/core/observation/atomic.ts:377-394 | one step returns the command itself; otherwise the command is repeated `history_steps` times |
| Atomic.RepeatedCommand | src/core/observation/atomic.ts:389-393 | every block of a repeated command is the command |
| Observation.Appended | src/core/observation/ObservationManager.ts:24 | a key is listed once, in first-insertion order, as object keys are |
| Observation.HistorySteps | src/core/observation/ObservationManager.ts:33 | the history length is the given one, and 1 when it is missing or 0 (the same behaviour also at src/mujoco_wasm/runtime/managers/observations/ConfigObservationManager.js:26) |
| Observation.Substituted | src/core/observation/ObservationManager.ts:87-89 | `joint_names: 'isaac'` becomes the runtime's Isaac joint order, or absent when the runtime has none; anything else is kept (the same behaviour also at src/mujoco_wasm/runtime/managers/observations/ConfigObservationManager.js:80-82) |
| Observation.Instantiate | src/core/observation/ObservationManager.ts:80-94 | an unknown name throws; otherwise the component has the entry's name, history and (substituted) joint names, the model and data the manager passes, and the asset metadata only in the typed manager (the same behaviour also at src/mujoco_wasm/runtime/managers/observations/ConfigObservationManager.js:73-84) |
| Observation.InstantiateAll | src/core/observation/ObservationManager.ts:36-43 | the list throws exactly when some entry is unknown, and otherwise has one component per entry, each instantiated from it (the same behaviour also at src/core/observation/ObservationManager.ts:62-69; src/mujoco_wasm/runtime/managers/observations/ConfigObservationManager.js:29-36; src/mujoco_wasm/runtime/managers/observations/ConfigObservationManager.js:55-62) |
| Observation.SingleStep | src/core/observation/ObservationManager.ts:38 | every component of a history group is forced to a single step, and nothing else of its entry changes (the same behaviour also at src/mujoco_wasm/runtime/managers/observations/ConfigObservationManager.js:31) |
| Observation.WithGroup | src/core/observation/ObservationManager.ts:36 | storing a group keeps the manager's state valid (the same behaviour also at src/mujoco_wasm/runtime/managers/observations/ConfigObservationManager.js:29) |
| Observation.AddEntry | src/core/observation/ObservationManager.ts:24-70 | an entry that loads lists its key and stores its group; a history entry also stores its history config and a zero buffer of width times steps; a plain entry touches no history; an unknown component fails the load, and a load with only known components does not (the same behaviour also at src/mujoco_wasm/runtime/managers/observations/ConfigObservationManager.js:20-63) |
| Observation.AddEntryFrame | src/core/observation/ObservationManager.ts:24-70 | an entry keeps the state valid and touches only its own key (the same behaviour also at src/mujoco_wasm/runtime/managers/observations/ConfigObservationManager.js:20-63) |
| Observation.AddEntryHandles | src/core/observation/ObservationManager.ts:36-43 | an entry builds its components with the manager's model and data (the same behaviour also at src/mujoco_wasm/runtime/managers/observations/ConfigObservationManager.js:29-36) |
| Observation.BuildValid | src/core/observation/ObservationManager.ts:17-72 | the state a load (`Build`) leaves, failed or not, is valid (the same behaviour also at src/mujoco_wasm/runtime/managers/observations/ConfigObservationManager.js:13-65) |
| Observation.BuildKeys | src/core/observation/ObservationManager.ts:17-72 | a load that succeeds has exactly one group per `obs_config` key (the same behaviour also at src/mujoco_wasm/runtime/managers/observations/ConfigObservationManager.js:13-65) |
| Observation.KeysSnoc | src/core/observation/ObservationManager.ts:24 | the keys of one more entry are the earlier keys plus its own |
| Observation.BuildHandles | src/core/observation/ObservationManager.ts:17-72 | every component a load builds has the manager's model and data (the same behaviour also at src/mujoco_wasm/runtime/managers/observations/ConfigObservationManager.js:13-65) |
| Observation.LegacyComponentsLackHandles | src/mujoco_wasm/runtime/managers/observations/ConfigObservationManager.js:13 | the legacy manager as written builds every component with no model and no data, whatever the runtime passes (the same behaviour also at src/mujoco_wasm/runtime/managers/observations/ConfigObservationManager.js:32-33; src/mujoco_wasm/runtime/managers/observations/ConfigObservationManager.js:58-59; src/mujoco_wasm/runtime/managers/observations/ConfigObservationManager.js:73; src/mujoco_wasm/runtime/managers/observations/ConfigObservationManager.js:83) |
| Observation.ComponentsCarryHandles | src/core/observation/ObservationManager.ts:17 | the typed manager, and the legacy one reading `mjModel`/`mjData`, build every component with the runtime's model and data (the same behaviour also at src/core/observation/ObservationManager.ts:39-40; src/core/observation/ObservationManager.ts:65-66; src/core/observation/ObservationManager.ts:93) |
| Observation.LegacyHandleMismatch | src/mujoco_wasm/runtime/managers/observations/ConfigObservationManager.js:13-36 | one history group of a known component: the legacy manager as written builds it without data, the corrected one with it |
| Observation.ConcatFront | src/core/observation/ObservationManager.ts:105-108 | the gathered list starts with the first output and continues with the rest |
| Observation.Gather | src/core/observation/ObservationManager.ts:104-108 | the gathering loop concatenates the component outputs in order (the same behaviour also at src/core/observation/ObservationManager.ts:133-137; src/mujoco_wasm/runtime/managers/observations/ConfigObservationManager.js:94-98; src/mujoco_wasm/runtime/managers/observations/ConfigObservationManager.js:123-127) |
| Observation.ShiftedIn | src/core/observation/ObservationManager.ts:110-119 | the shift throws exactly when the current values are longer than the buffer; otherwise the buffer keeps its length, holds the current values at the front and its previous contents behind them (the same behaviour also at src/mujoco_wasm/runtime/managers/observations/ConfigObservationManager.js:100-109) |
| Observation.ShiftIn | src/core/observation/ObservationManager.ts:113-128 | the shifting loop and `buffer.set` compute that shift (the same behaviour also at src/mujoco_wasm/runtime/managers/observations/ConfigObservationManager.js:103-118) |
| Observation.GroupTensor | src/core/observation/ObservationManager.ts:99-139 | a plain group reports its outputs concatenated; a history group without a buffer throws; a history group reports its shifted buffer (the same behaviour also at src/mujoco_wasm/runtime/managers/observations/ConfigObservationManager.js:89-129) |
| Observation.CollectOne | src/core/observation/ObservationManager.ts:99-139 | the loop body computes one key's step of `collect` (the same behaviour also at src/mujoco_wasm/runtime/managers/observations/ConfigObservationManager.js:89-129) |
| Observation.CollectKeyFrame | src/core/observation/ObservationManager.ts:99-139 | one key of `collect` keeps the other keys' buffers and tensors |
| Observation.CollectKeyStep | src/core/observation/ObservationManager.ts:99-139 | one key fails exactly when its group's tensor throws, and otherwise records that tensor, and as the buffer of a history group |
| Observation.GroupTensorLocal | src/core/observation/ObservationManager.ts:110 | a group's tensor reads only its own buffer |
| Observation.CollectedBuffers | src/core/observation/ObservationManager.ts:96-143 | `collect` changes only the buffers of the keys it has been through |
| Observation.CollectedError | src/core/observation/ObservationManager.ts:96-143 | over distinct group keys, `collect` (`Collected`) fails exactly when some group's tensor throws |
| Observation.CollectedTensors | src/core/observation/ObservationManager.ts:96-143 | a `collect` that does not fail has one tensor per key visited, each that group's tensor, and history groups keep it as their buffer |
| Observation.CollectOutcome | src/core/observation/ObservationManager.ts:96-143 | over all groups (`Collected` over every key): it succeeds exactly when no group's tensor throws, then has one tensor per group, and the state stays valid (the same behaviour also at src/mujoco_wasm/runtime/managers/observations/ConfigObservationManager.js:86-133) |
| Observation.InterleavedIgnored | src/core/observation/ObservationManager.ts:113-128 | the `interleaved` flag changes nothing in `collect`: both branches shift the same way (the same behaviour also at src/mujoco_wasm/runtime/managers/observations/ConfigObservationManager.js:103-118) |
| Observation.HistoryCollect | src/core/observation/ObservationManager.ts:110-130 | a history group keeps its length, gets the current values at the front, and the previous contents behind them |
| Observation.BuildStopped | src/core/observation/ObservationManager.ts:24-70 | once a load has failed, later entries change nothing |
| Observation.CollectStopped | src/core/observation/ObservationManager.ts:99-139 | once `collect` has failed at a key, later keys change nothing |
| Observation.ObservationManager.constructor | src/core/observation/ObservationManager.ts:10-15 | a new manager has no groups, buffers or history configs (the same behaviour also at src/mujoco_wasm/runtime/managers/observations/ConfigObservationManager.js:6-11) |
| Observation.ObservationManager.OnPolicyLoaded | src/core/observation/ObservationManager.ts:17-72 | the state is rebuilt from empty maps by the `obs_config` entries in turn, up to the first that throws, and stays valid (the same behaviour also at src/mujoco_wasm/runtime/managers/observations/ConfigObservationManager.js:13-65) |
| Observation.ObservationManager.OnPolicyCleared | src/core/observation/ObservationManager.ts:74-78 | no groups, buffers or history configs (the same behaviour also at src/mujoco_wasm/runtime/managers/observations/ConfigObservationManager.js:67-71) |
| Observation.ObservationManager.Collect | src/core/observation/ObservationManager.ts:96-143 | `collect` succeeds exactly when no group's tensor throws, then reports one tensor per group, each that group's tensor; the buffers advance and the state stays valid (the same behaviour also at src/mujoco_wasm/runtime/managers/observations/ConfigObservationManager.js:86-133) |
| Commands.RuntimeParams.constructor | src/mujoco_wasm/runtime/MujocoRuntime.js:40-48 | the shared parameter record holds the given values |
| Commands.Delivered | src/core/engine/managers/CommandManager.ts:37-39 | a notification reaches the service exactly when the service exists and defines the hook, and then once (the same behaviour also at src/core/engine/managers/CommandManager.ts:46-50; src/core/engine/managers/CommandManager.ts:62-64; src/core/engine/managers/CommandManager.ts:69-71; src/core/engine/managers/CommandManager.ts:75-77) |
| Commands.SharedRuntime.constructor | src/mujoco_wasm/runtime/MujocoRuntime.js:10-104 | a runtime with the given parameters, timestep, scene and bodies and an empty registry |
| Commands.SharedRuntime.GetService | src/mujoco_wasm/runtime/MujocoRuntime.js:129-131 | a service is found exactly when one is registered under the name, and it is that one |
| Commands.ServiceNameOf | src/core/engine/managers/CommandManager.ts:17 | the configured name when non-empty, else `setpoint-control`; never empty |
| Commands.Clamp | src/core/engine/managers/CommandManager.ts:35 | the clamped value lies in the range, equals the value inside it, and the nearer end outside it |
| Commands.ClampIdempotent | src/core/engine/managers/CommandManager.ts:35 | clamping twice changes nothing more |
| Commands.CompliantKpOutsideRange | src/core/engine/managers/CommandManager.ts:33-34 | by default compliant mode stores gain 0, which lies outside the clamp range 12 to 24 that `setImpedanceKp` enforces (the same behaviour also at src/core/engine/managers/CommandManager.ts:57; src/core/engine/managers/CommandManager.ts:60) |
| Commands.GoCommandManager.constructor | src/core/engine/managers/CommandManager.ts:14-18 | the options are kept and the service name resolved; no runtime, nothing sent |
| Commands.GoCommandManager.AttachRuntime | src/core/engine/managers/CommandManager.ts:10 | the runtime is stored and nothing is sent |
| Commands.GoCommandManager.SetpointService | src/core/engine/managers/CommandManager.ts:20-22 | no service without a runtime; otherwise the runtime's service under the configured name |
| Commands.GoCommandManager.Notify | src/core/engine/managers/CommandManager.ts:37-39 | one optional hook call on the setpoint service |
| Commands.GoCommandManager.SetPaused | src/core/engine/managers/CommandManager.ts:24-26 | only `paused` changes |
| Commands.GoCommandManager.SetCommandVelocityX | src/core/engine/managers/CommandManager.ts:28-30 | only `command_vel_x` changes |
| Commands.GoCommandManager.SetImpedanceKp | src/core/engine/managers/CommandManager.ts:32-40 | the gain is the value clamped to the configured range, and the service hears that gain; nothing else changes |
| Commands.GoCommandManager.SetUseSetpoint | src/core/engine/managers/CommandManager.ts:42-52 | the flag is stored; enabling zeroes the forward speed; the service hears enabled or disabled |
| Commands.GoCommandManager.SetCompliantMode | src/core/engine/managers/CommandManager.ts:54-65 | the flag is stored; compliant mode zeroes gain and speed, otherwise the default gain is restored; the service hears the flag and the gain now stored |
| Commands.GoCommandManager.TriggerImpulse | src/core/engine/managers/CommandManager.ts:67-72 | the impulse time is the duration (0.1 s when omitted), and the service hears it |
| Commands.GoCommandManager.Reset | src/core/engine/managers/CommandManager.ts:74-78 | only the service's `reset` is called, when defined |
| LocomotionEnv.EnvServiceName | src/core/mujoco/runtime/managers/environment/LocomotionEnvManager.js:13 | the configured name, even empty, else `setpoint-control` |
| LocomotionEnv.ServiceNamesAgree | src/core/mujoco/runtime/managers/environment/LocomotionEnvManager.js:13 | the two managers use the same service name unless the configured name is the empty string (the same behaviour also at src/core/engine/managers/CommandManager.ts:17) |
| LocomotionEnv.EnvServiceReceivesAll | src/core/mujoco/runtime/managers/environment/LocomotionEnvManager.js:30 | registered under the name the command manager looks up, the env service receives every command notification (the same behaviour also at src/core/mujoco/runtime/managers/environment/LocomotionEnvManager.js:98-126; src/core/engine/managers/CommandManager.ts:20-22) |
| LocomotionEnv.ImpulseFrame | src/core/mujoco/runtime/managers/environment/LocomotionEnvManager.js:203-229 | after an impulse step the applied forces are zero except body p's six entries, which hold the force and then the torque |
| LocomotionEnv.ImpulseTorqueVanishes | src/core/mujoco/runtime/managers/environment/LocomotionEnvManager.js:204-222 | the impulse acts at the body's own position, so its torque is zero |
| LocomotionEnv.ImpulseCountdown | src/core/mujoco/runtime/managers/environment/LocomotionEnvManager.js:203 | the impulse time left drops by one timestep per step while time is left, and is positive exactly while the impulse lasts (the same behaviour also at src/core/mujoco/runtime/managers/environment/LocomotionEnvManager.js:230) |
| LocomotionEnv.EnvData.constructor | src/core/mujoco/runtime/managers/environment/LocomotionEnvManager.js:128-131 | the data handles are kept |
| LocomotionEnv.FindPelvis | src/core/mujoco/runtime/managers/environment/LocomotionEnvManager.js:134-141 | the pelvis is the lowest body below `nbody` whose object exists and is named `base`, or none |
| LocomotionEnv.LocomotionEnvManager.constructor | src/core/mujoco/runtime/managers/environment/LocomotionEnvManager.js:7-20 | the options with their defaults, ball height 0.5, impulse force (0, 50, 0), service name as configured, no policy, nothing shown |
| LocomotionEnv.LocomotionEnvManager.UpdateBallPresence | src/core/mujoco/runtime/managers/environment/LocomotionEnvManager.js:80-96 | with a ball and a scene the ball is in the scene and visible exactly when it should be shown; otherwise nothing happens |
| LocomotionEnv.LocomotionEnvManager.AttachRuntime | src/core/mujoco/runtime/managers/environment/LocomotionEnvManager.js:22-32 | the runtime is kept, the service registered under its name, and the ball's presence computed (hidden and outside a scene-less runtime); the policy id, flags, body count, data and pelvis stay; of the runtime only the registry changes, its timestep, scene flag and bodies stay |
| LocomotionEnv.LocomotionEnvManager.SetActivePolicyId | src/core/mujoco/runtime/managers/environment/LocomotionEnvManager.js:50-60 | the facet flag follows the policy id, and the ball changes only when the flag does |
| LocomotionEnv.LocomotionEnvManager.SetBallVisibilityState | src/core/mujoco/runtime/managers/environment/LocomotionEnvManager.js:62-65 | the desired visibility is stored and the ball's presence recomputed |
| LocomotionEnv.LocomotionEnvManager.SetUseSetpointActive | src/core/mujoco/runtime/managers/environment/LocomotionEnvManager.js:67-70 | the setpoint flag is stored and the ball's presence recomputed |
| LocomotionEnv.LocomotionEnvManager.SetCompliantModeActive | src/core/mujoco/runtime/managers/environment/LocomotionEnvManager.js:72-78 | the compliant flag is stored, a numeric gain copied to the runtime, and in compliant mode the ball is hidden |
| LocomotionEnv.LocomotionEnvManager.HandleServiceCall | src/core/mujoco/runtime/managers/environment/LocomotionEnvManager.js:98-126 | each service method does its one thing: active policy (with the facet flag), desired visibility (with the ball's presence), position, reset to the default position, setpoint flag, compliant flag and gain; impedance and impulse hooks change nothing; every flag and the position a call does not name stay |
| LocomotionEnv.LocomotionEnvManager.OnSceneLoaded | src/core/mujoco/runtime/managers/environment/LocomotionEnvManager.js:128-142 | the data is kept, the ball reset to its default position, and the pelvis is the first body named `base` |
| LocomotionEnv.LocomotionEnvManager.BeforeSimulationStep | src/core/mujoco/runtime/managers/environment/LocomotionEnvManager.js:144-156 | the applied forces are cleared every step; while an impulse lasts and a pelvis exists the pelvis gets the impulse wrench and one timestep is taken off the time left (the same behaviour also at src/core/mujoco/runtime/managers/environment/LocomotionEnvManager.js:203-231) |
| LocomotionEnv.LocomotionEnvManager.Reset | src/core/mujoco/runtime/managers/environment/LocomotionEnvManager.js:248-250 | without a runtime the call throws and the ball stays; otherwise the ball returns to its default position |
| LocomotionEnv.LocomotionEnvManager.Dispose | src/core/mujoco/runtime/managers/environment/LocomotionEnvManager.js:234-246 | without a runtime the call throws and nothing changes; otherwise the ball leaves the scene and the service is unregistered, and of the runtime only the registry changes |
| LocomotionEnv.ApplyImpulse | src/core/mujoco/runtime/managers/environment/LocomotionEnvManager.js:204-228 | on cleared forces, the pelvis gets the impulse force with a zero torque, since the force acts at the body's own position; every other entry stays zero |
| LocomotionEnv.WriteWrench | src/core/mujoco/runtime/managers/environment/LocomotionEnvManager.js:223-229 | the six wrench entries of body p are written, the rest unchanged |
| Control.Zeros | src/core/action/IsaacActionManager.ts:100-101 | a zero-filled array of the given length (the same behaviour also at src/mujoco_wasm/runtime/managers/actions/TrajectoryActionManager.js:49-50) |
| Control.Fill | src/core/action/IsaacActionManager.ts:188-189 | an array of the given length holding one value everywhere |
| Control.ZeroFill | src/mujoco_wasm/runtime/managers/actions/TrajectoryActionManager.js:219 | after `fill(0)` the array is all zero |
| Control.ShiftedBack | src/core/observation/atomic.ts:223-225 | the references move one slot back: slot 0 keeps its entry and every later slot holds its predecessor (the same behaviour also at src/core/observation/atomic.ts:288-290) |
| Control.ShiftBack | src/core/observation/atomic.ts:223-225 | the shift loop computes that move (the same behaviour also at src/core/observation/atomic.ts:288-290) |
| Control.Shifted | src/core/action/IsaacActionManager.ts:206-209 | the new entry enters at slot 0 and every later slot holds its predecessor; an empty history gains its first slot (the same behaviour also at src/core/observation/atomic.ts:43-50) |
| Control.ShiftHistory | src/core/action/IsaacActionManager.ts:206-209 | the shift loop followed by the slot-0 write computes that shift (the same behaviour also at src/core/observation/atomic.ts:43-50) |
| Control.IndexOf | src/core/action/IsaacActionManager.ts:86 | the first position of the element, or -1 exactly when it is absent (the same behaviour also at src/core/observation/atomic.ts:214; src/core/observation/atomic.ts:278) |
| Control.Put | src/core/action/IsaacActionManager.ts:226 | a write keeps the array's length (the same behaviour also at src/core/action/IsaacActionManager.ts:232) |
| Control.Written | src/core/action/IsaacActionManager.ts:219-233 | a series of writes keeps the array's length (the same behaviour also at src/mujoco_wasm/runtime/managers/actions/TrajectoryActionManager.js:223-241) |
| Control.LastWriter | src/mujoco_wasm/runtime/managers/actions/TrajectoryActionManager.js:223-241 | the last of the writes aimed at a slot: no later one is aimed there, or -1 when none is |
| Control.WrittenSlot | src/core/action/IsaacActionManager.ts:219-233 | after the writes each slot holds the value of the last write aimed at it, and a slot no write aimed at keeps its value (the same behaviour also at src/mujoco_wasm/runtime/managers/actions/TrajectoryActionManager.js:223-241) |
| Control.WrittenStep | src/core/action/IsaacActionManager.ts:219-233 | one more write on top of n writes |
| Control.PdTorque | src/core/action/IsaacActionManager.ts:224-225 | the PD law gives no torque with zero gains, or at the target with the target velocity (the same behaviour also at src/mujoco_wasm/runtime/managers/actions/TrajectoryActionManager.js:240) |
| ConfigRules.ResolveDefaultPolicy | src/core/utils/configUtils.ts:6-14 | no task, no policy; an explicit default wins; otherwise the first policy's id; nothing exactly when there is no task or neither a default nor a policy |
| ConfigRules.DefaultNeedNotBeListed | src/core/utils/configUtils.ts:6-14 | the explicit default is returned even when it names no listed policy |
| ConfigRules.TaskIndexByName | src/core/utils/configUtils.ts:30-37 | the first task whose name matches ignoring case, or -1 when none does |
| ConfigRules.FindTaskByName | src/core/utils/configUtils.ts:30-37 | the task found is the first one named so up to case; nothing exactly when no task is |
| ConfigRules.PolicyIndexByName | src/core/utils/configUtils.ts:42-49 | the first policy whose name matches ignoring case, or -1 when none does |
| ConfigRules.FindPolicyByName | src/core/utils/configUtils.ts:42-49 | the policy found is the first one named so up to case; nothing exactly when no policy is |
| ConfigRules.NormaliseMeta | src/core/scene/scenePolicyUtils.ts:16 | `'null'` and the empty string mean no metadata; anything else is kept |
| ConfigRules.ResolveSceneConfig | src/core/scene/scenePolicyUtils.ts:6-19 | no task, no paths; a policy's own scene and metadata override the task's; a metadata path is never `'null'` or empty |
| ConfigRules.EmptySceneOverrideWins | src/core/scene/scenePolicyUtils.ts:14 | an empty policy scene is still an override: `??` only falls through on null |
| ConfigRules.NullMetaOverrideHidesTask | src/core/scene/scenePolicyUtils.ts:15-16 | a policy metadata of `'null'` hides the task's metadata instead of falling back to it |
| ConfigRules.ResolvedMetaIsUsable | src/core/scene/scenePolicyUtils.ts:6-26 | every metadata path the resolution yields passes `hasAssetMeta` |
| ConfigRules.NeedsIsaacSpec | src/core/engine/utils/runtimeUtils.ts:10-35 | `needsIsaacActionManager` (`NeedsIsaac`): the Isaac manager is needed exactly for an object document with a non-empty Isaac joint list, a non-empty actuator table or a non-empty default joint position list; every failure means no |
| ConfigRules.ArrayDocumentNeverNeedsIsaac | src/core/engine/utils/runtimeUtils.ts:20-30 | a top-level array never needs the Isaac manager |
| ConfigRules.StringActuatorsDoNotCount | src/core/engine/utils/runtimeUtils.ts:24-26 | a string `actuators` value does not count |
| ConfigRules.ConvertPolicy | src/types/api.ts:362-369 | a policy keeps its id, name, path, scene, metadata and controls |
| ConfigRules.ConvertPolicies | src/types/api.ts:362-369 | one converted policy per legacy policy, in order |
| ConfigRules.ConvertTask | src/types/api.ts:355-370 | a scene keeps the task's id, name, scene, metadata, camera and default policy, and has as many policies |
| ConfigRules.ConvertTasks | src/types/api.ts:355-370 | one converted scene per task, in order |
| ConfigRules.ConvertLegacyConfig | src/types/api.ts:351-372 | a project without id or default scene, with the legacy name and link and one scene per task |
| ConfigRules.ConvertLegacyKeepsOrder | src/types/api.ts:351-372 | scene i is task i field by field, and its policies are the task's, one for one in order |
| ConfigRules.RecoverPoliciesInverse | src/types/api.ts:362-369 | the policies can be read back from their conversion |
| ConfigRules.RecoverTasksInverse | src/types/api.ts:355-370 | the tasks can be read back from their conversion |
| ConfigRules.ConvertLegacyRoundTrip | src/types/api.ts:351-372 | the conversion loses nothing: the legacy configuration can be read back from it |
| ViewerConfig.JoinWith | src/viewer/composables/useConfig.ts:81 | joining no warnings gives the empty text and joining one gives that warning itself |
| ViewerConfig.CountChar | src/viewer/composables/useConfig.ts:72-73 | the count of a character is at most the length and is zero exactly when the character is absent |
| ViewerConfig.CountCharAppend | src/viewer/composables/useConfig.ts:72-73 | character counts add up over concatenation |
| ViewerConfig.PolicyWarningQuotes | src/viewer/composables/useConfig.ts:73 | the quote count of the pushed policy warning is three plus the quotes inside the two names |
| ViewerConfig.PolicyWarningAsWrittenUnbalanced | src/viewer/composables/useConfig.ts:73 | for names without quotes the pushed warning (`PolicyWarningAsWritten`) holds three quote characters, so one quote is never closed |
| ViewerConfig.PolicyWarningBalanced | src/viewer/composables/useConfig.ts:72 | the corrected warning, worded like the console message, holds four quote characters: both names are quoted |
| ViewerConfig.SceneChoice | src/viewer/composables/useConfig.ts:49-61 | a non-empty scene parameter matching a task name without regard to case selects that task; otherwise the first task is selected; nothing is selected exactly when there are no tasks |
| ViewerConfig.PolicyChoice | src/viewer/composables/useConfig.ts:65-77 | a non-empty policy parameter matching a policy name of the selected task selects that policy's id; otherwise the task's default policy (the `default_policy` field, else the first policy) is selected (the same behaviour also at src/viewer/composables/useConfig.ts:21-27) |
| ViewerConfig.Warnings | src/viewer/composables/useConfig.ts:47-75 | one warning for an unmatched scene parameter, then one for an unmatched policy parameter, and no others; the policy warning is the text as pushed, `PolicyWarningAsWritten`, whose scene name is never closed by a quote |
| ViewerConfig.CorrectedWarnings | src/viewer/composables/useConfig.ts:72-73 | the corrected warnings, with the policy warning's scene name closed as in the console message, are as many as the warnings pushed |
| ViewerConfig.SceneWarningQuotes | src/viewer/composables/useConfig.ts:55 | the scene warning quotes its name: two quotes plus those inside the name |
| ViewerConfig.WarningsUnbalanced | src/viewer/composables/useConfig.ts:64-75 | with names free of quotes, an unmatched policy parameter ends the warning list with a text of three quotes, one never closed |
| ViewerConfig.CorrectedWarningsBalanced | src/viewer/composables/useConfig.ts:47-75 | with names free of quotes, every corrected warning holds an even number of quotes |
| ViewerConfig.DefaultPolicyName | src/viewer/composables/useConfig.ts:80 | any name other than "default" is the name of a policy of the task with the selected id |
| ViewerConfig.DefaultPolicyNameFrom | src/viewer/composables/useConfig.ts:80 | the same over a list of policies |
| ViewerConfig.ErrorMessage | src/viewer/composables/useConfig.ts:79-84 | the message is empty exactly when there are no warnings or no task is selected |
| ViewerConfig.ConfigRefs.constructor | src/viewer/composables/useConfig.ts:1-19 | the refs start with an empty configuration, no task, no policy and no message |
| ViewerConfig.ConfigRefs.LoadConfig | src/viewer/composables/useConfig.ts:29-89 | succeeds exactly when the configuration could be obtained, and then stores it, selects the task and policy the URL parameters choose and sets the message from the warnings, the policy warning with its unclosed quote as pushed; a failure changes nothing |
| ViewerConfig.ChooseScene | src/viewer/composables/useConfig.ts:48-60 | the task chosen is the one SceneChoice gives, with a scene warning exactly when a given name matched no task |
| ViewerConfig.ChoosePolicy | src/viewer/composables/useConfig.ts:64-76 | the policy chosen is the one PolicyChoice gives, with the policy warning as pushed (`PolicyWarningAsWritten`) exactly when a looked-up name matched no policy of the task |
| ViewerConfig.MatchedSceneIsSelected | src/viewer/composables/useConfig.ts:49-57 | a scene parameter naming an existing task selects that task, and there is no message unless the policy parameter is then looked up (the same behaviour also at src/viewer/composables/useConfig.ts:79-84) |
| ScenePolicy.TaskIds | src/viewer/composables/useScenePolicy.ts:39 | the ids of the tasks, position by position |
| ScenePolicy.PolicyIds | src/viewer/composables/useScenePolicy.ts:52 | the ids of the policies, position by position |
| ScenePolicy.IndexOfId | src/viewer/composables/useScenePolicy.ts:39 | `findIndex`: -1 or a position holding the id, with no earlier position holding it (and no position at all when -1) (the same behaviour also at src/viewer/composables/useScenePolicy.ts:52) |
| ScenePolicy.IndexOfDistinct | src/viewer/composables/useScenePolicy.ts:39 | with distinct ids, looking up the id at a position finds that position |
| ScenePolicy.WrapIndex | src/viewer/composables/useScenePolicy.ts:41-43 | one step with wrap-around stays in range and equals the step taken modulo the length (the same behaviour also at src/viewer/composables/useScenePolicy.ts:54-56) |
| ScenePolicy.WrapRoundTrip | src/viewer/composables/useScenePolicy.ts:41-43 | a step forward then back, or back then forward, returns to the start |
| ScenePolicy.StepId | src/viewer/composables/useScenePolicy.ts:36-46 | there is a next id exactly when the current id is in the list, and the next id is in the list (the same behaviour also at src/viewer/composables/useScenePolicy.ts:48-59) |
| ScenePolicy.StepRoundTrip | src/viewer/composables/useScenePolicy.ts:36-46 | with distinct ids, navigating forward then backward (or backward then forward) comes back to the same id |
| ScenePolicy.DuplicateIdsBreakRoundTrip | src/viewer/composables/useScenePolicy.ts:39 | with a repeated id the round trip fails: from `b` in `[a, b, a]` forward then backward ends at `a` |
| ScenePolicy.DefaultListedPolicy | src/viewer/composables/useScenePolicy.ts:22-23 | the task's default policy when it is listed in the task, and nothing exactly when no listed policy has the default id |
| ScenePolicy.ScenePolicyNav.constructor | src/viewer/composables/useScenePolicy.ts:4-13 | the navigator works on the given refs and has reported no changes |
| ScenePolicy.ScenePolicyNav.SelectedTask | src/viewer/composables/useScenePolicy.ts:15 | a task of the configuration carrying the current task id, and nothing exactly when no task carries it |
| ScenePolicy.ScenePolicyNav.SelectTask | src/viewer/composables/useScenePolicy.ts:18-26 | an unknown id changes nothing; a known id selects its task, sets the policy to the listed default or to none, and reports the change once |
| ScenePolicy.ScenePolicyNav.SelectPolicy | src/viewer/composables/useScenePolicy.ts:28-34 | only a policy listed by the selected task is selected and reported; otherwise nothing changes; the task never changes |
| ScenePolicy.ScenePolicyNav.NavigateScene | src/viewer/composables/useScenePolicy.ts:36-46 | the task becomes the one a wrapping step away, as `selectTask` does it: the policy becomes that task's listed default or none, and a task change is reported; the configuration and the message stay; with no tasks or an unknown current task nothing changes |
| ScenePolicy.ScenePolicyNav.NavigatePolicy | src/viewer/composables/useScenePolicy.ts:48-59 | the policy becomes the selected task's policy a wrapping step away and a policy change naming it is reported; the task, configuration and message never change; with no selected task, no policies or an unknown current policy nothing changes |
| RuntimeChoice.NeededKind | src/app/composables/useRuntime.ts:67-70 | a trajectory manager exactly when trajectories are supported and the policy's type is `trajectory`; an Isaac manager exactly when the metadata asks for one and no trajectory manager is needed; a passive manager otherwise (the same behaviour also at src/app/composables/useRuntime.ts:102-105; src/viewer/composables/useRuntime.ts:62-65) |
| RuntimeChoice.SwapEvents | src/app/composables/useRuntime.ts:80-89 | swapping in a manager disposes the runtime's current manager when there is one, then attaches and initialises the new one (the same behaviour also at src/app/composables/useRuntime.ts:106-115; src/viewer/composables/useRuntime.ts:67-77) |
| RuntimeChoice.SwapOrder | src/app/composables/useRuntime.ts:106-115 | in a swap nothing follows a disposal but steps on the new manager, and no initialisation comes before an attachment |
| RuntimeChoice.RuntimeComposable.constructor | src/app/composables/useRuntime.ts:14-30 | the refs start with no runtime and no managers, kp 24, velocity 0, the setpoint on, playback stopped and no looping (the same behaviour also at src/viewer/composables/useRuntime.ts:12-26) |
| RuntimeChoice.RuntimeComposable.BuildRuntime | src/app/composables/useRuntime.ts:170-180 | the runtime is created over the command manager and the current action manager; the other refs, the serial counter and the disposal count stay |
| RuntimeChoice.RuntimeComposable.SwapIn | src/app/composables/useRuntime.ts:80-89 | the runtime's manager becomes the new one and the lifecycle grows by the swap's dispose, attach and initialise steps; nothing else changes (the same behaviour also at src/app/composables/useRuntime.ts:106-115) |
| RuntimeChoice.RuntimeComposable.UseTrajectoryManager | src/app/composables/useRuntime.ts:70-96 | a current trajectory manager is kept with no lifecycle steps; otherwise a fresh one is swapped in (only with a live runtime); the trajectory is loaded when a path was given and read, the loop flag is passed on and playback reads stop (the same behaviour also at src/app/composables/useRuntime.ts:119-132) |
| RuntimeChoice.RuntimeComposable.KeepTrajectoryManager | src/app/composables/useRuntime.ts:72-77 | the current trajectory manager stays, with no lifecycle steps; it loads the trajectory when a path was given and read, takes the loop flag, and playback reads stop |
| RuntimeChoice.RuntimeComposable.NewTrajectoryManager | src/app/composables/useRuntime.ts:79-95 | a fresh trajectory manager replaces any other, with the swap's dispose/attach/init steps exactly when a runtime is live; it is loaded, takes the loop flag, and playback reads stop |
| RuntimeChoice.RuntimeComposable.ReadyTrajectoryManager | src/app/composables/useRuntime.ts:84-91 | the new manager stays well-formed, holds the loaded trajectory when a path was given and read, and loops as the flag says |
| RuntimeChoice.RuntimeComposable.UseStepManager | src/app/composables/useRuntime.ts:98-116 | the trajectory refs are cleared and looping is turned off; a manager of the needed kind is kept, any other is replaced by a new one swapped in when a runtime is live (the same behaviour also at src/viewer/composables/useRuntime.ts:51-79) |
| RuntimeChoice.RuntimeComposable.EnsureActionManager | src/app/composables/useRuntime.ts:56-117 | the manager ends up of the kind NeededKind names for the metadata and policy; one of that kind is kept without lifecycle steps, any other is disposed before the new one is attached and initialised; the command refs are untouched; a new step manager takes the next serial (the same behaviour also at src/viewer/composables/useRuntime.ts:51-79) |
| RuntimeChoice.RuntimeComposable.UpdateFacetKp | src/app/composables/useRuntime.ts:229-235 | the kp ref is clamped to [12, 24]; with a command manager that value, clamped again to the manager's range, is what the runtime holds, and the ref reads it back when a runtime exists (the same behaviour also at src/viewer/composables/useRuntime.ts:200-206) |
| RuntimeChoice.RuntimeComposable.UpdateUseSetpoint | src/app/composables/useRuntime.ts:237-244 | with a command manager the runtime takes the setpoint flag, and turning it on zeroes both the velocity ref and the runtime's velocity command; without one nothing changes (the same behaviour also at src/viewer/composables/useRuntime.ts:208-215) |
| RuntimeChoice.RuntimeComposable.PlayTrajectory | src/app/composables/useRuntime.ts:262-266 | with a trajectory manager playback reads play, and the manager plays exactly when it has a trajectory or was already playing; without one nothing changes |
| RuntimeChoice.RuntimeComposable.StopTrajectory | src/app/composables/useRuntime.ts:268-273 | with a trajectory manager playback reads stop and the manager is stopped; without one nothing changes |
| RuntimeChoice.RuntimeComposable.ResetTrajectory | src/app/composables/useRuntime.ts:275-280 | with a trajectory manager it rewinds to frame 0 and playback reads play if it was playing, else reset, matching whether it still plays; without one nothing changes |
| RuntimeChoice.RuntimeComposable.UpdateTrajectoryLoop | src/app/composables/useRuntime.ts:282-285 | the loop ref takes the value and the trajectory manager, if any, changes only its loop flag; every other ref stays |
| RuntimeChoice.RuntimeComposable.Dispose | src/viewer/composables/useRuntime.ts:239-246 | the runtime is disposed once if it exists, and the runtime ref is null afterwards whether or not disposal failed, and every other ref stays (the same behaviour also at src/app/composables/useRuntime.ts:287-294) |
| RuntimeChoice.DefaultRangeClampOnce | src/app/composables/useRuntime.ts:229-233 | with the command manager's default range the second clamp changes nothing: the forwarded kp is the composable's clamp |
| Viewer.Or | src/core/MwxViewer.ts:101-103 | a logical-or default: a present, non-empty string is kept, a missing or empty one gives the fallback (the same behaviour also at src/core/MwxViewer.ts:181-182) |
| Viewer.IdOr | src/core/MwxViewer.ts:43 | an id is never empty: a given non-empty id is kept, otherwise it is the prefix, a dash and the clock reading (the same behaviour also at src/core/MwxViewer.ts:101; src/core/MwxViewer.ts:181) |
| Viewer.PolicyConfig.constructor | src/core/MwxViewer.ts:179-197 | the configuration object holds the given id and name and every other given field unchanged |
| Viewer.SceneConfig.constructor | src/core/MwxViewer.ts:99-115 | the configuration object holds the given id, name and model path and every other given field unchanged |
| Viewer.ProjectConfig.constructor | src/core/MwxViewer.ts:331-335 | `{ ...project, id }`: the given fields under the given id |
| Viewer.ProjectConfig.Fields | src/core/MwxViewer.ts:80-82 | the configuration's id, scene list and default scene as they currently are |
| Viewer.PolicyConfig.Fields | src/core/MwxViewer.ts:241-243 | the policy configuration's id and name as they currently are, with its other fields |
| Viewer.SceneConfig.Fields | src/core/MwxViewer.ts:160-162 | the scene configuration's id, name, model path and policy list as they currently are, with its other fields |
| Viewer.Policy.constructor | src/core/MwxViewer.ts:179-197 | a fresh configuration whose id defaults to `policy-<clock>` and name to "Untitled Policy"; every other field is as given |
| Viewer.Policy.SetOnnx | src/core/MwxViewer.ts:200-203 | the ONNX reference is replaced; every other field of the configuration is unchanged |
| Viewer.Policy.SetObservationConfig | src/core/MwxViewer.ts:208-211 | the observation groups are replaced; every other field of the configuration is unchanged |
| Viewer.Policy.SetPDParams | src/core/MwxViewer.ts:216-220 | only a given stiffness or damping replaces the stored one; every other field of the configuration is unchanged |
| Viewer.Policy.SetActionScale | src/core/MwxViewer.ts:225-228 | the action scale is set; every other field of the configuration is unchanged |
| Viewer.Policy.SetUIControls | src/core/MwxViewer.ts:233-236 | the UI controls are replaced; every other field of the configuration is unchanged |
| Viewer.MergeMetadata | src/core/MwxViewer.ts:128-131 | `{ ...current, ...update }`: the keys of both, the update's value for its own keys and the current value for the others |
| Viewer.MergeMetadataIdempotent | src/core/MwxViewer.ts:128-131 | merging the same update twice gives what merging it once gives |
| Viewer.Scene.constructor | src/core/MwxViewer.ts:99-115 | a fresh configuration whose id defaults to `scene-<clock>`, name to "Untitled Scene" and model path to the empty string; the policies and the other fields are as given |
| Viewer.Scene.AddPolicy | src/core/MwxViewer.ts:119-123 | the new policy's configuration is appended to the scene's policies, after those already there, and every other field of the scene is unchanged; the new configuration has the given fields, its id defaulting to `policy-<clock>` and its name to "Untitled Policy" (the same behaviour also at src/core/MwxViewer.ts:179-197) |
| Viewer.Scene.SetMetadata | src/core/MwxViewer.ts:128-131 | the metadata becomes the merge of the old metadata and the update; every other field of the configuration is unchanged |
| Viewer.Scene.SetCamera | src/core/MwxViewer.ts:136-139 | the camera is replaced; every other field of the configuration is unchanged |
| Viewer.Scene.SetBackgroundColor | src/core/MwxViewer.ts:144-147 | the background colour is set; every other field of the configuration is unchanged |
| Viewer.Scene.SetDefaultPolicy | src/core/MwxViewer.ts:152-155 | the default policy id is set; every other field of the configuration is unchanged |
| Viewer.Project.constructor | src/core/MwxViewer.ts:40-49 | a fresh configuration with the given fields and an id that defaults to `project-<clock>` |
| Viewer.Project.AddScene | src/core/MwxViewer.ts:54-58 | the new scene's configuration is appended to the project's scenes, after those already there, and every other field of the project is unchanged; the new configuration has the given fields, its id defaulting to `scene-<clock>`, its name to "Untitled Scene" and its model path to the empty string (the same behaviour also at src/core/MwxViewer.ts:99-115) |
| Viewer.Project.SetMetadata | src/core/MwxViewer.ts:63-67 | only a given non-empty name or link replaces the stored one; every other field of the configuration is unchanged |
| Viewer.Project.SetDefaultScene | src/core/MwxViewer.ts:72-75 | the default scene id is set; every other field of the configuration, the link included, is unchanged |
| Viewer.AddListener | src/core/MwxViewer.ts:621-626 | adding to a set: the callback is present afterwards, nothing else is added, nothing is lost and no callback appears twice |
| Viewer.RemoveListenerSpec | src/core/MwxViewer.ts:631-633 | deleting from a set: exactly the given callback is gone and the others stay |
| Viewer.AddRemoveListener | src/core/MwxViewer.ts:621-633 | adding a callback not yet registered and then removing it restores the listener list |
| Viewer.RemoveAbsent | src/core/MwxViewer.ts:631-633 | removing a callback that is not registered changes nothing |
| Viewer.RemoveAppend | src/core/MwxViewer.ts:631-633 | removal works piecewise over a concatenation of listener lists |
| Viewer.Deliveries | src/core/MwxViewer.ts:638-646 | one call per listener, in registration order, each recording whether the listener raised |
| Viewer.DeliveriesAppend | src/core/MwxViewer.ts:638-646 | one more listener adds exactly its own call at the end |
| Viewer.SetKey | src/core/MwxViewer.ts:331-335 | `Map.set` on the key order: a new key goes last, an existing key keeps its place, and keys stay distinct (the same behaviour also at src/core/MwxViewer.ts:376) |
| Viewer.ProjectKey | src/core/MwxViewer.ts:333 | a project's key is never empty: its id if given, else its name if given, else `project-<size>` |
| Viewer.StoredKeys | src/core/MwxViewer.ts:332-335 | storing projects keeps every earlier key in its place, adds at most one key per project and keeps keys distinct |
| Viewer.SceneWithId | src/core/MwxViewer.ts:653 | a scene of the list carrying the id, and nothing exactly when none carries it |
| Viewer.PolicyWithId | src/core/MwxViewer.ts:665 | a policy of the list carrying the id, and nothing exactly when none carries it |
| Viewer.PolicyInScenes | src/core/MwxViewer.ts:664-667 | a policy carrying the id from one of the scenes, and nothing exactly when no scene lists one |
| Viewer.MwxViewer.constructor | src/core/MwxViewer.ts:260-283 | the viewer starts with no projects, no listeners, no selections and no runtime |
| Viewer.MwxViewer.ListenersOf | src/core/MwxViewer.ts:639 | an event never registered has no listeners |
| Viewer.MwxViewer.On | src/core/MwxViewer.ts:621-626 | the event's listeners gain the callback and the others are unchanged; the projects and deliveries are unchanged; the current ids, runtime parameters, stop count, container and initialised flag stay |
| Viewer.MwxViewer.Off | src/core/MwxViewer.ts:631-633 | only the given callback of that event is removed; an unregistered event stays unregistered; the current ids, runtime parameters, stop count, container and initialised flag stay |
| Viewer.MwxViewer.Emit | src/core/MwxViewer.ts:638-646 | every listener of the event is called once in registration order, including those after one that raises |
| Viewer.MwxViewer.AddProject | src/core/MwxViewer.ts:373-384 | the builder's configuration is stored under its id (replacing one with the same id in place) and becomes current exactly when it is then the only project; the scene and policy ids, runtime parameters, stop count, container and initialised flag stay |
| Viewer.MwxViewer.GetCurrentProject | src/core/MwxViewer.ts:577-579 | the project stored under the current id, and nothing when the id is unset, empty or unknown |
| Viewer.MwxViewer.StoreProject | src/core/MwxViewer.ts:332-335 | the project is stored under the key ProjectKey chooses with that key as its id; every other stored project is unchanged; the current ids, runtime parameters, stop count, container and initialised flag stay |
| Viewer.MwxViewer.GetCurrentScene | src/core/MwxViewer.ts:584-586 | the scene found for the current scene id, and nothing without one |
| Viewer.MwxViewer.GetCurrentPolicy | src/core/MwxViewer.ts:591-593 | the policy found for the current policy id, and nothing without one |
| Viewer.MwxViewer.StoreProjects | src/core/MwxViewer.ts:326-335 | the key order and the stored fields are those StoredKeys and StoredFields give for the projects in turn; the current ids, runtime parameters, stop count, container and initialised flag stay |
| Viewer.MwxViewer.LoadConfig | src/core/MwxViewer.ts:310-365 | the projects are stored in turn; the current project is the given initial project, else the first stored one; the scene to select is the given initial scene, else the current project's default scene, else its first scene; the scene and policy ids, runtime parameters, stop count, container and initialised flag stay |
| Viewer.MwxViewer.ChooseCurrentProject | src/core/MwxViewer.ts:337-341 | the current project becomes the initial project when one is given and non-empty, else the first key in insertion order, and is left unchanged when nothing is stored |
| Viewer.MwxViewer.FindScene | src/core/MwxViewer.ts:651-657 | the scene found comes from the first project, in insertion order, that has a scene with the id, and nothing exactly when no project has one |
| Viewer.MwxViewer.FindSceneFrom | src/core/MwxViewer.ts:651-657 | the same over a given suffix of the key order, taking the first project that has one |
| Viewer.MwxViewer.FindPolicy | src/core/MwxViewer.ts:662-670 | the policy found belongs to a scene of a stored project and is the first with the id in the first project, in insertion order, whose scenes list one; nothing exactly when none does |
| Viewer.MwxViewer.FindPolicyFrom | src/core/MwxViewer.ts:662-670 | the same over a given suffix of the key order |
| Viewer.MwxViewer.FindSceneFromFirst | src/core/MwxViewer.ts:651-657 | a scene found over a list of keys comes from the first project in the list that has one |
| Viewer.MwxViewer.FindSceneFromIndex | src/core/MwxViewer.ts:651-657 | the index of that first project, with no earlier project holding the scene |
| Viewer.MwxViewer.FindPolicyFromFirst | src/core/MwxViewer.ts:662-670 | a policy found over a list of keys comes from the first project in the list whose scenes list one |
| Viewer.MwxViewer.FindPolicyFromIndex | src/core/MwxViewer.ts:662-670 | the index of that first project, with no earlier project holding the policy |
| Viewer.MwxViewer.SelectProject | src/core/MwxViewer.ts:421-437 | an unknown project is an error that changes nothing; otherwise it becomes current, `project-changed` is emitted, and the scene to load is its default scene, else its first one |
| Viewer.MwxViewer.SelectScene | src/core/MwxViewer.ts:441-484 | an unknown scene is an error that changes nothing; otherwise it becomes current and `scene-changed` is emitted; a failed load also emits `error` and fails, a successful one yields the scene's default policy to select |
| Viewer.MwxViewer.SelectPolicy | src/core/MwxViewer.ts:487-526 | an unknown policy is an error that changes nothing; otherwise it becomes current and `policy-changed` is emitted; after a successful load given gains reach the runtime parameters with `params-changed`; a failed load, or gains without a runtime, emits `error` and fails |
| Viewer.MwxViewer.LoadSelectedPolicy | src/core/MwxViewer.ts:493-525 | the policy becomes current and `policy-changed` is emitted; a failed load emits `error`; after a successful load a policy giving gains passes them to the runtime parameters, or fails with `error` when there is no runtime; without gains the parameters are unchanged |
| Viewer.MwxViewer.UpdateParams | src/core/MwxViewer.ts:530-538 | without a runtime it fails with "Runtime not initialized" and changes nothing; otherwise every key of the update is assigned and `params-changed` is emitted |
| Viewer.MwxViewer.Destroy | src/core/MwxViewer.ts:684-692 | a runtime is stopped once and dropped, the projects and listeners are cleared and the viewer is no longer initialised; the current ids and the container stay |
| Viewer.StoredFields | src/core/MwxViewer.ts:332-335 | storing projects keeps every key already stored |
| Viewer.StoredKeysMatchFields | src/core/MwxViewer.ts:326-335 | after storing, the key order lists exactly the keys of the map |
| Viewer.LoadedProjectKeepsId | src/core/MwxViewer.ts:332-335 | a project with a non-empty id that no later project shares is stored, unchanged, under its id |
| Viewer.StoredFieldsKeepsUntouched | src/core/MwxViewer.ts:332-335 | a stored key that no given project uses keeps its entry |
| Viewer.Given | src/core/MwxViewer.ts:475-476 | the truthiness test on an optional id: a present, non-empty string is kept and anything else is absent |
| Viewer.PDUpdate | src/core/MwxViewer.ts:515-520 | the update `selectPolicy` passes on has exactly the stiffness and damping keys, holding the policy's gains, absent ones included |
| Viewer.DefaultSceneOf | src/core/MwxViewer.ts:349-360 | no project gives no scene; a non-empty default scene is chosen; otherwise the first scene, and none exactly when the project has no scenes (the same behaviour also at src/core/MwxViewer.ts:430-436) |

## Left out

- Network and storage: fetches, HEAD probes and writes to the MuJoCo virtual file system are inputs or events. The model takes the set of existing paths, the parsed documents and each fetch outcome as given.
- XML and JSON parsing: `DOMParser`, `ElementTree` and `JSON.parse` are not modelled. A document enters as its list of elements in document order, and JSON enters as the already-parsed value.
- The command-line part of `generate_index.py` (argument parsing, writing `index.json`) is I/O and is not modelled.
- `os.path.realpath` is modelled as lexical resolution, because symbolic links are file-system state.
- Asynchrony: awaits are taken in program order. Interleavings of overlapping promises are not modelled. Examples are a second `loadEnvironment` started while one is pending, or a `selectTask` racing a `navigateScene`. Sequential effects of a rejected promise are modelled: the `loadingScene` handle a failed `loadScene` leaves behind (see Findings) and the eviction of a rejected scene download.
- three.js and the DOM are not modelled:
  - building scene graphs, materials and lights, and rendering;
  - the canvas step of cube textures and the texture colour-space flag;
  - the container lookup of `MwxViewer.setContainer`;
  - camera application and the VR button;
  - the dragging of bodies with the mouse (LocomotionEnvManager.js lines 157-200), which needs three.js raycasting.
- Floating point:
  - all arithmetic is on exact reals, with no `Float32Array` rounding;
  - `Math.round(0.02 / timestep)` is stated with exact division;
  - NaN and infinities are not modelled: an array element read past the end (`undefined`, hence NaN in arithmetic) reads as 0 where a number is needed (`Control.RealAt`, and `MeshGeometry.At` for the mesh buffers, so a mesh without texture coordinates gets uv 0 where the source stores NaN).
- Clocks: `Date.now()` is the `stamp` parameter of the builders, and `performance.now()` is the `now` parameter of the trajectory manager. The runtime loop's sleep is the computed delay only.
- ONNX inference: what a policy session returns is an input, and observation components are opaque in the observation managers. Frame rotations by quaternions in the atomic components enter as already-rotated vectors.
- JavaScript objects order integer-like keys before other keys. The observation managers' `Collect` uses plain insertion order instead.
- IsaacAction.DefaultsFrom: the first actuator entry is taken in insertion order, where `Object.values` visits integer-like actuator names first. IsaacAction.DefaultsFromFirstEntry states the same order.
- Text.Lower: folds the ASCII letters only (through `Text.LowerChar`). JavaScript's `toLowerCase` and Python's `lower()` fold every Unicode letter, so case-insensitive matches agree with the source on ASCII text only.
- Text.Trim: removes JavaScript's `trim()` set (`Text.IsSpace`). The Python model uses the same set, while Python's `strip()` also removes U+001C to U+001F and U+0085 and keeps U+FEFF.
- Sorting.Less: compares characters as code points, as Python's `sorted` does. JavaScript's default `sort` compares UTF-16 code units, which orders characters above U+FFFF before those in U+E000 to U+FFFF.
- GenerateIndex.NormaliseToPath: a `file://` URI's location and path are cut at the query or fragment as `urlparse` does (`GenerateIndex.UriPath`), but not percent-decoded: `unquote` is not modelled.
- GenerateIndex.NormaliseToPathSpec: states the result over the undecoded `file://` path, as NormaliseToPath computes it.
- GenerateIndex.ResolveReferenceUrls: states the `file://` case over the undecoded path, as NormaliseToPath computes it.
- Atomic.PreviousActionsCompute: each history row is read as exactly `numActions` values, zero-padded when shorter and truncated when longer. In the source `Float32Array.set` lets a longer row spill into the next block, and throws a RangeError for the last block. The runtime's action rows have `numActions` entries.
- TrajectoryAction.KeyFor: a trajectory joint name that is not a string is read as absent, so the mapped joint's name is used. The source's `??` keeps any non-null name and reads the property it names.
- Commands.GoCommandManager.SetPaused: requires an attached runtime. Without one the source throws a TypeError, and that crash is not modelled. The same holds for Commands.GoCommandManager.SetCommandVelocityX, SetImpedanceKp, SetUseSetpoint, SetCompliantMode and TriggerImpulse.
- Commands.GoCommandManager.SetCommandVelocityX: requires an attached runtime, as SetPaused does.
- Commands.GoCommandManager.SetImpedanceKp: requires an attached runtime, as SetPaused does.
- Commands.GoCommandManager.SetUseSetpoint: requires an attached runtime, as SetPaused does.
- Commands.GoCommandManager.SetCompliantMode: requires an attached runtime, as SetPaused does.
- Commands.GoCommandManager.TriggerImpulse: requires an attached runtime, as SetPaused does.
- LocomotionEnv.LocomotionEnvManager.OnSceneLoaded: requires an attached runtime, as the runtime attaches its managers before it loads a scene. Without one the source stores the model and data and then throws a TypeError, and that path is not modelled.
- `MujocoRuntime` parts not modelled, being three.js, camera or DOM work:
  - `applyCameraFromMetadata`, `resetDefaultCamera`, `render` and `onWindowResize`;
  - `updateCachedState` and `disposeThreeJSResources`.
- `MujocoRuntime.init` and `collectObservations` are sequences of modelled steps (load, start the loop, ask each observation manager) and are not modelled as operations of their own.
- `MwxViewer` parts not modelled:
  - `initialize` (a dynamic import and the runtime start);
  - `play`, `pause` and `reset`, which only forward to the runtime;
  - the getters `getProjects`, `getScenes`, `getPolicies`, `getParams` and `getRuntime`;
  - `createTempPolicyConfig`, which always throws and is folded into the `loadFails` outcome of `SelectPolicy`.
- Viewer.MwxViewer.SelectScene: what the runtime's environment load does is the `loadFails` parameter. The camera is not applied, and the chained `selectPolicy` is returned as the next policy to select rather than performed.
- Viewer.MwxViewer.LoadConfig: fetching a configuration URL, `initialize` and the chained selections are left to the caller. The method returns the scene to select.
- Stored projects: the source's `{ ...project, id }` shares the caller's `scenes` array, so a later push onto that array shows in the viewer. The model stores the scene sequence as a value (the scene objects themselves are shared), so that array-level aliasing is not captured.
- `useRuntime` parts not modelled:
  - `initRuntime` beyond building the runtime (`RuntimeChoice.RuntimeComposable.BuildRuntime`);
  - `applyCommandState`, `updateFacetballService`, `loadWithTask`, `updateCommandVelX`, `updateCompliantMode`, `triggerImpulse` and `toggleVRButton`.
  
  These only forward to the command manager and the services, whose own rules are modelled in `Commands` and `LocomotionEnv`.
- RuntimeChoice.RuntimeComposable.StopTrajectory: the extra `applyAction()` call the app makes after stopping is not modelled, because its effect belongs to the runtime model.
- `useConfig`: the `fetch` of a configuration path becomes the `source` parameter, and reading the URL hash becomes the `sceneParam`/`policyParam` parameters.
- The `useScenePolicy` callbacks `onTaskChange`/`onPolicyChange` and the `withTransition` overlay are recorded as the `changes` sequence, not performed.
- GoCommandManager.js is not part of this model. The command manager modelled is `src/core/engine/managers/CommandManager.ts`.
- IsaacAction.IsaacActionManager.OnSceneLoaded, OnPolicyLoaded, OnPolicyCleared and SetActuatorParams: the copies the source makes onto the runtime object are not modelled. These are `numActions`, `jointNamesIsaac`, `lastActions`, `actionBuffer`, `defaultJpos`, `jointNamesMJC` and the addresses `ctrlAdrIsaac`, `qposAdrIsaac` and `qvelAdrIsaac` (src/core/action/IsaacActionManager.ts:97-107), `controlType` (:121, :131), and `actionScale`, `jntKp` and `jntKd` (:172-174). The model keeps these fields on the manager only, and the atomic observations take them as inputs.
- TrajectoryAction.TrajectoryActionManager.Commands: a target velocity that is present but not a number is read as 0. The source's `?? 0` keeps such a value, and the PD arithmetic then gives NaN, which the model does not represent.
- GenerateIndex.CollectAssets: a visited path that exists but cannot be read (a directory, say) makes `ET.parse` raise an `OSError` that the script does not catch, so the run ends. The model treats every unreadable document like one that fails to parse: a warning, and the walk goes on.
- ConfigRules.ConvertLegacyRoundTrip: the round trip holds over the fields the model declares for legacy tasks and policies. A legacy object's other properties are dropped by the conversion and are not part of the model.
- RuntimeChoice.RuntimeComposable: the app composable (src/app/composables/useRuntime.ts:4) builds its runtime over `src/core/mujoco/runtime/managers/commands/GoCommandManager.js`, which is not part of this model. Both composables are modelled over the command manager of `src/core/engine/managers/CommandManager.ts`, the one the viewer composable imports (src/viewer/composables/useRuntime.ts:4).

## Findings

| source | as written | input that shows it | evidently intended | confidence | as-written member | corrected member |
|---|---|---|---|---|---|---|
| src/core/observation/atomic.ts:219-246 | `compute` shifts the history references back one slot and then writes the new reading into `history[0]`, which after the shift is the same array as `history[1]`; the array that fell off the end is dropped | two slots, joint position 1 then 2: the output is `[2, 2]` | newest first, as the file's header (atomic.ts:1-6) and the in-code comment "reuse the shifted array" say: the last slot's array is rotated to the front, giving `[2, 1]` | high (not executed) | Atomic.AliasedTwoReadings | Atomic.RotatingTwoReadings |
| src/mujoco_wasm/runtime/managers/observations/ConfigObservationManager.js:13 | `onPolicyLoaded` destructures `model` and `simulation`, but the runtime passes `mjModel` and `mjData` (src/mujoco_wasm/runtime/MujocoRuntime.js:329-334), so every component is built without model or data handles | any policy load with one history group of a known component | the components receive the runtime's model and data, as the typed manager's `onPolicyLoaded` does | high (not executed) | Observation.LegacyComponentsLackHandles | Observation.ComponentsCarryHandles |
| src/viewer/composables/useConfig.ts:73 | the pushed policy warning opens a quote before the scene name and never closes it, unlike the console message on line 72 | scene `Go2` with policies and policy parameter `x`, matching none: the last warning, and so the message, has three quote characters | the scene name closed by a quote, as on line 72 | high (not executed) | ViewerConfig.WarningsUnbalanced | ViewerConfig.CorrectedWarningsBalanced |
| src/mujoco_wasm/runtime/MujocoRuntime.js:240 | `loadingScene` is set back to null only at the end of a successful load; a throw inside the load (a failing metadata fetch or JSON parse, a throwing loader) leaves it holding the rejected promise, which every later `loadScene` awaits on line 184 and rethrows | a scene whose metadata URL fails to fetch, then any good scene: both loads reject | the handle cleared whatever the outcome, so that one failed load does not block the next | high (not executed) | Runtime.FailedLoadBlocksLaterLoads | Runtime.CorrectedLoadsIndependent |
