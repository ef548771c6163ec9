/**
 * The path helpers the two scene loaders (`scene.ts` and `mujocoScene.js`)
 * share word for word: `isBinaryAsset`, `normalizePathSegments` and
 * `resolveAssetPath`.
 */
module ScenePaths {
  import opened Wrappers
  import opened Text
  import opened AssetPaths

  /** The suffixes written to the virtual file system as bytes. */
  const BinaryExtensions: seq<string> := [".png", ".stl", ".skn", ".mjb", ".msh", ".npy"]

  function EndsWithAny(s: string, exts: seq<string>): (b: bool)
    ensures b <==> exists i :: 0 <= i < |exts| && EndsWith(s, exts[i])
  {
    if exts == [] then false
    else EndsWith(s, exts[0]) || EndsWithAny(s, exts[1..])
  }

  /** `isBinaryAsset`: the lower-cased path ends with a binary extension. */
  function IsBinaryAsset(path: string): bool {
    EndsWithAny(Lower(path), BinaryExtensions)
  }

  lemma LowerIdempotent(s: string)
    ensures Lower(Lower(s)) == Lower(s)
  {
    assert forall i :: 0 <= i < |s| ==> LowerChar(LowerChar(s[i])) == LowerChar(s[i]);
  }

  /** The test ignores case: a path and its lower-cased form are classed alike. */
  lemma IsBinaryAssetIgnoresCase(path: string)
    ensures IsBinaryAsset(path) == IsBinaryAsset(Lower(path))
  {
    LowerIdempotent(path);
  }

  /** `normalizePathSegments`: skip empty and `.` parts, pop on `..` (never
      above the start), join with '/'. */
  function NormalizePathSegments(path: string): string {
    Join(Segments(path), '/')
  }

  /** `normalizePathSegments` as the source's loop computes it. */
  method NormalizePathSegmentsLoop(path: string) returns (r: string)
    ensures r == NormalizePathSegments(path)
  {
    if path == [] {
      assert Split(path, '/') == [[]];
      return [];
    }
    var parts := Split(path, '/');
    var resolved: seq<string> := [];
    var i := 0;
    while i < |parts|
      invariant 0 <= i <= |parts|
      invariant ResolveFrom(resolved, parts[i..]) == ResolveFrom([], parts)
    {
      var part := parts[i];
      assert parts[i..] == [part] + parts[i + 1..];
      if part == [] || part == "." {
      } else if part == ".." {
        if |resolved| > 0 {
          resolved := resolved[..|resolved| - 1];
        }
      } else {
        resolved := resolved + [part];
      }
      i := i + 1;
    }
    r := Join(resolved, '/');
  }

  /** The result is '/'-joined clean segments: no empty, `.` or `..` piece,
      so no leading, trailing or doubled '/'; it is a fixed point. */
  lemma NormalizePathSegmentsShape(path: string)
    ensures var r := NormalizePathSegments(path);
      && Segments(r) == Segments(path)
      && (r != [] ==> AllClean(Split(r, '/')) && r[0] != '/' && r[|r| - 1] != '/')
      && NormalizePathSegments(r) == r
  {
    var segs := Segments(path);
    SegmentsClean(path);
    SegmentsOfJoin(segs);
    JoinCleanEmpty(segs);
    if segs != [] {
      SplitJoin(segs, '/');
    }
  }

  /** A `..` at the start has nothing to pop and is dropped. */
  lemma LeadingDotDotDropped(path: string)
    ensures NormalizePathSegments("../" + path) == NormalizePathSegments(path)
  {
    assert "../" + path == ".." + ['/'] + path;
    SplitAppend("..", path, '/');
    SplitNoSep("..", '/');
    DotDotAtStartDropped(Split(path, '/'));
  }

  // ---------------------------------------------------------------------------
  // resolveAssetPath

  /** `replace(/^(\.\/)+/, '')`: a leading run of `./` is removed. */
  function StripDotSlashes(s: string): (r: string)
    ensures !StartsWith(r, "./")
    ensures |r| <= |s| && s[|s| - |r|..] == r
  {
    if StartsWith(s, "./") then StripDotSlashes(s[2..]) else s
  }

  /** `replace(/^public\//, '')`. */
  function StripPublic(s: string): string {
    if StartsWith(s, "public/") then s[7..] else s
  }

  /** `if (cleaned.startsWith('/')) cleaned = cleaned.slice(1)`: one '/' only. */
  function StripOneSlash(s: string): string {
    if StartsWith(s, "/") then s[1..] else s
  }

  /** The cleaning both loaders apply to a manifest or asset path. */
  function CleanAssetPath(raw: string): string {
    StripOneSlash(StripPublic(StripDotSlashes(Trim(raw))))
  }

  /** `resolveAssetPath(xmlDirectory, assetPath)`. */
  function ResolveAssetPath(xmlDirectory: string, assetPath: string): (r: Option<string>)
    ensures r.Some? ==> r.value != []
  {
    if assetPath == [] then None
    else if Trim(assetPath) == [] then None
    else
      var cleaned := CleanAssetPath(assetPath);
      var normalized := NormalizePathSegments(cleaned);
      if StartsWith(normalized, "examples/") then Some(normalized)
      else
        var joined := NormalizePathSegments(xmlDirectory + "/" + cleaned);
        if joined != [] then Some(joined)
        else if normalized != [] then Some(normalized)
        else None
  }

  lemma {:induction false} ResolveFromAppend(stack: seq<string>, a: seq<string>, b: seq<string>)
    ensures ResolveFrom(stack, a + b) == ResolveFrom(ResolveFrom(stack, a), b)
    decreases |a|
  {
    if a != [] {
      assert (a + b)[0] == a[0];
      assert (a + b)[1..] == a[1..] + b;
      ResolveFromAppend(Step(stack, a[0]), a[1..], b);
    } else {
      assert a + b == b;
    }
  }

  /** Joining onto the scene directory resolves the cleaned path's pieces
      starting from the directory's own segments. */
  lemma JoinedSegments(xmlDirectory: string, cleaned: string)
    ensures Segments(xmlDirectory + "/" + cleaned) == ResolveFrom(Segments(xmlDirectory), Split(cleaned, '/'))
  {
    assert xmlDirectory + "/" + cleaned == xmlDirectory + ['/'] + cleaned;
    SplitAppend(xmlDirectory, cleaned, '/');
    ResolveFromAppend([], Split(xmlDirectory, '/'), Split(cleaned, '/'));
  }

  /** `resolveAssetPath`: a blank path gives nothing; an `examples/` path is
      returned normalized without joining; any other path is the cleaned path
      resolved below the scene directory, or, when that is empty, the cleaned
      path alone.  A result is always a non-empty, normalized relative path. */
  lemma ResolveAssetPathSpec(xmlDirectory: string, assetPath: string)
    ensures var r := ResolveAssetPath(xmlDirectory, assetPath);
      var cleaned := CleanAssetPath(assetPath);
      var normalized := NormalizePathSegments(cleaned);
      var joined := Join(ResolveFrom(Segments(xmlDirectory), Split(cleaned, '/')), '/');
      && (Trim(assetPath) == [] ==> r == None)
      && (Trim(assetPath) != [] && StartsWith(normalized, "examples/") ==> r == Some(normalized))
      && (Trim(assetPath) != [] && !StartsWith(normalized, "examples/") ==>
            r == (if joined != [] then Some(joined) else if normalized != [] then Some(normalized) else None))
      && (r.Some? ==> r.value != [] && r.value[0] != '/' && NormalizePathSegments(r.value) == r.value)
  {
    if assetPath == [] {
      assert Trim(assetPath) == [];
    } else if Trim(assetPath) != [] {
      var cleaned := CleanAssetPath(assetPath);
      var full := xmlDirectory + "/" + cleaned;
      assert NormalizePathSegments(full) == Join(ResolveFrom(Segments(xmlDirectory), Split(cleaned, '/')), '/') by {
        JoinedSegments(xmlDirectory, cleaned);
      }
      NormalizePathSegmentsShape(cleaned);
      NormalizePathSegmentsShape(full);
    }
  }
}
