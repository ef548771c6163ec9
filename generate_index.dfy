/**
 * The offline asset index generator (`generate_index.py`): the same walk as
 * the browser collector, over a local file system.  Paths are absolute and
 * already resolved (`os.path.realpath`), so a path is its list of segments;
 * `onDisk` is the set of paths on disk and `docs` maps each XML file to its
 * parsed elements in `root.iter()` order (the root element first).
 */
module GenerateIndex {
  import opened Wrappers
  import opened Text
  import opened AssetPaths
  import opened DirectoryHints
  import AssetCollector
  import Sorting

  /** An absolute, resolved path: its segments below '/'. */
  type PyPath = seq<string>

  type PyHints = Hints<PyPath>

  type Element = AssetCollector.Element

  type Fetched = AssetCollector.Fetched

  /** `Path.parent`: the root is its own parent. */
  function Parent(p: PyPath): PyPath {
    if p == [] then [] else p[..|p| - 1]
  }

  /** `os.path.realpath(base / value)` for a path string: an absolute value
      ignores the base; `.` and empty segments vanish and `..` pops (never
      above the root). */
  function Resolve(base: PyPath, value: string): PyPath {
    ResolveFrom(if StartsWith(value, "/") then [] else base, Split(value, '/'))
  }

  lemma ResolveIsClean(base: PyPath, value: string)
    requires AllClean(base)
    ensures AllClean(Resolve(base, value))
  {
    assert AllClean([]);
    ResolveClean(if StartsWith(value, "/") then [] else base, Split(value, '/'));
  }

  /** `strip_namespace`: the text after the first '}', when there is one. */
  function StripXmlNamespace(tag: string): string {
    if '}' in tag then tag[IndexOf(tag, '}') + 1..] else tag
  }

  /** A tag without '}' is unchanged; otherwise the result is what follows
      the first '}' (a namespace prefix holds no '}'). */
  lemma StripNamespaceSpec(tag: string)
    ensures '}' !in tag ==> StripXmlNamespace(tag) == tag
    ensures '}' in tag ==> exists ns :: '}' !in ns && tag == ns + "}" + StripXmlNamespace(tag)
  {
    if '}' in tag {
      var k := IndexOf(tag, '}');
      assert tag == tag[..k] + "}" + tag[k + 1..];
      assert '}' !in tag[..k] by {
        assert forall i :: 0 <= i < k ==> tag[..k][i] == tag[i];
      }
    }
  }

  /** The attributes that may name an external resource.  Python iterates a
      set of them; the model fixes this order. */
  const PyReferenceAttrs: seq<string> := ["file", "href", "src"]

  // ---------------------------------------------------------------------------
  // normalise_to_path and parse_compiler_directories

  /** What `urlparse` keeps as location and path of a `file://` URI's
      remainder: everything before the first '?' (query) or '#' (fragment).
      With a location, the script puts it back in front of the path, so the
      two together are this prefix. */
  function UriPath(rest: string): (r: string)
    ensures |r| <= |rest| && r == rest[..|r|]
    ensures '?' !in r && '#' !in r
    ensures |r| < |rest| ==> rest[|r|] == '?' || rest[|r|] == '#'
  {
    if rest == [] || rest[0] == '?' || rest[0] == '#' then []
    else [rest[0]] + UriPath(rest[1..])
  }

  /** `normalise_to_path`: a blank value is nothing; a `file://` URI is its
      location and path; an absolute path stands alone; anything else is
      taken relative to `baseDir`.  The result is resolved. */
  function NormaliseToPath(raw: string, baseDir: PyPath): Option<PyPath> {
    var value := Trim(raw);
    if value == [] then None
    else if StartsWith(Lower(value), "file://") then Some(Resolve([], UriPath(value[7..])))
    else Some(Resolve(baseDir, value))
  }

  lemma NormaliseToPathSpec(raw: string, baseDir: PyPath)
    ensures NormaliseToPath(raw, baseDir).None? <==> Trim(raw) == []
    ensures AllClean(baseDir) && NormaliseToPath(raw, baseDir).Some? ==>
      AllClean(NormaliseToPath(raw, baseDir).value)
  {
    var value := Trim(raw);
    if value != [] && AllClean(baseDir) {
      assert AllClean([]);
      if StartsWith(Lower(value), "file://") {
        ResolveIsClean([], UriPath(value[7..]));
      } else {
        ResolveIsClean(baseDir, value);
      }
    }
  }

  /** An attribute name `parse_compiler_directories` accepts. */
  predicate DirAttr(name: string) {
    EndsWith(name, "dir") || EndsWith(name, "path")
  }

  /** One compiler attribute: a `...dir`/`...path` attribute with a non-blank
      value appends its path under the lower-cased name. */
  function AddCompilerAttr(dirs: PyHints, attr: (string, string), baseDir: PyPath): PyHints {
    var name := Lower(attr.0);
    var value := Trim(attr.1);
    if DirAttr(name) && value != [] then
      match NormaliseToPath(value, baseDir)
      case None => dirs
      case Some(p) => Put(dirs, name, Get(dirs, name) + [p])
    else dirs
  }

  function AddCompilerAttrs(dirs: PyHints, attrs: seq<(string, string)>, baseDir: PyPath): PyHints
    decreases |attrs|
  {
    if attrs == [] then dirs
    else AddCompilerAttrs(AddCompilerAttr(dirs, attrs[0], baseDir), attrs[1..], baseDir)
  }

  function CompilerDirsFrom(dirs: PyHints, elements: seq<Element>, baseDir: PyPath): PyHints
    decreases |elements|
  {
    if elements == [] then dirs
    else
      var next := if elements[0].tag == "compiler"
                  then AddCompilerAttrs(dirs, elements[0].attrs, baseDir) else dirs;
      CompilerDirsFrom(next, elements[1..], baseDir)
  }

  /** `parse_compiler_directories`: `root.findall(".//compiler")` searches
      below the root element, and each list is deduplicated at the end. */
  function ParseCompilerDirectories(elements: seq<Element>, baseDir: PyPath): PyHints {
    DedupValues(CompilerDirsFrom([], if elements == [] then [] else elements[1..], baseDir))
  }

  /** Every hint key is an accepted attribute name, and each appears once. */
  predicate WellKeyed(h: PyHints) {
    DistinctKeys(h) && forall k :: k in Keys(h) ==> DirAttr(k)
  }

  lemma PutKeepsWellKeyed(dirs: PyHints, name: string, v: seq<PyPath>)
    requires WellKeyed(dirs) && DirAttr(name)
    ensures WellKeyed(Put(dirs, name, v))
  {
    GetPut(dirs, name, v, name);
  }

  lemma AddCompilerAttrKeeps(dirs: PyHints, attr: (string, string), baseDir: PyPath)
    requires WellKeyed(dirs)
    ensures WellKeyed(AddCompilerAttr(dirs, attr, baseDir))
  {
    var name := Lower(attr.0);
    if DirAttr(name) && Trim(attr.1) != [] {
      match NormaliseToPath(Trim(attr.1), baseDir)
      case None =>
      case Some(p) => PutKeepsWellKeyed(dirs, name, Get(dirs, name) + [p]);
    }
  }

  lemma {:induction false} AddCompilerAttrsKeeps(dirs: PyHints, attrs: seq<(string, string)>, baseDir: PyPath)
    requires WellKeyed(dirs)
    ensures WellKeyed(AddCompilerAttrs(dirs, attrs, baseDir))
    decreases |attrs|
  {
    if attrs != [] {
      AddCompilerAttrKeeps(dirs, attrs[0], baseDir);
      AddCompilerAttrsKeeps(AddCompilerAttr(dirs, attrs[0], baseDir), attrs[1..], baseDir);
    }
  }

  lemma {:induction false} CompilerDirsKeeps(dirs: PyHints, elements: seq<Element>, baseDir: PyPath)
    requires WellKeyed(dirs)
    ensures WellKeyed(CompilerDirsFrom(dirs, elements, baseDir))
    decreases |elements|
  {
    if elements != [] {
      if elements[0].tag == "compiler" {
        AddCompilerAttrsKeeps(dirs, elements[0].attrs, baseDir);
      }
      var next := if elements[0].tag == "compiler"
                  then AddCompilerAttrs(dirs, elements[0].attrs, baseDir) else dirs;
      CompilerDirsKeeps(next, elements[1..], baseDir);
    }
  }

  /** `parse_compiler_directories`: only `...dir`/`...path` attribute names
      become keys, each once, and no key lists a directory twice. */
  lemma ParseCompilerDirectoriesSpec(elements: seq<Element>, baseDir: PyPath, key: string)
    ensures var h := ParseCompilerDirectories(elements, baseDir);
      && WellKeyed(h)
      && Distinct(Get(h, key))
  {
    var raw := CompilerDirsFrom([], if elements == [] then [] else elements[1..], baseDir);
    CompilerDirsKeeps([], if elements == [] then [] else elements[1..], baseDir);
    DedupValuesGet(raw, key);
    DedupSpec(Get(raw, key));
    DedupValuesDistinctKeys(raw);
  }

  lemma {:induction false} DedupValuesDistinctKeys(h: PyHints)
    requires DistinctKeys(h)
    ensures DistinctKeys(DedupValues(h))
  {
    if h != [] {
      DedupValuesGet(h[1..], h[0].key);
      DedupValuesDistinctKeys(h[1..]);
      assert DedupValues(h)[1..] == DedupValues(h[1..]);
    }
  }

  /** An accepted attribute appends its resolved path under its lower-cased
      name; any other attribute leaves the hints unchanged. */
  lemma AddCompilerAttrSpec(dirs: PyHints, attr: (string, string), baseDir: PyPath)
    ensures var name := Lower(attr.0);
      var value := Trim(attr.1);
      var r := AddCompilerAttr(dirs, attr, baseDir);
      && (!DirAttr(name) || value == [] ==> r == dirs)
      && (DirAttr(name) && value != [] ==>
            Get(r, name) == Get(dirs, name) + [Resolve(if StartsWith(Lower(value), "file://") then [] else baseDir,
                                                       if StartsWith(Lower(value), "file://") then UriPath(value[7..]) else value)]
            && forall k :: k != name ==> Get(r, k) == Get(dirs, k))
  {
    var name := Lower(attr.0);
    var value := Trim(attr.1);
    if DirAttr(name) && value != [] {
      TrimIdempotent(attr.1);
      var p := NormaliseToPath(value, baseDir).value;
      GetPut(dirs, name, Get(dirs, name) + [p], name);
      forall k | k != name ensures Get(AddCompilerAttr(dirs, attr, baseDir), k) == Get(dirs, k) {
        GetPut(dirs, name, Get(dirs, name) + [p], k);
      }
    }
  }

  // ---------------------------------------------------------------------------
  // build_search_order

  /** The directories `build_search_order` pushes, before deduplication. */
  function SearchCandidates(tag: string, hints: PyHints, baseDir: PyPath, rootDir: Option<PyPath>): seq<PyPath> {
    HintedDirs(TagDirectoryHints(tag), hints)
    + (AllDirs(hints) + ([baseDir] + (if rootDir.Some? then [rootDir.value] else [])))
  }

  /** `build_search_order`: tag-specific hints, then every hint, then the
      file's own folder, then the root folder; first occurrences kept. */
  function BuildSearchOrder(tag: string, hints: PyHints, baseDir: PyPath, rootDir: Option<PyPath>): seq<PyPath> {
    Dedup(SearchCandidates(tag, hints, baseDir, rootDir))
  }

  /** The search order lists each directory once, exactly the candidates,
      always the file's own folder, and the root folder when given. */
  lemma BuildSearchOrderSpec(tag: string, hints: PyHints, baseDir: PyPath, rootDir: Option<PyPath>)
    ensures var order := BuildSearchOrder(tag, hints, baseDir, rootDir);
      && Distinct(order)
      && (forall d :: d in order <==> d in SearchCandidates(tag, hints, baseDir, rootDir))
      && baseDir in order
      && (rootDir.Some? ==> rootDir.value in order)
  {
    var cands := SearchCandidates(tag, hints, baseDir, rootDir);
    DedupSpec(cands);
    var tail := [baseDir] + (if rootDir.Some? then [rootDir.value] else []);
    assert cands[|cands| - |tail|..] == tail;
    assert cands[|cands| - |tail|] == baseDir;
    if rootDir.Some? {
      assert cands[|cands| - 1] == rootDir.value;
    }
  }

  /** The tag's own hinted directories (deduplicated) come first. */
  lemma BuildSearchOrderHintsFirst(tag: string, hints: PyHints, baseDir: PyPath, rootDir: Option<PyPath>)
    ensures var hinted := Dedup(HintedDirs(TagDirectoryHints(tag), hints));
      var order := BuildSearchOrder(tag, hints, baseDir, rootDir);
      |hinted| <= |order| && order[..|hinted|] == hinted
  {
    var hinted := HintedDirs(TagDirectoryHints(tag), hints);
    var rest := AllDirs(hints) + ([baseDir] + (if rootDir.Some? then [rootDir.value] else []));
    DedupFromPrefix(hinted, rest, []);
  }

  // ---------------------------------------------------------------------------
  // resolve_local_file

  /** The index of the first search directory under which the value exists
      (`|dirs|` when there is none). */
  function FirstExisting(dirs: seq<PyPath>, value: string, onDisk: set<PyPath>): (k: nat)
    ensures k <= |dirs|
    ensures forall j :: 0 <= j < k ==> Resolve(dirs[j], value) !in onDisk
    ensures k < |dirs| ==> Resolve(dirs[k], value) in onDisk
  {
    if dirs == [] then 0
    else if Resolve(dirs[0], value) in onDisk then 0
    else 1 + FirstExisting(dirs[1..], value, onDisk)
  }

  /** `resolve_local_file`: a blank value is nothing; an absolute value only
      if it exists; otherwise the first search directory's candidate that
      exists, or nothing. */
  function ResolveLocalFile(value: string, dirs: seq<PyPath>, onDisk: set<PyPath>): (r: Option<PyPath>)
    ensures IsBlank(value) ==> r == None
    ensures !IsBlank(value) && StartsWith(value, "/") ==>
      r == (if Resolve([], value) in onDisk then Some(Resolve([], value)) else None)
    ensures r.Some? ==> r.value in onDisk
  {
    if IsBlank(value) then None
    else if StartsWith(value, "/") then
      var resolved := Resolve([], value);
      if resolved in onDisk then Some(resolved) else None
    else
      var k := FirstExisting(dirs, value, onDisk);
      if k < |dirs| then Some(Resolve(dirs[k], value)) else None
  }

  /** For a relative value the result is the first existing candidate in
      search order, and nothing when no candidate exists. */
  lemma ResolveLocalFileRelative(value: string, dirs: seq<PyPath>, onDisk: set<PyPath>)
    requires !IsBlank(value) && !StartsWith(value, "/")
    ensures var r := ResolveLocalFile(value, dirs, onDisk);
      && (r.None? <==> forall j :: 0 <= j < |dirs| ==> Resolve(dirs[j], value) !in onDisk)
      && (r.Some? ==> exists i :: 0 <= i < |dirs| && r.value == Resolve(dirs[i], value)
                        && forall j :: 0 <= j < i ==> Resolve(dirs[j], value) !in onDisk)
  {
    var k := FirstExisting(dirs, value, onDisk);
    if k < |dirs| {
      assert ResolveLocalFile(value, dirs, onDisk).value == Resolve(dirs[k], value);
    }
  }

  /** `resolve_local_file` as the script's loop runs it. */
  method ResolveLocalFileLoop(value: string, dirs: seq<PyPath>, onDisk: set<PyPath>) returns (r: Option<PyPath>)
    ensures r == ResolveLocalFile(value, dirs, onDisk)
  {
    if IsBlank(value) {
      return None;
    }
    if StartsWith(value, "/") {
      var resolved := Resolve([], value);
      if resolved !in onDisk {
        return None;
      }
      return Some(resolved);
    }
    var i := 0;
    while i < |dirs|
      invariant 0 <= i <= |dirs|
      invariant forall j :: 0 <= j < i ==> Resolve(dirs[j], value) !in onDisk
    {
      var resolved := Resolve(dirs[i], value);
      if resolved in onDisk {
        FirstExistingIs(dirs, value, onDisk, i);
        return Some(resolved);
      }
      i := i + 1;
    }
    FirstExistingIs(dirs, value, onDisk, |dirs|);
    return None;
  }

  lemma FirstExistingIs(dirs: seq<PyPath>, value: string, onDisk: set<PyPath>, i: nat)
    requires i <= |dirs|
    requires forall j :: 0 <= j < i ==> Resolve(dirs[j], value) !in onDisk
    requires i < |dirs| ==> Resolve(dirs[i], value) in onDisk
    ensures FirstExisting(dirs, value, onDisk) == i
  {
    var k := FirstExisting(dirs, value, onDisk);
    if k < i {
      assert false;
    } else if k > i {
      assert false;
    }
  }

  // ---------------------------------------------------------------------------
  // to_relative_string

  /** The length of the longest common prefix of two paths. */
  function CommonPrefix(a: PyPath, b: PyPath): (k: nat)
    ensures k <= |a| && k <= |b| && a[..k] == b[..k]
    ensures k < |a| && k < |b| ==> a[k] != b[k]
  {
    if a == [] || b == [] || a[0] != b[0] then 0
    else
      var k := 1 + CommonPrefix(a[1..], b[1..]);
      assert a[..k] == [a[0]] + a[1..][..k - 1];
      assert b[..k] == [b[0]] + b[1..][..k - 1];
      k
  }

  function Ups(n: nat): seq<string> {
    if n == 0 then [] else [".."] + Ups(n - 1)
  }

  /** The '/'-joined segments, with `.` for none (as `as_posix` prints). */
  function PosixString(parts: seq<string>): string {
    if parts == [] then "." else Join(parts, '/')
  }

  /** `to_relative_string`: below the root, `path.relative_to(root)`;
      elsewhere `os.path.relpath`, climbing with `..` from the root. */
  function RelString(path: PyPath, root: PyPath): string {
    if Below(path, root) then PosixString(path[|root|..]) else PosixString(Climb(path, root))
  }

  /** `path` lies under `root`. */
  predicate Below(path: PyPath, root: PyPath) {
    |root| <= |path| && path[..|root|] == root
  }

  /** `relpath`'s segments: up from the root to the common prefix, then
      down to the path. */
  function Climb(path: PyPath, root: PyPath): seq<string> {
    Ups(|root| - CommonPrefix(path, root)) + path[CommonPrefix(path, root)..]
  }

  lemma {:induction false} ResolveUps(stack: seq<string>, n: nat, rest: seq<string>)
    requires n <= |stack|
    ensures ResolveFrom(stack, Ups(n) + rest) == ResolveFrom(stack[..|stack| - n], rest)
  {
    if n == 0 {
      assert Ups(0) + rest == rest;
      assert stack[..|stack|] == stack;
    } else {
      assert (Ups(n) + rest)[0] == "..";
      assert (Ups(n) + rest)[1..] == Ups(n - 1) + rest;
      var popped := stack[..|stack| - 1];
      ResolveUps(popped, n - 1, rest);
      assert popped[..|popped| - (n - 1)] == stack[..|stack| - n];
    }
  }

  lemma {:induction false} UpsNoSlash(n: nat)
    ensures forall i :: 0 <= i < |Ups(n)| ==> Ups(n)[i] == ".."
  {
    if n > 0 {
      UpsNoSlash(n - 1);
    }
  }

  /** Reading a POSIX string back segment by segment gives its parts. */
  lemma PosixRoundTrip(stack: seq<string>, parts: seq<string>)
    requires forall i :: 0 <= i < |parts| ==> '/' !in parts[i]
    ensures ResolveFrom(stack, Split(PosixString(parts), '/')) == ResolveFrom(stack, parts)
  {
    if parts == [] {
      SplitNoSep(".", '/');
    } else {
      SplitJoin(parts, '/');
    }
  }

  lemma RelStringBelow(path: PyPath, root: PyPath)
    requires AllClean(path) && Below(path, root)
    ensures ResolveFrom(root, Split(RelString(path, root), '/')) == path
  {
    var parts := path[|root|..];
    assert AllClean(parts);
    PosixRoundTrip(root, parts);
    ResolveOfClean(root, parts);
    assert root + parts == path;
  }

  lemma NoSlashUps(n: nat, rest: seq<string>)
    requires AllClean(rest)
    ensures forall i :: 0 <= i < |Ups(n) + rest| ==> '/' !in (Ups(n) + rest)[i]
  {
    UpsNoSlash(n);
  }

  /** Resolving the climb from the root reaches the path. */
  lemma ResolveClimb(path: PyPath, root: PyPath)
    requires AllClean(path)
    ensures ResolveFrom(root, Climb(path, root)) == path
  {
    var k := CommonPrefix(path, root);
    var rest := path[k..];
    assert Climb(path, root) == Ups(|root| - k) + rest;
    assert ResolveFrom(root, Ups(|root| - k) + rest) == ResolveFrom(path[..k], rest) by {
      ResolveUps(root, |root| - k, rest);
      assert root[..|root| - (|root| - k)] == path[..k];
    }
    assert ResolveFrom(path[..k], rest) == path by {
      assert AllClean(rest);
      ResolveOfClean(path[..k], rest);
      assert path[..k] + rest == path;
    }
  }

  lemma RelStringAbove(path: PyPath, root: PyPath)
    requires AllClean(path) && !Below(path, root)
    ensures ResolveFrom(root, Split(RelString(path, root), '/')) == path
  {
    var k := CommonPrefix(path, root);
    assert AllClean(path[k..]);
    NoSlashUps(|root| - k, path[k..]);
    PosixRoundTrip(root, Climb(path, root));
    ResolveClimb(path, root);
  }

  /** Resolving the relative string against the root gives the path back. */
  lemma RelStringRoundTrip(path: PyPath, root: PyPath)
    requires AllClean(path)
    ensures ResolveFrom(root, Split(RelString(path, root), '/')) == path
  {
    if Below(path, root) {
      RelStringBelow(path, root);
    } else {
      RelStringAbove(path, root);
    }
  }

  // ---------------------------------------------------------------------------
  // resolve_reference

  /** What a reference resolves to: a local file, or an entry kept as text. */
  datatype PyRef = LocalPath(path: PyPath) | TextRef(text: string)

  /** `resolve_reference`. */
  function ResolveReference(raw: string, tag: string, baseDir: PyPath, rootDir: PyPath,
                            hints: PyHints, onDisk: set<PyPath>): Option<PyRef>
  {
    var value := Trim(raw);
    var lower := Lower(value);
    if value == [] then None
    else if StartsWith(lower, "http://") || StartsWith(lower, "https://") then Some(TextRef(value))
    else if StartsWith(lower, "file://") then
      match NormaliseToPath(value, baseDir)
      case None => None
      case Some(p) => if p in onDisk then Some(LocalPath(p)) else None
    else if '@' in value && value[0] != '@' then
      ArchiveRef(value, BuildSearchOrder(tag, hints, baseDir, Some(rootDir)), rootDir, onDisk)
    else
      match ResolveLocalFile(value, BuildSearchOrder(tag, hints, baseDir, Some(rootDir)), onDisk)
      case None => None
      case Some(p) => Some(LocalPath(p))
  }

  /** The `file@member` branch: `value.split("@", 1)` cuts at the first '@'
      only, so the member keeps any later '@'. */
  function ArchiveRef(value: string, order: seq<PyPath>, rootDir: PyPath, onDisk: set<PyPath>): Option<PyRef>
    requires '@' in value
  {
    var k := IndexOf(value, '@');
    var prefix := value[..k];
    var member := value[k + 1..];
    if member == [] then None
    else
      match ResolveLocalFile(prefix, order, onDisk)
      case None => None
      case Some(archive) => Some(TextRef(RelString(archive, rootDir) + "@" + member))
  }

  /** Blank values give nothing, remote URLs come back verbatim as text, and
      a `file://` URI gives its path exactly when that path exists. */
  lemma ResolveReferenceUrls(raw: string, tag: string, baseDir: PyPath, rootDir: PyPath,
                             hints: PyHints, onDisk: set<PyPath>)
    ensures var value := Trim(raw);
      var lower := Lower(value);
      var r := ResolveReference(raw, tag, baseDir, rootDir, hints, onDisk);
      && (value == [] ==> r == None)
      && (StartsWith(lower, "http://") || StartsWith(lower, "https://") ==> r == Some(TextRef(value)))
      && (StartsWith(lower, "file://") && !StartsWith(lower, "http://") && !StartsWith(lower, "https://") ==>
            var p := Resolve([], UriPath(value[7..]));
            r == (if p in onDisk then Some(LocalPath(p)) else None))
  {
    var value := Trim(raw);
    var lower := Lower(value);
    if value != [] {
      TrimIdempotent(raw);
    } else {
      assert |lower| == 0;
    }
  }

  /** `file@member`: the archive is looked up along the search order and the
      entry is its root-relative name, '@', and everything after the first
      '@'; an empty member or a missing archive gives nothing. */
  lemma ArchiveRefSpec(value: string, order: seq<PyPath>, rootDir: PyPath, onDisk: set<PyPath>)
    requires '@' in value
    ensures var k := IndexOf(value, '@');
      var prefix := value[..k];
      var member := value[k + 1..];
      var archive := ResolveLocalFile(prefix, order, onDisk);
      var r := ArchiveRef(value, order, rootDir, onDisk);
      && value == prefix + "@" + member
      && '@' !in prefix
      && (member == [] || archive.None? ==> r == None)
      && (member != [] && archive.Some? ==>
            archive.value in onDisk && r == Some(TextRef(RelString(archive.value, rootDir) + "@" + member)))
  {
    var k := IndexOf(value, '@');
    assert value == value[..k] + "@" + value[k + 1..];
    assert forall i :: 0 <= i < k ==> value[..k][i] == value[i];
  }

  /** Which branch a value that is neither a URL nor a `file://` URI takes:
      `file@member` when it holds an '@' after the first character, a local
      path otherwise. */
  lemma ResolveReferenceLocal(raw: string, tag: string, baseDir: PyPath, rootDir: PyPath,
                              hints: PyHints, onDisk: set<PyPath>)
    requires var value := Trim(raw);
      var lower := Lower(value);
      && value != []
      && !(StartsWith(lower, "http://") || StartsWith(lower, "https://") || StartsWith(lower, "file://"))
    ensures var value := Trim(raw);
      var order := BuildSearchOrder(tag, hints, baseDir, Some(rootDir));
      var r := ResolveReference(raw, tag, baseDir, rootDir, hints, onDisk);
      && ('@' in value && value[0] != '@' ==> r == ArchiveRef(value, order, rootDir, onDisk))
      && (!('@' in value && value[0] != '@') ==>
            r == (match ResolveLocalFile(value, order, onDisk)
                  case None => None
                  case Some(p) => Some(LocalPath(p))))
  {
  }

  /** Every local path a reference resolves to exists on disk. */
  lemma ResolveReferenceOnDisk(raw: string, tag: string, baseDir: PyPath, rootDir: PyPath,
                               hints: PyHints, onDisk: set<PyPath>)
    ensures var r := ResolveReference(raw, tag, baseDir, rootDir, hints, onDisk);
      r.Some? && r.value.LocalPath? ==> r.value.path in onDisk
  {
  }

  // ---------------------------------------------------------------------------
  // The walk of collect_assets

  /** A file the walk reads: it exists and parses. */
  predicate Readable(f: PyPath, docs: map<PyPath, Fetched>, onDisk: set<PyPath>) {
    f in onDisk && f in docs && docs[f].Parsed?
  }

  /** The reference one attribute of one element makes, if any. */
  function AttrRef(el: Element, attr: string, baseDir: PyPath, rootDir: PyPath,
                   hints: PyHints, onDisk: set<PyPath>): Option<PyRef>
  {
    match AssetCollector.GetAttribute(el.attrs, attr)
    case None => None
    case Some(v) => ResolveReference(v, StripXmlNamespace(el.tag), baseDir, rootDir, hints, onDisk)
  }

  /** The references one element makes, attribute by attribute, each paired
      with whether it is an include's `file` (which is walked). */
  function AttrRefs(el: Element, attrs: seq<string>, baseDir: PyPath, rootDir: PyPath,
                    hints: PyHints, onDisk: set<PyPath>): (refs: seq<(Option<PyRef>, bool)>)
    ensures |refs| == |attrs|
  {
    if attrs == [] then []
    else [(AttrRef(el, attrs[0], baseDir, rootDir, hints, onDisk), StripXmlNamespace(el.tag) == "include" && attrs[0] == "file")]
         + AttrRefs(el, attrs[1..], baseDir, rootDir, hints, onDisk)
  }

  /** All references of a file's elements, in `root.iter()` order. */
  function FileRefs(els: seq<Element>, baseDir: PyPath, rootDir: PyPath,
                    hints: PyHints, onDisk: set<PyPath>): seq<(Option<PyRef>, bool)>
  {
    if els == [] then []
    else AttrRefs(els[0], PyReferenceAttrs, baseDir, rootDir, hints, onDisk)
         + FileRefs(els[1..], baseDir, rootDir, hints, onDisk)
  }

  lemma {:induction false} AttrRefsIndex(el: Element, attrs: seq<string>, baseDir: PyPath, rootDir: PyPath,
                                         hints: PyHints, onDisk: set<PyPath>, k: nat)
    requires k < |attrs|
    ensures AttrRefs(el, attrs, baseDir, rootDir, hints, onDisk)[k]
         == (AttrRef(el, attrs[k], baseDir, rootDir, hints, onDisk), StripXmlNamespace(el.tag) == "include" && attrs[k] == "file")
  {
    if k > 0 {
      AttrRefsIndex(el, attrs[1..], baseDir, rootDir, hints, onDisk, k - 1);
    }
  }

  lemma {:induction false} FileRefsAppend(els: seq<Element>, el: Element, baseDir: PyPath, rootDir: PyPath,
                                          hints: PyHints, onDisk: set<PyPath>)
    ensures FileRefs(els + [el], baseDir, rootDir, hints, onDisk)
         == FileRefs(els, baseDir, rootDir, hints, onDisk) + AttrRefs(el, PyReferenceAttrs, baseDir, rootDir, hints, onDisk)
  {
    if els == [] {
      assert [] + [el] == [el];
    } else {
      assert (els + [el])[1..] == els[1..] + [el];
      FileRefsAppend(els[1..], el, baseDir, rootDir, hints, onDisk);
    }
  }

  /** The walk is done with one reference: a local file is collected under
      its root-relative name and an included file has been walked; a
      non-empty text entry is collected. */
  predicate RefCovered(r: Option<PyRef>, isInclude: bool, rootDir: PyPath,
                       visited: set<PyPath>, collected: set<string>)
  {
    match r
    case None => true
    case Some(LocalPath(p)) => RelString(p, rootDir) in collected && (isInclude ==> p in visited)
    case Some(TextRef(t)) => t != [] ==> t in collected
  }

  predicate RefsCovered(refs: seq<(Option<PyRef>, bool)>, rootDir: PyPath,
                        visited: set<PyPath>, collected: set<string>)
  {
    forall i :: 0 <= i < |refs| ==> RefCovered(refs[i].0, refs[i].1, rootDir, visited, collected)
  }

  lemma RefsCoveredGrow(refs: seq<(Option<PyRef>, bool)>, rootDir: PyPath, v: set<PyPath>, c: set<string>,
                        v2: set<PyPath>, c2: set<string>)
    requires RefsCovered(refs, rootDir, v, c)
    requires v <= v2 && c <= c2
    ensures RefsCovered(refs, rootDir, v2, c2)
  {
    forall i | 0 <= i < |refs| ensures RefCovered(refs[i].0, refs[i].1, rootDir, v2, c2) {
      assert RefCovered(refs[i].0, refs[i].1, rootDir, v, c);
    }
  }

  /** The first `n` references of `refs` are covered. */
  predicate CoveredUpTo(refs: seq<(Option<PyRef>, bool)>, n: nat, rootDir: PyPath,
                        visited: set<PyPath>, collected: set<string>)
  {
    n <= |refs| && forall i :: 0 <= i < n ==> RefCovered(refs[i].0, refs[i].1, rootDir, visited, collected)
  }

  /** Covering reference `n` in a grown walk covers one more. */
  lemma CoveredStep(refs: seq<(Option<PyRef>, bool)>, n: nat, rootDir: PyPath, v: set<PyPath>, c: set<string>,
                    v2: set<PyPath>, c2: set<string>)
    requires CoveredUpTo(refs, n, rootDir, v, c) && v <= v2 && c <= c2
    requires n < |refs| && RefCovered(refs[n].0, refs[n].1, rootDir, v2, c2)
    ensures CoveredUpTo(refs, n + 1, rootDir, v2, c2)
  {
    forall i | 0 <= i < n + 1 ensures RefCovered(refs[i].0, refs[i].1, rootDir, v2, c2) {
      if i < n {
        assert RefCovered(refs[i].0, refs[i].1, rootDir, v, c);
      }
    }
  }

  lemma {:induction false} FileRefsConcat(a: seq<Element>, b: seq<Element>, baseDir: PyPath, rootDir: PyPath,
                                          hints: PyHints, onDisk: set<PyPath>)
    ensures FileRefs(a + b, baseDir, rootDir, hints, onDisk)
         == FileRefs(a, baseDir, rootDir, hints, onDisk) + FileRefs(b, baseDir, rootDir, hints, onDisk)
  {
    if a == [] {
      assert [] + b == b;
    } else {
      assert (a + b)[1..] == a[1..] + b;
      FileRefsConcat(a[1..], b, baseDir, rootDir, hints, onDisk);
    }
  }

  /** The references of element `k` sit in the file's references right after
      those of the elements before it. */
  lemma ElementRefsAt(els: seq<Element>, k: nat, baseDir: PyPath, rootDir: PyPath,
                      hints: PyHints, onDisk: set<PyPath>)
    requires k < |els|
    ensures var before := |FileRefs(els[..k], baseDir, rootDir, hints, onDisk)|;
      && before + |PyReferenceAttrs| <= |FileRefs(els, baseDir, rootDir, hints, onDisk)|
      && FileRefs(els, baseDir, rootDir, hints, onDisk)[before..before + |PyReferenceAttrs|]
         == AttrRefs(els[k], PyReferenceAttrs, baseDir, rootDir, hints, onDisk)
  {
    assert els == els[..k] + els[k..];
    FileRefsConcat(els[..k], els[k..], baseDir, rootDir, hints, onDisk);
    assert els[k..][0] == els[k] && els[k..][1..] == els[k + 1..];
  }

  /** Entry `e` is an include's `file` that resolved to local path `f`. */
  predicate IncludesAt(e: (Option<PyRef>, bool), f: PyPath) {
    e.1 && e.0.Some? && e.0.value.LocalPath? && e.0.value.path == f
  }

  /** Entry `e` names collected string `x`: a local path's root-relative
      name, or a non-empty text. */
  predicate NamesAt(e: (Option<PyRef>, bool), x: string, rootDir: PyPath) {
    match e.0
    case None => false
    case Some(LocalPath(p)) => RelString(p, rootDir) == x
    case Some(TextRef(t)) => t != [] && t == x
  }

  /** A walked file: the merged hints it was walked with and the references
      its elements make under them. */
  datatype Walked = Walked(hints: PyHints, refs: seq<(Option<PyRef>, bool)>)

  /** Link `l` points at a reference of a walked file: file `l.0`, index `l.1`. */
  predicate Link(l: (PyPath, nat), walked: map<PyPath, Walked>) {
    l.0 in walked && l.1 < |walked[l.0].refs|
  }

  /** Visited file `f` was first reached through `via[f]`, an include of a
      walked file. */
  predicate ViaOk(f: PyPath, via: map<PyPath, (PyPath, nat)>, walked: map<PyPath, Walked>) {
    f in via && Link(via[f], walked) && IncludesAt(walked[via[f].0].refs[via[f].1], f)
  }

  /** Why a string was collected: it names a visited file, or the reference
      of a walked file at `index` names it. */
  datatype Cause = FileOf(file: PyPath) | NamedAt(namer: PyPath, index: nat)

  /** Collected string `x` has the cause `why[x]` records. */
  predicate Caused(x: string, why: map<string, Cause>, rootDir: PyPath, visited: set<PyPath>,
                   walked: map<PyPath, Walked>) {
    x in why &&
    match why[x]
    case FileOf(f) => f in visited && RelString(f, rootDir) == x
    case NamedAt(g, i) => Link((g, i), walked) && NamesAt(walked[g].refs[i], x, rootDir)
  }

  /** The hints readable file `f` is walked with: its own compiler
      directories merged over `parent`. */
  function OwnHints(parent: PyHints, f: PyPath, docs: map<PyPath, Fetched>): PyHints
    requires f in docs && docs[f].Parsed?
  {
    MergeHints(parent, ParseCompilerDirectories(docs[f].elements, Parent(f)))
  }

  /** Walked file `f` took its hints from the walk: the root merges its own
      over none, any other file merges its own over those of the walked file
      whose include first reached it (`via[f].0`). */
  predicate HintsFrom(f: PyPath, root: PyPath, docs: map<PyPath, Fetched>, walked: map<PyPath, Walked>,
                      via: map<PyPath, (PyPath, nat)>) {
    && f in walked && f in docs && docs[f].Parsed?
    && if f == root then walked[f].hints == OwnHints([], f, docs)
       else f in via && via[f].0 in walked && walked[f].hints == OwnHints(walked[via[f].0].hints, f, docs)
  }

  /**
   * What one walk from `root` produced.  Upper bounds: every visited file
   * other than the root was first reached through `via`, an include of a
   * walked file, and every collected string has the cause `why` records.
   * Lower bounds: every visited file is collected under its root-relative
   * name, and every reference of every walked file is covered.  The walked
   * files are exactly the visited ones that are readable, each with the
   * references its elements make under the hints the walk gave it.
   */
  ghost predicate PyWalkOutcome(root: PyPath, docs: map<PyPath, Fetched>, onDisk: set<PyPath>,
                                out: set<string>, visited: set<PyPath>, walked: map<PyPath, Walked>,
                                via: map<PyPath, (PyPath, nat)>, why: map<string, Cause>)
  {
    var rootDir := Parent(root);
    && root in visited
    && (forall f {:trigger ViaOk(f, via, walked)} :: f in visited && f != root ==> ViaOk(f, via, walked))
    && (forall x {:trigger Caused(x, why, rootDir, visited, walked)} :: x in out ==> Caused(x, why, rootDir, visited, walked))
    && (forall f :: f in visited ==> RelString(f, rootDir) in out)
    && (forall f :: f in walked ==> RefsCovered(walked[f].refs, rootDir, visited, out))
    && (forall f :: f in walked <==> f in visited && Readable(f, docs, onDisk))
    && (forall f {:trigger HintsFrom(f, root, docs, walked, via)} :: f in walked ==> HintsFrom(f, root, docs, walked, via))
    && (forall f :: f in walked ==>
          walked[f].refs == FileRefs(docs[f].elements, Parent(f), rootDir, walked[f].hints, onDisk))
  }

  /** The ghost record of a walk: `via` the include that first reached each
      visited file other than the root, and `why` the cause of each
      collected string. */
  datatype Trail = Trail(via: map<PyPath, (PyPath, nat)>, why: map<string, Cause>)

  /** The trail after visiting `path`, reached through `from` if any: its
      root-relative name is collected because of the file itself. */
  function Visited(tr: Trail, path: PyPath, from: Option<(PyPath, nat)>, rootDir: PyPath): (r: Trail)
    ensures r.why == tr.why[RelString(path, rootDir) := FileOf(path)]
    ensures r.via == if from.Some? then tr.via[path := from.value] else tr.via
  {
    Trail(if from.Some? then tr.via[path := from.value] else tr.via, tr.why[RelString(path, rootDir) := FileOf(path)])
  }

  /**
   * One run of `collect_assets`: `visited` holds resolved paths and
   * `collected` root-relative strings, the two sets the nested `walk`
   * shares.  The ghost state explains them: `walked` records, for each
   * readable file, the merged hints it was walked with and the references
   * it made under them, and `trail` why each visited file was reached and
   * each string collected.
   */
  class PyWalk {
    const docs: map<PyPath, Fetched>
    const onDisk: set<PyPath>
    const rootDir: PyPath
    const rootFile: PyPath
    var visited: set<PyPath>
    var collected: set<string>
    ghost var walked: map<PyPath, Walked>
    ghost var trail: Trail

    ghost predicate Valid()
      reads this
    {
      Consistent(visited, collected, walked) && Bounded(visited, collected, walked, trail)
    }

    /** Every visited file is collected under its root-relative name, and
        each walked file has the references it makes under its hints. */
    ghost predicate Consistent(v: set<PyPath>, c: set<string>, w: map<PyPath, Walked>)
    {
      && (forall f :: f in v ==> RelString(f, rootDir) in c)
      && w.Keys <= v
      && (forall f {:trigger WalkedAs(f, w)} :: f in w ==> WalkedAs(f, w))
    }

    ghost predicate WalkedAs(f: PyPath, w: map<PyPath, Walked>) {
      f in w && Readable(f, docs, onDisk) &&
      w[f].refs == FileRefs(docs[f].elements, Parent(f), rootDir, w[f].hints, onDisk)
    }

    /** Nothing is visited or collected without cause: each visited file is
        the root or was reached through an include of a walked file, each
        collected string names a visited file or is named by a walked file,
        and each walked file's hints come from the walk.  Once anything is
        visited, the root is. */
    ghost predicate Bounded(v: set<PyPath>, c: set<string>, w: map<PyPath, Walked>, tr: Trail)
    {
      var via, why := tr.via, tr.why;
      && (v != {} ==> rootFile in v)
      && (forall f {:trigger ViaOk(f, via, w)} :: f in v && f != rootFile ==> ViaOk(f, via, w))
      && (forall x {:trigger Caused(x, why, rootDir, v, w)} :: x in c ==> Caused(x, why, rootDir, v, w))
      && (forall f {:trigger HintsFrom(f, rootFile, docs, w, via)} :: f in w ==> HintsFrom(f, rootFile, docs, w, via))
    }

    /** How file `f` is reached with `hints`: from no file (the root, with no
        hints) or through the include `from` points at, of a walked file that
        was walked with `hints`. */
    ghost predicate ReachedFrom(from: Option<(PyPath, nat)>, f: PyPath, hints: PyHints, w: map<PyPath, Walked>)
    {
      match from
      case None => f == rootFile && hints == []
      case Some(l) => Link(l, w) && w[l.0].hints == hints && IncludesAt(w[l.0].refs[l.1], f)
    }

    lemma ConsistentAdd(v: set<PyPath>, c: set<string>, w: map<PyPath, Walked>, path: PyPath, hints: PyHints)
      requires Consistent(v, c, w)
      requires path in v && Readable(path, docs, onDisk)
      ensures Consistent(v, c, w[path := Walked(hints, FileRefs(docs[path].elements, Parent(path), rootDir, hints, onDisk))])
    {
      var w2 := w[path := Walked(hints, FileRefs(docs[path].elements, Parent(path), rootDir, hints, onDisk))];
      forall f | f in w2 ensures WalkedAs(f, w2) {
        if f != path {
          assert WalkedAs(f, w);
        }
      }
    }

    /** Visiting a new file reached as `ReachedFrom` says keeps the walk
        bounded once the trail remembers its include and its name. */
    lemma BoundedVisit(v: set<PyPath>, c: set<string>, w: map<PyPath, Walked>, tr: Trail,
                       path: PyPath, from: Option<(PyPath, nat)>, hints: PyHints)
      requires Bounded(v, c, w, tr) && w.Keys <= v && path !in v
      requires ReachedFrom(from, path, hints, w)
      ensures Bounded(v + {path}, c + {RelString(path, rootDir)}, w, Visited(tr, path, from, rootDir))
      ensures from.Some? ==> path != rootFile
    {
      var tr2 := Visited(tr, path, from, rootDir);
      forall f | f in v + {path} && f != rootFile ensures ViaOk(f, tr2.via, w) {
        if f != path {
          assert ViaOk(f, tr.via, w);
        }
      }
      forall x | x in c + {RelString(path, rootDir)} ensures Caused(x, tr2.why, rootDir, v + {path}, w) {
        if x != RelString(path, rootDir) {
          assert Caused(x, tr.why, rootDir, v, w);
        }
      }
      forall f | f in w ensures HintsFrom(f, rootFile, docs, w, tr2.via) {
        assert HintsFrom(f, rootFile, docs, w, tr.via);
      }
    }

    /** Collecting `x`, named by reference `i` of walked file `g`, keeps the
        walk bounded once the trail remembers the reference. */
    lemma BoundedCollect(v: set<PyPath>, c: set<string>, w: map<PyPath, Walked>, tr: Trail,
                         x: string, g: PyPath, i: nat)
      requires Bounded(v, c, w, tr) && Link((g, i), w) && NamesAt(w[g].refs[i], x, rootDir)
      ensures Bounded(v, c + {x}, w, tr.(why := tr.why[x := NamedAt(g, i)]))
    {
      var why2 := tr.why[x := NamedAt(g, i)];
      forall y | y in c + {x} ensures Caused(y, why2, rootDir, v, w) {
        if y != x {
          assert Caused(y, tr.why, rootDir, v, w);
        }
      }
    }

    /** Walking a visited file, with its own hints merged over those of the
        file that reached it, keeps the walk bounded. */
    lemma BoundedWalked(v: set<PyPath>, c: set<string>, w: map<PyPath, Walked>, tr: Trail,
                        path: PyPath, parentHints: PyHints, refs: seq<(Option<PyRef>, bool)>)
      requires Bounded(v, c, w, tr)
      requires path in v && path !in w && Readable(path, docs, onDisk)
      requires HintsSource(path, parentHints, w, tr.via)
      ensures Bounded(v, c, w[path := Walked(OwnHints(parentHints, path, docs), refs)], tr)
    {
      var w2 := w[path := Walked(OwnHints(parentHints, path, docs), refs)];
      forall f | f in v && f != rootFile ensures ViaOk(f, tr.via, w2) {
        assert ViaOk(f, tr.via, w);
      }
      forall x | x in c ensures Caused(x, tr.why, rootDir, v, w2) {
        assert Caused(x, tr.why, rootDir, v, w);
      }
      forall f | f in w2 ensures HintsFrom(f, rootFile, docs, w2, tr.via) {
        if f != path {
          assert HintsFrom(f, rootFile, docs, w, tr.via);
        }
      }
    }

    /** The hints `path` is walked with merge its own over `parentHints`,
        which are none for the root and otherwise those of the walked file
        whose include reached it. */
    ghost predicate HintsSource(path: PyPath, parentHints: PyHints, w: map<PyPath, Walked>,
                                via: map<PyPath, (PyPath, nat)>) {
      if path == rootFile then parentHints == []
      else path in via && via[path].0 in w && w[via[path].0].hints == parentHints
    }

    ghost predicate Done(f: PyPath, w: map<PyPath, Walked>, v: set<PyPath>, c: set<string>) {
      Readable(f, docs, onDisk) ==> f in w && RefsCovered(w[f].refs, rootDir, v, c)
    }

    lemma DoneGrows(f: PyPath, w: map<PyPath, Walked>, v: set<PyPath>, c: set<string>,
                    w2: map<PyPath, Walked>, v2: set<PyPath>, c2: set<string>)
      requires Done(f, w, v, c)
      requires forall g :: g in w ==> g in w2 && w2[g] == w[g]
      requires v <= v2 && c <= c2
      ensures Done(f, w2, v2, c2)
    {
      if Readable(f, docs, onDisk) {
        RefsCoveredGrow(w[f].refs, rootDir, v, c, v2, c2);
      }
    }

    /** From the walk state (v0, c0, w0) to (v, c, w) the walk only grew:
        no walked file's record changed and every file first visited in
        between is done. */
    ghost predicate Grown(v0: set<PyPath>, c0: set<string>, w0: map<PyPath, Walked>,
                          v: set<PyPath>, c: set<string>, w: map<PyPath, Walked>) {
      && v0 <= v && c0 <= c
      && (forall f :: f in w0 ==> f in w && w[f] == w0[f])
      && (forall f :: f in v && f !in v0 ==> Done(f, w, v, c))
    }

    lemma GrownTrans(v0: set<PyPath>, c0: set<string>, w0: map<PyPath, Walked>,
                     v1: set<PyPath>, c1: set<string>, w1: map<PyPath, Walked>,
                     v2: set<PyPath>, c2: set<string>, w2: map<PyPath, Walked>)
      requires Grown(v0, c0, w0, v1, c1, w1)
      requires Grown(v1, c1, w1, v2, c2, w2)
      ensures Grown(v0, c0, w0, v2, c2, w2)
    {
      forall f | f in v2 && f !in v0 ensures Done(f, w2, v2, c2) {
        if f in v1 {
          DoneGrows(f, w1, v1, c1, w2, v2, c2);
        }
      }
    }

    lemma GrownFrom(v0: set<PyPath>, c0: set<string>, w0: map<PyPath, Walked>, w1: map<PyPath, Walked>,
                    v: set<PyPath>, c: set<string>, w: map<PyPath, Walked>)
      requires Grown(v0, c0, w0, v, c, w)
      requires forall f :: f in w1 ==> f in w0 && w0[f] == w1[f]
      ensures Grown(v0, c0, w1, v, c, w)
    {
    }

    /** A finished walk from the root, in which every visited file is done,
        produced exactly what `PyWalkOutcome` describes. */
    lemma Finished(v: set<PyPath>, c: set<string>, w: map<PyPath, Walked>, tr: Trail, root: PyPath)
      requires Consistent(v, c, w) && Bounded(v, c, w, tr)
      requires forall f :: f in v ==> Done(f, w, v, c)
      requires rootFile == root && rootDir == Parent(root) && rootFile in v
      ensures PyWalkOutcome(root, docs, onDisk, c, v, w, tr.via, tr.why)
    {
      forall f | f in w ensures RefsCovered(w[f].refs, rootDir, v, c) {
        assert WalkedAs(f, w) && Done(f, w, v, c);
      }
      forall f ensures f in w <==> f in v && Readable(f, docs, onDisk) {
        if f in w {
          assert WalkedAs(f, w);
        } else if f in v {
          assert Done(f, w, v, c);
        }
      }
      forall f | f in w ensures HintsFrom(f, rootFile, docs, w, tr.via)
        && w[f].refs == FileRefs(docs[f].elements, Parent(f), rootDir, w[f].hints, onDisk)
      {
        assert WalkedAs(f, w);
      }
    }

    constructor (docs: map<PyPath, Fetched>, onDisk: set<PyPath>, rootDir: PyPath, rootFile: PyPath)
      ensures this.docs == docs && this.onDisk == onDisk && this.rootDir == rootDir && this.rootFile == rootFile
      ensures visited == {} && collected == {} && walked == map[] && trail == Trail(map[], map[])
      ensures Valid()
    {
      this.docs := docs;
      this.onDisk := onDisk;
      this.rootDir := rootDir;
      this.rootFile := rootFile;
      visited := {};
      collected := {};
      walked := map[];
      trail := Trail(map[], map[]);
    }

    lemma MeasureShrinks(v: set<PyPath>, v2: set<PyPath>)
      requires v <= v2
      ensures |docs.Keys - v2| <= |docs.Keys - v|
    {
      SubsetCard(docs.Keys - v2, docs.Keys - v);
    }

    /** `walk(file_path, parent_hints)`: each resolved path is walked once,
        so cyclic includes end; the file is collected even when it is
        missing or does not parse; every file first reached here is done on
        return.  `from` (ghost) is the walked file whose include led here,
        if any. */
    method Walk(filePath: PyPath, parentHints: PyHints, ghost from: Option<(PyPath, nat)>)
      requires Valid() && ReachedFrom(from, filePath, parentHints, walked)
      modifies this
      ensures Valid() && Grown(old(visited), old(collected), old(walked), visited, collected, walked)
      ensures filePath in visited && RelString(filePath, rootDir) in collected
      decreases |docs.Keys - visited|, 5
    {
      var path := filePath;
      if path in visited {
        return;
      }
      Visit(path, from, parentHints);
      if path !in onDisk {
        return;
      }
      if path !in docs || docs[path].Unparseable? {
        return;
      }
      CardShrinks(docs.Keys, old(visited), visited, path);
      WalkParsed(path, parentHints, |docs.Keys - old(visited)|);
    }

    /** `visited.add(real_path)` and `collected.add(to_relative_string(...))`;
        the ghost state remembers how the file was reached. */
    method Visit(path: PyPath, ghost from: Option<(PyPath, nat)>, ghost parentHints: PyHints)
      requires Valid() && path !in visited && ReachedFrom(from, path, parentHints, walked)
      modifies this
      ensures Valid()
      ensures visited == old(visited) + {path} && collected == old(collected) + {RelString(path, rootDir)}
      ensures walked == old(walked)
      ensures HintsSource(path, parentHints, walked, trail.via)
    {
      BoundedVisit(visited, collected, walked, trail, path, from, parentHints);
      visited, collected := visited + {path}, collected + {RelString(path, rootDir)};
      trail := Visited(trail, path, from, rootDir);
    }

    /** `collected.add(...)` for a string named by reference `i` of walked
        file `g`; the ghost state remembers the reference. */
    method Collect(x: string, ghost g: PyPath, ghost i: nat)
      requires Valid() && Link((g, i), walked) && NamesAt(walked[g].refs[i], x, rootDir)
      modifies this
      ensures Valid()
      ensures collected == old(collected) + {x} && visited == old(visited) && walked == old(walked)
    {
      BoundedCollect(visited, collected, walked, trail, x, g, i);
      collected := collected + {x};
      trail := trail.(why := trail.why[x := NamedAt(g, i)]);
    }

    /** The rest of `walk` for a readable file: its own compiler hints are
        merged over the parent's, and every element is followed with them. */
    method WalkParsed(path: PyPath, parentHints: PyHints, ghost bound: nat)
      requires Valid()
      requires path in visited && path !in walked && Readable(path, docs, onDisk)
      requires HintsSource(path, parentHints, walked, trail.via)
      requires |docs.Keys - visited| < bound
      modifies this
      ensures Valid() && Grown(old(visited), old(collected), old(walked), visited, collected, walked)
      ensures Done(path, walked, visited, collected)
      ensures |docs.Keys - visited| < bound
      decreases bound, 4
    {
      var els := docs[path].elements;
      var baseDir := Parent(path);
      var local := ParseCompilerDirectories(els, baseDir);
      ParseCompilerDirectoriesSpec(els, baseDir, "");
      var hints := MergeHints(parentHints, local);
      ghost var refs := FileRefs(els, baseDir, rootDir, hints, onDisk);
      ConsistentAdd(visited, collected, walked, path, hints);
      BoundedWalked(visited, collected, walked, trail, path, parentHints, refs);
      walked := walked[path := Walked(hints, refs)];
      ghost var v0, c0, w0 := visited, collected, walked;
      FollowElements(els, baseDir, hints, refs, bound, v0, c0, w0, path);
      assert walked[path] == w0[path];
      GrownFrom(v0, c0, w0, old(walked), visited, collected, walked);
    }

    /** `for element in root_element.iter()`: every reference of every
        element is followed, with the file's merged hints; `g` (ghost) is
        the file. */
    method FollowElements(els: seq<Element>, baseDir: PyPath, hints: PyHints,
                          ghost refs: seq<(Option<PyRef>, bool)>, ghost bound: nat,
                          ghost v0: set<PyPath>, ghost c0: set<string>, ghost w0: map<PyPath, Walked>,
                          ghost g: PyPath)
      requires refs == FileRefs(els, baseDir, rootDir, hints, onDisk)
      requires Valid() && Grown(v0, c0, w0, visited, collected, walked)
      requires g in w0 && w0[g] == Walked(hints, refs)
      requires |docs.Keys - visited| < bound
      modifies this
      ensures Valid() && Grown(v0, c0, w0, visited, collected, walked)
      ensures RefsCovered(refs, rootDir, visited, collected)
      ensures |docs.Keys - visited| < bound
      decreases bound, 3
    {
      var i := 0;
      while i < |els|
        invariant 0 <= i <= |els|
        invariant Valid() && Grown(v0, c0, w0, visited, collected, walked)
        invariant CoveredUpTo(refs, |FileRefs(els[..i], baseDir, rootDir, hints, onDisk)|, rootDir, visited, collected)
        invariant |docs.Keys - visited| < bound
      {
        ElementRefsAt(els, i, baseDir, rootDir, hints, onDisk);
        FollowElement(els[i], baseDir, hints, bound, v0, c0, w0, |FileRefs(els[..i], baseDir, rootDir, hints, onDisk)|, g);
        TakeOneMore([], els, i);
        FileRefsAppend(els[..i], els[i], baseDir, rootDir, hints, onDisk);
        i := i + 1;
      }
      assert els[..i] == els;
    }

    /** `for attr_name in REFERENCE_ATTRS` for one element: each present
        attribute is resolved and followed; `g` (ghost) is the file the
        element belongs to and `start` the index of the element's first
        reference among the file's. */
    method FollowElement(el: Element, baseDir: PyPath, hints: PyHints, ghost bound: nat,
                         ghost v0: set<PyPath>, ghost c0: set<string>, ghost w0: map<PyPath, Walked>,
                         ghost start: nat, ghost g: PyPath)
      requires Valid() && Grown(v0, c0, w0, visited, collected, walked)
      requires g in w0 && w0[g].hints == hints
      requires start + |PyReferenceAttrs| <= |w0[g].refs|
      requires w0[g].refs[start..start + |PyReferenceAttrs|] == AttrRefs(el, PyReferenceAttrs, baseDir, rootDir, hints, onDisk)
      requires CoveredUpTo(w0[g].refs, start, rootDir, visited, collected)
      requires |docs.Keys - visited| < bound
      modifies this
      ensures Valid() && Grown(v0, c0, w0, visited, collected, walked)
      ensures CoveredUpTo(w0[g].refs, start + |PyReferenceAttrs|, rootDir, visited, collected)
      ensures |docs.Keys - visited| < bound
      decreases bound, 2
    {
      var tagName := StripXmlNamespace(el.tag);
      ghost var refs := AttrRefs(el, PyReferenceAttrs, baseDir, rootDir, hints, onDisk);
      var k := 0;
      while k < |PyReferenceAttrs|
        invariant 0 <= k <= |PyReferenceAttrs|
        invariant Valid() && Grown(v0, c0, w0, visited, collected, walked)
        invariant CoveredUpTo(w0[g].refs, start + k, rootDir, visited, collected)
        invariant |docs.Keys - visited| < bound
      {
        AssetCollector.SliceIndex(w0[g].refs, start, refs, k);
        FollowAttr(el, tagName, k, baseDir, hints, bound, v0, c0, w0, g, start + k);
        k := k + 1;
      }
    }

    /** One turn of the attribute loop: attribute `k` of `el`, reference `i`
        of walked file `g`, is resolved and followed. */
    method FollowAttr(el: Element, tagName: string, k: nat, baseDir: PyPath, hints: PyHints, ghost bound: nat,
                      ghost v0: set<PyPath>, ghost c0: set<string>, ghost w0: map<PyPath, Walked>,
                      ghost g: PyPath, ghost i: nat)
      requires tagName == StripXmlNamespace(el.tag) && k < |PyReferenceAttrs|
      requires Valid() && Grown(v0, c0, w0, visited, collected, walked)
      requires g in w0 && w0[g].hints == hints
      requires i < |w0[g].refs| && w0[g].refs[i] == AttrRefs(el, PyReferenceAttrs, baseDir, rootDir, hints, onDisk)[k]
      requires CoveredUpTo(w0[g].refs, i, rootDir, visited, collected)
      requires |docs.Keys - visited| < bound
      modifies this
      ensures Valid() && Grown(v0, c0, w0, visited, collected, walked)
      ensures CoveredUpTo(w0[g].refs, i + 1, rootDir, visited, collected)
      ensures |docs.Keys - visited| < bound
      decreases bound, 1
    {
      var attrName := PyReferenceAttrs[k];
      AttrRefsIndex(el, PyReferenceAttrs, baseDir, rootDir, hints, onDisk, k);
      FollowRef(AttrRef(el, attrName, baseDir, rootDir, hints, onDisk),
                tagName == "include" && attrName == "file", hints, bound, v0, c0, w0, g, i);
    }

    /** One resolved reference of walked file `g`: a local file is collected
        by its root-relative name and an include is walked with the
        including file's hints; a non-empty text entry is collected as it
        is. */
    method FollowRef(reference: Option<PyRef>, isInclude: bool, hints: PyHints, ghost bound: nat,
                     ghost v0: set<PyPath>, ghost c0: set<string>, ghost w0: map<PyPath, Walked>,
                     ghost g: PyPath, ghost i: nat)
      requires Valid() && Grown(v0, c0, w0, visited, collected, walked)
      requires g in w0 && w0[g].hints == hints
      requires i < |w0[g].refs| && w0[g].refs[i] == (reference, isInclude)
      requires CoveredUpTo(w0[g].refs, i, rootDir, visited, collected)
      requires |docs.Keys - visited| < bound
      modifies this
      ensures Valid() && Grown(v0, c0, w0, visited, collected, walked)
      ensures CoveredUpTo(w0[g].refs, i + 1, rootDir, visited, collected)
      ensures |docs.Keys - visited| < bound
      decreases bound, 0
    {
      ghost var v1, c1, w1 := visited, collected, walked;
      assert walked[g] == w0[g];
      match reference {
        case None =>
        case Some(LocalPath(p)) =>
          Collect(RelString(p, rootDir), g, i);
          if isInclude {
            assert IncludesAt(walked[g].refs[i], p);
            ghost var vBefore := visited;
            Walk(p, hints, Some((g, i)));
            MeasureShrinks(vBefore, visited);
          }
        case Some(TextRef(t)) =>
          if t != [] {
            Collect(t, g, i);
          }
      }
      GrownTrans(v0, c0, w0, v1, c1, w1, visited, collected, walked);
      CoveredStep(w0[g].refs, i, rootDir, v1, c1, visited, collected);
    }
  }

  /**
   * `collect_assets`: resolve the root file against the working directory,
   * fail when it does not exist, walk from it, and return everything
   * collected, sorted.  The ghost results expose the walk: the files
   * visited, the hints and references of each readable one, the include
   * that first reached each visited file and the cause of each collected
   * string.
   */
  method CollectAssets(rootFile: string, cwd: PyPath, docs: map<PyPath, Fetched>, onDisk: set<PyPath>)
    returns (r: Result<seq<string>>, ghost visited: set<PyPath>, ghost walked: map<PyPath, Walked>,
             ghost via: map<PyPath, (PyPath, nat)>, ghost why: map<string, Cause>)
    ensures r.Err? <==> Resolve(cwd, rootFile) !in onDisk
    ensures r.Ok? ==>
      && Sorting.StrictlySorted(r.value)
      && PyWalkOutcome(Resolve(cwd, rootFile), docs, onDisk, (set x | x in r.value), visited, walked, via, why)
  {
    var root := Resolve(cwd, rootFile);
    if root !in onDisk {
      return Err("FileNotFoundError"), {}, map[], map[], map[];
    }
    var walk := new PyWalk(docs, onDisk, Parent(root), root);
    walk.Walk(root, [], None);
    var sorted := Sorting.SortedList(walk.collected);
    r := Ok(sorted);
    visited, walked := walk.visited, walk.walked;
    via, why := walk.trail.via, walk.trail.why;
    assert (set x | x in sorted) == walk.collected;
    walk.Finished(visited, walk.collected, walked, walk.trail, root);
  }
}
