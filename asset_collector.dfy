/**
 * The browser asset collector (`MuJoCoAssetCollector`): directory hints from
 * `<compiler>` elements, the per-reference search order, first-hit
 * resolution against the server, reference classification, the depth-first
 * walk over `<include>` files and the per-scene cache of `analyzeScene`.
 *
 * The server is an input: `present` holds the URL suffixes (after
 * `baseUrl + "/"`) a HEAD request finds, and `docs` maps the suffix of each
 * fetchable XML file to its parsed elements.
 */
module AssetCollector {
  import opened Wrappers
  import opened Text
  import opened AssetPaths
  import Sorting
  import opened DirectoryHints

  /** One XML element: its tag name as written and its attributes in document order. */
  datatype Element = Element(tag: string, attrs: seq<(string, string)>)

  /** What fetching a file gives: its elements, or text the parser rejects. */
  datatype Fetched = Parsed(elements: seq<Element>) | Unparseable

  /** `element.getAttribute(name)`: the first attribute with that name. */
  function GetAttribute(attrs: seq<(string, string)>, name: string): Option<string> {
    if attrs == [] then None
    else if attrs[0].0 == name then Some(attrs[0].1)
    else GetAttribute(attrs[1..], name)
  }

  /** The attributes that may name an external resource, in iteration order. */
  const ReferenceAttrs: seq<string> :=
    ["file", "href", "src", "fileup", "fileback", "filedown", "filefront", "fileleft", "fileright"]

  // ---------------------------------------------------------------------------
  // Directory hints

  type Hints = seq<Hint<string>>

  // ---------------------------------------------------------------------------
  // _parseCompilerDirectories

  /** One compiler attribute, applied to the directories found so far. */
  function AddCompilerAttr(dirs: Hints, attr: (string, string), baseDir: string): Hints {
    var name := Lower(attr.0);
    var value := Trim(attr.1);
    if (EndsWith(name, "dir") || EndsWith(name, "path")) && value != [] then
      var path := if StartsWith(value, "/") then value
                  else if baseDir != [] then JoinPath([baseDir, value])
                  else value;
      Put(dirs, name, Get(dirs, name) + [Normalize(path)])
    else dirs
  }

  function AddCompilerAttrs(dirs: Hints, attrs: seq<(string, string)>, baseDir: string): Hints
    decreases |attrs|
  {
    if attrs == [] then dirs
    else AddCompilerAttrs(AddCompilerAttr(dirs, attrs[0], baseDir), attrs[1..], baseDir)
  }

  function CompilerDirsFrom(dirs: Hints, elements: seq<Element>, baseDir: string): Hints
    decreases |elements|
  {
    if elements == [] then dirs
    else
      var next := if elements[0].tag == "compiler"
                  then AddCompilerAttrs(dirs, elements[0].attrs, baseDir) else dirs;
      CompilerDirsFrom(next, elements[1..], baseDir)
  }

  /** `_parseCompilerDirectories` over a parsed document: every `<compiler>`
      attribute whose lower-cased name ends in `dir` or `path` and whose
      trimmed value is not empty, under that name, in document order. */
  function ParseCompilerDirectories(elements: seq<Element>, baseDir: string): Hints {
    CompilerDirsFrom([], elements, baseDir)
  }

  lemma {:induction false} CompilerDirsDistinct(dirs: Hints, elements: seq<Element>, baseDir: string)
    requires DistinctKeys(dirs)
    ensures DistinctKeys(CompilerDirsFrom(dirs, elements, baseDir))
    decreases |elements|
  {
    if elements != [] {
      var next := dirs;
      if elements[0].tag == "compiler" {
        AttrsDistinct(dirs, elements[0].attrs, baseDir);
        next := AddCompilerAttrs(dirs, elements[0].attrs, baseDir);
      }
      CompilerDirsDistinct(next, elements[1..], baseDir);
    }
  }

  lemma {:induction false} AttrsDistinct(dirs: Hints, attrs: seq<(string, string)>, baseDir: string)
    requires DistinctKeys(dirs)
    ensures DistinctKeys(AddCompilerAttrs(dirs, attrs, baseDir))
    decreases |attrs|
  {
    if attrs != [] {
      var name := Lower(attrs[0].0);
      GetPut(dirs, name, Get(dirs, name) + [[]], name);
      var next := AddCompilerAttr(dirs, attrs[0], baseDir);
      assert DistinctKeys(next) by {
        var value := Trim(attrs[0].1);
        if (EndsWith(name, "dir") || EndsWith(name, "path")) && value != [] {
          var path := if StartsWith(value, "/") then value
                      else if baseDir != [] then JoinPath([baseDir, value])
                      else value;
          GetPut(dirs, name, Get(dirs, name) + [Normalize(path)], name);
        }
      }
      AttrsDistinct(next, attrs[1..], baseDir);
    }
  }

  /** Each compiler attribute name appears once among the parsed hints. */
  lemma ParseCompilerDirectoriesDistinct(elements: seq<Element>, baseDir: string)
    ensures DistinctKeys(ParseCompilerDirectories(elements, baseDir))
  {
    CompilerDirsDistinct([], elements, baseDir);
  }

  /** A compiler attribute that is neither a `dir` nor a `path`, or is blank,
      leaves the hints as they were; an accepted one appends its normalized
      directory to the list under its lower-cased name. */
  lemma AddCompilerAttrSpec(dirs: Hints, attr: (string, string), baseDir: string)
    ensures var name := Lower(attr.0);
      var value := Trim(attr.1);
      var r := AddCompilerAttr(dirs, attr, baseDir);
      && (!(EndsWith(name, "dir") || EndsWith(name, "path")) || value == [] ==> r == dirs)
      && ((EndsWith(name, "dir") || EndsWith(name, "path")) && value != [] ==>
            |Get(r, name)| == |Get(dirs, name)| + 1
            && Get(r, name)[..|Get(dirs, name)|] == Get(dirs, name)
            && Get(r, name)[|Get(dirs, name)|] ==
                 Normalize(if StartsWith(value, "/") then value
                           else if baseDir != [] then JoinPath([baseDir, value]) else value)
            && forall k :: k != name ==> Get(r, k) == Get(dirs, k))
  {
    var name := Lower(attr.0);
    var value := Trim(attr.1);
    if (EndsWith(name, "dir") || EndsWith(name, "path")) && value != [] {
      var path := if StartsWith(value, "/") then value
                  else if baseDir != [] then JoinPath([baseDir, value]) else value;
      var nd := Get(dirs, name) + [Normalize(path)];
      GetPut(dirs, name, nd, name);
      forall k | k != name ensures Get(AddCompilerAttr(dirs, attr, baseDir), k) == Get(dirs, k) {
        GetPut(dirs, name, nd, k);
      }
    }
  }

  // ---------------------------------------------------------------------------
  // _buildSearchOrder

  const CommonDirs: seq<string> := ["", "assets", "meshes", "textures"]

  function CommonCandidates(dirs: seq<string>, baseDir: string): seq<string> {
    if dirs == [] then []
    else [if baseDir != [] then Normalize(JoinPath([baseDir, dirs[0]])) else dirs[0]]
         + CommonCandidates(dirs[1..], baseDir)
  }

  /** The directories pushed by `_buildSearchOrder`, before deduplication. */
  function SearchCandidates(tag: string, hints: Hints, baseDir: string, rootDir: string): seq<string> {
    var own := (if baseDir != [] then [baseDir] else []) + [""];
    (if tag == "include" then own else [])
    + (HintedDirs(TagDirectoryHints(tag), hints)
       + ((if tag != "include" then CommonCandidates(CommonDirs, baseDir) else [])
          + (AllDirs(hints)
             + ((if tag != "include" then own else [])
                + (if rootDir != [] then [rootDir] else [])))))
  }

  /** `_buildSearchOrder`: the candidate directories, first occurrences kept. */
  function SearchOrder(tag: string, hints: Hints, baseDir: string, rootDir: string): seq<string> {
    Dedup(SearchCandidates(tag, hints, baseDir, rootDir))
  }

  /** The search order holds each directory once and exactly the candidates;
      the root folder and the root directory are always searched. */
  lemma SearchOrderSpec(tag: string, hints: Hints, baseDir: string, rootDir: string)
    ensures var order := SearchOrder(tag, hints, baseDir, rootDir);
      && Distinct(order)
      && (forall d :: d in order <==> d in SearchCandidates(tag, hints, baseDir, rootDir))
      && (rootDir != [] ==> rootDir in order)
      && "" in order
  {
    DedupSpec(SearchCandidates(tag, hints, baseDir, rootDir));
    CandidatesHaveRoots(tag, hints, baseDir, rootDir);
  }

  lemma CandidatesHaveRoots(tag: string, hints: Hints, baseDir: string, rootDir: string)
    ensures var cands := SearchCandidates(tag, hints, baseDir, rootDir);
      "" in cands && (rootDir != [] ==> rootDir in cands)
  {
    var own := (if baseDir != [] then [baseDir] else []) + [""];
    assert "" in own;
  }

  /** An include searches its own folder and then the root folder first. */
  lemma SearchOrderIncludeFirst(hints: Hints, baseDir: string, rootDir: string)
    ensures var order := SearchOrder("include", hints, baseDir, rootDir);
      && (baseDir != [] ==> |order| >= 2 && order[..2] == [baseDir, ""])
      && (baseDir == [] ==> |order| >= 1 && order[0] == "")
  {
    var cands := SearchCandidates("include", hints, baseDir, rootDir);
    var own := (if baseDir != [] then [baseDir] else []) + [""];
    var rest := cands[|own|..];
    assert cands == own + rest;
    DedupFromPrefix(own, rest, []);
    if baseDir != [] {
      assert own == [baseDir, ""];
      assert own[1..] == [""];
      assert [] + [baseDir] == [baseDir];
      assert DedupFrom(own, []) == [baseDir] + DedupFrom([""], [baseDir]);
      assert DedupFrom([""], [baseDir]) == [""] + DedupFrom([], [baseDir] + [""]);
    } else {
      assert own == [""];
      assert DedupFrom(own, []) == [""] + DedupFrom([], [""]);
    }
  }

  /** For any tag but `include`, the tag's hinted directories (deduplicated)
      come first in the search order. */
  lemma SearchOrderHintsFirst(tag: string, hints: Hints, baseDir: string, rootDir: string)
    requires tag != "include"
    ensures var hinted := Dedup(HintedDirs(TagDirectoryHints(tag), hints));
      var order := SearchOrder(tag, hints, baseDir, rootDir);
      |hinted| <= |order| && order[..|hinted|] == hinted
  {
    var hinted := HintedDirs(TagDirectoryHints(tag), hints);
    var own := (if baseDir != [] then [baseDir] else []) + [""];
    var rest := CommonCandidates(CommonDirs, baseDir)
      + (AllDirs(hints) + (own + (if rootDir != [] then [rootDir] else [])));
    assert SearchCandidates(tag, hints, baseDir, rootDir) == [] + (hinted + rest);
    assert [] + (hinted + rest) == hinted + rest;
    DedupFromPrefix(hinted, rest, []);
  }

  // ---------------------------------------------------------------------------
  // _resolveLocalFile

  /** The candidate file for one search directory. */
  function Candidate(dir: string, value: string): string {
    Normalize(JoinPath([dir, value]))
  }

  /** The index of the first search directory whose candidate present
      (`|dirs|` when none does). */
  function FirstHit(dirs: seq<string>, value: string, present: set<string>): (k: nat)
    ensures k <= |dirs|
    ensures forall j :: 0 <= j < k ==> Candidate(dirs[j], value) !in present
    ensures k < |dirs| ==> Candidate(dirs[k], value) in present
  {
    if dirs == [] then 0
    else if Candidate(dirs[0], value) in present then 0
    else 1 + FirstHit(dirs[1..], value, present)
  }

  /** `_resolveLocalFile`: a blank value resolves to nothing; an absolute value
      the server has is returned without its leading '/'; otherwise the first
      search directory's candidate the server has. */
  function ResolveLocalFile(value: string, dirs: seq<string>, present: set<string>): (r: Option<string>)
    ensures IsBlank(value) ==> r == None
    ensures !IsBlank(value) && StartsWith(value, "/") && value[1..] in present ==> r == Some(Normalize(value[1..]))
    ensures !IsBlank(value) && !(StartsWith(value, "/") && value[1..] in present) ==>
      var k := FirstHit(dirs, value, present);
      (k < |dirs| ==> r == Some(Candidate(dirs[k], value))) && (k == |dirs| ==> r == None)
  {
    if IsBlank(value) then None
    else if StartsWith(value, "/") && value[1..] in present then Some(Normalize(value[1..]))
    else
      var k := FirstHit(dirs, value, present);
      if k < |dirs| then Some(Candidate(dirs[k], value)) else None
  }

  /** What `_resolveLocalFile` promises without the probe index: nothing
      exactly for a blank value or when neither the absolute path nor any
      search directory's candidate exists; otherwise, unless the absolute
      path exists, a candidate the server has, with no earlier directory's
      candidate present. */
  lemma ResolveLocalFileSpec(value: string, dirs: seq<string>, present: set<string>)
    ensures var r := ResolveLocalFile(value, dirs, present);
      r.None? <==> IsBlank(value) || (!(StartsWith(value, "/") && value[1..] in present)
                                      && forall j :: 0 <= j < |dirs| ==> Candidate(dirs[j], value) !in present)
    ensures var r := ResolveLocalFile(value, dirs, present);
      r.Some? && !(StartsWith(value, "/") && value[1..] in present) ==>
        r.value in present
        && exists j :: 0 <= j < |dirs| && r.value == Candidate(dirs[j], value)
                       && forall i :: 0 <= i < j ==> Candidate(dirs[i], value) !in present
  {
    var k := FirstHit(dirs, value, present);
    if k < |dirs| && !IsBlank(value) && !(StartsWith(value, "/") && value[1..] in present) {
      assert ResolveLocalFile(value, dirs, present) == Some(Candidate(dirs[k], value));
    }
  }

  /** `_resolveLocalFile` as the source's probing loop runs it. */
  method ResolveLocalFileLoop(value: string, dirs: seq<string>, present: set<string>) returns (r: Option<string>)
    ensures r == ResolveLocalFile(value, dirs, present)
  {
    if IsBlank(value) {
      return None;
    }
    if StartsWith(value, "/") && value[1..] in present {
      return Some(Normalize(value[1..]));
    }
    var k := Probe(dirs, value, present);
    if k < |dirs| {
      return Some(Candidate(dirs[k], value));
    }
    return None;
  }

  /** The probing loop: tries each search directory's candidate in turn and
      stops at the first the server has. */
  method Probe(dirs: seq<string>, value: string, present: set<string>) returns (k: nat)
    ensures k == FirstHit(dirs, value, present)
  {
    k := 0;
    while k < |dirs|
      invariant k <= FirstHit(dirs, value, present)
    {
      if Candidate(dirs[k], value) in present {
        return;
      }
      k := k + 1;
    }
  }

  /** Every path `_resolveLocalFile` returns is normalized. */
  lemma ResolvedIsNormalized(value: string, dirs: seq<string>, present: set<string>)
    ensures var r := ResolveLocalFile(value, dirs, present);
      r.Some? ==> Normalize(r.value) == r.value
  {
    var r := ResolveLocalFile(value, dirs, present);
    if r.Some? {
      if StartsWith(value, "/") && value[1..] in present {
        NormalizeIdempotent(value[1..]);
      } else {
        var k := FirstHit(dirs, value, present);
        NormalizeIdempotent(JoinPath([dirs[k], value]));
      }
    }
  }

  // ---------------------------------------------------------------------------
  // _resolveReference

  /** What a reference resolves to: a local file to fetch or an entry kept as text. */
  datatype Ref = PathRef(path: string) | TextRef(text: string)

  /** `_resolveReference`. */
  function ResolveReference(raw: string, tag: string, baseDir: string, hints: Hints,
                            present: set<string>, rootDir: string): Option<Ref>
  {
    var value := Trim(raw);
    var lower := Lower(value);
    if value == [] then None
    else if StartsWith(lower, "http://") || StartsWith(lower, "https://") then Some(TextRef(value))
    else if StartsWith(lower, "file://") then None
    else if '@' in value && value[0] != '@' then
      ArchiveRef(value, SearchOrder(tag, hints, baseDir, rootDir), present)
    else
      match ResolveLocalFile(value, SearchOrder(tag, hints, baseDir, rootDir), present)
      case None => None
      case Some(p) => if p == [] then None else Some(PathRef(p))
  }

  /** The `file@member` branch of `_resolveReference`: `value.split('@', 2)`
      keeps the text before the first '@' and the text up to the second '@'. */
  function ArchiveRef(value: string, order: seq<string>, present: set<string>): Option<Ref>
    requires '@' in value
  {
    var pieces := Split(value, '@');
    var prefix := pieces[0];
    var member := pieces[1];
    if member == [] then None
    else
      match ResolveLocalFile(prefix, order, present)
      case None => None
      case Some(archive) => if archive == [] then None else Some(TextRef(archive + "@" + member))
  }

  /** Remote references come back verbatim as text; `file://` references and
      blank values resolve to nothing. */
  lemma ResolveReferenceUrls(raw: string, tag: string, baseDir: string, hints: Hints,
                             present: set<string>, rootDir: string)
    ensures var value := Trim(raw);
      var lower := Lower(value);
      var r := ResolveReference(raw, tag, baseDir, hints, present, rootDir);
      && (value == [] ==> r == None)
      && (StartsWith(lower, "http://") || StartsWith(lower, "https://") ==> r == Some(TextRef(value)))
      && (StartsWith(lower, "file://") ==> r == None)
  {
    var value := Trim(raw);
    var lower := Lower(value);
    if StartsWith(lower, "http://") || StartsWith(lower, "https://") {
      assert value != [] by { assert |lower| == |value|; }
      if StartsWith(lower, "http://") {
        StartsWithHead(lower, "http://");
      } else {
        StartsWithHead(lower, "https://");
      }
      if StartsWith(lower, "file://") {
        StartsWithHead(lower, "file://");
        assert false;
      }
    } else if StartsWith(lower, "file://") {
      assert value != [] by { assert |lower| == |value|; }
    }
  }

  /** `value.split('@', 2)` for a value holding '@': the text before the first
      '@', and the text between it and the next '@' (or the end). */
  lemma ArchivePieces(value: string)
    requires '@' in value
    ensures var k := IndexOf(value, '@');
      var rest := value[k + 1..];
      && Split(value, '@')[0] == value[..k]
      && Split(value, '@')[1] == rest[..IndexOf(rest, '@')]
  {
    var k := IndexOf(value, '@');
    var a := value[..k];
    var b := value[k + 1..];
    assert value == a + ['@'] + b;
    assert forall i :: 0 <= i < |a| ==> a[i] != '@';
    SplitAppend(a, b, '@');
    SplitNoSep(a, '@');
    SplitFirstPiece(b, '@');
  }

  /** `file@member`: only the file part is resolved, and the text is the
      resolved file, '@', and the member cut at any further '@'.  An empty
      member, or a file that resolves to nothing or to the empty path (the
      server root itself), gives nothing. */
  lemma ArchiveRefSpec(value: string, order: seq<string>, present: set<string>)
    requires '@' in value
    ensures var k := IndexOf(value, '@');
      var rest := value[k + 1..];
      var member := rest[..IndexOf(rest, '@')];
      var archive := ResolveLocalFile(value[..k], order, present);
      var r := ArchiveRef(value, order, present);
      && (member == [] || archive.None? || archive == Some([]) ==> r == None)
      && (member != [] && archive.Some? && archive.value != [] ==> r == Some(TextRef(archive.value + "@" + member)))
      && '@' !in member
  {
    ArchivePieces(value);
    var k := IndexOf(value, '@');
    var rest := value[k + 1..];
    var member := rest[..IndexOf(rest, '@')];
    assert '@' !in member by {
      assert forall i :: 0 <= i < |member| ==> member[i] == rest[i];
    }
  }

  /** `file@member`: only the file part is resolved, and the text is the
      resolved file, '@', and the member cut at any further '@'. */
  lemma ResolveReferenceArchive(raw: string, tag: string, baseDir: string, hints: Hints,
                                present: set<string>, rootDir: string)
    requires var value := Trim(raw);
      var lower := Lower(value);
      && !(StartsWith(lower, "http://") || StartsWith(lower, "https://") || StartsWith(lower, "file://"))
      && '@' in value && value[0] != '@'
    ensures var value := Trim(raw);
      ResolveReference(raw, tag, baseDir, hints, present, rootDir)
        == ArchiveRef(value, SearchOrder(tag, hints, baseDir, rootDir), present)
  {
  }

  /** A plain local reference resolves to the file `_resolveLocalFile` finds;
      the empty path, which `/`, `.` or `x/..` normalise to, counts as not
      found. */
  lemma ResolveReferenceLocal(raw: string, tag: string, baseDir: string, hints: Hints,
                              present: set<string>, rootDir: string)
    requires var value := Trim(raw);
      var lower := Lower(value);
      && value != []
      && !(StartsWith(lower, "http://") || StartsWith(lower, "https://") || StartsWith(lower, "file://"))
      && !('@' in value && value[0] != '@')
    ensures var value := Trim(raw);
      var local := ResolveLocalFile(value, SearchOrder(tag, hints, baseDir, rootDir), present);
      var r := ResolveReference(raw, tag, baseDir, hints, present, rootDir);
      && (local.None? || local == Some([]) ==> r == None)
      && (local.Some? && local.value != [] ==> r == Some(PathRef(local.value)) && Normalize(local.value) == local.value)
  {
    var value := Trim(raw);
    ResolvedIsNormalized(value, SearchOrder(tag, hints, baseDir, rootDir), present);
  }

  /** No reference names the empty path or is an empty text: both guards of
      `_resolveReference` reject an empty resolution. */
  lemma ResolveReferenceNonEmpty(raw: string, tag: string, baseDir: string, hints: Hints,
                                 present: set<string>, rootDir: string)
    ensures var r := ResolveReference(raw, tag, baseDir, hints, present, rootDir);
      && (r.Some? && r.value.PathRef? ==> r.value.path != [])
      && (r.Some? && r.value.TextRef? ==> r.value.text != [])
  {
    var value := Trim(raw);
    var lower := Lower(value);
    if value != [] && !(StartsWith(lower, "http://") || StartsWith(lower, "https://"))
       && !StartsWith(lower, "file://") && '@' in value && value[0] != '@' {
      ArchiveRefSpec(value, SearchOrder(tag, hints, baseDir, rootDir), present);
    }
  }

  // ---------------------------------------------------------------------------
  // The walk of _collectAssets

  /** The lower-cased tag name without its namespace prefix. */
  function TagOf(el: Element): string {
    StripNamespace(Lower(el.tag))
  }

  /** The reference one attribute of one element makes, if any. */
  function AttrRef(el: Element, attr: string, baseDir: string, hints: Hints,
                   present: set<string>, rootDir: string): Option<Ref>
  {
    match GetAttribute(el.attrs, attr)
    case None => None
    case Some(v) => if v == [] then None else ResolveReference(v, TagOf(el), baseDir, hints, present, rootDir)
  }

  /** The walk is done with one reference: it is collected, and an included
      file has been walked. */
  predicate RefCovered(r: Option<Ref>, isInclude: bool, visited: set<string>, collected: set<string>) {
    match r
    case None => true
    case Some(PathRef(p)) => p in collected && (isInclude ==> Normalize(p) in visited)
    case Some(TextRef(t)) => t in collected
  }

  /** The references one element makes, attribute by attribute, each paired
      with whether it is an include's `file` (which is walked). */
  function AttrRefs(el: Element, attrs: seq<string>, baseDir: string, hints: Hints,
                    present: set<string>, rootDir: string): (refs: seq<(Option<Ref>, bool)>)
    ensures |refs| == |attrs|
  {
    if attrs == [] then []
    else [(AttrRef(el, attrs[0], baseDir, hints, present, rootDir), TagOf(el) == "include" && attrs[0] == "file")]
         + AttrRefs(el, attrs[1..], baseDir, hints, present, rootDir)
  }

  /** All references of a file's elements, in document order. */
  function FileRefs(els: seq<Element>, baseDir: string, hints: Hints,
                    present: set<string>, rootDir: string): seq<(Option<Ref>, bool)>
  {
    if els == [] then []
    else AttrRefs(els[0], ReferenceAttrs, baseDir, hints, present, rootDir)
         + FileRefs(els[1..], baseDir, hints, present, rootDir)
  }

  lemma {:induction false} AttrRefsIndex(el: Element, attrs: seq<string>, baseDir: string, hints: Hints,
                                         present: set<string>, rootDir: string, k: nat)
    requires k < |attrs|
    ensures AttrRefs(el, attrs, baseDir, hints, present, rootDir)[k]
         == (AttrRef(el, attrs[k], baseDir, hints, present, rootDir), TagOf(el) == "include" && attrs[k] == "file")
  {
    if k > 0 {
      AttrRefsIndex(el, attrs[1..], baseDir, hints, present, rootDir, k - 1);
    }
  }

  lemma {:induction false} FileRefsAppend(els: seq<Element>, el: Element, baseDir: string, hints: Hints,
                                          present: set<string>, rootDir: string)
    ensures FileRefs(els + [el], baseDir, hints, present, rootDir)
         == FileRefs(els, baseDir, hints, present, rootDir) + AttrRefs(el, ReferenceAttrs, baseDir, hints, present, rootDir)
  {
    if els == [] {
      assert [] + [el] == [el];
    } else {
      assert (els + [el])[1..] == els[1..] + [el];
      FileRefsAppend(els[1..], el, baseDir, hints, present, rootDir);
    }
  }

  lemma {:induction false} FileRefsConcat(a: seq<Element>, b: seq<Element>, baseDir: string, hints: Hints,
                                          present: set<string>, rootDir: string)
    ensures FileRefs(a + b, baseDir, hints, present, rootDir)
         == FileRefs(a, baseDir, hints, present, rootDir) + FileRefs(b, baseDir, hints, present, rootDir)
  {
    if a == [] {
      assert [] + b == b;
    } else {
      assert (a + b)[1..] == a[1..] + b;
      FileRefsConcat(a[1..], b, baseDir, hints, present, rootDir);
    }
  }

  /** The references of element `k` sit in the file's references right after
      those of the elements before it. */
  /** One step of the attribute loop of `walk`: the `k`th reference
      attribute of an element with tag `tag`, resolved, and whether it is an
      include's `file`. */
  method ReferenceAt(el: Element, tag: string, k: nat, baseDir: string, hints: Hints,
                     present: set<string>, rootDir: string) returns (reference: Option<Ref>, isInclude: bool)
    requires tag == TagOf(el) && k < |ReferenceAttrs|
    ensures (reference, isInclude) == AttrRefs(el, ReferenceAttrs, baseDir, hints, present, rootDir)[k]
  {
    var attr := ReferenceAttrs[k];
    AttrRefsIndex(el, ReferenceAttrs, baseDir, hints, present, rootDir, k);
    reference := AttrRef(el, attr, baseDir, hints, present, rootDir);
    isInclude := tag == "include" && attr == "file";
  }

  /** An element of a slice is the element of the whole sequence. */
  lemma SliceIndex<T>(s: seq<T>, from: nat, t: seq<T>, k: nat)
    requires from + |t| <= |s| && s[from..from + |t|] == t && k < |t|
    ensures s[from + k] == t[k]
  {
    assert s[from..from + |t|][k] == s[from + k];
  }

  lemma ElementRefsAt(els: seq<Element>, k: nat, baseDir: string, hints: Hints,
                      present: set<string>, rootDir: string)
    requires k < |els|
    ensures var before := |FileRefs(els[..k], baseDir, hints, present, rootDir)|;
      && before + |ReferenceAttrs| <= |FileRefs(els, baseDir, hints, present, rootDir)|
      && FileRefs(els, baseDir, hints, present, rootDir)[before..before + |ReferenceAttrs|]
         == AttrRefs(els[k], ReferenceAttrs, baseDir, hints, present, rootDir)
  {
    assert els == els[..k] + els[k..];
    FileRefsConcat(els[..k], els[k..], baseDir, hints, present, rootDir);
    assert els[k..][0] == els[k] && els[k..][1..] == els[k + 1..];
  }

  predicate RefsCovered(refs: seq<(Option<Ref>, bool)>, visited: set<string>, collected: set<string>) {
    forall i :: 0 <= i < |refs| ==> RefCovered(refs[i].0, refs[i].1, visited, collected)
  }

  lemma RefsCoveredGrow(refs: seq<(Option<Ref>, bool)>, v: set<string>, c: set<string>, v2: set<string>, c2: set<string>)
    requires RefsCovered(refs, v, c)
    requires v <= v2 && c <= c2
    ensures RefsCovered(refs, v2, c2)
  {
    forall i | 0 <= i < |refs| ensures RefCovered(refs[i].0, refs[i].1, v2, c2) {
      assert RefCovered(refs[i].0, refs[i].1, v, c);
    }
  }

  /** The first `n` references of `refs` are covered. */
  predicate CoveredUpTo(refs: seq<(Option<Ref>, bool)>, n: nat, visited: set<string>, collected: set<string>) {
    n <= |refs| && forall i :: 0 <= i < n ==> RefCovered(refs[i].0, refs[i].1, visited, collected)
  }

  /** Covering reference `n` in a grown walk covers one more. */
  lemma CoveredStep(refs: seq<(Option<Ref>, bool)>, n: nat, v: set<string>, c: set<string>,
                    v2: set<string>, c2: set<string>)
    requires CoveredUpTo(refs, n, v, c) && v <= v2 && c <= c2
    requires n < |refs| && RefCovered(refs[n].0, refs[n].1, v2, c2)
    ensures CoveredUpTo(refs, n + 1, v2, c2)
  {
    forall i | 0 <= i < n + 1 ensures RefCovered(refs[i].0, refs[i].1, v2, c2) {
      if i < n {
        assert RefCovered(refs[i].0, refs[i].1, v, c);
      }
    }
  }

  /** Entry `e` is an include's `file` whose path normalizes to `f`. */
  predicate IncludesAt(e: (Option<Ref>, bool), f: string) {
    e.1 && e.0.Some? && e.0.value.PathRef? && Normalize(e.0.value.path) == f
  }

  /** Entry `e` names asset `x`: its resolved path or its text. */
  predicate NamesAt(e: (Option<Ref>, bool), x: string) {
    match e.0
    case None => false
    case Some(PathRef(p)) => p == x
    case Some(TextRef(t)) => t == x
  }

  /** A walked file: the merged hints it was walked with and the references
      its elements make under them. */
  datatype Walked = Walked(hints: Hints, refs: seq<(Option<Ref>, bool)>)

  /** Link `l` points at a reference of a walked file: file `l.0`, index `l.1`. */
  predicate Link(l: (string, nat), walked: map<string, Walked>) {
    l.0 in walked && l.1 < |walked[l.0].refs|
  }

  /** Link `l` is an include of `f` by a walked file. */
  predicate IncludeLink(l: (string, nat), f: string, walked: map<string, Walked>) {
    Link(l, walked) && IncludesAt(walked[l.0].refs[l.1], f)
  }

  /** Link `l` is a reference that names asset `x`. */
  predicate NameLink(l: (string, nat), x: string, walked: map<string, Walked>) {
    Link(l, walked) && NamesAt(walked[l.0].refs[l.1], x)
  }

  /** Visited file `f` was first reached through `via[f]`, an include of a
      walked file. */
  predicate ViaOk(f: string, via: map<string, (string, nat)>, walked: map<string, Walked>) {
    f in via && IncludeLink(via[f], f, walked)
  }

  /** Asset `x` is named by the reference `namedBy[x]` points at. */
  predicate NamedOk(x: string, namedBy: map<string, (string, nat)>, walked: map<string, Walked>) {
    x in namedBy && NameLink(namedBy[x], x, walked)
  }

  /** The hints parsed file `f` is walked with: its own compiler directories
      merged over `parent`. */
  function OwnHints(parent: Hints, f: string, docs: map<string, Fetched>): Hints
    requires f in docs && docs[f].Parsed?
  {
    MergeHints(parent, ParseCompilerDirectories(docs[f].elements, DirName(f)))
  }

  /** Walked file `f` took its hints from the walk: the root merges its own
      over none, any other file merges its own over those of the walked file
      whose include first reached it (`via[f].0`). */
  predicate HintsFrom(f: string, root: string, docs: map<string, Fetched>, walked: map<string, Walked>,
                      via: map<string, (string, nat)>) {
    && f in walked && f in docs && docs[f].Parsed?
    && if f == root then walked[f].hints == OwnHints([], f, docs)
       else f in via && via[f].0 in walked && walked[f].hints == OwnHints(walked[via[f].0].hints, f, docs)
  }

  /**
   * What one walk from `rootPath` produced.  Upper bounds: every visited file
   * other than the root was first reached through `via`, an include of a
   * walked file, and every asset that is not a visited file is named by the
   * reference `namedBy` points at.  Lower bounds: every visited file is an
   * asset, and every reference of every walked file is collected (an
   * include's file also visited).  The walked files are exactly the visited
   * ones that parsed, each with the references its elements make under the
   * hints the walk gave it.
   */
  ghost predicate WalkOutcome(rootPath: string, docs: map<string, Fetched>, present: set<string>,
                              assets: set<string>, visited: set<string>, walked: map<string, Walked>,
                              via: map<string, (string, nat)>, namedBy: map<string, (string, nat)>)
  {
    var root := Normalize(rootPath);
    && root in visited
    && (forall f {:trigger ViaOk(f, via, walked)} :: f in visited && f != root ==> ViaOk(f, via, walked))
    && (forall x {:trigger NamedOk(x, namedBy, walked)} :: x in assets && x !in visited ==> NamedOk(x, namedBy, walked))
    && visited <= assets
    && (forall f :: f in walked ==> RefsCovered(walked[f].refs, visited, assets))
    && (forall f :: f in walked <==> f in visited && f in docs && docs[f].Parsed?)
    && (forall f {:trigger HintsFrom(f, root, docs, walked, via)} :: f in walked ==> HintsFrom(f, root, docs, walked, via))
    && (forall f :: f in walked ==>
          walked[f].refs == FileRefs(docs[f].elements, DirName(f), walked[f].hints, present, DirName(rootPath)))
  }

  /** The ghost record of a walk: `via` the include that first reached each
      visited file other than the root, and `namedBy` a reference naming
      each collected asset. */
  datatype Trail = Trail(via: map<string, (string, nat)>, namedBy: map<string, (string, nat)>)

  /** The trail after visiting `path`, reached through `from` if any. */
  function Visited(tr: Trail, path: string, from: Option<(string, nat)>): (r: Trail)
    ensures r.namedBy == tr.namedBy
    ensures r.via == if from.Some? then tr.via[path := from.value] else tr.via
  {
    Trail(if from.Some? then tr.via[path := from.value] else tr.via, tr.namedBy)
  }

  /**
   * One run of `_collectAssets`: `visited` and `collected` are the two sets
   * the nested `walk` shares.  The ghost state explains them: `walked`
   * records, for each file that was fetched and parsed, the merged hints it
   * was walked with and the references it made under them, and `trail` why
   * each visited file was reached and each asset collected.
   */
  class AssetWalk {
    const docs: map<string, Fetched>
    const present: set<string>
    const rootDir: string
    const rootFile: string
    var visited: set<string>
    var collected: set<string>
    ghost var walked: map<string, Walked>
    ghost var trail: Trail

    ghost predicate Valid()
      reads this
    {
      Consistent(visited, collected, walked) && Bounded(visited, collected, walked, trail)
    }

    /** The walk's invariant over explicit state: every visited file is
        collected, and each walked file has the references it makes under
        the hints it was walked with. */
    ghost predicate Consistent(v: set<string>, c: set<string>, w: map<string, Walked>)
    {
      && v <= c
      && w.Keys <= v
      && (forall f {:trigger WalkedAs(f, w)} :: f in w ==> WalkedAs(f, w))
    }

    /** File `f` was fetched, parsed and walked with hints `w[f].hints`, and
        `w[f].refs` lists the references its elements make under them. */
    ghost predicate WalkedAs(f: string, w: map<string, Walked>) {
      f in w && f in docs && docs[f].Parsed? &&
      w[f].refs == FileRefs(docs[f].elements, DirName(f), w[f].hints, present, rootDir)
    }

    /** Nothing is visited or collected without cause: each visited file is
        the root or was reached through an include of a walked file, each
        collected asset is a visited file or named by a walked file, and
        each walked file's hints come from the walk.  Once anything is
        visited, the root is. */
    ghost predicate Bounded(v: set<string>, c: set<string>, w: map<string, Walked>, tr: Trail)
    {
      var via, nb := tr.via, tr.namedBy;
      && (v != {} ==> rootFile in v)
      && (forall f {:trigger ViaOk(f, via, w)} :: f in v && f != rootFile ==> ViaOk(f, via, w))
      && (forall x {:trigger NamedOk(x, nb, w)} :: x in c && x !in v ==> NamedOk(x, nb, w))
      && (forall f {:trigger HintsFrom(f, rootFile, docs, w, via)} :: f in w ==> HintsFrom(f, rootFile, docs, w, via))
    }

    /** Collecting `x`, named by reference `i` of walked file `g`, keeps the
        walk bounded once `namedBy` remembers the reference. */
    lemma BoundedCollect(v: set<string>, c: set<string>, w: map<string, Walked>, tr: Trail,
                         x: string, g: string, i: nat)
      requires Bounded(v, c, w, tr) && g in w && i < |w[g].refs| && NamesAt(w[g].refs[i], x)
      ensures Bounded(v, c + {x}, w, tr.(namedBy := tr.namedBy[x := (g, i)]))
    {
      var nb2 := tr.namedBy[x := (g, i)];
      forall y | y in c + {x} && y !in v ensures NamedOk(y, nb2, w) {
        if y != x {
          assert NamedOk(y, tr.namedBy, w);
        }
      }
    }

    /** How file `f` is reached with `hints`: from no file (the root, with no
        hints) or through the include `from` points at, of a walked file that
        was walked with `hints`. */
    ghost predicate ReachedFrom(from: Option<(string, nat)>, f: string, hints: Hints, w: map<string, Walked>)
    {
      match from
      case None => f == rootFile && hints == []
      case Some(l) => Link(l, w) && w[l.0].hints == hints && IncludesAt(w[l.0].refs[l.1], f)
    }

    lemma ConsistentAdd(v: set<string>, c: set<string>, w: map<string, Walked>, path: string, hints: Hints)
      requires Consistent(v, c, w)
      requires path in v && path in docs && docs[path].Parsed?
      ensures Consistent(v, c, w[path := Walked(hints, FileRefs(docs[path].elements, DirName(path), hints, present, rootDir))])
    {
      var w2 := w[path := Walked(hints, FileRefs(docs[path].elements, DirName(path), hints, present, rootDir))];
      forall f | f in w2 ensures WalkedAs(f, w2) {
        if f != path {
          assert WalkedAs(f, w);
        }
      }
    }

    /** Visiting a new file reached as `ReachedFrom` says keeps the walk
        bounded once `via` remembers its include. */
    lemma BoundedVisit(v: set<string>, c: set<string>, w: map<string, Walked>, tr: Trail,
                       path: string, from: Option<(string, nat)>, hints: Hints)
      requires Bounded(v, c, w, tr) && w.Keys <= v && path !in v
      requires ReachedFrom(from, path, hints, w)
      ensures Bounded(v + {path}, c + {path}, w, Visited(tr, path, from))
      ensures from.Some? ==> path != rootFile
    {
      var via := tr.via;
      var via2 := if from.Some? then via[path := from.value] else via;
      forall f | f in v + {path} && f != rootFile ensures ViaOk(f, via2, w) {
        if f != path {
          assert ViaOk(f, via, w);
        }
      }
      forall f | f in w ensures HintsFrom(f, rootFile, docs, w, via2) {
        assert HintsFrom(f, rootFile, docs, w, via);
      }
    }

    /** Walking a visited file, with its own hints merged over those of the
        file that reached it, keeps the walk bounded. */
    lemma BoundedWalked(v: set<string>, c: set<string>, w: map<string, Walked>, tr: Trail,
                        path: string, parentHints: Hints, refs: seq<(Option<Ref>, bool)>)
      requires Bounded(v, c, w, tr)
      requires path in v && path !in w && path in docs && docs[path].Parsed?
      requires HintsSource(path, parentHints, w, tr.via)
      ensures Bounded(v, c, w[path := Walked(OwnHints(parentHints, path, docs), refs)], tr)
    {
      var via, nb := tr.via, tr.namedBy;
      var w2 := w[path := Walked(OwnHints(parentHints, path, docs), refs)];
      forall f | f in v && f != rootFile ensures ViaOk(f, via, w2) {
        assert ViaOk(f, via, w);
      }
      forall x | x in c && x !in v ensures NamedOk(x, nb, w2) {
        assert NamedOk(x, nb, w);
      }
      forall f | f in w2 ensures HintsFrom(f, rootFile, docs, w2, via) {
        if f != path {
          assert HintsFrom(f, rootFile, docs, w, via);
        }
      }
    }

    /** The hints `path` is walked with merge its own over `parentHints`,
        which are none for the root and otherwise those of the walked file
        whose include reached it. */
    ghost predicate HintsSource(path: string, parentHints: Hints, w: map<string, Walked>, via: map<string, (string, nat)>) {
      if path == rootFile then parentHints == []
      else path in via && via[path].0 in w && w[via[path].0].hints == parentHints
    }

    /** File `f` is done: if it was fetched and parsed, every reference of its
        elements is covered. */
    ghost predicate Done(f: string, w: map<string, Walked>, v: set<string>, c: set<string>) {
      f in docs && docs[f].Parsed? ==> f in w && RefsCovered(w[f].refs, v, c)
    }

    lemma DoneGrows(f: string, w: map<string, Walked>, v: set<string>, c: set<string>,
                    w2: map<string, Walked>, v2: set<string>, c2: set<string>)
      requires Done(f, w, v, c)
      requires forall g :: g in w ==> g in w2 && w2[g] == w[g]
      requires v <= v2 && c <= c2
      ensures Done(f, w2, v2, c2)
    {
      if f in docs && docs[f].Parsed? {
        RefsCoveredGrow(w[f].refs, v, c, v2, c2);
      }
    }

    /** From the walk state (v0, c0, w0) to (v, c, w) the walk only grew:
        no walked file's record changed and every file first visited in
        between is done. */
    ghost predicate Grown(v0: set<string>, c0: set<string>, w0: map<string, Walked>,
                          v: set<string>, c: set<string>, w: map<string, Walked>) {
      && v0 <= v && c0 <= c
      && (forall f :: f in w0 ==> f in w && w[f] == w0[f])
      && (forall f :: f in v && f !in v0 ==> Done(f, w, v, c))
    }

    /** Two steps that each only grew the walk make one that did. */
    lemma GrownTrans(v0: set<string>, c0: set<string>, w0: map<string, Walked>,
                     v1: set<string>, c1: set<string>, w1: map<string, Walked>,
                     v2: set<string>, c2: set<string>, w2: map<string, Walked>)
      requires Grown(v0, c0, w0, v1, c1, w1)
      requires Grown(v1, c1, w1, v2, c2, w2)
      ensures Grown(v0, c0, w0, v2, c2, w2)
    {
      forall f | f in v2 && f !in v0 ensures Done(f, w2, v2, c2) {
        if f in v1 {
          DoneGrows(f, w1, v1, c1, w2, v2, c2);
        }
      }
    }

    lemma GrownFrom(v0: set<string>, c0: set<string>, w0: map<string, Walked>, w1: map<string, Walked>,
                    v: set<string>, c: set<string>, w: map<string, Walked>)
      requires Grown(v0, c0, w0, v, c, w)
      requires forall f :: f in w1 ==> f in w0 && w0[f] == w1[f]
      ensures Grown(v0, c0, w1, v, c, w)
    {
    }

    /** A finished walk from the root, in which every visited file is done,
        produced exactly what `WalkOutcome` describes. */
    lemma Finished(v: set<string>, c: set<string>, w: map<string, Walked>, tr: Trail, rootPath: string)
      requires Consistent(v, c, w) && Bounded(v, c, w, tr)
      requires forall f :: f in v ==> Done(f, w, v, c)
      requires rootFile == Normalize(rootPath) && rootDir == DirName(rootPath) && rootFile in v
      ensures WalkOutcome(rootPath, docs, present, c, v, w, tr.via, tr.namedBy)
    {
      forall f | f in w ensures RefsCovered(w[f].refs, v, c) {
        assert WalkedAs(f, w) && Done(f, w, v, c);
      }
      forall f | f in v && f in docs && docs[f].Parsed? ensures f in w {
        assert Done(f, w, v, c);
      }
      forall f | f in w ensures HintsFrom(f, rootFile, docs, w, tr.via)
        && w[f].refs == FileRefs(docs[f].elements, DirName(f), w[f].hints, present, DirName(rootPath))
      {
        assert WalkedAs(f, w);
      }
    }

    constructor (docs: map<string, Fetched>, present: set<string>, rootDir: string, rootFile: string)
      ensures this.docs == docs && this.present == present && this.rootDir == rootDir && this.rootFile == rootFile
      ensures visited == {} && collected == {} && walked == map[] && trail == Trail(map[], map[])
      ensures Valid()
    {
      this.docs := docs;
      this.present := present;
      this.rootDir := rootDir;
      this.rootFile := rootFile;
      visited := {};
      collected := {};
      walked := map[];
      trail := Trail(map[], map[]);
    }

    lemma MeasureShrinks(v: set<string>, v2: set<string>)
      requires v <= v2
      ensures |docs.Keys - v2| <= |docs.Keys - v|
    {
      SubsetCard(docs.Keys - v2, docs.Keys - v);
    }

    /** `walk(filePath, parentHints)`: each normalized path is walked once, so
        cyclic includes end; the file itself is collected even when it cannot
        be fetched; every file first reached here is done on return. `from`
        (ghost) is the walked file whose include led here, if any. */
    method Walk(filePath: string, parentHints: Hints, ghost from: Option<(string, nat)>)
      requires Valid() && ReachedFrom(from, Normalize(filePath), parentHints, walked)
      modifies this
      ensures Valid() && Grown(old(visited), old(collected), old(walked), visited, collected, walked)
      ensures Normalize(filePath) in visited && Normalize(filePath) in collected
      decreases |docs.Keys - visited|, 5
    {
      var path := Normalize(filePath);
      if path in visited {
        return;
      }
      Visit(path, from, parentHints);
      if path !in docs || docs[path].Unparseable? {
        return;
      }
      CardShrinks(docs.Keys, old(visited), visited, path);
      WalkParsed(path, parentHints, |docs.Keys - old(visited)|);
    }

    /** `visited.add(normalizedPath)` and `collected.add(normalizedPath)`;
        the ghost state remembers how the file was reached. */
    method Visit(path: string, ghost from: Option<(string, nat)>, ghost parentHints: Hints)
      requires Valid() && path !in visited && ReachedFrom(from, path, parentHints, walked)
      modifies this
      ensures Valid()
      ensures visited == old(visited) + {path} && collected == old(collected) + {path}
      ensures walked == old(walked)
      ensures HintsSource(path, parentHints, walked, trail.via)
    {
      BoundedVisit(visited, collected, walked, trail, path, from, parentHints);
      visited, collected := visited + {path}, collected + {path};
      trail := Visited(trail, path, from);
    }

    /** `collected.add(...)` for an asset named by reference `i` of walked
        file `g`; the ghost state remembers the reference. */
    method Collect(x: string, ghost g: string, ghost i: nat)
      requires Valid() && g in walked && i < |walked[g].refs| && NamesAt(walked[g].refs[i], x)
      modifies this
      ensures Valid()
      ensures collected == old(collected) + {x} && visited == old(visited) && walked == old(walked)
    {
      BoundedCollect(visited, collected, walked, trail, x, g, i);
      collected := collected + {x};
      trail := trail.(namedBy := trail.namedBy[x := (g, i)]);
    }

    /** The rest of `walk` for a file that was fetched and parsed: its own
        compiler hints are merged over the parent's, and its elements are
        followed with them. */
    method WalkParsed(path: string, parentHints: Hints, ghost bound: nat)
      requires Valid()
      requires path in visited && path !in walked && path in docs && docs[path].Parsed?
      requires HintsSource(path, parentHints, walked, trail.via)
      requires |docs.Keys - visited| < bound
      modifies this
      ensures Valid() && Grown(old(visited), old(collected), old(walked), visited, collected, walked)
      ensures Done(path, walked, visited, collected)
      ensures |docs.Keys - visited| < bound
      decreases bound, 4
    {
      var els := docs[path].elements;
      var baseDir := DirName(path);
      ParseCompilerDirectoriesDistinct(els, baseDir);
      var hints := MergeHints(parentHints, ParseCompilerDirectories(els, baseDir));
      ghost var refs := FileRefs(els, baseDir, hints, present, rootDir);
      ConsistentAdd(visited, collected, walked, path, hints);
      BoundedWalked(visited, collected, walked, trail, path, parentHints, refs);
      walked := walked[path := Walked(hints, refs)];
      ghost var v0, c0, w0 := visited, collected, walked;
      FollowElements(els, baseDir, hints, refs, bound, v0, c0, w0, path);
      assert walked[path] == w0[path];
      GrownFrom(v0, c0, w0, old(walked), visited, collected, walked);
    }

    /** The element loop of `walk`: every reference of every element is
        followed, with the file's merged hints; `g` (ghost) is the file. */
    method FollowElements(els: seq<Element>, baseDir: string, hints: Hints,
                          ghost refs: seq<(Option<Ref>, bool)>, ghost bound: nat,
                          ghost v0: set<string>, ghost c0: set<string>, ghost w0: map<string, Walked>,
                          ghost g: string)
      requires refs == FileRefs(els, baseDir, hints, present, rootDir)
      requires Valid() && Grown(v0, c0, w0, visited, collected, walked)
      requires g in w0 && w0[g] == Walked(hints, refs)
      requires |docs.Keys - visited| < bound
      modifies this
      ensures Valid() && Grown(v0, c0, w0, visited, collected, walked)
      ensures RefsCovered(refs, visited, collected)
      ensures |docs.Keys - visited| < bound
      decreases bound, 3
    {
      var i := 0;
      while i < |els|
        invariant 0 <= i <= |els|
        invariant Valid() && Grown(v0, c0, w0, visited, collected, walked)
        invariant CoveredUpTo(refs, |FileRefs(els[..i], baseDir, hints, present, rootDir)|, visited, collected)
        invariant |docs.Keys - visited| < bound
      {
        ElementRefsAt(els, i, baseDir, hints, present, rootDir);
        FollowElement(els[i], baseDir, hints, bound, v0, c0, w0, |FileRefs(els[..i], baseDir, hints, present, rootDir)|, g);
        TakeOneMore([], els, i);
        FileRefsAppend(els[..i], els[i], baseDir, hints, present, rootDir);
        i := i + 1;
      }
      assert els[..i] == els;
    }

    /** The attribute loop of `walk` for one element: every reference
        attribute is collected, and an include's file is walked; `g` (ghost)
        is the file the element belongs to and `start` the index of the
        element's first reference among the file's. */
    method FollowElement(el: Element, baseDir: string, hints: Hints, ghost bound: nat,
                         ghost v0: set<string>, ghost c0: set<string>, ghost w0: map<string, Walked>,
                         ghost start: nat, ghost g: string)
      requires Valid() && Grown(v0, c0, w0, visited, collected, walked)
      requires g in w0 && w0[g].hints == hints
      requires start + |ReferenceAttrs| <= |w0[g].refs|
      requires w0[g].refs[start..start + |ReferenceAttrs|] == AttrRefs(el, ReferenceAttrs, baseDir, hints, present, rootDir)
      requires CoveredUpTo(w0[g].refs, start, visited, collected)
      requires |docs.Keys - visited| < bound
      modifies this
      ensures Valid() && Grown(v0, c0, w0, visited, collected, walked)
      ensures CoveredUpTo(w0[g].refs, start + |ReferenceAttrs|, visited, collected)
      ensures |docs.Keys - visited| < bound
      decreases bound, 2
    {
      var tag := TagOf(el);
      ghost var refs := AttrRefs(el, ReferenceAttrs, baseDir, hints, present, rootDir);
      var k := 0;
      while k < |ReferenceAttrs|
        invariant 0 <= k <= |ReferenceAttrs|
        invariant Valid() && Grown(v0, c0, w0, visited, collected, walked)
        invariant CoveredUpTo(w0[g].refs, start + k, visited, collected)
        invariant |docs.Keys - visited| < bound
      {
        SliceIndex(w0[g].refs, start, refs, k);
        FollowAttr(el, tag, k, baseDir, hints, bound, v0, c0, w0, g, start + k);
        k := k + 1;
      }
    }

    /** One turn of the attribute loop: reference attribute `k` of `el`,
        reference `i` of walked file `g`, is resolved and followed. */
    method FollowAttr(el: Element, tag: string, k: nat, baseDir: string, hints: Hints, ghost bound: nat,
                      ghost v0: set<string>, ghost c0: set<string>, ghost w0: map<string, Walked>,
                      ghost g: string, ghost i: nat)
      requires tag == TagOf(el) && k < |ReferenceAttrs|
      requires Valid() && Grown(v0, c0, w0, visited, collected, walked)
      requires g in w0 && w0[g].hints == hints
      requires i < |w0[g].refs| && w0[g].refs[i] == AttrRefs(el, ReferenceAttrs, baseDir, hints, present, rootDir)[k]
      requires CoveredUpTo(w0[g].refs, i, visited, collected)
      requires |docs.Keys - visited| < bound
      modifies this
      ensures Valid() && Grown(v0, c0, w0, visited, collected, walked)
      ensures CoveredUpTo(w0[g].refs, i + 1, visited, collected)
      ensures |docs.Keys - visited| < bound
      decreases bound, 1
    {
      var reference, isInclude := ReferenceAt(el, tag, k, baseDir, hints, present, rootDir);
      FollowRef(reference, isInclude, hints, bound, v0, c0, w0, g, i);
    }

    /** One resolved reference of walked file `g`: a path or a text entry is
        collected, and an included path is walked with the including file's
        hints. */
    method FollowRef(reference: Option<Ref>, isInclude: bool, hints: Hints, ghost bound: nat,
                     ghost v0: set<string>, ghost c0: set<string>, ghost w0: map<string, Walked>,
                     ghost g: string, ghost i: nat)
      requires Valid() && Grown(v0, c0, w0, visited, collected, walked)
      requires g in w0 && w0[g].hints == hints
      requires i < |w0[g].refs| && w0[g].refs[i] == (reference, isInclude)
      requires CoveredUpTo(w0[g].refs, i, visited, collected)
      requires |docs.Keys - visited| < bound
      modifies this
      ensures Valid() && Grown(v0, c0, w0, visited, collected, walked)
      ensures CoveredUpTo(w0[g].refs, i + 1, visited, collected)
      ensures |docs.Keys - visited| < bound
      decreases bound, 0
    {
      ghost var v1, c1, w1 := visited, collected, walked;
      assert walked[g] == w0[g];
      match reference {
        case None =>
        case Some(PathRef(p)) =>
          Collect(p, g, i);
          if isInclude {
            assert IncludesAt(walked[g].refs[i], Normalize(p));
            ghost var vBefore := visited;
            Walk(p, hints, Some((g, i)));
            MeasureShrinks(vBefore, visited);
          }
        case Some(TextRef(t)) =>
          Collect(t, g, i);
      }
      GrownTrans(v0, c0, w0, v1, c1, w1, visited, collected, walked);
      CoveredStep(w0[g].refs, i, v1, c1, visited, collected);
    }
  }

  // ---------------------------------------------------------------------------
  // _collectAssets and analyzeScene

  /**
   * `_collectAssets`: walk from the root file and return everything collected,
   * sorted.  The ghost results expose the walk: the files visited, the hints
   * each parsed file was walked with and the references it made under them,
   * the include that first reached each visited file and a reference naming
   * each collected asset.
   */
  method CollectAssets(rootPath: string, docs: map<string, Fetched>, present: set<string>)
    returns (r: seq<string>, ghost visited: set<string>, ghost walked: map<string, Walked>,
             ghost via: map<string, (string, nat)>, ghost namedBy: map<string, (string, nat)>)
    ensures Sorting.StrictlySorted(r)
    ensures Normalize(rootPath) in visited
    ensures WalkOutcome(rootPath, docs, present, (set x | x in r), visited, walked, via, namedBy)
  {
    var walk := new AssetWalk(docs, present, DirName(rootPath), Normalize(rootPath));
    walk.Walk(rootPath, [], None);
    r := Sorting.SortedList(walk.collected);
    visited, walked := walk.visited, walk.walked;
    via, namedBy := walk.trail.via, walk.trail.namedBy;
    assert (set x | x in r) == walk.collected;
    walk.Finished(visited, walk.collected, walked, walk.trail, rootPath);
  }

  /** Some walk from `rootPath` over these files has exactly `assets` as its
      outcome. */
  ghost predicate Collects(rootPath: string, docs: map<string, Fetched>, present: set<string>, assets: set<string>) {
    exists visited, walked, via, namedBy :: WalkOutcome(rootPath, docs, present, assets, visited, walked, via, namedBy)
  }

  /** The base URL `analyzeScene` uses: the given one, else its default. */
  function BaseUrl(baseUrlArg: Option<string>): string {
    if baseUrlArg.Some? then baseUrlArg.value else "./"
  }

  /** The analyzer's result cache, keyed by `baseUrl/normalizedPath`. */
  class AssetAnalyzer {
    var cache: map<string, seq<string>>

    constructor ()
      ensures cache == map[]
    {
      cache := map[];
    }

    static function CacheKey(xmlPath: string, baseUrl: string): string {
      baseUrl + "/" + Normalize(xmlPath)
    }

    /**
     * `analyzeScene`: an omitted base URL (`baseUrlArg` is None) is './';
     * blank arguments are rejected; a repeated key returns the
     * cached list; a collection that throws yields `[]` and is not cached;
     * otherwise the collected list is cached and returned.
     */
    method AnalyzeScene(xmlPath: string, baseUrlArg: Option<string>, docs: map<string, Fetched>,
                        present: set<string>, collectionThrows: bool)
      returns (r: Result<seq<string>>)
      modifies this
      ensures xmlPath == [] ==> r.Err? && cache == old(cache)
      ensures var baseUrl := BaseUrl(baseUrlArg);
        && (xmlPath != [] && baseUrl == [] ==> r.Err? && cache == old(cache))
        && (xmlPath != [] && baseUrl != [] ==> r.Ok?)
        && (r.Ok? && CacheKey(xmlPath, baseUrl) in old(cache) ==>
              r.value == old(cache)[CacheKey(xmlPath, baseUrl)] && cache == old(cache))
        && (r.Ok? && CacheKey(xmlPath, baseUrl) !in old(cache) && collectionThrows ==>
              r.value == [] && cache == old(cache))
        && (r.Ok? && CacheKey(xmlPath, baseUrl) !in old(cache) && !collectionThrows ==>
              && Sorting.StrictlySorted(r.value)
              && Normalize(xmlPath) in r.value
              && Collects(Normalize(xmlPath), docs, present, (set x | x in r.value))
              && cache == old(cache)[CacheKey(xmlPath, baseUrl) := r.value])
    {
      var baseUrl := BaseUrl(baseUrlArg);
      if xmlPath == [] {
        return Err("Invalid xmlPath: " + xmlPath);
      }
      if baseUrl == [] {
        return Err("Invalid baseUrl: " + baseUrl);
      }
      var normalized := Normalize(xmlPath);
      var key := baseUrl + "/" + normalized;
      if key in cache {
        return Ok(cache[key]);
      }
      if collectionThrows {
        return Ok([]);
      }
      NormalizeIdempotent(xmlPath);
      var assets: seq<string>;
      ghost var visited, walked, via, namedBy;
      assets, visited, walked, via, namedBy := CollectAssets(normalized, docs, present);
      cache := cache[key := assets];
      return Ok(assets);
    }

    method ClearCache()
      modifies this
      ensures cache == map[]
    {
      cache := map[];
    }
  }
}
