/**
 * Path algebra of the browser asset collector (`MuJoCoAssetCollector`):
 * `_normalizePath`, `_joinPath`, `_getDirectoryPath` and `_stripNamespace`.
 * Paths are '/'-separated strings; a leading '/' marks an absolute path.
 */
module AssetPaths {
  import opened Text

  /** A segment as `_normalizePath` leaves it: non-empty, not `.` or `..`, no '/'. */
  predicate CleanSegment(seg: string) {
    seg != [] && seg != "." && seg != ".." && '/' !in seg
  }

  predicate AllClean(segs: seq<string>) {
    forall i :: 0 <= i < |segs| ==> CleanSegment(segs[i])
  }

  /** One iteration of the segment loop: skip empty and `.`, pop on `..` (never
      above the start), push anything else. */
  function Step(stack: seq<string>, part: string): seq<string> {
    if part == [] || part == "." then stack
    else if part == ".." then (if |stack| > 0 then stack[..|stack| - 1] else stack)
    else stack + [part]
  }

  function ResolveFrom(stack: seq<string>, parts: seq<string>): seq<string>
    decreases |parts|
  {
    if parts == [] then stack else ResolveFrom(Step(stack, parts[0]), parts[1..])
  }

  /** The resolved segments of a path. */
  function Segments(p: string): seq<string> {
    ResolveFrom([], Split(p, '/'))
  }

  /** `replace(/\/+/g, '/')`: every run of slashes becomes one slash. */
  function CollapseSlashes(s: string): (r: string)
    ensures |s| > 0 ==> |r| > 0 && r[0] == s[0]
    ensures forall i :: 0 <= i < |r| - 1 ==> !(r[i] == '/' && r[i + 1] == '/')
  {
    if |s| < 2 then s
    else if s[0] == '/' && s[1] == '/' then CollapseSlashes(s[1..])
    else [s[0]] + CollapseSlashes(s[1..])
  }

  /** `replace(/\/$/, '')`. */
  function DropTrailingSlash(s: string): string {
    if s != [] && s[|s| - 1] == '/' then s[..|s| - 1] else s
  }

  /** `replace(/^\//, '')`. */
  function DropLeadingSlash(s: string): string {
    if s != [] && s[0] == '/' then s[1..] else s
  }

  /** `_normalizePath`, step by step as the source performs it. */
  function Normalize(path: string): string {
    if path == [] then []
    else
      var parts := Split(DropTrailingSlash(CollapseSlashes(path)), '/');
      var joined := Join(ResolveFrom([], parts), '/');
      if path[0] == '/' && joined != [] then "/" + joined else joined
  }

  /** `_normalizePath` as the source's loop computes it. */
  method NormalizePath(path: string) returns (r: string)
    ensures r == Normalize(path)
  {
    if path == [] {
      return [];
    }
    var isAbsolute := path[0] == '/';
    var parts := Split(DropTrailingSlash(CollapseSlashes(path)), '/');
    var resolved: seq<string> := [];
    var i := 0;
    while i < |parts|
      invariant 0 <= i <= |parts|
      invariant ResolveFrom(resolved, parts[i..]) == ResolveFrom([], parts)
    {
      var part := parts[i];
      assert parts[i..] == [part] + parts[i + 1..];
      if part == [] || part == "." {
      } else if part == ".." {
        if |resolved| > 0 {
          resolved := resolved[..|resolved| - 1];
        }
      } else {
        resolved := resolved + [part];
      }
      i := i + 1;
    }
    r := Join(resolved, '/');
    if isAbsolute && r != [] {
      r := "/" + r;
    }
  }

  /** `_joinPath(...parts)`: drop `.` parts, join with '/', collapse slashes,
      keep a leading '/' only when the first part is absolute, normalize. */
  function JoinPath(parts: seq<string>): string {
    var filtered := RemoveDots(parts);
    if filtered == [] then []
    else
      var joined := CollapseSlashes(Join(filtered, '/'));
      if |parts| > 0 && StartsWith(parts[0], "/") then Normalize(joined)
      else Normalize(DropLeadingSlash(joined))
  }

  function RemoveDots(parts: seq<string>): seq<string> {
    if parts == [] then []
    else if parts[0] == "." then RemoveDots(parts[1..])
    else [parts[0]] + RemoveDots(parts[1..])
  }

  /** `_getDirectoryPath`: `split('/').slice(0, -1).join('/')`. */
  function DirName(p: string): string {
    var parts := Split(p, '/');
    Join(parts[..|parts| - 1], '/')
  }

  /** `_stripNamespace`: the piece after the first ':' (up to any next ':'). */
  function StripNamespace(tag: string): string {
    if ':' in tag then Split(tag, ':')[1] else tag
  }

  // ---------------------------------------------------------------------------
  // Segment resolution

  /** Empty parts never matter to the resolution. */
  function NonEmpty(parts: seq<string>): seq<string> {
    if parts == [] then []
    else if parts[0] == [] then NonEmpty(parts[1..])
    else [parts[0]] + NonEmpty(parts[1..])
  }

  lemma {:induction false} ResolveNonEmpty(stack: seq<string>, parts: seq<string>)
    ensures ResolveFrom(stack, parts) == ResolveFrom(stack, NonEmpty(parts))
    decreases |parts|
  {
    if parts != [] {
      ResolveNonEmpty(Step(stack, parts[0]), parts[1..]);
      if parts[0] != [] {
        var ne := NonEmpty(parts);
        assert ne[0] == parts[0] && ne[1..] == NonEmpty(parts[1..]);
      }
    }
  }

  lemma {:induction false} NonEmptyAppend(a: seq<string>, b: seq<string>)
    ensures NonEmpty(a + b) == NonEmpty(a) + NonEmpty(b)
  {
    if a == [] {
      assert a + b == b;
    } else {
      assert (a + b)[0] == a[0] && (a + b)[1..] == a[1..] + b;
      NonEmptyAppend(a[1..], b);
    }
  }

  /** Resolution keeps the stack's clean segments and adds only clean ones. */
  lemma {:induction false} ResolveClean(stack: seq<string>, parts: seq<string>)
    requires AllClean(stack)
    requires forall i :: 0 <= i < |parts| ==> '/' !in parts[i]
    ensures AllClean(ResolveFrom(stack, parts))
    decreases |parts|
  {
    if parts != [] {
      var next := Step(stack, parts[0]);
      assert AllClean(next) by {
        if parts[0] == ".." && |stack| > 0 {
          assert forall i :: 0 <= i < |next| ==> next[i] == stack[i];
        }
      }
      ResolveClean(next, parts[1..]);
    }
  }

  /** Clean segments pass through resolution unchanged. */
  lemma {:induction false} ResolveOfClean(stack: seq<string>, parts: seq<string>)
    requires AllClean(parts)
    ensures ResolveFrom(stack, parts) == stack + parts
    decreases |parts|
  {
    if parts == [] {
      assert stack + parts == stack;
    } else {
      ResolveOfClean(stack + [parts[0]], parts[1..]);
      assert stack + [parts[0]] + parts[1..] == stack + parts;
    }
  }

  lemma SegmentsClean(p: string)
    ensures AllClean(Segments(p))
  {
    ResolveClean([], Split(p, '/'));
  }

  /** Clean segments join into a non-empty string exactly when there is one. */
  lemma {:induction false} JoinCleanEmpty(segs: seq<string>)
    requires AllClean(segs)
    ensures (Join(segs, '/') == []) <==> (segs == [])
    ensures segs != [] ==> Join(segs, '/')[0] != '/' && Join(segs, '/')[|Join(segs, '/')| - 1] != '/'
  {
    if |segs| > 1 {
      JoinCleanEmpty(segs[1..]);
      var j := Join(segs, '/');
      assert j == segs[0] + ['/'] + Join(segs[1..], '/');
      assert j[0] == segs[0][0];
    } else if |segs| == 1 {
      assert segs[0][0] in segs[0];
      assert segs[0][|segs[0]| - 1] in segs[0];
    }
  }

  // ---------------------------------------------------------------------------
  // The regular-expression rewrites do not change the segments

  lemma {:induction false} CollapseSplit(t: string)
    ensures Split(CollapseSlashes(t), '/')[0] == Split(t, '/')[0]
    ensures NonEmpty(Split(CollapseSlashes(t), '/')[1..]) == NonEmpty(Split(t, '/')[1..])
    decreases |t|
  {
    if |t| >= 2 {
      var u := t[1..];
      CollapseSplit(u);
      var cu := CollapseSlashes(u);
      if t[0] == '/' && t[1] == '/' {
        assert CollapseSlashes(t) == cu;
        assert Split(t, '/') == [[]] + Split(u, '/');
        assert cu[0] == '/';
        assert cu == [cu[0]] + cu[1..];
        assert Split(cu, '/') == [[]] + Split(cu[1..], '/');
        assert u == [u[0]] + u[1..];
        assert Split(u, '/') == [[]] + Split(u[1..], '/');
        var x := Split(cu, '/');
        NonEmptyAppend([x[0]], x[1..]);
        assert x == [x[0]] + x[1..];
        var y := Split(u, '/');
        NonEmptyAppend([y[0]], y[1..]);
        assert y == [y[0]] + y[1..];
        assert Split(t, '/')[1..] == y;
      } else {
        assert CollapseSlashes(t) == [t[0]] + cu;
        assert ([t[0]] + cu)[1..] == cu;
        assert ([t[0]] + cu)[0] == t[0];
        var x := Split(cu, '/');
        var y := Split(u, '/');
        if t[0] == '/' {
          NonEmptyAppend([x[0]], x[1..]);
          assert x == [x[0]] + x[1..];
          NonEmptyAppend([y[0]], y[1..]);
          assert y == [y[0]] + y[1..];
        }
      }
    }
  }

  lemma CollapseSegments(p: string)
    ensures NonEmpty(Split(CollapseSlashes(p), '/')) == NonEmpty(Split(p, '/'))
  {
    CollapseSplit(p);
    var x := Split(CollapseSlashes(p), '/');
    var y := Split(p, '/');
    NonEmptyAppend([x[0]], x[1..]);
    NonEmptyAppend([y[0]], y[1..]);
    assert x == [x[0]] + x[1..];
    assert y == [y[0]] + y[1..];
  }

  lemma DropTrailingSegments(p: string)
    ensures NonEmpty(Split(DropTrailingSlash(p), '/')) == NonEmpty(Split(p, '/'))
  {
    if p != [] && p[|p| - 1] == '/' {
      var q := p[..|p| - 1];
      assert p == q + ['/'] + [];
      SplitAppend(q, [], '/');
      NonEmptyAppend(Split(q, '/'), [[]]);
    }
  }

  lemma DropLeadingSegments(p: string)
    ensures NonEmpty(Split(DropLeadingSlash(p), '/')) == NonEmpty(Split(p, '/'))
  {
    if p != [] && p[0] == '/' {
      assert p == [] + ['/'] + p[1..];
      SplitAppend([], p[1..], '/');
    }
  }

  /** `_normalizePath` agrees with the plain segment definition: the
      resolved segments joined by '/', with a leading '/' exactly for an
      absolute input whose result is not empty. */
  lemma NormalizeBySegments(path: string)
    ensures Normalize(path) ==
      (if path != [] && path[0] == '/' && Segments(path) != [] then "/" else []) + Join(Segments(path), '/')
  {
    if path != [] {
      var c := CollapseSlashes(path);
      var parts := Split(DropTrailingSlash(c), '/');
      assert ResolveFrom([], parts) == Segments(path) by {
        DropTrailingSegments(c);
        CollapseSegments(path);
        ResolveNonEmpty([], parts);
        ResolveNonEmpty([], Split(path, '/'));
      }
      SegmentsClean(path);
      JoinCleanEmpty(Segments(path));
    } else {
      assert Split(path, '/') == [[]];
      assert Segments(path) == [];
    }
  }

  /** What `_normalizePath` produces: no empty, `.` or `..` segment and no
      trailing '/'; a leading '/' exactly when the input was absolute and the
      result is not empty. */
  lemma NormalizeShape(path: string)
    ensures var r := Normalize(path);
      && (r != [] ==> r[|r| - 1] != '/')
      && (r != [] ==> AllClean(Split(DropLeadingSlash(r), '/')))
      && ((r != [] && r[0] == '/') <==> (path != [] && path[0] == '/' && r != []))
      && (r == [] <==> Segments(path) == [])
  {
    NormalizeBySegments(path);
    SegmentsClean(path);
    var segs := Segments(path);
    JoinCleanEmpty(segs);
    var r := Normalize(path);
    if segs != [] {
      var j := Join(segs, '/');
      assert DropLeadingSlash(r) == j;
      SplitJoin(segs, '/');
    }
  }

  /** A `..` before anything it could pop is dropped (the path is clipped at the start). */
  lemma DotDotAtStartDropped(parts: seq<string>)
    ensures ResolveFrom([], [".."] + parts) == ResolveFrom([], parts)
  {
    assert ([".."] + parts)[1..] == parts;
  }

  /** Clean segments joined by '/' split back into themselves. */
  lemma SegmentsOfJoin(segs: seq<string>)
    requires AllClean(segs)
    ensures Segments(Join(segs, '/')) == segs
  {
    JoinCleanEmpty(segs);
    if segs == [] {
      assert Split([], '/') == [[]];
    } else {
      SplitJoin(segs, '/');
      ResolveOfClean([], segs);
      assert [] + segs == segs;
    }
  }

  lemma SegmentsOfRooted(segs: seq<string>)
    requires AllClean(segs) && segs != []
    ensures Segments("/" + Join(segs, '/')) == segs
  {
    var j := Join(segs, '/');
    SplitJoin(segs, '/');
    ResolveOfClean([], segs);
    assert [] + segs == segs;
    assert "/" + j == [] + ['/'] + j;
    SplitAppend([], j, '/');
    assert Split("/" + j, '/') == [[]] + segs;
    assert ([[]] + segs)[1..] == segs;
  }

  /** A normalized path has the same segments as the path it came from. */
  lemma SegmentsOfNormalized(path: string)
    ensures Segments(Normalize(path)) == Segments(path)
  {
    NormalizeBySegments(path);
    var segs := Segments(path);
    SegmentsClean(path);
    if path != [] && path[0] == '/' && segs != [] {
      SegmentsOfRooted(segs);
    } else {
      assert [] + Join(segs, '/') == Join(segs, '/');
      SegmentsOfJoin(segs);
    }
  }

  /** Normalizing twice is normalizing once. */
  lemma NormalizeIdempotent(path: string)
    ensures Normalize(Normalize(path)) == Normalize(path)
  {
    var r := Normalize(path);
    NormalizeBySegments(path);
    NormalizeBySegments(r);
    SegmentsOfNormalized(path);
    var segs := Segments(path);
    SegmentsClean(path);
    JoinCleanEmpty(segs);
  }

  // ---------------------------------------------------------------------------
  // _joinPath, _getDirectoryPath, _stripNamespace

  /** Collapsing slashes changes neither the absolute flag nor the segments. */
  lemma NormalizeCollapsed(s: string)
    ensures Normalize(CollapseSlashes(s)) == Normalize(s)
    ensures Segments(CollapseSlashes(s)) == Segments(s)
  {
    var c := CollapseSlashes(s);
    CollapseSegments(s);
    ResolveNonEmpty([], Split(c, '/'));
    ResolveNonEmpty([], Split(s, '/'));
    NormalizeBySegments(c);
    NormalizeBySegments(s);
  }

  /** `_joinPath` with an absolute first part is `_normalizePath` of the
      '/'-join of the parts other than `.`. */
  lemma JoinPathAbsolute(parts: seq<string>)
    requires |parts| > 0 && StartsWith(parts[0], "/")
    ensures JoinPath(parts) == Normalize(Join(RemoveDots(parts), '/'))
  {
    var filtered := RemoveDots(parts);
    if filtered != [] {
      NormalizeCollapsed(Join(filtered, '/'));
    }
  }

  /** With its leading slash dropped, a collapsed path normalizes to its
      resolved segments, joined. */
  lemma NormalizeDropped(s: string)
    ensures Normalize(DropLeadingSlash(CollapseSlashes(s))) == Join(Segments(s), '/')
  {
    var c := CollapseSlashes(s);
    NormalizeCollapsed(s);
    var d := DropLeadingSlash(c);
    DropLeadingSegments(c);
    ResolveNonEmpty([], Split(d, '/'));
    ResolveNonEmpty([], Split(c, '/'));
    NormalizeBySegments(d);
    assert d == [] || d[0] != '/' by {
      if c != [] && c[0] == '/' && |c| >= 2 {
        assert !(c[0] == '/' && c[1] == '/');
      }
    }
  }

  /** `_joinPath` with a relative first part is relative: the resolved
      segments of the '/'-join of the parts other than `.`, with no leading '/'. */
  lemma JoinPathRelative(parts: seq<string>)
    requires !(|parts| > 0 && StartsWith(parts[0], "/"))
    ensures JoinPath(parts) == Join(Segments(Join(RemoveDots(parts), '/')), '/')
    ensures JoinPath(parts) == [] || JoinPath(parts)[0] != '/'
  {
    var filtered := RemoveDots(parts);
    if filtered != [] {
      var s := Join(filtered, '/');
      NormalizeDropped(s);
      SegmentsClean(s);
      JoinCleanEmpty(Segments(s));
    } else {
      assert Segments([]) == [];
    }
  }

  /** Index of the last `c` in `s`, if any. */
  function LastIndexOf(s: string, c: char): (k: int)
    ensures -1 <= k < |s|
    ensures k >= 0 ==> s[k] == c
    ensures forall i :: k < i < |s| ==> s[i] != c
  {
    if s == [] then -1
    else if s[|s| - 1] == c then |s| - 1
    else LastIndexOf(s[..|s| - 1], c)
  }

  /** `_getDirectoryPath` is everything before the last '/' (empty when there is none). */
  lemma DirNameSpec(p: string)
    ensures var k := LastIndexOf(p, '/');
      DirName(p) == if k < 0 then [] else p[..k]
  {
    var k := LastIndexOf(p, '/');
    if k < 0 {
      assert '/' !in p;
      SplitNoSep(p, '/');
    } else {
      var a := p[..k];
      var b := p[k + 1..];
      assert p == a + ['/'] + b;
      assert '/' !in b;
      SplitAppend(a, b, '/');
      SplitNoSep(b, '/');
      var parts := Split(p, '/');
      assert parts == Split(a, '/') + [b];
      assert parts[..|parts| - 1] == Split(a, '/');
      JoinSplit(a, '/');
    }
  }

  lemma {:induction false} SplitFirstPiece(s: string, c: char)
    ensures Split(s, c)[0] == s[..IndexOf(s, c)]
  {
    if s != [] && s[0] != c {
      SplitFirstPiece(s[1..], c);
    }
  }

  /** `_stripNamespace`: a tag without ':' is unchanged. */
  lemma StripNamespacePlain(tag: string)
    requires ':' !in tag
    ensures StripNamespace(tag) == tag
  {
  }

  /** `_stripNamespace`: with a ':' the result is the text after the first ':'
      up to the next ':' or the end, so it holds no ':'. */
  lemma StripNamespacePrefixed(tag: string)
    requires ':' in tag
    ensures var rest := tag[IndexOf(tag, ':') + 1..];
      StripNamespace(tag) == rest[..IndexOf(rest, ':')]
    ensures ':' !in StripNamespace(tag)
  {
    var k := IndexOf(tag, ':');
    var a := tag[..k];
    var b := tag[k + 1..];
    assert tag == a + [':'] + b;
    assert forall i :: 0 <= i < |a| ==> a[i] != ':';
    SplitAppend(a, b, ':');
    SplitNoSep(a, ':');
    SplitFirstPiece(b, ':');
  }
}
