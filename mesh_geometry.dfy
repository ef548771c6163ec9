/**
 * Mesh geometry in the `scene.ts` loader: the vertex and normal buffers are
 * converted to three.js axes in place, then every face corner's (vertex,
 * normal, uv) triple is given one output vertex, shared by all corners with
 * the same triple, so that three.js sees a single index.
 */
module MeshGeometry {
  import opened Text
  import opened Coordinates

  /** The buffer read as triples. */
  function Triple(buf: seq<real>, v: nat): Vec3
    requires 3 * v + 2 < |buf|
  {
    Vec3(buf[3 * v], buf[3 * v + 1], buf[3 * v + 2])
  }

  /** The in-place loop over `vertex_buffer` (and `normal_buffer`): every
      triple (x, y, z) becomes (x, z, -y). */
  method SwizzleBuffer(buf: array<real>)
    requires buf.Length % 3 == 0
    modifies buf
    ensures forall v :: 0 <= v < buf.Length / 3 ==> Triple(buf[..], v) == MjcToThree(Triple(old(buf[..]), v))
  {
    var v := 0;
    while v < buf.Length
      invariant 0 <= v <= buf.Length && v % 3 == 0
      invariant forall u :: 0 <= u < v / 3 ==> Triple(buf[..], u) == MjcToThree(Triple(old(buf[..]), u))
      invariant buf[v..] == old(buf[..])[v..]
    {
      ghost var before := buf[..];
      var temp := buf[v + 1];
      buf[v + 1] := buf[v + 2];
      buf[v + 2] := -temp;
      assert buf[..][..v] == before[..v];
      forall u | 0 <= u < v / 3 + 1
        ensures Triple(buf[..], u) == MjcToThree(Triple(old(buf[..]), u))
      {
        if u < v / 3 {
          assert Triple(buf[..], u) == Triple(before, u);
        } else {
          assert before[v..][0] == before[v] && old(buf[..])[v..][0] == old(buf[..])[v];
          assert before[v..][1] == before[v + 1] && old(buf[..])[v..][1] == old(buf[..])[v + 1];
          assert before[v..][2] == before[v + 2] && old(buf[..])[v..][2] == old(buf[..])[v + 2];
        }
      }
      v := v + 3;
    }
  }

  /** Converting twice in place is the same as a half turn about x: the
      buffer's triples become (x, -y, -z), so a second load of the same mesh
      would not see the stored axes. */
  lemma SwizzleTwice(p: Vec3)
    ensures MjcToThree(MjcToThree(p)) == Vec3(p.x, -p.y, -p.z)
  {
  }

  // ---------------------------------------------------------------------------
  // The corner de-duplication

  /** A face corner: its (vertex, normal, uv) indices.  The source keys its
      map by the string `vi_nvi_uvi`, which is one-to-one on such triples.
      The uv index may point outside the uv buffer (a mesh without texture
      coordinates has an empty one). */
  type Corner = (nat, nat, int)

  /** The corners of the mesh, three per face, from the three face buffers. */
  function Corners(faceVertex: seq<nat>, faceNormal: seq<nat>, faceUv: seq<int>): (r: seq<Corner>)
    requires |faceVertex| == |faceNormal| == |faceUv|
    ensures |r| == |faceVertex|
    ensures forall k :: 0 <= k < |r| ==> r[k] == (faceVertex[k], faceNormal[k], faceUv[k])
  {
    seq(|faceVertex|, k requires 0 <= k < |faceVertex| => (faceVertex[k], faceNormal[k], faceUv[k]))
  }

  /** Adding one element to the end adds it to the de-duplicated list exactly
      when it is new. */
  lemma DedupSnoc<T>(xs: seq<T>, x: T)
    ensures Dedup(xs + [x]) == Dedup(xs) + (if x in xs then [] else [x])
  {
    DedupFromPrefix(xs, [x], []);
    DedupSpec(xs);
    assert [] + Dedup(xs) == Dedup(xs);
  }

  /** `buf[i]`; a read outside the buffer gives `undefined`, taken as 0. */
  function At(buf: seq<real>, i: int): real {
    if 0 <= i < |buf| then buf[i] else 0.0
  }

  /** The output buffers for the distinct triples `unique`, one triple at a
      time: the position, normal and uv its indices name. */
  function Positions(unique: seq<Corner>, vertex: seq<real>): (r: seq<real>)
    ensures |r| == 3 * |unique|
    decreases |unique|
  {
    if unique == [] then []
    else
      var v := unique[|unique| - 1].0;
      Positions(unique[..|unique| - 1], vertex) + [At(vertex, 3 * v), At(vertex, 3 * v + 1), At(vertex, 3 * v + 2)]
  }

  function Normals(unique: seq<Corner>, normal: seq<real>): (r: seq<real>)
    ensures |r| == 3 * |unique|
    decreases |unique|
  {
    if unique == [] then []
    else
      var n := unique[|unique| - 1].1;
      Normals(unique[..|unique| - 1], normal) + [At(normal, 3 * n), At(normal, 3 * n + 1), At(normal, 3 * n + 2)]
  }

  function Uvs(unique: seq<Corner>, uv: seq<real>): (r: seq<real>)
    ensures |r| == 2 * |unique|
    decreases |unique|
  {
    if unique == [] then []
    else
      var t := unique[|unique| - 1].2;
      Uvs(unique[..|unique| - 1], uv) + [At(uv, 2 * t), At(uv, 2 * t + 1)]
  }

  /** Component `j` of output vertex `u` is component `j` of the position
      its triple's index names. */
  lemma {:induction false} PositionAt(unique: seq<Corner>, vertex: seq<real>, u: nat, j: nat)
    requires u < |unique| && j < 3
    ensures Positions(unique, vertex)[3 * u + j] == At(vertex, 3 * unique[u].0 + j)
    decreases |unique|
  {
    var init := unique[..|unique| - 1];
    var prev := Positions(init, vertex);
    if u < |init| {
      PositionAt(init, vertex, u, j);
      assert unique[u] == init[u];
      assert Positions(unique, vertex)[3 * u + j] == prev[3 * u + j];
    }
  }

  /** Output vertex `u` carries the position of its triple's vertex index. */
  lemma PositionsSpec(unique: seq<Corner>, vertex: seq<real>)
    ensures forall u :: 0 <= u < |unique| ==>
      Positions(unique, vertex)[3 * u] == At(vertex, 3 * unique[u].0) && Positions(unique, vertex)[3 * u + 1] == At(vertex, 3 * unique[u].0 + 1) && Positions(unique, vertex)[3 * u + 2] == At(vertex, 3 * unique[u].0 + 2)
  {
    forall u | 0 <= u < |unique|
      ensures Positions(unique, vertex)[3 * u] == At(vertex, 3 * unique[u].0) && Positions(unique, vertex)[3 * u + 1] == At(vertex, 3 * unique[u].0 + 1) && Positions(unique, vertex)[3 * u + 2] == At(vertex, 3 * unique[u].0 + 2)
    {
      PositionAt(unique, vertex, u, 0);
      PositionAt(unique, vertex, u, 1);
      PositionAt(unique, vertex, u, 2);
    }
  }

  /** Component `j` of output vertex `u` is component `j` of the normal
      its triple's index names. */
  lemma {:induction false} NormalAt(unique: seq<Corner>, normal: seq<real>, u: nat, j: nat)
    requires u < |unique| && j < 3
    ensures Normals(unique, normal)[3 * u + j] == At(normal, 3 * unique[u].1 + j)
    decreases |unique|
  {
    var init := unique[..|unique| - 1];
    var prev := Normals(init, normal);
    if u < |init| {
      NormalAt(init, normal, u, j);
      assert unique[u] == init[u];
      assert Normals(unique, normal)[3 * u + j] == prev[3 * u + j];
    }
  }

  /** Output vertex `u` carries the normal of its triple's normal index. */
  lemma NormalsSpec(unique: seq<Corner>, normal: seq<real>)
    ensures forall u :: 0 <= u < |unique| ==>
      Normals(unique, normal)[3 * u] == At(normal, 3 * unique[u].1) && Normals(unique, normal)[3 * u + 1] == At(normal, 3 * unique[u].1 + 1) && Normals(unique, normal)[3 * u + 2] == At(normal, 3 * unique[u].1 + 2)
  {
    forall u | 0 <= u < |unique|
      ensures Normals(unique, normal)[3 * u] == At(normal, 3 * unique[u].1) && Normals(unique, normal)[3 * u + 1] == At(normal, 3 * unique[u].1 + 1) && Normals(unique, normal)[3 * u + 2] == At(normal, 3 * unique[u].1 + 2)
    {
      NormalAt(unique, normal, u, 0);
      NormalAt(unique, normal, u, 1);
      NormalAt(unique, normal, u, 2);
    }
  }

  /** Component `j` of output vertex `u` is component `j` of the uv
      its triple's index names. */
  lemma {:induction false} UvAt(unique: seq<Corner>, uv: seq<real>, u: nat, j: nat)
    requires u < |unique| && j < 2
    ensures Uvs(unique, uv)[2 * u + j] == At(uv, 2 * unique[u].2 + j)
    decreases |unique|
  {
    var init := unique[..|unique| - 1];
    var prev := Uvs(init, uv);
    if u < |init| {
      UvAt(init, uv, u, j);
      assert unique[u] == init[u];
      assert Uvs(unique, uv)[2 * u + j] == prev[2 * u + j];
    }
  }

  /** Output vertex `u` carries the uv of its triple's uv index. */
  lemma UvsSpec(unique: seq<Corner>, uv: seq<real>)
    ensures forall u :: 0 <= u < |unique| ==>
      Uvs(unique, uv)[2 * u] == At(uv, 2 * unique[u].2) && Uvs(unique, uv)[2 * u + 1] == At(uv, 2 * unique[u].2 + 1)
  {
    forall u | 0 <= u < |unique|
      ensures Uvs(unique, uv)[2 * u] == At(uv, 2 * unique[u].2) && Uvs(unique, uv)[2 * u + 1] == At(uv, 2 * unique[u].2 + 1)
    {
      UvAt(unique, uv, u, 0);
      UvAt(unique, uv, u, 1);
    }
  }

  /** Each corner's output index names that corner's triple. */
  predicate Indexed(unique: seq<Corner>, corners: seq<Corner>, indices: seq<nat>) {
    |indices| == |corners| && forall k :: 0 <= k < |corners| ==> indices[k] < |unique| && unique[indices[k]] == corners[k]
  }

  /** One more corner, pointing at the output vertex `i` of its triple. */
  lemma IndexedAdd(unique: seq<Corner>, extra: seq<Corner>, corners: seq<Corner>, indices: seq<nat>, key: Corner, i: nat)
    requires Indexed(unique, corners, indices)
    requires i < |unique + extra| && (unique + extra)[i] == key
    ensures Indexed(unique + extra, corners + [key], indices + [i])
  {
  }

  /** `tupleToIndex`: the triples met so far, each with its output index. */
  ghost predicate IndexMap(m: map<Corner, nat>, unique: seq<Corner>, seen: seq<Corner>) {
    && (forall key :: key in m <==> key in seen)
    && (forall key :: key in m ==> m[key] < |unique| && unique[m[key]] == key)
  }

  /** A new triple enters the map with the next output index. */
  lemma IndexMapAdd(m: map<Corner, nat>, unique: seq<Corner>, seen: seq<Corner>, key: Corner)
    requires IndexMap(m, unique, seen)
    ensures IndexMap(m[key := |unique|], unique + [key], seen + [key])
  {
  }

  /** The state of the de-duplication after the corners `seen`: the map,
      the three output buffers and the index list. */
  ghost predicate Step(seen: seq<Corner>, vertex: seq<real>, normal: seq<real>, uv: seq<real>,
                       tupleToIndex: map<Corner, nat>, positions: seq<real>, normals: seq<real>, uvs: seq<real>,
                       indices: seq<nat>)
  {
    && positions == Positions(Dedup(seen), vertex)
    && normals == Normals(Dedup(seen), normal)
    && uvs == Uvs(Dedup(seen), uv)
    && Indexed(Dedup(seen), seen, indices)
    && IndexMap(tupleToIndex, Dedup(seen), seen)
  }

  /** The body of the corner loop: look the triple up, and on first sight
      give it the next output index and append its numbers. */
  method AddCorner(vi: nat, nvi: nat, uvi: int, vertex: seq<real>, normal: seq<real>, uv: seq<real>,
                   tupleToIndex: map<Corner, nat>, positions: seq<real>, normals: seq<real>, uvs: seq<real>,
                   indices: seq<nat>, ghost seen: seq<Corner>)
    returns (tupleToIndex': map<Corner, nat>, positions': seq<real>, normals': seq<real>, uvs': seq<real>,
             indices': seq<nat>)
    requires Step(seen, vertex, normal, uv, tupleToIndex, positions, normals, uvs, indices)
    ensures Step(seen + [(vi, nvi, uvi)], vertex, normal, uv, tupleToIndex', positions', normals', uvs', indices')
  {
    var key := (vi, nvi, uvi);
    ghost var unique := Dedup(seen);
    DedupSnoc(seen, key);
    tupleToIndex', positions', normals', uvs' := tupleToIndex, positions, normals, uvs;
    var outIndex;
    if key in tupleToIndex {
      outIndex := tupleToIndex[key];
      assert key in seen;
      assert Dedup(seen + [key]) == unique + [] == unique;
      IndexedAdd(unique, [], seen, indices, key, outIndex);
      indices' := indices + [outIndex];
      assert IndexMap(tupleToIndex', unique, seen + [key]);
    } else {
      outIndex := |positions| / 3;
      assert key !in seen;
      var grown := unique + [key];
      assert Dedup(seen + [key]) == grown;
      IndexedAdd(unique, [key], seen, indices, key, outIndex);
      IndexMapAdd(tupleToIndex, unique, seen, key);
      assert grown[..|unique|] == unique;
      tupleToIndex' := tupleToIndex[key := outIndex];
      positions' := positions + [At(vertex, 3 * vi), At(vertex, 3 * vi + 1), At(vertex, 3 * vi + 2)];
      normals' := normals + [At(normal, 3 * nvi), At(normal, 3 * nvi + 1), At(normal, 3 * nvi + 2)];
      uvs' := uvs + [At(uv, 2 * uvi), At(uv, 2 * uvi + 1)];
      indices' := indices + [outIndex];
      assert positions' == Positions(grown, vertex);
      assert normals' == Normals(grown, normal);
      assert uvs' == Uvs(grown, uv);
    }
  }

  /** The corners up to `k`, then corner `k`. */
  lemma CornersPrefix(faceVertex: seq<nat>, faceNormal: seq<nat>, faceUv: seq<int>, k: nat)
    requires |faceVertex| == |faceNormal| == |faceUv| && k < |faceVertex|
    ensures var corners := Corners(faceVertex, faceNormal, faceUv);
      corners[..k + 1] == corners[..k] + [(faceVertex[k], faceNormal[k], faceUv[k])]
  {
  }

  /** The corner loop of face `t`. */
  method AddFace(faceVertex: seq<nat>, faceNormal: seq<nat>, faceUv: seq<int>, t: nat,
                 vertex: seq<real>, normal: seq<real>, uv: seq<real>,
                 tupleToIndex: map<Corner, nat>, positions: seq<real>, normals: seq<real>, uvs: seq<real>,
                 indices: seq<nat>)
    returns (tupleToIndex': map<Corner, nat>, positions': seq<real>, normals': seq<real>, uvs': seq<real>,
             indices': seq<nat>)
    requires |faceVertex| == |faceNormal| == |faceUv| && 3 * t + 3 <= |faceVertex|
    requires Step(Corners(faceVertex, faceNormal, faceUv)[..3 * t], vertex, normal, uv,
                  tupleToIndex, positions, normals, uvs, indices)
    ensures Step(Corners(faceVertex, faceNormal, faceUv)[..3 * t + 3], vertex, normal, uv,
                 tupleToIndex', positions', normals', uvs', indices')
  {
    ghost var corners := Corners(faceVertex, faceNormal, faceUv);
    tupleToIndex', positions', normals', uvs', indices' := tupleToIndex, positions, normals, uvs, indices;
    var c := 0;
    while c < 3
      invariant 0 <= c <= 3
      invariant Step(corners[..3 * t + c], vertex, normal, uv, tupleToIndex', positions', normals', uvs', indices')
    {
      var k := 3 * t + c;
      CornersPrefix(faceVertex, faceNormal, faceUv, k);
      tupleToIndex', positions', normals', uvs', indices' :=
        AddCorner(faceVertex[k], faceNormal[k], faceUv[k], vertex, normal, uv,
                  tupleToIndex', positions', normals', uvs', indices', corners[..k]);
      c := c + 1;
    }
  }

  /**
   * The loop over faces and corners with its `tupleToIndex` map.  The output
   * vertices are the distinct corner triples in first-seen order, each once;
   * there are three indices per face, each pointing at that corner's triple;
   * and the output buffers carry each output vertex's position, normal and
   * uv.
   */
  method DedupCorners(faceVertex: seq<nat>, faceNormal: seq<nat>, faceUv: seq<int>,
                      vertex: seq<real>, normal: seq<real>, uv: seq<real>)
    returns (positions: seq<real>, normals: seq<real>, uvs: seq<real>, indices: seq<nat>)
    requires |faceVertex| == |faceNormal| == |faceUv| && |faceVertex| % 3 == 0
    ensures var unique := Dedup(Corners(faceVertex, faceNormal, faceUv));
      && positions == Positions(unique, vertex)
      && normals == Normals(unique, normal)
      && uvs == Uvs(unique, uv)
      && Indexed(unique, Corners(faceVertex, faceNormal, faceUv), indices)
  {
    ghost var corners := Corners(faceVertex, faceNormal, faceUv);
    positions, normals, uvs, indices := [], [], [], [];
    var tupleToIndex: map<Corner, nat> := map[];
    var faceCount := |faceVertex| / 3;
    var t := 0;
    while t < faceCount
      invariant 0 <= t <= faceCount
      invariant Step(corners[..3 * t], vertex, normal, uv, tupleToIndex, positions, normals, uvs, indices)
    {
      tupleToIndex, positions, normals, uvs, indices :=
        AddFace(faceVertex, faceNormal, faceUv, t, vertex, normal, uv, tupleToIndex, positions, normals, uvs, indices);
      t := t + 1;
    }
    assert corners[..3 * t] == corners;
  }
}
