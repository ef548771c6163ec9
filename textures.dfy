/**
 * MuJoCo textures turned into RGBA pixel data for three.js: the channel
 * expansion `expandChannelsToRGBA`, the 2D and cube builders and their
 * `createTexture` dispatch in `textures.ts`, and the older
 * `createBaseTexture` of `mujocoScene.js`, which fills alpha with 1 where
 * `textures.ts` uses 255.
 */
module Textures {
  import opened Wrappers

  newtype byte = x: int | 0 <= x < 256

  /** `mjtTexture`: the values of `mjTEXTURE_2D` and `mjTEXTURE_CUBE`. */
  const TEXTURE_2D: int := 0
  const TEXTURE_CUBE: int := 1

  /**
   * The texture arrays of an `MjModel` the builders read; each may be
   * missing.  All present per-texture arrays have one entry per texture.
   */
  datatype TexModel = TexModel(
    ntex: nat,
    texType: Option<seq<int>>,
    width: Option<seq<nat>>,
    height: Option<seq<nat>>,
    adr: Option<seq<nat>>,
    nchannel: Option<seq<nat>>,
    data: Option<seq<byte>>)

  predicate HasEntries<T>(arr: Option<seq<T>>, n: nat) {
    arr.None? || |arr.value| == n
  }

  /** MuJoCo's own shape for the arrays: one entry per texture. */
  predicate WellFormed(m: TexModel) {
    && HasEntries(m.texType, m.ntex) && HasEntries(m.width, m.ntex) && HasEntries(m.height, m.ntex)
    && HasEntries(m.adr, m.ntex) && HasEntries(m.nchannel, m.ntex)
  }

  /** `arr ? arr[texId] : 0`.  An index past the end reads `undefined`,
      which every caller treats as 0 (`!undefined` holds, as `!0` does). */
  function Read(arr: Option<seq<nat>>, texId: nat): nat {
    if arr.None? then 0 else if texId < |arr.value| then arr.value[texId] else 0
  }

  /** `tex_type ? tex_type[texId] : mjTEXTURE_2D`; `None` is `undefined`. */
  function TypeOf(m: TexModel, texId: nat): Option<int> {
    if m.texType.None? then Some(TEXTURE_2D)
    else if texId < |m.texType.value| then Some(m.texType.value[texId])
    else None
  }

  // ---------------------------------------------------------------------------
  // Channel expansion

  /** `src[i]` as a typed array reads it: 0 outside the array. */
  function Src(src: seq<byte>, i: int): byte {
    if 0 <= i < |src| then src[i] else 0
  }

  /** The RGBA bytes of pixel `p` for `n` channels: luminance (`n` is 1 or
      any unsupported count), luminance and alpha, RGB, or RGBA. */
  function Texel(src: seq<byte>, n: int, alpha: byte, p: nat): (t: seq<byte>)
    ensures |t| == 4
  {
    if n == 2 then [Src(src, 2 * p), Src(src, 2 * p), Src(src, 2 * p), Src(src, 2 * p + 1)]
    else if n == 3 then [Src(src, 3 * p), Src(src, 3 * p + 1), Src(src, 3 * p + 2), alpha]
    else if n == 4 then [Src(src, 4 * p), Src(src, 4 * p + 1), Src(src, 4 * p + 2), Src(src, 4 * p + 3)]
    else [Src(src, p), Src(src, p), Src(src, p), alpha]
  }

  /** The first `count` pixels, expanded. */
  function Expanded(src: seq<byte>, n: int, count: nat, alpha: byte): (r: seq<byte>)
    ensures |r| == 4 * count
  {
    if count == 0 then [] else Expanded(src, n, count - 1, alpha) + Texel(src, n, alpha, count - 1)
  }

  /** Pixel `p` of the expansion is that pixel's texel. */
  lemma {:induction false} ExpandedPixel(src: seq<byte>, n: int, count: nat, alpha: byte, p: nat)
    requires p < count
    ensures Expanded(src, n, count, alpha)[4 * p..4 * p + 4] == Texel(src, n, alpha, p)
  {
    var e := Expanded(src, n, count - 1, alpha);
    var t := Texel(src, n, alpha, count - 1);
    if p < count - 1 {
      ExpandedPixel(src, n, count - 1, alpha, p);
      SliceOfFront(e, t, 4 * p, 4 * p + 4);
    } else {
      SliceOfBack(e, t);
    }
  }

  lemma SliceOfFront<T>(a: seq<T>, b: seq<T>, i: nat, j: nat)
    requires i <= j <= |a|
    ensures (a + b)[i..j] == a[i..j]
  {
  }

  lemma SliceOfBack<T>(a: seq<T>, b: seq<T>)
    ensures (a + b)[|a|..|a| + |b|] == b
  {
  }

  /** Four channels are copied byte for byte. */
  lemma ExpandedCopy(src: seq<byte>, count: nat, alpha: byte)
    requires |src| == 4 * count
    ensures Expanded(src, 4, count, alpha) == src
  {
    var e := Expanded(src, 4, count, alpha);
    forall i | 0 <= i < 4 * count
      ensures e[i] == src[i]
    {
      var p := i / 4;
      ExpandedPixel(src, 4, count, alpha, p);
      assert e[i] == e[4 * p..4 * p + 4][i - 4 * p];
    }
  }

  /** The channels a texel was expanded from. */
  function Pick(t: seq<byte>, n: int): seq<byte>
    requires |t| == 4 && 1 <= n <= 4
  {
    if n == 1 then [t[0]] else if n == 2 then [t[0], t[3]] else if n == 3 then t[..3] else t
  }

  /** Picking the channels of one expanded pixel gives its source bytes. */
  lemma PickTexel(src: seq<byte>, n: int, alpha: byte, p: nat)
    requires 1 <= n <= 4 && n * p + n <= |src|
    ensures Pick(Texel(src, n, alpha, p), n) == src[n * p..n * p + n]
  {
    var k := n * p;
    if n == 1 {
      assert k == p;
      assert src[k..k + 1] == [src[k]];
    } else if n == 2 {
      assert k == 2 * p;
      assert src[k..k + 2] == [src[k], src[k + 1]];
    } else if n == 3 {
      assert k == 3 * p;
      assert src[k..k + 3] == [src[k], src[k + 1], src[k + 2]];
    } else {
      assert k == 4 * p;
      assert src[k..k + 4] == [src[k], src[k + 1], src[k + 2], src[k + 3]];
    }
  }

  /** `rgba` holds `count` RGBA pixels, and picking the channels back out of
      pixel `p` gives the `n` source bytes of pixel `p`. */
  ghost predicate PixelsFrom(rgba: seq<byte>, src: seq<byte>, n: int, count: nat)
    requires 1 <= n <= 4
  {
    && |rgba| == 4 * count
    && forall p :: 0 <= p < count ==> PixelFrom(rgba, src, n, p)
  }

  /** Pixel `p` of `rgba` gives back the `n` source bytes of pixel `p`. */
  ghost predicate PixelFrom(rgba: seq<byte>, src: seq<byte>, n: int, p: nat)
    requires 1 <= n <= 4
  {
    4 * p + 4 <= |rgba| && n * p + n <= |src| && Pick(rgba[4 * p..4 * p + 4], n) == src[n * p..n * p + n]
  }

  lemma ProductStep(n: nat, count: nat)
    requires count > 0
    ensures 0 <= n * (count - 1) && n * (count - 1) + n == n * count
  {
  }

  /** A pixel before pixel `count` ends inside the first `count` pixels. */
  lemma {:induction false} PixelInside(n: nat, p: nat, count: nat)
    requires p < count
    ensures n * p + n <= n * count
  {
    ProductStep(n, count);
    if p < count - 1 {
      PixelInside(n, p, count - 1);
    }
  }

  /** One expanded pixel gives back its source bytes. */
  lemma PixelLossless(src: seq<byte>, n: int, count: nat, alpha: byte, p: nat)
    requires 1 <= n <= 4 && |src| >= n * count && p < count
    ensures PixelFrom(Expanded(src, n, count, alpha), src, n, p)
  {
    PixelInside(n, p, count);
    ExpandedPixel(src, n, count, alpha, p);
    PickTexel(src, n, alpha, p);
  }

  /** Expansion to RGBA loses nothing: every source pixel is recovered from
      its expanded pixel. */
  lemma ExpandedLossless(src: seq<byte>, n: int, count: nat, alpha: byte)
    requires 1 <= n <= 4 && |src| >= n * count
    ensures PixelsFrom(Expanded(src, n, count, alpha), src, n, count)
  {
    forall p | 0 <= p < count
      ensures PixelFrom(Expanded(src, n, count, alpha), src, n, p)
    {
      PixelLossless(src, n, count, alpha, p);
    }
  }

  /** The alpha fill is the only difference between two fills: colour bytes
      agree, luminance-alpha and RGBA data ignore the fill, and luminance and
      RGB data carry it as alpha. */
  lemma ExpandedAlpha(src: seq<byte>, n: int, count: nat, a1: byte, a2: byte, p: nat)
    requires p < count
    ensures Expanded(src, n, count, a1)[4 * p..4 * p + 3] == Expanded(src, n, count, a2)[4 * p..4 * p + 3]
    ensures (n == 2 || n == 4) ==> Expanded(src, n, count, a1)[4 * p + 3] == Expanded(src, n, count, a2)[4 * p + 3]
    ensures n != 2 && n != 4 ==> Expanded(src, n, count, a1)[4 * p + 3] == a1
  {
    ExpandedPixel(src, n, count, a1, p);
    ExpandedPixel(src, n, count, a2, p);
    assert Expanded(src, n, count, a1)[4 * p..4 * p + 3] == Expanded(src, n, count, a1)[4 * p..4 * p + 4][..3];
    assert Expanded(src, n, count, a2)[4 * p..4 * p + 3] == Expanded(src, n, count, a2)[4 * p..4 * p + 4][..3];
    assert Expanded(src, n, count, a1)[4 * p + 3] == Expanded(src, n, count, a1)[4 * p..4 * p + 4][3];
    assert Expanded(src, n, count, a2)[4 * p + 3] == Expanded(src, n, count, a2)[4 * p..4 * p + 4][3];
  }

  /** Writing one pixel's four bytes extends the filled prefix by its texel. */
  /** The four byte writes of the pixel at byte `d`: its bytes become `t`
      and the bytes before it stay as they were. */
  method PutPixel(dest: array<byte>, d: nat, t: seq<byte>)
    requires |t| == 4 && d + 4 <= dest.Length
    modifies dest
    ensures dest[..d + 4] == old(dest[..d]) + t
  {
    dest[d + 0] := t[0];
    dest[d + 1] := t[1];
    dest[d + 2] := t[2];
    dest[d + 3] := t[3];
    assert dest[..d + 4] == old(dest[..d]) + t;
  }

  /** The texel of an in-range pixel, read straight from `src`. */
  lemma TexelInRange(src: seq<byte>, n: int, alpha: byte, p: nat)
    requires 2 <= n <= 4 && n * p + n <= |src|
    ensures n == 2 ==> Texel(src, n, alpha, p) == [src[2 * p], src[2 * p], src[2 * p], src[2 * p + 1]]
    ensures n == 3 ==> Texel(src, n, alpha, p) == [src[3 * p], src[3 * p + 1], src[3 * p + 2], alpha]
    ensures n == 4 ==> Texel(src, n, alpha, p) == src[4 * p..4 * p + 4]
  {
  }

  /** Writing the texel of pixel `p` after the first `p` expanded pixels
      gives the first `p + 1`. */
  method PutTexel(dest: array<byte>, d: nat, t: seq<byte>, ghost src: seq<byte>, ghost n: int, ghost alpha: byte, ghost p: nat)
    requires d == 4 * p && t == Texel(src, n, alpha, p) && d + 4 <= dest.Length
    requires dest[..d] == Expanded(src, n, p, alpha)
    modifies dest
    ensures dest[..d + 4] == Expanded(src, n, p + 1, alpha)
  {
    PutPixel(dest, d, t);
  }

  /** The luminance loop of `expandChannelsToRGBA`, used for one channel and
      as the fallback for unsupported counts; one channel reads `src[p]`
      unguarded, but a byte read past the end stores as 0, as the fallback's
      guard gives. */
  method FillLuminance(src: seq<byte>, dest: array<byte>, nchannel: int)
    requires dest.Length % 4 == 0 && nchannel != 2 && nchannel != 3 && nchannel != 4
    modifies dest
    ensures dest[..] == Expanded(src, nchannel, dest.Length / 4, 255)
  {
    var pixelCount := dest.Length / 4;
    for p := 0 to pixelCount
      invariant dest[..4 * p] == Expanded(src, nchannel, p, 255)
    {
      var l := if p < |src| then src[p] else 0;
      PutTexel(dest, p * 4, [l, l, l, 255], src, nchannel, 255, p);
    }
    assert dest[..] == dest[..4 * pixelCount];
  }

  /** The luminance-and-alpha loop of `expandChannelsToRGBA`. */
  method FillLuminanceAlpha(src: seq<byte>, dest: array<byte>)
    requires dest.Length % 4 == 0
    modifies dest
    ensures dest[..] == Expanded(src, 2, dest.Length / 4, 255)
  {
    var pixelCount := dest.Length / 4;
    for p := 0 to pixelCount
      invariant dest[..4 * p] == Expanded(src, 2, p, 255)
    {
      var l := Src(src, (p * 2) + 0);
      var a := Src(src, (p * 2) + 1);
      PutTexel(dest, p * 4, [l, l, l, a], src, 2, 255, p);
    }
    assert dest[..] == dest[..4 * pixelCount];
  }

  /** The RGB loop of `expandChannelsToRGBA`. */
  method FillRGB(src: seq<byte>, dest: array<byte>)
    requires dest.Length % 4 == 0
    modifies dest
    ensures dest[..] == Expanded(src, 3, dest.Length / 4, 255)
  {
    var pixelCount := dest.Length / 4;
    for p := 0 to pixelCount
      invariant dest[..4 * p] == Expanded(src, 3, p, 255)
    {
      PutTexel(dest, p * 4, [Src(src, (p * 3) + 0), Src(src, (p * 3) + 1), Src(src, (p * 3) + 2), 255], src, 3, 255, p);
    }
    assert dest[..] == dest[..4 * pixelCount];
  }

  /** `dest.set(src)`: `src` is copied to the front of `dest`; the rest stays. */
  method CopyInto(src: seq<byte>, dest: array<byte>)
    requires |src| <= dest.Length
    modifies dest
    ensures dest[..] == src + old(dest[..])[|src|..]
  {
    forall i | 0 <= i < |src| {
      dest[i] := src[i];
    }
    assert dest[..] == src + old(dest[..])[|src|..];
  }

  /**
   * `expandChannelsToRGBA(src, dest, nchannel)`: `dest.length / 4` pixels
   * are written; four channels are copied with `dest.set(src)`, which
   * leaves any bytes past `src` as they were.
   */
  method ExpandChannelsToRGBA(src: seq<byte>, dest: array<byte>, nchannel: int)
    requires dest.Length % 4 == 0
    requires nchannel == 4 ==> |src| <= dest.Length
    modifies dest
    ensures nchannel != 4 ==> dest[..] == Expanded(src, nchannel, dest.Length / 4, 255)
    ensures nchannel == 4 ==> dest[..] == src + old(dest[..])[|src|..]
  {
    if nchannel == 2 {
      FillLuminanceAlpha(src, dest);
    } else if nchannel == 3 {
      FillRGB(src, dest);
    } else if nchannel == 4 {
      CopyInto(src, dest);
    } else {
      FillLuminance(src, dest, nchannel);
    }
  }

  // ---------------------------------------------------------------------------
  // textures.ts: 2D and cube textures

  /** A built texture: RGBA data, or six RGBA faces in three.js order. */
  datatype Texture =
    | Flat(width: nat, height: nat, rgba: seq<byte>)
    | Cube(faceSize: nat, faces: seq<seq<byte>>)

  /** `tex_data.subarray(start, start + count)` once the length is checked. */
  function Slice(data: seq<byte>, start: nat, count: nat): seq<byte>
    requires start + count <= |data|
  {
    data[start..start + count]
  }

  /** `create2DTexture(mjModel, texId)`. */
  function Texture2D(m: TexModel, texId: nat): Option<Texture> {
    var width := Read(m.width, texId);
    var height := Read(m.height, texId);
    if width == 0 || height == 0 then None
    else
      var texAdr := Read(m.adr, texId);
      var nchannel := Read(m.nchannel, texId);
      if nchannel < 1 || nchannel > 4 then None
      else
        var pixelCount := width * height;
        var srcByteCount := pixelCount * nchannel;
        if m.data.None? || |m.data.value| < texAdr + srcByteCount then None
        else Some(Flat(width, height, Expanded(Slice(m.data.value, texAdr, srcByteCount), nchannel, pixelCount, 255)))
  }

  /** `create2DTexture` is null exactly on a zero dimension, a channel count
      outside 1..4 or too little data; otherwise its pixels are the expanded
      source pixels, `width * height` of them. */
  lemma Texture2DSpec(m: TexModel, texId: nat)
    ensures var w := Read(m.width, texId);
      var h := Read(m.height, texId);
      var adr := Read(m.adr, texId);
      var n := Read(m.nchannel, texId);
      && (Texture2D(m, texId).None? <==>
            w == 0 || h == 0 || n < 1 || n > 4 || m.data.None? || |m.data.value| < adr + w * h * n)
      && (Texture2D(m, texId).Some? ==>
            var t := Texture2D(m, texId).value;
            && t.Flat? && t.width == w && t.height == h && |t.rgba| == 4 * (w * h)
            && PixelsFrom(t.rgba, m.data.value[adr..adr + w * h * n], n, w * h))
  {
    var w := Read(m.width, texId);
    var h := Read(m.height, texId);
    var adr := Read(m.adr, texId);
    var n := Read(m.nchannel, texId);
    if Texture2D(m, texId).Some? {
      var src := Slice(m.data.value, adr, w * h * n);
      ExpandedLossless(src, n, w * h, 255);
    }
  }

  /** MuJoCo stores cube faces as +Y, -Y, -X, +X, +Z, -Z; three.js wants
      +X, -X, +Y, -Y, +Z, -Z: three.js face `j` is MuJoCo face `CubeOrder[j]`. */
  const CubeOrder: seq<nat> := [3, 2, 0, 1, 4, 5]

  /** MuJoCo face `k` lands at three.js position `CubeInverse[k]`. */
  const CubeInverse: seq<nat> := [2, 3, 1, 0, 4, 5]

  /** `reorderedFaces`. */
  function Reorder<T>(faces: seq<T>): (r: seq<T>)
    requires |faces| == 6
    ensures |r| == 6
  {
    [faces[3], faces[2], faces[0], faces[1], faces[4], faces[5]]
  }

  /** The reordering is a permutation: each MuJoCo face appears once, at its
      inverse position, and nothing is lost or duplicated. */
  lemma ReorderPermutation<T>(faces: seq<T>)
    requires |faces| == 6
    ensures forall j :: 0 <= j < 6 ==> Reorder(faces)[j] == faces[CubeOrder[j]]
    ensures forall k :: 0 <= k < 6 ==> Reorder(faces)[CubeInverse[k]] == faces[k]
  {
  }

  /** `CubeOrder` and `CubeInverse` undo each other. */
  lemma CubeOrderInverse()
    ensures forall k :: 0 <= k < 6 ==> CubeOrder[CubeInverse[k]] == k
    ensures forall j :: 0 <= j < 6 ==> CubeInverse[CubeOrder[j]] == j
  {
  }

  /** Where MuJoCo face `k` starts: every face at `texAdr` when one square
      face is repeated, face `k` at `texAdr + k * faceBytes` when stacked. */
  function FaceOffset(texAdr: nat, repeated: bool, k: nat, faceBytes: nat): nat {
    texAdr + (if repeated then 0 else k * faceBytes)
  }

  /** The face whose data starts at `offset`: `faceSize * faceSize` pixels
      of `nchannel` bytes, expanded. */
  function Face(data: seq<byte>, offset: nat, faceSize: nat, nchannel: nat): (f: seq<byte>)
    requires offset + faceSize * faceSize * nchannel <= |data|
    ensures |f| == 4 * (faceSize * faceSize)
  {
    Expanded(Slice(data, offset, faceSize * faceSize * nchannel), nchannel, faceSize * faceSize, 255)
  }

  /** The data holds a whole face at `offset`. */
  predicate HasFace(data: Option<seq<byte>>, offset: nat, faceSize: nat, nchannel: nat) {
    data.Some? && offset + faceSize * faceSize * nchannel <= |data.value|
  }

  /** The MuJoCo faces `k` for `k` below `count`, each expanded; `None` once
      one of them lacks data. */
  function CubeFacesFrom(data: Option<seq<byte>>, texAdr: nat, repeated: bool, faceSize: nat, nchannel: nat, count: nat)
    : (r: Option<seq<seq<byte>>>)
    ensures r.Some? ==> |r.value| == count
  {
    if count == 0 then Some([])
    else
      var prev := CubeFacesFrom(data, texAdr, repeated, faceSize, nchannel, count - 1);
      var faceOffset := FaceOffset(texAdr, repeated, count - 1, faceSize * faceSize * nchannel);
      if prev.None? || !HasFace(data, faceOffset, faceSize, nchannel) then None
      else Some(prev.value + [Face(data.value, faceOffset, faceSize, nchannel)])
  }

  /** `createCubeTexture(mjModel, texId)`, without its canvas step. */
  function CubeTexture(m: TexModel, texId: nat): Option<Texture> {
    var width := Read(m.width, texId);
    var height := Read(m.height, texId);
    if width == 0 || height == 0 then None
    else if height != width && height != 6 * width then None
    else
      var repeated := height == width;
      var faces := CubeFacesFrom(m.data, Read(m.adr, texId), repeated, width, Read(m.nchannel, texId), 6);
      if faces.None? then None else Some(Cube(width, Reorder(faces.value)))
  }

  /** Face `k` of the faces read so far. */
  lemma {:induction false} CubeFacesFromAt(data: Option<seq<byte>>, texAdr: nat, repeated: bool, faceSize: nat, nchannel: nat,
                                           count: nat, k: nat)
    requires k < count && CubeFacesFrom(data, texAdr, repeated, faceSize, nchannel, count).Some?
    ensures var off := FaceOffset(texAdr, repeated, k, faceSize * faceSize * nchannel);
      && HasFace(data, off, faceSize, nchannel)
      && CubeFacesFrom(data, texAdr, repeated, faceSize, nchannel, count).value[k] == Face(data.value, off, faceSize, nchannel)
  {
    if k < count - 1 {
      CubeFacesFromAt(data, texAdr, repeated, faceSize, nchannel, count - 1, k);
    }
  }

  /** Only a square image or a stack of six square faces makes a cube, whose
      faces are as wide as the image. */
  lemma CubeShape(m: TexModel, texId: nat)
    ensures var w := Read(m.width, texId);
      var h := Read(m.height, texId);
      && (w == 0 || h == 0 || (h != w && h != 6 * w) ==> CubeTexture(m, texId).None?)
      && (CubeTexture(m, texId).Some? ==> CubeTexture(m, texId).value.faceSize == w && |CubeTexture(m, texId).value.faces| == 6)
  {
  }

  /** three.js face `j` is MuJoCo face `CubeOrder[j]`, read where that face
      starts (at `texAdr` for a square image, `CubeOrder[j]` faces further on
      in a stack). */
  lemma CubeFaces(m: TexModel, texId: nat)
    ensures var w := Read(m.width, texId);
      var h := Read(m.height, texId);
      var adr := Read(m.adr, texId);
      var n := Read(m.nchannel, texId);
      CubeTexture(m, texId).Some? ==>
        forall j :: 0 <= j < 6 ==>
          var off := FaceOffset(adr, h == w, CubeOrder[j], w * w * n);
          && HasFace(m.data, off, w, n)
          && CubeTexture(m, texId).value.faces[j] == Face(m.data.value, off, w, n)
  {
    var w := Read(m.width, texId);
    var h := Read(m.height, texId);
    if CubeTexture(m, texId).Some? {
      var adr := Read(m.adr, texId);
      var n := Read(m.nchannel, texId);
      var raw := CubeFacesFrom(m.data, adr, h == w, w, n, 6);
      CubeFacesFromAt(m.data, adr, h == w, w, n, 6, 0);
      CubeFacesFromAt(m.data, adr, h == w, w, n, 6, 1);
      CubeFacesFromAt(m.data, adr, h == w, w, n, 6, 2);
      CubeFacesFromAt(m.data, adr, h == w, w, n, 6, 3);
      CubeFacesFromAt(m.data, adr, h == w, w, n, 6, 4);
      CubeFacesFromAt(m.data, adr, h == w, w, n, 6, 5);
      ReorderPermutation(raw.value);
    }
  }

  /** A square image repeats its one face on all six sides. */
  lemma CubeRepeated(m: TexModel, texId: nat)
    ensures var w := Read(m.width, texId);
      var adr := Read(m.adr, texId);
      var n := Read(m.nchannel, texId);
      CubeTexture(m, texId).Some? && Read(m.height, texId) == w ==>
        HasFace(m.data, adr, w, n)
        && forall j :: 0 <= j < 6 ==> CubeTexture(m, texId).value.faces[j] == Face(m.data.value, adr, w, n)
  {
    CubeFaces(m, texId);
  }

  /** `createTexture({ mjModel, texId })`: null for no model or a negative
      id; 2D and cube types go to their builders; any other type is null. */
  function TextureOf(m: Option<TexModel>, texId: int): Option<Texture> {
    if m.None? || texId < 0 then None
    else
      var t := TypeOf(m.value, texId);
      if t == Some(TEXTURE_2D) then Texture2D(m.value, texId)
      else if t == Some(TEXTURE_CUBE) then CubeTexture(m.value, texId)
      else None
  }

  /** `new Uint8Array(pixelCount * 4)` filled by `expandChannelsToRGBA`. */
  method ExpandInto(src: seq<byte>, pixelCount: nat, nchannel: nat) returns (rgba: seq<byte>)
    requires |src| == pixelCount * nchannel
    ensures rgba == Expanded(src, nchannel, pixelCount, 255)
  {
    var textureData := new byte[pixelCount * 4](_ => 0);
    ExpandChannelsToRGBA(src, textureData, nchannel);
    if nchannel == 4 {
      ExpandedCopy(src, pixelCount, 255);
      assert textureData[..] == src;
    }
    rgba := textureData[..];
  }

  /** `create2DTexture` as written. */
  method Create2DTexture(m: TexModel, texId: nat) returns (r: Option<Texture>)
    ensures r == Texture2D(m, texId)
  {
    var width := Read(m.width, texId);
    var height := Read(m.height, texId);
    if width == 0 || height == 0 {
      return None;
    }
    var texAdr := Read(m.adr, texId);
    var nchannel := Read(m.nchannel, texId);
    if nchannel < 1 || nchannel > 4 {
      return None;
    }
    var pixelCount := width * height;
    var srcByteCount := pixelCount * nchannel;
    if m.data.None? || |m.data.value| < texAdr + srcByteCount {
      return None;
    }
    var textureData := ExpandInto(m.data.value[texAdr..texAdr + srcByteCount], pixelCount, nchannel);
    return Some(Flat(width, height, textureData));
  }

  /** `createCubeTexture` as written, up to the canvas step. */
  method CreateCubeTexture(m: TexModel, texId: nat) returns (r: Option<Texture>)
    ensures r == CubeTexture(m, texId)
  {
    var width := Read(m.width, texId);
    var height := Read(m.height, texId);
    if width == 0 || height == 0 {
      return None;
    }
    var faceSize := width;
    var faceHeight;
    var isRepeated;
    if height == width {
      isRepeated := true;
      faceHeight := height;
    } else if height == 6 * width {
      isRepeated := false;
      faceHeight := width;
    } else {
      return None;
    }
    // The source's `faceSize !== faceHeight` test: both branches above make
    // the two equal, so it never fires.
    assert faceSize == faceHeight;
    var texAdr := Read(m.adr, texId);
    var nchannel := Read(m.nchannel, texId);
    var faces := ReadCubeFaces(m.data, texAdr, isRepeated, faceSize, faceHeight, nchannel);
    if faces.None? {
      return None;
    }
    return Some(Cube(faceSize, Reorder(faces.value)));
  }

  /** The face loop of `createCubeTexture`: null as soon as a face lacks data. */
  method ReadCubeFaces(data: Option<seq<byte>>, texAdr: nat, isRepeated: bool, faceSize: nat, faceHeight: nat, nchannel: nat)
    returns (r: Option<seq<seq<byte>>>)
    requires faceHeight == faceSize
    ensures r == CubeFacesFrom(data, texAdr, isRepeated, faceSize, nchannel, 6)
  {
    var facePixelCount := faceSize * faceHeight;
    assert facePixelCount == faceSize * faceSize;
    var faceSrcByteCount := facePixelCount * nchannel;
    var faces: seq<seq<byte>> := [];
    for faceIdx := 0 to 6
      invariant CubeFacesFrom(data, texAdr, isRepeated, faceSize, nchannel, faceIdx) == Some(faces)
    {
      var faceOffset := FaceOffset(texAdr, isRepeated, faceIdx, faceSrcByteCount);
      CubeFacesNext(data, texAdr, isRepeated, faceSize, nchannel, faceIdx);
      if data.None? || |data.value| < faceOffset + faceSrcByteCount {
        NoneStaysNone(data, texAdr, isRepeated, faceSize, nchannel, faceIdx + 1, 6);
        return None;
      }
      var faceData := ExpandInto(data.value[faceOffset..faceOffset + faceSrcByteCount], facePixelCount, nchannel);
      faces := faces + [faceData];
    }
    return Some(faces);
  }

  /** Face `k` of the cube: none when it lacks data, else the expanded face
      appended to the ones before it. */
  lemma CubeFacesNext(data: Option<seq<byte>>, texAdr: nat, repeated: bool, faceSize: nat, nchannel: nat, k: nat)
    ensures var prev := CubeFacesFrom(data, texAdr, repeated, faceSize, nchannel, k);
      var offset := FaceOffset(texAdr, repeated, k, faceSize * faceSize * nchannel);
      CubeFacesFrom(data, texAdr, repeated, faceSize, nchannel, k + 1) ==
        if prev.None? || !HasFace(data, offset, faceSize, nchannel) then None
        else Some(prev.value + [Expanded(data.value[offset..offset + faceSize * faceSize * nchannel], nchannel, faceSize * faceSize, 255)])
  {
  }

  /** Once a face lacks data, the whole cube is null. */
  lemma {:induction false} NoneStaysNone(data: Option<seq<byte>>, texAdr: nat, repeated: bool, faceSize: nat, nchannel: nat,
                                         count: nat, more: nat)
    requires count <= more && CubeFacesFrom(data, texAdr, repeated, faceSize, nchannel, count).None?
    ensures CubeFacesFrom(data, texAdr, repeated, faceSize, nchannel, more).None?
    decreases more - count
  {
    if count < more {
      NoneStaysNone(data, texAdr, repeated, faceSize, nchannel, count, more - 1);
    }
  }

  /** `createTexture` as written. */
  method CreateTexture(m: Option<TexModel>, texId: int) returns (r: Option<Texture>)
    ensures r == TextureOf(m, texId)
  {
    if m.None? || texId < 0 {
      return None;
    }
    var t := TypeOf(m.value, texId);
    if t == Some(TEXTURE_2D) {
      r := Create2DTexture(m.value, texId);
      return;
    }
    if t == Some(TEXTURE_CUBE) {
      r := CreateCubeTexture(m.value, texId);
      return;
    }
    return None;
  }

  /** The dispatch: null without a model or for a negative id or a type
      other than 2D and cube; a missing type array means 2D. */
  lemma TextureOfDispatch(m: Option<TexModel>, texId: int)
    ensures m.None? || texId < 0 ==> TextureOf(m, texId).None?
    ensures m.Some? && texId >= 0 && m.value.texType.None? ==> TextureOf(m, texId) == Texture2D(m.value, texId)
    ensures m.Some? && texId >= 0 && TypeOf(m.value, texId) != Some(TEXTURE_2D) && TypeOf(m.value, texId) != Some(TEXTURE_CUBE)
            ==> TextureOf(m, texId).None?
    ensures TextureOf(m, texId).Some? ==> m.Some? && texId >= 0
  {
  }

  // ---------------------------------------------------------------------------
  // mujocoScene.js: createBaseTexture

  /** `createBaseTexture(mujoco, mjModel, texId)`: 2D textures only, alpha 1
      for luminance and RGB data. */
  function BaseTexture(m: Option<TexModel>, texId: int): Option<Texture> {
    if m.None? || texId < 0 then None
    else if TypeOf(m.value, texId) != Some(TEXTURE_2D) then None
    else
      var mv := m.value;
      var width := Read(mv.width, texId);
      var height := Read(mv.height, texId);
      if width == 0 || height == 0 then None
      else
        var texAdr := Read(mv.adr, texId);
        var pixelCount := width * height;
        var nchannel := Read(mv.nchannel, texId);
        var srcByteCount := pixelCount * nchannel;
        if mv.data.Some? && 1 <= nchannel <= 4 && |mv.data.value| >= texAdr + srcByteCount then
          Some(Flat(width, height, Expanded(Slice(mv.data.value, texAdr, srcByteCount), nchannel, pixelCount, 1)))
        else None
  }

  /** The two 2D builders agree on when a texture exists; where both give
      one, the pixels differ only in the alpha of luminance and RGB data. */
  lemma BaseTextureAgrees(m: Option<TexModel>, texId: int)
    ensures BaseTexture(m, texId).Some? <==>
      (TextureOf(m, texId).Some? && TypeOf(m.value, texId) == Some(TEXTURE_2D))
    ensures BaseTexture(m, texId).Some? ==>
      var b := BaseTexture(m, texId).value;
      var t := TextureOf(m, texId).value;
      var n := Read(m.value.nchannel, texId);
      && t.Flat? && b.width == t.width && b.height == t.height && |b.rgba| == |t.rgba|
      && ((n == 2 || n == 4) ==> b.rgba == t.rgba)
  {
    if BaseTexture(m, texId).Some? {
      var mv := m.value;
      var n := Read(mv.nchannel, texId);
      var count := Read(mv.width, texId) * Read(mv.height, texId);
      var src := Slice(mv.data.value, Read(mv.adr, texId), count * n);
      if n == 2 || n == 4 {
        ExpandedFillIgnored(src, n, count, 1, 255);
      }
    }
  }

  /** Luminance-alpha and RGBA data do not read the alpha fill. */
  lemma {:induction false} ExpandedFillIgnored(src: seq<byte>, n: int, count: nat, a1: byte, a2: byte)
    requires n == 2 || n == 4
    ensures Expanded(src, n, count, a1) == Expanded(src, n, count, a2)
  {
    if count > 0 {
      ExpandedFillIgnored(src, n, count - 1, a1, a2);
    }
  }

  /** The luminance loop of `createBaseTexture`: alpha 1. */
  method BaseLuminance(src: seq<byte>, textureData: array<byte>)
    requires 4 * |src| == textureData.Length
    modifies textureData
    ensures textureData[..] == Expanded(src, 1, |src|, 1)
  {
    var i, d := 0, 0;
    while i < |src|
      invariant 0 <= i <= |src| && d == 4 * i
      invariant textureData[..d] == Expanded(src, 1, i, 1)
    {
      var l := src[i];
      PutTexel(textureData, d, [l, l, l, 1], src, 1, 1, i);
      i, d := i + 1, d + 4;
    }
    assert textureData[..] == textureData[..d];
  }

  /** The luminance-and-alpha loop of `createBaseTexture`. */
  method BaseLuminanceAlpha(src: seq<byte>, textureData: array<byte>, ghost count: nat)
    requires |src| == 2 * count && textureData.Length == 4 * count
    modifies textureData
    ensures textureData[..] == Expanded(src, 2, count, 1)
  {
    var i, d := 0, 0;
    ghost var p := 0;
    while i < |src|
      invariant 0 <= p <= count && i == 2 * p && d == 4 * p
      invariant textureData[..d] == Expanded(src, 2, p, 1)
    {
      var l := src[i + 0];
      var a := src[i + 1];
      TexelInRange(src, 2, 1, p);
      PutTexel(textureData, d, [l, l, l, a], src, 2, 1, p);
      i, d := i + 2, d + 4;
      p := p + 1;
    }
    assert textureData[..] == textureData[..d];
  }

  /** The RGB loop of `createBaseTexture`: alpha 1. */
  method BaseRGB(src: seq<byte>, textureData: array<byte>, ghost count: nat)
    requires |src| == 3 * count && textureData.Length == 4 * count
    modifies textureData
    ensures textureData[..] == Expanded(src, 3, count, 1)
  {
    var i, d := 0, 0;
    ghost var p := 0;
    while i < |src|
      invariant 0 <= p <= count && i == 3 * p && d == 4 * p
      invariant textureData[..d] == Expanded(src, 3, p, 1)
    {
      TexelInRange(src, 3, 1, p);
      PutTexel(textureData, d, [src[i + 0], src[i + 1], src[i + 2], 1], src, 3, 1, p);
      i, d := i + 3, d + 4;
      p := p + 1;
    }
    assert textureData[..] == textureData[..d];
  }

  /** The `switch (nchannel)` of `createBaseTexture`. */
  method ExpandBase(src: seq<byte>, textureData: array<byte>, nchannel: nat, ghost count: nat)
    requires 1 <= nchannel <= 4 && |src| == count * nchannel && textureData.Length == count * 4
    modifies textureData
    ensures textureData[..] == Expanded(src, nchannel, count, 1)
  {
    if nchannel == 1 {
      BaseLuminance(src, textureData);
    } else if nchannel == 2 {
      BaseLuminanceAlpha(src, textureData, count);
    } else if nchannel == 3 {
      BaseRGB(src, textureData, count);
    } else {
      CopyInto(src, textureData);
      ExpandedCopy(src, count, 1);
      assert textureData[..] == src;
    }
  }

  /** `createBaseTexture` as written (the colour-space flag is not modelled). */
  method CreateBaseTexture(m: Option<TexModel>, texId: int) returns (r: Option<Texture>)
    ensures r == BaseTexture(m, texId)
  {
    if m.None? || texId < 0 {
      return None;
    }
    var mv := m.value;
    if TypeOf(mv, texId) != Some(TEXTURE_2D) {
      return None;
    }
    var width := Read(mv.width, texId);
    var height := Read(mv.height, texId);
    if width == 0 || height == 0 {
      return None;
    }
    var texAdr := Read(mv.adr, texId);
    var pixelCount := width * height;
    var nchannel := Read(mv.nchannel, texId);
    var srcByteCount := pixelCount * nchannel;
    var textureData := new byte[pixelCount * 4](_ => 0);
    var hasValidData := false;
    if mv.data.Some? && nchannel >= 1 && nchannel <= 4 && |mv.data.value| >= texAdr + srcByteCount {
      var src := mv.data.value[texAdr..texAdr + srcByteCount];
      ExpandBase(src, textureData, nchannel, pixelCount);
      hasValidData := true;
    }
    if !hasValidData {
      return None;
    }
    return Some(Flat(width, height, textureData[..]));
  }
}
