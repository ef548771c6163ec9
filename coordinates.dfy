/**
 * Coordinate conventions between MuJoCo (z up) and three.js (y up): the
 * vector conversions of `coordinate.ts` and the buffer readers `getPosition`,
 * `getQuaternion` and `toMujocoPos` shared by the two scene loaders.
 * Components are exact reals; single-precision storage is not modelled.
 */
module Coordinates {

  datatype Vec3 = Vec3(x: real, y: real, z: real)

  /** A three.js quaternion, in the argument order of `Quaternion.set(x, y, z, w)`. */
  datatype Quat = Quat(x: real, y: real, z: real, w: real)

  /** `mjcToThreeCoordinate`: (x, y, z) becomes (x, z, -y). */
  function MjcToThree(v: Vec3): Vec3
  {
    Vec3(v.x, v.z, -v.y)
  }

  /** `threeToMjcCoordinate` (and `toMujocoPos`): (x, y, z) becomes (x, -z, y). */
  function ThreeToMjc(v: Vec3): Vec3
  {
    Vec3(v.x, -v.z, v.y)
  }

  /** Converting to three.js and back gives the MuJoCo vector. */
  lemma ThreeToMjcInverse(v: Vec3)
    ensures ThreeToMjc(MjcToThree(v)) == v
  {
  }

  /** Converting to MuJoCo and back gives the three.js vector. */
  lemma MjcToThreeInverse(v: Vec3)
    ensures MjcToThree(ThreeToMjc(v)) == v
  {
  }

  /** The conversion is a rotation about x: it keeps lengths. */
  lemma MjcToThreeKeepsLength(v: Vec3)
    ensures var r := MjcToThree(v); r.x * r.x + r.y * r.y + r.z * r.z == v.x * v.x + v.y * v.y + v.z * v.z
  {
  }

  /** The triple stored at `index` of a flat position buffer. */
  function Stored(buffer: seq<real>, index: nat): Vec3
    requires 3 * index + 2 < |buffer|
  {
    Vec3(buffer[3 * index], buffer[3 * index + 1], buffer[3 * index + 2])
  }

  /** `getPosition(buffer, index, target, swizzle)`. */
  function GetPosition(buffer: seq<real>, index: nat, swizzle: bool): (r: Vec3)
    requires 3 * index + 2 < |buffer|
    ensures swizzle ==> r == MjcToThree(Stored(buffer, index))
    ensures !swizzle ==> r == Stored(buffer, index)
  {
    if swizzle then Vec3(buffer[3 * index], buffer[3 * index + 2], -buffer[3 * index + 1])
    else Vec3(buffer[3 * index], buffer[3 * index + 1], buffer[3 * index + 2])
  }

  /** `toMujocoPos(target)`. */
  function ToMujocoPos(target: Vec3): (r: Vec3)
    ensures r == ThreeToMjc(target)
  {
    Vec3(target.x, -target.z, target.y)
  }

  /** Reading a swizzled position and converting it back gives the stored triple. */
  lemma PositionRoundTrip(buffer: seq<real>, index: nat)
    requires 3 * index + 2 < |buffer|
    ensures ToMujocoPos(GetPosition(buffer, index, true)) == Stored(buffer, index)
  {
    ThreeToMjcInverse(Stored(buffer, index));
  }

  /** `getQuaternion(buffer, index, target, swizzle)`: MuJoCo stores (w, x, y, z). */
  function GetQuaternion(buffer: seq<real>, index: nat, swizzle: bool): Quat
    requires 4 * index + 3 < |buffer|
  {
    if swizzle then Quat(-buffer[4 * index + 1], -buffer[4 * index + 3], buffer[4 * index + 2], -buffer[4 * index])
    else Quat(buffer[4 * index], buffer[4 * index + 1], buffer[4 * index + 2], buffer[4 * index + 3])
  }

  /** The swizzled quaternion is the negation of the stored one with its
      vector part converted to three.js axes (the same rotation, since q and
      -q rotate alike); unswizzled, the four numbers are copied in order. */
  lemma QuaternionSwizzle(buffer: seq<real>, index: nat)
    requires 4 * index + 3 < |buffer|
    ensures var w := buffer[4 * index];
      var v := MjcToThree(Vec3(buffer[4 * index + 1], buffer[4 * index + 2], buffer[4 * index + 3]));
      GetQuaternion(buffer, index, true) == Quat(-v.x, -v.y, -v.z, -w)
    ensures GetQuaternion(buffer, index, false)
         == Quat(buffer[4 * index], buffer[4 * index + 1], buffer[4 * index + 2], buffer[4 * index + 3])
  {
  }
}
