/**
 * The command-line helper that turns a pose read off the Unreal engine
 * (position in centimetres, left-handed axes, quaternion `qx qy qz qw`) into
 * the right-handed pose in metres that the knowledge base expects.
 *
 * Real arithmetic stands for Python floats: the division by 100 is exact here.
 */
module UnrealPose {

  /** The seven command-line arguments, in the order the parser declares them. */
  datatype UnrealPose = UnrealPose(x: real, y: real, z: real, qx: real, qy: real, qz: real, qw: real)

  /** `[p / 100.0 for p in pos_cm]`: centimetres to metres, component by component. */
  function CentimetresToMetres(pos: seq<real>): (r: seq<real>)
    ensures |r| == |pos|
    ensures forall i | 0 <= i < |pos| :: r[i] * 100.0 == pos[i]
  {
    seq(|pos|, i requires 0 <= i < |pos| => pos[i] / 100.0)
  }

  /** `[pos[1], pos[0], pos[2]]`: exchanges the x and y axes. */
  function SwapXY(pos: seq<real>): (r: seq<real>)
    requires |pos| == 3
    ensures |r| == 3
  {
    [pos[1], pos[0], pos[2]]
  }

  /** Exchanging the axes twice is the identity. */
  lemma SwapXYInvolutive(pos: seq<real>)
    requires |pos| == 3
    ensures SwapXY(SwapXY(pos)) == pos
  {
  }

  /** `[-qx, qy, -qz, qw]`: mirrors the rotation for the change of handedness. */
  function FlipOrientation(q: seq<real>): (r: seq<real>)
    requires |q| == 4
    ensures |r| == 4
  {
    [-q[0], q[1], -q[2], q[3]]
  }

  /** Applying the sign flip twice is the identity. */
  lemma FlipOrientationInvolutive(q: seq<real>)
    requires |q| == 4
    ensures FlipOrientation(FlipOrientation(q)) == q
  {
  }

  /** The printed list `pos_rhs + ori_rhs`. */
  function ToRightHanded(p: UnrealPose): (r: seq<real>)
    ensures |r| == 7
  {
    SwapXY(CentimetresToMetres([p.x, p.y, p.z])) + FlipOrientation([p.qx, p.qy, p.qz, p.qw])
  }

  /** The inverse transform: from a right-handed pose in metres back to Unreal's. */
  function ToUnreal(r: seq<real>): (p: UnrealPose)
    requires |r| == 7
  {
    UnrealPose(r[1] * 100.0, r[0] * 100.0, r[2] * 100.0, -r[3], r[4], -r[5], r[6])
  }

  /** Component by component: metres, y and x exchanged, z kept, qx and qz negated. */
  lemma ToRightHandedComponents(p: UnrealPose)
    ensures var r := ToRightHanded(p);
      && r[0] == p.y / 100.0 && r[1] == p.x / 100.0 && r[2] == p.z / 100.0
      && r[3] == -p.qx && r[4] == p.qy && r[5] == -p.qz && r[6] == p.qw
  {
    var m := CentimetresToMetres([p.x, p.y, p.z]);
    assert m[0] == p.x / 100.0 && m[1] == p.y / 100.0 && m[2] == p.z / 100.0;
  }

  /** Converting and then converting back gives the original Unreal pose. */
  lemma {:induction false} ToUnrealInvertsToRightHanded(p: UnrealPose)
    ensures ToUnreal(ToRightHanded(p)) == p
  {
    ToRightHandedComponents(p);
  }

  /** The conversion is onto: every seven-value right-handed pose comes from exactly one Unreal pose. */
  lemma {:induction false} ToRightHandedInvertsToUnreal(r: seq<real>)
    requires |r| == 7
    ensures ToRightHanded(ToUnreal(r)) == r
  {
    var q := ToRightHanded(ToUnreal(r));
    ToRightHandedComponents(ToUnreal(r));
    assert forall i | 0 <= i < 7 :: q[i] == r[i];
  }

  /** Different Unreal poses give different right-handed poses. */
  lemma ToRightHandedInjective(p: UnrealPose, p': UnrealPose)
    requires ToRightHanded(p) == ToRightHanded(p')
    ensures p == p'
  {
    ToUnrealInvertsToRightHanded(p);
    ToUnrealInvertsToRightHanded(p');
  }
}
