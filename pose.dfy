/** `bone_pose` and its `operator*`: a bone's pose is a similarity
    transform (a rotation quaternion, a uniform scale and a translation),
    and `*` composes a parent pose with a child pose expressed in the
    parent's frame. */
module BonePose {
  import opened Vector
  import opened Quaternion

  datatype Pose = Pose(rotation: Quat, scale: real, translation: Vec3)

  /** A default-constructed `bone_pose`: rotation (1, 0, 0, 0), scale 1,
      translation 0. */
  const Default: Pose := Pose(Identity, 1.0, Zero)

  /** `p1 * p2`: rotations and scales multiply in p1-then-p2 order, and p2's
      translation is carried into p1's frame. */
  function Compose(p1: Pose, p2: Pose): Pose {
    Pose(Mul(p1.rotation, p2.rotation),
         p1.scale * p2.scale,
         Add(Scale(p1.scale, Rotate(p1.rotation, p2.translation)), p1.translation))
  }

  /** The map of points a pose stands for: v is rotated, scaled, then
      translated. */
  function Apply(p: Pose, v: Vec3): Vec3 {
    Add(Scale(p.scale, Rotate(p.rotation, v)), p.translation)
  }

  lemma ApplyDefault(v: Vec3)
    ensures Apply(Default, v) == v
  {
    RotateIdentity(v);
  }

  /** The default pose is a two-sided identity for `operator*`. */
  lemma DefaultIsIdentity(p: Pose)
    ensures Compose(Default, p) == p
    ensures Compose(p, Default) == p
  {
    MulIdentity(p.rotation);
    ApplyDefault(p.translation);
    RotateZero(p.rotation);
  }

  /** `operator*` composes the point maps: applying `p1 * p2` is applying p2
      and then p1. A child's world pose therefore maps child-local points to
      world points through the whole chain above it. */
  lemma ComposeApply(p1: Pose, p2: Pose, v: Vec3)
    ensures Apply(Compose(p1, p2), v) == Apply(p1, Apply(p2, v))
  {
    ApplyTwice(p1, p2, v);
    ApplyComposed(p1, p2, v);
    Regroup(p1.scale, p2.scale, Rotate(p1.rotation, Rotate(p2.rotation, v)),
            Rotate(p1.rotation, p2.translation), p1.translation);
  }

  /** Applying p2 then p1, with p1's rotation pushed through p2's map. */
  lemma ApplyTwice(p1: Pose, p2: Pose, v: Vec3)
    ensures Apply(p1, Apply(p2, v))
         == Add(Scale(p1.scale, Add(Scale(p2.scale, Rotate(p1.rotation, Rotate(p2.rotation, v))),
                                    Rotate(p1.rotation, p2.translation))),
                p1.translation)
  {
    RotateAdd(p1.rotation, Scale(p2.scale, Rotate(p2.rotation, v)), p2.translation);
    RotateScale(p1.rotation, p2.scale, Rotate(p2.rotation, v));
  }

  /** Applying p1 * p2, with the product rotation split into its factors. */
  lemma ApplyComposed(p1: Pose, p2: Pose, v: Vec3)
    ensures Apply(Compose(p1, p2), v)
         == Add(Scale(p1.scale * p2.scale, Rotate(p1.rotation, Rotate(p2.rotation, v))),
                Add(Scale(p1.scale, Rotate(p1.rotation, p2.translation)), p1.translation))
  {
    RotateMul(p1.rotation, p2.rotation, v);
  }

  lemma Regroup(k1: real, k2: real, w: Vec3, u: Vec3, t: Vec3)
    ensures Add(Scale(k1, Add(Scale(k2, w), u)), t) == Add(Scale(k1 * k2, w), Add(Scale(k1, u), t))
  {
  }

  /** Two poses that are the same transform: equal scales and translations,
      and rotation quaternions that are equal or opposite (q and -q are one
      rotation). */
  predicate SameUpToSign(p: Pose, q: Pose) {
    && p.scale == q.scale
    && p.translation == q.translation
    && (p.rotation == q.rotation || p.rotation == QScale(-1.0, q.rotation))
  }

  lemma SameUpToSignApply(p: Pose, q: Pose, v: Vec3)
    requires SameUpToSign(p, q)
    ensures Apply(p, v) == Apply(q, v)
  {
    if p.rotation != q.rotation {
      RotateNegated(q.rotation, v);
    }
  }

  lemma SameUpToSignTrans(p: Pose, q: Pose, r: Pose)
    requires SameUpToSign(p, q) && SameUpToSign(q, r)
    ensures SameUpToSign(p, r)
  {
    assert QScale(-1.0, QScale(-1.0, r.rotation)) == r.rotation;
  }

  /** A parent pose known only up to the sign of its rotation gives a
      child pose known up to the same sign. */
  lemma ComposeUpToSign(p: Pose, q: Pose, c: Pose)
    requires SameUpToSign(p, q)
    ensures SameUpToSign(Compose(p, c), Compose(q, c))
  {
    if p.rotation != q.rotation {
      MulScaleLeft(-1.0, q.rotation, c.rotation);
      RotateNegated(q.rotation, c.translation);
    }
  }

  /** `operator*` is associative, so composing down a chain of bones does
      not depend on how the products are grouped. */
  lemma ComposeAssoc(p1: Pose, p2: Pose, p3: Pose)
    ensures Compose(Compose(p1, p2), p3) == Compose(p1, Compose(p2, p3))
  {
    MulAssoc(p1.rotation, p2.rotation, p3.rotation);
    ScaleAssoc(p1.scale, p2.scale, p3.scale);
    ComposeApply(p1, p2, p3.translation);
  }

  lemma ScaleAssoc(a: real, b: real, c: real)
    ensures (a * b) * c == a * (b * c)
  {
  }
}
