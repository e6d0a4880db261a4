/** The `glm::quat` algebra the CPU-side pose code relies on: a quaternion is
    the tuple (w, x, y, z) with w the scalar part, `*` is the Hamilton
    product, and `glm::rotate(q, v)` is the sandwich q * (0, v) * conj(q).
    The sandwich is the same map the vertex shader's `quat_rotate` computes,
    and it agrees with glm's closed form for unit quaternions.

    ConjMul and the two distributive laws are proved one coordinate at a
    time, and MulAssoc through the Times terms at the end of the module;
    those helper lemmas only keep each proof obligation small. */
module Quaternion {
  import opened Vector

  datatype Quat = Quat(w: real, x: real, y: real, z: real)

  /** `glm::quat(1, 0, 0, 0)`, the rotation a default `bone_pose` holds. */
  const Identity: Quat := Quat(1.0, 0.0, 0.0, 0.0)

  /** The vector part (x, y, z). */
  function Im(q: Quat): Vec3 {
    Vec3(q.x, q.y, q.z)
  }

  /** The pure quaternion (0, v). */
  function Pure(v: Vec3): Quat {
    Quat(0.0, v.x, v.y, v.z)
  }

  /** Hamilton product, `q1 * q2` on `glm::quat`. */
  function Mul(a: Quat, b: Quat): Quat {
    Quat(a.w * b.w - a.x * b.x - a.y * b.y - a.z * b.z,
         a.w * b.x + a.x * b.w + a.y * b.z - a.z * b.y,
         a.w * b.y - a.x * b.z + a.y * b.w + a.z * b.x,
         a.w * b.z + a.x * b.y - a.y * b.x + a.z * b.w)
  }

  function Conj(q: Quat): Quat {
    Quat(q.w, -q.x, -q.y, -q.z)
  }

  /** `glm::rotate(q, v)`, modelled as the sandwich q * (0, v) * conj(q). */
  function Rotate(q: Quat, v: Vec3): Vec3 {
    Im(Mul(q, Mul(Pure(v), Conj(q))))
  }

  function QAdd(a: Quat, b: Quat): Quat {
    Quat(a.w + b.w, a.x + b.x, a.y + b.y, a.z + b.z)
  }

  function QScale(k: real, q: Quat): Quat {
    Quat(k * q.w, k * q.x, k * q.y, k * q.z)
  }

  lemma MulIdentity(q: Quat)
    ensures Mul(Identity, q) == q && Mul(q, Identity) == q
  {
  }

  /** The Hamilton product is associative, so a chain of rotations does not
      depend on how it is grouped. */
  lemma MulAssoc(a: Quat, b: Quat, c: Quat)
    ensures Mul(Mul(a, b), c) == Mul(a, Mul(b, c))
  {
    MulAsTerm(a, b);
    MulAsTerm(b, c);
    MulAsTerm(Mul(a, b), c);
    MulAsTerm(a, Mul(b, c));
    AssocTerms(a, b, c);
  }

  lemma ConjInvolution(q: Quat)
    ensures Conj(Conj(q)) == q
  {
  }

  /** Conjugation reverses products. */
  lemma ConjMul(a: Quat, b: Quat)
    ensures Conj(Mul(a, b)) == Mul(Conj(b), Conj(a))
  {
    ConjMulW(a, b);
    ConjMulX(a, b);
    ConjMulY(a, b);
    ConjMulZ(a, b);
  }

  // ConjMul one coordinate at a time, which keeps each obligation small.

  lemma ConjMulW(a: Quat, b: Quat)
    ensures Conj(Mul(a, b)).w == Mul(Conj(b), Conj(a)).w
  {
  }

  lemma ConjMulX(a: Quat, b: Quat)
    ensures Conj(Mul(a, b)).x == Mul(Conj(b), Conj(a)).x
  {
  }

  lemma ConjMulY(a: Quat, b: Quat)
    ensures Conj(Mul(a, b)).y == Mul(Conj(b), Conj(a)).y
  {
  }

  lemma ConjMulZ(a: Quat, b: Quat)
    ensures Conj(Mul(a, b)).z == Mul(Conj(b), Conj(a)).z
  {
  }

  // The product is bilinear; each law is proved one coordinate at a time.

  lemma MulAddLeft(p: Quat, q: Quat, r: Quat)
    ensures Mul(QAdd(p, q), r) == QAdd(Mul(p, r), Mul(q, r))
  {
    MulAddLeftW(p, q, r);
    MulAddLeftX(p, q, r);
    MulAddLeftY(p, q, r);
    MulAddLeftZ(p, q, r);
  }

  lemma MulAddLeftW(p: Quat, q: Quat, r: Quat)
    ensures Mul(QAdd(p, q), r).w == QAdd(Mul(p, r), Mul(q, r)).w
  {
  }

  lemma MulAddLeftX(p: Quat, q: Quat, r: Quat)
    ensures Mul(QAdd(p, q), r).x == QAdd(Mul(p, r), Mul(q, r)).x
  {
  }

  lemma MulAddLeftY(p: Quat, q: Quat, r: Quat)
    ensures Mul(QAdd(p, q), r).y == QAdd(Mul(p, r), Mul(q, r)).y
  {
  }

  lemma MulAddLeftZ(p: Quat, q: Quat, r: Quat)
    ensures Mul(QAdd(p, q), r).z == QAdd(Mul(p, r), Mul(q, r)).z
  {
  }

  lemma MulAddRight(r: Quat, p: Quat, q: Quat)
    ensures Mul(r, QAdd(p, q)) == QAdd(Mul(r, p), Mul(r, q))
  {
    MulAddRightW(r, p, q);
    MulAddRightX(r, p, q);
    MulAddRightY(r, p, q);
    MulAddRightZ(r, p, q);
  }

  lemma MulAddRightW(r: Quat, p: Quat, q: Quat)
    ensures Mul(r, QAdd(p, q)).w == QAdd(Mul(r, p), Mul(r, q)).w
  {
  }

  lemma MulAddRightX(r: Quat, p: Quat, q: Quat)
    ensures Mul(r, QAdd(p, q)).x == QAdd(Mul(r, p), Mul(r, q)).x
  {
  }

  lemma MulAddRightY(r: Quat, p: Quat, q: Quat)
    ensures Mul(r, QAdd(p, q)).y == QAdd(Mul(r, p), Mul(r, q)).y
  {
  }

  lemma MulAddRightZ(r: Quat, p: Quat, q: Quat)
    ensures Mul(r, QAdd(p, q)).z == QAdd(Mul(r, p), Mul(r, q)).z
  {
  }

  lemma MulScaleLeft(k: real, p: Quat, r: Quat)
    ensures Mul(QScale(k, p), r) == QScale(k, Mul(p, r))
  {
    ScalarCommutes(k, p);
    ScalarCommutes(k, Mul(p, r));
    MulAssoc(Quat(k, 0.0, 0.0, 0.0), p, r);
  }

  lemma MulScaleRight(k: real, r: Quat, p: Quat)
    ensures Mul(r, QScale(k, p)) == QScale(k, Mul(r, p))
  {
    ScalarCommutes(k, p);
    ScalarCommutes(k, Mul(r, p));
    MulAssoc(r, p, Quat(k, 0.0, 0.0, 0.0));
  }

  /** Scaling by k is multiplying by the real quaternion (k, 0, 0, 0), on
      either side. */
  lemma ScalarCommutes(k: real, q: Quat)
    ensures Mul(Quat(k, 0.0, 0.0, 0.0), q) == QScale(k, q)
    ensures Mul(q, Quat(k, 0.0, 0.0, 0.0)) == QScale(k, q)
  {
  }

  lemma PureScale(k: real, v: Vec3)
    ensures Pure(Scale(k, v)) == QScale(k, Pure(v))
  {
  }

  /** The sandwich of a pure quaternion is pure, whatever q is. */
  lemma SandwichIsPure(q: Quat, v: Vec3)
    ensures Mul(q, Mul(Pure(v), Conj(q))) == Pure(Rotate(q, v))
  {
  }

  lemma RotateIdentity(v: Vec3)
    ensures Rotate(Identity, v) == v
  {
    MulIdentity(Pure(v));
    MulIdentity(Mul(Pure(v), Conj(Identity)));
  }

  /** Rotation is linear (RotateAdd, RotateScale), so it fixes the zero
      vector. */
  lemma RotateZero(q: Quat)
    ensures Rotate(q, Zero) == Zero
  {
    RotateScale(q, 0.0, Zero);
    assert Scale(0.0, Zero) == Zero;
    assert Scale(0.0, Rotate(q, Zero)) == Zero;
  }

  lemma RotateAdd(q: Quat, u: Vec3, v: Vec3)
    ensures Rotate(q, Add(u, v)) == Add(Rotate(q, u), Rotate(q, v))
  {
    assert Pure(Add(u, v)) == QAdd(Pure(u), Pure(v));
    MulAddLeft(Pure(u), Pure(v), Conj(q));
    MulAddRight(q, Mul(Pure(u), Conj(q)), Mul(Pure(v), Conj(q)));
  }

  lemma RotateScale(q: Quat, k: real, v: Vec3)
    ensures Rotate(q, Scale(k, v)) == Scale(k, Rotate(q, v))
  {
    PureScale(k, v);
    MulScaleLeft(k, Pure(v), Conj(q));
    MulScaleRight(k, q, Mul(Pure(v), Conj(q)));
  }

  /** q and -q are the same rotation. */
  lemma RotateNegated(q: Quat, v: Vec3)
    ensures Rotate(QScale(-1.0, q), v) == Rotate(q, v)
  {
    var m := Mul(Pure(v), Conj(q));
    assert Conj(QScale(-1.0, q)) == QScale(-1.0, Conj(q));
    MulScaleRight(-1.0, Pure(v), Conj(q));
    MulScaleLeft(-1.0, q, QScale(-1.0, m));
    MulScaleRight(-1.0, q, m);
    assert QScale(-1.0, QScale(-1.0, Mul(q, m))) == Mul(q, m);
  }

  /** Rotating by a product is rotating by the right factor, then by the left. */
  lemma RotateMul(a: Quat, b: Quat, v: Vec3)
    ensures Rotate(Mul(a, b), v) == Rotate(a, Rotate(b, v))
  {
    var p := Pure(v);
    calc {
      Pure(Rotate(Mul(a, b), v));
      { SandwichIsPure(Mul(a, b), v); }
      Mul(Mul(a, b), Mul(p, Conj(Mul(a, b))));
      { ConjMul(a, b); }
      Mul(Mul(a, b), Mul(p, Mul(Conj(b), Conj(a))));
      { MulAssoc(p, Conj(b), Conj(a)); }
      Mul(Mul(a, b), Mul(Mul(p, Conj(b)), Conj(a)));
      { MulAssoc(a, b, Mul(Mul(p, Conj(b)), Conj(a))); }
      Mul(a, Mul(b, Mul(Mul(p, Conj(b)), Conj(a))));
      { MulAssoc(b, Mul(p, Conj(b)), Conj(a)); }
      Mul(a, Mul(Mul(b, Mul(p, Conj(b))), Conj(a)));
      { SandwichIsPure(b, v); }
      Mul(a, Mul(Pure(Rotate(b, v)), Conj(a)));
      { SandwichIsPure(a, Rotate(b, v)); }
      Pure(Rotate(a, Rotate(b, v)));
    }
  }

  // Proof of MulAssoc: Times, Plus and Minus are the real operations under
  // names the solver's rewriter leaves alone, so the nested coordinates stay
  // terms and the identity follows from TimesLaws.

  function Times(u: real, v: real): real { u * v }
  function Plus(u: real, v: real): real { u + v }
  function Minus(u: real, v: real): real { u - v }

  /** The coordinates of a * b, written with Times, Plus and Minus. */
  lemma MulAsTerm(a: Quat, b: Quat)
    ensures Mul(a, b) == Quat(Minus(Minus(Minus(Times(a.w, b.w), Times(a.x, b.x)), Times(a.y, b.y)), Times(a.z, b.z)),
                        Minus(Plus(Plus(Times(a.w, b.x), Times(a.x, b.w)), Times(a.y, b.z)), Times(a.z, b.y)),
                        Plus(Plus(Minus(Times(a.w, b.y), Times(a.x, b.z)), Times(a.y, b.w)), Times(a.z, b.x)),
                        Plus(Minus(Plus(Times(a.w, b.z), Times(a.x, b.y)), Times(a.y, b.x)), Times(a.z, b.w)))
  {
    ProductTerms(a.w, a.x, a.y, a.z, b.w, b.x, b.y, b.z);
  }


  /** The same coordinates over plain reals, where the solver compares the
      two polynomials directly. */
  lemma ProductTerms(pw: real, px: real, py: real, pz: real, qw: real, qx: real, qy: real, qz: real)
    ensures pw * qw - px * qx - py * qy - pz * qz
         == Minus(Minus(Minus(Times(pw, qw), Times(px, qx)), Times(py, qy)), Times(pz, qz))
    ensures pw * qx + px * qw + py * qz - pz * qy
         == Minus(Plus(Plus(Times(pw, qx), Times(px, qw)), Times(py, qz)), Times(pz, qy))
    ensures pw * qy - px * qz + py * qw + pz * qx
         == Plus(Plus(Minus(Times(pw, qy), Times(px, qz)), Times(py, qw)), Times(pz, qx))
    ensures pw * qz + px * qy - py * qx + pz * qw
         == Plus(Minus(Plus(Times(pw, qz), Times(px, qy)), Times(py, qx)), Times(pz, qw))
  {
  }

  lemma AssocTerms(a: Quat, b: Quat, c: Quat)
    ensures Quat(Minus(Minus(Minus(Times(Minus(Minus(Minus(Times(a.w, b.w), Times(a.x, b.x)), Times(a.y, b.y)), Times(a.z, b.z)), c.w), Times(Minus(Plus(Plus(Times(a.w, b.x), Times(a.x, b.w)), Times(a.y, b.z)), Times(a.z, b.y)), c.x)), Times(Plus(Plus(Minus(Times(a.w, b.y), Times(a.x, b.z)), Times(a.y, b.w)), Times(a.z, b.x)), c.y)), Times(Plus(Minus(Plus(Times(a.w, b.z), Times(a.x, b.y)), Times(a.y, b.x)), Times(a.z, b.w)), c.z)),
             Minus(Plus(Plus(Times(Minus(Minus(Minus(Times(a.w, b.w), Times(a.x, b.x)), Times(a.y, b.y)), Times(a.z, b.z)), c.x), Times(Minus(Plus(Plus(Times(a.w, b.x), Times(a.x, b.w)), Times(a.y, b.z)), Times(a.z, b.y)), c.w)), Times(Plus(Plus(Minus(Times(a.w, b.y), Times(a.x, b.z)), Times(a.y, b.w)), Times(a.z, b.x)), c.z)), Times(Plus(Minus(Plus(Times(a.w, b.z), Times(a.x, b.y)), Times(a.y, b.x)), Times(a.z, b.w)), c.y)),
             Plus(Plus(Minus(Times(Minus(Minus(Minus(Times(a.w, b.w), Times(a.x, b.x)), Times(a.y, b.y)), Times(a.z, b.z)), c.y), Times(Minus(Plus(Plus(Times(a.w, b.x), Times(a.x, b.w)), Times(a.y, b.z)), Times(a.z, b.y)), c.z)), Times(Plus(Plus(Minus(Times(a.w, b.y), Times(a.x, b.z)), Times(a.y, b.w)), Times(a.z, b.x)), c.w)), Times(Plus(Minus(Plus(Times(a.w, b.z), Times(a.x, b.y)), Times(a.y, b.x)), Times(a.z, b.w)), c.x)),
             Plus(Minus(Plus(Times(Minus(Minus(Minus(Times(a.w, b.w), Times(a.x, b.x)), Times(a.y, b.y)), Times(a.z, b.z)), c.z), Times(Minus(Plus(Plus(Times(a.w, b.x), Times(a.x, b.w)), Times(a.y, b.z)), Times(a.z, b.y)), c.y)), Times(Plus(Plus(Minus(Times(a.w, b.y), Times(a.x, b.z)), Times(a.y, b.w)), Times(a.z, b.x)), c.x)), Times(Plus(Minus(Plus(Times(a.w, b.z), Times(a.x, b.y)), Times(a.y, b.x)), Times(a.z, b.w)), c.w)))
         == Quat(Minus(Minus(Minus(Times(a.w, Minus(Minus(Minus(Times(b.w, c.w), Times(b.x, c.x)), Times(b.y, c.y)), Times(b.z, c.z))), Times(a.x, Minus(Plus(Plus(Times(b.w, c.x), Times(b.x, c.w)), Times(b.y, c.z)), Times(b.z, c.y)))), Times(a.y, Plus(Plus(Minus(Times(b.w, c.y), Times(b.x, c.z)), Times(b.y, c.w)), Times(b.z, c.x)))), Times(a.z, Plus(Minus(Plus(Times(b.w, c.z), Times(b.x, c.y)), Times(b.y, c.x)), Times(b.z, c.w)))),
             Minus(Plus(Plus(Times(a.w, Minus(Plus(Plus(Times(b.w, c.x), Times(b.x, c.w)), Times(b.y, c.z)), Times(b.z, c.y))), Times(a.x, Minus(Minus(Minus(Times(b.w, c.w), Times(b.x, c.x)), Times(b.y, c.y)), Times(b.z, c.z)))), Times(a.y, Plus(Minus(Plus(Times(b.w, c.z), Times(b.x, c.y)), Times(b.y, c.x)), Times(b.z, c.w)))), Times(a.z, Plus(Plus(Minus(Times(b.w, c.y), Times(b.x, c.z)), Times(b.y, c.w)), Times(b.z, c.x)))),
             Plus(Plus(Minus(Times(a.w, Plus(Plus(Minus(Times(b.w, c.y), Times(b.x, c.z)), Times(b.y, c.w)), Times(b.z, c.x))), Times(a.x, Plus(Minus(Plus(Times(b.w, c.z), Times(b.x, c.y)), Times(b.y, c.x)), Times(b.z, c.w)))), Times(a.y, Minus(Minus(Minus(Times(b.w, c.w), Times(b.x, c.x)), Times(b.y, c.y)), Times(b.z, c.z)))), Times(a.z, Minus(Plus(Plus(Times(b.w, c.x), Times(b.x, c.w)), Times(b.y, c.z)), Times(b.z, c.y)))),
             Plus(Minus(Plus(Times(a.w, Plus(Minus(Plus(Times(b.w, c.z), Times(b.x, c.y)), Times(b.y, c.x)), Times(b.z, c.w))), Times(a.x, Plus(Plus(Minus(Times(b.w, c.y), Times(b.x, c.z)), Times(b.y, c.w)), Times(b.z, c.x)))), Times(a.y, Minus(Plus(Plus(Times(b.w, c.x), Times(b.x, c.w)), Times(b.y, c.z)), Times(b.z, c.y)))), Times(a.z, Minus(Minus(Minus(Times(b.w, c.w), Times(b.x, c.x)), Times(b.y, c.y)), Times(b.z, c.z)))))
  {
    TimesLaws();
  }

  lemma TimesLaws()
    ensures forall u, v, w :: Times(Plus(u, v), w) == Plus(Times(u, w), Times(v, w))
    ensures forall u, v, w :: Times(Minus(u, v), w) == Minus(Times(u, w), Times(v, w))
    ensures forall u, v, w :: Times(u, Plus(v, w)) == Plus(Times(u, v), Times(u, w))
    ensures forall u, v, w :: Times(u, Minus(v, w)) == Minus(Times(u, v), Times(u, w))
    ensures forall u, v, w :: Times(Times(u, v), w) == Times(u, Times(v, w))
  {
  }
}
