/** The 3x4 affine maps that carry sensor-space points into scene space,
    and the real functions the simulation borrows from its maths library.
    Square root, arc cosine, cosine and sine have no Dafny counterpart, so
    callers supply them as total functions; nothing is assumed about them. */
module Affines {
  import opened Vectors

  /** The maths-library functions, as given by the caller. */
  datatype RealFns = RealFns(
    sqrt: real -> real,
    acos: real -> real,
    cos: real -> real,
    sin: real -> real)

  /** p' = M p + t, the rows of M followed by the translation column. */
  datatype Affine = Affine(
    m00: real, m01: real, m02: real, tx: real,
    m10: real, m11: real, m12: real, ty: real,
    m20: real, m21: real, m22: real, tz: real)
  {
    function Transform(p: V3): V3 {
      V3(m00 * p.x + m01 * p.y + m02 * p.z + tx,
         m10 * p.x + m11 * p.y + m12 * p.z + ty,
         m20 * p.x + m21 * p.y + m22 * p.z + tz)
    }
  }

  function Identity(): Affine {
    Affine(1.0, 0.0, 0.0, 0.0,
           0.0, 1.0, 0.0, 0.0,
           0.0, 0.0, 1.0, 0.0)
  }

  /** Rotation about the x axis by `theta`. */
  function RotateX(theta: real, f: RealFns): Affine {
    var c := f.cos(theta);
    var s := f.sin(theta);
    Affine(1.0, 0.0, 0.0, 0.0,
           0.0, c, -s, 0.0,
           0.0, s, c, 0.0)
  }

  function Scale(sx: real, sy: real, sz: real): Affine {
    Affine(sx, 0.0, 0.0, 0.0,
           0.0, sy, 0.0, 0.0,
           0.0, 0.0, sz, 0.0)
  }

  function Translate(tx: real, ty: real, tz: real): Affine {
    Affine(1.0, 0.0, 0.0, tx,
           0.0, 1.0, 0.0, ty,
           0.0, 0.0, 1.0, tz)
  }

  /** The single affine map that applies `a` and then `b`: the matrix
      product, with translation b.M a.t + b.t. An independent reference for
      chaining transforms one after the other. */
  function Compose(b: Affine, a: Affine): Affine {
    Affine(
      b.m00 * a.m00 + b.m01 * a.m10 + b.m02 * a.m20,
      b.m00 * a.m01 + b.m01 * a.m11 + b.m02 * a.m21,
      b.m00 * a.m02 + b.m01 * a.m12 + b.m02 * a.m22,
      b.m00 * a.tx + b.m01 * a.ty + b.m02 * a.tz + b.tx,
      b.m10 * a.m00 + b.m11 * a.m10 + b.m12 * a.m20,
      b.m10 * a.m01 + b.m11 * a.m11 + b.m12 * a.m21,
      b.m10 * a.m02 + b.m11 * a.m12 + b.m12 * a.m22,
      b.m10 * a.tx + b.m11 * a.ty + b.m12 * a.tz + b.ty,
      b.m20 * a.m00 + b.m21 * a.m10 + b.m22 * a.m20,
      b.m20 * a.m01 + b.m21 * a.m11 + b.m22 * a.m21,
      b.m20 * a.m02 + b.m21 * a.m12 + b.m22 * a.m22,
      b.m20 * a.tx + b.m21 * a.ty + b.m22 * a.tz + b.tz)
  }

  lemma IdentityFixes(p: V3)
    ensures Identity().Transform(p) == p
  {
  }

  lemma TranslateAdds(tx: real, ty: real, tz: real, p: V3)
    ensures Translate(tx, ty, tz).Transform(p) == p.Plus(V3(tx, ty, tz))
  {
  }

  lemma ScaleMultiplies(sx: real, sy: real, sz: real, p: V3)
    ensures Scale(sx, sy, sz).Transform(p) == p.Times(V3(sx, sy, sz))
  {
  }

  /** A rotation about x keeps the x coordinate, and when its cosine and sine
      satisfy c^2 + s^2 = 1 it keeps the squared length. */
  lemma RotateXIsRigid(theta: real, f: RealFns, p: V3)
    ensures RotateX(theta, f).Transform(p).x == p.x
    ensures var c, s := f.cos(theta), f.sin(theta);
            c * c + s * s == 1.0 ==> RotateX(theta, f).Transform(p).Mag() == p.Mag()
  {
    var c, s := f.cos(theta), f.sin(theta);
    var q := RotateX(theta, f).Transform(p);
    assert q.y == c * p.y - s * p.z && q.z == s * p.y + c * p.z;
    calc {
      q.y * q.y + q.z * q.z;
    ==
      (c * c + s * s) * (p.y * p.y) + (c * c + s * s) * (p.z * p.z);
    }
  }

  /** Applying the composed map is applying the two maps in turn. */
  lemma ComposeApplies(b: Affine, a: Affine, p: V3)
    ensures Compose(b, a).Transform(p) == b.Transform(a.Transform(p))
  {
    var q := a.Transform(p);
    var r := Compose(b, a).Transform(p);
    assert r.x == b.m00 * q.x + b.m01 * q.y + b.m02 * q.z + b.tx;
    assert r.y == b.m10 * q.x + b.m11 * q.y + b.m12 * q.z + b.ty;
    assert r.z == b.m20 * q.x + b.m21 * q.y + b.m22 * q.z + b.tz;
  }
}
