/** Three-component vectors: the mutable `Vec` of the simulation and its
    value twin `V3`, on which all of the arithmetic is defined once.
    Components are `real`: floating-point rounding is not modelled. */
module Vectors {

  /** A vector as a value. */
  datatype V3 = V3(x: real, y: real, z: real)
  {
    /** Componentwise sum. */
    function Plus(b: V3): V3 {
      V3(x + b.x, y + b.y, z + b.z)
    }

    /** `this - b`, componentwise. */
    function Minus(b: V3): V3 {
      V3(x - b.x, y - b.y, z - b.z)
    }

    /** Every component multiplied by `k`. */
    function Scaled(k: real): V3 {
      V3(x * k, y * k, z * k)
    }

    /** Componentwise product (used where the simulation jitters a point). */
    function Times(b: V3): V3 {
      V3(x * b.x, y * b.y, z * b.z)
    }

    function Dot(b: V3): real {
      x * b.x + y * b.y + z * b.z
    }

    /** The SQUARED length, as the simulation's `Mag` computes it. */
    function Mag(): real {
      x * x + y * y + z * z
    }

    /** True when no component is exactly zero. */
    predicate AllNonZero() {
      x != 0.0 && y != 0.0 && z != 0.0
    }
  }

  const Zero := V3(0.0, 0.0, 0.0)

  /** The squared distance between two points. */
  function SqDist(a: V3, b: V3): real {
    a.Minus(b).Mag()
  }

  /** Adding vectors is commutative... */
  lemma PlusCommutes(a: V3, b: V3)
    ensures a.Plus(b) == b.Plus(a)
  {
  }

  /** ... and associative, so the order in which forces are added into a
      velocity does not change the sum. */
  lemma PlusAssociates(a: V3, b: V3, c: V3)
    ensures a.Plus(b).Plus(c) == a.Plus(b.Plus(c))
  {
  }

  /** `Mag` is the dot product of a vector with itself, hence never
      negative. */
  lemma MagIsSelfDot(v: V3)
    ensures v.Mag() == v.Dot(v)
    ensures v.Mag() >= 0.0
  {
    SquareNonNegative(v.x);
    SquareNonNegative(v.y);
    SquareNonNegative(v.z);
  }

  lemma SquareNonNegative(a: real)
    ensures a * a >= 0.0
  {
    if a < 0.0 {
      assert a * a == (-a) * (-a);
    }
  }

  lemma ZeroPlus(v: V3)
    ensures Zero.Plus(v) == v
  {
  }

  /** The worked examples of the vector unit tests: (1, 2, 3) + (4, 5, 6)
      is (5, 7, 9), and `Mag` of (3, 4, 0) is 25, the squared length. */
  lemma VecTestExamples()
    ensures V3(1.0, 2.0, 3.0).Plus(V3(4.0, 5.0, 6.0)) == V3(5.0, 7.0, 9.0)
    ensures V3(3.0, 4.0, 0.0).Mag() == 25.0
  {
  }

  /** The mutable vector of the simulation. Every method overwrites the
      receiver's three fields and reads its arguments' fields first, so each
      one is correct even when an argument is the receiver itself. */
  class Vec {
    var X: real
    var Y: real
    var Z: real

    /** The vector's current value. */
    function Value(): V3
      reads this
    {
      V3(X, Y, Z)
    }

    /** NewVec. */
    constructor (x: real, y: real, z: real)
      ensures Value() == V3(x, y, z)
    {
      X, Y, Z := x, y, z;
    }

    /** Adds `target` into the receiver. */
    method Add(target: Vec)
      modifies this
      ensures Value() == old(Value()).Plus(old(target.Value()))
      ensures target != this ==> target.Value() == old(target.Value())
    {
      X := X + target.X;
      Y := Y + target.Y;
      Z := Z + target.Z;
    }

    /** Overwrites the receiver with `target - current`, whatever it held. */
    method Sub(target: Vec, current: Vec)
      modifies this
      ensures Value() == old(target.Value()).Minus(old(current.Value()))
    {
      X := target.X - current.X;
      Y := target.Y - current.Y;
      Z := target.Z - current.Z;
    }

    method Mult(k: real)
      modifies this
      ensures Value() == old(Value()).Scaled(k)
      ensures k == 0.0 ==> Value() == Zero
    {
      X := X * k;
      Y := Y * k;
      Z := Z * k;
    }

    function Dot(another: Vec): (r: real)
      reads this, another
      ensures r == Value().Dot(another.Value())
      ensures r == another.Value().Dot(Value())
    {
      X * another.X + Y * another.Y + Z * another.Z
    }

    /** The squared length (not the length). */
    function Mag(): (r: real)
      reads this
      ensures r == Dot(this)
      ensures r >= 0.0
    {
      MagIsSelfDot(Value());
      X * X + Y * Y + Z * Z
    }

    /** The length, given the square-root function. */
    function Dist(sqrt: real -> real): real
      reads this
    {
      sqrt(Mag())
    }

    /** Divides the receiver by its length unless that length is exactly
        zero; the guard means no division by zero, and with any square-root
        function a zero vector stays zero. */
    method Normalize(sqrt: real -> real)
      modifies this
      ensures var d := sqrt(old(Mag())); var v := old(Value());
              Value() == if d != 0.0 then V3(v.x / d, v.y / d, v.z / d) else v
      ensures old(Value()) == Zero ==> Value() == Zero
    {
      var d := Dist(sqrt);
      if d != 0.0 {
        X := X / d;
        Y := Y / d;
        Z := Z / d;
      }
    }

    /** Makes the receiver equal to `another`. */
    method Copy(another: Vec)
      modifies this
      ensures Value() == old(another.Value())
      ensures another.Value() == old(another.Value())
    {
      X := another.X;
      Y := another.Y;
      Z := another.Z;
    }

    method Reset()
      modifies this
      ensures Value() == Zero
    {
      X := 0.0;
      Y := 0.0;
      Z := 0.0;
    }
  }
}
