/** The three-component vector of the math library. Components are reals; the
    library's single-precision rounding is not modelled. A square root has no
    closed form here, so a magnitude is the relation IsMagnitude between a
    vector and a non-negative number whose square is the vector's sum of
    squares; a comparison "distance <= bound" is decided exactly on squares. */
module Vec3 {

  import opened Reals

  datatype Vector3 = Vector3(x: real, y: real, z: real)

  /** `new Vector3()`: every component zero. */
  const Zero := Vector3(0.0, 0.0, 0.0)

  /** The unit vectors along the three axes. */
  const UnitX := Vector3(1.0, 0.0, 0.0)
  const UnitY := Vector3(0.0, 1.0, 0.0)
  const UnitZ := Vector3(0.0, 0.0, 1.0)

  // ---------------------------------------------------------------------------
  // Operators

  /** operator + */
  function Add(lhs: Vector3, rhs: Vector3): Vector3 {
    Vector3(lhs.x + rhs.x, lhs.y + rhs.y, lhs.z + rhs.z)
  }

  /** operator - */
  function Subtract(lhs: Vector3, rhs: Vector3): Vector3 {
    Vector3(lhs.x - rhs.x, lhs.y - rhs.y, lhs.z - rhs.z)
  }

  /** operator * on two vectors: componentwise product */
  function Multiply(lhs: Vector3, rhs: Vector3): Vector3 {
    Vector3(lhs.x * rhs.x, lhs.y * rhs.y, lhs.z * rhs.z)
  }

  /** operator / on two vectors: componentwise quotient */
  function Divide(lhs: Vector3, rhs: Vector3): Vector3
    requires rhs.x != 0.0 && rhs.y != 0.0 && rhs.z != 0.0
  {
    Vector3(lhs.x / rhs.x, lhs.y / rhs.y, lhs.z / rhs.z)
  }

  /** operator * with a scalar */
  function MultiplyScalar(vector: Vector3, scaler: real): Vector3 {
    Vector3(vector.x * scaler, vector.y * scaler, vector.z * scaler)
  }

  /** operator / with a scalar */
  function DivideScalar(vector: Vector3, scaler: real): Vector3
    requires scaler != 0.0
  {
    Vector3(vector.x / scaler, vector.y / scaler, vector.z / scaler)
  }

  /** operator == */
  predicate Equals(lhs: Vector3, rhs: Vector3) {
    lhs.x == rhs.x && lhs.y == rhs.y && lhs.z == rhs.z
  }

  /** operator != */
  predicate NotEquals(lhs: Vector3, rhs: Vector3) {
    lhs.x != rhs.x || lhs.y != rhs.y || lhs.z != rhs.z
  }

  /** Each operator acts on x, y and z independently: subtraction undoes
      addition, and addition undoes subtraction. */
  lemma SubtractUndoesAdd(a: Vector3, b: Vector3)
    ensures Subtract(Add(a, b), b) == a
    ensures Add(Subtract(a, b), b) == a
  {
  }

  lemma AddCommutative(a: Vector3, b: Vector3)
    ensures Add(a, b) == Add(b, a)
  {
  }

  /** Componentwise division undoes componentwise multiplication. */
  lemma DivideUndoesMultiply(a: Vector3, b: Vector3)
    requires b.x != 0.0 && b.y != 0.0 && b.z != 0.0
    ensures Divide(Multiply(a, b), b) == a
  {
  }

  /** Division by a scalar undoes multiplication by it, on every component. */
  lemma DivideScalarUndoesMultiplyScalar(v: Vector3, s: real)
    requires s != 0.0
    ensures DivideScalar(MultiplyScalar(v, s), s) == v
    ensures MultiplyScalar(DivideScalar(v, s), s) == v
  {
  }

  /** == is true exactly for equal vectors, and != is its negation. */
  lemma EqualityOperators(a: Vector3, b: Vector3)
    ensures Equals(a, b) <==> a == b
    ensures NotEquals(a, b) <==> !Equals(a, b)
  {
  }

  // ---------------------------------------------------------------------------
  // Products

  /** DotProduct as the library writes it: the z terms are added, not multiplied. */
  function DotProduct(lhs: Vector3, rhs: Vector3): real {
    lhs.x * rhs.x + lhs.y * rhs.y + lhs.z + rhs.z
  }

  /** The inner product that DotProduct is evidently meant to compute. */
  function CorrectedDotProduct(lhs: Vector3, rhs: Vector3): real {
    lhs.x * rhs.x + lhs.y * rhs.y + lhs.z * rhs.z
  }

  function CrossProduct(lhs: Vector3, rhs: Vector3): Vector3 {
    Vector3(lhs.y * rhs.z - lhs.z * rhs.y,
            lhs.z * rhs.x - lhs.x * rhs.z,
            lhs.x * rhs.y - lhs.y * rhs.x)
  }

  /** The dot product as written is symmetric, but against the zero vector it
      yields the other vector's z instead of zero. */
  lemma DotProductAsWritten(a: Vector3, b: Vector3)
    ensures DotProduct(a, b) == DotProduct(b, a)
    ensures DotProduct(a, Zero) == a.z
    ensures DotProduct(a, b) == CorrectedDotProduct(a, b) + a.z + b.z - a.z * b.z
  {
  }

  /** The as-written dot product of (0, 0, 1) with its cross product by
      (1, 0, 0), which is (0, 1, 0), is 1 where an inner product gives 0. */
  lemma DotProductCounterexample()
    ensures CrossProduct(UnitZ, UnitX) == UnitY
    ensures DotProduct(UnitZ, UnitY) == 1.0 && CorrectedDotProduct(UnitZ, UnitY) == 0.0
  {
    assert CrossProduct(UnitZ, UnitX) == Vector3(0.0 * 0.0 - 1.0 * 0.0, 1.0 * 1.0 - 0.0 * 0.0, 0.0 * 0.0 - 0.0 * 1.0);
  }

  /** The as-written "dot product" of (0, 0, 1) with itself is 2, not its
      squared length 1. */
  lemma DotProductWithItselfCounterexample()
    ensures DotProduct(UnitZ, UnitZ) == 2.0
    ensures SqrMagnitude(UnitZ) == 1.0
  {
    assert DotProduct(UnitZ, UnitZ) == 2.0;
  }

  /** The corrected dot product is symmetric, gives the squared length of a
      vector with itself, and is zero between a cross product and either factor. */
  lemma CorrectedDotProductProperties(a: Vector3, b: Vector3)
    ensures CorrectedDotProduct(a, b) == CorrectedDotProduct(b, a)
    ensures CorrectedDotProduct(a, a) == SqrMagnitude(a)
    ensures CorrectedDotProduct(a, CrossProduct(a, b)) == 0.0
    ensures CorrectedDotProduct(b, CrossProduct(a, b)) == 0.0
  {
  }

  /** The cross product is antisymmetric and vanishes on equal arguments. */
  lemma CrossProductAntisymmetric(a: Vector3, b: Vector3)
    ensures Add(CrossProduct(a, b), CrossProduct(b, a)) == Zero
    ensures CrossProduct(a, a) == Zero
  {
  }

  // ---------------------------------------------------------------------------
  // Magnitude, Distance, Normalize

  /** The quantity under the square root in Magnitude. */
  function SqrMagnitude(v: Vector3): real {
    Sqr(v.x) + Sqr(v.y) + Sqr(v.z)
  }

  /** m is Math.Sqrt(x*x + y*y + z*z) for v, taken as the exact real root. */
  predicate IsMagnitude(v: Vector3, m: real) {
    m >= 0.0 && Sqr(m) == SqrMagnitude(v)
  }

  /** d is Distance(lhs, rhs), that is (rhs - lhs).Magnitude. */
  predicate IsDistance(lhs: Vector3, rhs: Vector3, d: real) {
    IsMagnitude(Subtract(rhs, lhs), d)
  }

  /** Distance(lhs, rhs) <= bound, decided without taking a root. */
  predicate DistanceAtMost(lhs: Vector3, rhs: Vector3, bound: real) {
    bound >= 0.0 && SqrMagnitude(Subtract(rhs, lhs)) <= Sqr(bound)
  }

  lemma SqrMagnitudeNonNegative(v: Vector3)
    ensures SqrMagnitude(v) >= 0.0
    ensures SqrMagnitude(v) == 0.0 <==> v == Zero
  {
    SqrNonNeg(v.x);
    SqrNonNeg(v.y);
    SqrNonNeg(v.z);
    SqrZero(v.x);
    SqrZero(v.y);
    SqrZero(v.z);
  }

  /** Squared magnitudes compare as their components do. */
  lemma SqrMagnitudeLe(u: Vector3, v: Vector3)
    requires Sqr(u.x) <= Sqr(v.x) && Sqr(u.y) <= Sqr(v.y) && Sqr(u.z) <= Sqr(v.z)
    ensures SqrMagnitude(u) <= SqrMagnitude(v)
  {
  }

  /** At most one number is the magnitude of a vector. */
  lemma MagnitudeUnique(v: Vector3, m1: real, m2: real)
    requires IsMagnitude(v, m1) && IsMagnitude(v, m2)
    ensures m1 == m2
  {
    SqrMono(m1, m2);
    SqrMono(m2, m1);
  }

  /** The magnitude is zero exactly for the zero vector. */
  lemma MagnitudeZeroIff(v: Vector3, m: real)
    requires IsMagnitude(v, m)
    ensures m == 0.0 <==> v == Zero
  {
    SqrMagnitudeNonNegative(v);
    SqrZero(m);
  }

  /** Distance does not depend on the order of its arguments. */
  lemma DistanceSymmetric(a: Vector3, b: Vector3, d: real)
    ensures IsDistance(a, b, d) <==> IsDistance(b, a, d)
  {
    var u, v := Subtract(b, a), Subtract(a, b);
    assert u.x == -v.x && u.y == -v.y && u.z == -v.z;
    SqrNeg(v.x);
    SqrNeg(v.y);
    SqrNeg(v.z);
  }

  /** The root-free comparison agrees with comparing the distance itself. */
  lemma DistanceAtMostIff(lhs: Vector3, rhs: Vector3, d: real, bound: real)
    requires IsDistance(lhs, rhs, d)
    ensures DistanceAtMost(lhs, rhs, bound) <==> d <= bound
  {
    if bound >= 0.0 {
      SqrMono(d, bound);
    }
  }

  /** A point is within a bound of itself exactly when the bound is
      non-negative. */
  lemma DistanceAtMostSelf(p: Vector3, bound: real)
    ensures DistanceAtMost(p, p, bound) <==> bound >= 0.0
  {
    assert Subtract(p, p) == Zero;
    SqrNonNeg(bound);
  }

  /** Normalize on a receiver v, given the magnitude the library computes for
      it. Returns the result and the receiver as it is after the call: a zero
      magnitude returns a fresh zero vector and leaves the receiver alone;
      otherwise the receiver is divided by its magnitude and returned. */
  method Normalize(v: Vector3, magnitude: real) returns (result: Vector3, receiver: Vector3)
    requires IsMagnitude(v, magnitude)
    ensures v == Zero ==> result == Zero && receiver == v
    ensures v != Zero ==> result == receiver && IsMagnitude(result, 1.0)
    ensures v != Zero ==> MultiplyScalar(result, magnitude) == v
  {
    MagnitudeZeroIff(v, magnitude);
    if magnitude == 0.0 {
      result, receiver := Zero, v;
      return;
    }
    receiver := DivideScalar(v, magnitude);
    result := receiver;
    UnitAfterDivide(v, magnitude);
  }

  /** The Normalized property: Normalize applied to a copy of v, so that v
      itself is left as it was. */
  method Normalized(v: Vector3, magnitude: real) returns (result: Vector3)
    requires IsMagnitude(v, magnitude)
    ensures v == Zero ==> result == Zero
    ensures v != Zero ==> IsMagnitude(result, 1.0) && MultiplyScalar(result, magnitude) == v
  {
    var value := v;
    var normalizedCopy;
    result, normalizedCopy := Normalize(value, magnitude);
  }

  /** Dividing a non-zero vector by its magnitude gives squared length 1. */
  lemma UnitAfterDivide(v: Vector3, m: real)
    requires IsMagnitude(v, m) && m != 0.0
    ensures SqrMagnitude(DivideScalar(v, m)) == 1.0
  {
    var u := DivideScalar(v, m);
    var a, b, c, s := Sqr(u.x), Sqr(u.y), Sqr(u.z), Sqr(m);
    SqrDiv(v.x, m);
    SqrDiv(v.y, m);
    SqrDiv(v.z, m);
    assert u.x == v.x / m && u.y == v.y / m && u.z == v.z / m;
    assert a * s + b * s + c * s == SqrMagnitude(v);
    assert (a + b + c) * s == a * s + b * s + c * s;
    assert SqrMagnitude(u) == a + b + c;
    assert SqrMagnitude(u) * s == Sqr(m);
    SqrZero(m);
    MulCancel(SqrMagnitude(u), 1.0, s);
  }

  // ---------------------------------------------------------------------------
  // GetRadian / GetDegree

  /** The clamp GetRadian and GetDegree apply to a dot product before
      Math.Acos: values above 1 become 1, values below -1 become -1. */
  method ClampDotProduct(dotProduct: real) returns (clamped: real)
    ensures -1.0 <= clamped <= 1.0
    ensures -1.0 <= dotProduct <= 1.0 ==> clamped == dotProduct
    ensures dotProduct > 1.0 ==> clamped == 1.0
    ensures dotProduct < -1.0 ==> clamped == -1.0
  {
    clamped := dotProduct;
    if clamped > 1.0 {
      clamped := 1.0;
    }
    if clamped < -1.0 {
      clamped := -1.0;
    }
  }

  /** The argument GetRadian(lhs, rhs) and GetDegree(lhs, rhs) pass to
      Math.Acos: the as-written dot product, clamped to [-1, 1]. */
  method AcosArgument(lhs: Vector3, rhs: Vector3) returns (clamped: real)
    ensures -1.0 <= clamped <= 1.0
    ensures -1.0 <= DotProduct(lhs, rhs) <= 1.0 ==> clamped == DotProduct(lhs, rhs)
    ensures DotProduct(lhs, rhs) > 1.0 ==> clamped == 1.0
    ensures DotProduct(lhs, rhs) < -1.0 ==> clamped == -1.0
  {
    clamped := ClampDotProduct(DotProduct(lhs, rhs));
  }
}
