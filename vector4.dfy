/** The four-component vector of the math library. Its magnitude, distance
    and dot product look only at x, y and z; the scalar operators scale x, y
    and z and carry w over unchanged, while the componentwise operators and
    == act on all four components. Components are reals, as in Vec3. */
module Vec4 {

  import opened Reals
  import Vec3

  datatype Vector4 = Vector4(x: real, y: real, z: real, w: real)

  /** `new Vector4()`: every component zero. */
  const Zero := Vector4(0.0, 0.0, 0.0, 0.0)

  /** The x, y and z components, as a three-component vector. */
  function XYZ(v: Vector4): Vec3.Vector3 {
    Vec3.Vector3(v.x, v.y, v.z)
  }

  // ---------------------------------------------------------------------------
  // Operators

  /** operator + */
  function Add(lhs: Vector4, rhs: Vector4): Vector4 {
    Vector4(lhs.x + rhs.x, lhs.y + rhs.y, lhs.z + rhs.z, lhs.w + rhs.w)
  }

  /** operator - */
  function Subtract(lhs: Vector4, rhs: Vector4): Vector4 {
    Vector4(lhs.x - rhs.x, lhs.y - rhs.y, lhs.z - rhs.z, lhs.w - rhs.w)
  }

  /** operator * on two vectors: componentwise product */
  function Multiply(lhs: Vector4, rhs: Vector4): Vector4 {
    Vector4(lhs.x * rhs.x, lhs.y * rhs.y, lhs.z * rhs.z, lhs.w * rhs.w)
  }

  /** operator / on two vectors: componentwise quotient */
  function Divide(lhs: Vector4, rhs: Vector4): Vector4
    requires rhs.x != 0.0 && rhs.y != 0.0 && rhs.z != 0.0 && rhs.w != 0.0
  {
    Vector4(lhs.x / rhs.x, lhs.y / rhs.y, lhs.z / rhs.z, lhs.w / rhs.w)
  }

  /** operator * with a scalar: w is carried over, not scaled */
  function MultiplyScalar(vector: Vector4, scaler: real): Vector4 {
    Vector4(vector.x * scaler, vector.y * scaler, vector.z * scaler, vector.w)
  }

  /** operator / with a scalar: w is carried over, not divided */
  function DivideScalar(vector: Vector4, scaler: real): Vector4
    requires scaler != 0.0
  {
    Vector4(vector.x / scaler, vector.y / scaler, vector.z / scaler, vector.w)
  }

  /** operator == */
  predicate Equals(lhs: Vector4, rhs: Vector4) {
    lhs.x == rhs.x && lhs.y == rhs.y && lhs.z == rhs.z && lhs.w == rhs.w
  }

  /** operator != as the library writes it: its last test compares the left
      z with the right w. */
  predicate NotEquals(lhs: Vector4, rhs: Vector4) {
    lhs.x != rhs.x || lhs.y != rhs.y || lhs.z != rhs.z || lhs.z != rhs.w
  }

  /** The operator != evidently intended: the negation of ==. */
  predicate CorrectedNotEquals(lhs: Vector4, rhs: Vector4) {
    lhs.x != rhs.x || lhs.y != rhs.y || lhs.z != rhs.z || lhs.w != rhs.w
  }

  /** Subtraction undoes addition on all four components, and vice versa. */
  lemma SubtractUndoesAdd(a: Vector4, b: Vector4)
    ensures Subtract(Add(a, b), b) == a
    ensures Add(Subtract(a, b), b) == a
  {
  }

  lemma AddCommutative(a: Vector4, b: Vector4)
    ensures Add(a, b) == Add(b, a)
  {
  }

  /** Componentwise division undoes componentwise multiplication. */
  lemma DivideUndoesMultiply(a: Vector4, b: Vector4)
    requires b.x != 0.0 && b.y != 0.0 && b.z != 0.0 && b.w != 0.0
    ensures Divide(Multiply(a, b), b) == a
  {
  }

  /** Scalar `*` acts as Vec3's on x, y and z and leaves w alone, for every
      scalar. */
  lemma MultiplyScalarOnXYZ(v: Vector4, s: real)
    ensures XYZ(MultiplyScalar(v, s)) == Vec3.MultiplyScalar(XYZ(v), s)
    ensures MultiplyScalar(v, s).w == v.w
  {
  }

  /** Scalar `/` by a non-zero scalar acts as Vec3's on x, y and z and leaves
      w alone, and it undoes scalar `*`. */
  lemma ScalarOperators(v: Vector4, s: real)
    requires s != 0.0
    ensures XYZ(DivideScalar(v, s)) == Vec3.DivideScalar(XYZ(v), s)
    ensures DivideScalar(v, s).w == v.w
    ensures DivideScalar(MultiplyScalar(v, s), s) == v
    ensures MultiplyScalar(DivideScalar(v, s), s) == v
  {
  }

  /** Scaling by zero gives the zero vector exactly when w is already zero. */
  lemma ScaleByZero(v: Vector4)
    ensures MultiplyScalar(v, 0.0) == Zero <==> v.w == 0.0
  {
  }

  /** == is true exactly for equal vectors; the corrected != is its negation. */
  lemma EqualityOperators(a: Vector4, b: Vector4)
    ensures Equals(a, b) <==> a == b
    ensures CorrectedNotEquals(a, b) <==> !Equals(a, b)
  {
  }

  /** The as-written != never looks at the left w, and on vectors that agree
      in x, y and z it is decided by the right z and w alone. */
  lemma NotEqualsAsWritten(a: Vector4, b: Vector4, t: real)
    ensures NotEquals(a, b) <==> NotEquals(a.(w := t), b)
    ensures XYZ(a) == XYZ(b) ==> (NotEquals(a, b) <==> b.z != b.w)
  {
  }

  /** (0, 0, 0, 1) is both == and != to itself, while (0, 0, 0, 1) and
      (0, 0, 0, 0) are neither == nor !=. */
  lemma NotEqualsCounterexample()
    ensures Equals(Vector4(0.0, 0.0, 0.0, 1.0), Vector4(0.0, 0.0, 0.0, 1.0))
    ensures NotEquals(Vector4(0.0, 0.0, 0.0, 1.0), Vector4(0.0, 0.0, 0.0, 1.0))
    ensures !Equals(Vector4(0.0, 0.0, 0.0, 1.0), Zero)
    ensures !NotEquals(Vector4(0.0, 0.0, 0.0, 1.0), Zero)
  {
  }

  // ---------------------------------------------------------------------------
  // Products

  /** DotProduct as the library writes it: w is ignored and the z terms are
      added, not multiplied. */
  function DotProduct(lhs: Vector4, rhs: Vector4): real {
    lhs.x * rhs.x + lhs.y * rhs.y + lhs.z + rhs.z
  }

  /** The dot product evidently intended: z terms multiplied; w still ignored,
      as the magnitude ignores it. */
  function CorrectedDotProduct(lhs: Vector4, rhs: Vector4): real {
    lhs.x * rhs.x + lhs.y * rhs.y + lhs.z * rhs.z
  }

  /** The cross product of two three-component vectors, with w set to 0. */
  function CrossProduct(lhs: Vec3.Vector3, rhs: Vec3.Vector3): Vector4 {
    Vector4(lhs.y * rhs.z - lhs.z * rhs.y,
            lhs.z * rhs.x - lhs.x * rhs.z,
            lhs.x * rhs.y - lhs.y * rhs.x,
            0.0)
  }

  /** Both dot products are Vec3's on the x, y and z parts, whatever w holds. */
  lemma DotProductsOnXYZ(a: Vector4, b: Vector4)
    ensures DotProduct(a, b) == Vec3.DotProduct(XYZ(a), XYZ(b))
    ensures CorrectedDotProduct(a, b) == Vec3.CorrectedDotProduct(XYZ(a), XYZ(b))
  {
  }

  /** The as-written dot product of (0, 0, 1, 0) with the zero vector is 1. */
  lemma DotProductCounterexample()
    ensures DotProduct(Vector4(0.0, 0.0, 1.0, 0.0), Zero) == 1.0
    ensures CorrectedDotProduct(Vector4(0.0, 0.0, 1.0, 0.0), Zero) == 0.0
  {
  }

  /** The corrected dot product is symmetric and is the squared magnitude of
      a vector with itself. */
  lemma CorrectedDotProductProperties(a: Vector4, b: Vector4)
    ensures CorrectedDotProduct(a, b) == CorrectedDotProduct(b, a)
    ensures CorrectedDotProduct(a, a) == SqrMagnitude(a)
  {
  }

  /** The cross product agrees with Vec3's on x, y and z, has w = 0, and is
      antisymmetric. */
  lemma CrossProductProperties(a: Vec3.Vector3, b: Vec3.Vector3)
    ensures XYZ(CrossProduct(a, b)) == Vec3.CrossProduct(a, b)
    ensures CrossProduct(a, b).w == 0.0
    ensures Add(CrossProduct(a, b), CrossProduct(b, a)) == Zero
  {
  }

  // ---------------------------------------------------------------------------
  // Magnitude, Distance, Normalize

  /** The quantity under the square root in Magnitude: w plays no part. */
  function SqrMagnitude(v: Vector4): real {
    Vec3.SqrMagnitude(XYZ(v))
  }

  /** m is Magnitude of v: the exact root of x*x + y*y + z*z. */
  predicate IsMagnitude(v: Vector4, m: real) {
    Vec3.IsMagnitude(XYZ(v), m)
  }

  /** d is Distance(lhs, rhs), that is (rhs - lhs).Magnitude. */
  predicate IsDistance(lhs: Vector4, rhs: Vector4, d: real) {
    IsMagnitude(Subtract(rhs, lhs), d)
  }

  /** The magnitude does not depend on w, and is zero exactly when x, y and z
      are. */
  lemma MagnitudeProperties(v: Vector4, m: real, t: real)
    requires IsMagnitude(v, m)
    ensures IsMagnitude(v.(w := t), m)
    ensures m == 0.0 <==> XYZ(v) == Vec3.Zero
  {
    assert XYZ(v.(w := t)) == XYZ(v);
    Vec3.MagnitudeZeroIff(XYZ(v), m);
  }

  /** Distance is symmetric and is Vec3's distance between the x, y and z
      parts, whatever the w components hold. */
  lemma DistanceProperties(a: Vector4, b: Vector4, d: real)
    ensures IsDistance(a, b, d) <==> IsDistance(b, a, d)
    ensures IsDistance(a, b, d) <==> Vec3.IsDistance(XYZ(a), XYZ(b), d)
  {
    assert XYZ(Subtract(b, a)) == Vec3.Subtract(XYZ(b), XYZ(a));
    assert XYZ(Subtract(a, b)) == Vec3.Subtract(XYZ(a), XYZ(b));
    Vec3.DistanceSymmetric(XYZ(a), XYZ(b), d);
  }

  /** Normalize on a receiver v, given the magnitude the library computes for
      it (zero exactly when x, y and z are, by MagnitudeProperties). Returns
      the result and the receiver as it is after the call: a zero magnitude
      gives the zero vector (w included) and leaves the receiver alone;
      otherwise the receiver is divided by its magnitude, which keeps w, and
      returned. */
  method Normalize(v: Vector4, magnitude: real) returns (result: Vector4, receiver: Vector4)
    requires IsMagnitude(v, magnitude)
    ensures magnitude == 0.0 ==> result == Zero && receiver == v
    ensures magnitude != 0.0 ==> result == receiver && IsMagnitude(result, 1.0)
    ensures magnitude != 0.0 ==> result.w == v.w && MultiplyScalar(result, magnitude) == v
  {
    if magnitude == 0.0 {
      result, receiver := Zero, v;
      return;
    }
    receiver := DivideScalar(v, magnitude);
    result := receiver;
    DivideByMagnitude(v, magnitude);
  }

  /** The Normalized property: Normalize applied to a copy of v. */
  method Normalized(v: Vector4, magnitude: real) returns (result: Vector4)
    requires IsMagnitude(v, magnitude)
    ensures magnitude == 0.0 ==> result == Zero
    ensures magnitude != 0.0 ==> IsMagnitude(result, 1.0) && result.w == v.w
    ensures magnitude != 0.0 ==> MultiplyScalar(result, magnitude) == v
  {
    var value := v;
    var normalizedCopy;
    result, normalizedCopy := Normalize(value, magnitude);
  }

  /** Dividing by a non-zero magnitude gives magnitude 1, keeps w, and is
      undone by scaling back. */
  lemma DivideByMagnitude(v: Vector4, m: real)
    requires IsMagnitude(v, m) && m != 0.0
    ensures IsMagnitude(DivideScalar(v, m), 1.0)
    ensures MultiplyScalar(DivideScalar(v, m), m) == v
  {
    ScalarOperators(v, m);
    Vec3.UnitAfterDivide(XYZ(v), m);
  }

  // ---------------------------------------------------------------------------
  // GetRadian / GetDegree

  /** The argument GetRadian(lhs, rhs) and GetDegree(lhs, rhs) pass to
      Math.Acos: the as-written dot product, clamped to [-1, 1]. */
  method AcosArgument(lhs: Vector4, rhs: Vector4) returns (clamped: real)
    ensures -1.0 <= clamped <= 1.0
    ensures -1.0 <= DotProduct(lhs, rhs) <= 1.0 ==> clamped == DotProduct(lhs, rhs)
    ensures DotProduct(lhs, rhs) > 1.0 ==> clamped == 1.0
    ensures DotProduct(lhs, rhs) < -1.0 ==> clamped == -1.0
  {
    clamped := Vec3.ClampDotProduct(DotProduct(lhs, rhs));
  }
}
