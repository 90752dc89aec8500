/** A 3x3 matrix over the reals, as used by an actor's transforms. Only the
    parts an actor's transform update relies on are given: the identity and
    the row-by-column product. */
module Mat3 {

  datatype Matrix3 = Matrix3(
    m00: real, m01: real, m02: real,
    m10: real, m11: real, m12: real,
    m20: real, m21: real, m22: real)

  const Identity := Matrix3(1.0, 0.0, 0.0, 0.0, 1.0, 0.0, 0.0, 0.0, 1.0)

  /** The matrix product lhs * rhs. */
  function Multiply(lhs: Matrix3, rhs: Matrix3): Matrix3 {
    Matrix3(
      lhs.m00 * rhs.m00 + lhs.m01 * rhs.m10 + lhs.m02 * rhs.m20,
      lhs.m00 * rhs.m01 + lhs.m01 * rhs.m11 + lhs.m02 * rhs.m21,
      lhs.m00 * rhs.m02 + lhs.m01 * rhs.m12 + lhs.m02 * rhs.m22,
      lhs.m10 * rhs.m00 + lhs.m11 * rhs.m10 + lhs.m12 * rhs.m20,
      lhs.m10 * rhs.m01 + lhs.m11 * rhs.m11 + lhs.m12 * rhs.m21,
      lhs.m10 * rhs.m02 + lhs.m11 * rhs.m12 + lhs.m12 * rhs.m22,
      lhs.m20 * rhs.m00 + lhs.m21 * rhs.m10 + lhs.m22 * rhs.m20,
      lhs.m20 * rhs.m01 + lhs.m21 * rhs.m11 + lhs.m22 * rhs.m21,
      lhs.m20 * rhs.m02 + lhs.m21 * rhs.m12 + lhs.m22 * rhs.m22)
  }

  /** The identity is neutral on both sides of the product. */
  lemma MultiplyIdentity(m: Matrix3)
    ensures Multiply(Identity, m) == m
    ensures Multiply(m, Identity) == m
  {
  }

  /** The product of three identities, as an actor's local transform is
      built, is the identity. */
  lemma IdentityProduct(t: Matrix3, r: Matrix3, s: Matrix3)
    requires t == Identity && r == Identity && s == Identity
    ensures Multiply(Multiply(t, r), s) == Identity
  {
    MultiplyIdentity(Identity);
  }
}
