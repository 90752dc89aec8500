/** The circle collider: a collision radius and the actor that owns it, with
    its tests against another circle and against an axis-aligned box. The
    owners' positions come from their transforms, which are not part of this
    model, so each test takes them as parameters. "distance <= bound" is
    decided on squares (Vec3.DistanceAtMost); the lemmas tie every answer to
    the distance itself. */
module Colliders {

  import opened Reals
  import opened Outcomes
  import opened Vec3
  import Actors

  /** Math.Clamp(value, min, max), which throws when min exceeds max. */
  function Clamp(value: real, min: real, max: real): (r: Outcome<real>)
    ensures min > max <==> r == Threw(ArgumentException)
    ensures min <= max ==> r.Returned? && min <= r.value <= max
    ensures min <= max && min <= value <= max ==> r == Returned(value)
    ensures min <= max && value < min ==> r == Returned(min)
    ensures min <= max && value > max ==> r == Returned(max)
  {
    if min > max then Threw(ArgumentException)
    else if value < min then Returned(min)
    else if value > max then Returned(max)
    else Returned(value)
  }

  /** Of all points of [min, max], the clamped value is nearest to value. */
  lemma ClampIsNearest(value: real, min: real, max: real, t: real)
    requires min <= t <= max
    ensures Sqr(value - Clamp(value, min, max).value) <= Sqr(value - t)
  {
    var c := Clamp(value, min, max).value;
    SqrNeg(value - c);
    SqrNeg(value - t);
    if value < min {
      SqrMono(c - value, t - value);
    } else if value > max {
      SqrMono(value - c, value - t);
    } else {
      SqrNonNeg(value - t);
    }
  }

  /** The reference definition of the point of a box nearest to position: x
      and y clamped to the box's extent around its centre, z kept. */
  function BoxClosestPoint(position: Vector3, boxPosition: Vector3, width: real, height: real): Vector3
    requires width >= 0.0 && height >= 0.0
  {
    Vector3(Clamp(position.x, boxPosition.x - width / 2.0, boxPosition.x + width / 2.0).value,
            Clamp(position.y, boxPosition.y - height / 2.0, boxPosition.y + height / 2.0).value,
            position.z)
  }

  /** p lies in the box, in x and y. */
  predicate InBox(p: Vector3, boxPosition: Vector3, width: real, height: real) {
    boxPosition.x - width / 2.0 <= p.x <= boxPosition.x + width / 2.0 &&
    boxPosition.y - height / 2.0 <= p.y <= boxPosition.y + height / 2.0
  }

  /** The closest point lies in the box, and a position inside the box is
      its own closest point. */
  lemma BoxClosestPointInBox(position: Vector3, boxPosition: Vector3, width: real, height: real)
    requires width >= 0.0 && height >= 0.0
    ensures InBox(BoxClosestPoint(position, boxPosition, width, height), boxPosition, width, height)
    ensures InBox(position, boxPosition, width, height) ==>
              BoxClosestPoint(position, boxPosition, width, height) == position
  {
  }

  /** No point of the box is nearer to position than the closest point. */
  lemma BoxClosestPointIsNearest(position: Vector3, boxPosition: Vector3, width: real, height: real, q: Vector3)
    requires width >= 0.0 && height >= 0.0
    requires InBox(q, boxPosition, width, height)
    ensures SqrMagnitude(Subtract(BoxClosestPoint(position, boxPosition, width, height), position))
              <= SqrMagnitude(Subtract(q, position))
  {
    var u := Subtract(BoxClosestPoint(position, boxPosition, width, height), position);
    var v := Subtract(q, position);
    assert Sqr(u.x) <= Sqr(v.x) by {
      AxisNearest(position.x, boxPosition.x - width / 2.0, boxPosition.x + width / 2.0, q.x);
    }
    assert Sqr(u.y) <= Sqr(v.y) by {
      AxisNearest(position.y, boxPosition.y - height / 2.0, boxPosition.y + height / 2.0, q.y);
    }
    assert Sqr(u.z) <= Sqr(v.z) by {
      assert u.z == 0.0;
      SqrNonNeg(v.z);
    }
    SqrMagnitudeLe(u, v);
  }

  /** ClampIsNearest, measured from the clamped point to value. */
  lemma AxisNearest(value: real, min: real, max: real, t: real)
    requires min <= t <= max
    ensures Sqr(Clamp(value, min, max).value - value) <= Sqr(t - value)
  {
    ClampIsNearest(value, min, max, t);
    SqrSub(value, Clamp(value, min, max).value);
    SqrSub(value, t);
  }

  /** An axis-aligned box collider, as far as a circle's test reads it: its
      owner and its extents. */
  datatype AABB = AABB(owner: Actors.Actor, width: real, height: real)

  class CircleCollider {
    const owner: Actors.Actor
    var collisionRadius: real

    /** `new CircleCollider(collisionRadius, owner)` */
    constructor(collisionRadius: real, owner: Actors.Actor)
      ensures this.collisionRadius == collisionRadius && this.owner == owner
    {
      this.owner := owner;
      this.collisionRadius := collisionRadius;
    }

    /** The test against another circle, given this owner's position and the
        other owner's: false for a shared owner, otherwise whether the centre
        distance is at most the sum of the radii. */
    predicate CheckCollisionCircle(other: CircleCollider, position: Vector3, otherPosition: Vector3): (r: bool)
      reads this, other
      ensures other.owner == owner ==> !r
      ensures forall d :: IsDistance(otherPosition, position, d) ==>
                (r <==> other.owner != owner && d <= other.collisionRadius + collisionRadius)
    {
      DistanceAtMostForAll(otherPosition, position, other.collisionRadius + collisionRadius);
      if other.owner == owner then false
      else DistanceAtMost(otherPosition, position, other.collisionRadius + collisionRadius)
    }

    /** The test against a box, given this owner's position and the box
        owner's: false for a shared owner; otherwise the direction from the
        box to this centre is clamped to the box's half extents (which throws
        for a negative width or height), and the answer is whether the point
        it reaches from the box centre lies within the collision radius. */
    function CheckCollisionAABB(other: AABB, position: Vector3, otherPosition: Vector3): (r: Outcome<bool>)
      reads this
      ensures other.owner == owner ==> r == Returned(false)
      ensures other.owner != owner && (other.width < 0.0 || other.height < 0.0) ==>
                r == Threw(ArgumentException)
      ensures other.owner != owner && other.width >= 0.0 && other.height >= 0.0 ==>
                r == Returned(DistanceAtMost(position,
                                             BoxClosestPoint(position, otherPosition, other.width, other.height),
                                             collisionRadius))
    {
      if other.owner == owner then Returned(false)
      else
        var direction := Subtract(position, otherPosition);
        match Clamp(direction.x, -other.width / 2.0, other.width / 2.0)
        case Threw(e) => Threw(e)
        case Returned(dx) =>
          match Clamp(direction.y, -other.height / 2.0, other.height / 2.0)
          case Threw(e) => Threw(e)
          case Returned(dy) =>
            var closestPoint := Add(otherPosition, Vector3(dx, dy, direction.z));
            ClosestPointAgrees(position, otherPosition, other.width, other.height);
            Returned(DistanceAtMost(position, closestPoint, collisionRadius))
    }
  }

  /** DistanceAtMostIff for every candidate distance at once. */
  lemma DistanceAtMostForAll(lhs: Vector3, rhs: Vector3, bound: real)
    ensures forall d :: IsDistance(lhs, rhs, d) ==> (DistanceAtMost(lhs, rhs, bound) <==> d <= bound)
  {
    forall d | IsDistance(lhs, rhs, d)
      ensures DistanceAtMost(lhs, rhs, bound) <==> d <= bound
    {
      DistanceAtMostIff(lhs, rhs, d, bound);
    }
  }

  /** Clamping the direction relative to the box centre and adding it back
      gives the reference closest point. */
  lemma ClosestPointAgrees(position: Vector3, boxPosition: Vector3, width: real, height: real)
    requires width >= 0.0 && height >= 0.0
    ensures var direction := Subtract(position, boxPosition);
            Add(boxPosition, Vector3(Clamp(direction.x, -width / 2.0, width / 2.0).value,
                                     Clamp(direction.y, -height / 2.0, height / 2.0).value,
                                     direction.z))
              == BoxClosestPoint(position, boxPosition, width, height)
  {
  }

  /** Swapping the two circles, and the two positions with them, gives the
      same answer. */
  lemma CheckCollisionCircleSymmetric(a: CircleCollider, b: CircleCollider, positionA: Vector3, positionB: Vector3)
    ensures a.CheckCollisionCircle(b, positionA, positionB) == b.CheckCollisionCircle(a, positionB, positionA)
  {
    var u, v := Subtract(positionA, positionB), Subtract(positionB, positionA);
    assert u.x == -v.x && u.y == -v.y && u.z == -v.z;
    SqrNeg(v.x);
    SqrNeg(v.y);
    SqrNeg(v.z);
  }

  /** With distinct owners and a box of non-negative extent, the box test is
      true exactly when the distance from the centre to the closest point of
      the box is at most the collision radius. */
  lemma CheckCollisionAABBDistance(c: CircleCollider, box: AABB, position: Vector3, boxPosition: Vector3, d: real)
    requires box.owner != c.owner && box.width >= 0.0 && box.height >= 0.0
    requires IsDistance(position, BoxClosestPoint(position, boxPosition, box.width, box.height), d)
    ensures c.CheckCollisionAABB(box, position, boxPosition) == Returned(d <= c.collisionRadius)
  {
    DistanceAtMostIff(position, BoxClosestPoint(position, boxPosition, box.width, box.height), d, c.collisionRadius);
  }

  /** A centre inside the box is its own closest point, so the box test is
      then the test of the centre against itself, which DistanceAtMostSelf
      says is true exactly for a non-negative radius. */
  lemma CheckCollisionAABBInside(c: CircleCollider, box: AABB, position: Vector3, boxPosition: Vector3)
    requires box.owner != c.owner && box.width >= 0.0 && box.height >= 0.0
    requires InBox(position, boxPosition, box.width, box.height)
    ensures c.CheckCollisionAABB(box, position, boxPosition) ==
              Returned(DistanceAtMost(position, position, c.collisionRadius))
  {
    BoxClosestPointInBox(position, boxPosition, box.width, box.height);
  }
}
