# MathForGames in Dafny

This project models the core of MathForGames, a small C# game framework, and proves properties of that model. The core has three parts:

- **Scene graph.** An `Actor` keeps its children in an array that is rebuilt on every change: `AddChild` copies the array into one a slot longer, and `RemoveChild` copies it into one a slot shorter. It also keeps the parent links, a started flag, a collider and its transform matrices. The `Engine` grows its array of scenes the same way. Its start, update, draw and end steps all index the scene array at the current scene index.
- **Circle collider.** It tests against another circle by centre distance and summed radii. It tests against an axis-aligned box by clamping the direction from the box centre to the box's half extents, then comparing the distance from the centre to the point reached with the radius.
- **Math library.** `Vector3` and `Vector4` provide componentwise and scalar operators, `==` and `!=`, the dot and cross products, magnitude, distance, normalisation, and the clamp that the angle helpers apply before `Math.Acos`.

How the model is built:

- **Modules.** There is one module per source file: `Actors`, `Engines`, `Colliders`, `Vec3` and `Vec4`. The helper modules are:
  - `Outcomes`: the .NET exceptions the code can raise, as values;
  - `Mat3`: a 3x3 matrix with its identity and product;
  - `Reals`: facts about squares of reals.
- **Numbers.** Scalars are reals.
- **Magnitudes without a square root.** A magnitude is the relation `IsMagnitude(v, m)`: m is non-negative and m² is the sum of squares.
- **Distance comparisons.** The collision tests compare "distance <= bound" on squares (`DistanceAtMost`). Lemmas show that this agrees with comparing the distance itself.
- **Imperative code stays imperative.**
  - Actors and engines are classes whose methods replace their array fields, as the C# code does.
  - `Normalize` returns both its result and the receiver as the call leaves it.
  - The angle clamp reassigns a local variable.
- **Exceptions are values.** A call that can throw returns an `Outcome`: either `Returned(value)` or `Threw(exception)`. `RemoveChild` and `CheckCollisionAABB` do this, and so does the current-scene lookup.
- **`RemoveChild` follows the code.** The source has no precondition, so the model keeps the code's behaviour:
  - on an actor without children, allocating an array of length -1 throws `OverflowException`;
  - for a child that is not among the children, the copy overruns the new array at its last write and throws `IndexOutOfRangeException`.

  It therefore never returns false.
- **Where the code's documentation comments and the code disagree, the model follows the code:**
  - `DotProduct` adds the z components instead of multiplying them;
  - `Vector4 !=` compares the left z with the right w;
  - `RemoveChild` never reports failure.

  Each of these is listed under Findings, together with a corrected version.

## Model

| member | source | states |
|---|---|---|
| Vec3.SubtractUndoesAdd | MathLibrary/Vector3.cs:145-159 | `-` undoes `+` and `+` undoes `-`, on every component |
| Vec3.AddCommutative | MathLibrary/Vector3.cs:145-148 | `+` is commutative |
| Vec3.DivideUndoesMultiply | MathLibrary/Vector3.cs:167-181 | componentwise `/` by a vector with non-zero components undoes componentwise `*` |
| Vec3.DivideScalarUndoesMultiplyScalar | MathLibrary/Vector3.cs:189-202 | scalar `/` by a non-zero scalar and scalar `*` undo each other |
| Vec3.EqualityOperators | MathLibrary/Vector3.cs:210-224 | `==` holds exactly for equal vectors, and `!=` is its negation |
| Vec3.DotProductAsWritten | MathLibrary/Vector3.cs:55-58 | the as-written dot product is symmetric; against the zero vector it gives the other vector's z; it differs from the inner product by a.z + b.z - a.z·b.z |
| Vec3.DotProductCounterexample | MathLibrary/Vector3.cs:55-65 | for (0,0,1) and its cross product with (1,0,0), which is (0,1,0), the as-written dot product gives 1 where the inner product gives 0 |
| Vec3.DotProductWithItselfCounterexample | MathLibrary/Vector3.cs:55-58 | the as-written dot product of (0,0,1) with itself is 2, while its squared magnitude is 1 |
| Vec3.CorrectedDotProductProperties | MathLibrary/Vector3.cs:55-65 | the corrected dot product is symmetric, gives the squared magnitude of a vector with itself, and is 0 between a cross product and either of its factors |
| Vec3.CrossProductAntisymmetric | MathLibrary/Vector3.cs:60-65 | cross(a,b) + cross(b,a) is the zero vector, and cross(a,a) is the zero vector |
| Vec3.SqrMagnitudeNonNegative | MathLibrary/Vector3.cs:21-24 | the sum of squares under the root is non-negative, and is zero exactly for the zero vector |
| Vec3.SqrMagnitudeLe | MathLibrary/Vector3.cs:21-24 | a vector whose every component has a square no larger than the matching component of another has a squared magnitude no larger |
| Vec3.MagnitudeUnique | MathLibrary/Vector3.cs:21-24 | a vector has at most one magnitude |
| Vec3.MagnitudeZeroIff | MathLibrary/Vector3.cs:21-24 | the magnitude is 0 exactly when x = y = z = 0 |
| Vec3.DistanceSymmetric | MathLibrary/Vector3.cs:133-136 | Distance(a, b) = Distance(b, a) |
| Vec3.DistanceAtMostIff | MathLibrary/Vector3.cs:133-136 | the root-free test "distance <= bound" is true exactly when the distance is at most the bound |
| Vec3.DistanceAtMostSelf | MathLibrary/Vector3.cs:133-136 | a point is within a bound of itself exactly when the bound is non-negative |
| Vec3.Normalize | MathLibrary/Vector3.cs:41-47 | for the zero vector, returns the zero vector and leaves the receiver alone; otherwise the receiver becomes v divided by its magnitude and is returned, it has magnitude 1, and scaling it back by the magnitude gives v |
| Vec3.Normalized | MathLibrary/Vector3.cs:29-38 | the result of normalising a copy: the zero vector for the zero vector, otherwise a unit vector that scales back to v |
| Vec3.UnitAfterDivide | MathLibrary/Vector3.cs:41-47 | dividing a non-zero vector by its magnitude gives squared magnitude 1 |
| Vec3.ClampDotProduct | MathLibrary/Vector3.cs:88-95 | the clamped value lies in [-1, 1]; a value already in range is unchanged; values above 1 become 1 and values below -1 become -1 |
| Vec3.AcosArgument | MathLibrary/Vector3.cs:73-81 | the argument GetRadian and GetDegree pass to Math.Acos is the as-written dot product clamped to [-1, 1], with the same four cases |
| Vec4.SubtractUndoesAdd | MathLibrary/Vector4.cs:145-159 | `-` undoes `+` and `+` undoes `-`, on all four components including w |
| Vec4.AddCommutative | MathLibrary/Vector4.cs:145-148 | `+` is commutative |
| Vec4.DivideUndoesMultiply | MathLibrary/Vector4.cs:167-181 | componentwise `/` undoes componentwise `*` on all four components |
| Vec4.MultiplyScalarOnXYZ | MathLibrary/Vector4.cs:189-192 | for every scalar, including 0, scalar `*` acts as Vec3's on x, y and z and copies w unchanged |
| Vec4.ScalarOperators | MathLibrary/Vector4.cs:189-202 | for a non-zero scalar, scalar `/` acts as Vec3's on x, y and z and copies w unchanged, and `*` and `/` undo each other |
| Vec4.ScaleByZero | MathLibrary/Vector4.cs:189-192 | scaling by 0 gives the zero vector exactly when w is already 0 |
| Vec4.EqualityOperators | MathLibrary/Vector4.cs:210-213 | `==` holds exactly when all four components are equal; the corrected `!=` is its negation |
| Vec4.NotEqualsAsWritten | MathLibrary/Vector4.cs:221-224 | the as-written `!=` never reads the left w; on vectors that agree in x, y and z it is true exactly when the right z differs from the right w |
| Vec4.NotEqualsCounterexample | MathLibrary/Vector4.cs:210-224 | (0,0,0,1) is both `==` and `!=` to itself, while (0,0,0,1) and (0,0,0,0) are neither `==` nor `!=` |
| Vec4.DotProductsOnXYZ | MathLibrary/Vector4.cs:57-60 | the as-written and the corrected dot products ignore w and equal Vec3's on the x, y and z parts |
| Vec4.DotProductCounterexample | MathLibrary/Vector4.cs:57-60 | the as-written dot product of (0,0,1,0) with the zero vector is 1, while the corrected one is 0 |
| Vec4.CorrectedDotProductProperties | MathLibrary/Vector4.cs:57-60 | the corrected dot product is symmetric and gives the squared magnitude of a vector with itself |
| Vec4.CrossProductProperties | MathLibrary/Vector4.cs:62-65 | the cross product of two Vector3s agrees with Vec3's on x, y and z, has w = 0, and is antisymmetric |
| Vec4.MagnitudeProperties | MathLibrary/Vector4.cs:23-26 | the magnitude does not depend on w, and is zero exactly when x = y = z = 0 |
| Vec4.DistanceProperties | MathLibrary/Vector4.cs:133-136 | Distance is symmetric, and equals Vec3's distance between the x, y and z parts whatever the w components hold |
| Vec4.Normalize | MathLibrary/Vector4.cs:43-49 | a zero magnitude gives the zero vector (w included, so a non-zero w is dropped) and leaves the receiver alone; otherwise the receiver is divided by its magnitude, keeps w, has magnitude 1, is returned, and scales back to v |
| Vec4.Normalized | MathLibrary/Vector4.cs:31-38 | the result of normalising a copy, with the same cases as Normalize |
| Vec4.DivideByMagnitude | MathLibrary/Vector4.cs:43-49 | dividing by a non-zero magnitude gives magnitude 1 and is undone by scaling back |
| Vec4.AcosArgument | MathLibrary/Vector4.cs:73-95 | the argument passed to Math.Acos is the as-written dot product clamped to [-1, 1]: in range, unchanged when already in range, 1 above and -1 below |
| Actors.WithoutLength | MathForGames/Actor.cs:214-225 | copying every child except `child` keeps the old length minus the number of occurrences of `child` |
| Actors.WithoutMultiset | MathForGames/Actor.cs:214-225 | that copy keeps every other child as often as before, and has no occurrence of `child` |
| Actors.WithoutAppend | MathForGames/Actor.cs:214-225 | the copy of a concatenation is the concatenation of the copies, so the remaining children keep their relative order |
| Actors.WithoutAbsent | MathForGames/Actor.cs:214-225 | copying without an element that does not occur changes nothing |
| Actors.WithoutSingle | MathForGames/Actor.cs:214-225 | copying without an element that occurs once, at index i, gives the elements before i followed by those after it |
| Actors.WithoutStep | MathForGames/Actor.cs:216-225 | one more loop step either skips `child` or appends the current child, and updates the occurrence count accordingly |
| Actors.AfterRemovalLength | MathForGames/Actor.cs:212 | a successful removal leaves exactly one slot fewer than before, whatever the number of occurrences of the child |
| Actors.CopyStep | MathForGames/Actor.cs:216-225 | each pass of the copy loop either records that the child was met or writes the current child to the next free slot; a write past the last slot can only happen when the child does not occur at all |
| Actors.CopyDone | MathForGames/Actor.cs:216-228 | a copy loop that runs to the end has met the child, and the new array holds the other children in order followed by one null slot per extra occurrence |
| Actors.CopyOtherChildren | MathForGames/Actor.cs:212-225 | for a non-empty array: when the child occurs, the loop finishes with the flag set and the fresh array as for a successful removal; when it does not occur, the write after the last slot throws IndexOutOfRangeException |
| Actors.RemoveSingleChild | MathForGames/Actor.cs:206-236 | removing a child that occurs exactly once leaves exactly the other children, in order, with no null slot |
| Actors.Actor.constructor | MathForGames/Actor.cs:11-22 | a new actor is not started and has no collider, no parent and an empty children array, and all of its transforms are the identity |
| Actors.Actor.Start | MathForGames/Actor.cs:239-242 | afterwards, the actor is started |
| Actors.Actor.UpdateTransforms | MathForGames/Actor.cs:170-177 | local = translation · rotation · scale; global = the parent's old global transform · local when there is a parent, otherwise global = local; so an actor whose translation, rotation and scale are the identity, such as a new one, gets identity transforms, and a global identity too when it has no parent |
| Actors.Actor.AddChild | MathForGames/Actor.cs:183-199 | the children array is fresh and is the old children followed by the new child, so every old child keeps its index; the child's parent becomes this actor; nothing else changes |
| Actors.Actor.RemoveChild | MathForGames/Actor.cs:206-236 | never returns false. It returns true exactly when the child occurs; it throws OverflowException for no children and IndexOutOfRangeException for an absent child, changing nothing. On success, the array is fresh and one shorter, holds every other child in order followed by nulls, and the child's parent is null; nothing else changes |
| Actors.Actor.CorrectedRemoveChild | MathForGames/Actor.cs:206-236 | returns true exactly when the child occurs, and otherwise changes nothing; on success, the new state is as for RemoveChild |
| Actors.Actor.CheckCollision | MathForGames/Actor.cs:278-285 | false when either actor has no collider; otherwise the colliders' own verdict |
| Colliders.Clamp | MathForGames/CircleCollider.cs:49-50 | Math.Clamp throws exactly when min > max; otherwise the result lies in [min, max], equals the value when it is already in range, and is min below the range and max above it |
| Colliders.ClampIsNearest | MathForGames/CircleCollider.cs:49-50 | no point of [min, max] is nearer to the value than its clamp |
| Colliders.AxisNearest | MathForGames/CircleCollider.cs:49-50 | the same nearness, measured from the clamped point |
| Colliders.BoxClosestPointInBox | MathForGames/CircleCollider.cs:45-53 | the closest point lies inside the box in x and y, and a centre inside the box is its own closest point |
| Colliders.BoxClosestPointIsNearest | MathForGames/CircleCollider.cs:45-53 | no point of the box is nearer to the circle's centre than the closest point |
| Colliders.ClosestPointAgrees | MathForGames/CircleCollider.cs:45-53 | clamping the direction from the box centre and adding it back gives the reference closest point (each coordinate clamped to the box's extent) |
| Colliders.DistanceAtMostForAll | MathForGames/CircleCollider.cs:30-36 | the root-free distance test agrees with every distance that the two centres can have |
| Colliders.CircleCollider.constructor | MathForGames/CircleCollider.cs:19-22 | stores the given radius as the collision radius, and the given owner |
| Colliders.CircleCollider.CheckCollisionCircle | MathForGames/CircleCollider.cs:24-37 | false for a shared owner; otherwise, for the distance between the two owners' positions, true exactly when it is at most the sum of the two radii |
| Colliders.CircleCollider.CheckCollisionAABB | MathForGames/CircleCollider.cs:39-60 | false for a shared owner; otherwise throws ArgumentException for a negative width or height, and else reports whether the closest point of the box lies within the collision radius of the centre |
| Colliders.CheckCollisionCircleSymmetric | MathForGames/CircleCollider.cs:24-37 | swapping the two circles, and their positions with them, gives the same answer |
| Colliders.CheckCollisionAABBDistance | MathForGames/CircleCollider.cs:55-59 | with distinct owners and non-negative extents, the box test returns true exactly when the distance from the centre to the closest point is at most the radius |
| Colliders.CheckCollisionAABBInside | MathForGames/CircleCollider.cs:45-59 | with a centre inside the box, the box test is the test of the centre against itself, so (by Vec3.DistanceAtMostSelf) it returns true exactly when the radius is non-negative |
| Engines.Engine.constructor | MathForGames/Engine.cs:10-11 | a new engine has an empty scene array, so looking up the current scene throws IndexOutOfRangeException |
| Engines.Engine.CurrentScene | MathForGames/Engine.cs:35-62 | the scene that Start, Update, Draw and End call into. It throws IndexOutOfRangeException exactly when the array has no slot at the current index; with no null slots, it is the scene at that index |
| Engines.Engine.AddScene | MathForGames/Engine.cs:69-88 | the scene array is fresh and is the old scenes followed by the new one; the returned index is the old length and holds the new scene; no null slot appears; the current scene is unchanged unless the array was empty, in which case it becomes the new scene |
| Engines.FirstSceneIsCurrent | MathForGames/Engine.cs:69-88 | the first scene added to a new engine has index 0 and is the current scene |

## Left out

- **Rendering, input and the window.** Drawing through Raylib, sprites, the camera and the player are calls into a library outside this model.
- **`Engine.Run`.** Its loop never ends: nothing sets the close flag.
- **The steps of a `Scene`.** Scene.cs is not part of this model. `Start`, `Update`, `Draw` and `End` are modelled only as far as the lookup in `Engine.CurrentScene`.
- **Matrix construction and the position properties of an actor.** This covers translation, rotation and scale, `LookAt`, `Forwards`, `LocalPosition`, `WorldPosition`, `Size` and the name-based rotations in `Update`. Matrix3.cs is not part of this model: `Mat3` gives only the identity and the usual row-by-column product.
  - Actors.Actor.UpdateTransforms: holds for that product only.
  - The collision tests take the owners' positions as parameters.
- **Name, sprite and the two positioned constructors of an actor.** These are not modelled.
- **Properties that simply read or write a field.** This covers `Started`, `Parent`, `Children`, `Collider` and `CollisionRadius`. They are the fields of the classes themselves.
- **Collider dispatch and box colliders.** `Collider.CheckCollision` decides which test applies, and the box collider supplies owner, width and height. Collider.cs and AABBCollider.cs are not part of this model, so:
  - Actors.Actor.CheckCollision: takes the collider's verdict as a parameter;
  - the box is the value `AABB(owner, width, height)`;
  - an actor's collider is an `object?`, because only whether one is attached matters to the actor.
- **Floating point.** The library computes with `float`; the model uses reals.
  - Rounding, NaN and infinities are not modelled.
  - Vec3.Divide, Vec3.DivideScalar, Vec4.Divide, Vec4.DivideScalar: require non-zero divisors, where .NET would produce an infinity or NaN.
- **`Math.Sqrt` and `Math.Acos`.** There is no square root; a magnitude is any number related to the vector by `IsMagnitude`. The angle helpers are modelled up to the argument they pass to `Math.Acos`.
- Vec3.Normalize, Vec4.Normalize: take the magnitude as a parameter related to the vector by `IsMagnitude`, rather than computing it.
- **Null arguments and the current scene index.**
  - Null arguments are excluded by the types, so no null-argument call is modelled. Two of them change state before they throw.
  - Actors.Actor.AddChild: `AddChild(null)` is not modelled. It installs the longer array, whose last slot is null, at MathForGames/Actor.cs:195, and then the write `child.Parent = this` on line 198 throws NullReferenceException.
  - Actors.Actor.RemoveChild: `RemoveChild(null)` is not modelled. When the children array holds a null slot, the copy loop counts that slot as the child. The shorter array is then installed at MathForGames/Actor.cs:230, and the write `child.Parent = null` on line 232 throws NullReferenceException. A null slot arises in two ways: RemoveChild leaves one after removing a child that occurred more than once, and `AddChild(null)` leaves one before it throws.
  - Engines.Engine.AddScene: `AddScene(null)` is not modelled. It does not throw; it stores a null slot at MathForGames/Engine.cs:81.
  - Engines.Engine.CurrentScene: handles a null slot, which only `AddScene(null)` could create.
  - The current scene index is a static field that nothing writes. It is modelled as the constant 0.

## Findings

| source | as written | input that shows it | evidently intended | confidence | as-written member | corrected member |
|---|---|---|---|---|---|---|
| MathLibrary/Vector3.cs:57 | `lhs.z + rhs.z`: the z components are added | (0,0,1) and (0,1,0), which are orthogonal, give 1; (0,0,1) with itself gives 2 | `lhs.z * rhs.z`, the inner product | not executed | Vec3.DotProductCounterexample | Vec3.CorrectedDotProductProperties |
| MathLibrary/Vector4.cs:59 | `lhs.z + rhs.z`: the z components are added | (0,0,1,0) with the zero vector gives 1 | `lhs.z * rhs.z` | not executed | Vec4.DotProductCounterexample | Vec4.CorrectedDotProductProperties |
| MathLibrary/Vector4.cs:223 | the last test is `lhs.z != rhs.w` | (0,0,0,1) is both `==` and `!=` to itself | `lhs.w != rhs.w`, the negation of `==` | not executed | Vec4.NotEqualsCounterexample | Vec4.EqualityOperators |
| MathForGames/Actor.cs:212 | the new array has `Length - 1` slots, allocated before the child is looked for, and the copy loop does not check bounds | an actor with no children throws OverflowException; an actor with children [a], asked to remove b, throws IndexOutOfRangeException | return false and leave the children unchanged, as the result flag documents | not executed | Actors.Actor.RemoveChild | Actors.Actor.CorrectedRemoveChild |
