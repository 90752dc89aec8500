/** An actor of the scene graph: its started flag, its collider, its parent
    and the array of its children, and the matrices that place it. Children
    are added and removed by building a fresh array and replacing the field,
    as the actor does; the outcome of a removal records the exceptions the
    array operations can raise. */
module Actors {

  import opened Mat3
  import opened Outcomes

  // ---------------------------------------------------------------------------
  // The sequence a removal leaves behind

  /** s with every occurrence of x taken out, the rest in their order. */
  function Without<T(==)>(s: seq<T>, x: T): seq<T> {
    if |s| == 0 then []
    else if s[|s| - 1] == x then Without(s[..|s| - 1], x)
    else Without(s[..|s| - 1], x) + [s[|s| - 1]]
  }

  /** Removing x shortens s by the number of times x occurs in it. */
  lemma {:induction false} WithoutLength<T>(s: seq<T>, x: T)
    ensures |Without(s, x)| == |s| - multiset(s)[x]
  {
    if |s| > 0 {
      var init := s[..|s| - 1];
      assert s == init + [s[|s| - 1]];
      WithoutLength(init, x);
    }
  }

  /** Removing x keeps every other element as often as before, and no x. */
  lemma {:induction false} WithoutMultiset<T>(s: seq<T>, x: T)
    ensures multiset(Without(s, x)) == multiset(s)[x := 0]
  {
    if |s| > 0 {
      var init := s[..|s| - 1];
      assert s == init + [s[|s| - 1]];
      WithoutMultiset(init, x);
    }
  }

  /** Removal distributes over concatenation, so the relative order of the
      remaining elements is kept. */
  lemma {:induction false} WithoutAppend<T>(s: seq<T>, t: seq<T>, x: T)
    ensures Without(s + t, x) == Without(s, x) + Without(t, x)
    decreases |t|
  {
    if |t| == 0 {
      assert s + t == s;
    } else {
      var init := t[..|t| - 1];
      assert (s + t)[..|s + t| - 1] == s + init;
      WithoutAppend(s, init, x);
    }
  }

  /** Removing an element that does not occur changes nothing. */
  lemma {:induction false} WithoutAbsent<T>(s: seq<T>, x: T)
    requires x !in s
    ensures Without(s, x) == s
  {
    if |s| > 0 {
      var init := s[..|s| - 1];
      assert s == init + [s[|s| - 1]];
      WithoutAbsent(init, x);
    }
  }

  /** Removing an element that occurs once, at index i, closes the gap. */
  lemma WithoutSingle<T>(s: seq<T>, i: nat, x: T)
    requires i < |s| && s[i] == x && multiset(s)[x] == 1
    ensures Without(s, x) == s[..i] + s[i + 1..]
  {
    assert s == s[..i] + [x] + s[i + 1..];
    assert multiset(s) == multiset(s[..i]) + multiset{x} + multiset(s[i + 1..]);
    assert x !in s[..i] && x !in s[i + 1..];
    WithoutAppend(s[..i] + [x], s[i + 1..], x);
    WithoutAppend(s[..i], [x], x);
    WithoutAbsent(s[..i], x);
    WithoutAbsent(s[i + 1..], x);
  }

  /** How a prefix one element longer is filtered and counted. */
  lemma WithoutStep<T>(s: seq<T>, i: nat, x: T)
    requires i < |s|
    ensures Without(s[..i + 1], x) ==
              if s[i] == x then Without(s[..i], x) else Without(s[..i], x) + [s[i]]
    ensures multiset(s[..i + 1])[x] == multiset(s[..i])[x] + if s[i] == x then 1 else 0
    ensures x in s[..i + 1] <==> x in s[..i] || s[i] == x
  {
    assert s[..i + 1] == s[..i] + [s[i]];
    assert s[..i + 1][..i] == s[..i];
  }

  /** The children a successful removal leaves: the others in their order,
      then a null slot for each occurrence of the child beyond the first. */
  function AfterRemoval(s: seq<Actor?>, child: Actor): seq<Actor?>
    requires child in s
  {
    Without(s, child) + seq(multiset(s)[child] - 1, _ => null)
  }

  /** A successful removal shortens the children by exactly one. */
  lemma AfterRemovalLength(s: seq<Actor?>, child: Actor)
    requires child in s
    ensures |AfterRemoval(s, child)| == |s| - 1
  {
    WithoutLength(s, child);
  }

  /** The state of RemoveChild's copy loop after i elements of s: t holds
      the j elements other than `child` met so far, then null slots, and the
      flag records whether `child` was met. */
  ghost predicate CopyInvariant(s: seq<Actor?>, child: Actor, i: nat, t: seq<Actor?>, j: nat, removed: bool) {
    i <= |s| && j <= |t| &&
    t == Without(s[..i], child) + seq(|t| - j, _ => null) &&
    j == |Without(s[..i], child)| &&
    (removed <==> child in s[..i])
  }

  /** One pass of the copy loop keeps CopyInvariant; the write past the last
      slot happens only at the last element, with `child` never met. */
  lemma CopyStep(s: seq<Actor?>, child: Actor, i: nat, t: seq<Actor?>, j: nat, removed: bool)
    requires i < |s| && CopyInvariant(s, child, i, t, j, removed)
    requires |t| == |s| - 1
    ensures s[i] == child ==> CopyInvariant(s, child, i + 1, t, j, true)
    ensures s[i] != child && j < |t| ==> CopyInvariant(s, child, i + 1, t[j := s[i]], j + 1, removed)
    ensures s[i] != child && j == |t| ==> child !in s
  {
    WithoutStep(s, i, child);
    if s[i] != child {
      if j < |t| {
        var w := Without(s[..i], child);
        assert t[j := s[i]] == w + [s[i]] + seq(|t| - j - 1, _ => null);
      } else {
        WithoutLength(s[..i], child);
        assert s[..i + 1] == s;
      }
    }
  }

  /** When the copy loop finishes, t is what a successful removal leaves. */
  lemma CopyDone(s: seq<Actor?>, child: Actor, t: seq<Actor?>, j: nat, removed: bool)
    requires CopyInvariant(s, child, |s|, t, j, removed)
    requires |t| == |s| - 1
    ensures removed && child in s
    ensures t == AfterRemoval(s, child)
  {
    assert s[..|s|] == s;
    WithoutLength(s, child);
  }

  /** The copy loop of RemoveChild over a non-empty array a: every element
      other than `child` goes to the next free slot of a fresh array one
      shorter than a, and the write after its last slot throws. The flag
      records whether `child` was met. */
  method CopyOtherChildren(a: array<Actor?>, child: Actor) returns (outcome: Outcome<bool>, tempArray: array<Actor?>)
    requires a.Length > 0
    ensures fresh(tempArray)
    ensures child in a[..] ==> outcome == Returned(true) && tempArray[..] == AfterRemoval(a[..], child)
    ensures child !in a[..] ==> outcome == Threw(IndexOutOfRangeException)
  {
    ghost var s := a[..];
    var actorRemoved := false;
    tempArray := new Actor?[a.Length - 1](_ => null);
    var j := 0;
    assert tempArray[..] == [] + seq(tempArray.Length, _ => null);
    assert s[..0] == [];
    for i := 0 to a.Length
      modifies tempArray
      invariant CopyInvariant(s, child, i, tempArray[..], j, actorRemoved)
    {
      CopyStep(s, child, i, tempArray[..], j, actorRemoved);
      if a[i] != child {
        if j == tempArray.Length {
          return Threw(IndexOutOfRangeException), tempArray;
        }
        tempArray[j] := a[i];
        j := j + 1;
      } else {
        actorRemoved := true;
      }
    }
    CopyDone(s, child, tempArray[..], j, actorRemoved);
    outcome := Returned(actorRemoved);
  }

  // ---------------------------------------------------------------------------
  // The actor

  class Actor {
    var started: bool
    /** The attached collider. Colliders are not part of this model; only
        whether one is attached matters to an actor. */
    var collider: object?
    var parent: Actor?
    var children: array<Actor?>
    var translation: Matrix3
    var rotation: Matrix3
    var scale: Matrix3
    var localTransform: Matrix3
    var globalTransform: Matrix3

    /** `new Actor()`: not started, no collider, parent or children, and
        every transform the identity. */
    constructor()
      ensures !started && collider == null && parent == null
      ensures fresh(children) && children.Length == 0
      ensures translation == Identity && rotation == Identity && scale == Identity
      ensures localTransform == Identity && globalTransform == Identity
    {
      started := false;
      collider := null;
      parent := null;
      children := new Actor?[0];
      translation, rotation, scale := Identity, Identity, Identity;
      localTransform, globalTransform := Identity, Identity;
    }

    method Start()
      modifies this`started
      ensures started
    {
      started := true;
    }

    /** The local transform is translation * rotation * scale; the global
        one is the parent's global transform times the local one, or the
        local one for an actor without a parent. Identity translation,
        rotation and scale, as a new actor has, give an identity local
        transform, and an identity global one when there is no parent. */
    method UpdateTransforms()
      modifies this`localTransform, this`globalTransform
      ensures localTransform == Multiply(Multiply(translation, rotation), scale)
      ensures parent == null ==> globalTransform == localTransform
      ensures parent != null ==> globalTransform == Multiply(old(parent.globalTransform), localTransform)
      ensures translation == Identity && rotation == Identity && scale == Identity ==>
                localTransform == Identity && (parent == null ==> globalTransform == Identity)
    {
      if translation == Identity && rotation == Identity && scale == Identity {
        IdentityProduct(translation, rotation, scale);
      }
      localTransform := Multiply(Multiply(translation, rotation), scale);
      if parent != null {
        globalTransform := Multiply(parent.globalTransform, localTransform);
      } else {
        globalTransform := localTransform;
      }
    }

    /** Appends child to a fresh copy of the children array and makes this
        actor its parent. Duplicates are not checked for, and the child stays
        in the array of any earlier parent. */
    method AddChild(child: Actor)
      modifies this`children, child`parent
      ensures fresh(children)
      ensures children[..] == old(children[..]) + [child]
      ensures child.parent == this
    {
      var tempArray := new Actor?[children.Length + 1](_ => null);
      for i := 0 to children.Length
        modifies tempArray
        invariant tempArray[..i] == children[..i]
      {
        tempArray[i] := children[i];
      }
      tempArray[children.Length] := child;
      assert tempArray[..] == children[..] + [child];
      children := tempArray;
      child.parent := this;
    }

    /** Copies every child other than `child` into a fresh array one shorter
        than the current one, then installs it. Allocating that array throws
        for an actor without children, and the copy overruns it when `child`
        is not among the children, so a call never returns false. A call
        that returns leaves the children AfterRemoval describes and a child
        without a parent; a call that throws changes nothing. */
    method RemoveChild(child: Actor) returns (outcome: Outcome<bool>)
      modifies this`children, child`parent
      ensures outcome != Returned(false)
      ensures outcome == Returned(true) <==> child in old(children[..])
      ensures old(children.Length) == 0 ==> outcome == Threw(OverflowException)
      ensures old(children.Length) > 0 && child !in old(children[..]) ==>
                outcome == Threw(IndexOutOfRangeException)
      ensures outcome.Threw? ==> children == old(children) && child.parent == old(child.parent)
      ensures outcome.Returned? ==>
                fresh(children) && child.parent == null &&
                children[..] == AfterRemoval(old(children[..]), child)
    {
      if children.Length == 0 {
        return Threw(OverflowException);
      }
      var tempArray;
      outcome, tempArray := CopyOtherChildren(children, child);
      if outcome == Returned(true) {
        children := tempArray;
        child.parent := null;
      }
    }

    /** RemoveChild as its result flag evidently intends: a child that is
        not among the children (including any child of an actor without
        children) gives false and changes nothing. */
    method CorrectedRemoveChild(child: Actor) returns (removed: bool)
      modifies this`children, child`parent
      ensures removed <==> child in old(children[..])
      ensures !removed ==> children == old(children) && child.parent == old(child.parent)
      ensures removed ==>
                fresh(children) && child.parent == null &&
                children[..] == AfterRemoval(old(children[..]), child)
    {
      if child !in children[..] {
        return false;
      }
      var outcome := RemoveChild(child);
      removed := outcome.Returned?;
    }

    /** Two actors can collide only when both have a collider; then the
        answer is the collider's own verdict, given here as a parameter. */
    predicate CheckCollision(other: Actor, colliderVerdict: bool): (r: bool)
      reads this, other
      ensures collider == null || other.collider == null ==> !r
      ensures collider != null && other.collider != null ==> (r <==> colliderVerdict)
    {
      if collider == null || other.collider == null then false
      else colliderVerdict
    }
  }

  /** Removing a child that occurs exactly once, at index i, leaves exactly
      the other children in their order, with no null slot left over. */
  lemma RemoveSingleChild(children: seq<Actor?>, i: nat, child: Actor)
    requires i < |children| && children[i] == child && multiset(children)[child] == 1
    ensures AfterRemoval(children, child) == children[..i] + children[i + 1..]
  {
    WithoutSingle(children, i, child);
  }
}
