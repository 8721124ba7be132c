/**
 * Construction of a bounding volume hierarchy over a slice of a list. The
 * slice is split at its middle without sorting; only a two-object slice is
 * ordered, by the minima of the two boxes along a randomly chosen axis.
 */
module Bvh {
  import opened Numbers
  import opened Vectors
  import opened Boxes
  import opened Scene

  /**
   * `AABB::box_compare`: whether `a`'s box starts before `b`'s along `axis`,
   * with both boxes taken at time 0. `None` where the source panics: one of
   * the objects has no box.
   */
  function BoxCompare(a: Hittable, b: Hittable, axis: Axis): (r: Option<bool>)
    ensures r.None? <==> BoundingBox(a, 0.0, 0.0).None? || BoundingBox(b, 0.0, 0.0).None?
    ensures r.Some? ==> (r.value <==> XLt(BoundingBox(a, 0.0, 0.0).value.min.Ix(axis),
      BoundingBox(b, 0.0, 0.0).value.min.Ix(axis)))
  {
    match (BoundingBox(a, 0.0, 0.0), BoundingBox(b, 0.0, 0.0))
    case (Some(boxA), Some(boxB)) => Some(XLt(boxA.min.Ix(axis), boxB.min.Ix(axis)))
    case _ => None
  }

  /** The comparison is a strict order: irreflexive, */
  lemma BoxCompareIrreflexive(a: Hittable, axis: Axis)
    requires BoundingBox(a, 0.0, 0.0).Some?
    ensures BoxCompare(a, a, axis) == Some(false)
  {
    XLtIrreflexive(BoundingBox(a, 0.0, 0.0).value.min.Ix(axis));
  }

  /** asymmetric, */
  lemma BoxCompareAsymmetric(a: Hittable, b: Hittable, axis: Axis)
    requires BoxCompare(a, b, axis) == Some(true)
    ensures BoxCompare(b, a, axis) == Some(false)
  {
    XLtAsymmetric(BoundingBox(a, 0.0, 0.0).value.min.Ix(axis), BoundingBox(b, 0.0, 0.0).value.min.Ix(axis));
  }

  /** and transitive. */
  lemma BoxCompareTransitive(a: Hittable, b: Hittable, c: Hittable, axis: Axis)
    requires BoxCompare(a, b, axis) == Some(true) && BoxCompare(b, c, axis) == Some(true)
    ensures BoxCompare(a, c, axis) == Some(true)
  {
    XLtTransitive(BoundingBox(a, 0.0, 0.0).value.min.Ix(axis), BoundingBox(b, 0.0, 0.0).value.min.Ix(axis),
      BoundingBox(c, 0.0, 0.0).value.min.Ix(axis));
  }

  /** `objects[start..end]` all have boxes over `[time0, time1]`, which `box` holds. */
  predicate CoversSlice(objects: seq<Hittable>, start: nat, end: nat, time0: real, time1: real, box: AABB)
    requires start <= end <= |objects|
  {
    forall i :: start <= i < end ==>
      BoundingBox(objects[i], time0, time1).Some? && Within(BoundingBox(objects[i], time0, time1).value, box)
  }

  /**
   * The node over two children: its box surrounds theirs. `None` where the
   * source panics: a child without a box.
   */
  function Node(left: Hittable, right: Hittable, time0: real, time1: real): (r: Option<Hittable>)
    ensures r.Some? <==> BoundingBox(left, time0, time1).Some? && BoundingBox(right, time0, time1).Some?
    ensures r.Some? ==> r.value == BvhNode(SurroundingBox(BoundingBox(left, time0, time1).value,
      BoundingBox(right, time0, time1).value), left, right)
  {
    match (BoundingBox(left, time0, time1), BoundingBox(right, time0, time1))
    case (Some(boxLeft), Some(boxRight)) => Some(BvhNode(SurroundingBox(boxLeft, boxRight), left, right))
    case _ => None
  }

  /**
   * `BVH::new` over `objects[start..end]`. `axisOf(start, end)` is the axis
   * the node draws at random. `None` where the source panics: an object
   * without a box.
   */
  function Build(objects: seq<Hittable>, start: nat, end: nat, time0: real, time1: real,
    axisOf: (nat, nat) -> Axis): (r: Option<Hittable>)
    requires start < end <= |objects|
    ensures r.Some? ==> r.value.BvhNode?
    decreases end - start
  {
    if end - start == 1 then
      Node(objects[start], objects[start], time0, time1)
    else if end - start == 2 then
      match BoxCompare(objects[start], objects[start + 1], axisOf(start, end))
      case None => None
      case Some(true) => Node(objects[start], objects[start + 1], time0, time1)
      case Some(false) => Node(objects[start + 1], objects[start], time0, time1)
    else
      var mid := start + (end - start) / 2;
      var left := Build(objects, start, mid, time0, time1, axisOf);
      var right := Build(objects, mid, end, time0, time1, axisOf);
      if left.None? || right.None? then None
      else Node(left.value, right.value, time0, time1)
  }

  /** A span of more than two objects splits at its middle into two hierarchies under one node. */
  lemma BuildSplits(objects: seq<Hittable>, start: nat, mid: nat, end: nat, time0: real, time1: real,
    axisOf: (nat, nat) -> Axis)
    requires start < end <= |objects| && end - start > 2 && mid == start + (end - start) / 2
    requires Build(objects, start, end, time0, time1, axisOf).Some?
    ensures var node := Build(objects, start, end, time0, time1, axisOf).value;
      Build(objects, start, mid, time0, time1, axisOf) == Some(node.left)
      && Build(objects, mid, end, time0, time1, axisOf) == Some(node.right)
      && node.bbox == SurroundingBox(node.left.bbox, node.right.bbox)
  {
    var left := Build(objects, start, mid, time0, time1, axisOf).value;
    var right := Build(objects, mid, end, time0, time1, axisOf).value;
    assert BoundingBox(left, time0, time1) == Some(left.bbox);
    assert BoundingBox(right, time0, time1) == Some(right.bbox);
  }

  /**
   * A span of one or two objects gives a node over those objects: a single
   * object is both children, and of two objects the one whose box starts
   * first along the drawn axis goes on the left.
   */
  lemma BuildSmall(objects: seq<Hittable>, start: nat, end: nat, time0: real, time1: real,
    axisOf: (nat, nat) -> Axis)
    requires start < end <= |objects| && end - start <= 2
    requires Build(objects, start, end, time0, time1, axisOf).Some?
    ensures var node := Build(objects, start, end, time0, time1, axisOf).value;
      (node.left == objects[start] && node.right == objects[end - 1])
      || (node.left == objects[end - 1] && node.right == objects[start])
    ensures var node := Build(objects, start, end, time0, time1, axisOf).value;
      end - start == 2 ==>
      BoxCompare(objects[start], objects[start + 1], axisOf(start, end)).Some?
      && (BoxCompare(objects[start], objects[start + 1], axisOf(start, end)).value
        ==> node.left == objects[start] && node.right == objects[start + 1])
      && (!BoxCompare(objects[start], objects[start + 1], axisOf(start, end)).value
        ==> node.left == objects[start + 1] && node.right == objects[start])
  {
  }

  /** The box of the hierarchy holds the box of every object in the span. */
  lemma {:induction false} BuildCovers(objects: seq<Hittable>, start: nat, end: nat, time0: real, time1: real,
    axisOf: (nat, nat) -> Axis)
    requires start < end <= |objects|
    requires Build(objects, start, end, time0, time1, axisOf).Some?
    ensures CoversSlice(objects, start, end, time0, time1, Build(objects, start, end, time0, time1, axisOf).value.bbox)
    decreases end - start
  {
    if end - start > 2 {
      var mid := start + (end - start) / 2;
      var left := Build(objects, start, mid, time0, time1, axisOf).value;
      var right := Build(objects, mid, end, time0, time1, axisOf).value;
      BuildCovers(objects, start, mid, time0, time1, axisOf);
      BuildCovers(objects, mid, end, time0, time1, axisOf);
      assert BoundingBox(left, time0, time1) == Some(left.bbox);
      assert BoundingBox(right, time0, time1) == Some(right.bbox);
      CoverHalves(objects, start, mid, end, time0, time1, left.bbox, right.bbox);
    } else {
      var node := Build(objects, start, end, time0, time1, axisOf).value;
      forall i | start <= i < end
        ensures BoundingBox(objects[i], time0, time1).Some?
        ensures Within(BoundingBox(objects[i], time0, time1).value, node.bbox)
      {
      }
    }
  }

  /** A box around the boxes of two adjacent slices covers their union. */
  lemma CoverHalves(objects: seq<Hittable>, start: nat, mid: nat, end: nat, time0: real, time1: real,
    boxLeft: AABB, boxRight: AABB)
    requires start <= mid <= end <= |objects|
    requires CoversSlice(objects, start, mid, time0, time1, boxLeft)
    requires CoversSlice(objects, mid, end, time0, time1, boxRight)
    ensures CoversSlice(objects, start, end, time0, time1, SurroundingBox(boxLeft, boxRight))
  {
    var bbox := SurroundingBox(boxLeft, boxRight);
    forall i | start <= i < end
      ensures BoundingBox(objects[i], time0, time1).Some?
      ensures Within(BoundingBox(objects[i], time0, time1).value, bbox)
    {
      if i < mid {
        WithinTrans(BoundingBox(objects[i], time0, time1).value, boxLeft, bbox);
      } else {
        WithinTrans(BoundingBox(objects[i], time0, time1).value, boxRight, bbox);
      }
    }
  }

  /** When every object of the slice has a box at both times, the construction does not panic. */
  lemma {:induction false} BuildSucceeds(objects: seq<Hittable>, start: nat, end: nat, time0: real, time1: real,
    axisOf: (nat, nat) -> Axis)
    requires start < end <= |objects|
    requires forall i :: start <= i < end ==>
      BoundingBox(objects[i], time0, time1).Some? && BoundingBox(objects[i], 0.0, 0.0).Some?
    ensures Build(objects, start, end, time0, time1, axisOf).Some?
    decreases end - start
  {
    if end - start > 2 {
      var mid := start + (end - start) / 2;
      BuildSucceeds(objects, start, mid, time0, time1, axisOf);
      BuildSucceeds(objects, mid, end, time0, time1, axisOf);
      var left := Build(objects, start, mid, time0, time1, axisOf).value;
      var right := Build(objects, mid, end, time0, time1, axisOf).value;
      assert BoundingBox(left, time0, time1) == Some(left.bbox);
      assert BoundingBox(right, time0, time1) == Some(right.bbox);
    } else {
      assert start <= end - 1 < end;
      SmallSpanSucceeds(objects, start, end, time0, time1, axisOf);
    }
  }

  /** A span of one or two objects with boxes gives a node. */
  lemma SmallSpanSucceeds(objects: seq<Hittable>, start: nat, end: nat, time0: real, time1: real,
    axisOf: (nat, nat) -> Axis)
    requires start < end <= |objects| && end - start <= 2
    requires BoundingBox(objects[start], time0, time1).Some? && BoundingBox(objects[start], 0.0, 0.0).Some?
    requires BoundingBox(objects[end - 1], time0, time1).Some? && BoundingBox(objects[end - 1], 0.0, 0.0).Some?
    ensures Build(objects, start, end, time0, time1, axisOf).Some?
  {
  }

  /** `h` is the node itself or hangs below it. */
  ghost predicate Reaches(node: Hittable, h: Hittable)
  {
    node == h || (node.BvhNode? && (Reaches(node.left, h) || Reaches(node.right, h)))
  }

  /** Every object of the slice hangs somewhere in the hierarchy built over it. */
  lemma {:induction false} BuildKeepsEveryObject(objects: seq<Hittable>, start: nat, end: nat, time0: real,
    time1: real, axisOf: (nat, nat) -> Axis, i: nat)
    requires start <= i < end <= |objects|
    requires Build(objects, start, end, time0, time1, axisOf).Some?
    ensures Reaches(Build(objects, start, end, time0, time1, axisOf).value, objects[i])
    decreases end - start
  {
    var node := Build(objects, start, end, time0, time1, axisOf).value;
    if end - start > 2 {
      var mid := start + (end - start) / 2;
      BuildSplits(objects, start, mid, end, time0, time1, axisOf);
      if i < mid {
        BuildKeepsEveryObject(objects, start, mid, time0, time1, axisOf, i);
      } else {
        BuildKeepsEveryObject(objects, mid, end, time0, time1, axisOf, i);
      }
    } else {
      BuildSmall(objects, start, end, time0, time1, axisOf);
      assert i == start || i == end - 1;
      ReachesSelf(node.left);
      ReachesSelf(node.right);
    }
    ReachesThroughChild(node, objects[i]);
  }

  lemma ReachesSelf(h: Hittable)
    ensures Reaches(h, h)
  {
  }

  /** What hangs below a child hangs below the node. */
  lemma ReachesThroughChild(node: Hittable, h: Hittable)
    requires node.BvhNode? && (Reaches(node.left, h) || Reaches(node.right, h))
    ensures Reaches(node, h)
  {
  }

  /** Everything below the hierarchy that is not an inner node hangs below one of the slice's objects. */
  lemma {:induction false} BuildAddsNoObject(objects: seq<Hittable>, start: nat, end: nat, time0: real,
    time1: real, axisOf: (nat, nat) -> Axis, h: Hittable)
    returns (i: nat)
    requires start < end <= |objects|
    requires Build(objects, start, end, time0, time1, axisOf).Some?
    requires Reaches(Build(objects, start, end, time0, time1, axisOf).value, h) && !h.BvhNode?
    ensures start <= i < end && Reaches(objects[i], h)
    decreases end - start
  {
    var node := Build(objects, start, end, time0, time1, axisOf).value;
    if end - start <= 2 {
      BuildSmall(objects, start, end, time0, time1, axisOf);
      if Reaches(objects[start], h) {
        i := start;
      } else {
        i := start + 1;
      }
    } else {
      var mid := start + (end - start) / 2;
      BuildSplits(objects, start, mid, end, time0, time1, axisOf);
      if Reaches(node.left, h) {
        i := BuildAddsNoObject(objects, start, mid, time0, time1, axisOf, h);
      } else {
        i := BuildAddsNoObject(objects, mid, end, time0, time1, axisOf, h);
      }
    }
  }
}
