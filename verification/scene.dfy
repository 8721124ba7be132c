/**
 * The scene graph: every kind of object the renderer can intersect, and the
 * two queries every object answers, `hit` and `bounding_box`. Lists, boxes,
 * BVH nodes, instances and media hold other objects, so both queries recurse
 * through the graph.
 */
module Scene {
  import opened Numbers
  import opened Vectors
  import opened Rays
  import opened Boxes
  import opened Records
  import opened Spheres
  import opened MovingSpheres
  import opened Rects
  import opened Transforms
  import opened Media

  /**
   * An object of the scene. `BoxObj` is `AABox`: its corners and the list of
   * its six sides. `RotateObj` keeps the bounding box `Rotate::new` computed.
   * `MediumObj` keeps its boundary, its phase function and `-1 / density`.
   */
  datatype Hittable =
    | SphereObj(sphere: Sphere)
    | MovingSphereObj(moving: MovingSphere)
    | RectObj(rect: Rect)
    | BoxObj(boxMin: Vec3, boxMax: Vec3, sides: seq<Hittable>)
    | ListObj(objects: seq<Hittable>)
    | BvhNode(bbox: AABB, left: Hittable, right: Hittable)
    | TranslateObj(inner: Hittable, offset: Vec3)
    | RotateObj(inner: Hittable, plane: Plane, cosTheta: real, sinTheta: real, rotatedBox: Option<AABB>)
    | MediumObj(boundary: Hittable, phase: Material, negInvDensity: real)

  /** Every medium in the object has a positive density. */
  predicate Dense(h: Hittable)
    decreases h, 1
  {
    match h
    case BoxObj(_, _, sides) => AllDense(sides, |sides|)
    case ListObj(objects) => AllDense(objects, |objects|)
    case BvhNode(_, left, right) => Dense(left) && Dense(right)
    case TranslateObj(obj, _) => Dense(obj)
    case RotateObj(obj, _, _, _, _) => Dense(obj)
    case MediumObj(boundary, _, nid) => nid < 0.0 && Dense(boundary)
    case _ => true
  }

  /** The first `n` objects are dense. */
  predicate AllDense(objs: seq<Hittable>, n: nat)
    requires n <= |objs|
    decreases objs, n
  {
    n == 0 || (AllDense(objs, n - 1) && Dense(objs[n - 1]))
  }

  /** `mat` is one of the materials the object can report a hit with. */
  ghost predicate Carries(h: Hittable, mat: Material)
    decreases h, 1
  {
    match h
    case SphereObj(s) => s.material == mat
    case MovingSphereObj(s) => s.material == mat
    case RectObj(rect) => rect.material == mat
    case BoxObj(_, _, sides) => AnyCarries(sides, |sides|, mat)
    case ListObj(objects) => AnyCarries(objects, |objects|, mat)
    case BvhNode(_, left, right) => Carries(left, mat) || Carries(right, mat)
    case TranslateObj(obj, _) => Carries(obj, mat)
    case RotateObj(obj, _, _, _, _) => Carries(obj, mat)
    case MediumObj(_, phase, _) => phase == mat
  }

  /** One of the first `n` objects carries `mat`. */
  ghost predicate AnyCarries(objs: seq<Hittable>, n: nat, mat: Material)
    requires n <= |objs|
    decreases objs, n
  {
    n > 0 && (AnyCarries(objs, n - 1, mat) || Carries(objs[n - 1], mat))
  }

  /**
   * `hit`, for every kind of object. `u` is the uniform draw a medium makes.
   * A reported hit is never past `t_max`.
   */
  function Hit(m: Maths, u: UnitDraw, h: Hittable, ray: Ray, tMin: XReal, tMax: XReal): (r: Option<HitRecord>)
    ensures r.Some? ==> XLe(Fin(r.value.t), tMax)
    decreases h, 1
  {
    match h
    case SphereObj(s) => SphereHit(m, s.centre, s.radius, s.material, ray, tMin, tMax)
    case MovingSphereObj(s) => MovingSphereHit(m, s, ray, tMin, tMax)
    case RectObj(rect) => RectHit(rect, ray, tMin, tMax)
    case BoxObj(_, _, sides) => Sweep(m, u, sides, |sides|, ray, tMin, tMax)
    case ListObj(objects) => Sweep(m, u, objects, |objects|, ray, tMin, tMax)
    case BvhNode(_, _, _) => BvhHit(m, u, h, ray, tMin, tMax)
    case TranslateObj(_, _) => TranslateHit(m, u, h, ray, tMin, tMax)
    case RotateObj(_, _, _, _, _) => RotateHit(m, u, h, ray, tMin, tMax)
    case MediumObj(_, _, _) => MediumHit(m, u, h, ray, tMin, tMax)
  }

  /** `BVHNode::hit`: nothing unless the ray meets the box; the right child is asked up to the left's hit. */
  function BvhHit(m: Maths, u: UnitDraw, h: Hittable, ray: Ray, tMin: XReal, tMax: XReal): (r: Option<HitRecord>)
    requires h.BvhNode?
    ensures r.Some? ==> XLe(Fin(r.value.t), tMax)
    decreases h, 0
  {
    if !BoxHit(h.bbox, ray, tMin, tMax) then None
    else
      var first := Hit(m, u, h.left, ray, tMin, tMax);
      var closest := if first.Some? then Fin(first.value.t) else tMax;
      var second := Hit(m, u, h.right, ray, tMin, closest);
      if second.Some? then second else first
  }

  /** `Translate::hit`: the inner object's hit on the ray moved back by the offset, moved forward. */
  function TranslateHit(m: Maths, u: UnitDraw, h: Hittable, ray: Ray, tMin: XReal, tMax: XReal): (r: Option<HitRecord>)
    requires h.TranslateObj?
    ensures r.Some? ==> XLe(Fin(r.value.t), tMax)
    decreases h, 0
  {
    var moved := TranslateRay(ray, h.offset);
    match Hit(m, u, h.inner, moved, tMin, tMax)
    case None => None
    case Some(rec) => Some(TranslateRecord(rec, moved, h.offset))
  }

  /** `Rotate::hit`: the inner object's hit on the ray turned into its frame, turned back. */
  function RotateHit(m: Maths, u: UnitDraw, h: Hittable, ray: Ray, tMin: XReal, tMax: XReal): (r: Option<HitRecord>)
    requires h.RotateObj?
    ensures r.Some? ==> XLe(Fin(r.value.t), tMax)
    decreases h, 0
  {
    var turned := RotateRay(ray, h.plane, h.cosTheta, h.sinTheta);
    match Hit(m, u, h.inner, turned, tMin, tMax)
    case None => None
    case Some(rec) => Some(RotateRecord(rec, turned, h.plane, h.cosTheta, h.sinTheta))
  }

  /**
   * `ConstantMedium::hit`: the boundary's entry over the whole line, its
   * exit just past the entry, and the scattering point between them.
   */
  function MediumHit(m: Maths, u: UnitDraw, h: Hittable, ray: Ray, tMin: XReal, tMax: XReal): (r: Option<HitRecord>)
    requires h.MediumObj?
    ensures r.Some? ==> XLe(Fin(r.value.t), tMax)
    decreases h, 0
  {
    match Hit(m, u, h.boundary, ray, NegInf, PosInf)
    case None => None
    case Some(rec1) =>
      (match Hit(m, u, h.boundary, ray, Fin(rec1.t + DT), PosInf)
       case None => None
       case Some(rec2) =>
         var r := MediumScatterPoint(m, u, h.phase, h.negInvDensity, ray, rec1, rec2, tMin, tMax);
         if r.None? then r
         else
           MediumScatterNotPastExit(m, u, h.phase, h.negInvDensity, ray, rec1, rec2, tMin, tMax);
           r)
  }

  /**
   * `HittableList::hit` over the first `n` objects: each object is asked for a
   * hit closer than the closest found so far, and a later hit replaces it.
   */
  function Sweep(m: Maths, u: UnitDraw, objs: seq<Hittable>, n: nat, ray: Ray, tMin: XReal, tMax: XReal)
    : (r: Option<HitRecord>)
    requires n <= |objs|
    ensures r.Some? ==> XLe(Fin(r.value.t), tMax)
    decreases objs, n
  {
    if n == 0 then None
    else
      var earlier := Sweep(m, u, objs, n - 1, ray, tMin, tMax);
      var closest := if earlier.Some? then Fin(earlier.value.t) else tMax;
      var latest := Hit(m, u, objs[n - 1], ray, tMin, closest);
      if latest.Some? then latest else earlier
  }

  /** A reported hit carries one of the object's materials. */
  lemma {:induction false} HitCarries(m: Maths, u: UnitDraw, h: Hittable, ray: Ray, tMin: XReal, tMax: XReal)
    requires Hit(m, u, h, ray, tMin, tMax).Some?
    ensures Carries(h, Hit(m, u, h, ray, tMin, tMax).value.material)
    decreases h, 1
  {
    match h
    case BoxObj(_, _, sides) => SweepCarries(m, u, sides, |sides|, ray, tMin, tMax);
    case ListObj(objects) => SweepCarries(m, u, objects, |objects|, ray, tMin, tMax);
    case BvhNode(_, left, right) =>
      var first := Hit(m, u, left, ray, tMin, tMax);
      var closest := if first.Some? then Fin(first.value.t) else tMax;
      if Hit(m, u, right, ray, tMin, closest).Some? {
        HitCarries(m, u, right, ray, tMin, closest);
      } else {
        HitCarries(m, u, left, ray, tMin, tMax);
      }
    case TranslateObj(obj, offset) => HitCarries(m, u, obj, TranslateRay(ray, offset), tMin, tMax);
    case RotateObj(obj, plane, c, s, _) => HitCarries(m, u, obj, RotateRay(ray, plane, c, s), tMin, tMax);
    case _ =>
  }

  /** A hit a list reports carries the material of one of its first `n` objects. */
  lemma {:induction false} SweepCarries(m: Maths, u: UnitDraw, objs: seq<Hittable>, n: nat, ray: Ray,
    tMin: XReal, tMax: XReal)
    requires n <= |objs|
    requires Sweep(m, u, objs, n, ray, tMin, tMax).Some?
    ensures AnyCarries(objs, n, Sweep(m, u, objs, n, ray, tMin, tMax).value.material)
    decreases objs, n
  {
    var earlier := Sweep(m, u, objs, n - 1, ray, tMin, tMax);
    var closest := if earlier.Some? then Fin(earlier.value.t) else tMax;
    if Hit(m, u, objs[n - 1], ray, tMin, closest).Some? {
      HitCarries(m, u, objs[n - 1], ray, tMin, closest);
    } else {
      SweepCarries(m, u, objs, n - 1, ray, tMin, tMax);
    }
  }

  /** Where every medium is dense, a reported hit is not before `t_min` either. */
  lemma {:induction false} HitInRange(m: Maths, u: UnitDraw, h: Hittable, ray: Ray, tMin: XReal, tMax: XReal)
    requires Dense(h)
    requires Hit(m, u, h, ray, tMin, tMax).Some?
    ensures InRange(Hit(m, u, h, ray, tMin, tMax).value.t, tMin, tMax)
    decreases h, 1
  {
    match h
    case BoxObj(_, _, sides) => SweepInRange(m, u, sides, |sides|, ray, tMin, tMax);
    case ListObj(objects) => SweepInRange(m, u, objects, |objects|, ray, tMin, tMax);
    case BvhNode(bbox, left, right) => BvhInRange(m, u, bbox, left, right, ray, tMin, tMax);
    case TranslateObj(obj, offset) => HitInRange(m, u, obj, TranslateRay(ray, offset), tMin, tMax);
    case RotateObj(obj, plane, c, s, _) => HitInRange(m, u, obj, RotateRay(ray, plane, c, s), tMin, tMax);
    case MediumObj(_, _, _) => MediumInRange(m, u, h, ray, tMin, tMax);
    case _ =>
  }

  /** The BVH case: the right child is asked with a `t_max` no greater than the node's. */
  lemma {:induction false} BvhInRange(m: Maths, u: UnitDraw, bbox: AABB, left: Hittable, right: Hittable, ray: Ray,
    tMin: XReal, tMax: XReal)
    requires Dense(left) && Dense(right)
    requires Hit(m, u, BvhNode(bbox, left, right), ray, tMin, tMax).Some?
    ensures InRange(Hit(m, u, BvhNode(bbox, left, right), ray, tMin, tMax).value.t, tMin, tMax)
    decreases BvhNode(bbox, left, right), 0
  {
    var first := Hit(m, u, left, ray, tMin, tMax);
    var closest := if first.Some? then Fin(first.value.t) else tMax;
    if Hit(m, u, right, ray, tMin, closest).Some? {
      HitInRange(m, u, right, ray, tMin, closest);
      XLeTrans(Fin(Hit(m, u, right, ray, tMin, closest).value.t), closest, tMax);
    } else {
      HitInRange(m, u, left, ray, tMin, tMax);
    }
  }

  /** The medium case: a positive density scatters between the boundary's entry and exit. */
  lemma MediumInRange(m: Maths, u: UnitDraw, h: Hittable, ray: Ray, tMin: XReal, tMax: XReal)
    requires h.MediumObj? && h.negInvDensity < 0.0
    requires MediumHit(m, u, h, ray, tMin, tMax).Some?
    ensures InRange(MediumHit(m, u, h, ray, tMin, tMax).value.t, tMin, tMax)
  {
    var rec1 := Hit(m, u, h.boundary, ray, NegInf, PosInf).value;
    var rec2 := Hit(m, u, h.boundary, ray, Fin(rec1.t + DT), PosInf).value;
    MediumScatterInRange(m, u, h.phase, h.negInvDensity, ray, rec1, rec2, tMin, tMax);
  }

  /** Where the first `n` objects are dense, a hit the list reports is not before `t_min`. */
  lemma {:induction false} SweepInRange(m: Maths, u: UnitDraw, objs: seq<Hittable>, n: nat, ray: Ray,
    tMin: XReal, tMax: XReal)
    requires n <= |objs| && AllDense(objs, n)
    requires Sweep(m, u, objs, n, ray, tMin, tMax).Some?
    ensures InRange(Sweep(m, u, objs, n, ray, tMin, tMax).value.t, tMin, tMax)
    decreases objs, n
  {
    var earlier := Sweep(m, u, objs, n - 1, ray, tMin, tMax);
    var closest := if earlier.Some? then Fin(earlier.value.t) else tMax;
    if Hit(m, u, objs[n - 1], ray, tMin, closest).Some? {
      HitInRange(m, u, objs[n - 1], ray, tMin, closest);
      XLeTrans(Fin(Hit(m, u, objs[n - 1], ray, tMin, closest).value.t), closest, tMax);
    } else {
      SweepInRange(m, u, objs, n - 1, ray, tMin, tMax);
    }
  }

  /** A list reports no hit exactly when no object in it has one in the whole range. */
  lemma {:induction false} SweepMissesIffAllMiss(m: Maths, u: UnitDraw, objs: seq<Hittable>, n: nat, ray: Ray,
    tMin: XReal, tMax: XReal)
    requires n <= |objs|
    ensures Sweep(m, u, objs, n, ray, tMin, tMax).None?
      <==> forall i :: 0 <= i < n ==> Hit(m, u, objs[i], ray, tMin, tMax).None?
  {
    if n > 0 {
      SweepMissesIffAllMiss(m, u, objs, n - 1, ray, tMin, tMax);
      SweepMissStep(m, u, objs, n, ray, tMin, tMax);
      AllMissStep(m, u, objs, n, ray, tMin, tMax);
    }
  }

  /** No object among the first `n` has a hit in the range. */
  ghost predicate AllMiss(m: Maths, u: UnitDraw, objs: seq<Hittable>, n: nat, ray: Ray, tMin: XReal, tMax: XReal)
    requires n <= |objs|
  {
    forall i :: 0 <= i < n ==> Hit(m, u, objs[i], ray, tMin, tMax).None?
  }

  lemma AllMissStep(m: Maths, u: UnitDraw, objs: seq<Hittable>, n: nat, ray: Ray, tMin: XReal, tMax: XReal)
    requires 0 < n <= |objs|
    ensures AllMiss(m, u, objs, n, ray, tMin, tMax)
      <==> AllMiss(m, u, objs, n - 1, ray, tMin, tMax) && Hit(m, u, objs[n - 1], ray, tMin, tMax).None?
  {
  }

  /** One more object: the list still misses exactly when it missed before and the new object misses. */
  lemma SweepMissStep(m: Maths, u: UnitDraw, objs: seq<Hittable>, n: nat, ray: Ray, tMin: XReal, tMax: XReal)
    requires 0 < n <= |objs|
    ensures Sweep(m, u, objs, n, ray, tMin, tMax).None?
      <==> Sweep(m, u, objs, n - 1, ray, tMin, tMax).None? && Hit(m, u, objs[n - 1], ray, tMin, tMax).None?
  {
  }

  /**
   * The hit found after more objects is never further away than the one
   * found after fewer: the closest hit only moves closer.
   */
  lemma {:induction false} SweepNeverRecedes(m: Maths, u: UnitDraw, objs: seq<Hittable>, k: nat, n: nat, ray: Ray,
    tMin: XReal, tMax: XReal)
    requires k <= n <= |objs|
    requires Sweep(m, u, objs, k, ray, tMin, tMax).Some?
    ensures Sweep(m, u, objs, n, ray, tMin, tMax).Some?
    ensures Sweep(m, u, objs, n, ray, tMin, tMax).value.t <= Sweep(m, u, objs, k, ray, tMin, tMax).value.t
  {
    if k < n {
      SweepNeverRecedes(m, u, objs, k, n - 1, ray, tMin, tMax);
    }
  }

  /**
   * The hit a list reports is the hit one of its objects reports, asked with
   * the list's `t_min` and a `t_max` no greater than the list's.
   */
  lemma {:induction false} SweepPicksAnObject(m: Maths, u: UnitDraw, objs: seq<Hittable>, n: nat, ray: Ray,
    tMin: XReal, tMax: XReal)
    returns (i: nat, closest: XReal)
    requires n <= |objs|
    requires Sweep(m, u, objs, n, ray, tMin, tMax).Some?
    ensures i < n && XLe(closest, tMax)
    ensures Hit(m, u, objs[i], ray, tMin, closest) == Sweep(m, u, objs, n, ray, tMin, tMax)
  {
    var earlier := Sweep(m, u, objs, n - 1, ray, tMin, tMax);
    var latestClosest := if earlier.Some? then Fin(earlier.value.t) else tMax;
    if Hit(m, u, objs[n - 1], ray, tMin, latestClosest).Some? {
      i := n - 1;
      closest := latestClosest;
      if earlier.Some? {
        assert XLe(Fin(earlier.value.t), tMax);
      }
    } else {
      i, closest := SweepPicksAnObject(m, u, objs, n - 1, ray, tMin, tMax);
    }
  }

  /**
   * A BVH node answers as the two-object list of its children does, once
   * the ray meets its box.
   */
  lemma BvhNodeIsPairList(m: Maths, u: UnitDraw, bbox: AABB, left: Hittable, right: Hittable, ray: Ray,
    tMin: XReal, tMax: XReal)
    ensures Hit(m, u, BvhNode(bbox, left, right), ray, tMin, tMax)
      == if BoxHit(bbox, ray, tMin, tMax) then Sweep(m, u, [left, right], 2, ray, tMin, tMax) else None
  {
    var pair := [left, right];
    assert pair[0] == left && pair[1] == right;
    assert Sweep(m, u, pair, 1, ray, tMin, tMax) == Hit(m, u, left, ray, tMin, tMax);
  }

  /** A translated object answers with the inner object's hit on the moved ray, moved back. */
  lemma TranslatedHit(m: Maths, u: UnitDraw, obj: Hittable, offset: Vec3, ray: Ray, tMin: XReal, tMax: XReal)
    ensures var moved := TranslateRay(ray, offset);
      var inner := Hit(m, u, obj, moved, tMin, tMax);
      var outer := Hit(m, u, TranslateObj(obj, offset), ray, tMin, tMax);
      (outer.Some? <==> inner.Some?) && (inner.Some? ==> outer.value == TranslateRecord(inner.value, moved, offset))
  {
  }

  /** A rotated object answers with the inner object's hit on the turned ray, turned back. */
  lemma RotatedHit(m: Maths, u: UnitDraw, obj: Hittable, plane: Plane, c: real, s: real, bbox: Option<AABB>,
    ray: Ray, tMin: XReal, tMax: XReal)
    ensures var turned := RotateRay(ray, plane, c, s);
      var inner := Hit(m, u, obj, turned, tMin, tMax);
      var outer := Hit(m, u, RotateObj(obj, plane, c, s, bbox), ray, tMin, tMax);
      (outer.Some? <==> inner.Some?) && (inner.Some? ==> outer.value == RotateRecord(inner.value, turned, plane, c, s))
  {
  }

  /**
   * Translating by zero keeps every hit's parameter and material, but `Add`
   * moves its point to `(p.x, p.x, p.z)`.
   */
  lemma TranslateByZero(m: Maths, u: UnitDraw, obj: Hittable, ray: Ray, tMin: XReal, tMax: XReal)
    ensures Hit(m, u, TranslateObj(obj, Zero()), ray, tMin, tMax).Some?
      <==> Hit(m, u, obj, ray, tMin, tMax).Some?
    ensures Hit(m, u, obj, ray, tMin, tMax).Some? ==>
      var inner := Hit(m, u, obj, ray, tMin, tMax).value;
      var outer := Hit(m, u, TranslateObj(obj, Zero()), ray, tMin, tMax).value;
      outer.t == inner.t && outer.material == inner.material && outer.p == Vec3(inner.p.x, inner.p.x, inner.p.z)
  {
    assert Sub(ray.origin, Zero()) == ray.origin;
    assert TranslateRay(ray, Zero()) == ray;
    TranslatedHit(m, u, obj, Zero(), ray, tMin, tMax);
  }

  /** Rotating by zero degrees keeps every hit's point, parameter and material. */
  lemma RotateByZeroDegrees(m: Maths, u: UnitDraw, obj: Hittable, plane: Plane, bbox: Option<AABB>,
    ray: Ray, tMin: XReal, tMax: XReal)
    ensures Hit(m, u, RotateObj(obj, plane, 1.0, 0.0, bbox), ray, tMin, tMax).Some?
      <==> Hit(m, u, obj, ray, tMin, tMax).Some?
    ensures Hit(m, u, obj, ray, tMin, tMax).Some? ==>
      var inner := Hit(m, u, obj, ray, tMin, tMax).value;
      var outer := Hit(m, u, RotateObj(obj, plane, 1.0, 0.0, bbox), ray, tMin, tMax).value;
      outer.t == inner.t && outer.material == inner.material && outer.p == inner.p
  {
    RotateByZero(ray.origin, plane);
    RotateByZero(ray.direction, plane);
    assert RotateRay(ray, plane, 1.0, 0.0) == ray;
    RotatedHit(m, u, obj, plane, 1.0, 0.0, bbox, ray, tMin, tMax);
    var inner := Hit(m, u, obj, ray, tMin, tMax);
    if inner.Some? {
      RotateByZero(inner.value.p, plane);
    }
  }

  /** `bounding_box`, for every kind of object; `None` where an object has none. */
  function BoundingBox(h: Hittable, time0: real, time1: real): Option<AABB>
    decreases h, 1
  {
    match h
    case SphereObj(s) => Some(SphereBox(s.centre, s.radius))
    case MovingSphereObj(s) => Some(MovingSphereBox(s, time0, time1))
    case RectObj(rect) => Some(RectBox(rect))
    case BoxObj(min, max, _) => Some(AABB(Lift(min), Lift(max)))
    case ListObj(objects) => ListBox(objects, |objects|, time0, time1)
    case BvhNode(bbox, _, _) => Some(bbox)
    case TranslateObj(obj, offset) =>
      (match BoundingBox(obj, time0, time1)
       case None => None
       case Some(box) => Some(TranslateBox(box, offset)))
    case RotateObj(_, _, _, _, rotatedBox) => rotatedBox
    case MediumObj(boundary, _, _) => BoundingBox(boundary, time0, time1)
  }

  /** A list's box is the box of all its objects. */
  lemma ListObjBox(objects: seq<Hittable>, time0: real, time1: real)
    ensures BoundingBox(ListObj(objects), time0, time1) == ListBox(objects, |objects|, time0, time1)
  {
  }

  /**
   * `HittableList::bounding_box` over the first `n` objects: nothing for an
   * empty list, nothing as soon as one object has no box, else the box
   * surrounding them all.
   */
  function ListBox(objs: seq<Hittable>, n: nat, time0: real, time1: real): Option<AABB>
    requires n <= |objs|
    decreases objs, n
  {
    if n == 0 then None
    else if n == 1 then BoundingBox(objs[0], time0, time1)
    else
      match (ListBox(objs, n - 1, time0, time1), BoundingBox(objs[n - 1], time0, time1))
      case (Some(sofar), Some(next)) => Some(SurroundingBox(sofar, next))
      case _ => None
  }

  /** A list has no box exactly when it is empty or one of its objects has none. */
  lemma {:induction false} ListBoxNoneIff(objs: seq<Hittable>, n: nat, time0: real, time1: real)
    requires n <= |objs|
    ensures ListBox(objs, n, time0, time1).None?
      <==> n == 0 || exists i :: 0 <= i < n && BoundingBox(objs[i], time0, time1).None?
  {
    if n > 1 {
      ListBoxNoneIff(objs, n - 1, time0, time1);
    }
  }

  /** One more object with a box: the prefix's box grows to surround it. */
  lemma ListBoxGrows(objs: seq<Hittable>, i: nat, time0: real, time1: real, sofar: Option<AABB>, next: AABB)
    requires i < |objs|
    requires ListBox(objs, i, time0, time1) == sofar && (i > 0 ==> sofar.Some?)
    requires BoundingBox(objs[i], time0, time1) == Some(next)
    ensures ListBox(objs, i + 1, time0, time1) == Some(if sofar.Some? then SurroundingBox(sofar.value, next) else next)
  {
  }

  /** Once a non-empty prefix has no box, no longer prefix has one. */
  lemma {:induction false} ListBoxStaysNone(objs: seq<Hittable>, k: nat, n: nat, time0: real, time1: real)
    requires 1 <= k <= n <= |objs|
    requires ListBox(objs, k, time0, time1).None?
    ensures ListBox(objs, n, time0, time1).None?
  {
    if k < n {
      ListBoxStaysNone(objs, k, n - 1, time0, time1);
    }
  }

  /** A list's box holds the box of every object in it. */
  lemma {:induction false} ListBoxCovers(objs: seq<Hittable>, n: nat, time0: real, time1: real, i: nat)
    requires i < n <= |objs|
    requires ListBox(objs, n, time0, time1).Some?
    ensures BoundingBox(objs[i], time0, time1).Some?
    ensures Within(BoundingBox(objs[i], time0, time1).value, ListBox(objs, n, time0, time1).value)
  {
    var box := ListBox(objs, n, time0, time1).value;
    if n == 1 {
      SurroundingBoxIdempotent(box);
      WithinSelf(box);
    } else {
      var sofar := ListBox(objs, n - 1, time0, time1);
      var next := BoundingBox(objs[n - 1], time0, time1);
      if i < n - 1 {
        ListBoxCovers(objs, n - 1, time0, time1, i);
        WithinTrans(BoundingBox(objs[i], time0, time1).value, sofar.value, box);
      }
    }
  }

  /** Any box holding every object's box holds the list's box: it is the smallest. */
  lemma {:induction false} ListBoxIsLeast(objs: seq<Hittable>, n: nat, time0: real, time1: real, outer: AABB)
    requires n <= |objs|
    requires ListBox(objs, n, time0, time1).Some?
    requires forall i :: 0 <= i < n ==>
      BoundingBox(objs[i], time0, time1).Some? && Within(BoundingBox(objs[i], time0, time1).value, outer)
    ensures Within(ListBox(objs, n, time0, time1).value, outer)
  {
    if n > 1 {
      ListBoxIsLeast(objs, n - 1, time0, time1, outer);
      SurroundingBoxIsLeast(ListBox(objs, n - 1, time0, time1).value,
        BoundingBox(objs[n - 1], time0, time1).value, outer);
    }
  }
}
