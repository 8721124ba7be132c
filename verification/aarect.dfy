/**
 * Axis-aligned rectangles and the six-sided boxes built from them.
 */
module Rects {
  import opened Numbers
  import opened Vectors
  import opened Rays
  import opened Boxes
  import opened Records
  import opened Spheres

  /** The plane a rectangle lies in. */
  datatype Plane = XY | YZ | ZX

  /**
   * `axes`: the two in-plane axes `(a, b)` and the normal axis `k`. The three
   * are distinct and follow the cyclic order x, y, z, so `a × b` points along
   * `k`.
   */
  function Axes(plane: Plane): (axes: (Axis, Axis, Axis))
    ensures axes.0 != axes.1 && axes.1 != axes.2 && axes.0 != axes.2
    ensures axes.1 == (axes.0 + 1) % 3 && axes.2 == (axes.0 + 2) % 3
  {
    match plane
    case XY => (0, 1, 2)
    case YZ => (1, 2, 0)
    case ZX => (2, 0, 1)
  }

  /** Every axis is one of a plane's three axes. */
  lemma AxesCoverAll(plane: Plane, i: Axis)
    ensures i == Axes(plane).0 || i == Axes(plane).1 || i == Axes(plane).2
  {
  }

  /** `AARect`: the rectangle `[a0, a1] × [b0, b1]` at height `k` on the normal axis. */
  datatype Rect = Rect(plane: Plane, a0: real, a1: real, b0: real, b1: real, k: real, material: Material)

  /**
   * The parameter at which the ray meets the rectangle's plane. A direction
   * parallel to the plane (where f64 gives ±∞ or NaN) has none.
   */
  function PlaneT(rect: Rect, ray: Ray): (t: Option<real>)
    ensures t.Some? <==> ray.direction.Ix(Axes(rect.plane).2) != 0.0
    ensures t.Some? ==> Along(ray.origin.Ix(Axes(rect.plane).2), ray.direction.Ix(Axes(rect.plane).2), t.value) == rect.k
  {
    var ik := Axes(rect.plane).2;
    var d := ray.direction.Ix(ik);
    if d == 0.0 then None
    else
      var t := (rect.k - ray.origin.Ix(ik)) / d;
      DivCancels(rect.k - ray.origin.Ix(ik), d);
      Some(t)
  }

  /** Only one parameter reaches a plane the ray is not parallel to. */
  lemma PlaneTUnique(rect: Rect, ray: Ray, t: real)
    requires Along(ray.origin.Ix(Axes(rect.plane).2), ray.direction.Ix(Axes(rect.plane).2), t) == rect.k
    requires ray.direction.Ix(Axes(rect.plane).2) != 0.0
    ensures PlaneT(rect, ray) == Some(t)
  {
    var ik := Axes(rect.plane).2;
    var o, d := ray.origin.Ix(ik), ray.direction.Ix(ik);
    assert t * d == rect.k - o;
    QuotientOfProduct(t, d);
  }

  lemma QuotientOfProduct(t: real, d: real)
    requires d != 0.0
    ensures (t * d) / d == t
  {
  }

  /** A texture coordinate: where `x` sits between `lo` and `hi`, 0 on a degenerate edge. */
  function EdgeRatio(x: real, lo: real, hi: real): (u: real)
    ensures lo < hi && lo <= x <= hi ==> 0.0 <= u <= 1.0
  {
    if hi == lo then 0.0
    else
      RatioInUnit(x, lo, hi);
      (x - lo) / (hi - lo)
  }

  lemma RatioInUnit(x: real, lo: real, hi: real)
    requires lo != hi
    ensures lo < hi && lo <= x <= hi ==> 0.0 <= (x - lo) / (hi - lo) <= 1.0
  {
    if lo < hi && lo <= x <= hi {
      DivideMonotone(x - lo, hi - lo, hi - lo);
      DivideMonotone(0.0, x - lo, hi - lo);
      SelfQuotient(hi - lo);
    }
  }

  /** The unit vector along axis `k`: `zero()` with component `k` set to 1. */
  function AxisNormal(k: Axis): (n: Vec3)
    ensures n.Ix(k) == 1.0
    ensures forall j: Axis :: j != k ==> n.Ix(j) == 0.0
  {
    Zero().Set(k, 1.0)
  }

  /** The in-plane coordinates reached at `t` lie within the rectangle. */
  predicate OnRect(rect: Rect, ray: Ray, t: real)
  {
    var (ia, ib, _) := Axes(rect.plane);
    var a := Along(ray.origin.Ix(ia), ray.direction.Ix(ia), t);
    var b := Along(ray.origin.Ix(ib), ray.direction.Ix(ib), t);
    rect.a0 <= a <= rect.a1 && rect.b0 <= b <= rect.b1
  }

  /**
   * `AARect::hit`: the parameter where the ray meets the plane, if it is in
   * range and the in-plane coordinates fall within the rectangle.
   */
  function RectHit(rect: Rect, ray: Ray, tMin: XReal, tMax: XReal): (r: Option<HitRecord>)
    ensures r.Some? ==> InRange(r.value.t, tMin, tMax)
    ensures r.Some? ==> PlaneT(rect, ray) == Some(r.value.t) && OnRect(rect, ray, r.value.t)
    ensures r.Some? ==> r.value.p == At(ray, r.value.t) && r.value.material == rect.material
    ensures r.Some? ==> r.value.n == AxisNormal(Axes(rect.plane).2) || r.value.n == Neg(AxisNormal(Axes(rect.plane).2))
    ensures r.Some? ==> Dot(ray.direction, r.value.n) <= 0.0
    ensures r.Some? ==> (rect.a0 < rect.a1 && rect.b0 < rect.b1 ==>
      0.0 <= r.value.tp.u <= 1.0 && 0.0 <= r.value.tp.v <= 1.0)
    ensures (PlaneT(rect, ray).Some? && InRange(PlaneT(rect, ray).value, tMin, tMax)
      && OnRect(rect, ray, PlaneT(rect, ray).value)) ==> r.Some?
  {
    match PlaneT(rect, ray)
    case None => None
    case Some(t) =>
      if !InRange(t, tMin, tMax) then None
      else
        var (ia, ib, ik) := Axes(rect.plane);
        var a := Along(ray.origin.Ix(ia), ray.direction.Ix(ia), t);
        var b := Along(ray.origin.Ix(ib), ray.direction.Ix(ib), t);
        if a < rect.a0 || a > rect.a1 || b < rect.b0 || b > rect.b1 then None
        else
          var outward := AxisNormal(ik);
          var tp := TexturePoint(EdgeRatio(a, rect.a0, rect.a1), EdgeRatio(b, rect.b0, rect.b1));
          Some(SetFaceNormal(HitRecord(At(ray, t), outward, t, tp, true, rect.material), ray, outward))
  }

  /** Any parameter in range at which the ray crosses the rectangle is the one reported. */
  lemma RectHitComplete(rect: Rect, ray: Ray, tMin: XReal, tMax: XReal, t: real)
    requires ray.direction.Ix(Axes(rect.plane).2) != 0.0
    requires Along(ray.origin.Ix(Axes(rect.plane).2), ray.direction.Ix(Axes(rect.plane).2), t) == rect.k
    requires InRange(t, tMin, tMax) && OnRect(rect, ray, t)
    ensures RectHit(rect, ray, tMin, tMax).Some? && RectHit(rect, ray, tMin, tMax).value.t == t
  {
    PlaneTUnique(rect, ray, t);
  }

  /** The thickness the rectangle's box is given along its normal axis. */
  const Depth: real := 0.0001

  /** `AARect::bounding_box`: the rectangle, thickened by `Depth` on each side of the plane. */
  function RectBox(rect: Rect): (box: AABB)
    ensures box.min.Ix(Axes(rect.plane).0) == Fin(rect.a0) && box.max.Ix(Axes(rect.plane).0) == Fin(rect.a1)
    ensures box.min.Ix(Axes(rect.plane).1) == Fin(rect.b0) && box.max.Ix(Axes(rect.plane).1) == Fin(rect.b1)
    ensures box.min.Ix(Axes(rect.plane).2) == Fin(rect.k - Depth)
    ensures box.max.Ix(Axes(rect.plane).2) == Fin(rect.k + Depth)
  {
    var order := Axes(rect.plane);
    AABB(Lift(Zero().SetAll(order, (rect.a0, rect.b0, rect.k - Depth))),
      Lift(Zero().SetAll(order, (rect.a1, rect.b1, rect.k + Depth))))
  }

  /** Every point a rectangle reports a hit at lies within the rectangle's box. */
  lemma RectHitInBox(rect: Rect, ray: Ray, tMin: XReal, tMax: XReal)
    requires RectHit(rect, ray, tMin, tMax).Some?
    ensures Contains(RectBox(rect), PointAt(ray, RectHit(rect, ray, tMin, tMax).value.t))
  {
    var t := RectHit(rect, ray, tMin, tMax).value.t;
    CrossingOnRect(rect, ray, t);
    PointInRectBox(rect, PointAt(ray, t));
  }

  /** The point where the ray crosses the rectangle, in the plane's coordinates. */
  lemma CrossingOnRect(rect: Rect, ray: Ray, t: real)
    requires PlaneT(rect, ray) == Some(t) && OnRect(rect, ray, t)
    ensures var p := PointAt(ray, t);
      && rect.a0 <= p.Ix(Axes(rect.plane).0) <= rect.a1
      && rect.b0 <= p.Ix(Axes(rect.plane).1) <= rect.b1
      && p.Ix(Axes(rect.plane).2) == rect.k
  {
  }

  /** A point on the rectangle lies within its box. */
  lemma PointInRectBox(rect: Rect, p: Vec3)
    requires rect.a0 <= p.Ix(Axes(rect.plane).0) <= rect.a1
    requires rect.b0 <= p.Ix(Axes(rect.plane).1) <= rect.b1
    requires p.Ix(Axes(rect.plane).2) == rect.k
    ensures Contains(RectBox(rect), p)
  {
    var box := RectBox(rect);
    forall i: Axis
      ensures XLe(box.min.Ix(i), Fin(p.Ix(i))) && XLe(Fin(p.Ix(i)), box.max.Ix(i))
    {
      AxesCoverAll(rect.plane, i);
    }
  }

  /** `rect` is a face of the box `[min, max]`: it spans the box in-plane and sits at one end of its normal axis. */
  predicate FaceOf(rect: Rect, min: Vec3, max: Vec3)
  {
    var (ia, ib, ik) := Axes(rect.plane);
    && rect.a0 == min.Ix(ia) && rect.a1 == max.Ix(ia)
    && rect.b0 == min.Ix(ib) && rect.b1 == max.Ix(ib)
    && (rect.k == min.Ix(ik) || rect.k == max.Ix(ik))
  }

  /** The six rectangles `AABox::new` adds: top and bottom of each axis, in the source's order. */
  function BoxSides(min: Vec3, max: Vec3, material: Material): (sides: seq<Rect>)
    ensures |sides| == 6
    ensures forall i :: 0 <= i < 6 ==> FaceOf(sides[i], min, max) && sides[i].material == material
  {
    [ Rect(XY, min.x, max.x, min.y, max.y, max.z, material),
      Rect(XY, min.x, max.x, min.y, max.y, min.z, material),
      Rect(ZX, min.z, max.z, min.x, max.x, max.y, material),
      Rect(ZX, min.z, max.z, min.x, max.x, min.y, material),
      Rect(YZ, min.y, max.y, min.z, max.z, max.x, material),
      Rect(YZ, min.y, max.y, min.z, max.z, min.x, material) ]
  }

  /** Each of the box's six faces is among the sides: the sides close the box. */
  lemma BoxSidesCoverEveryFace(min: Vec3, max: Vec3, material: Material, axis: Axis, top: bool)
    returns (i: nat)
    ensures i < 6
    ensures Axes(BoxSides(min, max, material)[i].plane).2 == axis
    ensures BoxSides(min, max, material)[i].k == (if top then max.Ix(axis) else min.Ix(axis))
  {
    i := (if axis == 2 then 0 else if axis == 1 then 2 else 4) + (if top then 0 else 1);
  }

  /** A point where a face of `[min, max]` is hit lies on the box, when the box is not inverted. */
  lemma FaceHitOnBox(rect: Rect, min: Vec3, max: Vec3, ray: Ray, tMin: XReal, tMax: XReal)
    requires FaceOf(rect, min, max)
    requires forall i: Axis :: min.Ix(i) <= max.Ix(i)
    requires RectHit(rect, ray, tMin, tMax).Some?
    ensures Contains(AABB(Lift(min), Lift(max)), PointAt(ray, RectHit(rect, ray, tMin, tMax).value.t))
  {
    var t := RectHit(rect, ray, tMin, tMax).value.t;
    CrossingOnRect(rect, ray, t);
    PointOnFace(rect, min, max, PointAt(ray, t));
  }

  /** A point on a face of an ordered box lies in the box. */
  lemma PointOnFace(rect: Rect, min: Vec3, max: Vec3, p: Vec3)
    requires FaceOf(rect, min, max)
    requires forall i: Axis :: min.Ix(i) <= max.Ix(i)
    requires rect.a0 <= p.Ix(Axes(rect.plane).0) <= rect.a1
    requires rect.b0 <= p.Ix(Axes(rect.plane).1) <= rect.b1
    requires p.Ix(Axes(rect.plane).2) == rect.k
    ensures Contains(AABB(Lift(min), Lift(max)), p)
  {
    forall i: Axis
      ensures XLe(Fin(min.Ix(i)), Fin(p.Ix(i))) && XLe(Fin(p.Ix(i)), Fin(max.Ix(i)))
    {
      AxesCoverAll(rect.plane, i);
    }
  }
}
