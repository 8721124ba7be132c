/**
 * Axis-aligned bounding boxes and the slab test.
 *
 * A corner is a triple of extended reals: the box that `Rotate` computes keeps
 * its z extent at -∞ and +∞, and the slab test divides such corners.
 */
module Boxes {
  import opened Numbers
  import opened Vectors
  import opened Rays

  /** A `Vec3` whose components may be infinite. */
  datatype XVec3 = XVec3(x: XReal, y: XReal, z: XReal)
  {
    function Ix(i: Axis): XReal
    {
      if i == 0 then x else if i == 1 then y else z
    }

    function Set(i: Axis, v: XReal): (r: XVec3)
      ensures r.Ix(i) == v
      ensures forall j: Axis :: j != i ==> r.Ix(j) == Ix(j)
    {
      if i == 0 then XVec3(v, y, z) else if i == 1 then XVec3(x, v, z) else XVec3(x, y, v)
    }
  }

  function Lift(v: Vec3): (r: XVec3)
    ensures forall i: Axis :: r.Ix(i) == Fin(v.Ix(i))
  {
    XVec3(Fin(v.x), Fin(v.y), Fin(v.z))
  }

  datatype AABB = AABB(min: XVec3, max: XVec3)

  /** `inner` lies within `outer` on every axis. */
  predicate Within(inner: AABB, outer: AABB)
  {
    forall i: Axis ::
      XLe(outer.min.Ix(i), inner.min.Ix(i)) && XLe(inner.max.Ix(i), outer.max.Ix(i))
  }

  lemma WithinSelf(box: AABB)
    ensures Within(box, box)
  {
  }

  lemma WithinTrans(a: AABB, b: AABB, c: AABB)
    requires Within(a, b) && Within(b, c)
    ensures Within(a, c)
  {
    forall i: Axis
      ensures XLe(c.min.Ix(i), a.min.Ix(i)) && XLe(a.max.Ix(i), c.max.Ix(i))
    {
      XLeTrans(c.min.Ix(i), b.min.Ix(i), a.min.Ix(i));
      XLeTrans(a.max.Ix(i), b.max.Ix(i), c.max.Ix(i));
    }
  }

  /** The point `p` lies in the closed box. */
  predicate Contains(box: AABB, p: Vec3)
  {
    forall i: Axis :: XLe(box.min.Ix(i), Fin(p.Ix(i))) && XLe(Fin(p.Ix(i)), box.max.Ix(i))
  }

  /** `surrounding_box`: componentwise minimum of the minima and maximum of the maxima. */
  function SurroundingBox(box0: AABB, box1: AABB): (r: AABB)
    ensures Within(box0, r) && Within(box1, r)
    ensures forall i: Axis ::
      (r.min.Ix(i) == box0.min.Ix(i) || r.min.Ix(i) == box1.min.Ix(i))
      && (r.max.Ix(i) == box0.max.Ix(i) || r.max.Ix(i) == box1.max.Ix(i))
  {
    AABB(
      XVec3(XMin(box0.min.x, box1.min.x), XMin(box0.min.y, box1.min.y), XMin(box0.min.z, box1.min.z)),
      XVec3(XMax(box0.max.x, box1.max.x), XMax(box0.max.y, box1.max.y), XMax(box0.max.z, box1.max.z)))
  }

  /** The surrounding box is the smallest box that holds both. */
  lemma SurroundingBoxIsLeast(box0: AABB, box1: AABB, outer: AABB)
    requires Within(box0, outer) && Within(box1, outer)
    ensures Within(SurroundingBox(box0, box1), outer)
  {
    var r := SurroundingBox(box0, box1);
    forall i: Axis
      ensures XLe(outer.min.Ix(i), r.min.Ix(i)) && XLe(r.max.Ix(i), outer.max.Ix(i))
    {
      assert XLe(outer.min.Ix(i), box0.min.Ix(i)) && XLe(outer.min.Ix(i), box1.min.Ix(i));
      assert XLe(box0.max.Ix(i), outer.max.Ix(i)) && XLe(box1.max.Ix(i), outer.max.Ix(i));
    }
  }

  lemma SurroundingBoxIdempotent(b: AABB)
    ensures SurroundingBox(b, b) == b
  {
  }

  /** The order of the two boxes does not matter. */
  lemma SurroundingBoxCommutes(box0: AABB, box1: AABB)
    ensures SurroundingBox(box0, box1) == SurroundingBox(box1, box0)
  {
    var r, s := SurroundingBox(box0, box1), SurroundingBox(box1, box0);
    forall i: Axis
      ensures r.min.Ix(i) == s.min.Ix(i) && r.max.Ix(i) == s.max.Ix(i)
    {
      XMinCommutes(box0.min.Ix(i), box1.min.Ix(i));
      XMaxCommutes(box0.max.Ix(i), box1.max.Ix(i));
    }
    assert r.min.Ix(0) == s.min.Ix(0) && r.min.Ix(1) == s.min.Ix(1) && r.min.Ix(2) == s.min.Ix(2);
    assert r.max.Ix(0) == s.max.Ix(0) && r.max.Ix(1) == s.max.Ix(1) && r.max.Ix(2) == s.max.Ix(2);
  }

  lemma XMinCommutes(a: XReal, b: XReal)
    ensures XMin(a, b) == XMin(b, a)
  {
  }

  lemma XMaxCommutes(a: XReal, b: XReal)
    ensures XMax(a, b) == XMax(b, a)
  {
  }

  /*
   * The slab test. For one axis with origin `o` and direction `d`, the source
   * computes `inv = 1 / d`, the two parameters `(lo - o) * inv` and
   * `(hi - o) * inv`, their minimum `t0` and maximum `t1`, and SWAPS them when
   * `inv < 0`. A zero direction gives `inv = +∞`: a corner on the far side of
   * the origin goes to ±∞, and a corner level with the origin gives NaN, which
   * `f64::min` and `f64::max` skip in favour of the other operand.
   */

  /** `(x - o) * +∞`, with `None` for the NaN of a corner level with the origin. */
  function TimesInfinity(x: XReal, o: real): (r: Option<XReal>)
    ensures r.None? <==> x == Fin(o)
    ensures r.Some? ==> !r.value.Fin?
  {
    match x
    case NegInf => Some(NegInf)
    case PosInf => Some(PosInf)
    case Fin(v) => if v > o then Some(PosInf) else if v < o then Some(NegInf) else None
  }

  /** `f64::min` on operands that may be NaN (`None`). */
  function NaNMin(a: Option<XReal>, b: Option<XReal>): Option<XReal>
  {
    if a.None? then b else if b.None? then a else Some(XMin(a.value, b.value))
  }

  function NaNMax(a: Option<XReal>, b: Option<XReal>): Option<XReal>
  {
    if a.None? then b else if b.None? then a else Some(XMax(a.value, b.value))
  }

  /**
   * The pair `(t0, t1)` that one axis contributes, after the swap; `None` when
   * both are NaN, in which case the axis leaves the interval as it is.
   */
  function SlabEnds(lo: XReal, hi: XReal, o: real, d: real): (ends: Option<(XReal, XReal)>)
    ensures ends.None? ==> d == 0.0 && lo == hi == Fin(o)
    ensures d != 0.0 ==> ends.Some?
    ensures d < 0.0 ==> XLe(ends.value.1, ends.value.0)
  {
    if d == 0.0 then
      var a, b := TimesInfinity(lo, o), TimesInfinity(hi, o);
      var t0, t1 := NaNMin(a, b), NaNMax(a, b);
      if t0.None? then None else Some((t0.value, t1.value))
    else
      var inv := 1.0 / d;
      var a, b := XAffine(lo, o, inv), XAffine(hi, o, inv);
      var t0, t1 := XMin(a, b), XMax(a, b);
      if inv < 0.0 then Some((t1, t0)) else Some((t0, t1))
  }

  function Ends(box: AABB, ray: Ray, i: Axis): Option<(XReal, XReal)>
  {
    SlabEnds(box.min.Ix(i), box.max.Ix(i), ray.origin.Ix(i), ray.direction.Ix(i))
  }

  /** `t_min = t_min.max(t0)`. */
  function RaiseLow(lo: XReal, ends: Option<(XReal, XReal)>): (r: XReal)
    ensures XLe(lo, r)
  {
    if ends.None? then lo else XMax(lo, ends.value.0)
  }

  /** `t_max = t_max.min(t1)`. */
  function LowerHigh(hi: XReal, ends: Option<(XReal, XReal)>): (r: XReal)
    ensures XLe(r, hi)
  {
    if ends.None? then hi else XMin(hi, ends.value.1)
  }

  /** The outcome of the loop from axis `i` on, with the running interval `(lo, hi)`. */
  function SlabFrom(box: AABB, ray: Ray, i: nat, lo: XReal, hi: XReal): bool
    requires i <= 3
    decreases 3 - i
  {
    if i == 3 then true
    else
      var lo', hi' := RaiseLow(lo, Ends(box, ray, i)), LowerHigh(hi, Ends(box, ray, i));
      if XLe(hi', lo') then false else SlabFrom(box, ray, i + 1, lo', hi')
  }

  /** `AABB::hit`. */
  predicate BoxHit(box: AABB, ray: Ray, tMin: XReal, tMax: XReal)
  {
    SlabFrom(box, ray, 0, tMin, tMax)
  }

  /** `AABB::hit` as the source runs it: a loop over the three axes with an early exit. */
  method SlabTest(box: AABB, ray: Ray, tMin: XReal, tMax: XReal) returns (hit: bool)
    ensures hit == BoxHit(box, ray, tMin, tMax)
  {
    var lo, hi := tMin, tMax;
    for i := 0 to 3
      invariant SlabFrom(box, ray, i, lo, hi) == BoxHit(box, ray, tMin, tMax)
    {
      var o, d := ray.origin.Ix(i), ray.direction.Ix(i);
      if d != 0.0 {
        var inv := 1.0 / d;
        var a := XAffine(box.min.Ix(i), o, inv);
        var b := XAffine(box.max.Ix(i), o, inv);
        var t0 := XMin(a, b);
        var t1 := XMax(a, b);
        if inv < 0.0 {
          t0, t1 := t1, t0;
        }
        lo := XMax(lo, t0);
        hi := XMin(hi, t1);
      } else {
        var ends := SlabEnds(box.min.Ix(i), box.max.Ix(i), o, d);
        if ends.Some? {
          lo := XMax(lo, ends.value.0);
          hi := XMin(hi, ends.value.1);
        }
      }
      if XLe(hi, lo) {
        return false;
      }
    }
    return true;
  }

  /** The lower end of the interval once every axis from `i` on has been applied. */
  function Lowest(box: AABB, ray: Ray, i: nat, lo: XReal): (r: XReal)
    requires i <= 3
    ensures XLe(lo, r)
    decreases 3 - i
  {
    if i == 3 then lo
    else
      var r := Lowest(box, ray, i + 1, RaiseLow(lo, Ends(box, ray, i)));
      XLeTrans(lo, RaiseLow(lo, Ends(box, ray, i)), r);
      r
  }

  function Highest(box: AABB, ray: Ray, i: nat, hi: XReal): (r: XReal)
    requires i <= 3
    ensures XLe(r, hi)
    decreases 3 - i
  {
    if i == 3 then hi
    else
      var r := Highest(box, ray, i + 1, LowerHigh(hi, Ends(box, ray, i)));
      XLeTrans(r, LowerHigh(hi, Ends(box, ray, i)), hi);
      r
  }

  /**
   * The early exit changes nothing: the loop succeeds exactly when the interval
   * left after all three axes is non-empty.
   */
  lemma {:induction false} SlabFromFinal(box: AABB, ray: Ray, i: nat, lo: XReal, hi: XReal)
    requires i <= 3
    requires i < 3 || XLt(lo, hi)
    ensures SlabFrom(box, ray, i, lo, hi) <==> XLt(Lowest(box, ray, i, lo), Highest(box, ray, i, hi))
    decreases 3 - i
  {
    if i < 3 {
      var lo', hi' := RaiseLow(lo, Ends(box, ray, i)), LowerHigh(hi, Ends(box, ray, i));
      var l, h := Lowest(box, ray, i + 1, lo'), Highest(box, ray, i + 1, hi');
      assert Lowest(box, ray, i, lo) == l && Highest(box, ray, i, hi) == h;
      if XLe(hi', lo') {
        XLeTrans(h, hi', lo');
        XLeTrans(h, lo', l);
      } else {
        SlabFromFinal(box, ray, i + 1, lo', hi');
      }
    }
  }

  /** The box test succeeds exactly when the clipped parameter interval is non-empty. */
  lemma BoxHitIffInterval(box: AABB, ray: Ray, tMin: XReal, tMax: XReal)
    ensures BoxHit(box, ray, tMin, tMax) <==> XLt(Lowest(box, ray, 0, tMin), Highest(box, ray, 0, tMax))
    ensures BoxHit(box, ray, tMin, tMax) ==> XLt(tMin, tMax)
  {
    SlabFromFinal(box, ray, 0, tMin, tMax);
    var l, h := Lowest(box, ray, 0, tMin), Highest(box, ray, 0, tMax);
    if XLt(l, h) {
      XLeLtTrans(tMin, l, h);
      XLtTrans(tMin, h, tMax);
    }
  }

  lemma XLeLtTrans(a: XReal, b: XReal, c: XReal)
    requires XLe(a, b) && XLt(b, c)
    ensures XLt(a, c)
  {
  }

  /** Every axis `i >= j` that contributes `(t0, t1)` has `t0` at or below the final lower end. */
  lemma {:induction false} LowestAboveEnds(box: AABB, ray: Ray, j: nat, lo: XReal, i: Axis)
    requires j <= i
    requires Ends(box, ray, i).Some?
    ensures XLe(Ends(box, ray, i).value.0, Lowest(box, ray, j, lo))
    decreases 3 - j
  {
    var lo' := RaiseLow(lo, Ends(box, ray, j));
    if j == i {
      XLeTrans(Ends(box, ray, i).value.0, lo', Lowest(box, ray, j + 1, lo'));
    } else {
      LowestAboveEnds(box, ray, j + 1, lo', i);
    }
  }

  lemma {:induction false} HighestBelowEnds(box: AABB, ray: Ray, j: nat, hi: XReal, i: Axis)
    requires j <= i
    requires Ends(box, ray, i).Some?
    ensures XLe(Highest(box, ray, j, hi), Ends(box, ray, i).value.1)
    decreases 3 - j
  {
    var hi' := LowerHigh(hi, Ends(box, ray, j));
    if j == i {
      XLeTrans(Highest(box, ray, j + 1, hi'), hi', Ends(box, ray, i).value.1);
    } else {
      HighestBelowEnds(box, ray, j + 1, hi', i);
    }
  }

  /**
   * Because of the swap, a ray whose direction is negative along any axis
   * never hits any box: that axis contributes `t0 >= t1`.
   */
  lemma NegativeDirectionMisses(box: AABB, ray: Ray, tMin: XReal, tMax: XReal, i: Axis)
    requires ray.direction.Ix(i) < 0.0
    ensures !BoxHit(box, ray, tMin, tMax)
  {
    BoxHitIffInterval(box, ray, tMin, tMax);
    var e := Ends(box, ray, i).value;
    LowestAboveEnds(box, ray, 0, tMin, i);
    HighestBelowEnds(box, ray, 0, tMax, i);
    var l, h := Lowest(box, ray, 0, tMin), Highest(box, ray, 0, tMax);
    XLeTrans(h, e.1, e.0);
    XLeTrans(h, e.0, l);
  }

  /** The final lower end stays below `c` when the start and every `t0` from axis `j` on do. */
  lemma {:induction false} LowestBelow(box: AABB, ray: Ray, j: nat, lo: XReal, c: XReal)
    requires j <= 3
    requires XLt(lo, c)
    requires forall i: Axis :: j <= i && Ends(box, ray, i).Some? ==> XLt(Ends(box, ray, i).value.0, c)
    ensures XLt(Lowest(box, ray, j, lo), c)
    decreases 3 - j
  {
    if j < 3 {
      LowestBelow(box, ray, j + 1, RaiseLow(lo, Ends(box, ray, j)), c);
    }
  }

  lemma {:induction false} HighestAbove(box: AABB, ray: Ray, j: nat, hi: XReal, c: XReal)
    requires j <= 3
    requires XLt(c, hi)
    requires forall i: Axis :: j <= i && Ends(box, ray, i).Some? ==> XLt(c, Ends(box, ray, i).value.1)
    ensures XLt(c, Highest(box, ray, j, hi))
    decreases 3 - j
  {
    if j < 3 {
      HighestAbove(box, ray, j + 1, LowerHigh(hi, Ends(box, ray, j)), c);
    }
  }

  /** Component `i` of the point at `t`, computed per axis as the slab test does. */
  function SlabPoint(ray: Ray, t: real, i: Axis): real
  {
    Along(ray.origin.Ix(i), ray.direction.Ix(i), t)
  }

  /** The slab test measures the point componentwise; `At` agrees on x and z only. */
  lemma SlabPointAndAt(ray: Ray, t: real)
    ensures At(ray, t).x == SlabPoint(ray, t, 0) && At(ray, t).z == SlabPoint(ray, t, 2)
    ensures At(ray, t).y == SlabPoint(ray, t, 1) <==> ray.origin.x == ray.origin.y
  {
  }

  /** For a positive direction, the parameter of a plane is below `t` exactly when the plane is below the point. */
  lemma AffineCompare(x: XReal, o: real, d: real, t: real)
    requires d > 0.0
    ensures XLt(XAffine(x, o, 1.0 / d), Fin(t)) <==> XLt(x, Fin(Along(o, d, t)))
    ensures XLt(Fin(t), XAffine(x, o, 1.0 / d)) <==> XLt(Fin(Along(o, d, t)), x)
  {
    var inv := 1.0 / d;
    assert inv > 0.0;
    assert d * inv == 1.0;
    assert t * d * inv == t * (d * inv) == t;
    if x.Fin? {
      var v := x.r;
      assert (v - o) * inv * d == v - o;
      if (v - o) * inv < t {
        assert (v - o) * inv * d < t * d;
      }
      if (v - o) < t * d {
        assert (v - o) * inv < t * d * inv;
      }
      if t < (v - o) * inv {
        assert t * d < (v - o) * inv * d;
      }
      if t * d < v - o {
        assert t * d * inv < (v - o) * inv;
      }
    }
  }

  lemma AffineMonotone(x: XReal, y: XReal, o: real, inv: real)
    requires inv > 0.0
    requires XLe(x, y)
    ensures XLe(XAffine(x, o, inv), XAffine(y, o, inv))
  {
    if x.Fin? && y.Fin? {
      assert (x.r - o) * inv <= (y.r - o) * inv;
    }
  }

  /** For positive directions, a strictly interior point inside `(tMin, tMax)` makes the test succeed. */
  lemma HitWhenInside(box: AABB, ray: Ray, tMin: XReal, tMax: XReal, t: real)
    requires forall i: Axis :: ray.direction.Ix(i) > 0.0
    requires XLt(tMin, Fin(t)) && XLt(Fin(t), tMax)
    requires forall i: Axis ::
      XLt(box.min.Ix(i), Fin(SlabPoint(ray, t, i))) && XLt(Fin(SlabPoint(ray, t, i)), box.max.Ix(i))
    ensures BoxHit(box, ray, tMin, tMax)
  {
    forall i: Axis
      ensures Ends(box, ray, i).Some?
      ensures XLt(Ends(box, ray, i).value.0, Fin(t)) && XLt(Fin(t), Ends(box, ray, i).value.1)
    {
      var o, d := ray.origin.Ix(i), ray.direction.Ix(i);
      AffineCompare(box.min.Ix(i), o, d, t);
      AffineCompare(box.max.Ix(i), o, d, t);
    }
    LowestBelow(box, ray, 0, tMin, Fin(t));
    HighestAbove(box, ray, 0, tMax, Fin(t));
    XLtTrans(Lowest(box, ray, 0, tMin), Fin(t), Highest(box, ray, 0, tMax));
    BoxHitIffInterval(box, ray, tMin, tMax);
  }

  /**
   * For positive directions and a box whose corners are ordered, a successful
   * test means some parameter in `(tMin, tMax)` puts the point strictly inside
   * the box.
   */
  lemma InsideWhenHit(box: AABB, ray: Ray, tMin: XReal, tMax: XReal) returns (t: real)
    requires forall i: Axis :: ray.direction.Ix(i) > 0.0
    requires forall i: Axis :: XLe(box.min.Ix(i), box.max.Ix(i))
    requires BoxHit(box, ray, tMin, tMax)
    ensures XLt(tMin, Fin(t)) && XLt(Fin(t), tMax)
    ensures forall i: Axis ::
      XLt(box.min.Ix(i), Fin(SlabPoint(ray, t, i))) && XLt(Fin(SlabPoint(ray, t, i)), box.max.Ix(i))
  {
    BoxHitIffInterval(box, ray, tMin, tMax);
    var l, h := Lowest(box, ray, 0, tMin), Highest(box, ray, 0, tMax);
    t := Between(l, h);
    XLeLtTrans(tMin, l, Fin(t));
    XLtLeTrans(Fin(t), h, tMax);
    forall i: Axis
      ensures XLt(box.min.Ix(i), Fin(SlabPoint(ray, t, i))) && XLt(Fin(SlabPoint(ray, t, i)), box.max.Ix(i))
    {
      InsideOneAxis(box, ray, tMin, tMax, t, i);
    }
  }

  lemma InsideOneAxis(box: AABB, ray: Ray, tMin: XReal, tMax: XReal, t: real, i: Axis)
    requires ray.direction.Ix(i) > 0.0
    requires XLe(box.min.Ix(i), box.max.Ix(i))
    requires XLt(Lowest(box, ray, 0, tMin), Fin(t)) && XLt(Fin(t), Highest(box, ray, 0, tMax))
    ensures XLt(box.min.Ix(i), Fin(SlabPoint(ray, t, i))) && XLt(Fin(SlabPoint(ray, t, i)), box.max.Ix(i))
  {
    var l, h := Lowest(box, ray, 0, tMin), Highest(box, ray, 0, tMax);
    var lo, hi, o, d := box.min.Ix(i), box.max.Ix(i), ray.origin.Ix(i), ray.direction.Ix(i);
    assert Ends(box, ray, i) == SlabEnds(lo, hi, o, d);
    LowestAboveEnds(box, ray, 0, tMin, i);
    HighestBelowEnds(box, ray, 0, tMax, i);
    SlabInside(lo, hi, o, d, t, l, h);
  }

  /** One slab: a parameter strictly inside the slab's interval puts the point strictly between the planes. */
  lemma SlabInside(lo: XReal, hi: XReal, o: real, d: real, t: real, l: XReal, h: XReal)
    requires d > 0.0 && XLe(lo, hi)
    requires XLe(SlabEnds(lo, hi, o, d).value.0, l) && XLe(h, SlabEnds(lo, hi, o, d).value.1)
    requires XLt(l, Fin(t)) && XLt(Fin(t), h)
    ensures XLt(lo, Fin(Along(o, d, t))) && XLt(Fin(Along(o, d, t)), hi)
  {
    var inv := 1.0 / d;
    AffineMonotone(lo, hi, o, inv);
    var e := SlabEnds(lo, hi, o, d).value;
    assert e == (XAffine(lo, o, inv), XAffine(hi, o, inv));
    XLeLtTrans(e.0, l, Fin(t));
    XLtLeTrans(Fin(t), h, e.1);
    AffineCompare(lo, o, d, t);
    AffineCompare(hi, o, d, t);
  }

  lemma XLtLeTrans(a: XReal, b: XReal, c: XReal)
    requires XLt(a, b) && XLe(b, c)
    ensures XLt(a, c)
  {
  }
}
