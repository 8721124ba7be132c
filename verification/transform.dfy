/**
 * Instances: an object moved by an offset (`Translate`) or turned about an
 * axis (`Rotate`). Both move the ray into the object's frame, ask the object,
 * and move the record back.
 */
module Transforms {
  import opened Numbers
  import opened Vectors
  import opened Rays
  import opened Boxes
  import opened Records
  import opened Rects

  /** The ray in the translated object's frame: the origin moves back by the offset. */
  function TranslateRay(ray: Ray, offset: Vec3): (r: Ray)
    ensures r.direction == ray.direction && r.time == ray.time
    ensures r.origin == Sub(ray.origin, offset)
  {
    Ray(Sub(ray.origin, offset), ray.direction, ray.time)
  }

  /**
   * The record moved back to the world: the point is shifted by the offset
   * through `Add`, and the record is faced again against the translated ray
   * with its own stored normal.
   */
  function TranslateRecord(rec: HitRecord, translated: Ray, offset: Vec3): (r: HitRecord)
    ensures r.p == Add(rec.p, offset)
    ensures r.frontFace <==> Dot(translated.direction, rec.n) < 0.0
    ensures r.n == rec.n || r.n == Neg(rec.n)
    ensures r.t == rec.t && r.tp == rec.tp && r.material == rec.material
  {
    SetFaceNormal(SetP(rec, Add(rec.p, offset)), translated, rec.n)
  }

  /**
   * A translated object reports the front face for every hit the ray does not
   * graze: the inner record's normal already opposes the ray, so facing it
   * again always finds the front, even where the inner object reported the back.
   */
  lemma TranslateLosesBackFace(rec: HitRecord, ray: Ray, offset: Vec3)
    requires !rec.frontFace
    requires Dot(ray.direction, rec.n) < 0.0
    ensures TranslateRecord(rec, TranslateRay(ray, offset), offset).frontFace
    ensures TranslateRecord(rec, TranslateRay(ray, offset), offset).n == rec.n
  {
  }

  /**
   * Moving `at(t)` of the translated ray back by the offset gives `at(t)` of
   * the original ray in x and z; in y it does so only when
   * `offset.y - offset.x == t * (direction.y - direction.x)`.
   */
  lemma TranslatedPoint(ray: Ray, offset: Vec3, t: real)
    ensures Add(At(TranslateRay(ray, offset), t), offset).x == At(ray, t).x
    ensures Add(At(TranslateRay(ray, offset), t), offset).z == At(ray, t).z
    ensures Add(At(TranslateRay(ray, offset), t), offset).y == At(ray, t).y
      <==> offset.y - offset.x == t * (ray.direction.y - ray.direction.x)
  {
    var d := ray.direction;
    assert t * (d.y - d.x) == t * d.y - t * d.x;
  }

  /** `v + offset` for a box corner, with `Add`'s y component. */
  function XShift(v: XVec3, offset: Vec3): (r: XVec3)
    ensures r.x == XAdd(v.x, offset.x) && r.y == XAdd(v.x, offset.y) && r.z == XAdd(v.z, offset.z)
  {
    XVec3(XAdd(v.x, offset.x), XAdd(v.x, offset.y), XAdd(v.z, offset.z))
  }

  /** `Translate::bounding_box`: both corners shifted by the offset. */
  function TranslateBox(box: AABB, offset: Vec3): (r: AABB)
    ensures r.min == XShift(box.min, offset) && r.max == XShift(box.max, offset)
  {
    AABB(XShift(box.min, offset), XShift(box.max, offset))
  }

  /**
   * The translated box's y extent is the inner box's x extent moved to
   * `offset.y`: its height is the inner box's width, whatever its height was.
   */
  lemma TranslateBoxHeightIsWidth(box: AABB, offset: Vec3)
    requires box.min.x.Fin? && box.max.x.Fin?
    ensures TranslateBox(box, offset).min.y.Fin? && TranslateBox(box, offset).max.y.Fin?
    ensures TranslateBox(box, offset).max.y.r - TranslateBox(box, offset).min.y.r == box.max.x.r - box.min.x.r
  {
  }

  /**
   * World to object for `Rotate`: with `(i, j)` the plane's in-plane axes,
   * `i' = c v_i - s v_j` and `j' = s v_i + c v_j`; the third axis is kept.
   */
  function RotateIn(v: Vec3, plane: Plane, c: real, s: real): (r: Vec3)
    ensures r.Ix(Axes(plane).0) == c * v.Ix(Axes(plane).0) - s * v.Ix(Axes(plane).1)
    ensures r.Ix(Axes(plane).1) == s * v.Ix(Axes(plane).0) + c * v.Ix(Axes(plane).1)
    ensures r.Ix(Axes(plane).2) == v.Ix(Axes(plane).2)
  {
    var (i, j, _) := Axes(plane);
    v.Set(i, c * v.Ix(i) - s * v.Ix(j)).Set(j, s * v.Ix(i) + c * v.Ix(j))
  }

  /** Object to world: `i' = c p_i + s p_j` and `j' = -s p_i + c p_j`. */
  function RotateOut(p: Vec3, plane: Plane, c: real, s: real): (r: Vec3)
    ensures r.Ix(Axes(plane).0) == c * p.Ix(Axes(plane).0) + s * p.Ix(Axes(plane).1)
    ensures r.Ix(Axes(plane).1) == -s * p.Ix(Axes(plane).0) + c * p.Ix(Axes(plane).1)
    ensures r.Ix(Axes(plane).2) == p.Ix(Axes(plane).2)
  {
    var (i, j, _) := Axes(plane);
    p.Set(i, c * p.Ix(i) + s * p.Ix(j)).Set(j, -s * p.Ix(i) + c * p.Ix(j))
  }

  /** The two plane rotations undo each other in both orders when `c² + s² = 1`. */
  lemma RotationInverse(c: real, s: real, a: real, b: real)
    requires c * c + s * s == 1.0
    ensures c * (c * a - s * b) + s * (s * a + c * b) == a
    ensures -s * (c * a - s * b) + c * (s * a + c * b) == b
    ensures c * (c * a + s * b) - s * (-s * a + c * b) == a
    ensures s * (c * a + s * b) + c * (-s * a + c * b) == b
  {
    assert c * (c * a - s * b) + s * (s * a + c * b) == (c * c + s * s) * a;
    assert -s * (c * a - s * b) + c * (s * a + c * b) == (c * c + s * s) * b;
    assert c * (c * a + s * b) - s * (-s * a + c * b) == (c * c + s * s) * a;
    assert s * (c * a + s * b) + c * (-s * a + c * b) == (c * c + s * s) * b;
  }

  /** For a true rotation (`c = cos θ`, `s = sin θ`) the way in and the way back are inverse. */
  lemma RotateRoundTrip(v: Vec3, plane: Plane, c: real, s: real)
    requires c * c + s * s == 1.0
    ensures RotateOut(RotateIn(v, plane, c, s), plane, c, s) == v
    ensures RotateIn(RotateOut(v, plane, c, s), plane, c, s) == v
  {
    var (i, j, k) := Axes(plane);
    RotationInverse(c, s, v.Ix(i), v.Ix(j));
    var u := RotateOut(RotateIn(v, plane, c, s), plane, c, s);
    var w := RotateIn(RotateOut(v, plane, c, s), plane, c, s);
    forall a: Axis
      ensures u.Ix(a) == v.Ix(a) && w.Ix(a) == v.Ix(a)
    {
      AxesCoverAll(plane, a);
    }
    IxExtensional(u, v);
    IxExtensional(w, v);
  }

  /** A rotation by zero degrees moves nothing. */
  lemma RotateByZero(v: Vec3, plane: Plane)
    ensures RotateIn(v, plane, 1.0, 0.0) == v && RotateOut(v, plane, 1.0, 0.0) == v
  {
    var u, w := RotateIn(v, plane, 1.0, 0.0), RotateOut(v, plane, 1.0, 0.0);
    forall a: Axis
      ensures u.Ix(a) == v.Ix(a) && w.Ix(a) == v.Ix(a)
    {
      AxesCoverAll(plane, a);
    }
    IxExtensional(u, v);
    IxExtensional(w, v);
  }

  /** The ray in the rotated object's frame. */
  function RotateRay(ray: Ray, plane: Plane, c: real, s: real): (r: Ray)
    ensures r.origin == RotateIn(ray.origin, plane, c, s)
    ensures r.direction == RotateIn(ray.direction, plane, c, s)
    ensures r.time == ray.time
  {
    Ray(RotateIn(ray.origin, plane, c, s), RotateIn(ray.direction, plane, c, s), ray.time)
  }

  /**
   * The record moved back to the world: point and normal turned out of the
   * object's frame, and the face decided against the ray in the object's frame.
   */
  function RotateRecord(rec: HitRecord, rotated: Ray, plane: Plane, c: real, s: real): (r: HitRecord)
    ensures r.p == RotateOut(rec.p, plane, c, s)
    ensures r.frontFace <==> Dot(rotated.direction, RotateOut(rec.n, plane, c, s)) < 0.0
    ensures r.n == RotateOut(rec.n, plane, c, s) || r.n == Neg(RotateOut(rec.n, plane, c, s))
    ensures r.t == rec.t && r.tp == rec.tp && r.material == rec.material
  {
    SetFaceNormal(SetP(rec, RotateOut(rec.p, plane, c, s)), rotated, RotateOut(rec.n, plane, c, s))
  }

  /*
   * `Rotate::new`'s bounding box. The eight corners of the inner box are
   * visited in the order `(i, j, k)` of three nested loops; each is turned in
   * the x-z plane, whatever the rotation's plane, and only components 0 and 1
   * of the running minimum and maximum are updated.
   */

  /** Every corner of the box is finite. */
  predicate Finite(box: AABB)
  {
    && box.min.x.Fin? && box.min.y.Fin? && box.min.z.Fin?
    && box.max.x.Fin? && box.max.y.Fin? && box.max.z.Fin?
  }

  /** The corner the loops visit at `(i, j, k)`: `x = i max.x + (1 - i) min.x`, and so on. */
  function CornerOf(box: AABB, i: int, j: int, k: int): Vec3
    requires Finite(box)
  {
    Vec3(
      (i as real) * box.max.x.r + ((1 - i) as real) * box.min.x.r,
      (j as real) * box.max.y.r + ((1 - j) as real) * box.min.y.r,
      (k as real) * box.max.z.r + ((1 - k) as real) * box.min.z.r)
  }

  /** The `n`-th corner visited, `n = 4 i + 2 j + k`. */
  function Corner(box: AABB, n: nat): Vec3
    requires Finite(box) && n < 8
  {
    var i := if n >= 4 then 1 else 0;
    var j := if n - 4 * i >= 2 then 1 else 0;
    CornerOf(box, i, j, n - 4 * i - 2 * j)
  }

  /** Corner `4 i + 2 j + k` is the one the loops visit at `(i, j, k)`. */
  lemma CornerIndex(box: AABB, i: int, j: int, k: int)
    requires Finite(box) && 0 <= i < 2 && 0 <= j < 2 && 0 <= k < 2
    ensures Corner(box, 4 * i + 2 * j + k) == CornerOf(box, i, j, k)
  {
  }

  /** The coordinates the loop body computes are those of `CornerOf`, turned. */
  lemma TurnedCorner(box: AABB, c: real, s: real, i: int, j: int, k: int, x: real, y: real, z: real)
    requires Finite(box)
    requires x == (i as real) * box.max.x.r + ((1 - i) as real) * box.min.x.r
    requires y == (j as real) * box.max.y.r + ((1 - j) as real) * box.min.y.r
    requires z == (k as real) * box.max.z.r + ((1 - k) as real) * box.min.z.r
    ensures Vec3(c * x + s * z, y, -s * x + c * z) == Turned(c, s, CornerOf(box, i, j, k))
  {
  }

  /** A corner turned as `Rotate::new` turns it: `(c x + s z, y, -s x + c z)`. */
  function Turned(c: real, s: real, p: Vec3): Vec3
  {
    Vec3(c * p.x + s * p.z, p.y, -s * p.x + c * p.z)
  }

  /**
   * The box is turned the opposite way to the hits: for the ZX plane, a
   * point's x goes out of the object's frame as `c x - s z` but the box's
   * corners as `c x + s z`.
   */
  lemma BoxTurnsAgainstHits(c: real, s: real, p: Vec3)
    ensures RotateOut(p, ZX, c, s).x == c * p.x - s * p.z
    ensures Turned(c, s, p).x == c * p.x + s * p.z
    ensures s * p.z != 0.0 ==> RotateOut(p, ZX, c, s).x != Turned(c, s, p).x
  {
    assert Axes(ZX) == (2, 0, 1);
  }

  /** The body of the innermost loop over `a`, run for the first `a` axes. */
  function Absorb(lo: XVec3, hi: XVec3, temp: Vec3, a: nat): (r: (XVec3, XVec3))
    requires a <= 2
  {
    if a == 0 then (lo, hi)
    else
      var (l, h) := Absorb(lo, hi, temp, a - 1);
      (l.Set(a - 1, XMin(l.Ix(a - 1), Fin(temp.Ix(a - 1)))), h.Set(a - 1, XMax(h.Ix(a - 1), Fin(temp.Ix(a - 1)))))
  }

  /** One corner absorbed: components 0 and 1 widened to take `temp` in, component 2 kept. */
  function Widen(lo: XVec3, hi: XVec3, temp: Vec3): (XVec3, XVec3)
  {
    (XVec3(XMin(lo.x, Fin(temp.x)), XMin(lo.y, Fin(temp.y)), lo.z),
     XVec3(XMax(hi.x, Fin(temp.x)), XMax(hi.y, Fin(temp.y)), hi.z))
  }

  /** The loop over `a` widens the extent by one corner. */
  lemma AbsorbWidens(lo: XVec3, hi: XVec3, temp: Vec3)
    ensures Absorb(lo, hi, temp, 2) == Widen(lo, hi, temp)
  {
    var l1, h1 := lo.Set(0, XMin(lo.x, Fin(temp.x))), hi.Set(0, XMax(hi.x, Fin(temp.x)));
    assert Absorb(lo, hi, temp, 1) == (l1, h1);
    assert Absorb(lo, hi, temp, 2) == (l1.Set(1, XMin(l1.y, Fin(temp.y))), h1.Set(1, XMax(h1.y, Fin(temp.y))));
  }

  /** The running minimum and maximum after the first `n` corners. */
  function Extent(box: AABB, c: real, s: real, n: nat): (XVec3, XVec3)
    requires Finite(box) && n <= 8
  {
    if n == 0 then (XVec3(PosInf, PosInf, PosInf), XVec3(NegInf, NegInf, NegInf))
    else
      var (lo, hi) := Extent(box, c, s, n - 1);
      Widen(lo, hi, Turned(c, s, Corner(box, n - 1)))
  }

  /** The rotated box's z extent is never touched: it stays at +∞ and -∞. */
  lemma {:induction false} ExtentKeepsZ(box: AABB, c: real, s: real, n: nat)
    requires Finite(box) && n <= 8
    ensures Extent(box, c, s, n).0.z == PosInf && Extent(box, c, s, n).1.z == NegInf
  {
    if n > 0 {
      ExtentKeepsZ(box, c, s, n - 1);
    }
  }

  /** After `n` corners, components 0 and 1 of the extent bound every corner seen so far. */
  lemma {:induction false} ExtentBoundsCorners(box: AABB, c: real, s: real, n: nat, m: nat, a: Axis)
    requires Finite(box) && m < n <= 8 && a < 2
    ensures XLe(Extent(box, c, s, n).0.Ix(a), Fin(Turned(c, s, Corner(box, m)).Ix(a)))
    ensures XLe(Fin(Turned(c, s, Corner(box, m)).Ix(a)), Extent(box, c, s, n).1.Ix(a))
  {
    var (lo, hi) := Extent(box, c, s, n - 1);
    var corner := Fin(Turned(c, s, Corner(box, m)).Ix(a));
    if m < n - 1 {
      ExtentBoundsCorners(box, c, s, n - 1, m, a);
      XLeTrans(Extent(box, c, s, n).0.Ix(a), lo.Ix(a), corner);
      XLeTrans(corner, hi.Ix(a), Extent(box, c, s, n).1.Ix(a));
    }
  }

  /** Any bound below (above) every corner's component is below (above) the extent's. */
  lemma {:induction false} ExtentIsTight(box: AABB, c: real, s: real, n: nat, a: Axis, low: XReal, high: XReal)
    requires Finite(box) && n <= 8 && a < 2
    requires forall m :: 0 <= m < n ==> XLe(low, Fin(Turned(c, s, Corner(box, m)).Ix(a)))
    requires forall m :: 0 <= m < n ==> XLe(Fin(Turned(c, s, Corner(box, m)).Ix(a)), high)
    ensures XLe(low, Extent(box, c, s, n).0.Ix(a))
    ensures XLe(Extent(box, c, s, n).1.Ix(a), high)
  {
    if n > 0 {
      ExtentIsTight(box, c, s, n - 1, a, low, high);
      assert XLe(low, Fin(Turned(c, s, Corner(box, n - 1)).Ix(a)));
      assert XLe(Fin(Turned(c, s, Corner(box, n - 1)).Ix(a)), high);
    }
  }

  /** The innermost loop of `Rotate::new`: components 0 and 1 of the extent take one corner in. */
  method AbsorbCorner(lo: XVec3, hi: XVec3, temp: Vec3) returns (min: XVec3, max: XVec3)
    ensures (min, max) == Widen(lo, hi, temp)
  {
    min, max := lo, hi;
    for a := 0 to 2
      invariant (min, max) == Absorb(lo, hi, temp, a)
    {
      min := min.Set(a, XMin(min.Ix(a), Fin(temp.Ix(a))));
      max := max.Set(a, XMax(max.Ix(a), Fin(temp.Ix(a))));
    }
    AbsorbWidens(lo, hi, temp);
  }

  /** `Rotate::new`'s box computation, with its three nested loops over the corners. */
  method RotatedBox(box: AABB, c: real, s: real) returns (r: AABB)
    requires Finite(box)
    ensures r == AABB(Extent(box, c, s, 8).0, Extent(box, c, s, 8).1)
  {
    var min := XVec3(PosInf, PosInf, PosInf);
    var max := XVec3(NegInf, NegInf, NegInf);
    ghost var n := 0;
    for i := 0 to 2
      invariant n == 4 * i && (min, max) == Extent(box, c, s, n)
    {
      for j := 0 to 2
        invariant n == 4 * i + 2 * j && (min, max) == Extent(box, c, s, n)
      {
        for k := 0 to 2
          invariant n == 4 * i + 2 * j + k && (min, max) == Extent(box, c, s, n)
        {
          min, max := VisitCorner(box, c, s, i, j, k, n, min, max);
          n := n + 1;
        }
      }
    }
    r := AABB(min, max);
  }

  /** The body of the loop over `k`: the corner at `(i, j, k)` turned in x–z and absorbed. */
  method VisitCorner(box: AABB, c: real, s: real, i: int, j: int, k: int, ghost n: nat, lo: XVec3, hi: XVec3)
    returns (min: XVec3, max: XVec3)
    requires Finite(box) && 0 <= i < 2 && 0 <= j < 2 && 0 <= k < 2
    requires n == 4 * i + 2 * j + k && (lo, hi) == Extent(box, c, s, n)
    ensures (min, max) == Extent(box, c, s, n + 1)
  {
    var x := (i as real) * box.max.x.r + ((1 - i) as real) * box.min.x.r;
    var y := (j as real) * box.max.y.r + ((1 - j) as real) * box.min.y.r;
    var z := (k as real) * box.max.z.r + ((1 - k) as real) * box.min.z.r;
    var newX := c * x + s * z;
    var newZ := -s * x + c * z;
    var temp := Vec3(newX, y, newZ);
    CornerIndex(box, i, j, k);
    TurnedCorner(box, c, s, i, j, k, x, y, z);
    min, max := AbsorbCorner(lo, hi, temp);
    ExtentStep(box, c, s, n);
  }

  /** One more corner visited widens the extent by that corner, turned. */
  lemma ExtentStep(box: AABB, c: real, s: real, n: nat)
    requires Finite(box) && n < 8
    ensures Extent(box, c, s, n + 1) == Widen(Extent(box, c, s, n).0, Extent(box, c, s, n).1, Turned(c, s, Corner(box, n)))
  {
  }

  /**
   * Along an axis where a box runs from +∞ down to -∞, as the rotated box does
   * along z, a ray that does not travel backwards is not restricted at all.
   */
  lemma InvertedInfiniteAxisIsOpen(box: AABB, ray: Ray, lo: XReal, hi: XReal)
    requires box.min.z == PosInf && box.max.z == NegInf
    requires ray.direction.z >= 0.0
    ensures Ends(box, ray, 2) == Some((NegInf, PosInf))
    ensures RaiseLow(lo, Ends(box, ray, 2)) == lo && LowerHigh(hi, Ends(box, ray, 2)) == hi
  {
  }
}
