/**
 * Spheres: the quadratic intersection, the spherical texture coordinates and
 * the bounding box.
 */
module Spheres {
  import opened Numbers
  import opened Vectors
  import opened Rays
  import opened Boxes
  import opened Records

  /** A sphere; a zero radius would make the normal's division panic. */
  datatype Sphere = Sphere(centre: Vec3, radius: NonZero, material: Material)

  /** `!(t < t_min || t > t_max)`: the closed interval test of the hit functions. */
  predicate InRange(t: real, tMin: XReal, tMax: XReal)
  {
    XLe(tMin, Fin(t)) && XLe(Fin(t), tMax)
  }

  /** The two roots `(-half_b ∓ sqrt(discriminant)) / a` of the sphere's quadratic. */
  function NearRoot(m: Maths, a: real, halfB: real, c: real): real
    requires a != 0.0
  {
    (-halfB - m.sqrt(halfB * halfB - a * c)) / a
  }

  function FarRoot(m: Maths, a: real, halfB: real, c: real): real
    requires a != 0.0
  {
    (-halfB + m.sqrt(halfB * halfB - a * c)) / a
  }

  /**
   * The root choice of `hit`: no root when the discriminant is negative,
   * otherwise the near root if it is in range, else the far root if it is in
   * range. A direction of length zero (`a == 0`) gives no root here.
   */
  function QuadraticRoot(m: Maths, a: real, halfB: real, c: real, tMin: XReal, tMax: XReal): (r: Option<real>)
    ensures r.Some? ==> InRange(r.value, tMin, tMax)
    ensures r.Some? ==> a != 0.0 && halfB * halfB - a * c >= 0.0
    ensures r.Some? ==> r.value == NearRoot(m, a, halfB, c) || r.value == FarRoot(m, a, halfB, c)
    ensures a != 0.0 && halfB * halfB - a * c >= 0.0 && InRange(NearRoot(m, a, halfB, c), tMin, tMax)
      ==> r == Some(NearRoot(m, a, halfB, c))
    ensures a != 0.0 && halfB * halfB - a * c >= 0.0 && !InRange(NearRoot(m, a, halfB, c), tMin, tMax)
      ==> (r.Some? <==> InRange(FarRoot(m, a, halfB, c), tMin, tMax))
  {
    if a == 0.0 || halfB * halfB - a * c < 0.0 then None
    else if InRange(NearRoot(m, a, halfB, c), tMin, tMax) then Some(NearRoot(m, a, halfB, c))
    else if InRange(FarRoot(m, a, halfB, c), tMin, tMax) then Some(FarRoot(m, a, halfB, c))
    else None
  }

  /** For a positive leading coefficient the near root is the smaller one. */
  lemma NearRootFirst(m: Maths, a: real, halfB: real, c: real)
    requires a > 0.0 && halfB * halfB - a * c >= 0.0
    ensures NearRoot(m, a, halfB, c) <= FarRoot(m, a, halfB, c)
  {
    var s := m.sqrt(halfB * halfB - a * c);
    assert s >= 0.0;
    DivideMonotone(-halfB - s, -halfB + s, a);
  }

  lemma DivideMonotone(x: real, y: real, a: real)
    requires a > 0.0 && x <= y
    ensures x / a <= y / a
  {
  }

  /** With exact square roots, both roots solve `a t² + 2 half_b t + c = 0`. */
  lemma RootsSolveQuadratic(m: Maths, a: real, halfB: real, c: real)
    requires ExactSqrt(m)
    requires a != 0.0 && halfB * halfB - a * c >= 0.0
    ensures Quadratic(a, halfB, c, NearRoot(m, a, halfB, c)) == 0.0
    ensures Quadratic(a, halfB, c, FarRoot(m, a, halfB, c)) == 0.0
  {
    var s := m.sqrt(halfB * halfB - a * c);
    assert s * s == halfB * halfB - a * c;
    RootSolves(a, halfB, c, s, -halfB - s);
    RootSolves(a, halfB, c, s, -halfB + s);
  }

  /** `a t² + 2 half_b t + c`. */
  function Quadratic(a: real, halfB: real, c: real, t: real): real
  {
    a * (t * t) + 2.0 * halfB * t + c
  }

  /** `t = u / a` with `u = -half_b ± s` and `s² = half_b² - a c` is a root. */
  lemma RootSolves(a: real, halfB: real, c: real, s: real, u: real)
    requires a != 0.0
    requires s * s == halfB * halfB - a * c
    requires u == -halfB - s || u == -halfB + s
    ensures Quadratic(a, halfB, c, u / a) == 0.0
  {
    var t := u / a;
    assert a * t == u;
    assert (u + halfB) * (u + halfB) == s * s;
    assert a * Quadratic(a, halfB, c, t) == u * u + 2.0 * halfB * u + a * c by {
      assert a * (a * (t * t)) == (a * t) * (a * t);
      assert a * (2.0 * halfB * t) == 2.0 * halfB * (a * t);
    }
    assert u * u + 2.0 * halfB * u + a * c == (u + halfB) * (u + halfB) - (halfB * halfB - a * c);
    ZeroProduct(a, Quadratic(a, halfB, c, t));
  }

  lemma ZeroProduct(a: real, b: real)
    requires a != 0.0 && a * b == 0.0
    ensures b == 0.0
  {
  }

  function Square(x: real): real
  {
    x * x
  }

  lemma Expand(o: real, d: real, t: real)
    ensures Square(o + t * d) == o * o + 2.0 * t * (o * d) + (t * t) * (d * d)
  {
  }

  /**
   * A root of the sphere's quadratic puts `origin + t direction` at distance
   * `r` from the centre, stated in components: `o` is the origin's offset from
   * the centre, `d` the direction.
   */
  lemma SphereIdentity(ox: real, oy: real, oz: real, dx: real, dy: real, dz: real, t: real, rr: real,
    a: real, halfB: real, c: real)
    requires a == dx * dx + dy * dy + dz * dz
    requires halfB == ox * dx + oy * dy + oz * dz
    requires c == (ox * ox + oy * oy + oz * oz) - rr
    requires Quadratic(a, halfB, c, t) == 0.0
    ensures SquaredOffset(ox, oy, oz, dx, dy, dz, t) == rr
  {
    ExpandAll(ox, oy, oz, dx, dy, dz, t);
    Collect(ox, oy, oz, dx, dy, dz, t, rr, a, halfB, c);
  }

  /** `|o + t d|²` in components. */
  function SquaredOffset(ox: real, oy: real, oz: real, dx: real, dy: real, dz: real, t: real): real
  {
    Square(ox + t * dx) + Square(oy + t * dy) + Square(oz + t * dz)
  }

  /** The three squares expanded. */
  lemma ExpandAll(ox: real, oy: real, oz: real, dx: real, dy: real, dz: real, t: real)
    ensures Square(ox + t * dx) + Square(oy + t * dy) + Square(oz + t * dz)
      == (ox * ox + oy * oy + oz * oz) + 2.0 * t * (ox * dx) + 2.0 * t * (oy * dy) + 2.0 * t * (oz * dz)
        + (t * t) * (dx * dx) + (t * t) * (dy * dy) + (t * t) * (dz * dz)
  {
    Expand(ox, dx, t);
    Expand(oy, dy, t);
    Expand(oz, dz, t);
  }

  /** The expanded squares regrouped by the quadratic's coefficients. */
  lemma Collect(ox: real, oy: real, oz: real, dx: real, dy: real, dz: real, t: real, rr: real,
    a: real, halfB: real, c: real)
    requires a == dx * dx + dy * dy + dz * dz
    requires halfB == ox * dx + oy * dy + oz * dz
    requires c == (ox * ox + oy * oy + oz * oz) - rr
    ensures (ox * ox + oy * oy + oz * oz) + 2.0 * t * (ox * dx) + 2.0 * t * (oy * dy) + 2.0 * t * (oz * dz)
        + (t * t) * (dx * dx) + (t * t) * (dy * dy) + (t * t) * (dz * dz)
      == rr + Quadratic(a, halfB, c, t)
  {
    var tt := t * t;
    assert tt * (dx * dx) + tt * (dy * dy) + tt * (dz * dz) == tt * a;
    assert 2.0 * t * (ox * dx) + 2.0 * t * (oy * dy) + 2.0 * t * (oz * dz) == 2.0 * t * halfB;
  }

  /** The squared distance of `origin + t direction` from the centre, in components. */
  lemma OffsetComponents(ray: Ray, sphereCentre: Vec3, t: real)
    ensures LengthSquared(Sub(PointAt(ray, t), sphereCentre))
      == SquaredOffset(Sub(ray.origin, sphereCentre).x, Sub(ray.origin, sphereCentre).y,
        Sub(ray.origin, sphereCentre).z, ray.direction.x, ray.direction.y, ray.direction.z, t)
  {
  }

  /**
   * The laws of `acos` and `atan2` that bound the texture coordinates. `acos`
   * is bounded only on `[-1, 1]`: outside it `f64` gives NaN.
   */
  ghost predicate TrigRanges(m: Maths)
  {
    && (forall x :: -1.0 <= x <= 1.0 ==> 0.0 <= m.acos(x) <= PI)
    && (forall y, x :: -PI <= m.atan2(y, x) <= PI)
  }

  /**
   * `Sphere::tp`: longitude and latitude of a point on the unit sphere, scaled
   * to [0, 1]. The latitude is in range only for `p.y` in `[-1, 1]`; a point
   * off the unit sphere further out gives NaN in the source.
   */
  function SphereTexturePoint(m: Maths, p: Vec3): (tp: TexturePoint)
    ensures TrigRanges(m) ==> 0.0 <= tp.u <= 1.0
    ensures TrigRanges(m) && -1.0 <= p.y <= 1.0 ==> 0.0 <= tp.v <= 1.0
  {
    var theta := m.acos(-p.y);
    var phi := m.atan2(-p.z, p.x) + PI;
    TexturePoint(phi / (2.0 * PI), theta / PI)
  }

  /** `Sphere::hit`. */
  function SphereHit(m: Maths, centre: Vec3, radius: NonZero, material: Material, ray: Ray, tMin: XReal, tMax: XReal)
    : (r: Option<HitRecord>)
    ensures r.Some? ==> InRange(r.value.t, tMin, tMax)
    ensures r.Some? ==> r.value.p == At(ray, r.value.t) && r.value.material == material
    ensures r.Some? ==> Dot(ray.direction, r.value.n) <= 0.0
    ensures r.Some? ==> var outward := Div(Sub(r.value.p, centre), radius);
      && (r.value.frontFace <==> Dot(ray.direction, outward) < 0.0)
      && r.value.n == (if r.value.frontFace then outward else Neg(outward))
      && r.value.tp == SphereTexturePoint(m, outward)
    ensures r.Some? ==> QuadraticRoot(m, Dot(ray.direction, ray.direction),
      Dot(Sub(ray.origin, centre), ray.direction),
      Dot(Sub(ray.origin, centre), Sub(ray.origin, centre)) - radius * radius, tMin, tMax) == Some(r.value.t)
    ensures r.None? <==> QuadraticRoot(m, Dot(ray.direction, ray.direction),
      Dot(Sub(ray.origin, centre), ray.direction),
      Dot(Sub(ray.origin, centre), Sub(ray.origin, centre)) - radius * radius, tMin, tMax).None?
  {
    var oc := Sub(ray.origin, centre);
    var a := Dot(ray.direction, ray.direction);
    var halfB := Dot(oc, ray.direction);
    var c := Dot(oc, oc) - radius * radius;
    match QuadraticRoot(m, a, halfB, c, tMin, tMax)
    case None => None
    case Some(root) =>
      var p := At(ray, root);
      var outward := Div(Sub(p, centre), radius);
      var tp := SphereTexturePoint(m, outward);
      Some(SetFaceNormal(HitRecord(p, outward, root, tp, true, material), ray, outward))
  }

  /**
   * With exact square roots, a sphere hit at `t` is a true intersection:
   * `origin + t direction` lies on the sphere.
   */
  lemma SphereHitOnSurface(m: Maths, centre: Vec3, radius: NonZero, material: Material, ray: Ray,
    tMin: XReal, tMax: XReal)
    requires ExactSqrt(m)
    requires SphereHit(m, centre, radius, material, ray, tMin, tMax).Some?
    ensures LengthSquared(Sub(PointAt(ray, SphereHit(m, centre, radius, material, ray, tMin, tMax).value.t), centre))
      == radius * radius
  {
    var oc := Sub(ray.origin, centre);
    var a := Dot(ray.direction, ray.direction);
    var halfB := Dot(oc, ray.direction);
    var c := Dot(oc, oc) - radius * radius;
    var t := SphereHit(m, centre, radius, material, ray, tMin, tMax).value.t;
    SelectedRootSolves(m, a, halfB, c, t, tMin, tMax);
    RootOnSphere(centre, radius, ray, a, halfB, c, t);
  }

  /** A root of the sphere's quadratic puts `origin + t direction` on the sphere. */
  lemma RootOnSphere(centre: Vec3, radius: real, ray: Ray, a: real, halfB: real, c: real, t: real)
    requires a == Dot(ray.direction, ray.direction)
    requires halfB == Dot(Sub(ray.origin, centre), ray.direction)
    requires c == Dot(Sub(ray.origin, centre), Sub(ray.origin, centre)) - radius * radius
    requires Quadratic(a, halfB, c, t) == 0.0
    ensures LengthSquared(Sub(PointAt(ray, t), centre)) == radius * radius
  {
    var oc := Sub(ray.origin, centre);
    var d := ray.direction;
    SphereIdentity(oc.x, oc.y, oc.z, d.x, d.y, d.z, t, radius * radius, a, halfB, c);
    OffsetComponents(ray, centre, t);
  }

  /** With exact square roots, the root the sphere test selects solves the quadratic. */
  lemma SelectedRootSolves(m: Maths, a: real, halfB: real, c: real, t: real, tMin: XReal, tMax: XReal)
    requires ExactSqrt(m)
    requires QuadraticRoot(m, a, halfB, c, tMin, tMax) == Some(t)
    ensures Quadratic(a, halfB, c, t) == 0.0
  {
    RootsSolveQuadratic(m, a, halfB, c);
  }

  /** `Sphere::bounding_box`: the corners `centre - r` and `centre + r`, the latter through `Add`. */
  function SphereBox(centre: Vec3, radius: real): (box: AABB)
    ensures box.min == Lift(Vec3(centre.x - radius, centre.y - radius, centre.z - radius))
    ensures box.max == Lift(Vec3(centre.x + radius, centre.x + radius, centre.z + radius))
  {
    var rv := Vec3(radius, radius, radius);
    AABB(Lift(Sub(centre, rv)), Lift(Add(centre, rv)))
  }

  /**
   * The box bounds the sphere's y extent only when the centre's x is at
   * least its y: its top is `centre.x + r`, not `centre.y + r`.
   */
  lemma SphereBoxCoversY(centre: Vec3, radius: real)
    ensures XLe(Fin(centre.y + radius), SphereBox(centre, radius).max.y) <==> centre.y <= centre.x
  {
  }
}
