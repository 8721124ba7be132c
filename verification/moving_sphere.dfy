/**
 * A sphere whose centre moves along a line between two key times.
 */
module MovingSpheres {
  import opened Numbers
  import opened Vectors
  import opened Rays
  import opened Boxes
  import opened Records
  import opened Spheres

  datatype MovingSphereData = MovingSphereData(
    centre0: Vec3, centre1: Vec3,
    time0: real, time1: real,
    radius: real,
    material: Material)

  /**
   * A moving sphere. The key times differ (the centre divides by their
   * difference) and the radius is not zero (the normal divides by it).
   */
  type MovingSphere = s: MovingSphereData | s.time0 != s.time1 && s.radius != 0.0
    witness MovingSphereData(Zero(), Zero(), 0.0, 1.0, 1.0, Metal(Zero(), 0.0))

  /** The fraction of the way from `time0` to `time1` that `time` lies. */
  function Progress(s: MovingSphere, time: real): real
  {
    (time - s.time0) / (s.time1 - s.time0)
  }

  /** `centre(time)`: `centre0` plus the scaled displacement, summed through `Add`. */
  function Centre(s: MovingSphere, time: real): (c: Vec3)
    ensures c.x == s.centre0.x + (s.centre1.x - s.centre0.x) * Progress(s, time)
    ensures c.y == s.centre0.x + (s.centre1.y - s.centre0.y) * Progress(s, time)
    ensures c.z == s.centre0.z + (s.centre1.z - s.centre0.z) * Progress(s, time)
  {
    Add(s.centre0, Scale(Sub(s.centre1, s.centre0), Progress(s, time)))
  }

  /**
   * At the key times the centre is `centre0` and `centre1` in x and z; its y is
   * `centre0.x` at `time0` and `centre0.x + centre1.y - centre0.y` at `time1`.
   */
  lemma CentreAtKeyTimes(s: MovingSphere)
    ensures Centre(s, s.time0) == Vec3(s.centre0.x, s.centre0.x, s.centre0.z)
    ensures Centre(s, s.time1) == Vec3(s.centre1.x, s.centre0.x + s.centre1.y - s.centre0.y, s.centre1.z)
    ensures Centre(s, s.time0) == s.centre0 <==> s.centre0.x == s.centre0.y
  {
    assert Progress(s, s.time0) == 0.0;
    SelfQuotient(s.time1 - s.time0);
    assert Progress(s, s.time1) == 1.0;
  }

  /** A sphere that does not move sits at `(c.x, c.x, c.z)` at every time. */
  lemma StationaryCentre(s: MovingSphere, time: real)
    requires s.centre0 == s.centre1
    ensures Centre(s, time) == Vec3(s.centre0.x, s.centre0.x, s.centre0.z)
  {
  }

  /**
   * `MovingSphere::hit`: the sphere test against the centre at the ray's
   * time. It misses on a negative discriminant, takes the near root when it is
   * in range and the far root otherwise, and faces the normal
   * `(p - centre(time)) / r` against the ray.
   */
  function MovingSphereHit(m: Maths, s: MovingSphere, ray: Ray, tMin: XReal, tMax: XReal): (r: Option<HitRecord>)
    ensures r.Some? ==> InRange(r.value.t, tMin, tMax)
    ensures r.Some? ==> r.value.p == At(ray, r.value.t) && r.value.material == s.material
    ensures r.Some? ==> Dot(ray.direction, r.value.n) <= 0.0
    ensures r.Some? ==> var outward := Div(Sub(r.value.p, Centre(s, ray.time)), s.radius);
      && (r.value.frontFace <==> Dot(ray.direction, outward) < 0.0)
      && r.value.n == (if r.value.frontFace then outward else Neg(outward))
      && r.value.tp == SphereTexturePoint(m, outward)
    ensures r == SphereHit(m, Centre(s, ray.time), s.radius, s.material, ray, tMin, tMax)
  {
    SphereHit(m, Centre(s, ray.time), s.radius, s.material, ray, tMin, tMax)
  }

  /**
   * `MovingSphere::bounding_box`: the box around `centre(time0) - r` and
   * `centre(time1) + r`, surrounded with the box around `centre(time1)`.
   */
  function MovingSphereBox(s: MovingSphere, time0: real, time1: real): (box: AABB)
    ensures Within(AABB(Lift(Sub(Centre(s, time0), Vec3(s.radius, s.radius, s.radius))),
      Lift(Add(Centre(s, time1), Vec3(s.radius, s.radius, s.radius)))), box)
    ensures Within(SphereBox(Centre(s, time1), s.radius), box)
    ensures var rv := Vec3(s.radius, s.radius, s.radius);
      forall i: Axis :: box.min.Ix(i) == XMin(Lift(Sub(Centre(s, time0), rv)).Ix(i), Lift(Sub(Centre(s, time1), rv)).Ix(i))
  {
    var rv := Vec3(s.radius, s.radius, s.radius);
    var box0 := AABB(Lift(Sub(Centre(s, time0), rv)), Lift(Add(Centre(s, time1), rv)));
    var box1 := AABB(Lift(Sub(Centre(s, time1), rv)), Lift(Add(Centre(s, time1), rv)));
    SurroundingBox(box0, box1)
  }

  /**
   * Both boxes share their upper corner, so the box's upper corner is that of
   * the sphere at `time1` alone: the sphere at `time0` is not bounded from
   * above.
   */
  lemma MovingSphereBoxTop(s: MovingSphere, time0: real, time1: real)
    ensures MovingSphereBox(s, time0, time1).max == SphereBox(Centre(s, time1), s.radius).max
  {
    var box := MovingSphereBox(s, time0, time1);
    var top := SphereBox(Centre(s, time1), s.radius).max;
    forall i: Axis
      ensures box.max.Ix(i) == top.Ix(i)
    {
      XMaxSelf(top.Ix(i));
    }
    assert box.max == XVec3(box.max.Ix(0), box.max.Ix(1), box.max.Ix(2));
  }
}
