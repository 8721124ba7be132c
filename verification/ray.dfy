/**
 * Rays `P(t) = origin + direction * t`, stamped with the time at which they
 * are cast (the moving sphere uses it).
 */
module Rays {
  import opened Vectors

  datatype Ray = Ray(origin: Vec3, direction: Vec3, time: real)

  /**
   * `at`: the point at parameter `t`. The sum goes through the renderer's
   * `Add`, so the y component is `origin.x + t * direction.y`.
   */
  function At(ray: Ray, t: real): (p: Vec3)
    ensures p.x == ray.origin.x + t * ray.direction.x
    ensures p.y == ray.origin.x + t * ray.direction.y
    ensures p.z == ray.origin.z + t * ray.direction.z
  {
    Add(ray.origin, Scale(ray.direction, t))
  }

  /** The coordinate `o + t * d` reached along one axis. */
  function Along(o: real, d: real, t: real): real
  {
    o + t * d
  }

  /**
   * The point `origin + t * direction` computed componentwise, as the slab
   * test, the rectangle test and the sphere's quadratic measure it.
   */
  function PointAt(ray: Ray, t: real): (p: Vec3)
    ensures forall i: Axis :: p.Ix(i) == Along(ray.origin.Ix(i), ray.direction.Ix(i), t)
  {
    Vec3(Along(ray.origin.x, ray.direction.x, t), Along(ray.origin.y, ray.direction.y, t),
      Along(ray.origin.z, ray.direction.z, t))
  }

  /** `at` and the componentwise point differ exactly in y, unless the origin's x and y agree. */
  lemma AtIsPointAtOnlyOnDiagonal(ray: Ray, t: real)
    ensures At(ray, t).x == PointAt(ray, t).x && At(ray, t).z == PointAt(ray, t).z
    ensures At(ray, t) == PointAt(ray, t) <==> ray.origin.x == ray.origin.y
  {
    if ray.origin.x != ray.origin.y {
      assert At(ray, t).y != PointAt(ray, t).y;
    }
  }

  /** The point at `t = 0` is the origin only when the origin's x and y agree. */
  lemma AtZeroIsOriginOnlyOnDiagonal(ray: Ray)
    ensures At(ray, 0.0) == ray.origin <==> ray.origin.x == ray.origin.y
  {
    var p := At(ray, 0.0);
    if ray.origin.x == ray.origin.y {
      assert p == Vec3(ray.origin.x, ray.origin.y, ray.origin.z);
    } else {
      assert p.y != ray.origin.y;
    }
  }
}
