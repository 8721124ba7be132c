/**
 * `ray_colour`: the colour a ray carries back, found by following its
 * bounces through the world up to a depth.
 */
module Integrator {
  import opened Numbers
  import opened Vectors
  import opened Rays
  import opened Records
  import opened Materials
  import opened Spheres
  import opened Scene

  /** The smallest parameter a bounce may hit at, so a ray does not hit the surface it leaves. */
  const ShadowAcne: real := 0.001

  /**
   * `ray_colour` for a world of objects. The bounce at depth `d` uses the
   * medium draw `u(d)` and the scattering draws `draws(d)`. `None` where the
   * renderer panics: a dielectric normalising a zero-length ray direction.
   */
  function RayColour(m: Maths, u: nat -> UnitDraw, draws: nat -> Bounce, world: seq<Hittable>,
    background: Vec3, depth: nat, ray: Ray): (r: Option<Vec3>)
    decreases depth
  {
    if depth == 0 then Some(Zero())
    else
      match Sweep(m, u(depth), world, |world|, ray, Fin(ShadowAcne), PosInf)
      case None => Some(background)
      case Some(rec) =>
        var emitted := Emit(rec.material, rec.tp, rec.p);
        if !CanScatter(m, rec.material, ray) then None
        else
          match Scatter(m, rec.material, ray, rec, draws(depth))
          case None => Some(emitted)
          case Some(scattered) =>
            match RayColour(m, u, draws, world, background, depth - 1, scattered.ray)
            case None => None
            case Some(incoming) => Some(Add(emitted, Mul(incoming, scattered.colour)))
  }

  /** Out of bounces, a ray carries no light. */
  lemma DepthExhaustedIsBlack(m: Maths, u: nat -> UnitDraw, draws: nat -> Bounce, world: seq<Hittable>,
    background: Vec3, ray: Ray)
    ensures RayColour(m, u, draws, world, background, 0, ray) == Some(Zero())
  {
  }

  /** A ray that hits nothing carries the background. */
  lemma MissIsBackground(m: Maths, u: nat -> UnitDraw, draws: nat -> Bounce, world: seq<Hittable>,
    background: Vec3, depth: nat, ray: Ray)
    requires depth > 0
    requires forall i :: 0 <= i < |world| ==> Hit(m, u(depth), world[i], ray, Fin(ShadowAcne), PosInf).None?
    ensures RayColour(m, u, draws, world, background, depth, ray) == Some(background)
  {
    SweepMissesIffAllMiss(m, u(depth), world, |world|, ray, Fin(ShadowAcne), PosInf);
  }

  /** A ray whose closest hit is a light carries exactly the light's emission: lights do not scatter. */
  lemma LightIsItsEmission(m: Maths, u: nat -> UnitDraw, draws: nat -> Bounce, world: seq<Hittable>,
    background: Vec3, depth: nat, ray: Ray)
    requires depth > 0
    requires Sweep(m, u(depth), world, |world|, ray, Fin(ShadowAcne), PosInf).Some?
    requires Sweep(m, u(depth), world, |world|, ray, Fin(ShadowAcne), PosInf).value.material.DiffuseLight?
    ensures var rec := Sweep(m, u(depth), world, |world|, ray, Fin(ShadowAcne), PosInf).value;
      RayColour(m, u, draws, world, background, depth, ray) == Some(rec.material.emit.value(rec.tp, rec.p))
  {
  }

  /**
   * A ray whose closest hit scatters carries what the scattered ray carries,
   * attenuated componentwise by the scattering colour: surfaces that scatter
   * emit nothing.
   */
  lemma ScatteredLightIsAttenuated(m: Maths, u: nat -> UnitDraw, draws: nat -> Bounce, world: seq<Hittable>,
    background: Vec3, depth: nat, ray: Ray)
    requires depth > 0
    requires Sweep(m, u(depth), world, |world|, ray, Fin(ShadowAcne), PosInf).Some?
    requires var rec := Sweep(m, u(depth), world, |world|, ray, Fin(ShadowAcne), PosInf).value;
      CanScatter(m, rec.material, ray) && Scatter(m, rec.material, ray, rec, draws(depth)).Some?
    requires var rec := Sweep(m, u(depth), world, |world|, ray, Fin(ShadowAcne), PosInf).value;
      RayColour(m, u, draws, world, background, depth - 1,
        Scatter(m, rec.material, ray, rec, draws(depth)).value.ray).Some?
    ensures var rec := Sweep(m, u(depth), world, |world|, ray, Fin(ShadowAcne), PosInf).value;
      var scattered := Scatter(m, rec.material, ray, rec, draws(depth)).value;
      RayColour(m, u, draws, world, background, depth, ray)
        == Some(Mul(RayColour(m, u, draws, world, background, depth - 1, scattered.ray).value, scattered.colour))
  {
    var rec := Sweep(m, u(depth), world, |world|, ray, Fin(ShadowAcne), PosInf).value;
    EmitsOrScatters(m, rec.material, ray, rec, draws(depth));
  }

  /**
   * In a world whose media are dense, every bounce lands at least
   * `ShadowAcne` along the ray: the scene is never hit behind or at the start
   * of a ray.
   */
  lemma BouncesClearTheSurface(m: Maths, u: UnitDraw, world: seq<Hittable>, ray: Ray)
    requires AllDense(world, |world|)
    requires Sweep(m, u, world, |world|, ray, Fin(ShadowAcne), PosInf).Some?
    ensures Sweep(m, u, world, |world|, ray, Fin(ShadowAcne), PosInf).value.t >= ShadowAcne
  {
    SweepInRange(m, u, world, |world|, ray, Fin(ShadowAcne), PosInf);
  }

  /** A world without dielectrics never panics: only a dielectric normalises the incoming direction. */
  lemma {:induction false} NoPanicWithoutDielectrics(m: Maths, u: nat -> UnitDraw, draws: nat -> Bounce, world: seq<Hittable>,
    background: Vec3, depth: nat, ray: Ray)
    requires forall mat: Material :: AnyCarries(world, |world|, mat) ==> !mat.Dielectric?
    ensures RayColour(m, u, draws, world, background, depth, ray).Some?
    decreases depth
  {
    if depth > 0 {
      var hit := Sweep(m, u(depth), world, |world|, ray, Fin(ShadowAcne), PosInf);
      if hit.Some? {
        var rec := hit.value;
        SweepCarries(m, u(depth), world, |world|, ray, Fin(ShadowAcne), PosInf);
        var scattered := Scatter(m, rec.material, ray, rec, draws(depth));
        if scattered.Some? {
          NoPanicWithoutDielectrics(m, u, draws, world, background, depth - 1, scattered.value.ray);
        }
      }
    }
  }
}
