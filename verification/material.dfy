/**
 * How each material scatters or emits light at a hit. The random draws a
 * bounce makes (`Vec3::random_on_unit_sphere()` and `random()`) are a
 * `Bounce` value passed in.
 */
module Materials {
  import opened Numbers
  import opened Vectors
  import opened Rays
  import opened Records

  /** `ScatterRecord`: the scattered ray and the attenuation colour. */
  datatype ScatterRecord = ScatterRecord(ray: Ray, colour: Vec3)

  /**
   * The random draws of one bounce: a point on the unit sphere and a uniform
   * number in [0, 1).
   */
  datatype Bounce = Bounce(onSphere: Vec3, uniform: UnitDraw)

  /** `emit`: only a diffuse light emits; every other material gives black. */
  function Emit(mat: Material, tp: TexturePoint, p: Vec3): (r: Vec3)
    ensures !mat.DiffuseLight? ==> r == Zero()
    ensures mat.DiffuseLight? ==> r == mat.emit.value(tp, p)
  {
    match mat
    case DiffuseLight(emit) => emit.value(tp, p)
    case _ => Zero()
  }

  /** `Metal::new`: the fuzz is capped at 1; nothing bounds it from below. */
  function NewMetal(colour: Vec3, fuzz: real): (r: Material)
    ensures r.Metal? && r.colour == colour
    ensures r.fuzz <= 1.0
    ensures fuzz < 1.0 ==> r.fuzz == fuzz
    ensures fuzz >= 1.0 ==> r.fuzz == 1.0
  {
    Metal(colour, if fuzz < 1.0 then fuzz else 1.0)
  }

  /**
   * The direction a Lambertian bounce takes: normal plus a sphere point,
   * unless that nearly vanishes, when it is the normal. So the direction is
   * never degenerate unless the normal itself is.
   */
  function LambertianDirection(n: Vec3, onSphere: Vec3): (d: Vec3)
    ensures !NearZero(Add(n, onSphere)) ==> d == Add(n, onSphere)
    ensures NearZero(Add(n, onSphere)) ==> d == n
    ensures !NearZero(n) ==> !NearZero(d)
  {
    var d := Add(n, onSphere);
    if NearZero(d) then n else d
  }

  /** `Lambertian::scatter`: always scatters from the hit point, coloured by the texture there. */
  function LambertianScatter(albedo: Texture, rayIn: Ray, rec: HitRecord, draw: Bounce): (r: ScatterRecord)
    ensures r.ray == Ray(rec.p, LambertianDirection(rec.n, draw.onSphere), rayIn.time)
    ensures r.colour == albedo.value(rec.tp, rec.p)
  {
    ScatterRecord(Ray(rec.p, LambertianDirection(rec.n, draw.onSphere), rayIn.time), albedo.value(rec.tp, rec.p))
  }

  /** The direction of a metal bounce: the mirror direction perturbed by the fuzz. */
  function MetalDirection(rayIn: Ray, rec: HitRecord, fuzz: real, draw: Bounce): Vec3
  {
    Add(Reflect(rayIn.direction, rec.n), Scale(draw.onSphere, fuzz))
  }

  /** `Metal::scatter`: scatters exactly when the bounced ray leaves on the normal's side. */
  function MetalScatter(colour: Vec3, fuzz: real, rayIn: Ray, rec: HitRecord, draw: Bounce): (r: Option<ScatterRecord>)
    ensures r.Some? <==> Dot(MetalDirection(rayIn, rec, fuzz, draw), rec.n) > 0.0
    ensures r.Some? ==> r.value == ScatterRecord(Ray(rec.p, MetalDirection(rayIn, rec, fuzz, draw), rayIn.time), colour)
  {
    var scattered := Ray(rec.p, MetalDirection(rayIn, rec, fuzz, draw), rayIn.time);
    if Dot(scattered.direction, rec.n) > 0.0 then Some(ScatterRecord(scattered, colour)) else None
  }

  /**
   * A metal without fuzz is not a mirror: adding the zero perturbation through
   * `Add` copies the x component of the reflection into its y component.
   */
  lemma MetalWithoutFuzzCopiesX(rayIn: Ray, rec: HitRecord, draw: Bounce)
    ensures MetalDirection(rayIn, rec, 0.0, draw)
      == Vec3(Reflect(rayIn.direction, rec.n).x, Reflect(rayIn.direction, rec.n).x, Reflect(rayIn.direction, rec.n).z)
  {
    assert Scale(draw.onSphere, 0.0) == Zero();
  }

  /** `x.powi(n)` for a natural exponent. */
  function Pow(x: real, n: nat): real
  {
    if n == 0 then 1.0 else x * Pow(x, n - 1)
  }

  /** Scaling by a non-negative factor keeps the order of two numbers. */
  lemma ScaleMonotone(a: real, b: real, c: real)
    requires a >= 0.0 && 0.0 <= b <= c
    ensures 0.0 <= a * b <= a * c
    ensures 0.0 <= b * a <= c * a
  {
  }

  /** A factor in [0, 1] does not increase a non-negative number. */
  lemma ScaleBelow(a: real, b: real)
    requires a >= 0.0 && 0.0 <= b <= 1.0
    ensures 0.0 <= b * a <= a
  {
    ScaleMonotone(a, b, 1.0);
  }

  lemma {:induction false} PowUnitInterval(x: real, n: nat)
    requires 0.0 <= x <= 1.0
    ensures 0.0 <= Pow(x, n) <= 1.0
  {
    if n > 0 {
      PowUnitInterval(x, n - 1);
      ScaleBelow(Pow(x, n - 1), x);
    }
  }

  /** `r0` of Schlick's approximation: the reflectance at normal incidence. */
  function NormalReflectance(ratio: real): real
    requires ratio != -1.0
  {
    Pow((1.0 - ratio) / (1.0 + ratio), 2)
  }

  lemma NormalReflectanceBounds(ratio: real)
    requires ratio > 0.0
    ensures 0.0 <= NormalReflectance(ratio) < 1.0
    ensures ratio == 1.0 ==> NormalReflectance(ratio) == 0.0
  {
    var q := (1.0 - ratio) / (1.0 + ratio);
    assert q * (1.0 + ratio) == 1.0 - ratio;
    assert -1.0 < q < 1.0;
    assert Pow(q, 1) == q;
    assert Pow(q, 2) == q * q;
    if q >= 0.0 {
      ScaleMonotone(q, q, 1.0);
    } else {
      assert q * q == (-q) * (-q);
      ScaleMonotone(-q, -q, 1.0);
    }
  }

  /** `Dielectric::reflectance`: Schlick's approximation. */
  function Reflectance(cosine: real, ratio: real): real
    requires ratio != -1.0
  {
    var r0 := NormalReflectance(ratio);
    r0 + (1.0 - r0) * Pow(1.0 - cosine, 5)
  }

  /** At normal incidence the reflectance is `r0`, at grazing incidence it is 1. */
  lemma ReflectanceEnds(ratio: real)
    requires ratio != -1.0
    ensures Reflectance(1.0, ratio) == NormalReflectance(ratio)
    ensures Reflectance(0.0, ratio) == 1.0
  {
    assert Pow(0.0, 5) == 0.0;
    assert Pow(1.0, 5) == 1.0;
  }

  /** For a cosine in [0, 1] the reflectance is a probability, at least `r0`. */
  lemma ReflectanceBounds(cosine: real, ratio: real)
    requires ratio > 0.0
    requires 0.0 <= cosine <= 1.0
    ensures NormalReflectance(ratio) <= Reflectance(cosine, ratio) <= 1.0
  {
    NormalReflectanceBounds(ratio);
    PowUnitInterval(1.0 - cosine, 5);
    var r0 := NormalReflectance(ratio);
    var p := Pow(1.0 - cosine, 5);
    ScaleMonotone(1.0 - r0, p, 1.0);
  }

  /** The ratio of refractive indices a dielectric uses: inverted when the ray enters. */
  function RefractiveRatio(index: Positive, frontFace: bool): (ratio: real)
    ensures ratio > 0.0
    ensures frontFace ==> ratio * index == 1.0
    ensures !frontFace ==> ratio == index
  {
    if frontFace then 1.0 / index else index
  }

  /**
   * `cannot_refract`: Snell's law has no solution (total internal reflection).
   * For a cosine below -1, which a normal that is not of unit length allows,
   * `sin_theta` is the square root of a negative number, NaN, and the
   * comparison is false.
   */
  predicate CannotRefract(m: Maths, ratio: real, cosTheta: real)
  {
    1.0 - cosTheta * cosTheta >= 0.0 && ratio * m.sqrt(1.0 - cosTheta * cosTheta) > 1.0
  }

  /**
   * A cosine below -1 never gives total internal reflection, whatever the
   * ratio: the NaN sine fails the comparison.
   */
  lemma BackwardCosineRefracts(m: Maths, ratio: real, cosTheta: real)
    requires cosTheta < -1.0
    ensures !CannotRefract(m, ratio, cosTheta)
  {
    var a := -cosTheta;
    assert a * a > a * 1.0 > 1.0;
    assert cosTheta * cosTheta == a * a;
  }

  /** The direction of a dielectric bounce, for a unit direction. */
  function DielectricDirection(m: Maths, ratio: real, unitDirection: Vec3, n: Vec3, uniform: UnitDraw): Vec3
    requires ratio > 0.0
  {
    var cosTheta := CosTheta(unitDirection, n);
    if CannotRefract(m, ratio, cosTheta) || Reflectance(cosTheta, ratio) > uniform then Reflect(unitDirection, n)
    else Refract(m, unitDirection, n, ratio)
  }

  /**
   * `Dielectric::scatter`: always scatters, never attenuates. Normalising the
   * incoming direction panics on a zero-length direction.
   */
  function DielectricScatter(m: Maths, index: Positive, rayIn: Ray, rec: HitRecord, draw: Bounce): (r: ScatterRecord)
    requires Length(m, rayIn.direction) != 0.0
    ensures r.colour == One()
    ensures r.ray.origin == rec.p && r.ray.time == rayIn.time
    ensures r.ray.direction == DielectricDirection(m, RefractiveRatio(index, rec.frontFace),
      Unit(m, rayIn.direction), rec.n, draw.uniform)
  {
    var ratio := RefractiveRatio(index, rec.frontFace);
    var direction := DielectricDirection(m, ratio, Unit(m, rayIn.direction), rec.n, draw.uniform);
    ScatterRecord(Ray(rec.p, direction, rayIn.time), One())
  }

  /** When refraction is impossible the dielectric reflects, whatever the draw. */
  lemma TotalInternalReflection(m: Maths, ratio: real, unitDirection: Vec3, n: Vec3, uniform: UnitDraw)
    requires ratio > 0.0
    requires CannotRefract(m, ratio, CosTheta(unitDirection, n))
    ensures DielectricDirection(m, ratio, unitDirection, n, uniform) == Reflect(unitDirection, n)
  {
  }

  /**
   * When refraction is possible, a dielectric reflects exactly when the draw
   * falls below Schlick's reflectance.
   */
  lemma ReflectsWithSchlickProbability(m: Maths, ratio: real, unitDirection: Vec3, n: Vec3, uniform: UnitDraw)
    requires ratio > 0.0
    requires !CannotRefract(m, ratio, CosTheta(unitDirection, n))
    ensures uniform < Reflectance(CosTheta(unitDirection, n), ratio)
      ==> DielectricDirection(m, ratio, unitDirection, n, uniform) == Reflect(unitDirection, n)
    ensures uniform >= Reflectance(CosTheta(unitDirection, n), ratio)
      ==> DielectricDirection(m, ratio, unitDirection, n, uniform) == Refract(m, unitDirection, n, ratio)
  {
  }

  /** `Isotropic::scatter`: a new ray from the hit point in the drawn direction. */
  function IsotropicScatter(albedo: Texture, rayIn: Ray, rec: HitRecord, draw: Bounce): (r: ScatterRecord)
    ensures r.ray == Ray(rec.p, draw.onSphere, rayIn.time)
    ensures r.colour == albedo.value(rec.tp, rec.p)
  {
    ScatterRecord(Ray(rec.p, draw.onSphere, rayIn.time), albedo.value(rec.tp, rec.p))
  }

  /** The demand a material makes of the incoming ray: a dielectric normalises it. */
  predicate CanScatter(m: Maths, mat: Material, rayIn: Ray)
  {
    mat.Dielectric? ==> Length(m, rayIn.direction) != 0.0
  }

  /**
   * `scatter`, dispatched on the material. Only a light and a metal whose
   * bounce points into the surface absorb; every scattered ray leaves from the
   * hit point at the incoming ray's time.
   */
  function Scatter(m: Maths, mat: Material, rayIn: Ray, rec: HitRecord, draw: Bounce): (r: Option<ScatterRecord>)
    requires CanScatter(m, mat, rayIn)
    ensures r.None? <==> (mat.DiffuseLight?
      || (mat.Metal? && Dot(MetalDirection(rayIn, rec, mat.fuzz, draw), rec.n) <= 0.0))
    ensures r.Some? ==> r.value.ray.origin == rec.p && r.value.ray.time == rayIn.time
    ensures r.Some? && mat.Dielectric? ==> r.value.colour == One()
  {
    match mat
    case Lambertian(albedo) => Some(LambertianScatter(albedo, rayIn, rec, draw))
    case Metal(colour, fuzz) => MetalScatter(colour, fuzz, rayIn, rec, draw)
    case Dielectric(index) => Some(DielectricScatter(m, index, rayIn, rec, draw))
    case DiffuseLight(_) => None
    case Isotropic(albedo) => Some(IsotropicScatter(albedo, rayIn, rec, draw))
  }

  /** A material that scatters does not emit, and a light does not scatter. */
  lemma EmitsOrScatters(m: Maths, mat: Material, rayIn: Ray, rec: HitRecord, draw: Bounce)
    requires CanScatter(m, mat, rayIn)
    ensures Scatter(m, mat, rayIn, rec, draw).Some? ==> Emit(mat, rec.tp, rec.p) == Zero()
    ensures mat.DiffuseLight? ==> Scatter(m, mat, rayIn, rec, draw).None?
  {
  }
}
