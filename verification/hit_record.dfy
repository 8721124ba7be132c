/**
 * What a ray-object intersection reports, and the materials and textures a
 * record refers to.
 */
module Records {
  import opened Numbers
  import opened Vectors
  import opened Rays

  /** Surface coordinates `(u, v)` handed to a texture. */
  datatype TexturePoint = TexturePoint(u: real, v: real)

  /**
   * A texture is only its `value(tp, p)`: the texture kinds (solid colours,
   * checkers, noise, images) are not part of this model.
   */
  datatype Texture = Texture(value: (TexturePoint, Vec3) -> Vec3)

  /** The five materials; the phase function of a medium is `Isotropic`. */
  datatype Material =
    | Lambertian(albedo: Texture)
    | Metal(colour: Vec3, fuzz: real)
    | Dielectric(refractiveIndex: Positive)
    | DiffuseLight(emit: Texture)
    | Isotropic(albedo: Texture)

  /** `HitRecord`: point, normal, parameter, texture point, face flag and material. */
  datatype HitRecord = HitRecord(
    p: Vec3,
    n: Vec3,
    t: real,
    tp: TexturePoint,
    frontFace: bool,
    material: Material)

  lemma DotNeg(u: Vec3, v: Vec3)
    ensures Dot(u, Neg(v)) == -Dot(u, v)
  {
  }

  /**
   * `set_face_normal`: the record faces the ray. The face is the front one
   * exactly when the ray runs against the outward normal, and the stored normal
   * is the outward normal turned, if need be, so that it opposes the ray.
   */
  function SetFaceNormal(rec: HitRecord, ray: Ray, outward: Vec3): (r: HitRecord)
    ensures r.frontFace <==> Dot(ray.direction, outward) < 0.0
    ensures r.n == (if r.frontFace then outward else Neg(outward))
    ensures Dot(ray.direction, r.n) <= 0.0
    ensures r.p == rec.p && r.t == rec.t && r.tp == rec.tp && r.material == rec.material
  {
    DotNeg(ray.direction, outward);
    var front := Dot(ray.direction, outward) < 0.0;
    rec.(frontFace := front, n := if front then outward else Neg(outward))
  }

  /**
   * The stored normal does not depend on which way the outward normal points,
   * unless the ray grazes the surface; only the face flag flips.
   */
  lemma SetFaceNormalIgnoresOrientation(rec: HitRecord, ray: Ray, outward: Vec3)
    requires Dot(ray.direction, outward) != 0.0
    ensures SetFaceNormal(rec, ray, Neg(outward)).n == SetFaceNormal(rec, ray, outward).n
    ensures SetFaceNormal(rec, ray, Neg(outward)).frontFace == !SetFaceNormal(rec, ray, outward).frontFace
  {
    DotNeg(ray.direction, outward);
    assert Neg(Neg(outward)) == outward;
  }

  /**
   * Facing a record a second time, with its own stored normal and a ray of the
   * same direction, always reports the front face unless the ray grazes it.
   */
  lemma SetFaceNormalTwiceIsFront(rec: HitRecord, ray: Ray, outward: Vec3)
    requires Dot(ray.direction, outward) != 0.0
    ensures SetFaceNormal(SetFaceNormal(rec, ray, outward), ray, SetFaceNormal(rec, ray, outward).n).frontFace
    ensures SetFaceNormal(SetFaceNormal(rec, ray, outward), ray, SetFaceNormal(rec, ray, outward).n).n
      == SetFaceNormal(rec, ray, outward).n
  {
    DotNeg(ray.direction, outward);
  }

  /** `set_p`: the point is replaced and nothing else changes. */
  function SetP(rec: HitRecord, p: Vec3): (r: HitRecord)
    ensures r.p == p
    ensures r.n == rec.n && r.t == rec.t && r.tp == rec.tp && r.frontFace == rec.frontFace
    ensures r.material == rec.material
  {
    rec.(p := p)
  }
}
