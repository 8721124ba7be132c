/**
 * The constructors that compute something: `AABox::new` builds the six sides
 * in a list, `Rotate::new` computes the rotated bounding box once, and
 * `ConstantMedium::new` turns a density into `-1 / density`.
 */
module Construction {
  import opened Numbers
  import opened Vectors
  import opened Rays
  import opened Boxes
  import opened Records
  import opened Rects
  import opened Transforms
  import opened Media
  import opened Scene
  import opened Lists

  /** The sides as objects of the scene. */
  function RectObjects(rects: seq<Rect>): (objs: seq<Hittable>)
    ensures |objs| == |rects|
    ensures forall i :: 0 <= i < |rects| ==> objs[i] == RectObj(rects[i])
  {
    seq(|rects|, i requires 0 <= i < |rects| => RectObj(rects[i]))
  }

  /** `AABox::new`: six rectangles pushed onto a fresh list, top and bottom of each axis. */
  method NewBox(min: Vec3, max: Vec3, material: Material) returns (h: Hittable)
    ensures h == BoxObj(min, max, RectObjects(BoxSides(min, max, material)))
  {
    var sides := new HittableList();
    sides.Add(RectObj(Rect(XY, min.x, max.x, min.y, max.y, max.z, material)));
    sides.Add(RectObj(Rect(XY, min.x, max.x, min.y, max.y, min.z, material)));
    sides.Add(RectObj(Rect(ZX, min.z, max.z, min.x, max.x, max.y, material)));
    sides.Add(RectObj(Rect(ZX, min.z, max.z, min.x, max.x, min.y, material)));
    sides.Add(RectObj(Rect(YZ, min.y, max.y, min.z, max.z, max.x, material)));
    sides.Add(RectObj(Rect(YZ, min.y, max.y, min.z, max.z, min.x, material)));
    h := BoxObj(min, max, sides.objects);
  }

  /**
   * Every hit on a box built by `AABox::new` lies on the box's surface
   * region `[min, max]`, when the box is not inverted.
   */
  lemma BoxHitOnBox(m: Maths, u: UnitDraw, min: Vec3, max: Vec3, material: Material, ray: Ray,
    tMin: XReal, tMax: XReal)
    requires forall i: Axis :: min.Ix(i) <= max.Ix(i)
    requires Hit(m, u, BoxObj(min, max, RectObjects(BoxSides(min, max, material))), ray, tMin, tMax).Some?
    ensures Contains(AABB(Lift(min), Lift(max)),
      PointAt(ray, Hit(m, u, BoxObj(min, max, RectObjects(BoxSides(min, max, material))), ray, tMin, tMax).value.t))
  {
    var sides := RectObjects(BoxSides(min, max, material));
    var i, closest := SweepPicksAnObject(m, u, sides, |sides|, ray, tMin, tMax);
    var rect := BoxSides(min, max, material)[i];
    assert sides[i] == RectObj(rect);
    FaceHitOnBox(rect, min, max, ray, tMin, closest);
  }

  /**
   * `Rotate::new`: the angle in degrees turned into a cosine and a sine, and
   * the inner object's box over `[0, 1]` turned corner by corner. The source
   * unwraps the inner box, so an object without one is not accepted.
   */
  method NewRotate(m: Maths, obj: Hittable, plane: Plane, theta: real) returns (h: Hittable)
    requires BoundingBox(obj, 0.0, 1.0).Some? && Finite(BoundingBox(obj, 0.0, 1.0).value)
    ensures h.RotateObj? && h.inner == obj && h.plane == plane
    ensures h.cosTheta == m.cos(DegToRad(theta)) && h.sinTheta == m.sin(DegToRad(theta))
    ensures h.rotatedBox == Some(AABB(Extent(BoundingBox(obj, 0.0, 1.0).value, h.cosTheta, h.sinTheta, 8).0,
      Extent(BoundingBox(obj, 0.0, 1.0).value, h.cosTheta, h.sinTheta, 8).1))
  {
    var radians := DegToRad(theta);
    var cosTheta := m.cos(radians);
    var sinTheta := m.sin(radians);
    var bbox := BoundingBox(obj, 0.0, 1.0).value;
    var rotated := RotatedBox(bbox, cosTheta, sinTheta);
    h := RotateObj(obj, plane, cosTheta, sinTheta, Some(rotated));
  }

  /**
   * A rotated object's box runs from +∞ down to -∞ along z, whatever the
   * angle, so the slab test never restricts a ray along z that does not
   * travel backwards.
   */
  lemma RotatedBoxOpenAlongZ(bbox: AABB, c: real, s: real, ray: Ray, lo: XReal, hi: XReal)
    requires Finite(bbox)
    requires ray.direction.z >= 0.0
    ensures Ends(AABB(Extent(bbox, c, s, 8).0, Extent(bbox, c, s, 8).1), ray, 2) == Some((NegInf, PosInf))
  {
    ExtentKeepsZ(bbox, c, s, 8);
    InvertedInfiniteAxisIsOpen(AABB(Extent(bbox, c, s, 8).0, Extent(bbox, c, s, 8).1), ray, lo, hi);
  }

  /** `ConstantMedium::new`: the boundary, an isotropic phase function of the texture, and `-1 / density`. */
  function NewMedium(boundary: Hittable, texture: Texture, density: NonZero): (h: Hittable)
    ensures h.MediumObj? && h.boundary == boundary && h.phase == Isotropic(texture)
    ensures h.negInvDensity * density == -1.0
    ensures Dense(h) <==> density > 0.0 && Dense(boundary)
  {
    MediumObj(boundary, Isotropic(texture), NegInvDensity(density))
  }
}
