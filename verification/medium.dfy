/**
 * A constant-density medium (smoke, fog) filling a closed boundary. The ray
 * enters and leaves the boundary; inside, it scatters at a distance drawn
 * from an exponential distribution, `-ln(u) / density`.
 */
module Media {
  import opened Numbers
  import opened Vectors
  import opened Rays
  import opened Records
  import opened Spheres
  import opened Rects

  /** The gap after the entry point at which the exit point is looked for. */
  const DT: real := 0.001

  /** `neg_inv_density`: `-1 / density`, which is negative for a positive density. */
  function NegInvDensity(density: NonZero): (nid: real)
    ensures nid * density == -1.0
    ensures density > 0.0 <==> nid < 0.0
  {
    -1.0 / density
  }

  /** `t_min.max(0.0)`: the entry clip. */
  function EntryFloor(tMin: XReal): XReal
  {
    XMax(tMin, Fin(0.0))
  }

  /** The entry parameter, raised to the entry clip when the boundary was entered before it. */
  function Entry(rec1: HitRecord, tMin: XReal): (t1: XReal)
    ensures XLe(Fin(rec1.t), t1) && XLe(EntryFloor(tMin), t1)
    ensures t1 == Fin(rec1.t) || t1 == EntryFloor(tMin)
  {
    if XLt(Fin(rec1.t), EntryFloor(tMin)) then EntryFloor(tMin) else Fin(rec1.t)
  }

  /** The exit parameter, lowered to `t_max` when the boundary is left after it. */
  function Exit(rec2: HitRecord, tMax: XReal): (t2: XReal)
    ensures XLe(t2, Fin(rec2.t)) && XLe(t2, tMax)
    ensures t2 == Fin(rec2.t) || t2 == tMax
  {
    if XLt(tMax, Fin(rec2.t)) then tMax else Fin(rec2.t)
  }

  /**
   * The part of `ConstantMedium::hit` after both boundary crossings were
   * found (`rec1` entering, `rec2` leaving): clip them to the query range,
   * then scatter at `t1 + hit_distance / |direction|` if that lies before the
   * exit. A draw `u = 0` (where `ln` is -∞) and a zero-length direction (where
   * the division is not finite) scatter nowhere.
   */
  function MediumScatterPoint(m: Maths, u: UnitDraw, phase: Material, nid: real, ray: Ray,
    rec1: HitRecord, rec2: HitRecord, tMin: XReal, tMax: XReal): (r: Option<HitRecord>)
    ensures r.Some? ==> XLe(Entry(rec1, tMin), Exit(rec2, tMax))
    ensures r.Some? ==> u > 0.0 && Length(m, ray.direction) > 0.0
    ensures r.Some? ==> r.value.p == At(ray, r.value.t) && r.value.material == phase
    ensures r.Some? ==> r.value.n == Vec3(1.0, 0.0, 0.0) && r.value.frontFace && r.value.tp == rec1.tp
    ensures r.Some? ==> Entry(rec1, tMin).Fin? && Exit(rec2, tMax).Fin?
    ensures r.Some? ==> nid * m.ln(u) <= (Exit(rec2, tMax).r - Entry(rec1, tMin).r) * Length(m, ray.direction)
    ensures r.Some? ==> (r.value.t * Length(m, ray.direction)
      == Entry(rec1, tMin).r * Length(m, ray.direction) + nid * m.ln(u))
    ensures XLe(Entry(rec1, tMin), Exit(rec2, tMax)) && Entry(rec1, tMin).Fin? && Exit(rec2, tMax).Fin?
      && u > 0.0 && Length(m, ray.direction) > 0.0
      && nid * m.ln(u) <= (Exit(rec2, tMax).r - Entry(rec1, tMin).r) * Length(m, ray.direction)
      ==> r.Some?
  {
    var t1 := Entry(rec1, tMin);
    var t2 := Exit(rec2, tMax);
    if XLt(t2, t1) then None
    else
      ClippedEndsFinite(rec1, rec2, tMin, tMax);
      var len := Length(m, ray.direction);
      if u == 0.0 || len == 0.0 then None
      else
        var distance := (t2.r - t1.r) * len;
        var hitDistance := nid * m.ln(u);
        if hitDistance > distance then None
        else
          var t := t1.r + hitDistance / len;
          ScatterDistance(t1.r, hitDistance, len);
          Some(HitRecord(At(ray, t), Vec3(1.0, 0.0, 0.0), t, rec1.tp, true, phase))
  }

  lemma ScatterDistance(t1: real, d: real, len: real)
    requires len != 0.0
    ensures (t1 + d / len) * len == t1 * len + d
  {
    assert (t1 + d / len) * len == t1 * len + (d / len) * len;
  }

  /**
   * Entry and exit are never infinite once the exit is not before the entry:
   * the entry is at least 0 and the exit at most the finite `rec2.t`.
   */
  lemma ClippedEndsFinite(rec1: HitRecord, rec2: HitRecord, tMin: XReal, tMax: XReal)
    requires XLe(Entry(rec1, tMin), Exit(rec2, tMax))
    ensures Entry(rec1, tMin).Fin? && Exit(rec2, tMax).Fin?
  {
  }

  /**
   * Whatever the density, the scattering point is not past the clipped exit,
   * so not past `t_max`.
   */
  lemma MediumScatterNotPastExit(m: Maths, u: UnitDraw, phase: Material, nid: real, ray: Ray,
    rec1: HitRecord, rec2: HitRecord, tMin: XReal, tMax: XReal)
    requires MediumScatterPoint(m, u, phase, nid, ray, rec1, rec2, tMin, tMax).Some?
    ensures var t := MediumScatterPoint(m, u, phase, nid, ray, rec1, rec2, tMin, tMax).value.t;
      XLe(Fin(t), Exit(rec2, tMax)) && XLe(Fin(t), tMax) && t <= rec2.t
  {
    var t := MediumScatterPoint(m, u, phase, nid, ray, rec1, rec2, tMin, tMax).value.t;
    var t1, t2 := Entry(rec1, tMin).r, Exit(rec2, tMax).r;
    BetweenEnds(t1, t2, t, nid * m.ln(u), Length(m, ray.direction));
    XLeTrans(Fin(t), Fin(t2), tMax);
  }

  /** `t len = t1 len + d` with `d <= (t2 - t1) len` and `len > 0` puts `t` at most `t2`, and on `d`'s side of `t1`. */
  lemma BetweenEnds(t1: real, t2: real, t: real, d: real, len: real)
    requires len > 0.0
    requires t * len == t1 * len + d
    requires d <= (t2 - t1) * len
    ensures t <= t2
    ensures d >= 0.0 ==> t1 <= t
    ensures d < 0.0 ==> t < t1
  {
    assert (t - t1) * len == d;
    CancelPositive(t - t1, t2 - t1, len);
    if d >= 0.0 {
      CancelPositive(0.0, t - t1, len);
    }
  }

  lemma CancelPositive(a: real, b: real, len: real)
    requires len > 0.0 && a * len <= b * len
    ensures a <= b
  {
  }

  /** The drawn distance `nid ln(u)` is not negative for a positive density, and negative for a negative one. */
  lemma DrawnDistanceSign(m: Maths, u: UnitDraw, nid: real)
    requires 0.0 < u
    ensures nid <= 0.0 ==> nid * m.ln(u) >= 0.0
    ensures nid > 0.0 ==> nid * m.ln(u) < 0.0
  {
    var l := m.ln(u);
    assert l < 0.0;
    SignOfProduct(nid, l);
  }

  lemma SignOfProduct(a: real, b: real)
    requires b < 0.0
    ensures a <= 0.0 ==> a * b >= 0.0
    ensures a > 0.0 ==> a * b < 0.0
  {
  }

  /**
   * For a positive density the scattering point lies between the clipped
   * entry and exit, so within the query range and never behind the ray.
   */
  lemma MediumScatterInRange(m: Maths, u: UnitDraw, phase: Material, nid: real, ray: Ray,
    rec1: HitRecord, rec2: HitRecord, tMin: XReal, tMax: XReal)
    requires nid <= 0.0
    requires MediumScatterPoint(m, u, phase, nid, ray, rec1, rec2, tMin, tMax).Some?
    ensures var t := MediumScatterPoint(m, u, phase, nid, ray, rec1, rec2, tMin, tMax).value.t;
      && XLe(Entry(rec1, tMin), Fin(t)) && XLe(Fin(t), Exit(rec2, tMax))
      && InRange(t, tMin, tMax) && t >= 0.0 && rec1.t <= t <= rec2.t
  {
    var t := MediumScatterPoint(m, u, phase, nid, ray, rec1, rec2, tMin, tMax).value.t;
    var t1, t2 := Entry(rec1, tMin).r, Exit(rec2, tMax).r;
    DrawnDistanceSign(m, u, nid);
    BetweenEnds(t1, t2, t, nid * m.ln(u), Length(m, ray.direction));
    XLeTrans(EntryFloor(tMin), Fin(t1), Fin(t));
    XLeTrans(tMin, EntryFloor(tMin), Fin(t));
    XLeTrans(Fin(t), Fin(t2), tMax);
  }

  /**
   * A negative density (`nid > 0`) scatters before the clipped entry: the
   * drawn distance is negative, so the point lies behind where the ray enters.
   */
  lemma NegativeDensityScattersBeforeEntry(m: Maths, u: UnitDraw, phase: Material, nid: real, ray: Ray,
    rec1: HitRecord, rec2: HitRecord, tMin: XReal, tMax: XReal)
    requires nid > 0.0
    requires MediumScatterPoint(m, u, phase, nid, ray, rec1, rec2, tMin, tMax).Some?
    ensures XLt(Fin(MediumScatterPoint(m, u, phase, nid, ray, rec1, rec2, tMin, tMax).value.t), Entry(rec1, tMin))
  {
    var t := MediumScatterPoint(m, u, phase, nid, ray, rec1, rec2, tMin, tMax).value.t;
    DrawnDistanceSign(m, u, nid);
    BetweenEnds(Entry(rec1, tMin).r, Exit(rec2, tMax).r, t, nid * m.ln(u), Length(m, ray.direction));
  }
}
