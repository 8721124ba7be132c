/**
 * Numbers shared by the whole model.
 *
 * Reals stand for the renderer's f64 values with exact arithmetic. `XReal`
 * adds the two infinities that f64 code uses as interval bounds (the
 * integrator's `f64::INFINITY`, the medium's `-INFINITY`, the ±∞ start of the
 * rotated bounding box). The transcendental operations the renderer calls are
 * not computed: `Maths` carries them as functions, restricted only by the sign
 * laws that the proofs rely on.
 */
module Numbers {

  datatype Option<+T> = None | Some(value: T)

  datatype Result<+T, +E> = Ok(value: T) | Err(error: E)

  /** A real number or one of the two infinities. */
  datatype XReal = NegInf | Fin(r: real) | PosInf

  /** Strict order of the extended reals. */
  predicate XLt(a: XReal, b: XReal)
  {
    match a
    case NegInf => !b.NegInf?
    case PosInf => false
    case Fin(x) =>
      match b
      case NegInf => false
      case PosInf => true
      case Fin(y) => x < y
  }

  predicate XLe(a: XReal, b: XReal)
  {
    !XLt(b, a)
  }

  /** `f64::min` on values that are not NaN. */
  function XMin(a: XReal, b: XReal): (r: XReal)
    ensures r == a || r == b
    ensures XLe(r, a) && XLe(r, b)
  {
    if XLt(b, a) then b else a
  }

  /** `f64::max` on values that are not NaN. */
  function XMax(a: XReal, b: XReal): (r: XReal)
    ensures r == a || r == b
    ensures XLe(a, r) && XLe(b, r)
  {
    if XLt(a, b) then b else a
  }

  /** `x + y` for an extended `x` and a finite `y`. */
  function XAdd(x: XReal, y: real): (r: XReal)
    ensures r.Fin? <==> x.Fin?
    ensures x.Fin? ==> r.r == x.r + y
  {
    match x
    case Fin(v) => Fin(v + y)
    case _ => x
  }

  /** `(x - o) * inv` for an extended `x` and a finite, non-zero `inv`. */
  function XAffine(x: XReal, o: real, inv: real): (r: XReal)
    requires inv != 0.0
    ensures x.Fin? ==> r == Fin((x.r - o) * inv)
    ensures x.PosInf? ==> r == (if inv > 0.0 then PosInf else NegInf)
    ensures x.NegInf? ==> r == (if inv > 0.0 then NegInf else PosInf)
  {
    if x.Fin? then Fin((x.r - o) * inv)
    else if x.PosInf? then (if inv > 0.0 then PosInf else NegInf)
    else if inv > 0.0 then NegInf else PosInf
  }

  /** The strict order is irreflexive, asymmetric and transitive. */
  lemma XLtIrreflexive(x: XReal)
    ensures !XLt(x, x)
  {
  }

  lemma XLtAsymmetric(x: XReal, y: XReal)
    ensures XLt(x, y) ==> !XLt(y, x)
  {
  }

  lemma XLtTransitive(x: XReal, y: XReal, z: XReal)
    ensures XLt(x, y) && XLt(y, z) ==> XLt(x, z)
  {
  }

  lemma XMaxSelf(a: XReal)
    ensures XMax(a, a) == a
  {
  }

  lemma XLtTrans(a: XReal, b: XReal, c: XReal)
    requires XLt(a, b) && XLe(b, c)
    ensures XLt(a, c)
  {
  }

  lemma XLeTrans(a: XReal, b: XReal, c: XReal)
    requires XLe(a, b) && XLe(b, c)
    ensures XLe(a, c)
  {
  }

  /** A finite point strictly between two ordered extended reals. */
  function Between(lo: XReal, hi: XReal): (t: real)
    requires XLt(lo, hi)
    ensures XLt(lo, Fin(t)) && XLt(Fin(t), hi)
  {
    match lo
    case NegInf =>
      (match hi
       case Fin(h) => h - 1.0
       case _ => 0.0)
    case Fin(l) =>
      (match hi
       case Fin(h) => (l + h) / 2.0
       case _ => l + 1.0)
  }

  lemma SelfQuotient(x: real)
    requires x != 0.0
    ensures x / x == 1.0
  {
  }

  /** π as the f64 constant `std::f64::consts::PI`. */
  const PI: real := 3.141592653589793

  /** Conversion of an angle in degrees to radians. */
  function DegToRad(degrees: real): (radians: real)
    ensures radians * 180.0 == degrees * PI
  {
    degrees * PI / 180.0
  }

  /** The transcendental operations of `f64` that the renderer calls. */
  datatype MathsOps = MathsOps(
    sqrt: real -> real,
    ln: real -> real,
    cos: real -> real,
    sin: real -> real,
    acos: real -> real,
    atan2: (real, real) -> real)

  /**
   * The laws the proofs use: a square root is non-negative and is positive on
   * positive arguments; the logarithm of a number in (0, 1) is negative.
   */
  ghost predicate Lawful(m: MathsOps)
  {
    && (forall x :: x >= 0.0 ==> m.sqrt(x) >= 0.0)
    && (forall x :: x > 0.0 ==> m.sqrt(x) > 0.0)
    && (forall x :: 0.0 < x < 1.0 ==> m.ln(x) < 0.0)
  }

  type Maths = m: MathsOps | Lawful(m)
    witness MathsOps(x => x, x => x - 1.0, x => 1.0, x => 0.0, x => 0.0, (y, x) => 0.0)

  /** Square roots are exact: a hypothesis that only some lemmas take. */
  ghost predicate ExactSqrt(m: MathsOps)
  {
    forall x :: x >= 0.0 ==> m.sqrt(x) * m.sqrt(x) == x
  }

  /** A non-zero real, for divisors that the source divides by and would panic on. */
  type NonZero = x: real | x != 0.0 witness 1.0

  /** A positive real. */
  type Positive = x: real | x > 0.0 witness 1.0

  /** A draw of `random()`: uniform on [0, 1). */
  type UnitDraw = x: real | 0.0 <= x < 1.0
}
