/**
 * Three-component vectors, used as points, directions and colours.
 *
 * The operators are those of the renderer as written. In particular `Add`
 * takes its y component from the LEFT operand's x component
 * (`y = a.x + b.y`), and every `+` on vectors in the renderer goes through it.
 * `Sum` does not: it folds with true componentwise addition.
 */
module Vectors {
  import opened Numbers

  /** An index into a triple: the source indexes a `[F; 3]` array. */
  type Axis = i: nat | i < 3

  /** `Vec3`: three `f64` components. */
  datatype Vec3 = Vec3(x: real, y: real, z: real)
  {
    /** `ix`: the component at index `i`. */
    function Ix(i: Axis): real
    {
      if i == 0 then x else if i == 1 then y else z
    }

    /** `set`: the triple with component `i` replaced by `v`. */
    function Set(i: Axis, v: real): (r: Vec3)
      ensures r.Ix(i) == v
      ensures forall j: Axis :: j != i ==> r.Ix(j) == Ix(j)
    {
      if i == 0 then Vec3(v, y, z) else if i == 1 then Vec3(x, v, z) else Vec3(x, y, v)
    }

    /** `set_all(order, (a, b, c))`: writes a, b and c, in turn, to the components named by `order`. */
    function SetAll(order: (Axis, Axis, Axis), values: (real, real, real)): (r: Vec3)
      ensures r.Ix(order.2) == values.2
      ensures order.1 != order.2 ==> r.Ix(order.1) == values.1
      ensures order.0 != order.1 && order.0 != order.2 ==> r.Ix(order.0) == values.0
    {
      Set(order.0, values.0).Set(order.1, values.1).Set(order.2, values.2)
    }
  }

  /** Two vectors with the same components are equal. */
  lemma IxExtensional(u: Vec3, v: Vec3)
    requires forall i: Axis :: u.Ix(i) == v.Ix(i)
    ensures u == v
  {
    assert u.Ix(0) == v.Ix(0) && u.Ix(1) == v.Ix(1) && u.Ix(2) == v.Ix(2);
  }

  function Zero(): Vec3
  {
    Vec3(0.0, 0.0, 0.0)
  }

  function One(): Vec3
  {
    Vec3(1.0, 1.0, 1.0)
  }

  /** The `+` operator exactly as the renderer defines it. */
  function Add(a: Vec3, b: Vec3): (r: Vec3)
    ensures r.x == a.x + b.x && r.y == a.x + b.y && r.z == a.z + b.z
  {
    Vec3(a.x + b.x, a.x + b.y, a.z + b.z)
  }

  function Sub(a: Vec3, b: Vec3): Vec3
  {
    Vec3(a.x - b.x, a.y - b.y, a.z - b.z)
  }

  function Neg(a: Vec3): Vec3
  {
    Vec3(-a.x, -a.y, -a.z)
  }

  /** Componentwise product (`Mul<Vec3>`), used on colours. */
  function Mul(a: Vec3, b: Vec3): Vec3
  {
    Vec3(a.x * b.x, a.y * b.y, a.z * b.z)
  }

  /** Product with a scalar (`Mul<F>`). */
  function Scale(a: Vec3, lambda: real): Vec3
  {
    Vec3(a.x * lambda, a.y * lambda, a.z * lambda)
  }

  /** Division by a scalar: the source panics on a zero divisor, so callers must avoid it. */
  function Div(a: Vec3, lambda: real): (r: Vec3)
    requires lambda != 0.0
    ensures Scale(r, lambda) == a
  {
    DivCancels(a.x, lambda);
    DivCancels(a.y, lambda);
    DivCancels(a.z, lambda);
    var r := Vec3(a.x / lambda, a.y / lambda, a.z / lambda);
    assert Scale(r, lambda) == Vec3(a.x, a.y, a.z);
    r
  }

  lemma DivCancels(a: real, lambda: real)
    requires lambda != 0.0
    ensures (a / lambda) * lambda == a
  {
  }

  /** The componentwise addition `Sum` folds with (correct in y, unlike `Add`). */
  function SumStep(u: Vec3, v: Vec3): Vec3
  {
    Vec3(u.x + v.x, u.y + v.y, u.z + v.z)
  }

  function Fold(acc: Vec3, vs: seq<Vec3>): Vec3
    decreases vs
  {
    if vs == [] then acc else Fold(SumStep(acc, vs[0]), vs[1..])
  }

  /** `Sum`: a left fold from (0, 0, 0). */
  function Sum(vs: seq<Vec3>): Vec3
  {
    Fold(Zero(), vs)
  }

  /** The sum of one component over a sequence (reference definition). */
  function ComponentTotal(vs: seq<Vec3>, i: Axis): real
  {
    if vs == [] then 0.0 else vs[0].Ix(i) + ComponentTotal(vs[1..], i)
  }

  lemma {:induction false} FoldComponent(acc: Vec3, vs: seq<Vec3>, i: Axis)
    ensures Fold(acc, vs).Ix(i) == acc.Ix(i) + ComponentTotal(vs, i)
    decreases vs
  {
    if vs != [] {
      FoldComponent(SumStep(acc, vs[0]), vs[1..], i);
    }
  }

  /** Summing gives, in every component, the total of that component; nothing sums to zero. */
  lemma SumIsComponentwise(vs: seq<Vec3>, i: Axis)
    ensures Sum(vs).Ix(i) == ComponentTotal(vs, i)
    ensures Sum([]) == Zero()
  {
    FoldComponent(Zero(), vs, i);
  }

  /** Summing two vectors is true addition, which differs from `Add` whenever a.x != a.y. */
  lemma SumOfTwoIsNotAdd(a: Vec3, b: Vec3)
    ensures Sum([a, b]) == Vec3(a.x + b.x, a.y + b.y, a.z + b.z)
    ensures Sum([a, b]) == Add(a, b) <==> a.x == a.y
  {
    assert [a, b][1..] == [b];
    assert SumStep(Zero(), a) == a;
    assert Sum([a, b]) == Fold(a, [b]);
    assert Fold(a, [b]) == Fold(SumStep(a, b), []);
  }

  /** `Add` is not commutative: (1, 0, 0) + (0, 0, 0) has y = 1, the other order y = 0. */
  lemma AddNotCommutative()
    ensures Add(Vec3(1.0, 0.0, 0.0), Zero()) != Add(Zero(), Vec3(1.0, 0.0, 0.0))
  {
    assert Add(Vec3(1.0, 0.0, 0.0), Zero()).y == 1.0;
  }

  /** Adding zero on the right copies x into y. */
  lemma AddZeroRight(a: Vec3)
    ensures Add(a, Zero()) == Vec3(a.x, a.x, a.z)
    ensures Add(a, Zero()) == a <==> a.x == a.y
  {
  }

  function Dot(u: Vec3, v: Vec3): real
  {
    u.x * v.x + u.y * v.y + u.z * v.z
  }

  /** `dot` is a true inner product: symmetric, and linear in each argument under scaling. */
  lemma DotSymmetric(u: Vec3, v: Vec3)
    ensures Dot(u, v) == Dot(v, u)
  {
  }

  lemma DotScale(u: Vec3, v: Vec3, k: real)
    ensures Dot(Scale(u, k), v) == k * Dot(u, v)
    ensures Dot(u, Scale(v, k)) == k * Dot(u, v)
  {
    assert Dot(Scale(u, k), v) == (u.x * k) * v.x + (u.y * k) * v.y + (u.z * k) * v.z;
    assert (u.x * k) * v.x + (u.y * k) * v.y + (u.z * k) * v.z == k * (u.x * v.x + u.y * v.y + u.z * v.z);
    assert Dot(u, Scale(v, k)) == u.x * (v.x * k) + u.y * (v.y * k) + u.z * (v.z * k);
    assert u.x * (v.x * k) + u.y * (v.y * k) + u.z * (v.z * k) == k * (u.x * v.x + u.y * v.y + u.z * v.z);
  }

  function Cross(u: Vec3, v: Vec3): (r: Vec3)
    ensures Dot(r, u) == 0.0 && Dot(r, v) == 0.0
  {
    var r := Vec3(u.y * v.z - u.z * v.y, u.z * v.x - u.x * v.z, u.x * v.y - u.y * v.x);
    assert Dot(r, u) == 0.0 by {
      calc {
        Dot(r, u);
        (u.y * v.z - u.z * v.y) * u.x + (u.z * v.x - u.x * v.z) * u.y + (u.x * v.y - u.y * v.x) * u.z;
        u.x * u.y * v.z - u.x * u.z * v.y + u.y * u.z * v.x - u.x * u.y * v.z + u.x * u.z * v.y - u.y * u.z * v.x;
      }
    }
    assert Dot(r, v) == 0.0 by {
      calc {
        Dot(r, v);
        (u.y * v.z - u.z * v.y) * v.x + (u.z * v.x - u.x * v.z) * v.y + (u.x * v.y - u.y * v.x) * v.z;
        u.y * v.x * v.z - u.z * v.x * v.y + u.z * v.x * v.y - u.x * v.y * v.z + u.x * v.y * v.z - u.y * v.x * v.z;
      }
    }
    r
  }

  /** `length_squared`: the dot product of a vector with itself, never negative. */
  function LengthSquared(v: Vec3): (r: real)
    ensures r >= 0.0
    ensures v == Zero() ==> r == 0.0
  {
    SquareNonNegative(v.x);
    SquareNonNegative(v.y);
    SquareNonNegative(v.z);
    Dot(v, v)
  }

  lemma SquareNonNegative(a: real)
    ensures a * a >= 0.0
  {
    if a < 0.0 {
      assert a * a == (-a) * (-a);
    }
  }

  /** `length`: the square root of `length_squared`; positive when the squared length is. */
  function Length(m: Maths, v: Vec3): (r: real)
    ensures r >= 0.0
    ensures LengthSquared(v) > 0.0 ==> r > 0.0
  {
    m.sqrt(LengthSquared(v))
  }

  /** `near_zero`: the squared length is below 1e-10. */
  predicate NearZero(v: Vec3)
  {
    LengthSquared(v) < 0.0000000001
  }

  /**
   * A vector is near zero only when every component is below `1e-5` in
   * magnitude, and it is near zero whenever every component is below
   * `5e-6`.
   */
  lemma NearZeroComponents(v: Vec3)
    ensures NearZero(v) ==> -0.00001 < v.x < 0.00001 && -0.00001 < v.y < 0.00001 && -0.00001 < v.z < 0.00001
    ensures -0.000005 < v.x < 0.000005 && -0.000005 < v.y < 0.000005 && -0.000005 < v.z < 0.000005 ==> NearZero(v)
  {
    SquareNonNegative(v.x);
    SquareNonNegative(v.y);
    SquareNonNegative(v.z);
    SmallSquare(v.x);
    SmallSquare(v.y);
    SmallSquare(v.z);
    assert LengthSquared(v) == v.x * v.x + v.y * v.y + v.z * v.z;
  }

  /** `x² < 1e-10` exactly bounds `|x|` by `1e-5`; `|x| < 5e-6` gives `x² < 2.5e-11`. */
  lemma SmallSquare(x: real)
    ensures x * x < 0.0000000001 ==> -0.00001 < x < 0.00001
    ensures -0.000005 < x < 0.000005 ==> x * x < 0.000000000025
  {
    var a := if x < 0.0 then -x else x;
    assert x * x == a * a;
    if a >= 0.00001 {
      assert a * a >= 0.00001 * a >= 0.00001 * 0.00001;
    }
    if a < 0.000005 {
      assert a * a <= 0.000005 * a < 0.000005 * 0.000005;
    }
  }

  /** `unit`: division by the length, which panics when the length is zero. */
  function Unit(m: Maths, v: Vec3): (r: Vec3)
    requires Length(m, v) != 0.0
    ensures Scale(r, Length(m, v)) == v
  {
    Div(v, Length(m, v))
  }

  /** `reflect(v, n) = v - n * dot(v, n) * 2`: built from `Sub` and scalar products only. */
  function Reflect(v: Vec3, n: Vec3): (r: Vec3)
    ensures forall i: Axis :: r.Ix(i) == v.Ix(i) - 2.0 * Dot(v, n) * n.Ix(i)
  {
    Sub(v, Scale(Scale(n, Dot(v, n)), 2.0))
  }

  /** Reflecting about a unit normal negates the normal component of the vector. */
  lemma ReflectFlipsNormalComponent(v: Vec3, n: Vec3)
    requires LengthSquared(n) == 1.0
    ensures Dot(Reflect(v, n), n) == -Dot(v, n)
  {
    var d := Dot(v, n);
    var r := Reflect(v, n);
    calc {
      Dot(r, n);
      (v.x - 2.0 * d * n.x) * n.x + (v.y - 2.0 * d * n.y) * n.y + (v.z - 2.0 * d * n.z) * n.z;
      d - 2.0 * d * (n.x * n.x + n.y * n.y + n.z * n.z);
      d - 2.0 * d * LengthSquared(n);
      -d;
    }
  }

  /** Reflecting twice about a unit normal gives back the vector. */
  lemma ReflectInvolution(v: Vec3, n: Vec3)
    requires LengthSquared(n) == 1.0
    ensures Reflect(Reflect(v, n), n) == v
  {
    ReflectFlipsNormalComponent(v, n);
    var r := Reflect(v, n);
    var d := Dot(v, n);
    var rr := Reflect(r, n);
    assert rr.Ix(0) == r.Ix(0) + 2.0 * d * n.Ix(0) == v.x;
    assert rr.Ix(1) == r.Ix(1) + 2.0 * d * n.Ix(1) == v.y;
    assert rr.Ix(2) == r.Ix(2) + 2.0 * d * n.Ix(2) == v.z;
  }

  /** `cos_theta`: the cosine between the reversed unit direction and the normal, capped at 1. */
  function CosTheta(unitDirection: Vec3, n: Vec3): (c: real)
    ensures c <= 1.0
    ensures Dot(Neg(unitDirection), n) <= 1.0 ==> c == Dot(Neg(unitDirection), n)
    ensures Dot(Neg(unitDirection), n) > 1.0 ==> c == 1.0
  {
    if Dot(Neg(unitDirection), n) < 1.0 then Dot(Neg(unitDirection), n) else 1.0
  }

  /** `refract`, with both of its vector sums going through `Add`. */
  function Refract(m: Maths, rayIn: Vec3, n: Vec3, etaOverEtaPrime: real): Vec3
  {
    var cosTheta := CosTheta(rayIn, n);
    var rOutPerp := Scale(Add(rayIn, Scale(n, cosTheta)), etaOverEtaPrime);
    var rest := 1.0 - LengthSquared(rOutPerp);
    var rOutParallel := Scale(n, -m.sqrt(if rest < 0.0 then -rest else rest));
    Add(rOutPerp, rOutParallel)
  }

  /** `clamp(x, min, max)`. */
  function Clamp(x: real, min: real, max: real): (r: real)
    ensures x < min ==> r == min
    ensures min <= x && x > max ==> r == max
    ensures min <= x <= max ==> r == x
    ensures min <= max ==> min <= r <= max
  {
    if x < min then min else if x > max then max else x
  }

  /** One output channel: clamp to [0, 0.999], scale by 256 and take the floor. */
  function Channel(c: real): (k: int)
    ensures 0 <= k <= 255
  {
    (Clamp(c, 0.0, 0.999) * 256.0).Floor
  }

  /**
   * One channel of `write_colour`: the averaged value gamma-corrected by a
   * square root and quantised. `None` where the source prints NaN: the square
   * root of a negative average is NaN, and neither `clamp` nor `floor`
   * removes it.
   */
  function GammaChannel(m: Maths, average: real): (k: Option<int>)
    ensures k.None? <==> average < 0.0
    ensures k.Some? ==> 0 <= k.value <= 255
  {
    if average < 0.0 then None else Some(Channel(m.sqrt(average)))
  }

  /**
   * `write_colour`: average over the samples, gamma-correct by a square root,
   * and quantise each channel. The text formatting is not modelled: the result
   * is the three values the source prints, `None` for a printed NaN.
   */
  function WriteColour(m: Maths, colour: Vec3, samplesPerPixel: nat): (rgb: (Option<int>, Option<int>, Option<int>))
    requires samplesPerPixel > 0
    ensures rgb.0.None? <==> colour.x < 0.0
    ensures rgb.1.None? <==> colour.y < 0.0
    ensures rgb.2.None? <==> colour.z < 0.0
    ensures rgb.0.Some? ==> 0 <= rgb.0.value <= 255
    ensures rgb.1.Some? ==> 0 <= rgb.1.value <= 255
    ensures rgb.2.Some? ==> 0 <= rgb.2.value <= 255
    ensures colour == Zero() && m.sqrt(0.0) == 0.0 ==> rgb == (Some(0), Some(0), Some(0))
  {
    var scale := 1.0 / samplesPerPixel as real;
    SignOfScaled(colour.x, scale);
    SignOfScaled(colour.y, scale);
    SignOfScaled(colour.z, scale);
    (GammaChannel(m, colour.x * scale), GammaChannel(m, colour.y * scale), GammaChannel(m, colour.z * scale))
  }

  /** Scaling by a positive factor keeps the sign. */
  lemma SignOfScaled(x: real, scale: real)
    requires scale > 0.0
    ensures x * scale < 0.0 <==> x < 0.0
  {
  }
}
