// Numeric conventions shared by every module of the model.
//
// Floating-point quantities are modelled as exact reals.  The C library
// functions the code calls (sqrt, exp, pow) cannot be computed exactly, so
// they are carried in a `Libm` record of function values; `Lawful` states the
// few facts about them that the proofs rely on.  C++ integer conversions and
// divisions, which truncate toward zero, are written out explicitly.
module Numerics {

  /** EPSILON of graph_io.h. */
  const EPSILON: real := 0.000001
  /** INV_SQRT_2PI of graph_io.h. */
  const INV_SQRT_2PI: real := 0.3989422804
  /** osg::PI. */
  const PI: real := 3.14159265358979323846
  /** osg::WGS_84_RADIUS_EQUATOR, in metres. */
  const WGS_84_RADIUS_EQUATOR: real := 6378137.0
  /** std::numeric_limits<float>::max(). */
  const FLT_MAX: real := 340282346638528859811704183484516925440.0
  /** std::numeric_limits<float>::lowest(). */
  const FLT_LOWEST: real := -FLT_MAX
  /** std::numeric_limits<float>::min(): the smallest POSITIVE normal float. */
  const FLT_MIN: real := 0.0000000000000000000000000000000000000117549435082228750797

  /** A value that may be absent: a missing file, a null reference, or a
      computation the code cannot complete. */
  datatype Option<T> = None | Some(value: T)

  /** A float that may also be infinite or not a number.  Finite values are
      exact reals (rounding and overflow are not modelled). */
  datatype Float = Num(r: real) | Inf(negative: bool) | NaN

  /** a / b in IEEE arithmetic, for finite a and b: division by zero gives an
      infinity of a's sign, or NaN for 0 / 0. */
  function Div(a: real, b: real): (q: Float)
    ensures b != 0.0 <==> q.Num?
    ensures q.NaN? <==> a == 0.0 && b == 0.0
  {
    if b != 0.0 then Num(a / b) else if a == 0.0 then NaN else Inf(a < 0.0)
  }

  /** The transcendental functions of <cmath> used by the code. */
  datatype Libm = Libm(sqrt: real -> real, exp: real -> real, pow: (real, real) -> real)

  /** The square root of x squares back to x. */
  ghost predicate SquaresBack(m: Libm, x: real)
  {
    Sq(m.sqrt(x)) == x
  }

  /** The properties of <cmath> the proofs depend on, stated over the reals. */
  ghost predicate Lawful(m: Libm)
  {
    && (forall x: real :: 0.0 <= x ==> 0.0 <= m.sqrt(x))
    && (forall x: real :: 0.0 < x ==> 0.0 < m.sqrt(x))
    && m.sqrt(0.0) == 0.0
    && (forall x: real :: 0.0 <= x ==> SquaresBack(m, x))
    && (forall x: real :: 0.0 < m.exp(x))
    && (forall b: real, e: real :: 0.0 < b ==> 0.0 < m.pow(b, e))
  }

  /** osg::DegreesToRadians. */
  function Deg2Rad(deg: real): (rad: real)
    ensures deg == 180.0 ==> rad == PI
    ensures deg < 0.0 <==> rad < 0.0
  {
    deg * PI / 180.0
  }

  /** A C++ conversion from floating point to int, which truncates toward zero. */
  function TruncToInt(x: real): (n: int)
    ensures 0.0 <= x ==> n as real <= x < n as real + 1.0
    ensures x < 0.0 ==> n as real - 1.0 < x <= n as real
  {
    if 0.0 <= x then x.Floor else -((-x).Floor)
  }

  /** C++ integer division by a positive divisor, which truncates toward zero. */
  function TruncDiv(a: int, b: int): (q: int)
    requires 0 < b
    ensures 0 <= a ==> 0 <= q && q * b <= a < q * b + b
    ensures a < 0 ==> q <= 0 && q * b - b < a <= q * b
  {
    if 0 <= a then a / b else -((-a) / b)
  }

  // Products that proofs reason about are written through Mul and Sq, so that
  // facts proved about them carry over to every occurrence of the same product.

  /** a * b. */
  function Mul(a: real, b: real): real { a * b }

  /** x * x. */
  function Sq(x: real): real { Mul(x, x) }

  lemma MulPositive(x: real, y: real)
    requires 0.0 < x && 0.0 < y
    ensures 0.0 < Mul(x, y)
  {
  }

  lemma MulDistributes(a: real, b: real, c: real)
    ensures Mul(a + b, c) == Mul(a, c) + Mul(b, c)
    ensures Mul(a - b, c) == Mul(a, c) - Mul(b, c)
  {
  }

  /** Multiplying by a non-negative factor keeps the order. */
  lemma {:induction false} MulMonotone(a: real, b: real, c: real)
    requires a <= b && 0.0 <= c
    ensures Mul(a, c) <= Mul(b, c)
  {
    MulDistributes(b, a, c);
    if a < b && 0.0 < c {
      MulPositive(b - a, c);
    }
  }

  /** A square is non-negative, and positive unless its root is zero. */
  lemma SquareSign(x: real)
    ensures 0.0 <= Sq(x)
    ensures x != 0.0 ==> 0.0 < Sq(x)
  {
    if x < 0.0 {
      assert Sq(x) == (-x) * (-x);
      MulPositive(-x, -x);
    } else if x > 0.0 {
      MulPositive(x, x);
    }
  }

  lemma SquareOfNegation(x: real)
    ensures Sq(-x) == Sq(x)
  {
  }

  /** Two non-negative reals with the same square are equal. */
  lemma {:induction false} SquareRootUnique(s: real, a: real)
    requires 0.0 <= s && 0.0 <= a && Sq(s) == Sq(a)
    ensures s == a
  {
    assert Mul(s - a, s + a) == Sq(s) - Sq(a);
    if s > a {
      MulPositive(s - a, s + a);
      assert false;
    } else if s < a {
      MulPositive(a - s, a + s);
      assert false;
    }
  }

  /** d * k == k with k positive forces d == 1. */
  lemma {:induction false} CancelPositive(d: real, k: real)
    requires 0.0 < k && Mul(d, k) == k
    ensures d == 1.0
  {
    if d > 1.0 {
      MulPositive(d - 1.0, k);
      MulDistributes(d, 1.0, k);
    } else if d < 1.0 {
      MulPositive(1.0 - d, k);
      MulDistributes(1.0, d, k);
    }
  }

  /** (x / l)^2 * l^2 == x^2. */
  lemma ScaleBack(x: real, l: real)
    requires l != 0.0
    ensures Mul(Sq(x / l), Sq(l)) == Sq(x)
  {
    assert (x / l) * l == x;
    assert ((x / l) * (x / l)) * (l * l) == ((x / l) * l) * ((x / l) * l);
  }

  /** A vector (x, y) divided by its own length l has length 1. */
  lemma {:induction false} UnitScalar(x: real, y: real, l: real)
    requires 0.0 < l && Sq(l) == Sq(x) + Sq(y)
    ensures Sq(x / l) + Sq(y / l) == 1.0
  {
    ScaleBack(x, l);
    ScaleBack(y, l);
    MulDistributes(Sq(x / l), Sq(y / l), Sq(l));
    MulPositive(l, l);
    CancelPositive(Sq(x / l) + Sq(y / l), Sq(l));
  }

  lemma MulAssociates(a: real, b: real, c: real)
    ensures Mul(Mul(a, b), c) == Mul(a, Mul(b, c))
  {
  }

  lemma MulCommutes(a: real, b: real)
    ensures Mul(a, b) == Mul(b, a)
  {
  }

  /** (x * s) / l == (x / l) * s. */
  lemma DivMulSwap(x: real, s: real, l: real)
    requires l != 0.0
    ensures Mul(x, s) / l == Mul(x / l, s)
  {
    assert (x / l) * l == x;
    assert ((x / l) * s) * l == ((x / l) * l) * s;
  }

  lemma SquareOfProduct(a: real, s: real)
    ensures Sq(Mul(a, s)) == Mul(Sq(a), Sq(s))
  {
    assert (a * s) * (a * s) == (a * a) * (s * s);
  }

  /** A vector (x, y) of length l, scaled by s and divided by l, has length |s|. */
  lemma {:induction false} ScaledUnitScalar(x: real, y: real, l: real, s: real)
    requires 0.0 < l && Sq(l) == Sq(x) + Sq(y)
    ensures Sq(Mul(x, s) / l) + Sq(Mul(y, s) / l) == Sq(s)
  {
    DivMulSwap(x, s, l);
    DivMulSwap(y, s, l);
    SquareOfProduct(x / l, s);
    SquareOfProduct(y / l, s);
    UnitScalar(x, y, l);
    MulDistributes(Sq(x / l), Sq(y / l), Sq(s));
  }

  /** (a / b) * b == a. */
  lemma DivCancels(a: real, b: real)
    requires b != 0.0
    ensures Mul(a / b, b) == a
  {
  }

  /** The squares of a sum and of a difference, expanded. */
  lemma SquareOfSum(a: real, c: real)
    ensures Sq(a + c) == Sq(a) + 2.0 * Mul(a, c) + Sq(c)
    ensures Sq(a - c) == Sq(a) - 2.0 * Mul(a, c) + Sq(c)
  {
    assert (a + c) * (a + c) == a * a + 2.0 * (a * c) + c * c;
    assert (a - c) * (a - c) == a * a - 2.0 * (a * c) + c * c;
  }

  /** A quotient of a non-negative by a positive number is non-negative. */
  lemma DivNonNegative(p: real, q: real)
    requires 0.0 <= p && 0.0 < q
    ensures 0.0 <= p / q
  {
  }

  /** p / q lies in (0, 1] when 0 < p <= q. */
  lemma DivAtMostOne(p: real, q: real)
    requires 0.0 < p <= q
    ensures 0.0 < p / q <= 1.0
  {
    assert (p / q) * q == p;
    if p / q > 1.0 {
      MulPositive(p / q - 1.0, q);
      MulDistributes(p / q, 1.0, q);
    }
  }

  /** p / q is at least 1 when 0 < q <= p. */
  lemma DivAtLeastOne(p: real, q: real)
    requires 0.0 < q <= p
    ensures 1.0 <= p / q
  {
    assert (p / q) * q == p;
  }

  /** An RGBA colour with real channels (osg::Vec4 / QColor's float channels). */
  datatype Rgba = Rgba(r: real, g: real, b: real, a: real)
  {
    function Plus(o: Rgba): Rgba { Rgba(r + o.r, g + o.g, b + o.b, a + o.a) }
    function Minus(o: Rgba): Rgba { Rgba(r - o.r, g - o.g, b - o.b, a - o.a) }
    function Times(k: real): Rgba { Rgba(r * k, g * k, b * k, a * k) }
  }

  /** (1 - t) * c0 + t * c1, channel by channel. */
  function Mix(c0: Rgba, c1: Rgba, t: real): (c: Rgba)
    ensures t == 0.0 ==> c == c0
    ensures t == 1.0 ==> c == c1
    ensures c0 == c1 ==> c == c0
  {
    Rgba((1.0 - t) * c0.r + t * c1.r, (1.0 - t) * c0.g + t * c1.g,
         (1.0 - t) * c0.b + t * c1.b, (1.0 - t) * c0.a + t * c1.a)
  }
}
