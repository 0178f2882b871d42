/**
 * Integer displacement vectors between keypoints and the cosine similarity
 * of two of them. The Euclidean norm (`np.linalg.norm`) has no closed form
 * over the reals, so it is a parameter, constrained to be the exact
 * non-negative square root of the squared length.
 */
module Geometry {

  datatype Vec = Vec(x: int, y: int)

  const Zero := Vec(0, 0)

  /** The displacement `end - start` between two pixel positions. */
  function Displacement(start: (int, int), end: (int, int)): (v: Vec)
    ensures v == Zero <==> start == end
  {
    Vec(end.0 - start.0, end.1 - start.1)
  }

  function Dot(u: Vec, v: Vec): int
  {
    u.x * v.x + u.y * v.y
  }

  /** The z-component of the cross product: zero exactly when `u` and `v` are parallel. */
  function Cross(u: Vec, v: Vec): int
  {
    u.x * v.y - u.y * v.x
  }

  function SqNorm(u: Vec): (n: int)
    ensures 0 <= n
    ensures n == 0 <==> u == Zero
  {
    u.x * u.x + u.y * u.y
  }

  /** Lagrange's identity in two dimensions. */
  lemma Lagrange(u: Vec, v: Vec)
    ensures Dot(u, v) * Dot(u, v) + Cross(u, v) * Cross(u, v) == SqNorm(u) * SqNorm(v)
  {
    var a, b, c, d := u.x, u.y, v.x, v.y;
    calc {
      (a * c + b * d) * (a * c + b * d) + (a * d - b * c) * (a * d - b * c);
      a * a * c * c + b * b * d * d + a * a * d * d + b * b * c * c;
      (a * a + b * b) * (c * c + d * d);
    }
  }

  /** The Cauchy–Schwarz inequality, with equality exactly for parallel vectors. */
  lemma CauchySchwarz(u: Vec, v: Vec)
    ensures Dot(u, v) * Dot(u, v) <= SqNorm(u) * SqNorm(v)
    ensures Dot(u, v) * Dot(u, v) == SqNorm(u) * SqNorm(v) <==> Cross(u, v) == 0
  {
    Lagrange(u, v);
    var c := Cross(u, v);
    assert 0 <= c * c;
    assert c * c == 0 <==> c == 0;
  }

  /** `u` and `v` are parallel and point the same way: for non-zero vectors, one is a positive multiple of the other. */
  predicate Aligned(u: Vec, v: Vec)
  {
    Cross(u, v) == 0 && 0 < Dot(u, v)
  }

  /** `u` and `v` are parallel and point in opposite directions. */
  predicate Opposed(u: Vec, v: Vec)
  {
    Cross(u, v) == 0 && Dot(u, v) < 0
  }

  function Scale(k: int, v: Vec): Vec
  {
    Vec(k * v.x, k * v.y)
  }

  /** A positive multiple of a non-zero vector is aligned with it, a negative multiple opposed to it. */
  lemma ScaledDirection(k: int, v: Vec)
    requires v != Zero && k != 0
    ensures 0 < k ==> Aligned(Scale(k, v), v)
    ensures k < 0 ==> Opposed(Scale(k, v), v)
  {
    assert Cross(Scale(k, v), v) == k * Cross(v, v) == 0;
    assert Dot(Scale(k, v), v) == k * SqNorm(v);
    assert 0 < SqNorm(v);
    if 0 < k { ProductPositiveInt(k, SqNorm(v)); }
    if k < 0 { ProductPositiveInt(-k, SqNorm(v)); }
  }

  lemma ProductPositiveInt(a: int, b: int)
    requires 0 < a && 0 < b
    ensures 0 < a * b
  {
  }

  /** `norm` is the Euclidean length: non-negative and squaring to the squared length. */
  ghost predicate IsEuclideanNorm(norm: Vec -> real)
  {
    forall v {:trigger SqNorm(v)} :: 0.0 <= norm(v) && norm(v) * norm(v) == SqNorm(v) as real
  }

  /** The source's `norm(v) > 0` test holds exactly for non-zero vectors. */
  lemma NormPositive(norm: Vec -> real, v: Vec)
    requires IsEuclideanNorm(norm)
    ensures 0.0 < norm(v) <==> v != Zero
  {
    var n, s := norm(v), SqNorm(v);
    assert 0.0 <= n && n * n == s as real;
    SquareZero(n);
    assert s == 0 <==> v == Zero;
    assert n == 0.0 <==> s == 0;
  }

  lemma SquareZero(a: real)
    requires 0.0 <= a
    ensures a * a == 0.0 <==> a == 0.0
  {
    if 0.0 < a { SquareStrictlyMonotone(0.0, a); }
  }

  lemma SquareStrictlyMonotone(a: real, b: real)
    requires 0.0 <= a < b
    ensures a * a < b * b
  {
    ProductPositive(b - a, b + a);
    assert b * b - a * a == (b - a) * (b + a);
  }

  lemma ProductPositive(x: real, y: real)
    requires 0.0 < x && 0.0 < y
    ensures 0.0 < x * y
  {
  }

  /** Two non-negative reals with equal squares are equal. */
  lemma SquareInjective(a: real, b: real)
    requires 0.0 <= a && 0.0 <= b && a * a == b * b
    ensures a == b
  {
    if a < b { SquareStrictlyMonotone(a, b); }
    if b < a { SquareStrictlyMonotone(b, a); }
  }

  /** The product of the two lengths squares to the product of the squared lengths. */
  lemma NormProduct(norm: Vec -> real, u: Vec, v: Vec)
    requires IsEuclideanNorm(norm)
    ensures 0.0 <= norm(u) * norm(v)
    ensures (norm(u) * norm(v)) * (norm(u) * norm(v)) == (SqNorm(u) * SqNorm(v)) as real
  {
    var a, b := norm(u), norm(v);
    assert a * a == SqNorm(u) as real && b * b == SqNorm(v) as real;
    assert (a * b) * (a * b) == (a * a) * (b * b);
    assert (SqNorm(u) * SqNorm(v)) as real == (SqNorm(u) as real) * (SqNorm(v) as real);
  }

  /** `d / p` for `|d| <= p`, with its two extreme values. */
  lemma RatioBounds(d: real, p: real)
    requires 0.0 < p && -p <= d <= p
    ensures -1.0 <= d / p <= 1.0
    ensures d / p == 1.0 <==> d == p
    ensures d / p == -1.0 <==> d == -p
  {
    var c := d / p;
    assert c * p == d;
  }

  /**
   * The cosine similarity `dot(u, v) / (norm(u) * norm(v))` of two non-zero
   * vectors: it lies in [-1, 1], is 1 exactly when they point the same way
   * and -1 exactly when they point in opposite directions.
   */
  function Cosine(u: Vec, v: Vec, norm: Vec -> real): (c: real)
    requires IsEuclideanNorm(norm) && 0.0 < norm(u) && 0.0 < norm(v)
    ensures -1.0 <= c <= 1.0
    ensures c == 1.0 <==> Aligned(u, v)
    ensures c == -1.0 <==> Opposed(u, v)
  {
    var p := norm(u) * norm(v);
    var d := Dot(u, v) as real;
    CosineShape(u, v, norm);
    RatioBounds(d, p);
    d / p
  }

  /** Where `dot(u, v)` sits relative to `norm(u) * norm(v)`. */
  lemma CosineShape(u: Vec, v: Vec, norm: Vec -> real)
    requires IsEuclideanNorm(norm) && 0.0 < norm(u) && 0.0 < norm(v)
    ensures 0.0 < norm(u) * norm(v)
    ensures -(norm(u) * norm(v)) <= Dot(u, v) as real <= norm(u) * norm(v)
    ensures Dot(u, v) as real == norm(u) * norm(v) <==> Cross(u, v) == 0 && 0 < Dot(u, v)
    ensures Dot(u, v) as real == -(norm(u) * norm(v)) <==> Cross(u, v) == 0 && Dot(u, v) < 0
  {
    var p := norm(u) * norm(v);
    var d := Dot(u, v) as real;
    ProductPositive(norm(u), norm(v));
    NormProduct(norm, u, v);
    CauchySchwarz(u, v);
    DotBounds(Dot(u, v), SqNorm(u) * SqNorm(v), Cross(u, v) == 0, d, p);
  }

  /**
   * The real-number step of `CosineShape`: an integer `dot` whose square is
   * at most `n`, equal exactly when `collinear`, lies within `p = sqrt(n)`.
   */
  lemma DotBounds(dot: int, n: int, collinear: bool, d: real, p: real)
    requires 0.0 < p && p * p == n as real && d == dot as real
    requires dot * dot <= n && (dot * dot == n <==> collinear)
    ensures -p <= d <= p
    ensures d == p <==> collinear && 0 < dot
    ensures d == -p <==> collinear && dot < 0
  {
    CastSquare(dot, n);
    BoundBySquares(d, p);
  }

  /** Squaring commutes with the cast to `real`. */
  lemma CastSquare(k: int, n: int)
    ensures (k as real) * (k as real) == (k * k) as real
    ensures (k * k <= n) == ((k as real) * (k as real) <= n as real)
    ensures (k * k == n) == ((k as real) * (k as real) == n as real)
  {
  }

  /** A real whose square is at most `p * p` lies in [-p, p], at an end exactly when the squares agree. */
  lemma BoundBySquares(d: real, p: real)
    requires 0.0 < p && d * d <= p * p
    ensures -p <= d <= p
    ensures d * d == p * p <==> d == p || d == -p
  {
    var ad := if d < 0.0 then -d else d;
    assert ad * ad == d * d;
    assert (-p) * (-p) == p * p;
    if p < ad { SquareStrictlyMonotone(p, ad); }
    if ad * ad == p * p { SquareInjective(ad, p); }
  }

  /** Cosine similarity does not depend on the order of the two vectors. */
  lemma CosineSymmetric(u: Vec, v: Vec, norm: Vec -> real)
    requires IsEuclideanNorm(norm) && 0.0 < norm(u) && 0.0 < norm(v)
    ensures Cosine(u, v, norm) == Cosine(v, u, norm)
  {
    assert Dot(u, v) == Dot(v, u);
    assert norm(u) * norm(v) == norm(v) * norm(u);
  }
}
