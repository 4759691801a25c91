/** Cosine similarity between two embedding vectors (server/utils/similarity.ts).

    Vectors are sequences of reals. The platform square root (`Math.sqrt`) is
    a parameter `sqrt`; the similarity function itself works for any `sqrt`,
    and the lemmas that need its meaning require `IsSqrt(sqrt)`. */
module Similarity {

  function Square(x: real): real {
    x * x
  }

  /** `sqrt` is the non-negative square root on the non-negative reals. */
  ghost predicate IsSqrt(sqrt: real -> real) {
    forall x :: x >= 0.0 ==> sqrt(x) >= 0.0 && Square(sqrt(x)) == x
  }

  /** Left fold `sum + a[i] * b[i]` from 0, as `a.reduce` computes it. */
  function Dot(a: seq<real>, b: seq<real>): real
    requires |a| == |b|
  {
    if |a| == 0 then 0.0
    else Dot(a[..|a| - 1], b[..|b| - 1]) + a[|a| - 1] * b[|b| - 1]
  }

  /** Left fold `sum + a[i] * a[i]` from 0. */
  function SumSquares(a: seq<real>): (s: real)
    ensures s >= 0.0
  {
    if |a| == 0 then 0.0
    else SumSquares(a[..|a| - 1]) + Square(a[|a| - 1])
  }

  function Magnitude(sqrt: real -> real, a: seq<real>): real {
    sqrt(SumSquares(a))
  }

  /** `cosineSimilarity(a, b)`: 0 on a length mismatch, 0 when either
      magnitude is zero, otherwise dot / (|a| * |b|). */
  function CosineSimilarity(sqrt: real -> real, a: seq<real>, b: seq<real>): (r: real)
    ensures |a| != |b| ==> r == 0.0
    ensures Magnitude(sqrt, a) == 0.0 || Magnitude(sqrt, b) == 0.0 ==> r == 0.0
    ensures |a| == |b| && Magnitude(sqrt, a) != 0.0 && Magnitude(sqrt, b) != 0.0 ==>
              r * Magnitude(sqrt, a) * Magnitude(sqrt, b) == Dot(a, b)
  {
    if |a| != |b| then 0.0
    else
      var dot := Dot(a, b);
      var magA := Magnitude(sqrt, a);
      var magB := Magnitude(sqrt, b);
      if magA != 0.0 && magB != 0.0 then dot / (magA * magB) else 0.0
  }

  lemma {:induction false} DotCommutes(a: seq<real>, b: seq<real>)
    requires |a| == |b|
    ensures Dot(a, b) == Dot(b, a)
  {
    if |a| > 0 {
      DotCommutes(a[..|a| - 1], b[..|b| - 1]);
    }
  }

  lemma {:induction false} DotSelf(a: seq<real>)
    ensures Dot(a, a) == SumSquares(a)
  {
    if |a| > 0 {
      DotSelf(a[..|a| - 1]);
    }
  }

  /* Real arithmetic facts. Each is stated over `Square` or a product of two
     distinct parameters, which keeps the solver's non-linear reasoning local. */

  function Times(x: real, y: real): real {
    x * y
  }

  lemma TimesPositive(x: real, y: real)
    requires x > 0.0 && y > 0.0
    ensures Times(x, y) > 0.0
  {
  }

  lemma TimesNonNegative(x: real, y: real)
    requires x >= 0.0 && y >= 0.0
    ensures x * y >= 0.0
  {
  }

  lemma SquareNonNegative(x: real)
    ensures Square(x) >= 0.0
  {
  }

  lemma SquareOfNegation(x: real)
    ensures Square(-x) == Square(x)
  {
  }

  /** A non-zero real has a positive square. */
  lemma SquarePositive(x: real)
    requires x != 0.0
    ensures Square(x) > 0.0
  {
    if x > 0.0 {
      TimesPositive(x, x);
      assert Square(x) == Times(x, x);
    } else {
      TimesPositive(-x, -x);
      assert Square(-x) == Times(-x, -x);
      SquareOfNegation(x);
    }
  }

  /** The sum of squares vanishes exactly on the all-zero vector
      (including the empty vector). */
  lemma {:induction false} SumSquaresZeroIff(a: seq<real>)
    ensures SumSquares(a) == 0.0 <==> forall i :: 0 <= i < |a| ==> a[i] == 0.0
  {
    if |a| > 0 {
      var init := a[..|a| - 1];
      SumSquaresZeroIff(init);
      var x := a[|a| - 1];
      assert forall i :: 0 <= i < |init| ==> init[i] == a[i];
      SquareNonNegative(x);
      if x != 0.0 {
        SquarePositive(x);
      }
    }
  }

  /** A vector has zero magnitude exactly when every component is zero. */
  lemma ZeroMagnitudeIff(sqrt: real -> real, a: seq<real>)
    requires IsSqrt(sqrt)
    ensures Magnitude(sqrt, a) == 0.0 <==> forall i :: 0 <= i < |a| ==> a[i] == 0.0
  {
    var s := SumSquares(a);
    SumSquaresZeroIff(a);
    assert Square(sqrt(s)) == s;
    if sqrt(s) != 0.0 {
      SquarePositive(sqrt(s));
    }
  }

  /** `cosineSimilarity(a, b) == cosineSimilarity(b, a)` for every pair. */
  lemma CosineCommutes(sqrt: real -> real, a: seq<real>, b: seq<real>)
    ensures CosineSimilarity(sqrt, a, b) == CosineSimilarity(sqrt, b, a)
  {
    if |a| == |b| {
      DotCommutes(a, b);
      var magA := Magnitude(sqrt, a);
      var magB := Magnitude(sqrt, b);
      assert magA * magB == magB * magA;
    }
  }

  lemma ExpandCrossTerm(sa: real, sb: real, d: real, x: real, y: real)
    ensures sa * (sa * Square(y) + sb * Square(x) - 2.0 * d * x * y)
         == Square(sa * y - d * x) + (sa * sb - Square(d)) * Square(x)
  {
  }

  /** The step of Cauchy–Schwarz: 2dxy <= A*y^2 + B*x^2 whenever d^2 <= A*B. */
  lemma CrossTermBound(d: real, sa: real, sb: real, x: real, y: real)
    requires sa >= 0.0 && sb >= 0.0 && Square(d) <= sa * sb
    ensures 2.0 * d * x * y <= sa * Square(y) + sb * Square(x)
  {
    SquareNonNegative(x);
    if sa == 0.0 {
      if d != 0.0 {
        SquarePositive(d);
      }
      TimesNonNegative(sb, Square(x));
    } else {
      ExpandCrossTerm(sa, sb, d, x, y);
      SquareNonNegative(sa * y - d * x);
      TimesNonNegative(sa * sb - Square(d), Square(x));
      var r := sa * Square(y) + sb * Square(x) - 2.0 * d * x * y;
      if r < 0.0 {
        TimesPositive(sa, -r);
        assert false;
      }
    }
  }

  lemma ExpandStep(d: real, sa: real, sb: real, x: real, y: real)
    ensures Square(d + x * y) == Square(d) + 2.0 * d * x * y + Square(x) * Square(y)
    ensures (sa + Square(x)) * (sb + Square(y))
         == sa * sb + sa * Square(y) + sb * Square(x) + Square(x) * Square(y)
  {
  }

  /** Cauchy–Schwarz: dot(a, b)^2 <= |a|^2 * |b|^2. */
  lemma {:induction false} CauchySchwarz(a: seq<real>, b: seq<real>)
    requires |a| == |b|
    ensures Square(Dot(a, b)) <= SumSquares(a) * SumSquares(b)
  {
    if |a| > 0 {
      var a', b' := a[..|a| - 1], b[..|b| - 1];
      var x, y := a[|a| - 1], b[|b| - 1];
      CauchySchwarz(a', b');
      var d, sa, sb := Dot(a', b'), SumSquares(a'), SumSquares(b');
      CrossTermBound(d, sa, sb, x, y);
      ExpandStep(d, sa, sb, x, y);
    }
  }

  /** A product with a positive factor keeps the sign of the other factor. */
  lemma NonNegativeFactor(x: real, y: real)
    requires y > 0.0 && x * y >= 0.0
    ensures x >= 0.0
  {
  }

  /** If p^2 <= q^2 and q > 0 then -q <= p <= q. */
  lemma SquareBound(p: real, q: real)
    requires q > 0.0 && Square(p) <= Square(q)
    ensures -q <= p <= q
  {
    assert (q - p) * (q + p) == Square(q) - Square(p);
    if q + p > 0.0 {
      NonNegativeFactor(q - p, q + p);
    }
    if q - p > 0.0 {
      NonNegativeFactor(q + p, q - p);
    }
  }

  lemma QuotientBound(p: real, q: real)
    requires q > 0.0 && -q <= p <= q
    ensures -1.0 <= p / q <= 1.0
  {
  }

  /** The arithmetic core of |dot| <= |a| * |b|, given Cauchy–Schwarz. */
  lemma ProductBound(dot: real, sa: real, sb: real, magA: real, magB: real)
    requires magA > 0.0 && magB > 0.0
    requires Square(magA) == sa && Square(magB) == sb
    requires Square(dot) <= sa * sb
    ensures Times(magA, magB) > 0.0
    ensures -Times(magA, magB) <= dot <= Times(magA, magB)
  {
    TimesPositive(magA, magB);
    assert Square(Times(magA, magB)) == Square(magA) * Square(magB);
    SquareBound(dot, Times(magA, magB));
  }

  /** |dot(a, b)| <= |a| * |b| for vectors of equal length. */
  lemma DotBoundedByMagnitudes(sqrt: real -> real, a: seq<real>, b: seq<real>)
    requires IsSqrt(sqrt) && |a| == |b|
    requires Magnitude(sqrt, a) != 0.0 && Magnitude(sqrt, b) != 0.0
    ensures Times(Magnitude(sqrt, a), Magnitude(sqrt, b)) > 0.0
    ensures -Times(Magnitude(sqrt, a), Magnitude(sqrt, b)) <= Dot(a, b) <= Times(Magnitude(sqrt, a), Magnitude(sqrt, b))
  {
    var sa, sb := SumSquares(a), SumSquares(b);
    SqrtOf(sqrt, sa);
    SqrtOf(sqrt, sb);
    CauchySchwarz(a, b);
    ProductBound(Dot(a, b), sa, sb, Magnitude(sqrt, a), Magnitude(sqrt, b));
  }

  /** What `IsSqrt` says about one argument. */
  lemma SqrtOf(sqrt: real -> real, x: real)
    requires IsSqrt(sqrt) && x >= 0.0
    ensures sqrt(x) >= 0.0 && Square(sqrt(x)) == x
  {
  }

  /** The result always lies in [-1, 1]. */
  lemma CosineBounded(sqrt: real -> real, a: seq<real>, b: seq<real>)
    requires IsSqrt(sqrt)
    ensures -1.0 <= CosineSimilarity(sqrt, a, b) <= 1.0
  {
    if |a| == |b| && Magnitude(sqrt, a) != 0.0 && Magnitude(sqrt, b) != 0.0 {
      DotBoundedByMagnitudes(sqrt, a, b);
      CosineUnguarded(sqrt, a, b);
      QuotientBound(Dot(a, b), Times(Magnitude(sqrt, a), Magnitude(sqrt, b)));
    }
  }

  lemma UnitQuotient(p: real, m: real)
    requires p == Square(m) && p != 0.0
    ensures p / Times(m, m) == 1.0
  {
  }

  /** Past both guards the result is the plain quotient. */
  lemma CosineUnguarded(sqrt: real -> real, a: seq<real>, b: seq<real>)
    requires |a| == |b| && Magnitude(sqrt, a) != 0.0 && Magnitude(sqrt, b) != 0.0
    ensures CosineSimilarity(sqrt, a, b) == Dot(a, b) / Times(Magnitude(sqrt, a), Magnitude(sqrt, b))
  {
  }

  /** A vector with a non-zero component has similarity exactly 1 with itself. */
  lemma CosineSelf(sqrt: real -> real, v: seq<real>)
    requires IsSqrt(sqrt)
    requires exists i :: 0 <= i < |v| && v[i] != 0.0
    ensures CosineSimilarity(sqrt, v, v) == 1.0
  {
    ZeroMagnitudeIff(sqrt, v);
    DotSelf(v);
    var m := Magnitude(sqrt, v);
    assert m != 0.0;
    assert Dot(v, v) == Square(m);
    SquarePositive(m);
    CosineUnguarded(sqrt, v, v);
    UnitQuotient(Dot(v, v), m);
  }

  /** No vector is more similar to a non-zero `v` than `v` itself. */
  lemma SelfIsMostSimilar(sqrt: real -> real, v: seq<real>, w: seq<real>)
    requires IsSqrt(sqrt)
    requires exists i :: 0 <= i < |v| && v[i] != 0.0
    ensures CosineSimilarity(sqrt, v, w) <= CosineSimilarity(sqrt, v, v)
  {
    CosineSelf(sqrt, v);
    CosineBounded(sqrt, v, w);
  }
}
