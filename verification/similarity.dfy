/** Cosine similarity between term-count vectors (server.ts, cosineSimilarity),
    in exact arithmetic.

    The source returns dot / (sqrt(|a|^2) * sqrt(|b|^2)), or 0 when either
    magnitude is 0. Counts are non-negative, so the dot product and the
    similarity are never negative, and the similarity is determined by its
    square dot^2 / (|a|^2 * |b|^2), a rational number. Every comparison the
    retrieval stage makes (against 0.2, and between two scores) gives the same
    answer on the squares (against 0.2^2 = 1/25), so the model works with the
    squared similarity throughout. */
module Similarity {

  /** `vecA.reduce((sum, a, i) => sum + a * vecB[i], 0)`. */
  function Dot(a: seq<nat>, b: seq<nat>): nat
    requires |a| == |b|
  {
    if a == [] then 0 else a[0] * b[0] + Dot(a[1..], b[1..])
  }

  /** `vec.reduce((sum, val) => sum + val * val, 0)`: the squared magnitude. */
  function NormSquared(a: seq<nat>): nat
  {
    if a == [] then 0 else a[0] * a[0] + NormSquared(a[1..])
  }

  /** The square of `cosineSimilarity(a, b)`; 0 when either magnitude is 0. */
  function CosineSquared(a: seq<nat>, b: seq<nat>): real
    requires |a| == |b|
  {
    if NormSquared(a) == 0 || NormSquared(b) == 0 then 0.0
    else (Dot(a, b) * Dot(a, b)) as real / (NormSquared(a) * NormSquared(b)) as real
  }

  /** All entries zero. */
  predicate AllZero(v: seq<nat>)
  {
    forall i :: 0 <= i < |v| ==> v[i] == 0
  }

  /** The magnitude is 0 exactly for the all-zero vector. */
  lemma {:induction false} NormZeroIffAllZero(v: seq<nat>)
    ensures NormSquared(v) == 0 <==> AllZero(v)
  {
    if v != [] {
      NormZeroIffAllZero(v[1..]);
      if v[0] != 0 {
        assert v[0] * v[0] > 0;
      }
      assert AllZero(v) <==> v[0] == 0 && AllZero(v[1..]);
    }
  }

  /** The similarity is 0 whenever either vector is all zeros. */
  lemma CosineOfZero(a: seq<nat>, b: seq<nat>)
    requires |a| == |b|
    requires AllZero(a) || AllZero(b)
    ensures CosineSquared(a, b) == 0.0
  {
    NormZeroIffAllZero(a);
    NormZeroIffAllZero(b);
  }

  lemma {:induction false} DotSymmetric(a: seq<nat>, b: seq<nat>)
    requires |a| == |b|
    ensures Dot(a, b) == Dot(b, a)
  {
    if a != [] {
      DotSymmetric(a[1..], b[1..]);
    }
  }

  /** The similarity is symmetric. */
  lemma CosineSymmetric(a: seq<nat>, b: seq<nat>)
    requires |a| == |b|
    ensures CosineSquared(a, b) == CosineSquared(b, a)
  {
    DotSymmetric(a, b);
  }

  lemma {:induction false} DotSelf(a: seq<nat>)
    ensures Dot(a, a) == NormSquared(a)
  {
    if a != [] {
      DotSelf(a[1..]);
    }
  }

  /** A non-zero vector is at similarity 1 with itself. */
  lemma CosineSelf(a: seq<nat>)
    requires !AllZero(a)
    ensures CosineSquared(a, a) == 1.0
  {
    NormZeroIffAllZero(a);
    DotSelf(a);
    var n := NormSquared(a);
    assert Dot(a, a) == n;
    PositiveProduct(n, n);
    RatioOfEqual(n * n);
  }

  lemma RatioOfEqual(m: int)
    requires m > 0
    ensures m as real / m as real == 1.0
  {
  }

  lemma PositiveProduct(x: int, y: int)
    requires x > 0 && y > 0
    ensures x * y > 0
  {
  }

  lemma NonNegativeProduct(x: int, y: int)
    requires x >= 0 && y >= 0
    ensures x * y >= 0
  {
  }

  lemma SquareNonNegative(u: int)
    ensures u * u >= 0
  {
    if u < 0 {
      NonNegativeProduct(-u, -u);
    } else {
      NonNegativeProduct(u, u);
    }
  }

  /** (s*y - d*x)^2 + x^2*(s*t - d^2) == s*(x^2*t + y^2*s - 2*x*y*d). */
  lemma CrossTermIdentity(s: int, t: int, d: int, x: int, y: int)
    ensures (s * y - d * x) * (s * y - d * x) + (x * x) * (s * t - d * d)
         == s * ((x * x) * t + (y * y) * s - 2 * x * y * d)
  {
  }

  /** The cross term of one more coordinate is bounded, given the
      inequality for the coordinates before it. */
  lemma CrossTerm(sa: int, sb: int, d: int, x: int, y: int)
    requires sa >= 0 && sb >= 0 && d * d <= sa * sb
    ensures 2 * x * y * d <= (x * x) * sb + (y * y) * sa
  {
    var e := (x * x) * sb + (y * y) * sa - 2 * x * y * d;
    SquareNonNegative(x);
    SquareNonNegative(y);
    if sa == 0 {
      SquareNonNegative(d);
      assert d * d == 0;
      assert d == 0;
      NonNegativeProduct(x * x, sb);
    } else {
      var u := sa * y - d * x;
      CrossTermIdentity(sa, sb, d, x, y);
      SquareNonNegative(u);
      NonNegativeProduct(x * x, sa * sb - d * d);
      assert sa * e >= 0;
      if e < 0 {
        PositiveProduct(sa, -e);
      }
    }
  }

  /** (x*y + d)^2 and (x^2 + s)*(y^2 + t) expanded. */
  lemma ExpandStep(x: int, y: int, d: int, s: int, t: int)
    ensures (x * y + d) * (x * y + d) == (x * x) * (y * y) + 2 * x * y * d + d * d
    ensures (x * x + s) * (y * y + t) == (x * x) * (y * y) + (x * x) * t + (y * y) * s + s * t
  {
  }

  /** Cauchy-Schwarz: the squared dot product is at most the product of the
      squared magnitudes. */
  lemma {:induction false} CauchySchwarz(a: seq<nat>, b: seq<nat>)
    requires |a| == |b|
    ensures Dot(a, b) * Dot(a, b) <= NormSquared(a) * NormSquared(b)
  {
    if a != [] {
      var x, y := a[0], b[0];
      var sa, sb, d := NormSquared(a[1..]), NormSquared(b[1..]), Dot(a[1..], b[1..]);
      assert Dot(a, b) == x * y + d;
      assert NormSquared(a) == x * x + sa;
      assert NormSquared(b) == y * y + sb;
      CauchySchwarz(a[1..], b[1..]);
      CrossTerm(sa, sb, d, x, y);
      ExpandStep(x, y, d, sa, sb);
    }
  }

  /** The similarity of count vectors lies in [0, 1]. */
  lemma CosineBounds(a: seq<nat>, b: seq<nat>)
    requires |a| == |b|
    ensures 0.0 <= CosineSquared(a, b) <= 1.0
  {
    if NormSquared(a) != 0 && NormSquared(b) != 0 {
      CauchySchwarz(a, b);
      PositiveProduct(NormSquared(a), NormSquared(b));
      RatioAtMostOne(Dot(a, b) * Dot(a, b), NormSquared(a) * NormSquared(b));
    }
  }

  lemma RatioAtMostOne(num: nat, den: nat)
    requires 0 < den && num <= den
    ensures 0.0 <= num as real / den as real <= 1.0
  {
  }
}
