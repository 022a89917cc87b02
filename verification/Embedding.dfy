/** Cosine similarity and ranking over the reals; the square root is a parameter with its defining property. */
module Embedding {
  import opened Options

  type Vector = seq<real>

  ghost predicate IsSqrt(sqrt: real -> real) {
    forall x | x >= 0.0 :: sqrt(x) >= 0.0 && sqrt(x) * sqrt(x) == x
  }

  function Dot(a: Vector, b: Vector): real
    requires |a| == |b|
  {
    if a == [] then 0.0 else Dot(a[..|a| - 1], b[..|b| - 1]) + a[|a| - 1] * b[|b| - 1]
  }

  // ---------- Cauchy-Schwarz ----------

  lemma SquareNotNegative(x: real)
    ensures x * x >= 0.0
  {
  }

  lemma ProductPositive(x: real, y: real)
    requires x > 0.0 && y > 0.0
    ensures x * y > 0.0
  {
  }

  lemma {:induction false} NormNotNegative(a: Vector)
    ensures Dot(a, a) >= 0.0
  {
    if a != [] {
      NormNotNegative(a[..|a| - 1]);
      SquareNotNegative(a[|a| - 1]);
    }
  }

  /** Twice the cross term never exceeds the mixed squares. */
  lemma CrossTerm(dot: real, na: real, nb: real, x: real, y: real)
    requires na >= 0.0 && nb >= 0.0 && dot * dot <= na * nb
    ensures 2.0 * dot * (x * y) <= na * (y * y) + nb * (x * x)
  {
    if na == 0.0 {
      assert na * nb == 0.0;
      if dot != 0.0 {
        ProductPositive(if dot > 0.0 then dot else -dot, if dot > 0.0 then dot else -dot);
      }
      assert 2.0 * dot * (x * y) == 0.0 && na * (y * y) == 0.0;
      SquareNotNegative(x);
      assert nb * (x * x) >= 0.0;
    } else {
      var gap := na * (y * y) + nb * (x * x) - 2.0 * dot * (x * y);
      var root := na * y - dot * x;
      SquareNotNegative(root);
      assert na * gap == root * root + (na * nb - dot * dot) * (x * x);
      SquareNotNegative(x);
      assert (na * nb - dot * dot) * (x * x) >= 0.0;
      assert na * gap >= 0.0;
      if gap < 0.0 {
        ProductPositive(na, -gap);
      }
    }
  }

  lemma OneMoreTerm(dot: real, na: real, nb: real, x: real, y: real)
    requires na >= 0.0 && nb >= 0.0 && dot * dot <= na * nb
    ensures (dot + x * y) * (dot + x * y) <= (na + x * x) * (nb + y * y)
  {
    CrossTerm(dot, na, nb, x, y);
    assert (dot + x * y) * (dot + x * y) == dot * dot + 2.0 * dot * (x * y) + (x * x) * (y * y);
    assert (na + x * x) * (nb + y * y) == na * nb + na * (y * y) + nb * (x * x) + (x * x) * (y * y);
  }

  lemma {:induction false} CauchySchwarz(a: Vector, b: Vector)
    requires |a| == |b|
    ensures Dot(a, b) * Dot(a, b) <= Dot(a, a) * Dot(b, b)
  {
    if a != [] {
      var n := |a| - 1;
      CauchySchwarz(a[..n], b[..n]);
      NormNotNegative(a[..n]);
      NormNotNegative(b[..n]);
      OneMoreTerm(Dot(a[..n], b[..n]), Dot(a[..n], a[..n]), Dot(b[..n], b[..n]), a[n], b[n]);
    }
  }

  // ---------- cosine similarity ----------

  lemma RootPositive(sqrt: real -> real, x: real)
    requires IsSqrt(sqrt) && x > 0.0
    ensures sqrt(x) > 0.0
  {
  }

  /** What similarity means: the number whose product with the two lengths is the dot product, or zero when
      a vector has no length. */
  ghost predicate IsCosine(c: real, a: Vector, b: Vector, sqrt: real -> real)
    requires |a| == |b|
  {
    if Dot(a, a) == 0.0 || Dot(b, b) == 0.0 then c == 0.0
    else c * (sqrt(Dot(a, a)) * sqrt(Dot(b, b))) == Dot(a, b)
  }

  lemma QuotientInRange(c: real, dot: real, p: real, q: real)
    requires p > 0.0 && q > 0.0 && c * (p * q) == dot && dot * dot <= (p * p) * (q * q)
    ensures -1.0 <= c <= 1.0
  {
    var m := p * q;
    assert m > 0.0;
    assert (p * p) * (q * q) == m * m;
    assert dot * dot == (c * c) * (m * m);
    if c > 1.0 {
      assert c * c > 1.0;
      Scale(1.0, c * c, m * m);
    } else if c < -1.0 {
      assert c * c > 1.0;
      Scale(1.0, c * c, m * m);
    }
  }

  lemma Scale(x: real, y: real, m: real)
    requires x < y && m > 0.0
    ensures x * m < y * m
  {
  }

  lemma CosineInRange(c: real, a: Vector, b: Vector, sqrt: real -> real)
    requires |a| == |b| && IsSqrt(sqrt) && IsCosine(c, a, b, sqrt)
    ensures -1.0 <= c <= 1.0
  {
    NormNotNegative(a);
    NormNotNegative(b);
    if Dot(a, a) != 0.0 && Dot(b, b) != 0.0 {
      RootPositive(sqrt, Dot(a, a));
      RootPositive(sqrt, Dot(b, b));
      CauchySchwarz(a, b);
      QuotientInRange(c, Dot(a, b), sqrt(Dot(a, a)), sqrt(Dot(b, b)));
    }
  }

  /** There is only one cosine. */
  lemma CosineIsUnique(c: real, d: real, a: Vector, b: Vector, sqrt: real -> real)
    requires |a| == |b| && IsSqrt(sqrt) && IsCosine(c, a, b, sqrt) && IsCosine(d, a, b, sqrt)
    ensures c == d
  {
    NormNotNegative(a);
    NormNotNegative(b);
    if Dot(a, a) != 0.0 && Dot(b, b) != 0.0 {
      RootPositive(sqrt, Dot(a, a));
      RootPositive(sqrt, Dot(b, b));
      var m := sqrt(Dot(a, a)) * sqrt(Dot(b, b));
      assert m > 0.0;
      if c < d {
        Scale(c, d, m);
      } else if d < c {
        Scale(d, c, m);
      }
    }
  }

  lemma {:induction false} DotCommutes(a: Vector, b: Vector)
    requires |a| == |b|
    ensures Dot(a, b) == Dot(b, a)
  {
    if a != [] {
      DotCommutes(a[..|a| - 1], b[..|b| - 1]);
    }
  }

  function Stretched(a: Vector, k: real): (r: Vector)
    ensures |r| == |a|
  {
    seq(|a|, i requires 0 <= i < |a| => k * a[i])
  }

  function Times(x: real, y: real): real { x * y }

  lemma TimesDistributes(k: real, d: real, x: real, y: real)
    ensures Times(k, d + x * y) == Times(k, d) + (k * x) * y
  {
  }

  lemma StretchedInit(a: Vector, k: real)
    requires a != []
    ensures Stretched(a, k)[..|a| - 1] == Stretched(a[..|a| - 1], k) && Stretched(a, k)[|a| - 1] == k * a[|a| - 1]
  {
    var n := |a| - 1;
    forall i | 0 <= i < n ensures Stretched(a, k)[i] == Stretched(a[..n], k)[i] {
      assert a[..n][i] == a[i];
    }
  }

  lemma {:induction false} DotStretches(a: Vector, b: Vector, k: real)
    requires |a| == |b|
    ensures Dot(Stretched(a, k), b) == Times(k, Dot(a, b))
  {
    if a != [] {
      var n := |a| - 1;
      DotStretches(a[..n], b[..n], k);
      StretchedInit(a, k);
      TimesDistributes(k, Dot(a[..n], b[..n]), a[n], b[n]);
    } else {
      assert Times(k, 0.0) == 0.0;
    }
  }

  /** A vector and a positive multiple of it are as similar as can be. */
  lemma MultiplesAreAlike(c: real, a: Vector, k: real, sqrt: real -> real)
    requires IsSqrt(sqrt) && k > 0.0 && Dot(a, a) != 0.0 && IsCosine(c, a, Stretched(a, k), sqrt)
    ensures c == 1.0
  {
    var b, n := Stretched(a, k), Dot(a, a);
    NormNotNegative(a);
    DotStretches(a, a, k);
    DotStretches(a, b, k);
    DotCommutes(a, b);
    var d, m := Dot(a, b), Dot(b, b);
    TimesPositive(k, n);
    TimesPositive(k, d);
    RootPositive(sqrt, n);
    RootPositive(sqrt, m);
    StretchedRoot(sqrt(n), sqrt(m), k, n, d, m);
    assert c * (sqrt(n) * sqrt(m)) == d;
    OneOnly(c, d, sqrt(n) * sqrt(m));
  }

  lemma TimesPositive(x: real, y: real)
    requires x > 0.0 && y > 0.0
    ensures Times(x, y) > 0.0
  {
  }

  lemma StretchedRoot(p: real, q: real, k: real, n: real, d: real, m: real)
    requires p > 0.0 && q > 0.0 && k > 0.0 && p * p == n && d == Times(k, n) && m == Times(k, d) && q * q == m
    ensures p * q == d
  {
    ProductPositive(k, p);
    assert (k * p) * (k * p) == k * (k * (p * p));
    RootIsUnique(q, k * p, k * (k * n));
    assert p * (k * p) == k * (p * p);
  }

  lemma OneOnly(c: real, d: real, m: real)
    requires d > 0.0 && c * m == d && m == d
    ensures c == 1.0
  {
    assert (c - 1.0) * d == 0.0 && (1.0 - c) * d == 0.0;
    if c > 1.0 {
      ProductPositive(c - 1.0, d);
    } else if c < 1.0 {
      ProductPositive(1.0 - c, d);
    }
  }

  lemma RootIsUnique(p: real, q: real, x: real)
    requires p >= 0.0 && q >= 0.0 && p * p == x && q * q == x
    ensures p == q
  {
    assert q * q - p * p == (q - p) * (q + p);
    assert p * p - q * q == (p - q) * (p + q);
    if p < q {
      ProductPositive(q - p, q + p);
    } else if q < p {
      ProductPositive(p - q, p + q);
    }
  }

  lemma OneMoreProduct(a: Vector, b: Vector, i: nat)
    requires |a| == |b| && i < |a|
    ensures Dot(a[..i + 1], b[..i + 1]) == Dot(a[..i], b[..i]) + a[i] * b[i]
  {
    assert a[..i + 1][..i] == a[..i] && b[..i + 1][..i] == b[..i];
  }

  /** `None` stands for the error on vectors of different lengths. */
  method CosineSimilarity(a: Vector, b: Vector, sqrt: real -> real) returns (r: Option<real>)
    requires IsSqrt(sqrt)
    ensures r.Some? <==> |a| == |b|
    ensures r.Some? ==> IsCosine(r.value, a, b, sqrt) && -1.0 <= r.value <= 1.0
  {
    if |a| != |b| {
      return None;
    }
    if |a| == 0 {
      return Some(0.0);
    }
    var dot, na, nb := 0.0, 0.0, 0.0;
    for i := 0 to |a|
      invariant dot == Dot(a[..i], b[..i]) && na == Dot(a[..i], a[..i]) && nb == Dot(b[..i], b[..i])
    {
      var ai, bi := a[i], b[i];
      OneMoreProduct(a, b, i);
      OneMoreProduct(a, a, i);
      OneMoreProduct(b, b, i);
      dot := dot + ai * bi;
      na := na + ai * ai;
      nb := nb + bi * bi;
    }
    assert a[..|a|] == a && b[..|b|] == b;
    if na == 0.0 || nb == 0.0 {
      return Some(0.0);
    }
    LengthsPositive(a, b, sqrt);
    var cosine := dot / (sqrt(na) * sqrt(nb));
    QuotientTimes(dot, sqrt(na) * sqrt(nb));
    CosineInRange(cosine, a, b, sqrt);
    return Some(cosine);
  }

  lemma LengthsPositive(a: Vector, b: Vector, sqrt: real -> real)
    requires IsSqrt(sqrt) && Dot(a, a) != 0.0 && Dot(b, b) != 0.0
    ensures sqrt(Dot(a, a)) * sqrt(Dot(b, b)) > 0.0
  {
    NormNotNegative(a);
    NormNotNegative(b);
    RootPositive(sqrt, Dot(a, a));
    RootPositive(sqrt, Dot(b, b));
    ProductPositive(sqrt(Dot(a, a)), sqrt(Dot(b, b)));
  }

  lemma QuotientTimes(x: real, y: real)
    requires y != 0.0
    ensures x / y * y == x
  {
  }

  // ---------- ranking ----------

  datatype Scored = Scored(index: nat, score: real)

  /** Higher scores first; a stable sort keeps equal scores in index order. */
  predicate Ahead(x: Scored, y: Scored) {
    x.score > y.score || (x.score == y.score && x.index < y.index)
  }

  predicate Ranked(items: seq<Scored>) {
    forall i, j | 0 <= i < j < |items| :: Ahead(items[i], items[j])
  }

  /** The position of every candidate occurs once. */
  predicate Positions(items: seq<Scored>, n: nat) {
    && |items| == n
    && (forall i | 0 <= i < |items| :: items[i].index < n)
    && (forall i, j | 0 <= i < j < |items| :: items[i].index != items[j].index)
  }

  /** Puts an item behind everything whose score is not lower. */
  function Insert(items: seq<Scored>, x: Scored): (r: seq<Scored>)
    requires Ranked(items) && forall i | 0 <= i < |items| :: items[i].index < x.index
    ensures Ranked(r) && |r| == |items| + 1
    ensures forall i | 0 <= i < |r| :: r[i] == x || r[i] in items
  {
    if items == [] || items[|items| - 1].score >= x.score then items + [x]
    else Insert(items[..|items| - 1], x) + [items[|items| - 1]]
  }

  lemma {:induction false} InsertedContents(items: seq<Scored>, x: Scored)
    requires Ranked(items) && forall i | 0 <= i < |items| :: items[i].index < x.index
    ensures multiset(Insert(items, x)) == multiset(items) + multiset{x}
  {
    if items != [] && items[|items| - 1].score < x.score {
      InsertedContents(items[..|items| - 1], x);
      assert items == items[..|items| - 1] + [items[|items| - 1]];
    }
  }

  function SortByScore(items: seq<Scored>): (r: seq<Scored>)
    requires forall i | 0 <= i < |items| :: items[i].index == i
    ensures Ranked(r) && multiset(r) == multiset(items)
    ensures forall i | 0 <= i < |r| :: r[i].index < |items|
  {
    if items == [] then []
    else
      assert items == items[..|items| - 1] + [items[|items| - 1]];
      InsertedContents(SortByScore(items[..|items| - 1]), items[|items| - 1]);
      Insert(SortByScore(items[..|items| - 1]), items[|items| - 1])
  }

  lemma RankedAreDistinct(items: seq<Scored>, n: nat)
    requires Ranked(items) && |items| == n && forall i | 0 <= i < n :: items[i].index < n
    requires forall x, y | x in items && y in items && x.index == y.index :: x == y
    ensures Positions(items, n)
  {
    forall i, j | 0 <= i < j < |items| ensures items[i].index != items[j].index {
      assert Ahead(items[i], items[j]);
      assert items[i] in items && items[j] in items;
    }
  }

  lemma WithoutFirst(a: seq<Scored>)
    requires a != []
    ensures multiset(a[1..]) == multiset(a) - multiset{a[0]} && a == [a[0]] + a[1..] && a[0] in multiset(a)
  {
    assert a == [a[0]] + a[1..];
  }

  lemma SameFirst(a: seq<Scored>, b: seq<Scored>)
    requires Ranked(a) && Ranked(b) && a != [] && b != [] && multiset(a) == multiset(b)
    ensures a[0] == b[0]
  {
    assert a[0] in multiset(b) && b[0] in multiset(a);
    assert a[0] in b && b[0] in a;
  }

  /** The ranking of given scores is unique. */
  lemma {:induction false} RankingIsUnique(a: seq<Scored>, b: seq<Scored>)
    requires Ranked(a) && Ranked(b) && multiset(a) == multiset(b)
    ensures a == b
    decreases |a|
  {
    assert |a| == |multiset(a)| == |multiset(b)| == |b|;
    if a != [] {
      SameFirst(a, b);
      WithoutFirst(a);
      WithoutFirst(b);
      RankingIsUnique(a[1..], b[1..]);
    }
  }

  /** Every candidate position once, scores not increasing, ties in input order; an error exactly when some
      candidate's length differs from the query's. */
  method RankByCosine(query: Vector, candidates: seq<Vector>, sqrt: real -> real) returns (r: Option<seq<Scored>>)
    requires IsSqrt(sqrt)
    ensures r.Some? <==> forall i | 0 <= i < |candidates| :: |candidates[i]| == |query|
    ensures r.Some? ==> Ranked(r.value) && Positions(r.value, |candidates|)
    ensures r.Some? ==> forall x | x in r.value ::
         x.index < |candidates| && IsCosine(x.score, query, candidates[x.index], sqrt)
  {
    var scored: seq<Scored> := [];
    for i := 0 to |candidates|
      invariant |scored| == i
      invariant forall k | 0 <= k < i :: |candidates[k]| == |query|
      invariant forall k | 0 <= k < i :: scored[k].index == k && IsCosine(scored[k].score, query, candidates[k], sqrt)
    {
      var score := CosineSimilarity(query, candidates[i], sqrt);
      if score.None? {
        return None;
      }
      scored := scored + [Scored(i, score.value)];
    }
    var ranked := SortByScore(scored);
    forall x | x in ranked ensures x in scored {
      assert x in multiset(ranked);
    }
    assert |ranked| == |multiset(ranked)| == |scored|;
    RankedAreDistinct(ranked, |candidates|);
    return Some(ranked);
  }
}
