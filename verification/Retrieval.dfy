/** Embeddings and hybrid search (apps/api/app/documents/embeddings.py and apps/api/app/documents/vector_store.py).
    Numbers are reals; the square root is a parameter whose law is asked for only where it is taken. */
module Retrieval {

  const SEMANTIC_WEIGHT: real := 0.7
  const LEXICAL_WEIGHT: real := 0.3

  type Vec = seq<real>

  function Dot(a: Vec, b: Vec): real
    requires |a| == |b|
  {
    if a == [] then 0.0 else Dot(a[..|a| - 1], b[..|b| - 1]) + a[|a| - 1] * b[|b| - 1]
  }

  predicate IsRoot(r: real, x: real) {
    r >= 0.0 && r * r == x
  }

  // ------------------------------------------------------------------- Cauchy-Schwarz

  lemma SquareIsPositive(x: real)
    ensures x * x >= 0.0
  {
  }

  lemma {:induction false} DotSquare(a: Vec)
    ensures Dot(a, a) >= 0.0
  {
    if a != [] {
      DotSquare(a[..|a| - 1]);
      SquareIsPositive(a[|a| - 1]);
    }
  }

  /** A number whose square is at most that of a non-negative one is at most that one. */
  lemma BelowBySquares(x: real, y: real)
    requires x >= 0.0 && y * y <= x * x
    ensures -x <= y <= x
  {
    if y > x {
      SquaresGrow(x, y);
    } else if -y > x {
      SquaresGrow(x, -y);
    }
  }

  lemma SquaresGrow(x: real, y: real)
    requires y > x >= 0.0
    ensures y * y > x * x
  {
    var d := y - x;
    assert y * y == x * x + d * (y + x) && d * (y + x) > 0.0;
  }

  /** The mean of two non-negative numbers is at least their geometric mean, in squares. */
  lemma SumSquare(u: real, v: real)
    ensures (u + v) * (u + v) >= 4.0 * (u * v)
  {
    SquareIsPositive(u - v);
    assert (u + v) * (u + v) - 4.0 * (u * v) == (u - v) * (u - v);
  }

  lemma Rearranged(p: real, q: real, x: real, y: real)
    ensures (p * y) * (p * y) == (p * p) * (y * y)
    ensures (p * y) * (q * x) == (p * q) * (x * y)
    ensures (x * y) * (x * y) == (x * x) * (y * y)
  {
  }

  lemma Monotone(a: real, b: real, c: real)
    requires a <= b && c >= 0.0
    ensures a * c <= b * c
  {
  }

  /** One more pair of coordinates. */
  lemma SchwarzStep(aa: real, bb: real, ab: real, x: real, y: real)
    requires aa >= 0.0 && bb >= 0.0 && ab * ab <= aa * bb
    ensures (ab + x * y) * (ab + x * y) <= (aa + x * x) * (bb + y * y)
  {
    var xx, yy, xy := x * x, y * y, x * y;
    SquareIsPositive(x);
    SquareIsPositive(y);
    SquareIsPositive(xy);
    var u, v := aa * yy, bb * xx;
    assert u >= 0.0 && v >= 0.0;
    var p, q := u + v, 2.0 * (ab * xy);
    SumSquare(u, v);
    assert u * v == (aa * bb) * (xy * xy) by {
      Regroup(aa, yy, bb, xx);
      Rearranged(1.0, 1.0, x, y);
    }
    Monotone(ab * ab, aa * bb, xy * xy);
    assert q * q == 4.0 * ((ab * ab) * (xy * xy)) by { Rearranged(ab, ab, xy, xy); Doubled(ab * xy); }
    BelowBySquares(p, q);
    Expanded(aa, xx, bb, yy);
    Binomial(ab, xy);
    assert xy * xy == xx * yy by { Rearranged(1.0, 1.0, x, y); }
  }

  lemma Regroup(a: real, b: real, c: real, d: real)
    ensures (a * b) * (c * d) == (a * c) * (d * b)
  {
  }

  lemma Doubled(z: real)
    ensures (2.0 * z) * (2.0 * z) == 4.0 * (z * z)
  {
  }

  lemma Expanded(a: real, b: real, c: real, d: real)
    ensures (a + b) * (c + d) == a * c + a * d + c * b + b * d
  {
  }

  lemma Binomial(a: real, b: real)
    ensures (a + b) * (a + b) == a * a + 2.0 * (a * b) + b * b
  {
  }

  lemma {:induction false} CauchySchwarz(a: Vec, b: Vec)
    requires |a| == |b|
    ensures Dot(a, b) * Dot(a, b) <= Dot(a, a) * Dot(b, b)
  {
    if a != [] {
      var front, back := a[..|a| - 1], b[..|b| - 1];
      CauchySchwarz(front, back);
      DotSquare(front);
      DotSquare(back);
      SchwarzStep(Dot(front, front), Dot(back, back), Dot(front, back), a[|a| - 1], b[|b| - 1]);
    }
  }

  // ------------------------------------------------------------------- cosine

  predicate Rooted(v: Vec, root: real -> real) {
    IsRoot(root(Dot(v, v)), Dot(v, v))
  }

  /** A dot product over two norms, 0 when either vector has none. */
  function Normalised(dot: real, normLeft: real, normRight: real): real
    requires normLeft >= 0.0 && normRight >= 0.0
  {
    if normLeft == 0.0 || normRight == 0.0 then 0.0
    else
      assert normLeft * normRight > 0.0;
      dot / (normLeft * normRight)
  }

  function Cosine(left: Vec, right: Vec, root: real -> real): real
    requires Rooted(left, root) && Rooted(right, root)
  {
    if left == [] || right == [] || |left| != |right| then 0.0
    else Normalised(Dot(left, right), root(Dot(left, left)), root(Dot(right, right)))
  }

  lemma QuotientBetween(x: real, n: real)
    requires n > 0.0 && -n <= x <= n
    ensures -1.0 <= x / n <= 1.0
  {
  }

  lemma NormalisedIsBounded(d: real, n: real, m: real, nn: real, mm: real)
    requires IsRoot(n, nn) && IsRoot(m, mm) && d * d <= nn * mm
    ensures -1.0 <= Normalised(d, n, m) <= 1.0
  {
    if n != 0.0 && m != 0.0 {
      Regroup(n, m, n, m);
      assert n * m > 0.0;
      BelowBySquares(n * m, d);
      QuotientBetween(d, n * m);
    }
  }

  /** Cosine similarity lies between -1 and 1, whatever the vectors. */
  lemma CosineIsBounded(left: Vec, right: Vec, root: real -> real)
    requires Rooted(left, root) && Rooted(right, root)
    ensures -1.0 <= Cosine(left, right, root) <= 1.0
  {
    if left != [] && |left| == |right| {
      CauchySchwarz(left, right);
      NormalisedIsBounded(Dot(left, right), root(Dot(left, left)), root(Dot(right, right)), Dot(left, left),
          Dot(right, right));
    }
  }

  /** A vector that is not zero is exactly as similar to itself as can be. */
  lemma CosineOfItself(v: Vec, root: real -> real)
    requires Rooted(v, root) && Dot(v, v) != 0.0
    ensures Cosine(v, v, root) == 1.0
  {
    var n := root(Dot(v, v));
    assert n * n == Dot(v, v) && n != 0.0;
    Quotient(Dot(v, v));
    assert Cosine(v, v, root) == Dot(v, v) / (n * n);
  }

  lemma Quotient(x: real)
    requires x != 0.0
    ensures x / x == 1.0
  {
  }

  // ------------------------------------------------------------------- hashed features

  /** Where a feature goes in the vector, and with which sign. */
  datatype Place = Place(index: nat, positive: bool)

  /** A word, or a pair of neighbouring words. */
  datatype Feature = Word(word: string) | Pair(first: string, second: string)

  function Pairs(tokens: seq<string>): seq<Feature> {
    if |tokens| < 2 then [] else [Pair(tokens[0], tokens[1])] + Pairs(tokens[1..])
  }

  function SingleWords(tokens: seq<string>): seq<Feature> {
    if tokens == [] then [] else [Word(tokens[0])] + SingleWords(tokens[1..])
  }

  function Features(tokens: seq<string>): seq<Feature> {
    SingleWords(tokens) + Pairs(tokens)
  }

  function Weight(feature: Feature, place: Place): real {
    (if place.positive then 1.0 else -1.0) * (if feature.Pair? then 0.5 else 1.0)
  }

  /** The signed weights of the features that go to one index. */
  function Collected(features: seq<Feature>, place: Feature -> Place, index: nat): real {
    if features == [] then 0.0
    else
      var last := features[|features| - 1];
      Collected(features[..|features| - 1], place, index)
      + if place(last).index == index then Weight(last, place(last)) else 0.0
  }

  /** How many features of one kind go to an index with one sign. */
  function Tally(features: seq<Feature>, place: Feature -> Place, index: nat, pair: bool, positive: bool): nat {
    if features == [] then 0
    else
      var last := features[|features| - 1];
      Tally(features[..|features| - 1], place, index, pair, positive)
      + if last.Pair? == pair && place(last) == Place(index, positive) then 1 else 0
  }

  /** An entry is the positive words less the negative ones, and half as much for the pairs. */
  lemma {:induction false} CollectedIsCounted(features: seq<Feature>, place: Feature -> Place, index: nat)
    ensures var words := Tally(features, place, index, false, true) - Tally(features, place, index, false, false);
            var pairs := Tally(features, place, index, true, true) - Tally(features, place, index, true, false);
            2.0 * Collected(features, place, index) == (2 * words + pairs) as real
  {
    if features != [] {
      CollectedIsCounted(features[..|features| - 1], place, index);
    }
  }

  /** The features are the words in order, and then each word with the one before it. */
  lemma FeaturesAreListed(tokens: seq<string>)
    ensures var features, n := Features(tokens), |tokens|;
            && |features| == (if n == 0 then 0 else 2 * n - 1)
            && (forall i | 0 <= i < n :: features[i] == Word(tokens[i]))
            && forall i | 1 <= i < n :: features[n + i - 1] == Pair(tokens[i - 1], tokens[i])
  {
    WordsAreListed(tokens);
    PairsAreListed(tokens);
  }

  lemma {:induction false} WordsAreListed(tokens: seq<string>)
    ensures |SingleWords(tokens)| == |tokens|
    ensures forall i | 0 <= i < |tokens| :: SingleWords(tokens)[i] == Word(tokens[i])
  {
    if tokens != [] {
      WordsAreListed(tokens[1..]);
    }
  }

  lemma {:induction false} PairsAreListed(tokens: seq<string>)
    ensures |Pairs(tokens)| == if tokens == [] then 0 else |tokens| - 1
    ensures forall i | 1 <= i < |tokens| :: Pairs(tokens)[i - 1] == Pair(tokens[i - 1], tokens[i])
  {
    if |tokens| >= 2 {
      PairsAreListed(tokens[1..]);
      forall i | 1 <= i < |tokens| ensures Pairs(tokens)[i - 1] == Pair(tokens[i - 1], tokens[i]) {
        if i > 1 {
          assert Pairs(tokens[1..])[i - 2] == Pair(tokens[1..][i - 2], tokens[1..][i - 1]);
        }
      }
    }
  }

  function Scaled(v: Vec, n: real): (r: Vec)
    requires n != 0.0
    ensures |r| == |v| && forall i | 0 <= i < |v| :: r[i] == v[i] / n
  {
    seq(|v|, i requires 0 <= i < |v| => v[i] / n)
  }

  lemma RootIsPositive(n: real, x: real)
    requires IsRoot(n, x) && n != 0.0
    ensures x > 0.0
  {
    if x <= 0.0 {
      BelowBySquares(0.0, n);
    }
  }

  lemma Shares(x: real, n: real, nn: real)
    requires n != 0.0 && nn == n * n && nn > 0.0
    ensures (x / n) * (x / n) == (x * x) / nn
  {
    var q := x / n;
    assert x == q * n;
    Rearranged(1.0, 1.0, q, n);
    QuotientOfProduct(q * q, nn);
  }

  lemma QuotientOfProduct(p: real, m: real)
    requires m != 0.0
    ensures (p * m) / m == p
  {
  }

  lemma AddQuotients(x: real, y: real, m: real)
    requires m != 0.0
    ensures x / m + y / m == (x + y) / m
  {
  }

  lemma {:induction false} DotScaled(v: Vec, n: real, nn: real)
    requires n != 0.0 && nn == n * n && nn > 0.0
    ensures Dot(Scaled(v, n), Scaled(v, n)) == Dot(v, v) / nn
  {
    if v != [] {
      var front, x := v[..|v| - 1], v[|v| - 1];
      DotScaled(front, n, nn);
      assert Scaled(v, n)[..|v| - 1] == Scaled(front, n);
      Shares(x, n, nn);
      AddQuotients(Dot(front, front), x * x, nn);
    }
  }

  /** The vector before it is scaled. */
  function Sums(features: seq<Feature>, dimensions: nat, place: Feature -> Place): (sums: Vec)
    ensures |sums| == dimensions
  {
    seq(dimensions, i requires 0 <= i < dimensions => Collected(features, place, i))
  }

  /** Adding every feature's weight to its entry. */
  method Accumulate(features: seq<Feature>, dimensions: nat, place: Feature -> Place) returns (vector: array<real>)
    requires dimensions > 0 && forall f | f in features :: place(f).index < dimensions
    ensures fresh(vector) && vector.Length == dimensions
    ensures forall i | 0 <= i < dimensions :: vector[i] == Collected(features, place, i)
  {
    vector := new real[dimensions](_ => 0.0);
    for k := 0 to |features|
      invariant forall i | 0 <= i < dimensions :: vector[i] == Collected(features[..k], place, i)
    {
      assert features[..k + 1][..k] == features[..k];
      var feature := features[k];
      var sign := if place(feature).positive then 1.0 else -1.0;
      var weight := if feature.Pair? then 0.5 else 1.0;
      vector[place(feature).index] := vector[place(feature).index] + sign * weight;
    }
    assert features[..|features|] == features;
  }

  /** A vector of length 1, or the zero vector. */
  ghost predicate UnitOf(v: Vec, raw: Vec) {
    if Dot(raw, raw) == 0.0 then v == raw
    else exists n: real :: n > 0.0 && v == Scaled(raw, n) && Dot(v, v) == 1.0
  }

  lemma ScaledIsUnit(raw: Vec, n: real)
    requires IsRoot(n, Dot(raw, raw)) && n != 0.0
    ensures UnitOf(Scaled(raw, n), raw)
  {
    RootIsPositive(n, Dot(raw, raw));
    DotScaled(raw, n, Dot(raw, raw));
    Quotient(Dot(raw, raw));
  }

  /** The vector of a text: every entry collects the features hashed to it, and the whole is scaled to length 1 unless
      nothing is left of it. */
  method Embed(tokens: seq<string>, dimensions: nat, place: Feature -> Place, root: real -> real) returns (vector: Vec)
    requires dimensions > 0 && forall f | f in Features(tokens) :: place(f).index < dimensions
    requires forall x | x >= 0.0 :: IsRoot(root(x), x)
    ensures |vector| == dimensions && UnitOf(vector, Sums(Features(tokens), dimensions, place))
  {
    var entries := Accumulate(Features(tokens), dimensions, place);
    var sums := entries[..];
    assert sums == Sums(Features(tokens), dimensions, place);
    DotSquare(sums);
    var norm := root(Dot(sums, sums));
    if norm != 0.0 {
      vector := Scaled(sums, norm);
      ScaledIsUnit(sums, norm);
    } else {
      vector := sums;
    }
  }
}
