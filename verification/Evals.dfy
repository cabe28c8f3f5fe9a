/** Retrieval and answer metrics (apps/api/app/documents/evals.py), before rounding. The rank discount `1 / log2(rank
    + 1)` is any positive, strictly decreasing function of the rank. */
module Evals {
  import opened Values
  import opened Sets

  // ------------------------------------------------------------------- relevance

  datatype Passage = Passage(document: string, page: Option<int>, text: string)

  /** The labels of a case; `None` and empty sets are labels not given. */
  datatype Labels = Labels(documents: set<string>, pages: set<int>, text: Option<string>)

  predicate HasLabel(labels: Labels) {
    labels.documents != {} || labels.pages != {} || (labels.text.Some? && labels.text.value != "")
  }

  function IsRelevant(labels: Labels, passage: Passage, holds: (string, string) -> bool): (r: bool)
    ensures r <==>
            && (labels.documents == {} || passage.document in labels.documents)
            && (labels.pages == {} || (passage.page.Some? && passage.page.value in labels.pages))
            && (labels.text.None? || labels.text.value == "" || holds(passage.text, labels.text.value))
  {
    if labels.documents != {} && passage.document !in labels.documents then false
    else if labels.pages != {} && (passage.page.None? || passage.page.value !in labels.pages) then false
    else if labels.text.Some? && labels.text.value != "" && !holds(passage.text, labels.text.value) then false
    else true
  }

  function Relevance(labels: Labels, passages: seq<Passage>, holds: (string, string) -> bool): (flags: seq<bool>)
    ensures |flags| == |passages|
    ensures forall i | 0 <= i < |passages| :: flags[i] == IsRelevant(labels, passages[i], holds)
  {
    seq(|passages|, i requires 0 <= i < |passages| => IsRelevant(labels, passages[i], holds))
  }

  function Count(flags: seq<bool>): (n: nat)
    ensures n <= |flags|
  {
    if flags == [] then 0 else Count(flags[..|flags| - 1]) + if flags[|flags| - 1] then 1 else 0
  }

  // ------------------------------------------------------------------- nDCG

  ghost predicate Discounting(discount: nat -> real) {
    && (forall rank | rank >= 1 :: discount(rank) > 0.0)
    && (forall a, b | 1 <= a < b :: discount(a) > discount(b))
  }

  /** The discounted gain of a ranked list of relevance flags. */
  function Gain(flags: seq<bool>, discount: nat -> real): real {
    if flags == [] then 0.0
    else Gain(flags[..|flags| - 1], discount) + if flags[|flags| - 1] then discount(|flags|) else 0.0
  }

  /** The gain of `n` relevant items at the first `n` ranks. */
  function Ideal(n: nat, discount: nat -> real): real {
    if n == 0 then 0.0 else Ideal(n - 1, discount) + discount(n)
  }

  ghost predicate RelevantFirst(flags: seq<bool>) {
    forall i, j | 0 <= i < j < |flags| :: flags[j] ==> flags[i]
  }

  lemma {:induction false} AllRelevant(flags: seq<bool>)
    ensures Count(flags) == |flags| <==> forall i | 0 <= i < |flags| :: flags[i]
  {
    if flags != [] {
      AllRelevant(flags[..|flags| - 1]);
    }
  }

  /** A list that ends in a relevant item has its relevant items first only if all its items are relevant. */
  lemma LastRelevant(flags: seq<bool>)
    requires flags != [] && flags[|flags| - 1]
    ensures RelevantFirst(flags) <==> Count(flags[..|flags| - 1]) == |flags| - 1
  {
    var front := flags[..|flags| - 1];
    AllRelevant(front);
    if RelevantFirst(flags) {
      assert forall i | 0 <= i < |front| :: front[i] == flags[i] && flags[i];
    }
  }

  /** No ranking gains more than the ideal one, and only those with all relevant items first gain as much. */
  lemma {:induction false} GainIsAtMostIdeal(flags: seq<bool>, discount: nat -> real)
    requires Discounting(discount)
    ensures Gain(flags, discount) <= Ideal(Count(flags), discount)
    ensures Gain(flags, discount) == Ideal(Count(flags), discount) <==> RelevantFirst(flags)
  {
    if flags != [] {
      var n := |flags|;
      var front := flags[..n - 1];
      GainIsAtMostIdeal(front, discount);
      if flags[n - 1] {
        LastRelevant(flags);
        assert Count(front) + 1 < n ==> discount(Count(front) + 1) > discount(n);
        if Count(front) == n - 1 {
          AllRelevant(front);
        }
      } else {
        assert RelevantFirst(front) ==> RelevantFirst(flags);
        assert RelevantFirst(flags) ==> RelevantFirst(front);
      }
    }
  }

  lemma {:induction false} IdealIsPositive(n: nat, discount: nat -> real)
    requires Discounting(discount)
    ensures Ideal(n, discount) >= 0.0 && (n > 0 ==> Ideal(n, discount) > 0.0)
  {
    if n > 0 {
      IdealIsPositive(n - 1, discount);
    }
  }

  lemma {:induction false} GainIsPositive(flags: seq<bool>, discount: nat -> real)
    requires Discounting(discount)
    ensures Gain(flags, discount) >= 0.0 && (Count(flags) > 0 ==> Gain(flags, discount) > 0.0)
  {
    if flags != [] {
      GainIsPositive(flags[..|flags| - 1], discount);
    }
  }

  // ------------------------------------------------------------------- all retrieval metrics

  datatype Metrics = Metrics(k: nat, hit: real, recall: real, precision: real, mrr: real, ndcg: real)

  /** The rank of the first relevant item, from 1. */
  method First(flags: seq<bool>) returns (first: Option<nat>)
    ensures IsFirst(first, flags)
  {
    for i := 0 to |flags|
      invariant forall j | 0 <= j < i :: !flags[j]
    {
      if flags[i] {
        return Some(i + 1);
      }
    }
    return None;
  }

  lemma RatioIsBounded(a: real, b: real)
    requires 0.0 <= a <= b && b > 0.0
    ensures 0.0 <= a / b <= 1.0
    ensures a / b == 1.0 <==> a == b
    ensures a / b > 0.0 <==> a > 0.0
  {
  }

  function Found(labels: Labels, passages: seq<Passage>, holds: (string, string) -> bool): set<string> {
    set i | 0 <= i < |passages| && IsRelevant(labels, passages[i], holds) :: passages[i].document
  }

  lemma FoundIsExpected(labels: Labels, passages: seq<Passage>, holds: (string, string) -> bool)
    requires labels.documents != {}
    ensures Found(labels, passages, holds) <= labels.documents
    ensures |Found(labels, passages, holds)| <= |labels.documents|
  {
    var found := Found(labels, passages, holds);
    assert labels.documents == found + (labels.documents - found);
  }

  lemma {:induction false} CountIsPositive(flags: seq<bool>)
    ensures Count(flags) > 0 <==> Relevant(flags)
  {
    if flags != [] {
      var front := flags[..|flags| - 1];
      CountIsPositive(front);
      if exists i :: 0 <= i < |flags| && flags[i] {
        var i :| 0 <= i < |flags| && flags[i];
        assert i < |front| ==> front[i];
      }
      if Count(front) > 0 {
        var i :| 0 <= i < |front| && front[i];
        assert flags[i];
      }
    }
  }

  predicate Relevant(flags: seq<bool>) {
    exists i :: 0 <= i < |flags| && flags[i]
  }

  /** A part of a whole, 0 of an empty one. */
  function Share(part: real, whole: real): real {
    if whole == 0.0 then 0.0 else part / whole
  }

  /** The share of the returned items that are relevant. */
  function Precision(flags: seq<bool>): (p: real)
    ensures 0.0 <= p <= 1.0
    ensures p > 0.0 <==> Relevant(flags)
  {
    CountIsPositive(flags);
    if flags == [] then 0.0
    else
      RatioIsBounded(Count(flags) as real, |flags| as real);
      Share(Count(flags) as real, |flags| as real)
  }

  function ReciprocalRank(first: Option<nat>): (r: real)
    requires first.Some? ==> first.value >= 1
    ensures 0.0 <= r <= 1.0 && (r > 0.0 <==> first.Some?)
    ensures first.Some? ==> (r == 1.0 <==> first.value == 1)
  {
    if first.None? then 0.0
    else
      RatioIsBounded(1.0, first.value as real);
      Share(1.0, first.value as real)
  }

  /** The discounted gain as a share of the ideal one. */
  function Ndcg(flags: seq<bool>, discount: nat -> real): (n: real)
    requires Discounting(discount)
    ensures 0.0 <= n <= 1.0
    ensures (n > 0.0 <==> Relevant(flags)) && (n == 1.0 <==> Relevant(flags) && RelevantFirst(flags))
  {
    CountIsPositive(flags);
    GainIsPositive(flags, discount);
    GainIsAtMostIdeal(flags, discount);
    IdealIsPositive(Count(flags), discount);
    if Count(flags) == 0 then 0.0
    else
      RatioIsBounded(Gain(flags, discount), Ideal(Count(flags), discount));
      Share(Gain(flags, discount), Ideal(Count(flags), discount))
  }

  /** The share of the labelled documents that were found; without labelled documents, whether anything was. */
  function Recall(labels: Labels, found: set<string>, hit: bool): (r: real)
    requires found <= labels.documents || labels.documents == {}
    ensures 0.0 <= r <= 1.0
    ensures labels.documents == {} ==> r == if hit then 1.0 else 0.0
    ensures labels.documents != {} ==> (r == 1.0 <==> found == labels.documents)
  {
    if labels.documents == {} then if hit then 1.0 else 0.0
    else
      SubsetSize(found, labels.documents);
      assert |labels.documents| > 0;
      RatioIsBounded(|found| as real, |labels.documents| as real);
      Share(|found| as real, |labels.documents| as real)
  }

  /** Every metric lies between 0 and 1. The list hits exactly when its reciprocal rank, its precision and its nDCG are
      positive, and its nDCG is 1 exactly when its relevant items come first. */
  ghost predicate Sound(m: Metrics, flags: seq<bool>) {
    && m.k == |flags|
    && (m.hit == 1.0 || m.hit == 0.0) && (m.hit == 1.0 <==> Relevant(flags))
    && 0.0 <= m.recall <= 1.0 && 0.0 <= m.precision <= 1.0 && 0.0 <= m.mrr <= 1.0 && 0.0 <= m.ndcg <= 1.0
    && (m.mrr > 0.0 <==> Relevant(flags)) && (m.precision > 0.0 <==> Relevant(flags))
        && (m.ndcg > 0.0 <==> Relevant(flags))
    && (m.mrr == 1.0 <==> flags != [] && flags[0])
    && (m.ndcg == 1.0 <==> Relevant(flags) && RelevantFirst(flags))
  }

  /** Every metric is the ratio it stands for. */
  ghost predicate Exact(m: Metrics, flags: seq<bool>, discount: nat -> real) {
    && m.precision == Share(Count(flags) as real, |flags| as real)
    && (forall i | 0 <= i < |flags| && flags[i] && (forall j | 0 <= j < i :: !flags[j]) ::
        m.mrr == Share(1.0, (i + 1) as real))
    && m.ndcg == Share(Gain(flags, discount), Ideal(Count(flags), discount))
  }

  /** The position of the first relevant item, from 1. */
  ghost predicate IsFirst(first: Option<nat>, flags: seq<bool>) {
    if first.None? then !Relevant(flags)
    else 1 <= first.value <= |flags| && flags[first.value - 1] && forall i | 0 <= i < first.value - 1 :: !flags[i]
  }

  lemma AreSound(m: Metrics, flags: seq<bool>, first: Option<nat>, recall: real, discount: nat -> real)
    requires Discounting(discount) && IsFirst(first, flags) && 0.0 <= recall <= 1.0
    requires m == Metrics(|flags|, if first.Some? then 1.0 else 0.0, recall, Precision(flags), ReciprocalRank(first),
            Ndcg(flags, discount))
    ensures Sound(m, flags)
  {
    assert first.Some? <==> Relevant(flags);
  }

  lemma AreExact(m: Metrics, flags: seq<bool>, first: Option<nat>, recall: real, discount: nat -> real)
    requires Discounting(discount) && IsFirst(first, flags)
    requires m == Metrics(|flags|, if first.Some? then 1.0 else 0.0, recall, Precision(flags), ReciprocalRank(first),
            Ndcg(flags, discount))
    ensures Exact(m, flags, discount)
  {
    forall i | 0 <= i < |flags| && flags[i] && (forall j | 0 <= j < i :: !flags[j]) ensures first == Some(i + 1) {
      assert Relevant(flags);
    }
  }

  method RetrievalMetrics(labels: Labels, passages: seq<Passage>, holds: (string, string) -> bool,
      discount: nat -> real)
      returns (m: Option<Metrics>)
    requires Discounting(discount)
    ensures m.None? <==> !HasLabel(labels)
    ensures m.Some? ==>
            Sound(m.value, Relevance(labels, passages, holds)) && Exact(m.value, Relevance(labels, passages, holds),
            discount)
    ensures m.Some? && labels.documents != {} ==>
              && m.value.recall == Share(|Found(labels, passages, holds)| as real, |labels.documents| as real)
              && (m.value.recall == 1.0 <==> Found(labels, passages, holds) == labels.documents)
    ensures m.Some? && labels.documents == {} ==> m.value.recall == m.value.hit
  {
    if !HasLabel(labels) {
      return None;
    }
    var flags := Relevance(labels, passages, holds);
    var first := First(flags);
    var found := Found(labels, passages, holds);
    if labels.documents != {} {
      FoundIsExpected(labels, passages, holds);
    }
    var recall := Recall(labels, found, first.Some?);
    var all := Metrics(|flags|, if first.Some? then 1.0 else 0.0, recall, Precision(flags), ReciprocalRank(first),
        Ndcg(flags, discount));
    AreSound(all, flags, first, recall, discount);
    AreExact(all, flags, first, recall, discount);
    return Some(all);
  }

  // ------------------------------------------------------------------- answer correctness

  /** The harmonic mean of precision `o / p` and recall `o / e`. */
  function HarmonicMean(o: real, p: real, e: real): real
    requires o > 0.0 && p > 0.0 && e > 0.0
  {
    var precision, recall := o / p, o / e;
    assert precision > 0.0 && recall > 0.0;
    2.0 * precision * recall / (precision + recall)
  }

  /** Precision and recall of the words shared, counted with repetition. */
  function TokenF1(predicted: multiset<string>, expected: multiset<string>): real {
    var overlap := |predicted * expected|;
    if overlap == 0 then 0.0
    else
      OverlapIsSmaller(predicted, expected);
      HarmonicMean(overlap as real, |predicted| as real, |expected| as real)
  }

  lemma OverlapIsSmaller(a: multiset<string>, b: multiset<string>)
    ensures |a * b| <= |a| && |a * b| <= |b|
    ensures |a * b| == |a| == |b| <==> a == b
  {
    assert a == a * b + (a - b);
    assert b == a * b + (b - a);
    if |a * b| == |a| == |b| {
      assert |a - b| == 0 && |b - a| == 0;
      assert a - b == multiset{} && b - a == multiset{};
    }
    if a == b {
      assert a * b == a;
    }
  }

  /** Twice the overlap over both sizes: the closed form of the harmonic mean. */
  lemma ClosedForm(o: real, p: real, e: real)
    requires o > 0.0 && p > 0.0 && e > 0.0
    ensures HarmonicMean(o, p, e) == 2.0 * o / (p + e)
  {
    var x, y := o / p, o / e;
    assert x * p == o && y * e == o;
    assert x > 0.0 && y > 0.0;
    var s := x + y;
    assert 2.0 * x * y * (p + e) == 2.0 * o * s by {
      assert x * y * p == o * y && x * y * e == o * x;
    }
    CrossMultiply(2.0 * x * y, s, 2.0 * o, p + e);
  }

  lemma CrossMultiply(a: real, b: real, c: real, d: real)
    requires b != 0.0 && d != 0.0 && a * d == c * b
    ensures a / b == c / d
  {
    assert a == a / b * b && c == c / d * d;
  }

  /** Token F1 lies between 0 and 1: it is 0 exactly when no word is shared and 1 exactly when both answers have the
      same words, equally often; and it does not matter which answer is which. */
  lemma TokenF1Meaning(predicted: multiset<string>, expected: multiset<string>)
    ensures 0.0 <= TokenF1(predicted, expected) <= 1.0
    ensures TokenF1(predicted, expected) == 0.0 <==> predicted * expected == multiset{}
    ensures TokenF1(predicted, expected) == 1.0 <==> predicted == expected && predicted != multiset{}
    ensures TokenF1(predicted, expected) == TokenF1(expected, predicted)
    ensures TokenF1(predicted, expected) * (|predicted| + |expected|) as real == 2.0 * |predicted * expected| as real
  {
    var both := predicted * expected;
    assert both == expected * predicted;
    OverlapIsSmaller(predicted, expected);
    assert |both| == 0 <==> both == multiset{};
    if |both| > 0 {
      var o, p, e := |both| as real, |predicted| as real, |expected| as real;
      ClosedForm(o, p, e);
      ClosedForm(o, e, p);
      RatioIsBounded(2.0 * o, p + e);
    }
  }
}
