/** The aggregation engine (`Aggregator` in src/aggregation/aggregator.py):
    N per-image analyses become one product measurement. Each dimension's
    score is the confidence-weighted mean of the images' scores (0 when the
    confidences sum to 0) and its confidence the plain mean; each categorical
    or boolean field is decided by a vote whose ties go to the value seen
    first; the colours of all images are deduplicated; the quality flags are
    derived from the fused record. An empty input gives the failed sentinel. */
module Aggregator {
  import opened Wrappers
  import opened Schema
  import opened ResponseParser
  import Enums
  import Colors
  import opened RealArith

  // ---------------------------------------------------------------------
  // The vote helpers: `votes = defaultdict(float)` incremented once per image,
  // then `max(votes.items(), key=count)`, which keeps the first maximal entry
  // of the dictionary's insertion order.

  /** How many times `v` occurs in `values`. */
  function Count<T(==,!new)>(values: seq<T>, v: T): (n: nat)
    ensures n <= |values|
    ensures n > 0 <==> v in values
  {
    if values == [] then 0
    else Count(values[..|values| - 1], v) + (if values[|values| - 1] == v then 1 else 0)
  }

  /** The distinct values in order of first appearance: the key order of the `votes` dictionary. */
  function FirstSeen<T(==,!new)>(values: seq<T>): (keys: seq<T>)
    ensures forall v :: v in keys <==> v in values
  {
    if values == [] then []
    else
      var keys := FirstSeen(values[..|values| - 1]);
      var last := values[|values| - 1];
      assert forall v :: v in values <==> v in values[..|values| - 1] || v == last;
      if last in keys then keys else keys + [last]
  }

  /** `max` over the keys with the vote count as key: a later key replaces the
      current best only with strictly more votes. */
  function FirstMax<T(==,!new)>(keys: seq<T>, values: seq<T>): (w: T)
    requires keys != []
    ensures w in keys
  {
    if |keys| == 1 then keys[0]
    else
      var best := FirstMax(keys[..|keys| - 1], values);
      if Count(values, keys[|keys| - 1]) > Count(values, best) then keys[|keys| - 1] else best
  }

  /** The winner of a vote over `values`, or `default` when nobody voted. */
  function Majority<T(==,!new)>(values: seq<T>, default: T): T {
    if values == [] then default else FirstMax(FirstSeen(values), values)
  }

  /** `w` has the most votes, and every value met before `w`'s first
      occurrence has strictly fewer: the most frequent value, ties going to
      the one seen first. */
  ghost predicate FirstMostFrequent<T(!new)>(values: seq<T>, w: T) {
    && (forall v :: Count(values, v) <= Count(values, w))
    && exists i :: (0 <= i < |values| && values[i] == w
         && forall j :: 0 <= j < i ==> Count(values, values[j]) < Count(values, w))
  }

  /** Every key of `FirstSeen` has a first occurrence before which only earlier keys occur. */
  lemma {:induction false} FirstSeenOrder<T(!new)>(values: seq<T>, p: nat)
    requires p < |FirstSeen(values)|
    ensures exists i :: (0 <= i < |values| && values[i] == FirstSeen(values)[p]
      && forall j :: 0 <= j < i ==> values[j] in FirstSeen(values)[..p])
  {
    var init := values[..|values| - 1];
    var keys := FirstSeen(init);
    var last := values[|values| - 1];
    if p < |keys| {
      FirstSeenOrder(init, p);
      var i :| 0 <= i < |init| && init[i] == keys[p] && forall j :: 0 <= j < i ==> init[j] in keys[..p];
      assert FirstSeen(values)[..p] == keys[..p];
      assert values[i] == FirstSeen(values)[p];
      assert forall j :: 0 <= j < i ==> values[j] == init[j];
    } else {
      assert FirstSeen(values) == keys + [last] && p == |keys|;
      assert FirstSeen(values)[..p] == keys;
      assert forall j :: 0 <= j < |values| - 1 ==> values[j] == init[j] && init[j] in keys;
    }
  }

  /** `FirstMax` has the most votes among the keys, and every key before it strictly fewer. */
  lemma {:induction false} FirstMaxIsFirstBest<T(!new)>(keys: seq<T>, values: seq<T>)
    requires keys != []
    ensures forall k :: k in keys ==> Count(values, k) <= Count(values, FirstMax(keys, values))
    ensures exists p :: (0 <= p < |keys| && keys[p] == FirstMax(keys, values)
      && forall q :: 0 <= q < p ==> Count(values, keys[q]) < Count(values, FirstMax(keys, values)))
  {
    var w := FirstMax(keys, values);
    if |keys| == 1 {
      assert keys[0] == w;
    } else {
      var init := keys[..|keys| - 1];
      var last := keys[|keys| - 1];
      var best := FirstMax(init, values);
      FirstMaxIsFirstBest(init, values);
      var p :| 0 <= p < |init| && init[p] == best && forall q :: 0 <= q < p ==> Count(values, init[q]) < Count(values, best);
      assert forall k :: k in keys <==> k in init || k == last;
      if Count(values, last) > Count(values, best) {
        assert keys[|keys| - 1] == w;
        forall q | 0 <= q < |keys| - 1 ensures Count(values, keys[q]) < Count(values, w) {
          assert keys[q] == init[q] && init[q] in init;
        }
      } else {
        assert keys[p] == w;
        assert forall q :: 0 <= q < p ==> keys[q] == init[q];
      }
    }
  }

  /** The vote winner is the most frequent value, ties going to the one seen first. */
  lemma MajorityIsFirstMostFrequent<T(!new)>(values: seq<T>, default: T)
    requires values != []
    ensures FirstMostFrequent(values, Majority(values, default))
  {
    MajorityHasMostVotes(values, default);
    var i := MajorityFirstOccurrence(values, default);
  }

  lemma MajorityHasMostVotes<T(!new)>(values: seq<T>, default: T)
    requires values != []
    ensures forall v :: Count(values, v) <= Count(values, Majority(values, default))
  {
    var keys := FirstSeen(values);
    var w := Majority(values, default);
    FirstMaxIsFirstBest(keys, values);
    forall v ensures Count(values, v) <= Count(values, w) {
      if v in values { assert v in keys; }
    }
  }

  /** The winner's first occurrence, before which every value has strictly fewer votes. */
  lemma MajorityFirstOccurrence<T(!new)>(values: seq<T>, default: T) returns (i: nat)
    requires values != []
    ensures i < |values| && values[i] == Majority(values, default)
    ensures forall j :: 0 <= j < i ==> Count(values, values[j]) < Count(values, Majority(values, default))
  {
    var keys := FirstSeen(values);
    var w := Majority(values, default);
    FirstMaxIsFirstBest(keys, values);
    var p :| 0 <= p < |keys| && keys[p] == w && forall q :: 0 <= q < p ==> Count(values, keys[q]) < Count(values, w);
    FirstSeenOrder(values, p);
    i :| 0 <= i < |values| && values[i] == keys[p] && forall j :: 0 <= j < i ==> values[j] in keys[..p];
    forall j | 0 <= j < i ensures Count(values, values[j]) < Count(values, w) {
      assert values[j] in keys[..p];
      var q :| 0 <= q < p && keys[..p][q] == values[j];
      assert keys[q] == values[j];
    }
  }

  /** At most one value is the most frequent one seen first, so the property above fixes the winner. */
  lemma FirstMostFrequentUnique<T(!new)>(values: seq<T>, a: T, b: T)
    requires FirstMostFrequent(values, a) && FirstMostFrequent(values, b)
    ensures a == b
  {
    var i :| 0 <= i < |values| && values[i] == a && forall j :: 0 <= j < i ==> Count(values, values[j]) < Count(values, a);
    var k :| 0 <= k < |values| && values[k] == b && forall j :: 0 <= j < k ==> Count(values, values[j]) < Count(values, b);
    assert Count(values, a) == Count(values, b);
    assert i < k ==> Count(values, a) < Count(values, b);
    assert k < i ==> Count(values, b) < Count(values, a);
  }

  /** A single vote wins. */
  lemma MajorityOfOne<T(!new)>(v: T, default: T)
    ensures Majority([v], default) == v
  {
    assert [v][..0] == [];
  }

  /** Taking one more value adds one vote for it and makes it known. */
  lemma CountOneMore<T(!new)>(values: seq<T>, i: nat)
    requires i < |values|
    ensures forall u :: u in values[..i + 1] <==> u in values[..i] || u == values[i]
    ensures forall u :: Count(values[..i + 1], u) == Count(values[..i], u) + if values[i] == u then 1 else 0
    ensures FirstSeen(values[..i + 1]) ==
      if values[i] in FirstSeen(values[..i]) then FirstSeen(values[..i]) else FirstSeen(values[..i]) + [values[i]]
  {
    assert values[..i + 1][..i] == values[..i];
  }

  /** The counting loop of a vote helper: the `votes` dictionary and its key order. */
  method CountVotes<T(==,!new)>(values: seq<T>) returns (votes: map<T, nat>, order: seq<T>)
    ensures order == FirstSeen(values)
    ensures forall v :: v in votes <==> v in values
    ensures forall v :: v in votes ==> votes[v] == Count(values, v)
  {
    votes, order := map[], [];
    var i := 0;
    while i < |values|
      invariant 0 <= i <= |values|
      invariant order == FirstSeen(values[..i])
      invariant forall v :: v in votes <==> v in values[..i]
      invariant forall v :: v in votes ==> votes[v] == Count(values[..i], v)
    {
      var v := values[i];
      CountOneMore(values, i);
      if v in votes {
        votes := votes[v := votes[v] + 1];
      } else {
        votes := votes[v := 1];
        order := order + [v];
      }
      i := i + 1;
    }
    assert values[..i] == values;
  }

  /** One vote helper: count the votes in a dictionary that remembers
      insertion order, then keep the first entry with the most votes. */
  method Tally<T(==,!new)>(values: seq<T>, default: T) returns (winner: T)
    ensures winner == Majority(values, default)
  {
    var votes, order := CountVotes(values);
    assert values != [] ==> values[0] in votes;
    if votes == map[] {
      return default;
    }
    winner := order[0];
    assert order[..1] == [order[0]];
    var j := 1;
    while j < |order|
      invariant 1 <= j <= |order|
      invariant winner == FirstMax(order[..j], values)
      invariant winner in votes
    {
      assert order[..j + 1][..j] == order[..j];
      assert order[j] in order;
      if votes[order[j]] > votes[winner] {
        winner := order[j];
      }
      j := j + 1;
    }
    assert order[..j] == order;
  }

  // ---------------------------------------------------------------------
  // _aggregate_visual_dimensions

  /** What the parser guarantees of every analysis handed to the aggregator. */
  predicate AnalysesValid(results: seq<ParsedImageAnalysis>) {
    forall i :: 0 <= i < |results| ==> results[i].Valid()
  }

  /** Python's `sum` over a list of floats, without rounding. */
  function Sum(xs: seq<real>): real {
    if xs == [] then 0.0 else Sum(xs[..|xs| - 1]) + xs[|xs| - 1]
  }

  /** `sum(s * c for s, c in zip(scores, confidences))`. */
  function SumProducts(ss: seq<real>, cs: seq<real>): real
    requires |ss| == |cs|
  {
    if ss == [] then 0.0 else SumProducts(ss[..|ss| - 1], cs[..|cs| - 1]) + Product(ss[|ss| - 1], cs[|cs| - 1])
  }

  /** `statistics.mean`. */
  function Mean(xs: seq<real>): real
    requires xs != []
  {
    Sum(xs) / (|xs| as real)
  }

  /** The confidence-weighted score, 0 when the confidences sum to 0. */
  function WeightedScore(ss: seq<real>, cs: seq<real>): real
    requires |ss| == |cs|
  {
    var total := Sum(cs);
    if total > 0.0 then SumProducts(ss, cs) / total else 0.0
  }

  function MaxOf(xs: seq<real>): (m: real)
    requires xs != []
    ensures m in xs
    ensures forall i :: 0 <= i < |xs| ==> xs[i] <= m
  {
    if |xs| == 1 then xs[0]
    else
      var m := MaxOf(xs[..|xs| - 1]);
      assert forall i :: 0 <= i < |xs| - 1 ==> xs[..|xs| - 1][i] == xs[i];
      if xs[|xs| - 1] > m then xs[|xs| - 1] else m
  }

  function MinOf(xs: seq<real>): (m: real)
    requires xs != []
    ensures m in xs
    ensures forall i :: 0 <= i < |xs| ==> m <= xs[i]
  {
    if |xs| == 1 then xs[0]
    else
      var m := MinOf(xs[..|xs| - 1]);
      assert forall i :: 0 <= i < |xs| - 1 ==> xs[..|xs| - 1][i] == xs[i];
      if xs[|xs| - 1] < m then xs[|xs| - 1] else m
  }

  /** The scores of one dimension, image by image. */
  function ScoresOf(results: seq<ParsedImageAnalysis>, d: Dimension): (ss: seq<real>)
    ensures |ss| == |results|
  {
    seq(|results|, i requires 0 <= i < |results| => results[i].visualDimensions.Get(d).score)
  }

  /** The confidences of one dimension, image by image. */
  function ConfidencesOf(results: seq<ParsedImageAnalysis>, d: Dimension): (cs: seq<real>)
    ensures |cs| == |results|
  {
    seq(|results|, i requires 0 <= i < |results| => results[i].visualDimensions.Get(d).confidence)
  }

  /** `VisualDimension(score=weighted_score, confidence=avg_confidence)` for one dimension. */
  function FusedDimension(results: seq<ParsedImageAnalysis>, d: Dimension): VisualDimension
    requires results != []
  {
    var ss := ScoresOf(results, d);
    var cs := ConfidencesOf(results, d);
    VisualDimension(ClampScore(WeightedScore(ss, cs)), Mean(cs))
  }

  lemma {:induction false} SumBetween(xs: seq<real>, lo: real, hi: real)
    requires forall i :: 0 <= i < |xs| ==> lo <= xs[i] <= hi
    ensures Product(lo, |xs| as real) <= Sum(xs) <= Product(hi, |xs| as real)
  {
    if xs == [] {
      ProductWithZero(lo, 0.0);
      ProductWithZero(hi, 0.0);
    } else {
      var init := xs[..|xs| - 1];
      assert forall i :: 0 <= i < |init| ==> init[i] == xs[i];
      SumBetween(init, lo, hi);
      ProductSubtracts(lo, |xs| as real, |init| as real);
      ProductSubtracts(hi, |xs| as real, |init| as real);
      ProductByOne(lo);
      ProductByOne(hi);
    }
  }

  /** A mean lies between any bounds of its terms. */
  lemma MeanBetween(xs: seq<real>, lo: real, hi: real)
    requires xs != []
    requires forall i :: 0 <= i < |xs| ==> lo <= xs[i] <= hi
    ensures lo <= Mean(xs) <= hi
  {
    SumBetween(xs, lo, hi);
    DivBetween(Sum(xs), |xs| as real, lo, hi);
  }

  lemma DivBetween(p: real, t: real, lo: real, hi: real)
    requires t > 0.0 && Product(lo, t) <= p <= Product(hi, t)
    ensures lo <= p / t <= hi
  {
    QuotientTimes(p, t);
    ProductCancels(lo, p / t, t);
    ProductCancels(p / t, hi, t);
  }

  lemma {:induction false} SumProductsBetween(ss: seq<real>, cs: seq<real>, lo: real, hi: real)
    requires |ss| == |cs|
    requires forall i :: 0 <= i < |ss| ==> lo <= ss[i] <= hi && 0.0 <= cs[i]
    ensures Product(lo, Sum(cs)) <= SumProducts(ss, cs) <= Product(hi, Sum(cs))
  {
    if ss == [] {
      ProductWithZero(lo, 0.0);
      ProductWithZero(hi, 0.0);
    } else {
      var n := |ss| - 1;
      assert forall i :: 0 <= i < n ==> ss[..n][i] == ss[i] && cs[..n][i] == cs[i];
      SumProductsBetween(ss[..n], cs[..n], lo, hi);
      ProductMonotone(lo, ss[n], cs[n]);
      ProductMonotone(ss[n], hi, cs[n]);
      ProductSubtracts(lo, Sum(cs), Sum(cs[..n]));
      ProductSubtracts(hi, Sum(cs), Sum(cs[..n]));
    }
  }

  /** With non-negative confidences, the weighted score lies between the
      smallest and the largest score, and is 0 when the confidences sum to 0. */
  lemma WeightedScoreBetween(ss: seq<real>, cs: seq<real>)
    requires |ss| == |cs| && ss != []
    requires forall i :: 0 <= i < |cs| ==> 0.0 <= cs[i]
    ensures Sum(cs) >= 0.0
    ensures Sum(cs) > 0.0 ==> MinOf(ss) <= WeightedScore(ss, cs) <= MaxOf(ss)
    ensures Sum(cs) == 0.0 ==> WeightedScore(ss, cs) == 0.0
  {
    SumNonNegative(cs);
    WeightedScoreWithin(ss, cs, MinOf(ss), MaxOf(ss));
  }

  lemma WeightedScoreWithin(ss: seq<real>, cs: seq<real>, lo: real, hi: real)
    requires |ss| == |cs|
    requires forall i :: 0 <= i < |ss| ==> lo <= ss[i] <= hi && 0.0 <= cs[i]
    ensures Sum(cs) > 0.0 ==> lo <= WeightedScore(ss, cs) <= hi
  {
    var p, t := SumProducts(ss, cs), Sum(cs);
    SumProductsBetween(ss, cs, lo, hi);
    if t > 0.0 {
      DivBetween(p, t, lo, hi);
    }
  }

  lemma {:induction false} SumNonNegative(xs: seq<real>)
    requires forall i :: 0 <= i < |xs| ==> 0.0 <= xs[i]
    ensures Sum(xs) >= 0.0
  {
    if xs != [] {
      var init := xs[..|xs| - 1];
      assert forall i :: 0 <= i < |init| ==> init[i] == xs[i];
      SumNonNegative(init);
    }
  }

  /** The fused score lies between the images' smallest and largest score,
      0 when every confidence is 0; clamping leaves it as it is. */
  lemma FusedScoreBounds(results: seq<ParsedImageAnalysis>, d: Dimension)
    requires results != [] && AnalysesValid(results)
    ensures var ss, cs := ScoresOf(results, d), ConfidencesOf(results, d);
      && FusedDimension(results, d).score == WeightedScore(ss, cs)
      && (Sum(cs) > 0.0 ==> MinOf(ss) <= FusedDimension(results, d).score <= MaxOf(ss))
      && (Sum(cs) == 0.0 ==> FusedDimension(results, d).score == 0.0)
  {
    var ss, cs := ScoresOf(results, d), ConfidencesOf(results, d);
    assert forall i :: 0 <= i < |results| ==> results[i].visualDimensions.Get(d).Valid();
    assert forall i :: 0 <= i < |cs| ==> 0.0 <= cs[i];
    WeightedScoreBetween(ss, cs);
    assert -5.0 <= MinOf(ss) && MaxOf(ss) <= 5.0;
  }

  /** The fused confidence lies between the images' smallest and largest confidence. */
  lemma FusedConfidenceBounds(results: seq<ParsedImageAnalysis>, d: Dimension)
    requires results != [] && AnalysesValid(results)
    ensures var cs := ConfidencesOf(results, d);
      MinOf(cs) <= FusedDimension(results, d).confidence <= MaxOf(cs)
  {
    var cs := ConfidencesOf(results, d);
    MeanBetween(cs, MinOf(cs), MaxOf(cs));
  }

  /** Each fused dimension is what pydantic builds from the weighted score
      and the mean confidence, never a validation error, and it is valid. */
  lemma FusedDimensionValidated(results: seq<ParsedImageAnalysis>, d: Dimension)
    requires results != [] && AnalysesValid(results)
    ensures var ss, cs := ScoresOf(results, d), ConfidencesOf(results, d);
      MakeVisualDimension(WeightedScore(ss, cs), Mean(cs)) == Some(FusedDimension(results, d))
    ensures FusedDimension(results, d).Valid()
  {
    var cs := ConfidencesOf(results, d);
    assert forall i :: 0 <= i < |results| ==> results[i].visualDimensions.Get(d).Valid();
    assert forall i :: 0 <= i < |cs| ==> 0.0 <= cs[i] <= 1.0;
    MeanBetween(cs, 0.0, 1.0);
  }

  /** One image with a positive confidence comes back unchanged. */
  lemma SingleImageUnchanged(r: ParsedImageAnalysis, d: Dimension)
    requires r.Valid() && r.visualDimensions.Get(d).confidence > 0.0
    ensures FusedDimension([r], d) == r.visualDimensions.Get(d)
  {
    var s, c := r.visualDimensions.Get(d).score, r.visualDimensions.Get(d).confidence;
    var ss, cs := ScoresOf([r], d), ConfidencesOf([r], d);
    assert ss == [s] && cs == [c];
    assert ss[..0] == [] && cs[..0] == [];
    assert Sum(cs) == c;
    assert SumProducts(ss, cs) == Product(s, c);
    QuotientTimes(s, c);
  }

  lemma FusedAreValid(results: seq<ParsedImageAnalysis>)
    requires results != [] && AnalysesValid(results)
    ensures forall d: Dimension :: FusedDimension(results, d).Valid()
  {
    forall d: Dimension ensures FusedDimension(results, d).Valid() {
      FusedDimensionValidated(results, d);
    }
  }

  /** `_aggregate_visual_dimensions`: every dimension fused. */
  function FusedDimensions(results: seq<ParsedImageAnalysis>): (vd: VisualDimensions)
    requires results != [] && AnalysesValid(results)
    ensures vd.Valid()
    ensures forall d: Dimension :: vd.Get(d) == FusedDimension(results, d)
  {
    FusedAreValid(results);
    VisualDimensions(
      FusedDimension(results, GenderExpression), FusedDimension(results, VisualWeight),
      FusedDimension(results, Embellishment), FusedDimension(results, Unconventionality),
      FusedDimension(results, Formality))
  }

  /** The loop of `_aggregate_visual_dimensions`: per dimension, collect the
      scores and confidences image by image, then fuse them into the
      `aggregated` dictionary. */
  method AggregateVisualDimensions(results: seq<ParsedImageAnalysis>) returns (vd: VisualDimensions)
    requires results != [] && AnalysesValid(results)
    ensures vd == FusedDimensions(results)
  {
    var aggregated: map<Dimension, VisualDimension> := map[];
    var k := 0;
    while k < |AllDimensions|
      invariant 0 <= k <= |AllDimensions|
      invariant forall d :: d in aggregated <==> d in AllDimensions[..k]
      invariant forall d :: d in aggregated ==> aggregated[d] == FusedDimension(results, d)
    {
      var d := AllDimensions[k];
      var scores: seq<real> := [];
      var confidences: seq<real> := [];
      var i := 0;
      while i < |results|
        invariant 0 <= i <= |results|
        invariant |scores| == i && |confidences| == i
        invariant forall j :: 0 <= j < i ==> scores[j] == results[j].visualDimensions.Get(d).score
        invariant forall j :: 0 <= j < i ==> confidences[j] == results[j].visualDimensions.Get(d).confidence
      {
        var dim := results[i].visualDimensions.Get(d);
        scores := scores + [dim.score];
        confidences := confidences + [dim.confidence];
        i := i + 1;
      }
      assert scores == ScoresOf(results, d);
      assert confidences == ConfidencesOf(results, d);
      var totalConfidence := Sum(confidences);
      var weightedScore := if totalConfidence > 0.0 then SumProducts(scores, confidences) / totalConfidence else 0.0;
      var avgConfidence := Mean(confidences);
      assert AllDimensions[..k + 1] == AllDimensions[..k] + [d];
      aggregated := aggregated[d := VisualDimension(ClampScore(weightedScore), avgConfidence)];
      k := k + 1;
    }
    assert AllDimensions[..k] == AllDimensions;
    forall d: Dimension ensures d in aggregated { AllDimensionsListed(d); }
    vd := VisualDimensions(
      aggregated[GenderExpression], aggregated[VisualWeight], aggregated[Embellishment],
      aggregated[Unconventionality], aggregated[Formality]);
  }

  // ---------------------------------------------------------------------
  // aggregate_confidence and _calculate_quality_flags

  /** `all_confidences`: the five fused confidences in the source's order. */
  function FusedConfidences(vd: VisualDimensions): (cs: seq<real>)
    ensures |cs| == 5
  {
    [vd.genderExpression.confidence, vd.visualWeight.confidence, vd.embellishment.confidence,
     vd.unconventionality.confidence, vd.formality.confidence]
  }

  /** `statistics.mean(all_confidences)`. */
  function AggregateConfidence(vd: VisualDimensions): real {
    Mean(FusedConfidences(vd))
  }

  /** The aggregate confidence lies between the smallest and the largest
      fused confidence, so a valid record gives a value in [0, 1]. */
  lemma AggregateConfidenceInRange(vd: VisualDimensions)
    ensures MinOf(FusedConfidences(vd)) <= AggregateConfidence(vd) <= MaxOf(FusedConfidences(vd))
    ensures vd.Valid() ==> 0.0 <= AggregateConfidence(vd) <= 1.0
  {
    var cs := FusedConfidences(vd);
    MeanBetween(cs, MinOf(cs), MaxOf(cs));
    if vd.Valid() {
      assert vd.Get(GenderExpression).Valid() && vd.Get(VisualWeight).Valid() && vd.Get(Embellishment).Valid();
      assert vd.Get(Unconventionality).Valid() && vd.Get(Formality).Valid();
      MeanBetween(cs, 0.0, 1.0);
    }
  }

  /** `max(scores) - min(scores) > 2.0`. */
  predicate SpreadExceeds(ss: seq<real>)
    requires ss != []
  {
    MaxOf(ss) - MinOf(ss) > 2.0
  }

  /** The loop over the dimension names that stops at the first whose spread exceeds 2. */
  predicate AnySpreadExceeds(results: seq<ParsedImageAnalysis>, ds: seq<Dimension>)
    requires results != []
  {
    ds != [] && (SpreadExceeds(ScoresOf(results, ds[0])) || AnySpreadExceeds(results, ds[1..]))
  }

  /** `_calculate_quality_flags`. The fused record is a parameter there too,
      but only the per-image scores are consulted. */
  function QualityFlagsOf(results: seq<ParsedImageAnalysis>, aggregateConfidence: real, vd: VisualDimensions): QualityFlags {
    QualityFlags(
      aggregateConfidence < 0.5,
      |results| > 1 && AnySpreadExceeds(results, AllDimensions),
      |results| == 1,
      false)
  }

  /** A spread above 2 means two scores more than 2 apart. */
  lemma SpreadIff(ss: seq<real>)
    requires ss != []
    ensures SpreadExceeds(ss) <==> exists i, j :: 0 <= i < |ss| && 0 <= j < |ss| && ss[i] - ss[j] > 2.0
  {
    if SpreadExceeds(ss) {
      var i :| 0 <= i < |ss| && ss[i] == MaxOf(ss);
      var j :| 0 <= j < |ss| && ss[j] == MinOf(ss);
      assert ss[i] - ss[j] > 2.0;
    }
  }

  lemma {:induction false} AnySpreadIff(results: seq<ParsedImageAnalysis>, ds: seq<Dimension>)
    requires results != []
    ensures AnySpreadExceeds(results, ds) <==> exists k :: 0 <= k < |ds| && SpreadExceeds(ScoresOf(results, ds[k]))
  {
    if ds != [] {
      AnySpreadIff(results, ds[1..]);
      assert forall k :: 0 <= k < |ds| - 1 ==> ds[1..][k] == ds[k + 1];
      if exists k :: 0 <= k < |ds| && SpreadExceeds(ScoresOf(results, ds[k])) {
        var k :| 0 <= k < |ds| && SpreadExceeds(ScoresOf(results, ds[k]));
        if k > 0 { assert ds[1..][k - 1] == ds[k]; }
      }
    }
  }

  /** Two images' scores on one dimension more than 2 apart. */
  ghost predicate ScoresFarApart(results: seq<ParsedImageAnalysis>, d: Dimension) {
    exists i, j :: 0 <= i < |results| && 0 <= j < |results|
      && results[i].visualDimensions.Get(d).score - results[j].visualDimensions.Get(d).score > 2.0
  }

  lemma SpreadOfDimension(results: seq<ParsedImageAnalysis>, d: Dimension)
    requires results != []
    ensures SpreadExceeds(ScoresOf(results, d)) <==> ScoresFarApart(results, d)
  {
    var ss := ScoresOf(results, d);
    SpreadIff(ss);
    if ScoresFarApart(results, d) {
      var i, j :| 0 <= i < |results| && 0 <= j < |results|
        && results[i].visualDimensions.Get(d).score - results[j].visualDimensions.Get(d).score > 2.0;
      assert ss[i] - ss[j] > 2.0;
    }
  }

  /** The flags: low confidence iff the aggregate is below 0.5; high variance
      iff there are several images and on some single dimension two of them
      score more than 2 apart; single image iff exactly one; never partial. */
  lemma QualityFlagsMeaning(results: seq<ParsedImageAnalysis>, aggregateConfidence: real, vd: VisualDimensions)
    ensures QualityFlagsOf(results, aggregateConfidence, vd).lowConfidence <==> aggregateConfidence < 0.5
    ensures QualityFlagsOf(results, aggregateConfidence, vd).highVariance <==>
      |results| > 1 && exists d: Dimension :: ScoresFarApart(results, d)
    ensures QualityFlagsOf(results, aggregateConfidence, vd).singleImageOnly <==> |results| == 1
    ensures !QualityFlagsOf(results, aggregateConfidence, vd).partialAnalysis
  {
    if |results| > 1 {
      HighVarianceIff(results);
    }
  }

  lemma HighVarianceIff(results: seq<ParsedImageAnalysis>)
    requires results != []
    ensures AnySpreadExceeds(results, AllDimensions) <==> exists d: Dimension :: ScoresFarApart(results, d)
  {
    if AnySpreadExceeds(results, AllDimensions) {
      HighVarianceNamesDimension(results);
    }
    if exists d: Dimension :: ScoresFarApart(results, d) {
      var d: Dimension :| ScoresFarApart(results, d);
      FarApartIsHighVariance(results, d);
    }
  }

  lemma HighVarianceNamesDimension(results: seq<ParsedImageAnalysis>)
    requires results != [] && AnySpreadExceeds(results, AllDimensions)
    ensures exists d: Dimension :: ScoresFarApart(results, d)
  {
    AnySpreadIff(results, AllDimensions);
    var k :| 0 <= k < |AllDimensions| && SpreadExceeds(ScoresOf(results, AllDimensions[k]));
    SpreadOfDimension(results, AllDimensions[k]);
  }

  lemma FarApartIsHighVariance(results: seq<ParsedImageAnalysis>, d: Dimension)
    requires results != [] && ScoresFarApart(results, d)
    ensures AnySpreadExceeds(results, AllDimensions)
  {
    AnySpreadIff(results, AllDimensions);
    SpreadOfDimension(results, d);
    AllDimensionsListed(d);
    var k :| 0 <= k < |AllDimensions| && AllDimensions[k] == d;
  }

  // ---------------------------------------------------------------------
  // _aggregate_observable_attributes and _aggregate_visual_metadata

  /** `getattr(result.<part>, field_name)` for every image, in order. */
  function FieldValues<T>(results: seq<ParsedImageAnalysis>, field: ParsedImageAnalysis -> T): (vs: seq<T>)
    ensures |vs| == |results|
  {
    seq(|results|, i requires 0 <= i < |results| => field(results[i]))
  }

  /** One vote helper applied to one field. */
  function Vote<T(==,!new)>(results: seq<ParsedImageAnalysis>, field: ParsedImageAnalysis -> T, default: T): T {
    Majority(FieldValues(results, field), default)
  }

  function Wirecore(r: ParsedImageAnalysis): bool { r.observableAttributes.wirecoreVisible }
  function Geometry(r: ParsedImageAnalysis): Enums.FrameGeometry { r.observableAttributes.frameGeometry }
  function Clarity(r: ParsedImageAnalysis): Enums.Transparency { r.observableAttributes.transparency }
  function Texture(r: ParsedImageAnalysis): Enums.SurfaceTexture { r.observableAttributes.surfaceTexture }
  function KidsSuitable(r: ParsedImageAnalysis): bool { r.observableAttributes.suitableForKids }
  function Material(r: ParsedImageAnalysis): Enums.FrameMaterialApparent { r.visualMetadata.frameMaterialApparent }
  function Tint(r: ParsedImageAnalysis): Enums.LensTint { r.visualMetadata.lensTint }
  function NosePads(r: ParsedImageAnalysis): bool { r.visualMetadata.hasNosePads }
  function Temple(r: ParsedImageAnalysis): Enums.TempleStyle { r.visualMetadata.templeStyle }

  /** `all_colors.extend(...)` over the images: every colour, image by image. */
  function AllColours(results: seq<ParsedImageAnalysis>): seq<Schema.DominantColor> {
    if results == [] then []
    else AllColours(results[..|results| - 1]) + results[|results| - 1].observableAttributes.dominantColors
  }

  /** The pooled list holds exactly the images' colours. */
  lemma {:induction false} AllColoursMembers(results: seq<ParsedImageAnalysis>)
    ensures forall c :: c in AllColours(results) <==>
      exists i :: 0 <= i < |results| && c in results[i].observableAttributes.dominantColors
  {
    if results != [] {
      var init := results[..|results| - 1];
      AllColoursMembers(init);
      assert forall i :: 0 <= i < |init| ==> init[i] == results[i];
    }
  }

  lemma PooledColoursValid(results: seq<ParsedImageAnalysis>)
    requires AnalysesValid(results)
    ensures Colors.AllColoursValid(AllColours(results))
  {
    AllColoursMembers(results);
    var all := AllColours(results);
    forall k | 0 <= k < |all| ensures all[k].Valid() {
      assert all[k] in all;
      var i :| 0 <= i < |results| && all[k] in results[i].observableAttributes.dominantColors;
      assert results[i].Valid();
    }
  }

  /** `_aggregate_observable_attributes`; a failure is the exception the
      colour deduplication raises. */
  function AttributesOf(results: seq<ParsedImageAnalysis>): Result<ObservableAttributes>
    requires AnalysesValid(results)
  {
    PooledColoursValid(results);
    match Colors.Deduplicated(AllColours(results))
    case Failure(e) => Failure(e)
    case Success(colours) => Success(ObservableAttributes(
      Vote(results, Wirecore, false),
      Vote(results, Geometry, Enums.FrameGeometry.Unknown),
      Vote(results, Clarity, Enums.Transparency.Opaque),
      colours,
      Vote(results, Texture, Enums.SurfaceTexture.Smooth),
      Vote(results, KidsSuitable, false)))
  }

  /** `_aggregate_visual_metadata`. */
  function MetadataOf(results: seq<ParsedImageAnalysis>): VisualMetadata {
    VisualMetadata(
      Vote(results, Material, Enums.FrameMaterialApparent.Indeterminate),
      Vote(results, Tint, Enums.LensTint.Indeterminate),
      Vote(results, NosePads, false),
      Vote(results, Temple, Enums.TempleStyle.Indeterminate))
  }

  /** The attributes fail exactly when some pooled colour code does not parse. */
  lemma AttributesFailIff(results: seq<ParsedImageAnalysis>)
    requires AnalysesValid(results)
    ensures AttributesOf(results).Failure? <==> !Colors.HexesParse(AllColours(results))
  {
    PooledColoursValid(results);
    Colors.DeduplicatedFailsOnBadHex(AllColours(results));
  }

  /** Successful attributes pass the colour-list validator and are valid. */
  lemma AttributesValidated(results: seq<ParsedImageAnalysis>)
    requires AnalysesValid(results) && AttributesOf(results).Success?
    ensures AttributesOf(results).value.Valid()
    ensures ValidateDominantColors(AttributesOf(results).value.dominantColors) == Some(AttributesOf(results).value.dominantColors)
  {
    PooledColoursValid(results);
    Colors.DeduplicatedShape(AllColours(results));
  }

  /** Every categorical field of the attributes is its image-wise most
      frequent value, ties going to the value seen first. */
  lemma AttributesVotes(results: seq<ParsedImageAnalysis>)
    requires results != [] && AnalysesValid(results) && AttributesOf(results).Success?
    ensures var a := AttributesOf(results).value;
      && FirstMostFrequent(FieldValues(results, Wirecore), a.wirecoreVisible)
      && FirstMostFrequent(FieldValues(results, Geometry), a.frameGeometry)
      && FirstMostFrequent(FieldValues(results, Clarity), a.transparency)
      && FirstMostFrequent(FieldValues(results, Texture), a.surfaceTexture)
      && FirstMostFrequent(FieldValues(results, KidsSuitable), a.suitableForKids)
  {
    MajorityIsFirstMostFrequent(FieldValues(results, Wirecore), false);
    MajorityIsFirstMostFrequent(FieldValues(results, Geometry), Enums.FrameGeometry.Unknown);
    MajorityIsFirstMostFrequent(FieldValues(results, Clarity), Enums.Transparency.Opaque);
    MajorityIsFirstMostFrequent(FieldValues(results, Texture), Enums.SurfaceTexture.Smooth);
    MajorityIsFirstMostFrequent(FieldValues(results, KidsSuitable), false);
  }

  /** A single image's value wins its vote. */
  lemma VoteOfOne<T(!new)>(r: ParsedImageAnalysis, field: ParsedImageAnalysis -> T, default: T)
    ensures Vote([r], field, default) == field(r)
  {
    assert FieldValues([r], field) == [field(r)];
    MajorityOfOne(field(r), default);
  }

  /** Every metadata field is its image-wise most frequent value, ties going to the value seen first. */
  lemma MetadataVotes(results: seq<ParsedImageAnalysis>)
    requires results != []
    ensures var m := MetadataOf(results);
      && FirstMostFrequent(FieldValues(results, Material), m.frameMaterialApparent)
      && FirstMostFrequent(FieldValues(results, Tint), m.lensTint)
      && FirstMostFrequent(FieldValues(results, NosePads), m.hasNosePads)
      && FirstMostFrequent(FieldValues(results, Temple), m.templeStyle)
  {
    MajorityIsFirstMostFrequent(FieldValues(results, Material), Enums.FrameMaterialApparent.Indeterminate);
    MajorityIsFirstMostFrequent(FieldValues(results, Tint), Enums.LensTint.Indeterminate);
    MajorityIsFirstMostFrequent(FieldValues(results, NosePads), false);
    MajorityIsFirstMostFrequent(FieldValues(results, Temple), Enums.TempleStyle.Indeterminate);
  }

  /** The loop that extends `all_colors` with every image's colours, in image order. */
  method PoolColours(results: seq<ParsedImageAnalysis>) returns (allColors: seq<Schema.DominantColor>)
    ensures allColors == AllColours(results)
  {
    allColors := [];
    var i := 0;
    while i < |results|
      invariant 0 <= i <= |results|
      invariant allColors == AllColours(results[..i])
    {
      assert results[..i + 1][..i] == results[..i];
      allColors := allColors + results[i].observableAttributes.dominantColors;
      i := i + 1;
    }
    assert results[..i] == results;
  }

  /** The body of `_aggregate_observable_attributes`: five votes, the colour
      pooling loop and the deduplication. */
  method AggregateObservableAttributes(results: seq<ParsedImageAnalysis>) returns (r: Result<ObservableAttributes>)
    requires AnalysesValid(results)
    ensures r == AttributesOf(results)
  {
    var wirecore := Tally(FieldValues(results, Wirecore), false);
    var geometry := Tally(FieldValues(results, Geometry), Enums.FrameGeometry.Unknown);
    var transparency := Tally(FieldValues(results, Clarity), Enums.Transparency.Opaque);
    var texture := Tally(FieldValues(results, Texture), Enums.SurfaceTexture.Smooth);
    var kids := Tally(FieldValues(results, KidsSuitable), false);
    var allColors := PoolColours(results);
    PooledColoursValid(results);
    var colours := Colors.DeduplicateColors(allColors);
    if colours.Failure? {
      return Failure(colours.error);
    }
    r := Success(ObservableAttributes(wirecore, geometry, transparency, colours.value, texture, kids));
  }

  /** The body of `_aggregate_visual_metadata`: four votes. */
  method AggregateVisualMetadata(results: seq<ParsedImageAnalysis>) returns (m: VisualMetadata)
    ensures m == MetadataOf(results)
  {
    var material := Tally(FieldValues(results, Material), Enums.FrameMaterialApparent.Indeterminate);
    var tint := Tally(FieldValues(results, Tint), Enums.LensTint.Indeterminate);
    var nosePads := Tally(FieldValues(results, NosePads), false);
    var temple := Tally(FieldValues(results, Temple), Enums.TempleStyle.Indeterminate);
    m := VisualMetadata(material, tint, nosePads, temple);
  }

  // ---------------------------------------------------------------------
  // aggregate

  /** The record returned for an empty list of analyses. */
  function EmptyMeasurement(productId: string): ProductMeasurement {
    var zero := VisualDimension(0.0, 0.0);
    NewMeasurement(
      productId, Enums.ProcessingStatus.Failed,
      VisualDimensions(zero, zero, zero, zero, zero),
      ObservableAttributes(false, Enums.FrameGeometry.Unknown, Enums.Transparency.Opaque, [], Enums.SurfaceTexture.Smooth, false),
      VisualMetadata(Enums.FrameMaterialApparent.Indeterminate, Enums.LensTint.Indeterminate, false, Enums.TempleStyle.Indeterminate),
      0.0,
      QualityFlags(true, false, false, false)).value
  }

  /** `Aggregator.aggregate`; a failure is the exception raised while fusing. */
  function Aggregated(productId: string, results: seq<ParsedImageAnalysis>): Result<ProductMeasurement>
    requires AnalysesValid(results)
  {
    if results == [] then Success(EmptyMeasurement(productId))
    else
      var dims := FusedDimensions(results);
      match AttributesOf(results)
      case Failure(e) => Failure(e)
      case Success(attrs) =>
        var confidence := AggregateConfidence(dims);
        AggregateConfidenceInRange(dims);
        var flags := QualityFlagsOf(results, confidence, dims);
        Success(NewMeasurement(productId, Enums.ProcessingStatus.Success, dims, attrs, MetadataOf(results), confidence, flags).value)
  }

  /** No analyses give the failed sentinel: zero scores and confidences, no
      colours, the default tags (each a member of its tag set), aggregate
      confidence 0 and only the low-confidence flag raised. */
  lemma EmptyInputSentinel(productId: string)
    ensures Aggregated(productId, []).Success?
    ensures var m := Aggregated(productId, []).value;
      && m.productId == productId
      && m.processingStatus == Enums.ProcessingStatus.Failed
      && (forall d: Dimension :: m.visualDimensions.Get(d) == VisualDimension(0.0, 0.0))
      && m.observableAttributes.dominantColors == []
      && !m.observableAttributes.wirecoreVisible && !m.observableAttributes.suitableForKids
      && m.observableAttributes.frameGeometry.Tag() == "unknown"
      && m.observableAttributes.transparency.Tag() == "opaque"
      && m.observableAttributes.surfaceTexture.Tag() == "smooth"
      && m.visualMetadata.frameMaterialApparent.Tag() == "indeterminate"
      && m.visualMetadata.lensTint.Tag() == "indeterminate"
      && m.visualMetadata.templeStyle.Tag() == "indeterminate"
      && !m.visualMetadata.hasNosePads
      && m.aggregateConfidence == 0.0
      && m.qualityFlags == QualityFlags(true, false, false, false)
      && m.aggregationMethod == "confidence_weighted_average"
  {
  }

  /** With at least one analysis the result is a success exactly when every
      pooled colour code parses; a success carries status "success", the fused
      dimensions, valid attributes, the voted metadata, the mean of the five
      fused confidences (within [0, 1]) and the derived flags. */
  lemma AggregatedResult(productId: string, results: seq<ParsedImageAnalysis>)
    requires results != [] && AnalysesValid(results)
    ensures Aggregated(productId, results).Success? <==> Colors.HexesParse(AllColours(results))
    ensures Aggregated(productId, results).Success? ==>
      var m := Aggregated(productId, results).value;
      && m.productId == productId
      && m.processingStatus == Enums.ProcessingStatus.Success
      && m.visualDimensions == FusedDimensions(results)
      && (forall d: Dimension :: m.visualDimensions.Get(d) == FusedDimension(results, d))
      && m.visualDimensions.Valid()
      && m.observableAttributes == AttributesOf(results).value && m.observableAttributes.Valid()
      && m.visualMetadata == MetadataOf(results)
      && m.aggregateConfidence == Mean(FusedConfidences(m.visualDimensions))
      && 0.0 <= m.aggregateConfidence <= 1.0
      && m.qualityFlags == QualityFlagsOf(results, m.aggregateConfidence, m.visualDimensions)
  {
    AttributesFailIff(results);
    if AttributesOf(results).Success? {
      AttributesValidated(results);
    }
    AggregateConfidenceInRange(FusedDimensions(results));
  }

  /** One analysis comes back as it was: its dimensions (when every
      confidence is positive) and its categorical fields, flagged as a single
      image without high variance. */
  lemma SingleAnalysisAggregate(productId: string, r: ParsedImageAnalysis)
    requires r.Valid() && Colors.HexesParse(r.observableAttributes.dominantColors)
    requires forall d: Dimension :: r.visualDimensions.Get(d).confidence > 0.0
    ensures Aggregated(productId, [r]).Success?
    ensures var m := Aggregated(productId, [r]).value;
      && m.visualDimensions == r.visualDimensions
      && m.visualMetadata == r.visualMetadata
      && m.observableAttributes.frameGeometry == r.observableAttributes.frameGeometry
      && m.observableAttributes.transparency == r.observableAttributes.transparency
      && m.observableAttributes.surfaceTexture == r.observableAttributes.surfaceTexture
      && m.observableAttributes.wirecoreVisible == r.observableAttributes.wirecoreVisible
      && m.observableAttributes.suitableForKids == r.observableAttributes.suitableForKids
      && m.qualityFlags.singleImageOnly && !m.qualityFlags.highVariance
  {
    assert [r][..0] == [];
    assert AllColours([r]) == r.observableAttributes.dominantColors;
    AggregatedResult(productId, [r]);
    SingleAnalysisDimensions(r);
    SingleAnalysisMetadata(r);
    SingleAnalysisAttributes(r);
  }

  lemma SingleAnalysisDimensions(r: ParsedImageAnalysis)
    requires r.Valid()
    requires forall d: Dimension :: r.visualDimensions.Get(d).confidence > 0.0
    ensures FusedDimensions([r]) == r.visualDimensions
  {
    forall d: Dimension ensures FusedDimension([r], d) == r.visualDimensions.Get(d) {
      SingleImageUnchanged(r, d);
    }
  }

  lemma SingleAnalysisMetadata(r: ParsedImageAnalysis)
    ensures MetadataOf([r]) == r.visualMetadata
  {
    VoteOfOne(r, Material, Enums.FrameMaterialApparent.Indeterminate);
    VoteOfOne(r, Tint, Enums.LensTint.Indeterminate);
    VoteOfOne(r, NosePads, false);
    VoteOfOne(r, Temple, Enums.TempleStyle.Indeterminate);
  }

  lemma SingleAnalysisAttributes(r: ParsedImageAnalysis)
    requires r.Valid() && AttributesOf([r]).Success?
    ensures var a := AttributesOf([r]).value;
      && a.frameGeometry == r.observableAttributes.frameGeometry
      && a.transparency == r.observableAttributes.transparency
      && a.surfaceTexture == r.observableAttributes.surfaceTexture
      && a.wirecoreVisible == r.observableAttributes.wirecoreVisible
      && a.suitableForKids == r.observableAttributes.suitableForKids
  {
    VoteOfOne(r, Wirecore, false);
    VoteOfOne(r, Geometry, Enums.FrameGeometry.Unknown);
    VoteOfOne(r, Clarity, Enums.Transparency.Opaque);
    VoteOfOne(r, Texture, Enums.SurfaceTexture.Smooth);
    VoteOfOne(r, KidsSuitable, false);
  }

  /** The body of `aggregate`. */
  method Aggregate(productId: string, results: seq<ParsedImageAnalysis>) returns (r: Result<ProductMeasurement>)
    requires AnalysesValid(results)
    ensures r == Aggregated(productId, results)
  {
    if results == [] {
      return Success(EmptyMeasurement(productId));
    }
    var dims := AggregateVisualDimensions(results);
    var attrs := AggregateObservableAttributes(results);
    if attrs.Failure? {
      return Failure(attrs.error);
    }
    var meta := AggregateVisualMetadata(results);
    var confidence := AggregateConfidence(dims);
    AggregateConfidenceInRange(dims);
    var flags := QualityFlagsOf(results, confidence, dims);
    r := Success(NewMeasurement(productId, Enums.ProcessingStatus.Success, dims, attrs.value, meta, confidence, flags).value);
  }
}
