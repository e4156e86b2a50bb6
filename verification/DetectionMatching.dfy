/**
 * One-to-one agreement between two detection lists (core/export_quality.py): a single minimum-cost
 * assignment encodes "as many valid pairs as possible, then the highest overlap".
 */
module DetectionMatching {
  import opened Prelude

  datatype Detection = Detection(x0: real, y0: real, x1: real, y1: real, score: real, category: nat)

  predicate ValidDetection(d: Detection) {
    d.x0 < d.x1 && d.y0 < d.y1 && 0.0 <= d.score <= 1.0
  }

  predicate ValidRows(rows: seq<Detection>) {
    forall i :: 0 <= i < |rows| ==> ValidDetection(rows[i])
  }

  function MinReal(a: real, b: real): real {
    if a <= b then a else b
  }

  function MaxReal(a: real, b: real): real {
    if a >= b then a else b
  }

  function Abs(a: real): real {
    if a >= 0.0 then a else -a
  }

  // ----- overlap -----

  function Area(d: Detection): real {
    (d.x1 - d.x0) * (d.y1 - d.y0)
  }

  function Intersection(a: Detection, b: Detection): real {
    MaxReal(MinReal(a.x1, b.x1) - MaxReal(a.x0, b.x0), 0.0) * MaxReal(MinReal(a.y1, b.y1) - MaxReal(a.y0, b.y0), 0.0)
  }

  lemma ProductMonotone(a: real, b: real, c: real, d: real)
    requires 0.0 <= a <= c && 0.0 <= b <= d
    ensures 0.0 <= a * b <= c * d
  {
    assert a * b <= a * d;
    assert a * d <= c * d;
  }

  lemma AreaPositive(d: Detection)
    requires ValidDetection(d)
    ensures Area(d) > 0.0
  {
  }

  lemma IntersectionBounds(a: Detection, b: Detection)
    requires ValidDetection(a) && ValidDetection(b)
    ensures 0.0 <= Intersection(a, b) <= Area(a) && Intersection(a, b) <= Area(b)
  {
    var w, h := MaxReal(MinReal(a.x1, b.x1) - MaxReal(a.x0, b.x0), 0.0),
      MaxReal(MinReal(a.y1, b.y1) - MaxReal(a.y0, b.y0), 0.0);
    ProductMonotone(w, h, a.x1 - a.x0, a.y1 - a.y0);
    ProductMonotone(w, h, b.x1 - b.x0, b.y1 - b.y0);
  }

  /** Overlap over union of two boxes of positive area, always between zero and one. */
  function Iou(a: Detection, b: Detection): (r: real)
    requires ValidDetection(a) && ValidDetection(b)
    ensures 0.0 <= r <= 1.0
  {
    AreaPositive(a);
    IntersectionBounds(a, b);
    QuotientBounds(Intersection(a, b), Area(a) + Area(b) - Intersection(a, b));
    Intersection(a, b) / (Area(a) + Area(b) - Intersection(a, b))
  }

  lemma QuotientBounds(p: real, q: real)
    requires 0.0 <= p <= q && q > 0.0
    ensures 0.0 <= p / q <= 1.0
  {
    var r := p / q;
    assert r * q == p;
    assert (r - 1.0) * q <= 0.0;
  }

  // ----- the cost encoding -----

  const SCORE_TIE: real := 0.000000001

  /** The two lists and the overlap a pair needs. */
  datatype Problem = Problem(native: seq<Detection>, served: seq<Detection>, minIou: real)

  predicate Sound(p: Problem) {
    ValidRows(p.native) && ValidRows(p.served) && 0.0 < p.minIou <= 1.0
  }

  type Pair = (nat, nat)

  predicate InRange(p: Problem, e: Pair) {
    e.0 < |p.native| && e.1 < |p.served|
  }

  function Overlap(p: Problem, e: Pair): (r: real)
    requires Sound(p) && InRange(p, e)
    ensures 0.0 <= r <= 1.0
  {
    Iou(p.native[e.0], p.served[e.1])
  }

  predicate ValidPair(p: Problem, e: Pair)
    requires Sound(p) && InRange(p, e)
  {
    p.native[e.0].category == p.served[e.1].category && Overlap(p, e) >= p.minIou
  }

  function ScoreGap(p: Problem, e: Pair): real
    requires InRange(p, e)
  {
    Abs(p.native[e.0].score - p.served[e.1].score)
  }

  function Penalty(p: Problem): real {
    (Max(|p.native|, |p.served|) + 1) as real
  }

  function Penalties(p: Problem, k: nat): real {
    k as real * Penalty(p)
  }

  lemma OneMorePenalty(p: Problem, k: nat)
    ensures Penalties(p, k + 1) == Penalties(p, k) + Penalty(p)
  {
    assert (k + 1) as real == k as real + 1.0;
    assert (k as real + 1.0) * Penalty(p) == k as real * Penalty(p) + Penalty(p);
  }

  function Cost(p: Problem, e: Pair): real
    requires Sound(p) && InRange(p, e)
  {
    if ValidPair(p, e) then 1.0 - Overlap(p, e) + ScoreGap(p, e) * SCORE_TIE else Penalty(p)
  }

  predicate OneToOne(p: Problem, s: seq<Pair>) {
    && (forall i :: 0 <= i < |s| ==> InRange(p, s[i]))
    && forall i, j :: 0 <= i < j < |s| ==> s[i].0 != s[j].0 && s[i].1 != s[j].1
  }

  function Rank(p: Problem): nat {
    Min(|p.native|, |p.served|)
  }

  /** What the assignment solver returns: as many pairs as the shorter list has rows. */
  predicate Complete(p: Problem, s: seq<Pair>) {
    OneToOne(p, s) && |s| == Rank(p)
  }

  function TotalCost(p: Problem, s: seq<Pair>): real
    requires Sound(p) && forall i :: 0 <= i < |s| ==> InRange(p, s[i])
  {
    if s == [] then 0.0 else TotalCost(p, s[..|s| - 1]) + Cost(p, s[|s| - 1])
  }

  /** The solver's contract: a complete assignment of least total cost. */
  ghost predicate Optimal(p: Problem, s: seq<Pair>)
    requires Sound(p)
  {
    Complete(p, s) && forall t :: Complete(p, t) ==> TotalCost(p, s) <= TotalCost(p, t)
  }

  /** The valid pairs of an assignment. */
  function Selected(p: Problem, s: seq<Pair>): (r: seq<Pair>)
    requires Sound(p) && forall i :: 0 <= i < |s| ==> InRange(p, s[i])
    ensures |r| <= |s| && forall i :: 0 <= i < |r| ==> InRange(p, r[i])
  {
    if s == [] then []
    else
      var rest := Selected(p, s[..|s| - 1]);
      if ValidPair(p, s[|s| - 1]) then rest + [s[|s| - 1]] else rest
  }

  /** A valid one-to-one matching, independent of any cost. */
  predicate Matching(p: Problem, s: seq<Pair>)
    requires Sound(p)
  {
    OneToOne(p, s) && forall i :: 0 <= i < |s| ==> ValidPair(p, s[i])
  }

  function TotalOverlap(p: Problem, s: seq<Pair>): real
    requires Sound(p) && forall i :: 0 <= i < |s| ==> InRange(p, s[i])
  {
    if s == [] then 0.0 else TotalOverlap(p, s[..|s| - 1]) + Overlap(p, s[|s| - 1])
  }

  function TotalGap(p: Problem, s: seq<Pair>): real
    requires forall i :: 0 <= i < |s| ==> InRange(p, s[i])
  {
    if s == [] then 0.0 else TotalGap(p, s[..|s| - 1]) + ScoreGap(p, s[|s| - 1])
  }

  // ----- selected pairs -----

  lemma {:induction false} SelectedIsMatching(p: Problem, s: seq<Pair>)
    requires Sound(p) && OneToOne(p, s)
    ensures Matching(p, Selected(p, s)) && |Selected(p, s)| <= |s|
    ensures forall e :: e in Selected(p, s) <==> e in s && ValidPair(p, e)
  {
    hide ValidPair;
    if s != [] {
      var prefix, last := s[..|s| - 1], s[|s| - 1];
      SelectedIsMatching(p, prefix);
      assert s == prefix + [last];
      var rest := Selected(p, prefix);
      forall i | 0 <= i < |rest| ensures rest[i].0 != last.0 && rest[i].1 != last.1 {
        assert rest[i] in rest;
        assert rest[i] in prefix;
      }
    }
  }

  /** Each unselected pair costs the penalty. */
  lemma {:induction false} CostSplits(p: Problem, s: seq<Pair>)
    requires Sound(p) && OneToOne(p, s)
    ensures |Selected(p, s)| <= |s| && OneToOne(p, Selected(p, s))
    ensures TotalCost(p, s) == TotalCost(p, Selected(p, s)) + Penalties(p, |s| - |Selected(p, s)|)
  {
    hide Penalty, Penalties, Cost, Selected, TotalCost, ValidPair;
    SelectedIsMatching(p, s);
    if s == [] {
      NothingCosts(p);
      NoPenalty(p);
    } else {
      var prefix, last := s[..|s| - 1], s[|s| - 1];
      CostSplits(p, prefix);
      assert s == prefix + [last];
      CostSplitsStep(p, prefix, last);
    }
  }

  lemma CostSplitsStep(p: Problem, s: seq<Pair>, e: Pair)
    requires Sound(p) && InRange(p, e) && forall i :: 0 <= i < |s| ==> InRange(p, s[i])
    requires TotalCost(p, s) == TotalCost(p, Selected(p, s)) + Penalties(p, |s| - |Selected(p, s)|)
    ensures TotalCost(p, s + [e]) == TotalCost(p, Selected(p, s + [e]))
        + Penalties(p, |s + [e]| - |Selected(p, s + [e])|)
  {
    hide Penalty, Penalties, Cost, Selected, TotalCost, ValidPair, Sound, InRange;
    CostSnoc(p, s, e);
    CostSnoc(p, Selected(p, s), e);
    if !ValidPair(p, e) { OneMorePenalty(p, |s| - |Selected(p, s)|); }
  }

  lemma NothingCosts(p: Problem)
    requires Sound(p)
    ensures Selected(p, []) == [] && TotalCost(p, []) == 0.0
  {
  }

  lemma CostSnoc(p: Problem, s: seq<Pair>, e: Pair)
    requires Sound(p) && InRange(p, e) && forall i :: 0 <= i < |s| ==> InRange(p, s[i])
    ensures TotalCost(p, s + [e]) == TotalCost(p, s) + Cost(p, e)
    ensures Selected(p, s + [e]) == if ValidPair(p, e) then Selected(p, s) + [e] else Selected(p, s)
    ensures !ValidPair(p, e) ==> Cost(p, e) == Penalty(p)
  {
    assert (s + [e])[..|s|] == s;
  }

  lemma NoPenalty(p: Problem)
    ensures Penalties(p, 0) == 0.0
  {
  }

  lemma {:induction false} CostOfMatching(p: Problem, s: seq<Pair>)
    requires Sound(p) && Matching(p, s)
    ensures TotalCost(p, s) == |s| as real - TotalOverlap(p, s) + TotalGap(p, s) * SCORE_TIE
    ensures 0.0 <= TotalGap(p, s) <= |s| as real
    ensures p.minIou * |s| as real <= TotalOverlap(p, s) <= |s| as real
  {
    hide Overlap;
    if s != [] {
      var prefix, last := s[..|s| - 1], s[|s| - 1];
      CostOfMatching(p, prefix);
      assert ValidPair(p, last);
      GapBounds(p, last);
      assert |s| as real == |prefix| as real + 1.0;
      assert p.minIou * (|prefix| as real + 1.0) == p.minIou * |prefix| as real + p.minIou;
    }
  }

  lemma GapBounds(p: Problem, e: Pair)
    requires Sound(p) && InRange(p, e)
    ensures 0.0 <= ScoreGap(p, e) <= 1.0
  {
    assert ValidDetection(p.native[e.0]) && ValidDetection(p.served[e.1]);
  }

  // ----- extending a matching to an assignment -----

  function Below(n: nat): (r: set<int>)
    ensures |r| == n && forall i :: i in r <==> 0 <= i < n
  {
    if n == 0 then {} else Below(n - 1) + {n - 1}
  }

  lemma {:induction false} ElementCount(s: seq<int>)
    ensures |Elements(s)| <= |s|
  {
    if s != [] {
      ElementCount(s[..|s| - 1]);
      assert s == s[..|s| - 1] + [s[|s| - 1]];
      assert Elements(s) == Elements(s[..|s| - 1]) + {s[|s| - 1]};
    }
  }

  /** Fewer than `n` numbers leave one below `n` unused. */
  lemma Unused(n: nat, s: seq<int>) returns (x: nat)
    requires |s| < n
    ensures x < n && x !in s
  {
    if forall i :: 0 <= i < n ==> i in s {
      ElementCount(s);
      SubsetSize(Below(n), Elements(s));
      assert false;
    }
    x :| x < n && x !in s;
  }

  function Rows(s: seq<Pair>): seq<int> {
    seq(|s|, i requires 0 <= i < |s| => s[i].0)
  }

  function Columns(s: seq<Pair>): seq<int> {
    seq(|s|, i requires 0 <= i < |s| => s[i].1)
  }

  /** No pair costs more than the penalty. */
  lemma CostBelowPenalty(p: Problem, e: Pair)
    requires Sound(p) && InRange(p, e)
    ensures 0.0 <= Cost(p, e) <= Penalty(p)
  {
    GapBounds(p, e);
    assert Max(|p.native|, |p.served|) >= 1;
  }

  /** Every one-to-one list extends to a complete assignment at no more than the penalty for each added pair. */
  lemma {:induction false} Extend(p: Problem, s: seq<Pair>) returns (t: seq<Pair>)
    requires Sound(p) && OneToOne(p, s)
    ensures Complete(p, t) && |s| <= |t|
    ensures TotalCost(p, t) <= TotalCost(p, s) + Penalties(p, |t| - |s|)
    decreases Rank(p) - |s|
  {
    hide Cost, Penalty, Penalties;
    AtMostRank(p, s);
    if |s| == Rank(p) {
      t := s;
      NoPenalty(p);
    } else {
      var i := Unused(|p.native|, Rows(s));
      var j := Unused(|p.served|, Columns(s));
      var e: Pair := (i, j);
      var more := s + [e];
      forall k | 0 <= k < |s| ensures s[k].0 != i && s[k].1 != j {
        assert Rows(s)[k] in Rows(s) && Columns(s)[k] in Columns(s);
      }
      assert more[..|s|] == s;
      t := Extend(p, more);
      CostBelowPenalty(p, e);
      assert TotalCost(p, more) == TotalCost(p, s) + Cost(p, e);
      OneMorePenalty(p, |t| - |more|);
    }
  }

  /** Distinct numbers below `n` are at most `n`. */
  lemma {:induction false} DistinctBelow(s: seq<int>, n: nat)
    requires Distinct(s) && forall i :: 0 <= i < |s| ==> 0 <= s[i] < n
    ensures |s| <= n && |Elements(s)| == |s|
  {
    DistinctSize(s);
    SubsetSize(Elements(s), Below(n));
  }

  lemma AtMostRank(p: Problem, s: seq<Pair>)
    requires OneToOne(p, s)
    ensures |s| <= Rank(p)
  {
    DistinctBelow(Rows(s), |p.native|);
    DistinctBelow(Columns(s), |p.served|);
  }

  // ----- main results -----

  /** The guard under which one invalid pair outweighs a whole valid assignment. */
  predicate Guard(n: nat, m: nat, mu: real) {
    Min(n, m) as real * (SCORE_TIE - mu) < (Max(n, m) - Min(n, m) + 1) as real
  }

  predicate PenaltyDominates(p: Problem) {
    Guard(|p.native|, |p.served|, p.minIou)
  }

  /** Any tie weight up to the required overlap satisfies it, whatever the sizes. */
  lemma EnoughOverlap(p: Problem)
    requires p.minIou >= SCORE_TIE
    ensures PenaltyDominates(p)
  {
    ProductMonotone(0.0, 0.0, Rank(p) as real, p.minIou - SCORE_TIE);
  }

  /** So does every required overlap for lists of at most a billion rows. */
  lemma FewEnough(p: Problem)
    requires 0.0 < p.minIou && Rank(p) <= 1000000000
    ensures PenaltyDominates(p)
  {
    var k := Rank(p) as real;
    Scarce(k, p.minIou);
    assert (Max(|p.native|, |p.served|) - Rank(p) + 1) as real >= 1.0;
  }

  lemma Scarce(k: real, mu: real)
    requires 0.0 <= k <= 1000000000.0 && mu > 0.0
    ensures k * (SCORE_TIE - mu) < 1.0
  {
    ProductMonotone(0.0, 0.0, k, mu);
    assert k * (SCORE_TIE - mu) == k * SCORE_TIE - k * mu;
    if k == 1000000000.0 { assert k * mu > 0.0; }
  }

  /** The least-cost assignment selects as many valid pairs as any one-to-one matching has. */
  lemma MaximumCardinality(p: Problem, a: seq<Pair>, s: seq<Pair>)
    requires Sound(p) && Optimal(p, a) && PenaltyDominates(p) && Matching(p, s)
    ensures |s| <= |Selected(p, a)|
  {
    hide PenaltyDominates, Penalty, Penalties, Cost, TotalCost, TotalOverlap, TotalGap, Selected, ValidPair, InRange;
    var t := Extend(p, s);
    var v := |Selected(p, a)|;
    OptimalAgainst(p, a, t);
    CostSplits(p, a);
    SelectedIsMatching(p, a);
    CostOfMatching(p, Selected(p, a));
    CostOfMatching(p, s);
    if |s| > v {
      AtMostRank(p, s);
      WorseByOne(p, |s|, v, TotalOverlap(p, s), TotalGap(p, s));
      assert false;
    }
  }

  lemma OptimalAgainst(p: Problem, a: seq<Pair>, t: seq<Pair>)
    requires Sound(p) && Optimal(p, a) && Complete(p, t)
    ensures Complete(p, a) && TotalCost(p, a) <= TotalCost(p, t)
  {
  }

  /** A matching with more pairs costs less, even at the worst overlaps and scores. */
  lemma WorseByOne(p: Problem, more: nat, fewer: nat, overlap: real, gap: real)
    requires PenaltyDominates(p) && fewer < more <= Rank(p) && 0.0 < p.minIou <= 1.0
    requires p.minIou * more as real <= overlap && 0.0 <= gap <= more as real
    ensures more as real - overlap + gap * SCORE_TIE + Penalties(p, Rank(p) - more) < Penalties(p, Rank(p) - fewer)
  {
    hide Penalty, Penalties, PenaltyDominates;
    MorePenalties(p, Rank(p) - more, Rank(p) - fewer);
    PairsBelowPenalty(p, more);
  }

  lemma MorePenalties(p: Problem, j: nat, i: nat)
    requires j < i
    ensures Penalties(p, i) >= Penalties(p, j) + Penalty(p)
  {
    OneMorePenalty(p, j);
    ProductMonotone(0.0, 0.0, (i - j - 1) as real, Penalty(p));
    assert i as real == (j + 1) as real + (i - j - 1) as real;
  }

  lemma PairsBelowPenalty(p: Problem, more: nat)
    requires PenaltyDominates(p) && more <= Rank(p) && 0.0 < p.minIou <= 1.0
    ensures more as real - p.minIou * more as real + more as real * SCORE_TIE < Penalty(p)
  {
    var k, m := Rank(p) as real, more as real;
    var slope := SCORE_TIE - p.minIou;
    assert m - p.minIou * m + m * SCORE_TIE == m + m * slope;
    if slope >= 0.0 {
      assert (k - m) * slope >= 0.0;
      assert m * slope <= k * slope;
    } else {
      assert m * slope <= 0.0;
    }
  }

  /** Among equally many valid pairs the selected ones have the least cost, with no condition at all. */
  lemma LeastCostAmongEqual(p: Problem, a: seq<Pair>, s: seq<Pair>)
    requires Sound(p) && Optimal(p, a) && Matching(p, s) && |s| == |Selected(p, a)|
    ensures OneToOne(p, Selected(p, a)) && TotalCost(p, Selected(p, a)) <= TotalCost(p, s)
  {
    hide Penalty, Penalties, Cost;
    var t := Extend(p, s);
    OptimalAgainst(p, a, t);
    CostSplits(p, a);
  }

  /** Among maximum matchings the total overlap is best up to the score tie-break, at most 1e-9 a pair. */
  lemma OverlapNearlyBest(p: Problem, a: seq<Pair>, s: seq<Pair>)
    requires Sound(p) && Optimal(p, a) && Matching(p, s) && |s| == |Selected(p, a)|
    ensures OneToOne(p, Selected(p, a))
    ensures TotalOverlap(p, s) <= TotalOverlap(p, Selected(p, a))
        + (TotalGap(p, s) - TotalGap(p, Selected(p, a))) * SCORE_TIE
    ensures TotalOverlap(p, s) <= TotalOverlap(p, Selected(p, a)) + |s| as real * SCORE_TIE
  {
    hide Cost;
    LeastCostAmongEqual(p, a, s);
    SelectedIsMatching(p, a);
    CostOfMatching(p, Selected(p, a));
    CostOfMatching(p, s);
  }

  /** Equal overlaps are decided by the scores: the selected pairs have the smallest total score difference. */
  lemma ScoresBreakTies(p: Problem, a: seq<Pair>, s: seq<Pair>)
    requires Sound(p) && Optimal(p, a) && Matching(p, s) && |s| == |Selected(p, a)|
    requires OneToOne(p, Selected(p, a)) && TotalOverlap(p, s) == TotalOverlap(p, Selected(p, a))
    ensures TotalGap(p, Selected(p, a)) <= TotalGap(p, s)
  {
    OverlapNearlyBest(p, a, s);
  }

  /** Which optimum the solver returns does not matter for the counts or for the selected cost. */
  lemma SolverChoiceIrrelevant(p: Problem, a: seq<Pair>, b: seq<Pair>)
    requires Sound(p) && Optimal(p, a) && Optimal(p, b) && PenaltyDominates(p)
    ensures |Selected(p, a)| == |Selected(p, b)| && TotalCost(p, Selected(p, a)) == TotalCost(p, Selected(p, b))
  {
    hide PenaltyDominates;
    SelectedIsMatching(p, a);
    SelectedIsMatching(p, b);
    MaximumCardinality(p, a, Selected(p, b));
    MaximumCardinality(p, b, Selected(p, a));
    LeastCostAmongEqual(p, a, Selected(p, b));
    LeastCostAmongEqual(p, b, Selected(p, a));
  }

  // ----- the agreement report -----

  datatype Agreement = Agreement(matched: nat, unmatchedReference: nat, unmatchedExported: nat,
                                 maxBoxError: Option<real>, maxScoreError: Option<real>)

  datatype MatchError = BadOverlap | BadRows

  /** The largest of some values, none for an empty list. */
  function Largest(values: seq<real>): (r: Option<real>)
    ensures r.None? <==> values == []
    ensures r.Some? ==> r.value in values && forall i :: 0 <= i < |values| ==> values[i] <= r.value
  {
    if values == [] then None
    else
      var rest := Largest(values[..|values| - 1]);
      Some(if rest.Some? then MaxReal(rest.value, values[|values| - 1]) else values[|values| - 1])
  }

  function BoxError(p: Problem, e: Pair): real
    requires InRange(p, e)
  {
    var a, b := p.native[e.0], p.served[e.1];
    MaxReal(MaxReal(Abs(a.x0 - b.x0), Abs(a.y0 - b.y0)), MaxReal(Abs(a.x1 - b.x1), Abs(a.y1 - b.y1)))
  }

  /** The pairs reported: the solver is consulted only when both lists have rows. */
  function Matched(p: Problem, solved: seq<Pair>): (r: seq<Pair>)
    requires Sound(p) && OneToOne(p, solved)
    ensures forall i :: 0 <= i < |r| ==> InRange(p, r[i])
  {
    if p.native == [] || p.served == [] then [] else Selected(p, solved)
  }

  function Report(p: Problem, pairs: seq<Pair>): Agreement
    requires (forall i :: 0 <= i < |pairs| ==> InRange(p, pairs[i])) && |pairs| <= Rank(p)
  {
    Agreement(|pairs|, |p.native| - |pairs|, |p.served| - |pairs|,
              Largest(seq(|pairs|, i requires 0 <= i < |pairs| => BoxError(p, pairs[i]))),
              Largest(seq(|pairs|, i requires 0 <= i < |pairs| => ScoreGap(p, pairs[i]))))
  }

  /** The whole comparison; `solved` is the solver's answer for the two lists. */
  function MatchDetections(p: Problem, solved: seq<Pair>): (r: Result<Agreement, MatchError>)
    requires Sound(p) ==> Optimal(p, solved)
    ensures r.Ok? <==> Sound(p)
    ensures r.Ok? ==>
        r.value.matched + r.value.unmatchedReference == |p.native| && r.value.matched + r.value.unmatchedExported
        == |p.served|
    ensures r.Ok? ==>
        (r.value.maxBoxError.Some? <==> r.value.matched > 0) && (r.value.maxScoreError.Some? <==> r.value.matched > 0)
  {
    if !(0.0 < p.minIou <= 1.0) then Err(BadOverlap)
    else if !ValidRows(p.native) || !ValidRows(p.served) then Err(BadRows)
    else
      SelectedIsMatching(p, solved);
      Ok(Report(p, Matched(p, solved)))
  }

  /** The reported count is attained by a valid matching and exceeded by none. */
  lemma ReportedCountIsMaximum(p: Problem, solved: seq<Pair>)
    requires Sound(p) && Optimal(p, solved) && PenaltyDominates(p)
    ensures var r := MatchDetections(p, solved).value;
            && (exists s :: Matching(p, s) && |s| == r.matched)
            && (forall s :: Matching(p, s) ==> |s| <= r.matched)
  {
    hide PenaltyDominates, Selected, ValidPair;
    var r := MatchDetections(p, solved).value;
    SelectedIsMatching(p, solved);
    var chosen := Selected(p, solved);
    assert |chosen| == r.matched;
    forall s | Matching(p, s) ensures |s| <= r.matched {
      MaximumCardinality(p, solved, s);
    }
  }

  /** At most this far apart. */
  predicate Near(a: real, b: real, bound: real) {
    a - b <= bound && b - a <= bound
  }

  predicate Apart(a: real, b: real, distance: real) {
    a - b == distance || b - a == distance
  }

  /** All four coordinates of the two boxes differ by at most the bound. */
  predicate BoxesNear(a: Detection, b: Detection, bound: real) {
    Near(a.x0, b.x0, bound) && Near(a.y0, b.y0, bound) && Near(a.x1, b.x1, bound) && Near(a.y1, b.y1, bound)
  }

  predicate SomeSideApart(a: Detection, b: Detection, distance: real) {
    Apart(a.x0, b.x0, distance) || Apart(a.y0, b.y0, distance)
    || Apart(a.x1, b.x1, distance) || Apart(a.y1, b.y1, distance)
  }

  /** The box error is the largest coordinate difference, the score gap the distance of the scores. */
  lemma ErrorsAre(p: Problem, e: Pair)
    requires InRange(p, e)
    ensures BoxesNear(p.native[e.0], p.served[e.1], BoxError(p, e))
    ensures SomeSideApart(p.native[e.0], p.served[e.1], BoxError(p, e))
    ensures Near(p.native[e.0].score, p.served[e.1].score, ScoreGap(p, e))
    ensures Apart(p.native[e.0].score, p.served[e.1].score, ScoreGap(p, e))
  {
  }

  /** Some reported pair is exactly this far apart, in a coordinate and in the score. */
  ghost predicate Attained(p: Problem, pairs: seq<Pair>, box: real, score: real)
  {
    && (exists i :: 0 <= i < |pairs| && InRange(p, pairs[i])
          && SomeSideApart(p.native[pairs[i].0], p.served[pairs[i].1], box))
    && (exists i :: 0 <= i < |pairs| && InRange(p, pairs[i])
          && Apart(p.native[pairs[i].0].score, p.served[pairs[i].1].score, score))
  }

  lemma LargestErrors(p: Problem, solved: seq<Pair>)
    requires Sound(p) && Optimal(p, solved)
    ensures var r, pairs := MatchDetections(p, solved).value, Matched(p, solved);
            && (forall i :: 0 <= i < |pairs| ==>
                  && r.maxBoxError.Some? && BoxError(p, pairs[i]) <= r.maxBoxError.value
                  && r.maxScoreError.Some? && ScoreGap(p, pairs[i]) <= r.maxScoreError.value)
            && (pairs != [] ==> exists i, j ::
              0 <= i < |pairs| && 0 <= j < |pairs| && BoxError(p, pairs[i]) == r.maxBoxError.value
                                                 && ScoreGap(p, pairs[j]) == r.maxScoreError.value)
  {
    hide BoxError, ScoreGap, Selected, ValidPair;
    var pairs := Matched(p, solved);
    var boxes := seq(|pairs|, i requires 0 <= i < |pairs| => BoxError(p, pairs[i]));
    var scores := seq(|pairs|, i requires 0 <= i < |pairs| => ScoreGap(p, pairs[i]));
    SelectedIsMatching(p, solved);
    var r := MatchDetections(p, solved).value;
    assert r == Report(p, pairs);
    assert r.maxBoxError == Largest(boxes) && r.maxScoreError == Largest(scores);
    forall i | 0 <= i < |pairs|
      ensures r.maxBoxError.Some? && BoxError(p, pairs[i]) <= r.maxBoxError.value
      ensures r.maxScoreError.Some? && ScoreGap(p, pairs[i]) <= r.maxScoreError.value
    {
      assert boxes[i] == BoxError(p, pairs[i]) && scores[i] == ScoreGap(p, pairs[i]);
    }
    if pairs != [] {
      var i :| 0 <= i < |boxes| && boxes[i] == r.maxBoxError.value;
      var j :| 0 <= j < |scores| && scores[j] == r.maxScoreError.value;
      assert BoxError(p, pairs[i]) == r.maxBoxError.value && ScoreGap(p, pairs[j]) == r.maxScoreError.value;
    }
  }

  /** The reported errors bound every coordinate and score difference of the matched pairs, and are attained. */
  lemma ReportedErrorsAreExtreme(p: Problem, solved: seq<Pair>)
    requires Sound(p) && Optimal(p, solved) && MatchDetections(p, solved).value.matched > 0
    ensures var r, pairs := MatchDetections(p, solved).value, Matched(p, solved);
            && r.maxBoxError.Some? && r.maxScoreError.Some?
            && (forall i :: 0 <= i < |pairs| ==>
                  && BoxesNear(p.native[pairs[i].0], p.served[pairs[i].1], r.maxBoxError.value)
                  && Near(p.native[pairs[i].0].score, p.served[pairs[i].1].score, r.maxScoreError.value))
            && Attained(p, pairs, r.maxBoxError.value, r.maxScoreError.value)
  {
    hide BoxError, ScoreGap, Selected, ValidPair, SomeSideApart, Apart;
    LargestErrors(p, solved);
    var r, pairs := MatchDetections(p, solved).value, Matched(p, solved);
    forall i | 0 <= i < |pairs|
      ensures BoxesNear(p.native[pairs[i].0], p.served[pairs[i].1], r.maxBoxError.value)
      ensures Near(p.native[pairs[i].0].score, p.served[pairs[i].1].score, r.maxScoreError.value)
    {
      ErrorsAre(p, pairs[i]);
    }
    var i, j :| 0 <= i < |pairs| && 0 <= j < |pairs|
      && BoxError(p, pairs[i]) == r.maxBoxError.value && ScoreGap(p, pairs[j]) == r.maxScoreError.value;
    ErrorsAre(p, pairs[i]);
    ErrorsAre(p, pairs[j]);
  }

  // ----- what the overlap measures -----

  predicate Inside(d: Detection, x: real, y: real) {
    d.x0 < x < d.x1 && d.y0 < y < d.y1
  }

  /** The inner points of `c` are exactly the common ones. */
  ghost predicate Common(a: Detection, b: Detection, c: Detection) {
    forall x, y :: Inside(c, x, y) <==> Inside(a, x, y) && Inside(b, x, y)
  }

  lemma CommonBox(a: Detection, b: Detection, x: real, y: real) returns (c: Detection)
    requires ValidDetection(a) && ValidDetection(b) && Inside(a, x, y) && Inside(b, x, y)
    ensures ValidDetection(c) && Common(a, b, c) && Intersection(a, b) == (c.x1 - c.x0) * (c.y1 - c.y0)
  {
    c := Detection(MaxReal(a.x0, b.x0), MaxReal(a.y0, b.y0), MinReal(a.x1, b.x1), MinReal(a.y1, b.y1), 0.0, 0);
  }

  lemma NothingCommon(a: Detection, b: Detection)
    requires ValidDetection(a) && ValidDetection(b) && Intersection(a, b) != 0.0
    ensures exists x, y :: Inside(a, x, y) && Inside(b, x, y)
  {
    var left, right := MaxReal(a.x0, b.x0), MinReal(a.x1, b.x1);
    var top, bottom := MaxReal(a.y0, b.y0), MinReal(a.y1, b.y1);
    assert left < right && top < bottom;
    var x, y := (left + right) / 2.0, (top + bottom) / 2.0;
    assert Inside(a, x, y) && Inside(b, x, y);
  }

  /** The intersection is the area of the box whose inner points are exactly the common ones, or zero without any. */
  lemma IntersectionIs(a: Detection, b: Detection)
    requires ValidDetection(a) && ValidDetection(b)
    ensures if exists x, y :: Inside(a, x, y) && Inside(b, x, y) then
              exists c :: ValidDetection(c) && Common(a, b, c) && Intersection(a, b) == (c.x1 - c.x0) * (c.y1 - c.y0)
            else Intersection(a, b) == 0.0
  {
    hide Inside, Intersection, Common, ValidDetection;
    if x, y :| Inside(a, x, y) && Inside(b, x, y) {
      var c := CommonBox(a, b, x, y);
    } else if Intersection(a, b) != 0.0 {
      NothingCommon(a, b);
    }
  }

  /** Overlap times union is the intersection, the union being both areas less what is counted twice. */
  lemma OverlapIs(a: Detection, b: Detection)
    requires ValidDetection(a) && ValidDetection(b)
    ensures Intersection(a, b) < Area(a) + Area(b)
    ensures Iou(a, b) * (Area(a) + Area(b) - Intersection(a, b)) == Intersection(a, b)
  {
    AreaPositive(a);
    AreaPositive(b);
    IntersectionBounds(a, b);
  }
}
