/**
 * When the penalty is large enough: the least-cost assignment keeps the most pairs for every input of given
 * sizes and required overlap exactly under the guard of DetectionMatching.PenaltyDominates.
 */
module MatchingLimits {
  import opened Prelude
  import opened DetectionMatching

  // ----- an optimum always exists -----

  ghost predicate PairsIn(s: seq<Pair>, n: nat, m: nat) {
    forall i :: 0 <= i < |s| ==> s[i].0 < n && s[i].1 < m
  }

  lemma {:induction false} FinitelyMany(k: nat, n: nat, m: nat) returns (all: set<seq<Pair>>)
    ensures forall s: seq<Pair> :: |s| == k && PairsIn(s, n, m) ==> s in all
  {
    if k == 0 {
      all := {[]};
    } else {
      var shorter := FinitelyMany(k - 1, n, m);
      all := set s, i: nat, j: nat | s in shorter && i < n && j < m :: s + [(i, j)];
      forall s: seq<Pair> | |s| == k && PairsIn(s, n, m) ensures s in all {
        var prefix, last := s[..k - 1], s[k - 1];
        assert PairsIn(prefix, n, m);
        assert s == prefix + [(last.0, last.1)];
      }
    }
  }

  lemma {:induction false} Cheapest(p: Problem, all: set<seq<Pair>>) returns (a: seq<Pair>)
    requires Sound(p) && (forall s :: s in all ==> Complete(p, s)) && all != {}
    ensures a in all && Complete(p, a) && forall s :: s in all ==> Complete(p, s) && TotalCost(p, a) <= TotalCost(p, s)
    decreases |all|
  {
    hide TotalCost;
    a :| a in all;
    if all != {a} {
      var b := Cheapest(p, all - {a});
      if TotalCost(p, b) < TotalCost(p, a) { a := b; }
    }
  }

  /** The solver's contract can always be met. */
  lemma OptimumExists(p: Problem) returns (a: seq<Pair>)
    requires Sound(p)
    ensures Optimal(p, a)
  {
    hide TotalCost;
    var all := FinitelyMany(Rank(p), |p.native|, |p.served|);
    var complete := set s | s in all && Complete(p, s);
    var one := Extend(p, []);
    InPairs(p, one);
    assert one in complete;
    a := Cheapest(p, complete);
    forall t | Complete(p, t) ensures TotalCost(p, a) <= TotalCost(p, t) {
      InPairs(p, t);
    }
  }

  lemma InPairs(p: Problem, s: seq<Pair>)
    requires Complete(p, s)
    ensures PairsIn(s, |p.native|, |p.served|) && |s| == Rank(p)
  {
    forall i | 0 <= i < |s| ensures s[i].0 < |p.native| && s[i].1 < |p.served| {
      assert InRange(p, s[i]);
    }
  }

  // ----- a chain of overlapping boxes -----

  /** Neighbours in the chain overlap by exactly `mu`. */
  function Shift(mu: real): real
    requires mu > 0.0
  {
    (1.0 - mu) / (1.0 + mu)
  }

  function Link(mu: real, i: nat, category: nat): Detection
    requires mu > 0.0
  {
    var x := i as real * Shift(mu);
    Detection(x, 0.0, x + 1.0, 1.0, if i % 2 == 0 then 0.0 else 1.0, category)
  }

  /** Each native box repeats the next served one; rows beyond the chain match nothing. */
  function Chain(n: nat, m: nat, mu: real): Problem
    requires mu > 0.0
  {
    var k := Min(n, m);
    Problem(seq(n, i requires 0 <= i < n => Link(mu, i + 1, if i < k then 0 else 1)),
            seq(m, j requires 0 <= j < m => Link(mu, j, if j < k then 0 else 2)), mu)
  }

  lemma ShiftBounds(mu: real)
    requires 0.0 < mu < SCORE_TIE
    ensures 0.5 < Shift(mu) < 1.0 && Shift(mu) * (1.0 + mu) == 1.0 - mu
  {
    var d := Shift(mu);
    assert d * (1.0 + mu) == 1.0 - mu;
    OrderByProduct(0.5, d, 1.0 + mu);
    OrderByProduct(d, 1.0, 1.0 + mu);
  }

  lemma OrderByProduct(a: real, b: real, q: real)
    requires q > 0.0 && a * q < b * q
    ensures a < b
  {
    if a >= b { ProductMonotone(0.0, 0.0, a - b, q); }
  }

  lemma LinksApart(mu: real, i: nat, j: nat)
    requires 0.0 < mu < SCORE_TIE && i >= j + 2
    ensures i as real * Shift(mu) >= j as real * Shift(mu) + 1.0
  {
    ShiftBounds(mu);
    ProductMonotone(0.0, 0.0, (i - j - 2) as real, Shift(mu));
    assert i as real == j as real + 2.0 + (i - j - 2) as real;
  }

  lemma LinkValid(mu: real, i: nat, a: nat)
    requires mu > 0.0
    ensures ValidDetection(Link(mu, i, a)) && Area(Link(mu, i, a)) == 1.0
  {
  }

  /** Links further apart than neighbours do not overlap. */
  lemma FarLinks(mu: real, i: nat, j: nat, a: nat, b: nat)
    requires 0.0 < mu < SCORE_TIE && i >= j + 2
    ensures ValidDetection(Link(mu, i, a)) && ValidDetection(Link(mu, j, b)) && Iou(Link(mu, i, a), Link(mu, j, b))
        == 0.0
  {
    LinkValid(mu, i, a);
    LinkValid(mu, j, b);
    LinksApart(mu, i, j);
    assert Intersection(Link(mu, i, a), Link(mu, j, b)) == 0.0;
    assert 0.0 / 2.0 == 0.0;
  }

  lemma SameLink(mu: real, i: nat, a: nat)
    requires mu > 0.0
    ensures ValidDetection(Link(mu, i, a)) && Iou(Link(mu, i, a), Link(mu, i, a)) == 1.0
  {
    LinkValid(mu, i, a);
  }

  /** Neighbours overlap by exactly the required amount. */
  lemma NextLinks(mu: real, j: nat, a: nat, b: nat)
    requires 0.0 < mu < SCORE_TIE
    ensures ValidDetection(Link(mu, j + 1, a)) && ValidDetection(Link(mu, j, b))
        && Iou(Link(mu, j + 1, a), Link(mu, j, b)) == mu
  {
    LinkValid(mu, j + 1, a);
    LinkValid(mu, j, b);
    ShiftBounds(mu);
    NextIntersection(mu, j, a, b);
    Ratio(Shift(mu), mu);
  }

  lemma NextIntersection(mu: real, j: nat, a: nat, b: nat)
    requires mu > 0.0 && 0.0 < Shift(mu) < 1.0
    ensures Intersection(Link(mu, j + 1, a), Link(mu, j, b)) == 1.0 - Shift(mu)
  {
    hide Shift;
    assert (j + 1) as real == j as real + 1.0;
    assert (j as real + 1.0) * Shift(mu) == j as real * Shift(mu) + Shift(mu);
  }

  lemma Ratio(d: real, mu: real)
    requires 0.0 < d < 1.0 && d * (1.0 + mu) == 1.0 - mu
    ensures (1.0 - d) / (1.0 + 1.0 - (1.0 - d)) == mu
  {
    assert 1.0 + 1.0 - (1.0 - d) == 1.0 + d;
    assert mu * (1.0 + d) == 1.0 - d;
    QuotientIs(1.0 - d, 1.0 + d, mu);
  }

  lemma QuotientIs(a: real, b: real, r: real)
    requires b != 0.0 && r * b == a
    ensures a / b == r
  {
  }

  // ----- assignments on the chain -----

  lemma ChainSound(n: nat, m: nat, mu: real)
    requires 0.0 < mu < SCORE_TIE
    ensures Sound(Chain(n, m, mu))
  {
    var k, p := Min(n, m), Chain(n, m, mu);
    forall i | 0 <= i < n ensures ValidDetection(p.native[i]) {
      var c := if i < k then 0 else 1;
      assert p.native[i] == Link(mu, i + 1, c);
      LinkValid(mu, i + 1, c);
    }
    forall j | 0 <= j < m ensures ValidDetection(p.served[j]) {
      var c := if j < k then 0 else 2;
      assert p.served[j] == Link(mu, j, c);
      LinkValid(mu, j, c);
    }
  }

  /** A valid pair lies on the chain and never pairs a row with an earlier column. */
  lemma ValidMeansForward(n: nat, m: nat, mu: real, e: Pair)
    requires 0.0 < mu < SCORE_TIE && Sound(Chain(n, m, mu)) && InRange(Chain(n, m, mu), e)
        && ValidPair(Chain(n, m, mu), e)
    ensures e.0 <= e.1 < Min(n, m)
  {
    var k, p := Min(n, m), Chain(n, m, mu);
    assert p.native[e.0] == Link(mu, e.0 + 1, if e.0 < k then 0 else 1);
    assert p.served[e.1] == Link(mu, e.1, if e.1 < k then 0 else 2);
    if e.1 < e.0 { FarLinks(mu, e.0 + 1, e.1, p.native[e.0].category, p.served[e.1].category); }
  }

  /** Row and column of the same position: valid, at the full tie weight. */
  lemma StraightPair(n: nat, m: nat, mu: real, i: nat)
    requires 0.0 < mu < SCORE_TIE && i < Min(n, m) && Sound(Chain(n, m, mu))
    ensures ValidPair(Chain(n, m, mu), (i, i)) && Cost(Chain(n, m, mu), (i, i)) == 1.0 - mu + SCORE_TIE
  {
    NextLinks(mu, i, 0, 0);
    var p := Chain(n, m, mu);
    assert p.native[i] == Link(mu, i + 1, 0) && p.served[i] == Link(mu, i, 0);
    assert ScoreGap(p, (i, i)) == 1.0;
  }

  /** Row and next column: the same box, free of cost. */
  lemma ShiftedPair(n: nat, m: nat, mu: real, i: nat)
    requires 0.0 < mu < SCORE_TIE && i + 1 < Min(n, m) && Sound(Chain(n, m, mu))
    ensures ValidPair(Chain(n, m, mu), (i, i + 1)) && Cost(Chain(n, m, mu), (i, i + 1)) == 0.0
  {
    SameLink(mu, i + 1, 0);
    var p := Chain(n, m, mu);
    assert p.native[i] == Link(mu, i + 1, 0) && p.served[i + 1] == Link(mu, i + 1, 0);
  }

  function Straight(k: nat): seq<Pair> {
    seq(k, i requires 0 <= i < k => (i, i))
  }

  function Shifted(k: nat): seq<Pair> {
    seq(k, i requires 0 <= i < k => (i, i + 1))
  }

  lemma StraightMatches(n: nat, m: nat, mu: real)
    requires 0.0 < mu < SCORE_TIE && Sound(Chain(n, m, mu))
    ensures Matching(Chain(n, m, mu), Straight(Min(n, m)))
  {
    hide ValidPair, Cost;
    var p, s := Chain(n, m, mu), Straight(Min(n, m));
    forall i | 0 <= i < |s| ensures InRange(p, s[i]) && ValidPair(p, s[i]) {
      StraightPair(n, m, mu, i);
    }
  }

  /** The shifted assignment: all but one row at no cost, the last row wasted on the first column. */
  function Wasteful(k: nat): seq<Pair>
    requires k >= 2
  {
    Shifted(k - 1) + [(k - 1, 0)]
  }

  lemma {:induction false} ShiftedCost(n: nat, m: nat, mu: real, j: nat)
    requires 0.0 < mu < SCORE_TIE && Sound(Chain(n, m, mu)) && j < Min(n, m)
    ensures forall i :: 0 <= i < j ==> InRange(Chain(n, m, mu), Shifted(j)[i])
    ensures TotalCost(Chain(n, m, mu), Shifted(j)) == 0.0 && Selected(Chain(n, m, mu), Shifted(j)) == Shifted(j)
  {
    hide ValidPair, Cost, Chain, TotalCost, Selected, Link;
    ChainSizes(n, m, mu);
    if j == 0 {
      NothingCosts(Chain(n, m, mu));
      assert Shifted(0) == [];
    } else {
      ShiftedCost(n, m, mu, j - 1);
      ShiftedPair(n, m, mu, j - 1);
      assert Shifted(j) == Shifted(j - 1) + [(j - 1, j)];
      CostSnoc(Chain(n, m, mu), Shifted(j - 1), (j - 1, j));
    }
  }

  lemma WastefulIs(n: nat, m: nat, mu: real)
    requires 0.0 < mu < SCORE_TIE && Sound(Chain(n, m, mu)) && Min(n, m) >= 2
    ensures var p, a := Chain(n, m, mu), Wasteful(Min(n, m));
            Complete(p, a) && TotalCost(p, a) == Penalty(p) && |Selected(p, a)| == Min(n, m) - 1
  {
    hide Cost, ValidPair, Penalty, TotalCost, Selected;
    var k, p := Min(n, m), Chain(n, m, mu);
    var last: Pair := (k - 1, 0);
    ShiftedCost(n, m, mu, k - 1);
    if ValidPair(p, last) {
      ValidMeansForward(n, m, mu, last);
      assert false;
    }
    CostSnoc(p, Shifted(k - 1), last);
  }

  /** In a complete assignment of valid pairs every column holds its own row. */
  lemma {:induction false} AllStraight(n: nat, m: nat, mu: real, a: seq<Pair>, c: nat) returns (i: nat)
    requires 0.0 < mu < SCORE_TIE && Sound(Chain(n, m, mu)) && Complete(Chain(n, m, mu), a)
    requires forall i :: 0 <= i < |a| ==> ValidPair(Chain(n, m, mu), a[i])
    requires c < Min(n, m)
    ensures i < |a| && a[i] == (c, c)
    decreases c
  {
    hide ValidPair;
    var k, p := Min(n, m), Chain(n, m, mu);
    forall x | 0 <= x < |a| ensures a[x].0 <= a[x].1 < k {
      ValidMeansForward(n, m, mu, a[x]);
    }
    i := HoldsColumn(a, k, c);
    if a[i].0 < c {
      var j := AllStraight(n, m, mu, a, a[i].0);
      assert false;
    }
  }

  lemma HoldsColumn(a: seq<Pair>, k: nat, c: nat) returns (i: nat)
    requires |a| == k && c < k && forall i :: 0 <= i < k ==> a[i].1 < k
    requires forall i, j :: 0 <= i < j < k ==> a[i].1 != a[j].1
    ensures i < k && a[i].1 == c
  {
    var s := Columns(a);
    if c !in s {
      DistinctSize(s);
      SubsetSize(Elements(s), Below(k) - {c});
      assert false;
    }
    i :| 0 <= i < |s| && s[i] == c;
  }

  lemma {:induction false} EqualCosts(p: Problem, s: seq<Pair>, c: real)
    requires Sound(p) && forall i :: 0 <= i < |s| ==> InRange(p, s[i]) && Cost(p, s[i]) == c
    ensures TotalCost(p, s) == |s| as real * c
  {
    hide Cost;
    if s != [] {
      EqualCosts(p, s[..|s| - 1], c);
      assert |s| as real == (|s| - 1) as real + 1.0;
    }
  }

  /** Keeping every pair costs the full tie weight in each of them. */
  lemma FullCost(n: nat, m: nat, mu: real, a: seq<Pair>)
    requires 0.0 < mu < SCORE_TIE && Sound(Chain(n, m, mu)) && Complete(Chain(n, m, mu), a)
    requires |Selected(Chain(n, m, mu), a)| == Min(n, m)
    ensures TotalCost(Chain(n, m, mu), a) == Min(n, m) as real * (1.0 - mu + SCORE_TIE)
  {
    hide ValidPair, Cost, TotalCost;
    var k, p := Min(n, m), Chain(n, m, mu);
    AllSelected(p, a);
    forall i | 0 <= i < |a| ensures InRange(p, a[i]) && Cost(p, a[i]) == 1.0 - mu + SCORE_TIE {
      ValidMeansForward(n, m, mu, a[i]);
      var j := AllStraight(n, m, mu, a, a[i].1);
      assert i == j;
      StraightPair(n, m, mu, a[i].1);
    }
    EqualCosts(p, a, 1.0 - mu + SCORE_TIE);
  }

  lemma {:induction false} AllSelected(p: Problem, s: seq<Pair>)
    requires Sound(p) && (forall i :: 0 <= i < |s| ==> InRange(p, s[i])) && |Selected(p, s)| == |s|
    ensures forall i :: 0 <= i < |s| ==> ValidPair(p, s[i])
  {
    hide ValidPair;
    if s != [] { AllSelected(p, s[..|s| - 1]); }
  }

  // ----- the exact guard -----

  /** The promise on one input: no matching beats a least-cost assignment in size. */
  ghost predicate MostPairs(p: Problem)
    requires Sound(p)
  {
    forall a, s :: Optimal(p, a) && Matching(p, s) ==> |s| <= |Selected(p, a)|
  }

  lemma BrokenGuard(n: nat, m: nat, mu: real)
    requires 0.0 < mu && !Guard(n, m, mu)
    ensures mu < SCORE_TIE && Min(n, m) >= 2
    ensures (Max(n, m) + 1) as real <= Min(n, m) as real * (1.0 - mu + SCORE_TIE)
  {
    var k := Min(n, m) as real;
    if mu >= SCORE_TIE { ProductMonotone(0.0, 0.0, k, mu - SCORE_TIE); }
    assert (Max(n, m) - Min(n, m) + 1) as real == (Max(n, m) + 1) as real - k;
    assert k * (1.0 - mu + SCORE_TIE) == k + k * (SCORE_TIE - mu);
    if Min(n, m) <= 1 { ProductMonotone(0.0, 0.0, 1.0 - k, SCORE_TIE - mu); }
  }

  /** Without the guard a least-cost assignment of the chain gives up a pair. */
  lemma ChainBreaks(n: nat, m: nat, mu: real)
    requires 0.0 < mu <= 1.0 && !Guard(n, m, mu)
    ensures var p := Chain(n, m, mu); Sound(p) && !MostPairs(p)
  {
    hide Guard, ValidPair, TotalCost, Selected, Chain, Matching, Straight, Wasteful;
    BrokenGuard(n, m, mu);
    ChainSound(n, m, mu);
    var k, p := Min(n, m), Chain(n, m, mu);
    StraightMatches(n, m, mu);
    WastefulIs(n, m, mu);
    ChainSizes(n, m, mu);
    var a := OptimumExists(p);
    var w := Wasteful(k);
    if |Selected(p, a)| == k {
      FullCost(n, m, mu, a);
      assert Optimal(p, w);
      assert |Straight(k)| > |Selected(p, w)|;
    } else {
      SelectedAtMost(p, a);
      assert |Straight(k)| > |Selected(p, a)|;
    }
  }

  lemma SelectedAtMost(p: Problem, a: seq<Pair>)
    requires Sound(p) && Complete(p, a)
    ensures |Selected(p, a)| <= Rank(p)
  {
  }

  lemma ChainSizes(n: nat, m: nat, mu: real)
    requires mu > 0.0
    ensures var p := Chain(n, m, mu);
            |p.native| == n && |p.served| == m && Rank(p) == Min(n, m) && Penalty(p) == (Max(n, m) + 1) as real
              && |Straight(Min(n, m))| == Min(n, m)
  {
  }

  /** The promise holds on all inputs of the given sizes and required overlap exactly under the guard. */
  lemma GuardIsExact(n: nat, m: nat, mu: real)
    requires 0.0 < mu <= 1.0
    ensures Guard(n, m, mu) <==>
            forall p: Problem :: Sound(p) && |p.native| == n && |p.served| == m && p.minIou == mu ==> MostPairs(p)
  {
    hide Guard, Sound, MostPairs;
    if Guard(n, m, mu) {
      forall p: Problem | Sound(p) && |p.native| == n && |p.served| == m && p.minIou == mu ensures MostPairs(p) {
        GuardSuffices(p);
      }
    } else {
      ChainBreaks(n, m, mu);
      ChainSizes(n, m, mu);
      assert Chain(n, m, mu).minIou == mu;
    }
  }

  lemma GuardSuffices(p: Problem)
    requires Sound(p) && Guard(|p.native|, |p.served|, p.minIou)
    ensures MostPairs(p)
  {
    hide Selected, Optimal, Matching;
    assert PenaltyDominates(p);
    forall a, s | Optimal(p, a) && Matching(p, s) ensures OneToOne(p, a) && |s| <= |Selected(p, a)| {
      assert OneToOne(p, a) by { OptimalIsOneToOne(p, a); }
      MaximumCardinality(p, a, s);
    }
  }

  lemma OptimalIsOneToOne(p: Problem, a: seq<Pair>)
    requires Sound(p) && Optimal(p, a)
    ensures OneToOne(p, a)
  {
  }
}
