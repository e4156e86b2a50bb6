/** The doubling-then-bisecting strategy needs logarithmically many trials. */
module ExponentialBound {
  import opened Prelude
  import opened BatchEstimation
  import opened SearchInvariants

  function Pow2(k: nat): pos {
    if k == 0 then 1 else 2 * Pow2(k - 1)
  }

  /** The least exponent whose power of two reaches `k`. */
  function CeilLog2(k: nat): (l: nat)
    ensures k <= Pow2(l)
    ensures l > 0 ==> Pow2(l - 1) < k
  {
    if k <= 1 then 0 else CeilLog2((k + 1) / 2) + 1
  }

  lemma {:induction false} PowMonotone(a: nat, b: nat)
    requires a <= b
    ensures Pow2(a) <= Pow2(b)
  {
    if a < b { PowMonotone(a, b - 1); }
  }

  lemma {:induction false} PowReflects(a: nat, b: nat)
    requires Pow2(a) < Pow2(b)
    ensures a < b
  {
    if b <= a { PowMonotone(b, a); }
  }

  /** A gap that fits under a power of two needs at most that many bisections. */
  lemma {:induction false} LogBelow(k: nat, e: nat)
    requires k <= Pow2(e)
    ensures CeilLog2(k) <= e
  {
    var l := CeilLog2(k);
    if l > e { PowMonotone(e, l - 1); }
  }

  lemma LogHalves(gap: nat, rest: nat)
    requires gap >= 2 && rest <= (gap + 1) / 2
    ensures CeilLog2(rest) + 1 <= CeilLog2(gap)
  {
    var e := CeilLog2(gap) - 1;
    LogBelow(rest, e);
  }

  /** The pending candidate of a discovering state, and the trials spent to get there. */
  ghost predicate Scheduled(s: BatchSearch, c: int, ceiling: nat) {
    if s.lower == 0 then s.trials == [] && s.upper == None
    else if s.upper.None? then
      0 < |s.trials| <= CeilLog2(ceiling) && s.lower == Pow2(|s.trials| - 1) && c == Min(2 * s.lower, ceiling)
    else
      && s.upper.value - s.lower >= 2 && c == (s.lower + s.upper.value) / 2
      && |s.trials| + CeilLog2(s.upper.value - s.lower) <= 2 * CeilLog2(ceiling)
  }

  /** The doubling phase has measured every power of two; bisection halves what is left. */
  ghost predicate OnSchedule(s: BatchSearch, ceiling: nat) {
    if s.status != Searching then |s.trials| <= 2 * CeilLog2(ceiling) + 2
    else if s.confirming then |s.trials| <= 2 * CeilLog2(ceiling) + 1
    else forall c :: Discovering(s, c, ceiling) ==> Scheduled(s, c, ceiling)
  }

  lemma SameCandidate(s: BatchSearch, c: int, d: int, ceiling: nat)
    requires Discovering(s, c, ceiling) && s.nextBatch.Some? && s.nextBatch.value == d * s.profile.World()
    ensures c == d
  {
    MulDivExact(c, s.profile.World());
    MulDivExact(d, s.profile.World());
  }

  /** After a bound moved: the trials spent, with nothing pending yet. */
  ghost predicate Spending(s: BatchSearch, ceiling: nat) {
    if s.upper.None? then
      0 < |s.trials| <= CeilLog2(ceiling) + 1 && (s.lower == ceiling || s.lower == Pow2(|s.trials| - 1))
    else
      s.lower < s.upper.value && |s.trials| + CeilLog2(s.upper.value - s.lower) <= 2 * CeilLog2(ceiling)
  }

  lemma ChoosingBounds(s: BatchSearch, ceiling: nat)
    requires Choosing(s, ceiling)
    ensures 0 < s.lower <= ceiling
  {
  }

  lemma DoublingCandidate(s: BatchSearch, ceiling: nat)
    requires s.settings.strategy == ExponentialBinaryV1 && s.upper.None? && 0 < s.lower < ceiling
        && Spending(s, ceiling)
    ensures var c := Min(2 * s.lower, ceiling);
            Candidate(s, ceiling) == Ok(c) && Align(c, s.lower, s.settings) == c && Scheduled(s, c, ceiling)
  {
    hide CeilLog2, Pow2;
    CeilLogReaches(ceiling);
    PowReflects(|s.trials| - 1, CeilLog2(ceiling));
  }

  lemma CeilLogReaches(k: nat)
    ensures k <= Pow2(CeilLog2(k))
  {
  }

  lemma BisectedCandidate(s: BatchSearch, ceiling: nat)
    requires s.settings.strategy == ExponentialBinaryV1 && s.upper.Some? && 0 < s.lower && s.upper.value - s.lower >= 2
    requires Spending(s, ceiling)
    ensures var c := (s.lower + s.upper.value) / 2;
            Candidate(s, ceiling) == Ok(c) && Align(c, s.lower, s.settings) == c && Scheduled(s, c, ceiling)
  {
    hide CeilLog2, Pow2;
  }

  lemma NextCandidate(s: BatchSearch, ceiling: nat) returns (c: nat, t: BatchSearch)
    requires s.settings.strategy == ExponentialBinaryV1 && Choosing(s, ceiling) && Spending(s, ceiling)
    requires s.lower != ceiling && (s.upper.Some? ==> s.upper.value - s.lower != 1)
    ensures Advance(s, ceiling) == Ok(t) && t == s.(nextBatch := t.nextBatch) && Scheduled(s, c, ceiling)
    ensures t.nextBatch.Some? && t.nextBatch.value == c * s.profile.World()
  {
    hide Choosing, CeilLog2, Pow2, Candidate, Align, Scheduled;
    ChoosingBounds(s, ceiling);
    if s.upper.None? {
      DoublingCandidate(s, ceiling);
      c := Min(2 * s.lower, ceiling);
    } else {
      BisectedCandidate(s, ceiling);
      c := (s.lower + s.upper.value) / 2;
    }
    t := Advance(s, ceiling).value;
  }

  lemma ChoosingOnSchedule(s: BatchSearch, ceiling: nat)
    requires s.settings.strategy == ExponentialBinaryV1 && Choosing(s, ceiling) && Spending(s, ceiling)
    ensures Advance(s, ceiling).Ok? && OnSchedule(Advance(s, ceiling).value, ceiling)
  {
    if s.lower != ceiling && (s.upper.Some? ==> s.upper.value - s.lower != 1) {
      var d, t := NextCandidate(s, ceiling);
      forall c | Discovering(t, c, ceiling) ensures Scheduled(t, c, ceiling) {
        SameCandidate(t, c, d, ceiling);
      }
    }
  }

  lemma SuccessSpending(s: BatchSearch, c: int, trial: Trial, ceiling: nat)
    requires s.settings.strategy == ExponentialBinaryV1
    requires Discovering(s, c, ceiling) && Scheduled(s, c, ceiling)
    ensures Spending(s.(trials := s.trials + [trial], lower := c), ceiling)
  {
    hide CeilLog2;
    if s.upper.Some? {
      LogHalves(s.upper.value - s.lower, s.upper.value - c);
    }
  }

  lemma FailureSpending(s: BatchSearch, c: int, trial: Trial, ceiling: nat)
    requires s.settings.strategy == ExponentialBinaryV1 && c != 1
    requires Discovering(s, c, ceiling) && Scheduled(s, c, ceiling)
    ensures Spending(s.(trials := s.trials + [trial], upper := Some(c)), ceiling)
  {
    hide CeilLog2, Pow2;
    FirstFailureLog(s.lower, c, |s.trials|);
    if s.upper.Some? {
      LogHalves(s.upper.value - s.lower, c - s.lower);
    }
  }

  /** The first failure leaves a gap no wider than the last success. */
  lemma FirstFailureLog(lower: nat, c: int, trials: nat)
    ensures lower < c <= 2 * lower && trials > 0 && lower == Pow2(trials - 1) ==> CeilLog2(c - lower) <= trials - 1
  {
    if lower < c <= 2 * lower && trials > 0 && lower == Pow2(trials - 1) {
      LogBelow(c - lower, trials - 1);
    }
  }

  lemma StepOnSchedule(s: BatchSearch, trial: Trial, ceiling: nat)
    requires OnSchedule(s, ceiling) && s.settings.strategy == ExponentialBinaryV1
    requires SoundBelow(s, ceiling) && ObserveBelow(s, trial, ceiling).Ok?
    ensures OnSchedule(ObserveBelow(s, trial, ceiling).value, ceiling)
  {
    if !s.confirming {
      var c :| Discovering(s, c, ceiling);
      var outcome := Observation(trial, s.profile, s.settings);
      if outcome == Success {
        SuccessChoosing(s, c, trial, ceiling);
        SuccessSpending(s, c, trial, ceiling);
        ChoosingOnSchedule(s.(trials := s.trials + [trial], lower := c), ceiling);
      } else if outcome == Oom || outcome == MemoryLimit {
        ObserveAdvances(s, c, trial, ceiling);
        if c != 1 {
          FailureChoosing(s, c, trial, ceiling);
          FailureSpending(s, c, trial, ceiling);
          ChoosingOnSchedule(s.(trials := s.trials + [trial], upper := Some(c)), ceiling);
        }
      }
    }
  }

  /** Doubling and bisection together: at most twice the logarithm of the ceiling, plus two. */
  lemma {:induction false} LogarithmicTrials(profile: TrainingProfile, settings: Settings, trials: seq<Trial>)
    requires settings.strategy == ExponentialBinaryV1 && Replay(profile, settings, trials).Ok?
    ensures OnSchedule(Replay(profile, settings, trials).value, Ceiling(profile, settings))
    ensures |trials| <= 2 * CeilLog2(Ceiling(profile, settings)) + 2
  {
    EveryRunSound(profile, settings, trials);
    RunAppends(profile, settings, trials);
    if trials != [] {
      var prefix, last := trials[..|trials| - 1], trials[|trials| - 1];
      LogarithmicTrials(profile, settings, prefix);
      EveryRunSound(profile, settings, prefix);
      RunAppends(profile, settings, prefix);
      StepOnSchedule(Replay(profile, settings, prefix).value, last, Ceiling(profile, settings));
    }
  }
}
