/** Filling the splits after coverage, and the whole assignment. */
module SplitFilling {
  import opened Prelude
  import opened SplitAssignment

  // ----- targets and bookkeeping -----

  /** Keys chosen for each split. */
  datatype Chosen = Chosen(train: seq<Key>, val: seq<Key>, test: seq<Key>)

  function Of(c: Chosen, s: Split): seq<Key> {
    match s
    case Train => c.train
    case Val => c.val
    case Test => c.test
  }

  function Put(c: Chosen, s: Split, key: Key): Chosen {
    match s
    case Train => c.(train := c.train + [key])
    case Val => c.(val := c.val + [key])
    case Test => c.(test := c.test + [key])
  }

  function Target(n: nat, s: Split): nat {
    if s == Train then n - n / 10 - n / 10 else n / 10
  }

  function Ratio(s: Split): real {
    if s == Train then 0.8 else 0.1
  }

  /** How many images of some groups have a feature. */
  function HavingIn(group: seq<Image>, f: Feature): nat {
    if group == [] then 0 else HavingIn(group[..|group| - 1], f) + if f in Features(group[|group| - 1]) then 1 else 0
  }

  function Having(groups: Groups, keys: seq<Key>, f: Feature): nat
    requires Known(groups, keys)
  {
    if keys == [] then 0 else Having(groups, keys[..|keys| - 1], f) + HavingIn(groups[keys[|keys| - 1]], f)
  }

  predicate KnownAll(groups: Groups, c: Chosen) {
    Known(groups, c.train) && Known(groups, c.val) && Known(groups, c.test)
  }

  function Count(groups: Groups, c: Chosen, s: Split): nat
    requires KnownAll(groups, c)
  {
    Total(groups, Of(c, s))
  }

  /** What a choice depends on: the groups, the images to distribute, their feature totals and what is chosen so far. */
  datatype View = View(groups: Groups, n: nat, totals: map<Feature, nat>, chosen: Chosen)

  predicate Ready(v: View) {
    KnownAll(v.groups, v.chosen) && forall f :: f in v.totals
  }

  predicate Fits(v: View, size: nat, s: Split)
    requires Ready(v)
  {
    Count(v.groups, v.chosen, s) + size <= Target(v.n, s)
  }

  /** How far a split is short of its share of the group's features. */
  function Shortage(v: View, features: set<Feature>, s: Split, fs: seq<Feature>): real
    requires Ready(v)
  {
    if fs == [] then 0.0
    else
      var f := fs[|fs| - 1];
      Shortage(v, features, s, fs[..|fs| - 1])
      + if f in features && v.totals[f] > 0 then
          (v.totals[f] as real * Ratio(s) - Having(v.groups, Of(v.chosen, s), f) as real) / v.totals[f] as real
        else 0.0
  }

  function Vacancy(v: View, s: Split): real
    requires Ready(v)
  {
    if Target(v.n, s) == 0 then 0.0
    else (Target(v.n, s) - Count(v.groups, v.chosen, s)) as real / Target(v.n, s) as real
  }

  /** Larger shortage first, then the emptier split; the order of the splits decides ties. */
  predicate Preferred(v: View, features: set<Feature>, a: Split, b: Split)
    requires Ready(v)
  {
    var x, y := Shortage(v, features, a, FEATURES), Shortage(v, features, b, FEATURES);
    x > y || (x == y && Vacancy(v, a) > Vacancy(v, b))
  }

  function Excess(v: View, size: nat, s: Split): int
    requires Ready(v)
  {
    Count(v.groups, v.chosen, s) + size - Target(v.n, s)
  }

  function Better(v: View, size: nat, features: set<Feature>, a: Split, b: Split): Split
    requires Ready(v)
  {
    if !Fits(v, size, b) then a else if !Fits(v, size, a) || Preferred(v, features, b, a) then b else a
  }

  function Less(v: View, size: nat, a: Split, b: Split): Split
    requires Ready(v)
  {
    if Excess(v, size, b) < Excess(v, size, a) then b else a
  }

  predicate SomeFits(v: View, size: nat)
    requires Ready(v)
  {
    Fits(v, size, Train) || Fits(v, size, Val) || Fits(v, size, Test)
  }

  /** The preferred split with room; when no split has room, the one exceeding its target least. */
  function ChooseSplit(v: View, group: seq<Image>): (r: Split)
    requires Ready(v)
    ensures SomeFits(v, |group|) ==>
              Fits(v, |group|, r) && forall s: Split :: Fits(v, |group|, s) ==>
                !Preferred(v, GroupFeatures(group), s, r)
    ensures !SomeFits(v, |group|) ==> forall s: Split :: Excess(v, |group|, r) <= Excess(v, |group|, s)
  {
    var features := GroupFeatures(group);
    if SomeFits(v, |group|) then Better(v, |group|, features, Better(v, |group|, features, Train, Val), Test)
    else Less(v, |group|, Less(v, |group|, Train, Val), Test)
  }

  // ----- filling -----

  /** Place the remaining groups one after the other. */
  function Fill(v: View, keys: seq<Key>): Chosen
    requires Ready(v) && Known(v.groups, keys)
    decreases |keys|
  {
    if keys == [] then v.chosen
    else
      AfterReady(v, keys[0]);
      Fill(After(v, keys[0]), keys[1..])
  }

  function After(v: View, key: Key): View
    requires Ready(v) && key in v.groups
  {
    v.(chosen := Put(v.chosen, ChooseSplit(v, v.groups[key]), key))
  }

  lemma AfterReady(v: View, key: Key)
    requires Ready(v) && key in v.groups && v.groups[key] != []
    ensures Ready(After(v, key))
  {
    hide ChooseSplit;
    PutReady(v.groups, v.chosen, ChooseSplit(v, v.groups[key]), key);
  }

  lemma PutReady(groups: Groups, c: Chosen, to: Split, key: Key)
    requires KnownAll(groups, c) && key in groups && groups[key] != []
    ensures KnownAll(groups, Put(c, to, key))
  {
  }

  /** One more key: its split grows, the others stay. */
  lemma PutCounts(groups: Groups, c: Chosen, to: Split, key: Key, s: Split)
    requires KnownAll(groups, c) && key in groups && groups[key] != []
    ensures KnownAll(groups, Put(c, to, key))
    ensures Count(groups, Put(c, to, key), s) == Count(groups, c, s) + if s == to then |groups[key]| else 0
    ensures Covered(groups, Of(c, s)) <= Covered(groups, Of(Put(c, to, key), s))
    ensures Sum(groups, Put(c, to, key)) == Sum(groups, c) + |groups[key]|
    ensures Listed(Put(c, to, key)) == Listed(c) + multiset{key}
  {
    hide GroupFeatures;
    PutReady(groups, c, to, key);
    SnocTotal(groups, Of(c, to), key);
  }

  lemma SnocTotal(groups: Groups, keys: seq<Key>, key: Key)
    requires Known(groups, keys) && key in groups && groups[key] != []
    ensures Known(groups, keys + [key]) && Total(groups, keys + [key]) == Total(groups, keys) + |groups[key]|
    ensures Covered(groups, keys + [key]) == Covered(groups, keys) + GroupFeatures(groups[key])
  {
    assert (keys + [key])[..|keys|] == keys;
  }

  function Listed(c: Chosen): multiset<Key> {
    multiset(c.train) + multiset(c.val) + multiset(c.test)
  }

  function Sum(groups: Groups, c: Chosen): nat
    requires KnownAll(groups, c)
  {
    Total(groups, c.train) + Total(groups, c.val) + Total(groups, c.test)
  }

  /** Nothing shrinks. */
  ghost predicate Grows(groups: Groups, c: Chosen, c2: Chosen) {
    && KnownAll(groups, c) && KnownAll(groups, c2)
    && (forall s: Split :: Covered(groups, Of(c, s)) <= Covered(groups, Of(c2, s)))
    && (forall s: Split :: Count(groups, c, s) <= Count(groups, c2, s))
  }

  lemma PutGrows(groups: Groups, c: Chosen, to: Split, key: Key)
    requires KnownAll(groups, c) && key in groups && groups[key] != []
    ensures Grows(groups, c, Put(c, to, key))
  {
    hide Covered, Count, Listed, Sum, Put;
    PutReady(groups, c, to, key);
    forall s: Split
      ensures Covered(groups, Of(c, s)) <= Covered(groups, Of(Put(c, to, key), s))
          && Count(groups, c, s) <= Count(groups, Put(c, to, key), s)
    {
      PutCounts(groups, c, to, key, s);
    }
  }

  lemma GrowsChain(groups: Groups, a: Chosen, b: Chosen, c: Chosen)
    requires Grows(groups, a, b) && Grows(groups, b, c)
    ensures Grows(groups, a, c)
  {
    hide Covered, Known, Total;
    forall s: Split ensures Covered(groups, Of(a, s)) <= Covered(groups, Of(c, s))
      && Count(groups, a, s) <= Count(groups, c, s) {
      assert Covered(groups, Of(a, s)) <= Covered(groups, Of(b, s)) && Count(groups, a, s) <= Count(groups, b, s);
    }
  }

  /** Filling loses no key, keeps every image counted once and never uncovers a split. */
  lemma {:induction false} FillKeeps(v: View, keys: seq<Key>)
    requires Ready(v) && Known(v.groups, keys)
    ensures var c := Fill(v, keys);
            && Grows(v.groups, v.chosen, c) && Listed(c) == Listed(v.chosen) + multiset(keys)
            && Sum(v.groups, c) == Sum(v.groups, v.chosen) + Total(v.groups, keys)
    decreases |keys|
  {
    hide ChooseSplit, Covered, Listed, Count, Total, Sum, Grows, KnownAll, Put;
    if keys == [] {
      GrowsItself(v.groups, v.chosen);
      NoKeys(v.groups);
      assert multiset(keys) == multiset{};
    } else {
      var key, to := keys[0], ChooseSplit(v, v.groups[keys[0]]);
      AfterReady(v, key);
      PutCounts(v.groups, v.chosen, to, key, to);
      PutGrows(v.groups, v.chosen, to, key);
      FillKeeps(After(v, key), keys[1..]);
      assert keys == [key] + keys[1..];
      TotalCons(v.groups, key, keys[1..]);
      GrowsChain(v.groups, v.chosen, After(v, key).chosen, Fill(v, keys));
    }
  }

  lemma GrowsItself(groups: Groups, c: Chosen)
    requires KnownAll(groups, c)
    ensures Grows(groups, c, c)
  {
  }

  lemma SumOfCounts(groups: Groups, c: Chosen)
    requires KnownAll(groups, c)
    ensures Sum(groups, c) == Count(groups, c, Train) + Count(groups, c, Val) + Count(groups, c, Test)
  {
  }

  /** Every remaining group finds a split with room at its turn. */
  predicate AlwaysRoom(v: View, keys: seq<Key>)
    requires Ready(v) && Known(v.groups, keys)
    decreases |keys|
  {
    keys == [] || (SomeFits(v, |v.groups[keys[0]]|)
      && (AfterReady(v, keys[0]); AlwaysRoom(After(v, keys[0]), keys[1..])))
  }

  predicate WithinTargets(v: View)
    requires Ready(v)
  {
    forall s: Split :: Count(v.groups, v.chosen, s) <= Target(v.n, s)
  }

  predicate OnTarget(groups: Groups, n: nat, c: Chosen)
    requires KnownAll(groups, c)
  {
    forall s: Split :: Count(groups, c, s) == Target(n, s)
  }

  lemma TargetsAddUp(n: nat)
    ensures Target(n, Train) + Target(n, Val) + Target(n, Test) == n
  {
  }

  /** Sizes come out exactly on target if and only if every remaining group found room. */
  lemma {:induction false} ExactIffAlwaysRoom(v: View, keys: seq<Key>)
    requires Ready(v) && Known(v.groups, keys) && WithinTargets(v)
    requires Sum(v.groups, v.chosen) + Total(v.groups, keys) == v.n
    ensures KnownAll(v.groups, Fill(v, keys))
    ensures OnTarget(v.groups, v.n, Fill(v, keys)) <==> AlwaysRoom(v, keys)
    decreases |keys|
  {
    hide ChooseSplit, Total, Target, Count, Sum, Fill, Grows, Covered, Put, WithinTargets, OnTarget, SomeFits, Listed;
    FillKeeps(v, keys);
    GrownKnown(v.groups, v.chosen, Fill(v, keys));
    if keys == [] {
      NoKeys(v.groups);
      FillNothing(v);
      FullIsExact(v);
    } else {
      var key := keys[0];
      AfterReady(v, key);
      FillStep(v, keys);
      var v2 := After(v, key);
      PutCounts(v.groups, v.chosen, ChooseSplit(v, v.groups[key]), key, Train);
      assert keys == [key] + keys[1..];
      TotalCons(v.groups, key, keys[1..]);
      if SomeFits(v, |v.groups[key]|) {
        StillWithin(v, key);
        ExactIffAlwaysRoom(v2, keys[1..]);
      } else {
        FillKeeps(v2, keys[1..]);
        OverflowStays(v, key, Fill(v, keys));
      }
    }
  }

  lemma GrownKnown(groups: Groups, c: Chosen, c2: Chosen)
    requires Grows(groups, c, c2)
    ensures KnownAll(groups, c2)
  {
  }

  lemma FillNothing(v: View)
    requires Ready(v)
    ensures Fill(v, []) == v.chosen
  {
  }

  lemma FillStep(v: View, keys: seq<Key>)
    requires Ready(v) && Known(v.groups, keys) && keys != []
    ensures Ready(After(v, keys[0])) && Fill(v, keys) == Fill(After(v, keys[0]), keys[1..])
  {
    AfterReady(v, keys[0]);
  }

  /** With nothing left, staying within the targets means meeting them. */
  lemma FullIsExact(v: View)
    requires Ready(v) && WithinTargets(v) && Sum(v.groups, v.chosen) == v.n
    ensures OnTarget(v.groups, v.n, v.chosen)
  {
    hide Total, Target;
    TargetsAddUp(v.n);
    SumOfCounts(v.groups, v.chosen);
    assert Count(v.groups, v.chosen, Train) <= Target(v.n, Train) && Count(v.groups, v.chosen, Val) <= Target(v.n, Val)
           && Count(v.groups, v.chosen, Test) <= Target(v.n, Test);
  }

  /** A group that fits keeps every split within its target. */
  lemma StillWithin(v: View, key: Key)
    requires Ready(v) && key in v.groups && v.groups[key] != [] && WithinTargets(v) && SomeFits(v, |v.groups[key]|)
    ensures Ready(After(v, key)) && WithinTargets(After(v, key))
  {
    hide Count, Target, ChooseSplit, Put;
    AfterReady(v, key);
    var to := ChooseSplit(v, v.groups[key]);
    ChosenFits(v, v.groups[key]);
    forall s: Split ensures Count(v.groups, After(v, key).chosen, s) <= Target(v.n, s) {
      PutCounts(v.groups, v.chosen, to, key, s);
    }
  }

  /** A group that fits nowhere pushes its split beyond the target for good. */
  lemma OverflowStays(v: View, key: Key, c: Chosen)
    requires Ready(v) && key in v.groups && v.groups[key] != [] && !SomeFits(v, |v.groups[key]|)
    requires Grows(v.groups, After(v, key).chosen, c)
    ensures KnownAll(v.groups, c) && !OnTarget(v.groups, v.n, c)
  {
    hide Count, Target, ChooseSplit, Put, Covered;
    var to := ChooseSplit(v, v.groups[key]);
    ChosenFits(v, v.groups[key]);
    PutCounts(v.groups, v.chosen, to, key, to);
    assert Count(v.groups, After(v, key).chosen, to) <= Count(v.groups, c, to);
    assert Count(v.groups, c, to) > Target(v.n, to);
  }

  lemma NoKeys(groups: Groups)
    ensures Known(groups, []) && Total(groups, []) == 0
  {
  }

  lemma ChosenFits(v: View, group: seq<Image>)
    requires Ready(v)
    ensures SomeFits(v, |group|) <==> Fits(v, |group|, ChooseSplit(v, group))
  {
  }

  /** Groups of one image always find room. */
  lemma {:induction false} SingletonsAlwaysFit(v: View, keys: seq<Key>)
    requires Ready(v) && Known(v.groups, keys) && WithinTargets(v)
    requires Sum(v.groups, v.chosen) + Total(v.groups, keys) == v.n
    requires forall i :: 0 <= i < |keys| ==> |v.groups[keys[i]]| == 1
    ensures AlwaysRoom(v, keys)
    decreases |keys|
  {
    hide ChooseSplit, Total, Target, Count, Sum, Put, WithinTargets, SomeFits, Covered, Listed;
    if keys != [] {
      var key := keys[0];
      assert keys == [key] + keys[1..];
      TotalCons(v.groups, key, keys[1..]);
      VacantFits(v, Total(v.groups, keys));
      StillWithin(v, key);
      PutCounts(v.groups, v.chosen, ChooseSplit(v, v.groups[key]), key, Train);
      SingletonsAlwaysFit(After(v, key), keys[1..]);
    }
  }

  lemma VacantFits(v: View, left: nat)
    requires Ready(v) && left > 0 && Sum(v.groups, v.chosen) + left == v.n
    ensures SomeFits(v, 1)
  {
    hide Total, Target;
    TargetsAddUp(v.n);
    SumOfCounts(v.groups, v.chosen);
  }
}
