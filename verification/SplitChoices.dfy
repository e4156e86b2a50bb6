/** What the split choices optimise, written out over the five features and in counts of images. */
module SplitChoices {
  import opened Prelude
  import opened SplitAssignment
  import opened SplitFilling
  import opened DatasetSplits

  // ----- counting -----

  /** The images behind these keys, one group after the other. */
  function Images(groups: Groups, keys: seq<Key>): seq<Image>
    requires Known(groups, keys)
  {
    if keys == [] then [] else Images(groups, keys[..|keys| - 1]) + groups[keys[|keys| - 1]]
  }

  /** The positions of the images with a feature. */
  function Positions(images: seq<Image>, f: Feature): set<nat> {
    set i | 0 <= i < |images| && f in Features(images[i])
  }

  lemma PositionsSnoc(images: seq<Image>, image: Image, f: Feature)
    ensures |Positions(images + [image], f)| == |Positions(images, f)| + if f in Features(image) then 1 else 0
  {
    hide Features;
    var all, before := images + [image], Positions(images, f);
    if f in Features(image) {
      assert Positions(all, f) == before + {|images|};
    } else {
      assert Positions(all, f) == before;
    }
  }

  lemma {:induction false} HavingInCounts(images: seq<Image>, f: Feature)
    ensures HavingIn(images, f) == |Positions(images, f)|
  {
    hide Features;
    if images == [] {
      assert Positions(images, f) == {};
    } else {
      var prefix, last := images[..|images| - 1], images[|images| - 1];
      HavingInCounts(prefix, f);
      PositionsSnoc(prefix, last, f);
      assert images == prefix + [last];
    }
  }

  lemma {:induction false} HavingInJoins(a: seq<Image>, b: seq<Image>, f: Feature)
    ensures HavingIn(a + b, f) == HavingIn(a, f) + HavingIn(b, f)
  {
    if b == [] {
      assert a + b == a;
    } else {
      var last := |b| - 1;
      HavingInJoins(a, b[..last], f);
      assert (a + b)[..|a + b| - 1] == a + b[..last];
    }
  }

  /** The bookkeeping counts images: all of them, and those with a feature. */
  lemma {:induction false} CountsAre(groups: Groups, keys: seq<Key>, f: Feature)
    requires Known(groups, keys)
    ensures Total(groups, keys) == |Images(groups, keys)|
    ensures Having(groups, keys, f) == |Positions(Images(groups, keys), f)|
  {
    hide Positions;
    HavingInCounts(Images(groups, keys), f);
    if keys != [] {
      var last := |keys| - 1;
      CountsAre(groups, keys[..last], f);
      HavingInCounts(Images(groups, keys[..last]), f);
      HavingInJoins(Images(groups, keys[..last]), groups[keys[last]], f);
    }
  }

  /** A tenth of the images, rounded down, for validation and for testing each; the rest for training. */
  lemma TargetsAre(n: nat)
    ensures Target(n, Val) == Target(n, Test) && 10 * Target(n, Val) <= n < 10 * Target(n, Val) + 10
    ensures Target(n, Train) == n - 2 * Target(n, Val)
  {
  }

  // ----- the split of a remaining group -----

  /** Eight tenths for training, one tenth each for validation and testing. */
  function Share(s: Split): real {
    match s
    case Train => 0.8
    case Val => 0.1
    case Test => 0.1
  }

  /** What this feature says for a split: its share of all images less the share of the feature's images it has. */
  function Missing(v: View, features: set<Feature>, s: Split, f: Feature): real
    requires Ready(v)
  {
    if f in features && v.totals[f] > 0 then
      Share(s) - Having(v.groups, Of(v.chosen, s), f) as real / v.totals[f] as real
    else 0.0
  }

  /** Written out over the five features. */
  function Deficit(v: View, features: set<Feature>, s: Split): real
    requires Ready(v)
  {
    Missing(v, features, s, Class1) + Missing(v, features, s, Class2) + Missing(v, features, s, Class3)
    + Missing(v, features, s, Class4) + Missing(v, features, s, Background)
  }

  /** The place of a split in the fixed order. */
  function Rank(s: Split): nat {
    match s
    case Train => 0
    case Val => 1
    case Test => 2
  }

  /** Free places by share: `a` has a larger part of its target left than `b`. */
  predicate Emptier(v: View, a: Split, b: Split)
    requires Ready(v)
  {
    var x, y := Target(v.n, a), Target(v.n, b);
    (x - Count(v.groups, v.chosen, a)) * y > (y - Count(v.groups, v.chosen, b)) * x
  }

  /** With room: the largest deficit, then the emptier split, then the fixed order. */
  predicate Wins(v: View, features: set<Feature>, r: Split, s: Split)
    requires Ready(v)
  {
    var x, y := Deficit(v, features, r), Deficit(v, features, s);
    x > y || (x == y && (Emptier(v, r, s) || (!Emptier(v, s, r) && Rank(r) <= Rank(s))))
  }

  /** Without room: the smallest excess over the target, then the fixed order. */
  predicate Overflows(v: View, size: nat, r: Split, s: Split)
    requires Ready(v)
  {
    var x, y := Count(v.groups, v.chosen, r) + size - Target(v.n, r),
      Count(v.groups, v.chosen, s) + size - Target(v.n, s);
    x < y || (x == y && Rank(r) <= Rank(s))
  }

  predicate HasRoom(v: View, size: nat, s: Split)
    requires Ready(v)
  {
    Count(v.groups, v.chosen, s) + size <= Target(v.n, s)
  }

  /** The split a group must be given. */
  ghost predicate Rightful(v: View, group: seq<Image>, r: Split)
    requires Ready(v)
  {
    if exists s: Split :: HasRoom(v, |group|, s) then
      HasRoom(v, |group|, r) && forall s: Split :: HasRoom(v, |group|, s) ==> Wins(v, GroupFeatures(group), r, s)
    else forall s: Split :: Overflows(v, |group|, r, s)
  }

  lemma DivideDifference(t: real, r: real, h: real)
    requires t > 0.0
    ensures (t * r - h) / t == r - h / t
  {
    assert (t * r - h) / t * t == t * r - h;
    assert (r - h / t) * t == r * t - h;
  }

  lemma MissingIs(v: View, features: set<Feature>, s: Split, f: Feature)
    requires Ready(v)
    ensures Missing(v, features, s, f)
         == if f in features && v.totals[f] > 0 then
              (v.totals[f] as real * Ratio(s) - Having(v.groups, Of(v.chosen, s), f) as real) / v.totals[f] as real
            else 0.0
  {
    if f in features && v.totals[f] > 0 {
      DivideDifference(v.totals[f] as real, Ratio(s), Having(v.groups, Of(v.chosen, s), f) as real);
    }
  }

  lemma ShortageSnoc(v: View, features: set<Feature>, s: Split, fs: seq<Feature>, f: Feature)
    requires Ready(v)
    ensures Shortage(v, features, s, fs + [f]) == Shortage(v, features, s, fs) + Missing(v, features, s, f)
  {
    MissingIs(v, features, s, f);
    assert (fs + [f])[..|fs|] == fs;
  }

  lemma ShortageIsDeficit(v: View, features: set<Feature>, s: Split)
    requires Ready(v)
    ensures Shortage(v, features, s, FEATURES) == Deficit(v, features, s)
  {
    hide Missing;
    assert Shortage(v, features, s, []) == 0.0;
    hide Shortage;
    ShortageSnoc(v, features, s, [], Class1);
    ShortageSnoc(v, features, s, [Class1], Class2);
    ShortageSnoc(v, features, s, [Class1, Class2], Class3);
    ShortageSnoc(v, features, s, [Class1, Class2, Class3], Class4);
    ShortageSnoc(v, features, s, [Class1, Class2, Class3, Class4], Background);
    assert [] + [Class1] == [Class1] && [Class1] + [Class2] == [Class1, Class2]
      && [Class1, Class2] + [Class3] == [Class1, Class2, Class3]
      && [Class1, Class2, Class3] + [Class4] == [Class1, Class2, Class3, Class4]
      && [Class1, Class2, Class3, Class4] + [Background] == FEATURES;
  }

  /** Comparing two fractions without dividing. */
  lemma CrossMultiply(a: int, x: int, b: int, y: int)
    requires x > 0 && y > 0
    ensures a as real / x as real > b as real / y as real <==> a * y > b * x
  {
    var p, q := a as real / x as real, b as real / y as real;
    assert p * x as real == a as real && q * y as real == b as real;
    var z := x as real * y as real;
    assert z > 0.0 && p * z == a as real * y as real && q * z == b as real * x as real;
    assert a as real * y as real == (a * y) as real && b as real * x as real == (b * x) as real;
    Scaled(p, q, z);
  }

  lemma Scaled(p: real, q: real, z: real)
    requires z > 0.0
    ensures p > q <==> p * z > q * z
  {
  }

  lemma VacancyIsEmptiness(v: View, a: Split, b: Split)
    requires Ready(v) && Target(v.n, a) > 0 && Target(v.n, b) > 0
    ensures Vacancy(v, a) > Vacancy(v, b) <==> Emptier(v, a, b)
  {
    CrossMultiply(Target(v.n, a) - Count(v.groups, v.chosen, a), Target(v.n, a),
                  Target(v.n, b) - Count(v.groups, v.chosen, b), Target(v.n, b));
  }

  lemma PreferenceIs(v: View, features: set<Feature>, a: Split, b: Split)
    requires Ready(v) && Target(v.n, a) > 0 && Target(v.n, b) > 0
    ensures Preferred(v, features, a, b) <==>
      var x, y := Deficit(v, features, a), Deficit(v, features, b); x > y || (x == y && Emptier(v, a, b))
  {
    hide Shortage, Deficit, Vacancy, Emptier, Target;
    ShortageIsDeficit(v, features, a);
    ShortageIsDeficit(v, features, b);
    VacancyIsEmptiness(v, a, b);
  }

  /** The choice between splits as it is computed. */
  predicate Computed(v: View, features: set<Feature>, r: Split, s: Split)
    requires Ready(v)
  {
    Preferred(v, features, r, s) || (!Preferred(v, features, s, r) && Rank(r) <= Rank(s))
  }

  lemma ComputedWins(v: View, features: set<Feature>, r: Split, s: Split)
    requires Ready(v) && Target(v.n, r) > 0 && Target(v.n, s) > 0 && Computed(v, features, r, s)
    ensures Wins(v, features, r, s)
  {
    hide Shortage, Deficit, Vacancy, Emptier, Target, Preferred;
    PreferenceIs(v, features, r, s);
    PreferenceIs(v, features, s, r);
  }

  lemma ChosenComputed(v: View, group: seq<Image>, s: Split)
    requires Ready(v) && Fits(v, |group|, s)
    ensures Fits(v, |group|, ChooseSplit(v, group))
    ensures Computed(v, GroupFeatures(group), ChooseSplit(v, group), s)
  {
    hide Shortage, Vacancy, Fits, GroupFeatures;
    assert s == Train || s == Val || s == Test;
  }

  lemma ChosenOverflows(v: View, group: seq<Image>, s: Split)
    requires Ready(v) && !SomeFits(v, |group|)
    ensures Overflows(v, |group|, ChooseSplit(v, group), s)
  {
    hide Count, Target, GroupFeatures, Fits;
  }

  lemma RoomNeedsTarget(v: View, size: nat, s: Split)
    requires Ready(v) && size > 0 && HasRoom(v, size, s)
    ensures Target(v.n, s) > 0
  {
    hide Count, Target;
  }

  lemma SomeRoom(v: View, size: nat)
    requires Ready(v)
    ensures SomeFits(v, size) <==> exists s: Split :: HasRoom(v, size, s)
    ensures forall s: Split :: Fits(v, size, s) <==> HasRoom(v, size, s)
  {
    hide Count, Target;
    if SomeFits(v, size) { assert HasRoom(v, size, Train) || HasRoom(v, size, Val) || HasRoom(v, size, Test); }
    if s: Split :| HasRoom(v, size, s) { assert Fits(v, size, s) && (s == Train || s == Val || s == Test); }
  }

  /** A remaining group is given the rightful split. */
  lemma ChoiceIsRightful(v: View, group: seq<Image>)
    requires Ready(v) && group != []
    ensures Rightful(v, group, ChooseSplit(v, group))
  {
    hide HasRoom, Fits, Wins, Overflows, Computed, ChooseSplit, GroupFeatures, SomeFits, Target;
    var r := ChooseSplit(v, group);
    SomeRoom(v, |group|);
    if SomeFits(v, |group|) {
      forall s: Split | HasRoom(v, |group|, s)
        ensures HasRoom(v, |group|, r) && Wins(v, GroupFeatures(group), r, s)
      {
        ChosenComputed(v, group, s);
        RoomNeedsTarget(v, |group|, r);
        RoomNeedsTarget(v, |group|, s);
        ComputedWins(v, GroupFeatures(group), r, s);
      }
    } else {
      forall s: Split ensures Overflows(v, |group|, r, s) { ChosenOverflows(v, group, s); }
    }
  }

  /** No other split is rightful. */
  lemma RightfulUnique(v: View, group: seq<Image>, r: Split, s: Split)
    requires Ready(v) && Rightful(v, group, r) && Rightful(v, group, s)
    ensures r == s
  {
    hide HasRoom, Wins, Overflows, GroupFeatures;
    if q: Split :| HasRoom(v, |group|, q) {
      OneWinner(v, GroupFeatures(group), r, s);
    } else {
      OneOverflow(v, |group|, r, s);
    }
  }

  lemma OneWinner(v: View, features: set<Feature>, r: Split, s: Split)
    requires Ready(v) && Wins(v, features, r, s) && Wins(v, features, s, r)
    ensures r == s
  {
    hide Deficit, Count, Target;
  }

  lemma OneOverflow(v: View, size: nat, r: Split, s: Split)
    requires Ready(v) && Overflows(v, size, r, s) && Overflows(v, size, s, r)
    ensures r == s
  {
    hide Count, Target;
  }

  /**
   * A group with one feature goes to the split with room whose number of images with it falls furthest short of its
   * share of all of them.
   */
  lemma SingleFeature(v: View, group: seq<Image>, f: Feature, s: Split)
    requires Ready(v) && group != [] && GroupFeatures(group) == {f} && v.totals[f] > 0 && HasRoom(v, |group|, s)
    ensures var r := ChooseSplit(v, group);
            var t := v.totals[f] as real;
            && HasRoom(v, |group|, r)
            && t * Share(s) - Having(v.groups, Of(v.chosen, s), f) as real
               <= t * Share(r) - Having(v.groups, Of(v.chosen, r), f) as real
  {
    hide HasRoom, ChooseSplit, Rightful, Deficit, Having, GroupFeatures, Share, Preferred, Fits, SomeFits, Excess;
    ChoiceIsRightful(v, group);
    RightfulDeficit(v, group, ChooseSplit(v, group), s);
    DeficitOrder(v, f, ChooseSplit(v, group), s);
  }

  lemma RightfulDeficit(v: View, group: seq<Image>, r: Split, s: Split)
    requires Ready(v) && Rightful(v, group, r) && HasRoom(v, |group|, s)
    ensures HasRoom(v, |group|, r) && Deficit(v, GroupFeatures(group), s) <= Deficit(v, GroupFeatures(group), r)
  {
    hide HasRoom, Deficit, Emptier, Overflows, GroupFeatures;
    assert Wins(v, GroupFeatures(group), r, s);
  }

  lemma DeficitOrder(v: View, f: Feature, r: Split, s: Split)
    requires Ready(v) && v.totals[f] > 0 && Deficit(v, {f}, s) <= Deficit(v, {f}, r)
    ensures var t := v.totals[f] as real;
            t * Share(s) - Having(v.groups, Of(v.chosen, s), f) as real
            <= t * Share(r) - Having(v.groups, Of(v.chosen, r), f) as real
  {
    hide Deficit, Having, Share;
    OneDeficit(v, f, r);
    OneDeficit(v, f, s);
    Cleared(v.totals[f] as real, Share(s), Having(v.groups, Of(v.chosen, s), f) as real,
            Share(r), Having(v.groups, Of(v.chosen, r), f) as real);
  }

  lemma OneDeficit(v: View, f: Feature, s: Split)
    requires Ready(v) && v.totals[f] > 0
    ensures Deficit(v, {f}, s)
         == Share(s) - Having(v.groups, Of(v.chosen, s), f) as real / v.totals[f] as real
  {
    hide Having;
  }

  lemma Cleared(t: real, a: real, h: real, b: real, k: real)
    requires t > 0.0 && a - h / t <= b - k / t
    ensures t * a - h <= t * b - k
  {
    assert (a - h / t) * t == t * a - h && (b - k / t) * t == t * b - k;
    Scaled(b - k / t, a - h / t, t);
    Scaled(a - h / t, b - k / t, t);
  }

  // ----- filling -----

  /** The splits as the group at this position meets them. */
  function Meets(v: View, keys: seq<Key>, i: nat): View
    requires Ready(v) && Known(v.groups, keys) && i <= |keys|
  {
    v.(chosen := Fill(v, keys[..i]))
  }

  lemma {:induction false} FillSplit(v: View, a: seq<Key>, b: seq<Key>)
    requires Ready(v) && Known(v.groups, a + b) && Known(v.groups, a) && Known(v.groups, b)
    ensures Ready(v.(chosen := Fill(v, a))) && Fill(v, a + b) == Fill(v.(chosen := Fill(v, a)), b)
    decreases |a|
  {
    hide ChooseSplit, Put, Fill;
    if a == [] {
      FillNothing(v);
      assert a + b == b;
    } else {
      assert (a + b)[1..] == a[1..] + b;
      FillStep(v, a);
      FillStep(v, a + b);
      FillSplit(After(v, a[0]), a[1..], b);
    }
  }

  /** Keys are only ever added behind the ones already chosen. */
  lemma {:induction false} FillExtends(v: View, keys: seq<Key>, s: Split)
    requires Ready(v) && Known(v.groups, keys)
    ensures Of(v.chosen, s) <= Of(Fill(v, keys), s)
    decreases |keys|
  {
    hide ChooseSplit, Fill;
    if keys == [] {
      FillNothing(v);
    } else {
      FillStep(v, keys);
      FillExtends(After(v, keys[0]), keys[1..], s);
    }
  }

  /** Every remaining group ends in the split that is rightful when its turn comes. */
  lemma FillIsRightful(v: View, keys: seq<Key>, i: nat)
    requires Ready(v) && Known(v.groups, keys) && i < |keys|
    ensures Ready(Meets(v, keys, i)) && exists r: Split ::
      Rightful(Meets(v, keys, i), v.groups[keys[i]], r) && keys[i] in Of(Fill(v, keys), r)
  {
    hide ChooseSplit, Fill, Rightful;
    var met, rest := Meets(v, keys, i), keys[i..];
    assert keys == keys[..i] + rest && rest[0] == keys[i];
    FillSplit(v, keys[..i], rest);
    FillStep(met, rest);
    var r := ChooseSplit(met, v.groups[keys[i]]);
    ChoiceIsRightful(met, v.groups[keys[i]]);
    FillExtends(After(met, keys[i]), rest[1..], r);
    assert keys[i] in Of(After(met, keys[i]).chosen, r);
  }

  // ----- the greedy coverage -----

  /** The groups that offer a feature, by their place in the list. */
  function Offering(groups: Groups, keys: seq<Key>, f: Feature): set<nat>
    requires Known(groups, keys)
  {
    set i | 0 <= i < |keys| && f in GroupFeatures(groups[keys[i]])
  }

  lemma {:induction false} OffersCounts(groups: Groups, keys: seq<Key>, f: Feature)
    requires Known(groups, keys)
    ensures Offers(groups, keys, f) == |Offering(groups, keys, f)|
  {
    hide GroupFeatures;
    if keys == [] {
      assert Offering(groups, keys, f) == {};
    } else {
      var last := |keys| - 1;
      OffersCounts(groups, keys[..last], f);
      var before := Offering(groups, keys[..last], f);
      if f in GroupFeatures(groups[keys[last]]) {
        assert Offering(groups, keys, f) == before + {last};
      } else {
        assert Offering(groups, keys, f) == before;
      }
    }
  }

  /** A missing feature counts one over the number of groups that offer it. */
  function Rarity(c: Context, missing: set<Feature>, key: Key, f: Feature): real
    requires key in c.groups && forall f :: f in c.offers
  {
    if f in missing && f in GroupFeatures(c.groups[key]) && c.offers[f] > 0 then 1.0 / c.offers[f] as real else 0.0
  }

  /** Written out over the five features. */
  function Weight(c: Context, missing: set<Feature>, key: Key): real
    requires key in c.groups && forall f :: f in c.offers
  {
    Rarity(c, missing, key, Class1) + Rarity(c, missing, key, Class2) + Rarity(c, missing, key, Class3)
    + Rarity(c, missing, key, Class4) + Rarity(c, missing, key, Background)
  }

  lemma GainSnoc(c: Context, missing: set<Feature>, key: Key, fs: seq<Feature>, f: Feature)
    requires key in c.groups && forall f :: f in c.offers
    ensures Gain(c, missing, key, fs + [f]) == Gain(c, missing, key, fs) + Rarity(c, missing, key, f)
  {
    assert (fs + [f])[..|fs|] == fs;
  }

  lemma GainIsWeight(c: Context, missing: set<Feature>, key: Key)
    requires key in c.groups && forall f :: f in c.offers
    ensures Gain(c, missing, key, FEATURES) == Weight(c, missing, key)
  {
    hide Rarity;
    assert Gain(c, missing, key, []) == 0.0;
    hide Gain;
    GainSnoc(c, missing, key, [], Class1);
    GainSnoc(c, missing, key, [Class1], Class2);
    GainSnoc(c, missing, key, [Class1, Class2], Class3);
    GainSnoc(c, missing, key, [Class1, Class2, Class3], Class4);
    GainSnoc(c, missing, key, [Class1, Class2, Class3, Class4], Background);
    assert [] + [Class1] == [Class1] && [Class1] + [Class2] == [Class1, Class2]
      && [Class1, Class2] + [Class3] == [Class1, Class2, Class3]
      && [Class1, Class2, Class3] + [Class4] == [Class1, Class2, Class3, Class4]
      && [Class1, Class2, Class3, Class4] + [Background] == FEATURES;
  }

  /** The heavier group, then the smaller one, then the one of smaller hash. */
  predicate Leads(c: Context, missing: set<Feature>, a: Key, b: Key)
    requires a in c.groups && b in c.groups && forall f :: f in c.offers
  {
    var x, y := Weight(c, missing, a), Weight(c, missing, b);
    x > y || (x == y && (|c.groups[a]| < |c.groups[b]|
                         || (|c.groups[a]| == |c.groups[b]| && c.order(a) <= c.order(b))))
  }

  /** The group fits and has something that is missing. */
  predicate Helps(c: Context, capacity: int, missing: set<Feature>, key: Key)
    requires key in c.groups
  {
    |c.groups[key]| <= capacity && exists f: Feature :: f in missing && f in GroupFeatures(c.groups[key])
  }

  lemma HelpsIs(c: Context, capacity: int, missing: set<Feature>, key: Key)
    requires key in c.groups
    ensures Helps(c, capacity, missing, key) <==> Candidate(c, capacity, missing, key)
  {
    hide GroupFeatures;
    if f: Feature :| f in missing && f in GroupFeatures(c.groups[key]) {
      assert f in missing * GroupFeatures(c.groups[key]);
    }
    if missing * GroupFeatures(c.groups[key]) != {} {
      var f :| f in missing * GroupFeatures(c.groups[key]);
    }
  }

  lemma LeadsIs(c: Context, missing: set<Feature>, a: Key, b: Key)
    requires a in c.groups && b in c.groups && forall f :: f in c.offers
    ensures Leads(c, missing, a, b) <==> !Precedes(c, missing, b, a)
  {
    hide Gain, Weight;
    GainIsWeight(c, missing, a);
    GainIsWeight(c, missing, b);
  }

  /** At every turn of a coverage pass the group taken leads all groups left that fit and help. */
  lemma CoverTakesLeader(c: Context, available: seq<Key>, capacity: int, missing: set<Feature>, i: nat, other: Key)
    requires Known(c.groups, available) && Distinct(available) && (forall f :: f in c.offers)
    requires Cover(c, available, capacity, missing).Ok? && i < |Cover(c, available, capacity, missing).value.0|
    requires other in c.groups
    ensures var taken := Cover(c, available, capacity, missing).value.0;
            && Known(c.groups, taken[..i]) && taken[i] in c.groups
            && var room, lacking := capacity - Total(c.groups, taken[..i]), missing - Covered(c.groups, taken[..i]);
            && Helps(c, room, lacking, taken[i])
            && (other in WithoutAll(available, taken[..i]) && Helps(c, room, lacking, other) ==>
                  Leads(c, lacking, taken[i], other))
  {
    hide Candidate, Helps, Leads, Precedes, Cover, Distinct, GroupFeatures, Covered, Total;
    CoverIsGreedy(c, available, capacity, missing, i);
    var taken := Cover(c, available, capacity, missing).value.0;
    var room, lacking := capacity - Total(c.groups, taken[..i]), missing - Covered(c.groups, taken[..i]);
    HelpsIs(c, room, lacking, taken[i]);
    HelpsIs(c, room, lacking, other);
    LeadsIs(c, lacking, taken[i], other);
  }

  lemma {:induction false} LeftOver(keys: seq<Key>, gone: seq<Key>, x: Key)
    requires Distinct(keys)
    ensures x in WithoutAll(keys, gone) <==> x in keys && x !in gone
    decreases |gone|
  {
    hide Without;
    if gone != [] {
      WithoutIs(keys, gone[0]);
      LeftOver(Without(keys, gone[0]), gone[1..], x);
      assert gone == [gone[0]] + gone[1..];
    }
  }

  /** The keys covering the splits that are covered before this one. */
  function Earlier(p: Plan, s: Split): seq<Key> {
    match s
    case Val => []
    case Test => p.covered.val
    case Train => p.covered.val + p.covered.test
  }

  /** What a split's coverage pass starts from. */
  ghost predicate PassStart(keys: seq<Key>, p: Plan, s: Split, available: seq<Key>) {
    Distinct(available) && forall k :: k in available <==> k in keys && k !in Earlier(p, s)
  }

  /** The keys that cover a split, taken in this order from what the splits before it left. */
  ghost predicate TakenFrom(groups: Groups, available: seq<Key>, room: int, hash: Key -> nat, taken: seq<Key>)
    requires Known(groups, available)
  {
    exists left :: Distinct(available)
      && Cover(Context(groups, Offered(groups, available), hash), available, room, Everything()) == Ok((taken, left))
  }

  /** Validation is covered first, then testing, then training, each from the groups the earlier ones left. */
  lemma CoveragePasses(groups: Groups, keys: seq<Key>, n: nat, hash: Key -> nat, s: Split) returns (available: seq<Key>)
    requires Known(groups, keys) && Distinct(keys) && Covering(groups, keys, n, hash).Ok?
    ensures var p := Covering(groups, keys, n, hash).value;
            && Known(groups, available) && PassStart(keys, p, s, available)
            && TakenFrom(groups, available, Target(n, s), hash, Of(p.covered, s))
  {
    hide Cover, Everything, Target, Distinct, Covered, Total;
    var val := Pass(groups, keys, Target(n, Val), hash).value;
    var test := Pass(groups, val.1, Target(n, Test), hash).value;
    match s
    case Val => available := keys;
    case Test => available := val.1;
    case Train => available := test.1;
  }

  /**
   * At its turn every covering group leads all groups that fit and help, those included that cover the later splits or
   * remain: by rarity among the groups its pass started from, then size, then hash.
   */
  lemma CoverageLeads(groups: Groups, keys: seq<Key>, n: nat, hash: Key -> nat, s: Split, i: nat, other: Key)
    returns (available: seq<Key>)
    requires Known(groups, keys) && Distinct(keys) && Covering(groups, keys, n, hash).Ok?
    requires var p := Covering(groups, keys, n, hash).value;
             && i < |Of(p.covered, s)| && other in keys && other !in Earlier(p, s) && other !in Of(p.covered, s)[..i]
    ensures var p := Covering(groups, keys, n, hash).value; var taken := Of(p.covered, s);
            && Known(groups, available) && PassStart(keys, p, s, available)
            && Known(groups, taken[..i]) && taken[i] in groups && other in groups
            && var c := Context(groups, Offered(groups, available), hash);
               var room, lacking := Target(n, s) - Total(groups, taken[..i]),
                 Everything() - Covered(groups, taken[..i]);
               Helps(c, room, lacking, other) ==> Leads(c, lacking, taken[i], other)
  {
    hide Cover, Everything, Target, Distinct, Covered, Total, Covering, Helps, Leads, Offered;
    available := CoveragePasses(groups, keys, n, hash, s);
    OffersAll(groups, available);
    var c := Context(groups, Offered(groups, available), hash);
    var taken := Of(Covering(groups, keys, n, hash).value.covered, s);
    CoverTakesLeader(c, available, Target(n, s), Everything(), i, other);
    LeftOver(available, taken[..i], other);
  }

  lemma OffersAll(groups: Groups, keys: seq<Key>)
    requires Known(groups, keys)
    ensures forall f: Feature :: f in Offered(groups, keys)
  {
  }

  // ----- the order of the remaining groups -----

  lemma {:induction false} RarestIs(totals: map<Feature, nat>, features: set<Feature>, fs: seq<Feature>, most: nat)
    requires forall f :: f in totals
    ensures var r := Rarest(totals, features, fs, most);
            && (forall f :: f in features && f in fs ==> r <= totals[f])
            && (r == most || exists f :: f in features && f in fs && r == totals[f])
            && r <= most
  {
    if fs != [] {
      RarestIs(totals, features, fs[1..], most);
      assert fs == [fs[0]] + fs[1..];
    }
  }

  lemma {:induction false} SomeFeature(group: seq<Image>)
    requires group != []
    ensures GroupFeatures(group) != {}
  {
    var last := group[|group| - 1];
    assert Features(last) != {};
    var f :| f in Features(last);
    assert f in GroupFeatures(group);
  }

  lemma {:induction false} HavingAtMost(images: seq<Image>, f: Feature)
    ensures HavingIn(images, f) <= |images|
  {
    hide Features;
    if images != [] { HavingAtMost(images[..|images| - 1], f); }
  }

  /** This many images have the rarest feature of the group. */
  ghost predicate RarestCount(records: seq<Image>, group: seq<Image>, r: nat) {
    && (exists f :: f in GroupFeatures(group) && |Positions(records, f)| == r)
    && (forall f :: f in GroupFeatures(group) ==> r <= |Positions(records, f)|)
  }

  lemma RarestCounts(records: seq<Image>, group: seq<Image>)
    requires group != []
    ensures RarestCount(records, group, Rarest(FeatureTotals(records), GroupFeatures(group), FEATURES, |records|))
  {
    hide Rarest, GroupFeatures, Positions, HavingIn;
    var totals, features := FeatureTotals(records), GroupFeatures(group);
    RarestIs(totals, features, FEATURES, |records|);
    EverythingIsAll();
    forall f: Feature ensures f in FEATURES && totals[f] == |Positions(records, f)| && totals[f] <= |records| {
      assert f in Everything();
      HavingInCounts(records, f);
      HavingAtMost(records, f);
    }
    SomeFeature(group);
    var g :| g in features;
  }

  /** The remaining groups are placed by the count of their rarest feature, equal ones by hash. */
  lemma RarestFirst(records: seq<Image>, hash: Key -> nat, i: nat, j: nat)
    requires PlanFor(records, hash).Ok? && i < j < |Remaining(records, hash)|
    ensures var (groups, _), keys := GroupUp(records), Remaining(records, hash);
            && keys[i] in groups && keys[j] in groups
            && exists x: nat, y: nat ::
                 && RarestCount(records, groups[keys[i]], x) && RarestCount(records, groups[keys[j]], y)
                 && (x < y || (x == y && hash(keys[i]) <= hash(keys[j])))
  {
    hide GroupUp, PlanFor, Remaining, Rarest, RarestCount, Sorted;
    var groups, keys := GroupUp(records).0, Remaining(records, hash);
    RemainingOrdered(records, hash);
    RarestCounts(records, groups[keys[i]]);
    RarestCounts(records, groups[keys[j]]);
    assert !ComesBefore(OrderOf(records, groups, hash), keys[j], keys[i]);
  }

  lemma RemainingOrdered(records: seq<Image>, hash: Key -> nat)
    requires PlanFor(records, hash).Ok?
    ensures var groups, keys := GroupUp(records).0, Remaining(records, hash);
            && Known(groups, keys) && (forall k :: k in keys ==> k in groups)
            && (forall f :: f in FeatureTotals(records)) && InOrder(OrderOf(records, groups, hash), keys)
  {
    hide GroupUp, PlanFor, InOrder, Sorted;
    PlanIsSound(records, hash);
    var groups, rest := GroupUp(records).0, PlanFor(records, hash).value.rest;
    KnownKeys(groups, rest);
    SortedIsInOrder(OrderOf(records, groups, hash), rest);
    RemainingKnown(records, hash);
  }

  // ----- the whole assignment -----

  /** Every image whose group was left after coverage has the split that was rightful at its group's turn. */
  lemma AssignedRightfully(records: seq<Image>, hash: Key -> nat, i: nat, r: Image)
    requires UniqueNames(records) && PlanFor(records, hash).Ok? && AssignSplits(records, hash).Ok?
    requires i < |Remaining(records, hash)| && r in records && r.digest == Remaining(records, hash)[i]
    ensures var groups := GroupUp(records).0;
            var view := ViewOf(records, groups, PlanFor(records, hash).value.covered);
            var m := AssignSplits(records, hash).value;
            && Ready(view) && Known(groups, Remaining(records, hash)) && r.digest in groups && r.name in m
            && Ready(Meets(view, Remaining(records, hash), i))
            && Rightful(Meets(view, Remaining(records, hash), i), groups[r.digest], m[r.name])
  {
    hide PlanFor, Remaining, Fill, GroupUp, Named, Everything, Covered, Grouped, UniqueNames, Rightful, Meets, Listed;
    var groups, keys := GroupUp(records).0, Remaining(records, hash);
    RemainingKnown(records, hash);
    var view := ViewOf(records, groups, PlanFor(records, hash).value.covered);
    FillIsRightful(view, keys, i);
    var s: Split :| Rightful(Meets(view, keys, i), groups[keys[i]], s) && keys[i] in Of(Fill(view, keys), s);
    ChosenIsAssigned(records, hash);
    SplitOfDigest(records, groups, GroupUp(records).1, ChosenFor(records, hash).value, r, s);
  }
}
