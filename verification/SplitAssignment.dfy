/**
 * Leak-free dataset splits (scripts/severstal.py): images with equal pixels stay together, every split covers
 * every defect class and the background, and sizes follow the targets as far as the groups allow.
 */
module SplitAssignment {
  import opened Prelude

  datatype Feature = Class1 | Class2 | Class3 | Class4 | Background

  const FEATURES: seq<Feature> := [Class1, Class2, Class3, Class4, Background]

  datatype Split = Train | Val | Test

  type Key = string

  datatype Image = Image(name: string, digest: Key, classes: set<Feature>)

  /** The defect classes of an image, or background when there is none. */
  function Features(image: Image): set<Feature> {
    if image.classes == {} then {Background} else image.classes
  }

  type Groups = map<Key, seq<Image>>

  function GroupFeatures(group: seq<Image>): set<Feature> {
    if group == [] then {} else GroupFeatures(group[..|group| - 1]) + Features(group[|group| - 1])
  }

  /** Every listed key has a nonempty group. */
  predicate Known(groups: Groups, keys: seq<Key>) {
    forall i :: 0 <= i < |keys| ==> keys[i] in groups && groups[keys[i]] != []
  }

  function Total(groups: Groups, keys: seq<Key>): nat
    requires Known(groups, keys)
  {
    if keys == [] then 0 else Total(groups, keys[..|keys| - 1]) + |groups[keys[|keys| - 1]]|
  }

  function Covered(groups: Groups, keys: seq<Key>): set<Feature>
    requires Known(groups, keys)
  {
    if keys == [] then {} else Covered(groups, keys[..|keys| - 1]) + GroupFeatures(groups[keys[|keys| - 1]])
  }

  // ----- greedy coverage -----

  /** What one coverage pass keeps fixed: the groups, how many offer each feature, and the hashed order of keys. */
  datatype Context = Context(groups: Groups, offers: map<Feature, nat>, order: Key -> nat)

  /** How many of the keys offer a feature. */
  function Offers(groups: Groups, keys: seq<Key>, f: Feature): nat
    requires Known(groups, keys)
  {
    if keys == [] then 0
    else Offers(groups, keys[..|keys| - 1], f) + if f in GroupFeatures(groups[keys[|keys| - 1]]) then 1 else 0
  }

  /** A feature some listed group has is offered, so the rarity weights below never divide by zero. */
  lemma {:induction false} OffersPositive(groups: Groups, keys: seq<Key>, i: nat, f: Feature)
    requires Known(groups, keys) && i < |keys| && f in GroupFeatures(groups[keys[i]])
    ensures Offers(groups, keys, f) > 0
  {
    if i < |keys| - 1 { OffersPositive(groups, keys[..|keys| - 1], i, f); }
  }

  /** Rarity-weighted gain: each feature still missing counts one over the number of groups that offer it. */
  function Gain(c: Context, missing: set<Feature>, key: Key, fs: seq<Feature>): real
    requires key in c.groups && forall f :: f in c.offers
  {
    if fs == [] then 0.0
    else
      var f := fs[|fs| - 1];
      Gain(c, missing, key, fs[..|fs| - 1])
      + if f in missing && f in GroupFeatures(c.groups[key]) && c.offers[f] > 0 then 1.0 / c.offers[f] as real else 0.0
  }

  /** Larger gain first, then the smaller group, then the hashed order. */
  predicate Precedes(c: Context, missing: set<Feature>, a: Key, b: Key)
    requires a in c.groups && b in c.groups && forall f :: f in c.offers
  {
    var ga, gb := Gain(c, missing, a, FEATURES), Gain(c, missing, b, FEATURES);
    if ga != gb then ga > gb
    else if |c.groups[a]| != |c.groups[b]| then |c.groups[a]| < |c.groups[b]|
    else c.order(a) < c.order(b)
  }

  predicate Candidate(c: Context, capacity: int, missing: set<Feature>, key: Key)
    requires key in c.groups
  {
    |c.groups[key]| <= capacity && missing * GroupFeatures(c.groups[key]) != {}
  }

  /** The first best candidate, none when no group fits or helps. */
  function Best(c: Context, available: seq<Key>, capacity: int, missing: set<Feature>): (r: Option<Key>)
    requires Known(c.groups, available) && forall f :: f in c.offers
    ensures r.Some? ==> r.value in available && Candidate(c, capacity, missing, r.value)
    ensures r.None? ==> forall i :: 0 <= i < |available| ==> !Candidate(c, capacity, missing, available[i])
    ensures r.Some? ==> Unbeaten(c, available, capacity, missing, r.value)
  {
    if available == [] then None
    else
      var rest, last := Best(c, available[..|available| - 1], capacity, missing), available[|available| - 1];
      if !Candidate(c, capacity, missing, last) then rest
      else if rest.Some? && !Precedes(c, missing, last, rest.value) then rest
      else
        assert forall i :: 0 <= i < |available| - 1 ==> available[i] == available[..|available| - 1][i];
        Some(last)
  }

  /** No candidate comes before this one. */
  predicate Unbeaten(c: Context, available: seq<Key>, capacity: int, missing: set<Feature>, key: Key)
    requires Known(c.groups, available) && key in c.groups && forall f :: f in c.offers
  {
    forall i :: 0 <= i < |available| && Candidate(c, capacity, missing, available[i]) ==>
      !Precedes(c, missing, available[i], key)
  }

  function Without(keys: seq<Key>, key: Key): seq<Key> {
    if keys == [] then []
    else Without(keys[..|keys| - 1], key) + if keys[|keys| - 1] == key then [] else [keys[|keys| - 1]]
  }

  lemma {:induction false} WithoutIs(keys: seq<Key>, key: Key)
    requires Distinct(keys)
    ensures Distinct(Without(keys, key)) && forall k :: k in Without(keys, key) <==> k in keys && k != key
    ensures key in keys ==> |Without(keys, key)| == |keys| - 1
    ensures key !in keys ==> Without(keys, key) == keys
  {
    if keys != [] {
      var prefix, last := keys[..|keys| - 1], keys[|keys| - 1];
      WithoutIs(prefix, key);
      assert keys == prefix + [last];
      assert last !in prefix;
    }
  }

  datatype CoverError = CannotCover

  /** Selected keys and what stays available, or failure when nothing that fits helps. */
  function Cover(c: Context, available: seq<Key>, capacity: int, missing: set<Feature>): Result<(seq<Key>, seq<Key>),
      CoverError>
    requires Known(c.groups, available) && Distinct(available) && forall f :: f in c.offers
    decreases |missing|
  {
    if missing == {} then Ok(([], available))
    else
      var best := Best(c, available, capacity, missing);
      if best.None? then Err(CannotCover)
      else
        var key := best.value;
        WithoutIs(available, key);
        Smaller(missing, GroupFeatures(c.groups[key]));
        assert Known(c.groups, Without(available, key)) by { WithoutKnown(c.groups, available, key); }
        var rest := Cover(c, Without(available, key), capacity - |c.groups[key]|,
          missing - GroupFeatures(c.groups[key]));
        if rest.Err? then rest else Ok(([key] + rest.value.0, rest.value.1))
  }

  lemma Smaller(a: set<Feature>, b: set<Feature>)
    requires a * b != {}
    ensures |a - b| < |a|
  {
    assert a == (a - b) + a * b;
  }

  lemma WithoutKnown(groups: Groups, keys: seq<Key>, key: Key)
    requires Known(groups, keys) && Distinct(keys)
    ensures Known(groups, Without(keys, key))
  {
    WithoutIs(keys, key);
    var rest := Without(keys, key);
    forall i | 0 <= i < |rest| ensures rest[i] in groups && groups[rest[i]] != [] {
      assert rest[i] in keys;
    }
  }

  lemma TotalCons(groups: Groups, key: Key, keys: seq<Key>)
    requires Known(groups, [key] + keys) && Known(groups, keys) && key in groups
    ensures Total(groups, [key] + keys) == |groups[key]| + Total(groups, keys)
    ensures Covered(groups, [key] + keys) == GroupFeatures(groups[key]) + Covered(groups, keys)
  {
    if keys == [] {
      assert [key] + keys == [key] && [key][..0] == [];
    } else {
      var prefix := keys[..|keys| - 1];
      assert ([key] + keys)[..|keys|] == [key] + prefix;
      assert Known(groups, [key] + prefix);
      TotalCons(groups, key, prefix);
    }
  }

  lemma ConsKnown(groups: Groups, key: Key, keys: seq<Key>)
    requires Known(groups, keys) && key in groups && groups[key] != []
    ensures Known(groups, [key] + keys)
  {
  }

  /** The keys are split into the taken and the left ones. */
  ghost predicate Parted(keys: seq<Key>, taken: seq<Key>, left: seq<Key>) {
    && Distinct(taken) && Distinct(left) && |taken| + |left| == |keys|
    && (forall k :: k in keys <==> k in taken || k in left) && (forall k :: k in taken ==> k !in left)
  }

  /** Within the capacity, nothing missing any more, no key lost. */
  ghost predicate SoundCover(groups: Groups, available: seq<Key>, capacity: int, missing: set<Feature>, taken: seq<Key>,
                             left: seq<Key>) {
    && Known(groups, taken) && Known(groups, left) && Parted(available, taken, left)
    && Total(groups, taken) <= capacity && missing <= Covered(groups, taken)
    && (Known(groups, available) ==> Total(groups, taken) + Total(groups, left) == Total(groups, available))
  }

  lemma {:induction false} TotalWithout(groups: Groups, keys: seq<Key>, key: Key)
    requires Known(groups, keys) && Distinct(keys) && key in keys
    ensures Known(groups, Without(keys, key))
        && Total(groups, keys) == Total(groups, Without(keys, key)) + |groups[key]|
  {
    WithoutKnown(groups, keys, key);
    var prefix, last := keys[..|keys| - 1], keys[|keys| - 1];
    assert keys == prefix + [last];
    if last == key {
      WithoutIs(prefix, key);
      assert key !in prefix;
      assert Without(keys, key) == prefix;
    } else {
      TotalWithout(groups, prefix, key);
      assert (Without(prefix, key) + [last])[..|Without(prefix, key)|] == Without(prefix, key);
    }
  }

  lemma SoundNone(groups: Groups, available: seq<Key>, capacity: int)
    requires Known(groups, available) && Distinct(available) && capacity >= 0
    ensures SoundCover(groups, available, capacity, {}, [], available)
  {
    DistinctNone();
  }

  lemma PartedCons(keys: seq<Key>, key: Key, taken: seq<Key>, left: seq<Key>)
    requires Distinct(keys) && key in keys && Parted(Without(keys, key), taken, left)
    ensures Parted(keys, [key] + taken, left)
  {
    hide Without;
    WithoutIs(keys, key);
    DistinctCons(key, taken);
  }

  lemma SoundCons(groups: Groups, available: seq<Key>, capacity: int, missing: set<Feature>, key: Key, taken: seq<Key>,
                  left: seq<Key>)
    requires Known(groups, available) && Distinct(available) && key in available
    requires SoundCover(groups, Without(available, key), capacity - |groups[key]|, missing - GroupFeatures(groups[key]),
        taken, left)
    ensures SoundCover(groups, available, capacity, missing, [key] + taken, left)
  {
    hide Without, Parted, GroupFeatures, Distinct;
    TotalWithout(groups, available, key);
    PartedCons(available, key, taken, left);
    ConsKnown(groups, key, taken);
    TotalCons(groups, key, taken);
  }

  /** A successful pass selects within the capacity, covers everything missing and loses no key. */
  lemma {:induction false} CoverIsSound(c: Context, available: seq<Key>, capacity: int, missing: set<Feature>)
    requires Known(c.groups, available) && Distinct(available) && (forall f :: f in c.offers) && capacity >= 0
    requires Cover(c, available, capacity, missing).Ok?
    ensures var (taken, left) := Cover(c, available, capacity, missing).value;
            SoundCover(c.groups, available, capacity, missing, taken, left)
    decreases |missing|
  {
    hide Best, Candidate, GroupFeatures, Distinct, SoundCover, Cover, Known;
    if missing == {} {
      SoundNone(c.groups, available, capacity);
      CoverNothing(c, available, capacity, []);
      PrependedTwice([], "", Cover(c, available, capacity, {}));
    } else {
      CoverStep(c, available, capacity, missing);
      BestFits(c, available, capacity, missing);
      var key := Best(c, available, capacity, missing).value;
      var room, lacking := capacity - |c.groups[key]|, missing - GroupFeatures(c.groups[key]);
      Smaller(missing, GroupFeatures(c.groups[key]));
      CoverIsSound(c, Without(available, key), room, lacking);
      var (taken, left) := Cover(c, Without(available, key), room, lacking).value;
      SoundCons(c.groups, available, capacity, missing, key, taken, left);
    }
  }

  lemma BestFits(c: Context, available: seq<Key>, capacity: int, missing: set<Feature>)
    requires Known(c.groups, available) && (forall f :: f in c.offers)
    requires Best(c, available, capacity, missing).Some?
    ensures var key := Best(c, available, capacity, missing).value;
            && key in available && 0 < |c.groups[key]| && key in c.groups && c.groups[key] != []
            && |c.groups[key]| <= capacity
            && missing * GroupFeatures(c.groups[key]) != {}
  {
  }

  lemma DistinctCons(key: Key, keys: seq<Key>)
    requires Distinct(keys) && key !in keys
    ensures Distinct([key] + keys)
  {
  }

  lemma DistinctNone()
    ensures Distinct<Key>([])
  {
  }

  /** What is still available once these keys are gone. */
  function WithoutAll(keys: seq<Key>, gone: seq<Key>): seq<Key>
    decreases |gone|
  {
    if gone == [] then keys else WithoutAll(Without(keys, gone[0]), gone[1..])
  }

  /** At this turn the pass took the best of the keys left, for the features still missing and the room still left. */
  ghost predicate BestAtTurn(c: Context, available: seq<Key>, capacity: int, missing: set<Feature>, taken: seq<Key>,
                             i: nat)
    requires i < |taken| && Known(c.groups, taken[..i]) && (forall f :: f in c.offers) && taken[i] in c.groups
  {
    var left, room, lacking := WithoutAll(available, taken[..i]), capacity - Total(c.groups, taken[..i]),
      missing - Covered(c.groups, taken[..i]);
    && Known(c.groups, left) && taken[i] in left && Candidate(c, room, lacking, taken[i])
    && Unbeaten(c, left, room, lacking, taken[i])
  }

  /** Every key taken is the best candidate left at its turn. */
  lemma {:induction false} CoverIsGreedy(c: Context, available: seq<Key>, capacity: int, missing: set<Feature>, i: nat)
    requires Known(c.groups, available) && Distinct(available) && (forall f :: f in c.offers)
    requires Cover(c, available, capacity, missing).Ok? && i < |Cover(c, available, capacity, missing).value.0|
    ensures var taken := Cover(c, available, capacity, missing).value.0;
            Known(c.groups, taken[..i]) && taken[i] in c.groups && BestAtTurn(c, available, capacity, missing, taken, i)
    decreases i
  {
    hide Candidate, Precedes, GroupFeatures, Without, Unbeaten, Best, Cover, Distinct;
    TakenMeansMissing(c, available, capacity, missing);
    CoverStep(c, available, capacity, missing);
    BestUnbeaten(c, available, capacity, missing);
    var key := Best(c, available, capacity, missing).value;
    var taken := Cover(c, available, capacity, missing).value.0;
    BestFits(c, available, capacity, missing);
    if i == 0 {
      assert taken[..0] == [];
      assert missing - {} == missing;
    } else {
      var room, lacking := capacity - |c.groups[key]|, missing - GroupFeatures(c.groups[key]);
      var rest := Cover(c, Without(available, key), room, lacking).value.0;
      CoverIsGreedy(c, Without(available, key), room, lacking, i - 1);
      assert taken[..i] == [key] + rest[..i - 1] && taken[i] == rest[i - 1];
      ConsKnown(c.groups, key, rest[..i - 1]);
      TotalCons(c.groups, key, rest[..i - 1]);
      assert taken[..i][1..] == rest[..i - 1];
      assert lacking - Covered(c.groups, rest[..i - 1]) == missing - Covered(c.groups, taken[..i]);
    }
  }

  lemma TakenMeansMissing(c: Context, available: seq<Key>, capacity: int, missing: set<Feature>)
    requires Known(c.groups, available) && Distinct(available) && (forall f :: f in c.offers)
    requires Cover(c, available, capacity, missing).Ok? && Cover(c, available, capacity, missing).value.0 != []
    ensures missing != {}
  {
    hide Best, Without;
  }

  lemma BestUnbeaten(c: Context, available: seq<Key>, capacity: int, missing: set<Feature>)
    requires Known(c.groups, available) && (forall f :: f in c.offers) && Best(c, available, capacity, missing).Some?
    ensures var key := Best(c, available, capacity, missing).value;
            key in available && Candidate(c, capacity, missing, key) && Unbeaten(c, available, capacity, missing, key)
  {
  }

  /** The pass: take the best candidate until nothing is missing. */
  method CoverFeatures(c: Context, keys: seq<Key>, room: int) returns (r: Result<(seq<Key>, seq<Key>), CoverError>)
    requires Known(c.groups, keys) && Distinct(keys) && forall f :: f in c.offers
    ensures r == Cover(c, keys, room, set f | f in FEATURES)
  {
    hide Best, GroupFeatures, Distinct, Known, Cover, Prepended;
    var selected: seq<Key> := [];
    var available, capacity, missing := keys, room, set f | f in FEATURES;
    ghost var goal := Cover(c, keys, room, missing);
    PrependedTwice([], "", goal);
    while missing != {}
      invariant Known(c.groups, available) && Distinct(available)
      invariant goal == Prepended(selected, Cover(c, available, capacity, missing))
      decreases |missing|
    {
      CoverStep(c, available, capacity, missing);
      var best := Best(c, available, capacity, missing);
      if best.None? {
        PrependedTwice(selected, "", Err(CannotCover));
        return Err(CannotCover);
      }
      var key := best.value;
      BestFits(c, available, capacity, missing);
      WithoutIs(available, key);
      WithoutKnown(c.groups, available, key);
      Smaller(missing, GroupFeatures(c.groups[key]));
      PrependedTwice(selected, key,
        Cover(c, Without(available, key), capacity - |c.groups[key]|, missing - GroupFeatures(c.groups[key])));
      selected := selected + [key];
      available := Without(available, key);
      capacity := capacity - |c.groups[key]|;
      missing := missing - GroupFeatures(c.groups[key]);
    }
    CoverNothing(c, available, capacity, selected);
    r := Ok((selected, available));
  }

  lemma CoverStep(c: Context, available: seq<Key>, capacity: int, missing: set<Feature>)
    requires Known(c.groups, available) && Distinct(available) && (forall f :: f in c.offers) && missing != {}
    ensures var best := Best(c, available, capacity, missing);
            if best.None? then Cover(c, available, capacity, missing) == Err(CannotCover)
            else
              Known(c.groups, Without(available, best.value)) && Distinct(Without(available, best.value))
              && Cover(c, available, capacity, missing)
                 == Prepended([best.value], Cover(c, Without(available, best.value), capacity - |c.groups[best.value]|,
                                                  missing - GroupFeatures(c.groups[best.value])))
  {
    hide Best, GroupFeatures, Distinct, Known, Without;
    var best := Best(c, available, capacity, missing);
    if best.Some? {
      BestFits(c, available, capacity, missing);
      WithoutIs(available, best.value);
      WithoutKnown(c.groups, available, best.value);
    }
  }

  lemma CoverNothing(c: Context, available: seq<Key>, capacity: int, selected: seq<Key>)
    requires Known(c.groups, available) && Distinct(available) && forall f :: f in c.offers
    ensures Prepended(selected, Cover(c, available, capacity, {})) == Ok((selected, available))
  {
    assert selected + [] == selected;
  }

  lemma PrependedTwice(selected: seq<Key>, key: Key, r: Result<(seq<Key>, seq<Key>), CoverError>)
    ensures Prepended(selected, Prepended([key], r)) == Prepended(selected + [key], r)
    ensures Prepended([], r) == r && (r.Err? ==> Prepended(selected, r) == r)
  {
    if r.Ok? {
      assert selected + ([key] + r.value.0) == (selected + [key]) + r.value.0;
      assert [] + r.value.0 == r.value.0;
    }
  }

  function Prepended(selected: seq<Key>, r: Result<(seq<Key>, seq<Key>), CoverError>): Result<(seq<Key>, seq<Key>),
      CoverError> {
    if r.Err? then r else Ok((selected + r.value.0, r.value.1))
  }
}
