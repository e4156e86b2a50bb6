/**
 * Duplicate content and split sizes (scripts/severstal.py): datasets the assignment accepts, one whose sizes come out
 * exactly although two images have equal pixels, and one that must miss its targets.
 */
module DuplicateContent {
  import opened Prelude
  import opened SplitAssignment
  import opened SplitFilling
  import opened DatasetSplits

  const CLASSES: set<Feature> := {Class1, Class2, Class3, Class4}

  const CLEAN: set<Feature> := {Background}

  // ----- coverage over groups that show all classes or none -----

  predicate PureKey(groups: Groups, key: Key) {
    key in groups && (GroupFeatures(groups[key]) == CLASSES || GroupFeatures(groups[key]) == CLEAN)
  }

  predicate Pure(groups: Groups, keys: seq<Key>) {
    forall k :: k in keys ==> PureKey(groups, k)
  }

  /** The groups of one image with exactly these features. */
  function Singles(groups: Groups, keys: seq<Key>, kind: set<Feature>): set<Key> {
    set k | k in keys && IsSingle(groups, k, kind)
  }

  predicate IsSingle(groups: Groups, key: Key, kind: set<Feature>) {
    key in groups && |groups[key]| == 1 && GroupFeatures(groups[key]) == kind
  }

  lemma {:induction false} GainSame(c: Context, missing: set<Feature>, a: Key, b: Key, fs: seq<Feature>)
    requires a in c.groups && b in c.groups && (forall f :: f in c.offers)
        && GroupFeatures(c.groups[a]) == GroupFeatures(c.groups[b])
    ensures Gain(c, missing, a, fs) == Gain(c, missing, b, fs)
  {
    hide GroupFeatures;
    if fs != [] { GainSame(c, missing, a, b, fs[..|fs| - 1]); }
  }

  /** While a single group of each missing kind is left, the best candidate is a single group. */
  lemma BestIsSingle(c: Context, available: seq<Key>, capacity: int, missing: set<Feature>, kind: set<Feature>)
    requires Known(c.groups, available) && Pure(c.groups, available) && (forall f :: f in c.offers) && capacity >= 1
    requires kind == CLASSES || kind == CLEAN
    requires missing == Everything() || missing == kind
    requires Singles(c.groups, available, kind) != {}
    requires missing == Everything() ==>
        Singles(c.groups, available, CLASSES) != {} && Singles(c.groups, available, CLEAN) != {}
    ensures var r := Best(c, available, capacity, missing);
            && r.Some? && r.value in available && PureKey(c.groups, r.value)
            && IsSingle(c.groups, r.value, GroupFeatures(c.groups[r.value]))
            && (missing == kind ==> GroupFeatures(c.groups[r.value]) == kind)
  {
    hide GroupFeatures, Gain, Best;
    EverythingIsAll();
    assert kind != {} by { assert Class1 in CLASSES && Background in CLEAN; }
    var x :| x in Singles(c.groups, available, kind);
    SingleFits(c, available, capacity, missing, x);
    BestOf(c, available, capacity, missing);
    var best := Best(c, available, capacity, missing).value;
    var own := GroupFeatures(c.groups[best]);
    if missing == kind { OwnKind(own, kind); }
    var y :| y in Singles(c.groups, available, own);
    SingleFits(c, available, capacity, missing, y);
    GainSame(c, missing, y, best, FEATURES);
    assert !Precedes(c, missing, y, best);
  }

  lemma OwnKind(own: set<Feature>, kind: set<Feature>)
    requires (own == CLASSES || own == CLEAN) && (kind == CLASSES || kind == CLEAN) && kind * own != {}
    ensures own == kind
  {
    var f :| f in kind * own;
  }

  lemma SingleFits(c: Context, available: seq<Key>, capacity: int, missing: set<Feature>, x: Key)
    requires Known(c.groups, available) && x in available && x in c.groups && |c.groups[x]| == 1 && capacity >= 1
    requires missing * GroupFeatures(c.groups[x]) != {}
    ensures exists i :: 0 <= i < |available| && available[i] == x && Candidate(c, capacity, missing, available[i])
  {
  }

  lemma BestOf(c: Context, available: seq<Key>, capacity: int, missing: set<Feature>)
    requires Known(c.groups, available) && (forall f :: f in c.offers)
    requires exists i :: 0 <= i < |available| && Candidate(c, capacity, missing, available[i])
    ensures var r := Best(c, available, capacity, missing);
            && r.Some? && r.value in available && r.value in c.groups && Candidate(c, capacity, missing, r.value)
            && forall k :: k in available && Candidate(c, capacity, missing, k) ==> !Precedes(c, missing, k, r.value)
  {
    hide Precedes, Candidate;
    var r := Best(c, available, capacity, missing);
    forall k | k in available && Candidate(c, capacity, missing, k) ensures !Precedes(c, missing, k, r.value) {
      var i :| 0 <= i < |available| && available[i] == k;
      assert Candidate(c, capacity, missing, available[i]);
    }
  }

  /** Taking a single group away leaves one fewer of its kind and as many of the other. */
  lemma OneTaken(groups: Groups, keys: seq<Key>, key: Key, kind: set<Feature>, other: set<Feature>)
    requires Distinct(keys) && Pure(groups, keys) && key in keys && IsSingle(groups, key, kind) && other != kind
    ensures Pure(groups, Without(keys, key))
    ensures |Singles(groups, Without(keys, key), kind)| == |Singles(groups, keys, kind)| - 1
    ensures Singles(groups, Without(keys, key), other) == Singles(groups, keys, other)
  {
    hide GroupFeatures;
    WithoutIs(keys, key);
    assert Singles(groups, Without(keys, key), kind) == Singles(groups, keys, kind) - {key};
  }

  /** What a pass takes from such groups: one single group of each kind, two images in all. */
  ghost predicate TwoTaken(groups: Groups, keys: seq<Key>, taken: seq<Key>, left: seq<Key>) {
    && Known(groups, taken) && Total(groups, taken) == 2 && Pure(groups, left)
    && |Singles(groups, left, CLASSES)| == |Singles(groups, keys, CLASSES)| - 1
    && |Singles(groups, left, CLEAN)| == |Singles(groups, keys, CLEAN)| - 1
  }

  lemma KindsDiffer()
    ensures CLASSES != CLEAN && Everything() == CLASSES + CLEAN && Everything() - CLASSES == CLEAN
        && Everything() - CLEAN == CLASSES
    ensures Everything() != {} && CLASSES != {} && CLEAN != {}
  {
    EverythingIsAll();
    assert Class1 in CLASSES && Background in CLEAN && Background !in CLASSES;
    forall f: Feature ensures f in CLASSES + CLEAN
    { match f case Class1 => case Class2 => case Class3 => case Class4 => case Background => }
  }

  lemma PassTakesTwo(groups: Groups, keys: seq<Key>, room: nat, hash: Key -> nat)
    requires Known(groups, keys) && Distinct(keys) && Pure(groups, keys) && room >= 2
    requires Singles(groups, keys, CLASSES) != {} && Singles(groups, keys, CLEAN) != {}
    ensures var r := Pass(groups, keys, room, hash); r.Ok? && TwoTaken(groups, keys, r.value.0, r.value.1)
  {
    hide GroupFeatures, Best, Without, Cover, Distinct, Known, Everything, Singles, Pure;
    var c := Context(groups, Offered(groups, keys), hash);
    KindsDiffer();
    CoverStep(c, keys, room, Everything());
    BestIsSingle(c, keys, room, Everything(), CLASSES);
    var x := Best(c, keys, room, Everything()).value;
    var kind := GroupFeatures(groups[x]);
    var other := if kind == CLASSES then CLEAN else CLASSES;
    OneTaken(groups, keys, x, kind, other);
    var rest := Without(keys, x);
    CoverStep(c, rest, room - 1, other);
    BestIsSingle(c, rest, room - 1, other, other);
    var y := Best(c, rest, room - 1, other).value;
    OneTaken(groups, rest, y, other, kind);
    var left := Without(rest, y);
    CoverNothing(c, left, room - 2, [y]);
    assert other - other == {};
    assert [x] + [y] == [x, y];
    PairTotal(groups, x, y);
  }

  lemma PairTotal(groups: Groups, x: Key, y: Key)
    requires x in groups && y in groups && |groups[x]| == 1 && |groups[y]| == 1
    ensures Known(groups, [x, y]) && Total(groups, [x, y]) == 2
  {
    NoKeys(groups);
    assert [] + [x] == [x] && [x] + [y] == [x, y];
    SnocTotal(groups, [], x);
    SnocTotal(groups, [x], y);
  }

  /** With three single groups of each kind every pass succeeds, and every split is covered by two images. */
  lemma CoveringTakesTwos(groups: Groups, keys: seq<Key>, n: nat, hash: Key -> nat)
    requires Known(groups, keys) && Distinct(keys) && Pure(groups, keys) && n >= 20
    requires |Singles(groups, keys, CLASSES)| >= 3 && |Singles(groups, keys, CLEAN)| >= 3
    ensures Covering(groups, keys, n, hash).Ok?
    ensures var p := Covering(groups, keys, n, hash).value;
            && KnownAll(groups, p.covered) && (forall s: Split :: Count(groups, p.covered, s) == 2)
            && Pure(groups, p.rest)
            && |Singles(groups, p.rest, CLASSES)| == |Singles(groups, keys, CLASSES)| - 3
            && |Singles(groups, p.rest, CLEAN)| == |Singles(groups, keys, CLEAN)| - 3
  {
    hide Pass, Singles, Pure, Total, Everything, Distinct, Known;
    PassTakesTwo(groups, keys, Target(n, Val), hash);
    var val := Pass(groups, keys, Target(n, Val), hash).value;
    CoveredParts(groups, keys, Target(n, Val), val);
    PassTakesTwo(groups, val.1, Target(n, Test), hash);
    var test := Pass(groups, val.1, Target(n, Test), hash).value;
    CoveredParts(groups, val.1, Target(n, Test), test);
    PassTakesTwo(groups, test.1, Target(n, Train), hash);
  }

  // ----- the datasets -----

  /** The position of the image whose pixels this one repeats: behind the first `m`, images come in equal pairs. */
  function Twin(i: nat, m: nat): nat {
    if i < m then i else i - i % 2
  }

  function PairedImage(i: nat, m: nat): Image {
    Image(Decimal(i), Decimal(Twin(i, m)), if i < m && i % 2 == 1 then {} else CLASSES)
  }

  /** `n` images: the first `m` differ and alternate between all classes and none, the others are equal pairs. */
  function PairedRecords(n: nat, m: nat): (r: seq<Image>)
    ensures |r| == n && forall i :: 0 <= i < n ==> r[i] == PairedImage(i, m)
  {
    seq(n, i requires 0 <= i < n => PairedImage(i, m))
  }

  lemma PairedNamesUnique(n: nat, m: nat)
    ensures UniqueNames(PairedRecords(n, m))
  {
    var r := PairedRecords(n, m);
    forall i, j | 0 <= i < j < |r| ensures r[i].name != r[j].name {
      if Decimal(i) == Decimal(j) { DecimalInjective(i, j); }
    }
  }

  /** How many images have these pixels. */
  function Copies(records: seq<Image>, d: Key): nat {
    if records == [] then 0 else Copies(records[..|records| - 1], d) + if records[|records| - 1].digest == d then 1
      else 0
  }

  lemma {:induction false} GroupSize(records: seq<Image>, d: Key)
    ensures var groups := GroupUp(records).0; Copies(records, d) == if d in groups then |groups[d]| else 0
  {
    if records != [] { GroupSize(records[..|records| - 1], d); }
  }

  lemma TwinOf(i: nat, j: nat, m: nat)
    requires m % 2 == 0
    ensures Decimal(Twin(i, m)) == Decimal(Twin(j, m)) <==> Twin(i, m) == Twin(j, m)
    ensures i < m ==> (Twin(j, m) == i <==> j == i)
  {
    if Decimal(Twin(i, m)) == Decimal(Twin(j, m)) { DecimalInjective(Twin(i, m), Twin(j, m)); }
  }

  /** One copy of each of the first images, two of every other, as far as the list goes. */
  function Expected(n: nat, m: nat, i: nat): int {
    if i < m then (if i < n then 1 else 0) else Min(2, Max(0, n - Twin(i, m)))
  }

  lemma ExpectedStep(n: nat, m: nat, i: nat)
    requires m % 2 == 0 && n > 0
    ensures Expected(n, m, i) == Expected(n - 1, m, i) + if Twin(n - 1, m) == Twin(i, m) then 1 else 0
  {
    var last := n - 1;
    assert last - last % 2 <= last <= last - last % 2 + 1;
    assert (i - i % 2) % 2 == 0 && (last - last % 2) % 2 == 0;
  }

  lemma {:induction false} CopiesAre(n: nat, m: nat, i: nat)
    requires m % 2 == 0
    ensures Copies(PairedRecords(n, m), Decimal(Twin(i, m))) == Expected(n, m, i)
  {
    hide Decimal, Expected, Twin;
    if n > 0 {
      CopiesAre(n - 1, m, i);
      var r := PairedRecords(n, m);
      assert r[..n - 1] == PairedRecords(n - 1, m);
      TwinOf(n - 1, i, m);
      ExpectedStep(n, m, i);
    } else {
      ExpectedNone(m, i);
    }
  }

  lemma ExpectedNone(m: nat, i: nat)
    ensures Expected(0, m, i) == 0
  {
  }

  lemma {:induction false} SameFeatures(group: seq<Image>, kind: set<Feature>)
    requires group != [] && forall r :: r in group ==> Features(r) == kind
    ensures GroupFeatures(group) == kind
  {
    if |group| > 1 {
      assert group[|group| - 1] in group;
      SameFeatures(group[..|group| - 1], kind);
    } else {
      assert group[0] in group && group[..0] == [];
    }
  }

  function Kind(i: nat, m: nat): set<Feature> {
    if i < m && i % 2 == 1 then CLEAN else CLASSES
  }

  /** The group of one image. */
  lemma PairedGroup(n: nat, m: nat, i: nat)
    requires m % 2 == 0 && n % 2 == 0 && m <= n && i < n
    ensures var groups := GroupUp(PairedRecords(n, m)).0; var d := Decimal(Twin(i, m));
            && d in groups && |groups[d]| == (if i < m then 1 else 2) && GroupFeatures(groups[d]) == Kind(i, m)
  {
    hide Decimal, GroupFeatures, GroupUp, Features;
    var records := PairedRecords(n, m);
    GroupUpIs(records);
    var groups, d := GroupUp(records).0, Decimal(Twin(i, m));
    assert records[i].digest == d && records[i] in records;
    GroupSize(records, d);
    CopiesAre(n, m, i);
    forall r | r in groups[d] ensures Features(r) == Kind(i, m) {
      var j :| 0 <= j < n && records[j] == r;
      TwinOf(i, j, m);
      TwinOf(j, i, m);
      PairedKind(j, m);
    }
    SameFeatures(groups[d], Kind(i, m));
  }

  lemma PairedKind(i: nat, m: nat)
    ensures Features(PairedImage(i, m)) == Kind(i, m)
  {
    assert Class1 in CLASSES;
  }

  /** Keys are digests of images. */
  lemma PairedKey(n: nat, m: nat, k: Key) returns (i: nat)
    requires k in GroupUp(PairedRecords(n, m)).1
    ensures i < n && k == Decimal(Twin(i, m))
  {
    hide GroupUp, Decimal;
    var records := PairedRecords(n, m);
    GroupUpIs(records);
    DigestSeen(records, GroupUp(records).0, GroupUp(records).1, k);
    i :| 0 <= i < n && records[i].digest == k;
  }

  lemma PairedIsPure(n: nat, m: nat)
    requires m % 2 == 0 && n % 2 == 0 && m <= n
    ensures var (groups, keys) := GroupUp(PairedRecords(n, m)); Pure(groups, keys)
  {
    hide GroupUp, Decimal, GroupFeatures;
    var (groups, keys) := GroupUp(PairedRecords(n, m));
    forall k | k in keys ensures PureKey(groups, k) {
      var i := PairedKey(n, m, k);
      PairedGroup(n, m, i);
    }
  }

  /** Exactly the first images form single groups, half of them of each kind. */
  lemma PairedSingles(n: nat, m: nat)
    requires m % 2 == 0 && n % 2 == 0 && m <= n
    ensures var (groups, keys) := GroupUp(PairedRecords(n, m));
            |Singles(groups, keys, CLASSES)| == m / 2 && |Singles(groups, keys, CLEAN)| == m / 2
  {
    hide GroupUp, Decimal, GroupFeatures;
    var (groups, keys) := GroupUp(PairedRecords(n, m));
    KindsDiffer();
    SinglesAre(n, m, 0);
    SinglesAre(n, m, 1);
    NumberedSize(m / 2, 0);
    NumberedSize(m / 2, 1);
  }

  /** The numerals of the first `h` numbers of one parity. */
  function Numbered(h: nat, parity: nat): set<Key> {
    set j | 0 <= j < h :: Decimal(2 * j + parity)
  }

  lemma NumberedNext(h: nat, parity: nat)
    ensures Numbered(h + 1, parity) == Numbered(h, parity) + {Decimal(2 * h + parity)}
  {
    hide Decimal;
    var smaller, larger, last := Numbered(h, parity), Numbered(h + 1, parity), Decimal(2 * h + parity);
    forall k | k in larger ensures k in smaller + {last} {
      var j :| 0 <= j < h + 1 && Decimal(2 * j + parity) == k;
      if j < h { assert k in smaller; }
    }
    forall k | k in smaller ensures k in larger {
      var j :| 0 <= j < h && Decimal(2 * j + parity) == k;
      assert j < h + 1;
    }
  }

  lemma NumeralNew(h: nat, parity: nat)
    ensures Decimal(2 * h + parity) !in Numbered(h, parity)
  {
    hide Decimal;
    forall j | 0 <= j < h ensures Decimal(2 * j + parity) != Decimal(2 * h + parity) {
      if Decimal(2 * j + parity) == Decimal(2 * h + parity) { DecimalInjective(2 * j + parity, 2 * h + parity); }
    }
  }

  lemma {:induction false} NumberedSize(h: nat, parity: nat)
    ensures |Numbered(h, parity)| == h
  {
    hide Decimal, Numbered;
    if h == 0 {
      NumberedNone(parity);
    } else {
      NumberedSize(h - 1, parity);
      NumberedNext(h - 1, parity);
      NumeralNew(h - 1, parity);
    }
  }

  lemma NumberedNone(parity: nat)
    ensures Numbered(0, parity) == {}
  {
  }

  lemma SinglesAre(n: nat, m: nat, parity: nat)
    requires m % 2 == 0 && n % 2 == 0 && m <= n && parity < 2
    ensures var (groups, keys) := GroupUp(PairedRecords(n, m));
            Singles(groups, keys, if parity == 0 then CLASSES else CLEAN) == Numbered(m / 2, parity)
  {
    hide GroupUp, Decimal, GroupFeatures;
    var records := PairedRecords(n, m);
    var (groups, keys) := GroupUp(records);
    var kind := if parity == 0 then CLASSES else CLEAN;
    KindsDiffer();
    GroupUpIs(records);
    forall k | k in Singles(groups, keys, kind) ensures k in Numbered(m / 2, parity) {
      var i := PairedKey(n, m, k);
      PairedGroup(n, m, i);
      assert i % 2 == parity && i == 2 * (i / 2) + parity;
    }
    forall k | k in Numbered(m / 2, parity) ensures k in Singles(groups, keys, kind) {
      var j :| 0 <= j < m / 2 && Decimal(2 * j + parity) == k;
      PairedGroup(n, m, 2 * j + parity);
    }
  }

  /** The assignment accepts all of them, covering every split with two images. */
  lemma PairedPlan(n: nat, m: nat, hash: Key -> nat)
    requires m % 2 == 0 && n % 2 == 0 && 6 <= m <= n && n >= 20
    ensures PlanFor(PairedRecords(n, m), hash).Ok? && AssignSplits(PairedRecords(n, m), hash).Ok?
    ensures var groups := GroupUp(PairedRecords(n, m)).0; var p := PlanFor(PairedRecords(n, m), hash).value;
            && KnownAll(groups, p.covered) && (forall s: Split :: Count(groups, p.covered, s) == 2)
            && Pure(groups, p.rest)
            && |Singles(groups, p.rest, CLASSES)| == m / 2 - 3 && |Singles(groups, p.rest, CLEAN)| == m / 2 - 3
  {
    hide Covering, Pure, Singles, Count, GroupUp, Grouped, Named, Fill, Sorted;
    var records := PairedRecords(n, m);
    GroupedParts(records);
    PairedIsPure(n, m);
    PairedSingles(n, m);
    CoveringTakesTwos(GroupUp(records).0, GroupUp(records).1, n, hash);
  }

  // ----- exact although content is duplicated -----

  /** Once validation and test are full, the rest fits into training in any order. */
  lemma {:induction false} TrainingTakesAll(v: View, keys: seq<Key>)
    requires Ready(v) && Known(v.groups, keys) && Sum(v.groups, v.chosen) + Total(v.groups, keys) == v.n
    requires Count(v.groups, v.chosen, Val) == Target(v.n, Val) && Count(v.groups, v.chosen, Test) == Target(v.n, Test)
    ensures AlwaysRoom(v, keys)
    decreases |keys|
  {
    hide ChooseSplit, Total, Target, Count, Sum, Put, Covered, Listed;
    if keys != [] {
      var key := keys[0];
      assert keys == [key] + keys[1..];
      TotalCons(v.groups, key, keys[1..]);
      TargetsAddUp(v.n);
      SumOfCounts(v.groups, v.chosen);
      assert Fits(v, |v.groups[key]|, Train);
      ChosenFits(v, v.groups[key]);
      AfterReady(v, key);
      var to := ChooseSplit(v, v.groups[key]);
      assert to == Train by { match to case Train => case Val => case Test => }
      PutCounts(v.groups, v.chosen, to, key, Val);
      PutCounts(v.groups, v.chosen, to, key, Test);
      TrainingTakesAll(After(v, key), keys[1..]);
    }
  }

  /** Twenty images, two of them with equal pixels: the assignment succeeds and every size is exactly on target. */
  lemma PairCanBeExact(hash: Key -> nat)
    ensures var records := PairedRecords(20, 18);
            && UniqueNames(records) && records[18].digest == records[19].digest
            && AssignSplits(records, hash).Ok? && ExactSizes(records, AssignSplits(records, hash).value)
  {
    hide PlanFor, Remaining, GroupUp, AlwaysRoom, Count, Decimal, ExactSizes, AssignSplits, Pure, Singles, UniqueNames,
      Sum, Total;
    var records := PairedRecords(20, 18);
    PairedNamesUnique(20, 18);
    PairedPlan(20, 18, hash);
    SizesExactIff(records, hash);
    var groups, covered := GroupUp(records).0, PlanFor(records, hash).value.covered;
    RestAddsUp(records, hash);
    TrainingTakesAll(ViewOf(records, groups, covered), Remaining(records, hash));
  }

  lemma RestAddsUp(records: seq<Image>, hash: Key -> nat)
    requires PlanFor(records, hash).Ok?
    ensures var groups, covered := GroupUp(records).0, PlanFor(records, hash).value.covered;
            && KnownAll(groups, covered) && Known(groups, Remaining(records, hash))
            && Sum(groups, covered) + Total(groups, Remaining(records, hash)) == |records|
  {
    hide PlanFor, Remaining, GroupUp, Sum, Total, Grouped, Covered, Count, Listed;
    PlanIsSound(records, hash);
    GroupUpTotal(records);
    RemainingTotal(records, hash);
  }

  // ----- accepted, but off target -----

  /** Pairs keep the size of every split even. */
  lemma {:induction false} PairsStayEven(v: View, keys: seq<Key>, s: Split)
    requires Ready(v) && Known(v.groups, keys) && (forall k :: k in keys ==> k in v.groups && |v.groups[k]| == 2)
    requires Count(v.groups, v.chosen, s) % 2 == 0
    ensures KnownAll(v.groups, Fill(v, keys)) && Count(v.groups, Fill(v, keys), s) % 2 == 0
    decreases |keys|
  {
    hide ChooseSplit, Total, Target, Count, Put, Covered, Fill, Listed, Sum;
    if keys == [] {
      FillNothing(v);
    } else {
      var key := keys[0];
      FillStep(v, keys);
      PutCounts(v.groups, v.chosen, ChooseSplit(v, v.groups[key]), key, s);
      PairsStayEven(After(v, key), keys[1..], s);
    }
  }

  /** With no single group left every remaining group is a pair. */
  lemma RestArePairs(n: nat, m: nat, hash: Key -> nat)
    requires m == 6 && n % 2 == 0 && n >= 20
    ensures PlanFor(PairedRecords(n, m), hash).Ok?
    ensures var records := PairedRecords(n, m); var groups := GroupUp(records).0;
            forall k :: k in Remaining(records, hash) ==> k in groups && |groups[k]| == 2
  {
    hide GroupUp, Decimal, GroupFeatures, PlanFor, Count, SoundPlan;
    var records := PairedRecords(n, m);
    PairedPlan(n, m, hash);
    RemainingKnown(records, hash);
    var (groups, keys) := GroupUp(records);
    var rest := PlanFor(records, hash).value.rest;
    forall k | k in Remaining(records, hash)
      ensures k in groups && (|groups[k]| == 2 || k in Singles(groups, rest, CLASSES)
          || k in Singles(groups, rest, CLEAN))
    {
      assert k in multiset(Remaining(records, hash)) && k in rest;
      RestIsKey(records, hash, k);
      var i := PairedKey(n, m, k);
      PairedGroup(n, m, i);
      assert i < m ==> k in Singles(groups, rest, Kind(i, m));
    }
    assert Singles(groups, rest, CLASSES) == {} && Singles(groups, rest, CLEAN) == {};
  }

  lemma RestIsKey(records: seq<Image>, hash: Key -> nat, k: Key)
    requires PlanFor(records, hash).Ok? && k in PlanFor(records, hash).value.rest
    ensures k in GroupUp(records).1
  {
    hide GroupUp, PlanFor, Covered, Sum, Total, Count;
    PlanIsSound(records, hash);
    var p := PlanFor(records, hash).value;
    assert k in multiset(p.rest);
    assert k in Listed(p.covered) + multiset(p.rest);
    assert k in multiset(GroupUp(records).1);
  }

  /** Thirty images, six of them unique: the assignment succeeds, but pairs cannot fill three places. */
  lemma PairsMissTargets(hash: Key -> nat)
    ensures var records := PairedRecords(30, 6);
            && UniqueNames(records) && AssignSplits(records, hash).Ok?
            && !ExactSizes(records, AssignSplits(records, hash).value)
  {
    hide PlanFor, Remaining, GroupUp, AlwaysRoom, Count, Decimal, AssignSplits, Pure, Singles, UniqueNames, Sum, Total,
      Fill, InSplit, OnTarget, Known;
    var records := PairedRecords(30, 6);
    PairedNamesUnique(30, 6);
    PairedPlan(30, 6, hash);
    RestArePairs(30, 6, hash);
    RestAddsUp(records, hash);
    SizesExactIff(records, hash);
    var groups, covered := GroupUp(records).0, PlanFor(records, hash).value.covered;
    var v, keys := ViewOf(records, groups, covered), Remaining(records, hash);
    PairsStayEven(v, keys, Val);
    WithinAtTwo(v);
    ExactIffAlwaysRoom(v, keys);
    OffTarget(groups, 30, Fill(v, keys));
  }

  lemma WithinAtTwo(v: View)
    requires Ready(v) && v.n == 30 && forall s: Split :: Count(v.groups, v.chosen, s) == 2
    ensures WithinTargets(v)
  {
    hide Count;
  }

  lemma OffTarget(groups: Groups, n: nat, c: Chosen)
    requires KnownAll(groups, c) && n == 30 && Count(groups, c, Val) % 2 == 0
    ensures !OnTarget(groups, n, c)
  {
    hide Count;
    assert Target(30, Val) == 3;
  }
}
