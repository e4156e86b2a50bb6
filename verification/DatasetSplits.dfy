/** Grouping by pixel content, the whole split assignment and the smoke selection. */
module DatasetSplits {
  import opened Prelude
  import opened SplitAssignment
  import opened SplitFilling

  // ----- grouping -----

  /** Images with equal pixels form one group; keys in order of first appearance. */
  function GroupUp(records: seq<Image>): (Groups, seq<Key>) {
    if records == [] then (map[], [])
    else
      var (groups, keys) := GroupUp(records[..|records| - 1]);
      var r := records[|records| - 1];
      if r.digest in groups then (groups[r.digest := groups[r.digest] + [r]], keys)
      else (groups[r.digest := [r]], keys + [r.digest])
  }

  /** The groups hold exactly the records, each under its own digest. */
  ghost predicate Grouped(records: seq<Image>, groups: Groups, keys: seq<Key>) {
    && Distinct(keys) && (forall k :: k in keys <==> k in groups) && Known(groups, keys)
    && (forall k, r :: k in groups && r in groups[k] ==> r in records && r.digest == k)
    && (forall r :: r in records ==> r.digest in groups && r in groups[r.digest])
  }

  lemma GroupedJoins(records: seq<Image>, groups: Groups, keys: seq<Key>, r: Image)
    requires Grouped(records, groups, keys) && r.digest in groups
    ensures Grouped(records + [r], groups[r.digest := groups[r.digest] + [r]], keys)
  {
  }

  lemma GroupedStarts(records: seq<Image>, groups: Groups, keys: seq<Key>, r: Image)
    requires Grouped(records, groups, keys) && r.digest !in groups
    ensures Grouped(records + [r], groups[r.digest := [r]], keys + [r.digest])
  {
  }

  lemma {:induction false} GroupUpIs(records: seq<Image>)
    ensures var (groups, keys) := GroupUp(records); Grouped(records, groups, keys)
  {
    hide Grouped;
    if records == [] {
      NothingGrouped();
    } else {
      var prefix, r := records[..|records| - 1], records[|records| - 1];
      assert records == prefix + [r];
      GroupUpIs(prefix);
      var (groups, keys) := GroupUp(prefix);
      if r.digest in groups { GroupedJoins(prefix, groups, keys, r); } else { GroupedStarts(prefix, groups, keys, r); }
    }
  }

  lemma NothingGrouped()
    ensures Grouped([], map[], [])
  {
  }

  lemma {:induction false} TotalUpdate(groups: Groups, keys: seq<Key>, key: Key, group: seq<Image>)
    requires Known(groups, keys) && Distinct(keys) && group != [] && key in groups
    ensures Known(groups[key := group], keys)
    ensures Total(groups[key := group], keys) == Total(groups, keys) + if key in keys then |group| - |groups[key]|
        else 0
  {
    if keys != [] {
      var prefix, last := keys[..|keys| - 1], keys[|keys| - 1];
      TotalUpdate(groups, prefix, key, group);
      assert keys == prefix + [last];
    }
  }

  lemma {:induction false} TotalNew(groups: Groups, keys: seq<Key>, key: Key, group: seq<Image>)
    requires Known(groups, keys) && key !in keys
    ensures Known(groups[key := group], keys) && Total(groups[key := group], keys) == Total(groups, keys)
  {
    if keys != [] {
      assert keys == keys[..|keys| - 1] + [keys[|keys| - 1]];
      TotalNew(groups, keys[..|keys| - 1], key, group);
    }
  }

  lemma {:induction false} GroupUpTotal(records: seq<Image>)
    ensures var (groups, keys) := GroupUp(records); Known(groups, keys) && Total(groups, keys) == |records|
  {
    GroupUpIs(records);
    if records != [] {
      var prefix, r := records[..|records| - 1], records[|records| - 1];
      GroupUpIs(prefix);
      GroupUpTotal(prefix);
      var (groups, keys) := GroupUp(prefix);
      if r.digest in groups {
        TotalUpdate(groups, keys, r.digest, groups[r.digest] + [r]);
      } else {
        TotalNew(groups, keys, r.digest, [r]);
        SnocTotal(groups[r.digest := [r]], keys, r.digest);
      }
    }
  }

  // ----- the order of the remaining groups -----

  function FeatureTotals(records: seq<Image>): map<Feature, nat> {
    map f: Feature | true :: HavingIn(records, f)
  }

  /** The rarest feature of a group, by how many images have it. */
  function Rarest(totals: map<Feature, nat>, features: set<Feature>, fs: seq<Feature>, most: nat): nat
    requires forall f :: f in totals
  {
    if fs == [] then most
    else
      var rest := Rarest(totals, features, fs[1..], most);
      if fs[0] in features && totals[fs[0]] < rest then totals[fs[0]] else rest
  }

  datatype Order = Order(groups: Groups, totals: map<Feature, nat>, hash: Key -> nat, most: nat)

  predicate ComesBefore(o: Order, a: Key, b: Key)
    requires a in o.groups && b in o.groups && forall f :: f in o.totals
  {
    var x, y := Rarest(o.totals, GroupFeatures(o.groups[a]), FEATURES, o.most),
      Rarest(o.totals, GroupFeatures(o.groups[b]), FEATURES, o.most);
    x < y || (x == y && o.hash(a) < o.hash(b))
  }

  function Insert(o: Order, key: Key, keys: seq<Key>): (r: seq<Key>)
    requires key in o.groups && (forall k :: k in keys ==> k in o.groups) && forall f :: f in o.totals
    ensures multiset(r) == multiset(keys) + multiset{key}
  {
    if keys == [] || ComesBefore(o, key, keys[0]) then [key] + keys
    else
      assert keys == [keys[0]] + keys[1..];
      [keys[0]] + Insert(o, key, keys[1..])
  }

  /** The remaining groups, rarest content first. */
  function Sorted(o: Order, keys: seq<Key>): (r: seq<Key>)
    requires (forall k :: k in keys ==> k in o.groups) && forall f :: f in o.totals
    ensures multiset(r) == multiset(keys)
  {
    if keys == [] then []
    else
      assert keys == keys[..|keys| - 1] + [keys[|keys| - 1]];
      var rest := Sorted(o, keys[..|keys| - 1]);
      assert forall k :: k in rest ==> k in multiset(keys[..|keys| - 1]);
      Insert(o, keys[|keys| - 1], rest)
  }

  predicate InOrder(o: Order, keys: seq<Key>)
    requires (forall k :: k in keys ==> k in o.groups) && forall f :: f in o.totals
  {
    forall i, j :: 0 <= i < j < |keys| ==> !ComesBefore(o, keys[j], keys[i])
  }

  lemma NotBefore(o: Order, a: Key, b: Key, c: Key)
    requires a in o.groups && b in o.groups && c in o.groups && forall f :: f in o.totals
    requires ComesBefore(o, a, b) && !ComesBefore(o, c, b)
    ensures !ComesBefore(o, c, a)
  {
    hide Rarest, GroupFeatures;
  }

  lemma ConsInOrder(o: Order, key: Key, keys: seq<Key>)
    requires key in o.groups && (forall k :: k in keys ==> k in o.groups) && (forall f :: f in o.totals)
    requires InOrder(o, keys) && forall j :: 0 <= j < |keys| ==> !ComesBefore(o, keys[j], key)
    ensures (forall k :: k in [key] + keys ==> k in o.groups) && InOrder(o, [key] + keys)
  {
    hide ComesBefore;
  }

  lemma InsertedFrom(o: Order, key: Key, keys: seq<Key>)
    requires key in o.groups && (forall k :: k in keys ==> k in o.groups) && forall f :: f in o.totals
    ensures forall k :: k in Insert(o, key, keys) <==> k == key || k in keys
  {
    hide ComesBefore, Insert;
    var r := Insert(o, key, keys);
    forall k ensures k in r <==> k == key || k in keys { assert k in r <==> k in multiset(r); }
  }

  lemma {:induction false} InsertKeepsOrder(o: Order, key: Key, keys: seq<Key>)
    requires key in o.groups && (forall k :: k in keys ==> k in o.groups) && (forall f :: f in o.totals)
        && InOrder(o, keys)
    ensures (forall k :: k in Insert(o, key, keys) ==> k in o.groups) && InOrder(o, Insert(o, key, keys))
  {
    hide ComesBefore;
    InsertedFrom(o, key, keys);
    if keys == [] || ComesBefore(o, key, keys[0]) {
      forall j | 0 <= j < |keys| ensures !ComesBefore(o, keys[j], key) {
        if j == 0 { Asymmetric(o, key, keys[0]); } else { NotBefore(o, key, keys[0], keys[j]); }
      }
      ConsInOrder(o, key, keys);
    } else {
      TailInOrder(o, keys);
      InsertKeepsOrder(o, key, keys[1..]);
      InsertedFrom(o, key, keys[1..]);
      var rest := Insert(o, key, keys[1..]);
      forall j | 0 <= j < |rest| ensures !ComesBefore(o, rest[j], keys[0]) {
        assert rest[j] in rest;
        if rest[j] != key {
          var i :| 0 <= i < |keys[1..]| && keys[1..][i] == rest[j];
          assert keys[i + 1] == rest[j];
        }
      }
      ConsInOrder(o, keys[0], rest);
    }
  }

  lemma Asymmetric(o: Order, a: Key, b: Key)
    requires a in o.groups && b in o.groups && (forall f :: f in o.totals) && ComesBefore(o, a, b)
    ensures !ComesBefore(o, b, a)
  {
    hide Rarest, GroupFeatures;
  }

  lemma TailInOrder(o: Order, keys: seq<Key>)
    requires keys != [] && (forall k :: k in keys ==> k in o.groups) && (forall f :: f in o.totals) && InOrder(o, keys)
    ensures (forall k :: k in keys[1..] ==> k in o.groups) && InOrder(o, keys[1..])
  {
    hide ComesBefore;
    assert forall i :: 0 <= i < |keys[1..]| ==> keys[1..][i] == keys[i + 1];
  }

  /** Sorting puts the groups in order, rarest first. */
  lemma {:induction false} SortedIsInOrder(o: Order, keys: seq<Key>)
    requires (forall k :: k in keys ==> k in o.groups) && forall f :: f in o.totals
    ensures (forall k :: k in Sorted(o, keys) ==> k in o.groups) && InOrder(o, Sorted(o, keys))
  {
    hide ComesBefore, Insert;
    if keys != [] {
      SortedIsInOrder(o, keys[..|keys| - 1]);
      InsertKeepsOrder(o, keys[|keys| - 1], Sorted(o, keys[..|keys| - 1]));
    }
  }

  // ----- the assignment of groups -----

  function Offered(groups: Groups, keys: seq<Key>): map<Feature, nat>
    requires Known(groups, keys)
  {
    map f: Feature | true :: Offers(groups, keys, f)
  }

  function Everything(): set<Feature> {
    set f | f in FEATURES
  }

  lemma EverythingIsAll()
    ensures forall f: Feature :: f in Everything()
  {
    forall f: Feature ensures f in FEATURES {
      assert FEATURES[0] == Class1 && FEATURES[1] == Class2 && FEATURES[2] == Class3 && FEATURES[3] == Class4
        && FEATURES[4] == Background;
      match f case Class1 => case Class2 => case Class3 => case Class4 => case Background =>
    }
  }

  /** One coverage pass for one split. */
  function Pass(groups: Groups, keys: seq<Key>, room: nat, hash: Key -> nat):
      (r: Result<(seq<Key>, seq<Key>), CoverError>)
    requires Known(groups, keys) && Distinct(keys)
    ensures r.Ok? ==> SoundCover(groups, keys, room, Everything(), r.value.0, r.value.1)
  {
    var c := Context(groups, Offered(groups, keys), hash);
    var r := Cover(c, keys, room, Everything());
    if r.Ok? then (CoverIsSound(c, keys, room, Everything()); r) else r
  }

  /** Coverage in the order validation, test, training, then the rest in order of rarity. */
  datatype Plan = Plan(covered: Chosen, rest: seq<Key>)

  function Covering(groups: Groups, keys: seq<Key>, n: nat, hash: Key -> nat): Result<Plan, CoverError>
    requires Known(groups, keys) && Distinct(keys)
  {
    var val := Pass(groups, keys, Target(n, Val), hash);
    if val.Err? then Err(val.error)
    else
      var test := Pass(groups, val.value.1, Target(n, Test), hash);
      if test.Err? then Err(test.error)
      else
        var train := Pass(groups, test.value.1, Target(n, Train), hash);
        if train.Err? then Err(train.error)
        else Ok(Plan(Chosen(train.value.0, val.value.0, test.value.0), train.value.1))
  }

  /** Covered within the targets, with every key either chosen once or left. */
  ghost predicate SoundPlan(groups: Groups, keys: seq<Key>, n: nat, p: Plan) {
    && KnownAll(groups, p.covered) && Known(groups, p.rest) && Known(groups, keys)
    && (forall s: Split :: Count(groups, p.covered, s) <= Target(n, s))
    && (forall s: Split :: Everything() <= Covered(groups, Of(p.covered, s)))
    && Listed(p.covered) + multiset(p.rest) == multiset(keys)
    && Sum(groups, p.covered) + Total(groups, p.rest) == Total(groups, keys)
  }

  lemma {:induction false} DistinctOnce(keys: seq<Key>)
    requires Distinct(keys)
    ensures forall k :: multiset(keys)[k] == if k in keys then 1 else 0
  {
    if keys != [] {
      var prefix, last := keys[..|keys| - 1], keys[|keys| - 1];
      DistinctOnce(prefix);
      assert keys == prefix + [last];
      assert last !in prefix;
    }
  }

  lemma PartedMultiset(keys: seq<Key>, taken: seq<Key>, left: seq<Key>)
    requires Distinct(keys) && Parted(keys, taken, left)
    ensures multiset(keys) == multiset(taken) + multiset(left) && Distinct(left)
  {
    DistinctOnce(keys);
    DistinctOnce(taken);
    DistinctOnce(left);
  }

  lemma CoveringIsSound(groups: Groups, keys: seq<Key>, n: nat, hash: Key -> nat)
    requires Known(groups, keys) && Distinct(keys) && Covering(groups, keys, n, hash).Ok?
    ensures SoundPlan(groups, keys, n, Covering(groups, keys, n, hash).value)
  {
    hide Pass, Target, Everything, Covered, Parted, Total, Distinct, Known;
    var val := Pass(groups, keys, Target(n, Val), hash).value;
    PartedMultiset(keys, val.0, val.1);
    var test := Pass(groups, val.1, Target(n, Test), hash).value;
    PartedMultiset(val.1, test.0, test.1);
    var train := Pass(groups, test.1, Target(n, Train), hash).value;
    PartedMultiset(test.1, train.0, train.1);
  }

  // ----- the assignment of images -----

  function ViewOf(records: seq<Image>, groups: Groups, covered: Chosen): View {
    View(groups, |records|, FeatureTotals(records), covered)
  }

  function OrderOf(records: seq<Image>, groups: Groups, hash: Key -> nat): Order {
    Order(groups, FeatureTotals(records), hash, |records|)
  }

  /** The plan for these records: coverage first. */
  function PlanFor(records: seq<Image>, hash: Key -> nat): Result<Plan, CoverError> {
    GroupUpIs(records);
    Covering(GroupUp(records).0, GroupUp(records).1, |records|, hash)
  }

  /** The groups left after coverage, in the order they are placed. */
  function Remaining(records: seq<Image>, hash: Key -> nat): seq<Key>
    requires PlanFor(records, hash).Ok?
  {
    PlanIsSound(records, hash);
    var groups := GroupUp(records).0;
    var rest := PlanFor(records, hash).value.rest;
    KnownKeys(groups, rest);
    Sorted(OrderOf(records, groups, hash), rest)
  }

  lemma KnownKeys(groups: Groups, keys: seq<Key>)
    requires Known(groups, keys)
    ensures forall k :: k in keys ==> k in groups
  {
  }

  lemma PlanIsSound(records: seq<Image>, hash: Key -> nat)
    requires PlanFor(records, hash).Ok?
    ensures var (groups, keys) := GroupUp(records);
            Grouped(records, groups, keys) && SoundPlan(groups, keys, |records|, PlanFor(records, hash).value)
  {
    hide Covering, SoundPlan;
    GroupUpIs(records);
    CoveringIsSound(GroupUp(records).0, GroupUp(records).1, |records|, hash);
  }

  lemma RemainingKnown(records: seq<Image>, hash: Key -> nat)
    requires PlanFor(records, hash).Ok?
    ensures Known(GroupUp(records).0, Remaining(records, hash))
        && Ready(ViewOf(records, GroupUp(records).0, PlanFor(records, hash).value.covered))
    ensures multiset(Remaining(records, hash)) == multiset(PlanFor(records, hash).value.rest)
  {
    hide GroupUp, PlanFor;
    PlanIsSound(records, hash);
    var groups, rest, ordered := GroupUp(records).0, PlanFor(records, hash).value.rest, Remaining(records, hash);
    KnownKeys(groups, rest);
    forall i | 0 <= i < |ordered| ensures ordered[i] in groups && groups[ordered[i]] != [] {
      assert ordered[i] in multiset(ordered);
      assert ordered[i] in rest;
    }
  }

  /** The keys chosen for each split. */
  function ChosenFor(records: seq<Image>, hash: Key -> nat): Result<Chosen, CoverError> {
    var plan := PlanFor(records, hash);
    if plan.Err? then Err(plan.error)
    else
      RemainingKnown(records, hash);
      Ok(Fill(ViewOf(records, GroupUp(records).0, plan.value.covered), Remaining(records, hash)))
  }

  function Enter(m: map<string, Split>, group: seq<Image>, s: Split): map<string, Split> {
    if group == [] then m else Enter(m, group[..|group| - 1], s)[group[|group| - 1].name := s]
  }

  function EnterAll(m: map<string, Split>, groups: Groups, keys: seq<Key>, s: Split): map<string, Split>
    requires Known(groups, keys)
  {
    if keys == [] then m else Enter(EnterAll(m, groups, keys[..|keys| - 1], s), groups[keys[|keys| - 1]], s)
  }

  /** The split of every image name. */
  function Named(groups: Groups, c: Chosen): map<string, Split>
    requires KnownAll(groups, c)
  {
    EnterAll(EnterAll(EnterAll(map[], groups, c.train, Train), groups, c.val, Val), groups, c.test, Test)
  }

  function GroupNames(group: seq<Image>): set<string> {
    set r | r in group :: r.name
  }

  function NamesIn(groups: Groups, keys: seq<Key>): set<string>
    requires Known(groups, keys)
  {
    if keys == [] then {} else NamesIn(groups, keys[..|keys| - 1]) + GroupNames(groups[keys[|keys| - 1]])
  }

  lemma {:induction false} EnterIs(m: map<string, Split>, group: seq<Image>, s: Split)
    ensures Enter(m, group, s).Keys == m.Keys + GroupNames(group)
    ensures forall x :: x in Enter(m, group, s) ==> Enter(m, group, s)[x] == if x in GroupNames(group) then s else m[x]
  {
    if group != [] {
      EnterIs(m, group[..|group| - 1], s);
      assert GroupNames(group) == GroupNames(group[..|group| - 1]) + {group[|group| - 1].name};
    }
  }

  lemma {:induction false} EnterAllIs(m: map<string, Split>, groups: Groups, keys: seq<Key>, s: Split)
    requires Known(groups, keys)
    ensures EnterAll(m, groups, keys, s).Keys == m.Keys + NamesIn(groups, keys)
    ensures forall x :: x in EnterAll(m, groups, keys, s) ==>
        EnterAll(m, groups, keys, s)[x] == if x in NamesIn(groups, keys) then s else m[x]
  {
    hide GroupNames, Enter;
    if keys != [] {
      EnterAllIs(m, groups, keys[..|keys| - 1], s);
      EnterIs(EnterAll(m, groups, keys[..|keys| - 1], s), groups[keys[|keys| - 1]], s);
    }
  }

  lemma NamedIs(groups: Groups, c: Chosen)
    requires KnownAll(groups, c)
    ensures var m := Named(groups, c);
            && m.Keys == NamesIn(groups, c.train) + NamesIn(groups, c.val) + NamesIn(groups, c.test)
            && forall x :: x in m ==>
              m[x] == if x in NamesIn(groups, c.test) then Test else if x in NamesIn(groups, c.val) then Val else Train
  {
    hide NamesIn, EnterAll;
    EnterAllIs(map[], groups, c.train, Train);
    var m1 := EnterAll(map[], groups, c.train, Train);
    EnterAllIs(m1, groups, c.val, Val);
    EnterAllIs(EnterAll(m1, groups, c.val, Val), groups, c.test, Test);
  }

  /** A name of some listed group belongs to one of its images. */
  lemma {:induction false} NameOwner(groups: Groups, keys: seq<Key>, x: string)
    requires Known(groups, keys)
    ensures x in NamesIn(groups, keys) <==> exists k, r :: k in keys && k in groups && r in groups[k] && r.name == x
  {
    if keys != [] {
      var prefix, last := keys[..|keys| - 1], keys[|keys| - 1];
      NameOwner(groups, prefix, x);
      assert keys == prefix + [last];
      if x in GroupNames(groups[last]) {
        var r :| r in groups[last] && r.name == x;
        assert last in keys && r in groups[last];
      }
    }
  }

  predicate UniqueNames(records: seq<Image>) {
    forall i, j :: 0 <= i < j < |records| ==> records[i].name != records[j].name
  }

  lemma SameName(records: seq<Image>, a: Image, b: Image)
    requires UniqueNames(records) && a in records && b in records && a.name == b.name
    ensures a == b
  {
    var i :| 0 <= i < |records| && records[i] == a;
    var j :| 0 <= j < |records| && records[j] == b;
  }

  /** Groups chosen once each, out of exactly these records. */
  ghost predicate Assigned(records: seq<Image>, groups: Groups, keys: seq<Key>, c: Chosen) {
    && UniqueNames(records) && Grouped(records, groups, keys) && KnownAll(groups, c) && Listed(c) == multiset(keys)
  }

  lemma ChosenOnce(records: seq<Image>, groups: Groups, keys: seq<Key>, c: Chosen, key: Key)
    requires Assigned(records, groups, keys, c)
    ensures key in groups <==> exists s: Split :: key in Of(c, s)
    ensures forall s: Split, t: Split :: key in Of(c, s) && key in Of(c, t) ==> s == t
  {
    hide Known;
    DistinctOnce(keys);
    assert Listed(c)[key] == multiset(c.train)[key] + multiset(c.val)[key] + multiset(c.test)[key];
    assert key in Of(c, Train) <==> multiset(c.train)[key] > 0;
    assert key in Of(c, Val) <==> multiset(c.val)[key] > 0;
    assert key in Of(c, Test) <==> multiset(c.test)[key] > 0;
    assert key in groups <==> multiset(keys)[key] == 1;
  }

  /** An image's name lies in the names of exactly the split its digest was chosen for. */
  lemma NameInSplit(records: seq<Image>, groups: Groups, keys: seq<Key>, c: Chosen, r: Image, s: Split)
    requires Assigned(records, groups, keys, c) && r in records
    ensures Known(groups, Of(c, s)) && (r.name in NamesIn(groups, Of(c, s)) <==> r.digest in Of(c, s))
  {
    NameOwner(groups, Of(c, s), r.name);
    if r.name in NamesIn(groups, Of(c, s)) {
      var k, q :| k in Of(c, s) && k in groups && q in groups[k] && q.name == r.name;
      SameName(records, q, r);
    }
  }

  /** Every image gets the split of its digest. */
  lemma SplitOfDigest(records: seq<Image>, groups: Groups, keys: seq<Key>, c: Chosen, r: Image, s: Split)
    requires Assigned(records, groups, keys, c) && r in records && r.digest in Of(c, s)
    ensures r.name in Named(groups, c) && Named(groups, c)[r.name] == s
  {
    hide Named, NamesIn, Grouped, Listed, Distinct;
    NamedIs(groups, c);
    NameInSplit(records, groups, keys, c, r, Train);
    NameInSplit(records, groups, keys, c, r, Val);
    NameInSplit(records, groups, keys, c, r, Test);
    ChosenOnce(records, groups, keys, c, r.digest);
  }

  // ----- what a successful assignment guarantees -----

  /** Exactly the records' names are assigned. */
  ghost predicate Everyone(records: seq<Image>, m: map<string, Split>) {
    forall x :: x in m <==> exists r :: r in records && r.name == x
  }

  /** Images with equal pixels share a split. */
  ghost predicate LeakFree(records: seq<Image>, m: map<string, Split>) {
    forall a, b :: a in records && b in records && a.digest == b.digest ==>
      a.name in m && b.name in m && m[a.name] == m[b.name]
  }

  /** Every split has an image with every feature. */
  ghost predicate FullCoverage(records: seq<Image>, m: map<string, Split>) {
    forall s: Split, f: Feature :: Shown(records, m, s, f)
  }

  ghost predicate Shown(records: seq<Image>, m: map<string, Split>, s: Split, f: Feature) {
    exists r :: r in records && r.name in m && m[r.name] == s && f in Features(r)
  }

  lemma {:induction false} FeatureOwner(group: seq<Image>, f: Feature) returns (r: Image)
    requires f in GroupFeatures(group)
    ensures r in group && f in Features(r)
  {
    var last := group[|group| - 1];
    if f in Features(last) { r := last; } else { r := FeatureOwner(group[..|group| - 1], f); }
  }

  lemma {:induction false} CoveredOwner(groups: Groups, keys: seq<Key>, f: Feature) returns (k: Key, r: Image)
    requires Known(groups, keys) && f in Covered(groups, keys)
    ensures k in keys && k in groups && r in groups[k] && f in Features(r)
  {
    hide GroupFeatures;
    var last := keys[|keys| - 1];
    if f in GroupFeatures(groups[last]) {
      k := last;
      r := FeatureOwner(groups[last], f);
    } else {
      k, r := CoveredOwner(groups, keys[..|keys| - 1], f);
    }
  }

  lemma AssignedIsGood(records: seq<Image>, groups: Groups, keys: seq<Key>, c: Chosen)
    requires Assigned(records, groups, keys, c) && forall s: Split :: Everything() <= Covered(groups, Of(c, s))
    ensures var m := Named(groups, c); Everyone(records, m) && LeakFree(records, m) && FullCoverage(records, m)
  {
    hide Named, Listed, Known, Covered, Everything;
    var m := Named(groups, c);
    EverythingIsAll();
    forall r | r in records ensures exists s: Split :: r.digest in Of(c, s)
    { ChosenOnce(records, groups, keys, c, r.digest); }
    forall a, b | a in records && b in records && a.digest == b.digest
      ensures a.name in m && b.name in m && m[a.name] == m[b.name]
    {
      var s: Split :| a.digest in Of(c, s);
      SplitOfDigest(records, groups, keys, c, a, s);
      SplitOfDigest(records, groups, keys, c, b, s);
    }
    forall s: Split, f: Feature ensures Shown(records, m, s, f) {
      OfKnown(groups, c, s);
      var k, r := CoveredOwner(groups, Of(c, s), f);
      SplitOfDigest(records, groups, keys, c, r, s);
    }
    forall r | r in records ensures r.name in m {
      var s: Split :| r.digest in Of(c, s);
      SplitOfDigest(records, groups, keys, c, r, s);
    }
    forall x | x in m ensures exists r :: r in records && r.name == x {
      MappedName(records, groups, keys, c, x);
    }
  }

  lemma OfKnown(groups: Groups, c: Chosen, s: Split)
    requires KnownAll(groups, c)
    ensures Known(groups, Of(c, s))
  {
  }

  lemma MappedName(records: seq<Image>, groups: Groups, keys: seq<Key>, c: Chosen, x: string)
    requires Assigned(records, groups, keys, c) && x in Named(groups, c)
    ensures exists r :: r in records && r.name == x
  {
    hide Named;
    NamedIs(groups, c);
    NameOwner(groups, c.train, x);
    NameOwner(groups, c.val, x);
    NameOwner(groups, c.test, x);
  }

  // ----- sizes -----

  /** The names assigned to a split. */
  function InSplit(m: map<string, Split>, s: Split): set<string> {
    set x | x in m && m[x] == s
  }

  function AllNames(records: seq<Image>): set<string> {
    set r | r in records :: r.name
  }

  lemma {:induction false} NamesAtMost(groups: Groups, keys: seq<Key>)
    requires Known(groups, keys)
    ensures |NamesIn(groups, keys)| <= Total(groups, keys)
  {
    if keys != [] {
      NamesAtMost(groups, keys[..|keys| - 1]);
      GroupNamesAtMost(groups[keys[|keys| - 1]]);
    }
  }

  lemma {:induction false} GroupNamesAtMost(group: seq<Image>)
    ensures |GroupNames(group)| <= |group|
  {
    if group != [] {
      GroupNamesAtMost(group[..|group| - 1]);
      assert GroupNames(group) == GroupNames(group[..|group| - 1]) + {group[|group| - 1].name};
    } else {
      assert GroupNames(group) == {};
    }
  }

  lemma LastNameNew(records: seq<Image>)
    requires records != [] && UniqueNames(records)
    ensures records[|records| - 1].name !in AllNames(records[..|records| - 1]) && UniqueNames(records[..|records| - 1])
  {
    var prefix, last := records[..|records| - 1], records[|records| - 1];
    forall r | r in prefix ensures r.name != last.name {
      var i :| 0 <= i < |prefix| && prefix[i] == r;
      assert records[i] == r;
    }
  }

  lemma AllNamesSnoc(prefix: seq<Image>, last: Image)
    ensures AllNames(prefix + [last]) == AllNames(prefix) + {last.name}
  {
  }

  lemma {:induction false} AllNamesCount(records: seq<Image>)
    requires UniqueNames(records)
    ensures |AllNames(records)| == |records|
  {
    if records == [] {
      assert AllNames(records) == {};
    } else {
      hide AllNames, UniqueNames;
      var prefix, last := records[..|records| - 1], records[|records| - 1];
      LastNameNew(records);
      AllNamesCount(prefix);
      assert records == prefix + [last];
      AllNamesSnoc(prefix, last);
    }
  }

  lemma UnionSize(a: set<string>, b: set<string>)
    ensures |a + b| <= |a| + |b|
    ensures |a + b| == |a| + |b| ==> a !! b
  {
    assert a + b == a + (b - a);
    assert |a + b| == |a| + |b - a|;
    assert b == (b - a) + a * b;
    assert |b| == |b - a| + |a * b|;
  }

  /** As many names per split as images: no name is lost to another split. */
  lemma SizesAre(records: seq<Image>, groups: Groups, keys: seq<Key>, c: Chosen, s: Split)
    requires Assigned(records, groups, keys, c) && Sum(groups, c) == |records|
    ensures KnownAll(groups, c) && |InSplit(Named(groups, c), s)| == Count(groups, c, s)
  {
    hide Named, Total, NamesIn, Grouped, UniqueNames, Listed, InSplit;
    var m := Named(groups, c);
    var a, b, d := NamesIn(groups, c.train), NamesIn(groups, c.val), NamesIn(groups, c.test);
    NamedIs(groups, c);
    NamesAtMost(groups, c.train);
    NamesAtMost(groups, c.val);
    NamesAtMost(groups, c.test);
    AllNamesCount(records);
    EveryName(records, groups, keys, c);
    UnionSize(a, b);
    UnionSize(a + b, d);
    NamesSplit(m, a, b, d);
  }

  /** Disjoint names of the three splits. */
  lemma NamesSplit(m: map<string, Split>, a: set<string>, b: set<string>, d: set<string>)
    requires m.Keys == a + b + d && a !! b && (a + b) !! d
    requires forall x :: x in m ==> m[x] == if x in d then Test else if x in b then Val else Train
    ensures InSplit(m, Train) == a && InSplit(m, Val) == b && InSplit(m, Test) == d
  {
  }

  lemma EveryName(records: seq<Image>, groups: Groups, keys: seq<Key>, c: Chosen)
    requires Assigned(records, groups, keys, c)
    ensures AllNames(records) == Named(groups, c).Keys
  {
    hide Named, NamesIn, Listed;
    forall x | x in Named(groups, c) ensures x in AllNames(records) { MappedName(records, groups, keys, c, x); }
    forall r | r in records ensures r.name in Named(groups, c) {
      ChosenOnce(records, groups, keys, c, r.digest);
      var s: Split :| r.digest in Of(c, s);
      SplitOfDigest(records, groups, keys, c, r, s);
    }
  }

  // ----- the whole assignment -----

  function AssignSplits(records: seq<Image>, hash: Key -> nat): Result<map<string, Split>, CoverError> {
    var c := ChosenFor(records, hash);
    if c.Err? then Err(c.error)
    else
      ChosenIsAssigned(records, hash);
      Ok(Named(GroupUp(records).0, c.value))
  }

  /** Every group is chosen once, every image counted, and every split covers every feature. */
  ghost predicate SoundChoice(records: seq<Image>, groups: Groups, keys: seq<Key>, c: Chosen) {
    && Grouped(records, groups, keys) && KnownAll(groups, c) && Listed(c) == multiset(keys)
    && Sum(groups, c) == |records|
    && (forall s: Split :: Everything() <= Covered(groups, Of(c, s)))
  }

  lemma ChosenIsAssigned(records: seq<Image>, hash: Key -> nat)
    requires ChosenFor(records, hash).Ok?
    ensures SoundChoice(records, GroupUp(records).0, GroupUp(records).1, ChosenFor(records, hash).value)
  {
    hide PlanFor, Remaining, Fill, GroupUp, Everything, Covered, Listed, Sum, Grouped, Known, Count;
    var (groups, keys) := GroupUp(records);
    PlanIsSound(records, hash);
    RemainingKnown(records, hash);
    GroupUpTotal(records);
    var plan := PlanFor(records, hash).value;
    FillKeeps(ViewOf(records, groups, plan.covered), Remaining(records, hash));
    RemainingTotal(records, hash);
  }

  lemma {:induction false} InsertTotal(o: Order, key: Key, keys: seq<Key>)
    requires key in o.groups && (forall k :: k in keys ==> k in o.groups) && (forall f :: f in o.totals)
    requires Known(o.groups, keys) && o.groups[key] != []
    ensures Known(o.groups, Insert(o, key, keys)) && Total(o.groups, Insert(o, key, keys))
        == Total(o.groups, keys) + |o.groups[key]|
  {
    hide ComesBefore, GroupFeatures, Covered;
    if keys == [] || ComesBefore(o, key, keys[0]) {
      ConsKnown(o.groups, key, keys);
      TotalCons(o.groups, key, keys);
    } else {
      assert keys == [keys[0]] + keys[1..];
      InsertTotal(o, key, keys[1..]);
      ConsKnown(o.groups, keys[0], Insert(o, key, keys[1..]));
      TotalCons(o.groups, keys[0], keys[1..]);
      TotalCons(o.groups, keys[0], Insert(o, key, keys[1..]));
    }
  }

  lemma {:induction false} SortedTotal(o: Order, keys: seq<Key>)
    requires (forall k :: k in keys ==> k in o.groups) && (forall f :: f in o.totals) && Known(o.groups, keys)
    ensures Known(o.groups, Sorted(o, keys)) && Total(o.groups, Sorted(o, keys)) == Total(o.groups, keys)
  {
    hide Insert, GroupFeatures;
    if keys != [] {
      SortedTotal(o, keys[..|keys| - 1]);
      SortedIsInOrder(o, keys[..|keys| - 1]);
      InsertTotal(o, keys[|keys| - 1], Sorted(o, keys[..|keys| - 1]));
    }
  }

  lemma RemainingTotal(records: seq<Image>, hash: Key -> nat)
    requires PlanFor(records, hash).Ok?
    ensures var groups := GroupUp(records).0; var rest := PlanFor(records, hash).value.rest;
            Known(groups, rest) && Known(groups, Remaining(records, hash)) && Total(groups, Remaining(records, hash))
              == Total(groups, rest)
  {
    hide GroupUp, PlanFor, Sorted, Total;
    PlanIsSound(records, hash);
    var groups, rest := GroupUp(records).0, PlanFor(records, hash).value.rest;
    KnownKeys(groups, rest);
    SortedTotal(OrderOf(records, groups, hash), rest);
  }

  /** Main result: a successful assignment is total, leak-free and covers every feature in every split. */
  lemma AssignmentIsGood(records: seq<Image>, hash: Key -> nat)
    requires UniqueNames(records) && AssignSplits(records, hash).Ok?
    ensures var m := AssignSplits(records, hash).value;
            Everyone(records, m) && LeakFree(records, m) && FullCoverage(records, m)
  {
    hide ChosenFor, GroupUp, Named, Everyone, LeakFree, FullCoverage, Everything, Covered, Grouped, Listed, KnownAll;
    ChosenIsAssigned(records, hash);
    AssignedIsGood(records, GroupUp(records).0, GroupUp(records).1, ChosenFor(records, hash).value);
  }

  /** Every split has exactly its target size. */
  ghost predicate ExactSizes(records: seq<Image>, m: map<string, Split>) {
    forall s: Split :: |InSplit(m, s)| == Target(|records|, s)
  }

  /** The sizes are exactly on target if and only if every remaining group found room at its turn. */
  lemma SizesExactIff(records: seq<Image>, hash: Key -> nat)
    requires UniqueNames(records) && AssignSplits(records, hash).Ok?
    ensures var view := ViewOf(records, GroupUp(records).0, PlanFor(records, hash).value.covered);
            && Ready(view) && Known(view.groups, Remaining(records, hash))
            && (ExactSizes(records, AssignSplits(records, hash).value) <==> AlwaysRoom(view, Remaining(records, hash)))
  {
    hide PlanFor, Remaining, Fill, GroupUp, Named, InSplit, Everything, Covered, Grouped, Known, AlwaysRoom, Count,
      Target, UniqueNames;
    var (groups, keys) := GroupUp(records);
    PlanIsSound(records, hash);
    RemainingKnown(records, hash);
    GroupUpTotal(records);
    ChosenIsAssigned(records, hash);
    var plan := PlanFor(records, hash).value;
    RemainingTotal(records, hash);
    var view := ViewOf(records, groups, plan.covered);
    ExactIffAlwaysRoom(view, Remaining(records, hash));
    var c := ChosenFor(records, hash).value;
    forall s: Split ensures |InSplit(Named(groups, c), s)| == Count(groups, c, s)
    { SizesAre(records, groups, keys, c, s); }
  }

  lemma SuccessNeedsPlan(records: seq<Image>, hash: Key -> nat)
    requires AssignSplits(records, hash).Ok?
    ensures PlanFor(records, hash).Ok? && ChosenFor(records, hash).Ok?
  {
  }

  /** Without duplicate content the sizes are exact. */
  lemma DistinctContentIsExact(records: seq<Image>, hash: Key -> nat)
    requires UniqueNames(records) && AssignSplits(records, hash).Ok?
    requires forall i, j :: 0 <= i < j < |records| ==> records[i].digest != records[j].digest
    ensures ExactSizes(records, AssignSplits(records, hash).value)
  {
    hide PlanFor, Remaining, GroupUp, InSplit, Everything, Covered, Grouped, Known, AlwaysRoom, Count, Target,
      UniqueNames, AssignSplits, ExactSizes;
    var (groups, keys) := GroupUp(records);
    SuccessNeedsPlan(records, hash);
    PlanIsSound(records, hash);
    RemainingKnown(records, hash);
    GroupUpTotal(records);
    var plan, ordered := PlanFor(records, hash).value, Remaining(records, hash);
    RemainingTotal(records, hash);
    forall i | 0 <= i < |ordered| ensures ordered[i] in groups && |groups[ordered[i]]| == 1
    { SingleGroup(records, ordered, i); }
    SingletonsAlwaysFit(ViewOf(records, groups, plan.covered), ordered);
    SizesExactIff(records, hash);
  }

  lemma SingleGroup(records: seq<Image>, keys: seq<Key>, i: nat)
    requires Known(GroupUp(records).0, keys) && i < |keys|
    requires forall i, j :: 0 <= i < j < |records| ==> records[i].digest != records[j].digest
    ensures keys[i] in GroupUp(records).0 && |GroupUp(records).0[keys[i]]| == 1
  {
    SingleGroups(records);
  }

  lemma DigestSeen(records: seq<Image>, groups: Groups, keys: seq<Key>, d: Key)
    requires Grouped(records, groups, keys)
    ensures d in groups ==> exists i :: 0 <= i < |records| && records[i].digest == d
  {
    if d in groups {
      assert d in keys;
      var r := groups[d][0];
      assert r in groups[d];
      var i :| 0 <= i < |records| && records[i] == r;
    }
  }

  lemma {:induction false} SingleGroups(records: seq<Image>)
    requires forall i, j :: 0 <= i < j < |records| ==> records[i].digest != records[j].digest
    ensures forall k :: k in GroupUp(records).0 ==> |GroupUp(records).0[k]| == 1
  {
    if records != [] {
      var prefix, last := records[..|records| - 1], records[|records| - 1];
      SingleGroups(prefix);
      GroupUpIs(prefix);
      DigestSeen(prefix, GroupUp(prefix).0, GroupUp(prefix).1, last.digest);
    }
  }

  // ----- the program -----

  /** One coverage pass: count what each feature's groups are, then cover greedily. */
  method CoverSplit(groups: Groups, keys: seq<Key>, room: nat, hash: Key -> nat)
    returns (r: Result<(seq<Key>, seq<Key>), CoverError>)
    requires Known(groups, keys) && Distinct(keys)
    ensures r == Pass(groups, keys, room, hash)
  {
    hide Cover, Offers;
    r := CoverFeatures(Context(groups, Offered(groups, keys), hash), keys, room);
  }

  method GroupRecords(records: seq<Image>) returns (groups: Groups, keys: seq<Key>)
    ensures (groups, keys) == GroupUp(records)
  {
    groups, keys := map[], [];
    var i := 0;
    while i < |records|
      invariant 0 <= i <= |records| && (groups, keys) == GroupUp(records[..i])
    {
      var record := records[i];
      assert records[..i + 1][..i] == records[..i];
      if record.digest in groups {
        groups := groups[record.digest := groups[record.digest] + [record]];
      } else {
        groups, keys := groups[record.digest := [record]], keys + [record.digest];
      }
      i := i + 1;
    }
    assert records[..i] == records;
  }

  method CoverAll(groups: Groups, keys: seq<Key>, n: nat, hash: Key -> nat) returns (r: Result<Plan, CoverError>)
    requires Known(groups, keys) && Distinct(keys)
    ensures r == Covering(groups, keys, n, hash)
  {
    hide Pass, Known, Distinct, Everything, SoundCover;
    var val := CoverSplit(groups, keys, Target(n, Val), hash);
    if val.Err? { return Err(val.error); }
    CoveredParts(groups, keys, Target(n, Val), val.value);
    var test := CoverSplit(groups, val.value.1, Target(n, Test), hash);
    if test.Err? { return Err(test.error); }
    CoveredParts(groups, val.value.1, Target(n, Test), test.value);
    var train := CoverSplit(groups, test.value.1, Target(n, Train), hash);
    if train.Err? { return Err(train.error); }
    r := Ok(Plan(Chosen(train.value.0, val.value.0, test.value.0), train.value.1));
  }

  method FillAll(groups: Groups, n: nat, totals: map<Feature, nat>, covered: Chosen, ordered: seq<Key>)
    returns (chosen: Chosen)
    requires Ready(View(groups, n, totals, covered)) && Known(groups, ordered)
    ensures chosen == Fill(View(groups, n, totals, covered), ordered)
  {
    hide ChooseSplit, Put, Fill, Known;
    chosen := covered;
    ghost var goal := Fill(View(groups, n, totals, covered), ordered);
    var j := 0;
    assert ordered[0..] == ordered;
    while j < |ordered|
      invariant 0 <= j <= |ordered| && Ready(View(groups, n, totals, chosen)) && Known(groups, ordered[j..])
      invariant goal == Fill(View(groups, n, totals, chosen), ordered[j..])
    {
      assert ordered[j..][0] == ordered[j] && ordered[j..][1..] == ordered[j + 1..];
      var view := View(groups, n, totals, chosen);
      NextKnown(groups, ordered[j..]);
      FillStep(view, ordered[j..]);
      chosen := Put(chosen, ChooseSplit(view, groups[ordered[j]]), ordered[j]);
      j := j + 1;
    }
    assert ordered[j..] == [];
    FillNothing(View(groups, n, totals, chosen));
  }

  /** Group by content, cover every split, then place the remaining groups one after the other. */
  method Assign(records: seq<Image>, hash: Key -> nat) returns (r: Result<map<string, Split>, CoverError>)
    ensures r == AssignSplits(records, hash)
    ensures r.Ok? && UniqueNames(records) ==>
        Everyone(records, r.value) && LeakFree(records, r.value) && FullCoverage(records, r.value)
  {
    hide UniqueNames, Everyone, LeakFree, FullCoverage, Covering, Sorted, Named, AssignSplits, Fill, Known, GroupUp;
    var groups, keys := GroupRecords(records);
    GroupedParts(records);
    var n := |records|;
    var plan := CoverAll(groups, keys, n, hash);
    if plan.Err? {
      FailedPass(records, hash);
      return Err(plan.error);
    }
    var totals := FeatureTotals(records);
    RemainingKnown(records, hash);
    RemainingTotal(records, hash);
    KnownKeys(groups, plan.value.rest);
    var ordered := Sorted(Order(groups, totals, hash, n), plan.value.rest);
    var chosen := FillAll(groups, n, totals, plan.value.covered, ordered);
    Succeeded(records, hash, groups, chosen);
    r := Ok(Named(groups, chosen));
    if UniqueNames(records) { AssignmentIsGood(records, hash); }
  }

  lemma GroupedParts(records: seq<Image>)
    ensures var (groups, keys) := GroupUp(records); Known(groups, keys) && Distinct(keys)
  {
    hide GroupUp;
    GroupUpIs(records);
  }

  lemma CoveredParts(groups: Groups, keys: seq<Key>, room: nat, p: (seq<Key>, seq<Key>))
    requires SoundCover(groups, keys, room, Everything(), p.0, p.1)
    ensures Known(groups, p.0) && Known(groups, p.1) && Distinct(p.1)
  {
  }

  lemma NextKnown(groups: Groups, keys: seq<Key>)
    requires Known(groups, keys) && keys != []
    ensures keys[0] in groups && groups[keys[0]] != [] && Known(groups, keys[1..])
  {
  }

  lemma FailedPass(records: seq<Image>, hash: Key -> nat)
    requires PlanFor(records, hash).Err?
    ensures AssignSplits(records, hash) == Err(PlanFor(records, hash).error)
  {
  }

  lemma Succeeded(records: seq<Image>, hash: Key -> nat, groups: Groups, chosen: Chosen)
    requires ChosenFor(records, hash) == Ok(chosen) && groups == GroupUp(records).0
    ensures KnownAll(groups, chosen) && AssignSplits(records, hash) == Ok(Named(groups, chosen))
  {
    ChosenIsAssigned(records, hash);
  }

  // ----- the smoke selection -----

  datatype SmokeError = NotPositive | TooFew(split: Split) | Uncovered(split: Split)

  datatype Sizes = Sizes(train: int, val: int, test: int)

  function SizeFor(sizes: Sizes, s: Split): int {
    match s
    case Train => sizes.train
    case Val => sizes.val
    case Test => sizes.test
  }

  /** The images of one split, each its own group. */
  function Members(records: seq<Image>, m: map<string, Split>, s: Split): seq<Image> {
    if records == [] then []
    else
      var last := records[|records| - 1];
      Members(records[..|records| - 1], m, s) + if last.name in m && m[last.name] == s then [last] else []
  }

  function Names(records: seq<Image>): seq<Key> {
    seq(|records|, i requires 0 <= i < |records| => records[i].name)
  }

  function Alone(records: seq<Image>): Groups {
    map r | r in records :: r.name := OneOf(records, r.name)
  }

  /** The image of this name, in a list of its own. */
  function OneOf(records: seq<Image>, name: string): seq<Image> {
    if records == [] then [] else if records[|records| - 1].name == name then [records[|records| - 1]]
      else OneOf(records[..|records| - 1], name)
  }

  lemma {:induction false} OneOfIs(records: seq<Image>, r: Image)
    requires UniqueNames(records) && r in records
    ensures OneOf(records, r.name) == [r]
  {
    var prefix, last := records[..|records| - 1], records[|records| - 1];
    assert records == prefix + [last];
    if last.name == r.name {
      SameName(records, last, r);
    } else {
      OneOfIs(prefix, r);
    }
  }

  lemma AloneKnown(records: seq<Image>)
    requires UniqueNames(records)
    ensures Known(Alone(records), Names(records)) && Distinct(Names(records))
    ensures forall r :: r in records ==> r.name in Alone(records) && Alone(records)[r.name] == [r]
  {
    forall r | r in records ensures OneOf(records, r.name) == [r] { OneOfIs(records, r); }
    var names := Names(records);
    forall i | 0 <= i < |names| ensures names[i] in Alone(records) && Alone(records)[names[i]] != [] {
      assert records[i] in records;
    }
  }

  /** Keys by their hash alone. */
  function ByHash(hash: Key -> nat, keys: seq<Key>): (r: seq<Key>)
    ensures multiset(r) == multiset(keys)
  {
    if keys == [] then []
    else
      assert keys == keys[..|keys| - 1] + [keys[|keys| - 1]];
      Place(hash, keys[|keys| - 1], ByHash(hash, keys[..|keys| - 1]))
  }

  function Place(hash: Key -> nat, key: Key, keys: seq<Key>): (r: seq<Key>)
    ensures multiset(r) == multiset(keys) + multiset{key}
  {
    if keys == [] || hash(key) < hash(keys[0]) then [key] + keys
    else
      assert keys == [keys[0]] + keys[1..];
      [keys[0]] + Place(hash, key, keys[1..])
  }

  lemma {:induction false} PlaceSorts(hash: Key -> nat, key: Key, keys: seq<Key>)
    requires ByIncreasingHash(hash, keys)
    ensures ByIncreasingHash(hash, Place(hash, key, keys))
  {
    if keys != [] && hash(key) >= hash(keys[0]) {
      PlaceSorts(hash, key, keys[1..]);
      var rest := Place(hash, key, keys[1..]);
      forall j | 0 <= j < |rest| ensures hash(keys[0]) <= hash(rest[j]) {
        assert rest[j] in multiset(rest);
        assert rest[j] in keys[1..] || rest[j] == key;
      }
    }
  }

  ghost predicate ByIncreasingHash(hash: Key -> nat, keys: seq<Key>) {
    forall i, j :: 0 <= i < j < |keys| ==> hash(keys[i]) <= hash(keys[j])
  }

  lemma {:induction false} ByHashSorts(hash: Key -> nat, keys: seq<Key>)
    ensures ByIncreasingHash(hash, ByHash(hash, keys))
  {
    if keys != [] {
      ByHashSorts(hash, keys[..|keys| - 1]);
      PlaceSorts(hash, keys[|keys| - 1], ByHash(hash, keys[..|keys| - 1]));
    }
  }

  /** Behind the covering images come exactly the remaining ones of smallest hash. */
  ghost predicate Completed(members: seq<Image>, size: nat, hash: Key -> nat, picked: set<string>)
    requires UniqueNames(members)
  {
    AloneKnown(members);
    var covering := Pass(Alone(members), Names(members), size, hash);
    covering.Ok? && exists more :: CompletedBy(covering.value.0, covering.value.1, more, size, hash, picked)
  }

  ghost predicate CompletedBy(taken: seq<Key>, left: seq<Key>, more: seq<Key>, size: nat, hash: Key -> nat,
                              picked: set<string>) {
    && |taken| + |more| == size && picked == Elements(taken + more) && (forall x :: x in more ==> x in left)
    && forall x, y :: x in more && y in left && y !in more ==> hash(x) <= hash(y)
  }

  lemma FirstOfHash(hash: Key -> nat, taken: seq<Key>, left: seq<Key>, size: nat)
    requires Distinct(left) && |taken| <= size <= |taken| + |left|
    ensures |ByHash(hash, left)| == |left|
    ensures var more := ByHash(hash, left)[..size - |taken|];
            CompletedBy(taken, left, more, size, hash, Elements(taken + more))
  {
    hide ByHash;
    ByHashIs(hash, left);
    ByHashSorts(hash, left);
    var ordered := ByHash(hash, left);
    var more := ordered[..size - |taken|];
    forall x, y | x in more && y in left && y !in more ensures hash(x) <= hash(y) {
      var i :| 0 <= i < |more| && more[i] == x;
      assert y in ordered;
      var j :| 0 <= j < |ordered| && ordered[j] == y;
      assert forall k :: 0 <= k < |more| ==> more[k] == ordered[k];
    }
  }

  /** What one split contributes: the covering images, then as many more as the size asks for. */
  ghost predicate Sampled(members: seq<Image>, size: int, picked: set<string>) {
    && (forall x :: x in picked ==> exists r :: r in members && r.name == x) && |picked| == size
    && forall f: Feature :: Pictured(members, picked, f)
  }

  ghost predicate Pictured(members: seq<Image>, picked: set<string>, f: Feature) {
    exists r :: r in members && r.name in picked && f in Features(r)
  }

  method SampleSplit(members: seq<Image>, size: nat, hash: Key -> nat) returns (r: Result<set<string>, CoverError>)
    requires UniqueNames(members) && size <= |members|
    ensures r.Ok? ==> Sampled(members, size, r.value) && Completed(members, size, hash, r.value)
    ensures r.Err? ==> PassFails(members, size, hash)
  {
    hide Pass, Alone, Features, Covered, GroupFeatures;
    AloneKnown(members);
    var groups, names := Alone(members), Names(members);
    var covered := CoverSplit(groups, names, size, hash);
    if covered.Err? {
      return Err(covered.error);
    }
    var (taken, left) := covered.value;
    TakenSize(members, size, taken, left);
    CoveredParts(groups, names, size, covered.value);
    var ordered := ByHash(hash, left);
    ByHashIs(hash, left);
    var more := ordered[..size - |taken|];
    SampleIsSound(members, size, taken, left, more);
    FirstOfHash(hash, taken, left, size);
    r := Ok(Elements(taken + more));
  }

  /** Single images: as many keys as images, so coverage never exceeds the size and enough remain. */
  lemma TakenSize(members: seq<Image>, size: nat, taken: seq<Key>, left: seq<Key>)
    requires UniqueNames(members) && size <= |members|
    requires SoundCover(Alone(members), Names(members), size, Everything(), taken, left)
    ensures |taken| <= size <= |taken| + |left|
  {
    hide Covered, Everything;
    AloneKnown(members);
    forall i | 0 <= i < |taken| ensures |Alone(members)[taken[i]]| == 1 {
      assert taken[i] in Names(members);
      var j :| 0 <= j < |Names(members)| && Names(members)[j] == taken[i];
      assert members[j] in members;
    }
    SingleTotals(Alone(members), taken);
  }

  lemma {:induction false} SingleTotals(groups: Groups, keys: seq<Key>)
    requires Known(groups, keys) && forall i :: 0 <= i < |keys| ==> |groups[keys[i]]| == 1
    ensures Total(groups, keys) == |keys|
  {
    if keys != [] { SingleTotals(groups, keys[..|keys| - 1]); }
  }

  lemma MemberOf(members: seq<Image>, x: string)
    ensures x in Names(members) <==> exists r :: r in members && r.name == x
  {
    if x in Names(members) {
      var i :| 0 <= i < |Names(members)| && Names(members)[i] == x;
      assert members[i] in members;
    }
    if r :| r in members && r.name == x {
      var i :| 0 <= i < |members| && members[i] == r;
      assert Names(members)[i] == x;
    }
  }

  lemma {:induction false} OnceDistinct(s: seq<Key>)
    requires forall k :: multiset(s)[k] <= 1
    ensures Distinct(s)
  {
    if s != [] {
      var prefix, last := s[..|s| - 1], s[|s| - 1];
      assert s == prefix + [last];
      forall k ensures multiset(prefix)[k] <= 1 { assert multiset(prefix)[k] <= multiset(s)[k]; }
      OnceDistinct(prefix);
      assert multiset(s) == multiset(prefix) + multiset{last} && multiset(s)[last] <= 1;
      assert last !in prefix;
    }
  }

  lemma ByHashIs(hash: Key -> nat, keys: seq<Key>)
    requires Distinct(keys)
    ensures Distinct(ByHash(hash, keys)) && |ByHash(hash, keys)| == |keys|
    ensures forall k :: k in ByHash(hash, keys) <==> k in keys
  {
    hide ByHash, Distinct;
    var r := ByHash(hash, keys);
    DistinctOnce(keys);
    OnceDistinct(r);
    assert |multiset(r)| == |multiset(keys)|;
    forall k ensures k in r <==> k in keys { assert k in multiset(r) <==> k in multiset(keys); }
  }

  lemma DistinctParts(keys: seq<Key>, taken: seq<Key>, left: seq<Key>, more: seq<Key>)
    requires Parted(keys, taken, left) && Distinct(more) && forall x :: x in more ==> x in left
    ensures Distinct(taken + more)
  {
    var all := taken + more;
    forall i, j | 0 <= i < j < |all| ensures all[i] != all[j] {
      if i < |taken| <= j {
        assert all[i] in taken && all[j] in more;
      }
    }
  }

  lemma SampleIsSound(members: seq<Image>, size: nat, taken: seq<Key>, left: seq<Key>, more: seq<Key>)
    requires UniqueNames(members) && SoundCover(Alone(members), Names(members), size, Everything(), taken, left)
    requires |taken| + |more| == size && Distinct(more) && forall x :: x in more ==> x in left
    ensures Sampled(members, size, Elements(taken + more))
  {
    hide Alone, Covered, Everything, Features, GroupFeatures;
    AloneKnown(members);
    var all := taken + more;
    DistinctParts(Names(members), taken, left, more);
    DistinctSize(all);
    var picked := Elements(all);
    forall x | x in picked ensures exists r :: r in members && r.name == x { MemberOf(members, x); }
    forall f: Feature ensures Pictured(members, picked, f) {
      EverythingIsAll();
      var k, r := CoveredOwner(Alone(members), taken, f);
      MemberOf(members, k);
      var q :| q in members && q.name == k;
      assert Alone(members)[q.name] == [q];
      assert q.name in picked;
    }
  }

  lemma {:induction false} MembersAre(records: seq<Image>, m: map<string, Split>, s: Split)
    requires UniqueNames(records)
    ensures UniqueNames(Members(records, m, s))
    ensures forall r :: r in Members(records, m, s) <==> r in records && r.name in m && m[r.name] == s
  {
    if records != [] {
      var prefix, last := records[..|records| - 1], records[|records| - 1];
      MembersAre(prefix, m, s);
      assert records == prefix + [last];
      var before := Members(prefix, m, s);
      forall i | 0 <= i < |before| ensures before[i].name != last.name {
        assert before[i] in before;
        var j :| 0 <= j < |prefix| && prefix[j] == before[i];
        assert records[j] == prefix[j];
      }
    }
  }

  /** The picked names of one split among all picked names. */
  function PickedIn(selected: set<string>, m: map<string, Split>, s: Split): set<string> {
    set x | x in selected && x in m && m[x] == s
  }

  /** The pick from one split: exactly as large as asked, every feature covered, filled up by smallest hash. */
  ghost predicate Smoke(records: seq<Image>, m: map<string, Split>, sizes: Sizes, hash: Key -> nat, s: Split,
                        selected: set<string>)
    requires UniqueNames(records)
  {
    SplitMembers(records, m, s);
    var members, size, picked := Members(records, m, s), SizeFor(sizes, s), PickedIn(selected, m, s);
    size >= 0 && Sampled(members, size, picked) && Completed(members, size, hash, picked)
  }

  /** Adding another split's pick changes nothing for this one. */
  lemma PickAdded(records: seq<Image>, m: map<string, Split>, s: Split, selected: set<string>, picked: set<string>,
                  size: int)
    requires UniqueNames(records) && Sampled(Members(records, m, s), size, picked)
    requires PickedIn(selected, m, s) == {}
    ensures PickedIn(selected + picked, m, s) == picked
    ensures forall t: Split :: t != s ==> PickedIn(selected + picked, m, t) == PickedIn(selected, m, t)
  {
    MembersAre(records, m, s);
    forall x | x in picked ensures x in m && m[x] == s {
      var r :| r in Members(records, m, s) && r.name == x;
    }
    forall x | x in PickedIn(selected + picked, m, s) ensures x in picked {
      assert x in selected ==> x in PickedIn(selected, m, s);
    }
    forall t: Split | t != s ensures PickedIn(selected + picked, m, t) == PickedIn(selected, m, t) {}
  }

  /** No choice of at most this many images of the split covers every feature greedily. */
  ghost predicate PassFails(members: seq<Image>, size: nat, hash: Key -> nat)
    requires UniqueNames(members)
  {
    AloneKnown(members);
    Pass(Alone(members), Names(members), size, hash).Err?
  }

  ghost predicate Uncoverable(records: seq<Image>, m: map<string, Split>, s: Split, size: nat, hash: Key -> nat)
    requires UniqueNames(records)
  {
    SplitMembers(records, m, s);
    PassFails(Members(records, m, s), size, hash)
  }

  lemma SplitMembers(records: seq<Image>, m: map<string, Split>, s: Split)
    requires UniqueNames(records)
    ensures UniqueNames(Members(records, m, s))
  {
    MembersAre(records, m, s);
  }

  /** Pick the requested number of images from each split, covering every feature in each. */
  method SelectSmoke(records: seq<Image>, m: map<string, Split>, sizes: Sizes, hash: Key -> nat)
    returns (r: Result<set<string>, SmokeError>)
    requires UniqueNames(records) && forall r :: r in records ==> r.name in m
    ensures r == Err(NotPositive) <==> exists s: Split :: SizeFor(sizes, s) <= 0
    ensures r.Ok? ==>
        (forall s: Split :: Smoke(records, m, sizes, hash, s, r.value))
          && |r.value| == sizes.train + sizes.val + sizes.test
    ensures r.Err? && r.error.TooFew? ==> |Members(records, m, r.error.split)| < SizeFor(sizes, r.error.split)
    ensures r.Err? && r.error.Uncovered? ==>
      && 0 <= SizeFor(sizes, r.error.split) <= |Members(records, m, r.error.split)|
      && Uncoverable(records, m, r.error.split, SizeFor(sizes, r.error.split), hash)
  {
    hide Sampled, Completed, PickedIn, Members, UniqueNames, PassFails;
    if sizes.train <= 0 || sizes.val <= 0 || sizes.test <= 0 {
      assert SizeFor(sizes, Train) <= 0 || SizeFor(sizes, Val) <= 0 || SizeFor(sizes, Test) <= 0;
      return Err(NotPositive);
    }
    var selected: set<string> := {};
    var splits := [Train, Val, Test];
    var i := 0;
    NothingPicked(m);
    while i < |splits|
      invariant 0 <= i <= 3 && splits == [Train, Val, Test]
      invariant forall j :: 0 <= j < i ==> Smoke(records, m, sizes, hash, splits[j], selected)
      invariant forall j :: i <= j < 3 ==> PickedIn(selected, m, splits[j]) == {}
      invariant |selected| == SizesUpTo(sizes, i)
    {
      var s := splits[i];
      var members, size := Members(records, m, s), SizeFor(sizes, s);
      if |members| < size {
        return Err(TooFew(s));
      }
      MembersAre(records, m, s);
      var picked := SampleSplit(members, size, hash);
      if picked.Err? {
        return Err(Uncovered(s));
      }
      PickedMapped(records, m, s, size, picked.value);
      PickAdded(records, m, s, selected, picked.value, size);
      PickedApart(records, m, s, selected, picked.value, size);
      selected := selected + picked.value;
      i := i + 1;
    }
    assert splits[0] == Train && splits[1] == Val && splits[2] == Test;
    forall s: Split ensures Smoke(records, m, sizes, hash, s, selected) {
      match s case Train => case Val => case Test =>
    }
    r := Ok(selected);
  }

  function SizesUpTo(sizes: Sizes, i: nat): int {
    (if i > 0 then sizes.train else 0) + (if i > 1 then sizes.val else 0) + (if i > 2 then sizes.test else 0)
  }

  /** A split's pick is new, so it adds its whole size. */
  lemma PickedApart(records: seq<Image>, m: map<string, Split>, s: Split, selected: set<string>, picked: set<string>,
                    size: int)
    requires UniqueNames(records) && Sampled(Members(records, m, s), size, picked) && PickedIn(selected, m, s) == {}
    ensures |selected + picked| == |selected| + size
  {
    MembersAre(records, m, s);
    forall x | x in picked ensures x !in selected {
      var r :| r in Members(records, m, s) && r.name == x;
      assert x in selected ==> x in PickedIn(selected, m, s);
    }
    assert selected !! picked;
  }

  lemma NothingPicked(m: map<string, Split>)
    ensures forall s: Split :: PickedIn({}, m, s) == {}
  {
  }

  lemma PickedMapped(records: seq<Image>, m: map<string, Split>, s: Split, size: int, picked: set<string>)
    requires UniqueNames(records) && Sampled(Members(records, m, s), size, picked)
    ensures forall x :: x in picked ==> x in m
  {
    MembersAre(records, m, s);
    forall x | x in picked ensures x in m {
      var r :| r in Members(records, m, s) && r.name == x;
    }
  }
}
