/** Stable readable aliases that never merge two sources (core/presentation.py). */
module HumanLabels {
  import opened Prelude
  import opened HumanText

  /** Reserved spellings, the aliases issued so far and the spellings they occupy. */
  datatype Registry = Registry(reserved: set<Text>, labels: Labels, used: set<Text>)

  /** The spellings tried for a source: the readable text, then numbered from two on. */
  function Alias(base: Text, k: nat): Text {
    if k < 2 then base else base + Codes(" (") + Codes(Decimal(k)) + Codes(")")
  }

  lemma AliasInjective(base: Text, j: nat, k: nat)
    requires 1 <= j && 1 <= k && Alias(base, j) == Alias(base, k)
    ensures j == k
  {
    if j < 2 || k < 2 {
      AliasLonger(base, j);
      AliasLonger(base, k);
    } else {
      assert Codes(Decimal(j)) == Alias(base, j)[|base| + 2..|Alias(base, j)| - 1];
      assert Codes(Decimal(k)) == Alias(base, k)[|base| + 2..|Alias(base, k)| - 1];
      CodesInjective(Decimal(j), Decimal(k));
      DecimalInjective(j, k);
    }
  }

  lemma AliasLonger(base: Text, k: nat)
    ensures |Alias(base, k)| == |base| <==> k < 2
  {
  }

  lemma CodesInjective(a: string, b: string)
    requires Codes(a) == Codes(b)
    ensures a == b
  {
    assert |a| == |Codes(a)| == |Codes(b)| == |b|;
    forall i | 0 <= i < |a| ensures a[i] == b[i] {
      assert Codes(a)[i] == a[i] as int && Codes(b)[i] == b[i] as int;
    }
  }

  /** Spellings a source may not take. */
  function Blocked(r: Registry, source: Text): set<Text> {
    r.used + (r.reserved - {source})
  }

  /** The first number from `k` on whose alias is not blocked. */
  function FirstFree(base: Text, blocked: set<Text>, k: nat): nat
    decreases |blocked|
  {
    if Alias(base, k) !in blocked then k else FirstFree(base, blocked - {Alias(base, k)}, k + 1)
  }

  lemma {:induction false} FirstFreeIs(base: Text, blocked: set<Text>, k: nat)
    requires k >= 1
    ensures var n := FirstFree(base, blocked, k);
            n >= k && Alias(base, n) !in blocked && forall j: nat :: k <= j < n ==> Alias(base, j) in blocked
    decreases |blocked|
  {
    hide Alias;
    if Alias(base, k) in blocked {
      var rest := blocked - {Alias(base, k)};
      FirstFreeIs(base, rest, k + 1);
      var n := FirstFree(base, rest, k + 1);
      if Alias(base, n) == Alias(base, k) { AliasInjective(base, n, k); }
    }
  }

  function Issue(r: Registry, source: Text): (Registry, Text) {
    if source in r.labels then (r, r.labels[source])
    else
      var base := Human(source, map[]);
      var display := Alias(base, FirstFree(base, Blocked(r, source), 1));
      (r.(labels := r.labels[source := display], used := r.used + {display}), display)
  }

  /** Distinct sources have distinct aliases, and a reserved spelling stands only for itself. */
  ghost predicate Sound(r: Registry) {
    && (forall s :: s in r.labels ==> r.labels[s] in r.used)
    && (forall d :: d in r.used ==> exists s :: s in r.labels && r.labels[s] == d)
    && (forall s, t :: s in r.labels && t in r.labels && s != t ==> r.labels[s] != r.labels[t])
    && (forall s :: s in r.labels && r.labels[s] in r.reserved ==> r.labels[s] == s)
  }

  /** Issuing keeps every earlier alias and the distinctness of all. */
  lemma IssueKeeps(r: Registry, source: Text)
    requires Sound(r)
    ensures var (r2, display) := Issue(r, source);
            && Sound(r2) && r2.reserved == r.reserved && source in r2.labels && r2.labels[source] == display
            && (forall s :: s in r.labels ==> s in r2.labels && r2.labels[s] == r.labels[s])
            && r2.labels.Keys == r.labels.Keys + {source}
  {
    hide Human, Alias, FirstFree;
    if source !in r.labels {
      var base := Human(source, map[]);
      FirstFreeIs(base, Blocked(r, source), 1);
      var (r2, display) := Issue(r, source);
      forall d | d in r2.used ensures exists s :: s in r2.labels && r2.labels[s] == d {
        if d == display {
          assert r2.labels[source] == d;
        } else {
          var s :| s in r.labels && r.labels[s] == d;
          assert r2.labels[s] == d;
        }
      }
    }
  }

  /** A reserved spelling in use belongs to the source it spells. */
  lemma OwnSpelling(r: Registry, d: Text)
    requires Sound(r)
    ensures d in r.used && d in r.reserved ==> d in r.labels
  {
    if d in r.used && d in r.reserved {
      var s :| s in r.labels && r.labels[s] == d;
    }
  }

  /** A source whose readable text is itself, and reserved, keeps its own spelling. */
  lemma ReadableKeepsSpelling(r: Registry, source: Text)
    requires Sound(r) && source !in r.labels && source in r.reserved && Human(source, map[]) == source
    ensures Issue(r, source).1 == source
  {
    hide Human;
    OwnSpelling(r, source);
    FirstFreeIs(source, Blocked(r, source), 1);
    assert Alias(source, 1) == source;
  }

  class HumanLabelRegistry {
    const reserved: set<Text>
    var labels: Labels
    var used: set<Text>

    ghost function State(): Registry
      reads this
    {
      Registry(reserved, labels, used)
    }

    ghost predicate Valid()
      reads this
    {
      Sound(State())
    }

    constructor (reserved: set<Text>)
      ensures Valid() && State() == Registry(reserved, map[], {})
    {
      this.reserved, labels, used := reserved, map[], {};
    }

    method Label(source: Text) returns (display: Text)
      requires Valid()
      modifies this
      ensures Valid() && (State(), display) == Issue(old(State()), source)
      ensures forall s :: s in old(labels) ==> s in labels && labels[s] == old(labels)[s]
    {
      hide Human, Alias, FirstFree;
      IssueKeeps(State(), source);
      if source in labels {
        return labels[source];
      }
      var base := Human(source, map[]);
      ghost var n := FirstFree(base, Blocked(State(), source), 1);
      FirstFreeIs(base, Blocked(State(), source), 1);
      display := Alias(base, 1);
      var suffix := 1;
      while display in used || (display in reserved && display != source)
        invariant 1 <= suffix <= n && display == Alias(base, suffix) && unchanged(this)
        decreases n - suffix
      {
        assert display in Blocked(State(), source);
        suffix := suffix + 1;
        display := Alias(base, suffix);
      }
      labels := labels[source := display];
      used := used + {display};
    }
  }

  /** Aliases for a fixed list, its readable entries reserved for themselves. */
  function Readable(sources: seq<Text>): set<Text> {
    set s | s in sources && Human(s, map[]) == s
  }

  ghost predicate KeepsReadable(labels: Labels) {
    forall s :: s in labels && Human(s, map[]) == s ==> labels[s] == s
  }

  /** One more source of the list is issued. */
  lemma IssueNext(r: Registry, sources: seq<Text>, i: nat)
    requires Sound(r) && i < |sources| && r.reserved == Readable(sources)
    requires r.labels.Keys == Elements(sources[..i]) && KeepsReadable(r.labels)
    ensures var r2 := Issue(r, sources[i]).0;
            Sound(r2) && r2.reserved == r.reserved && r2.labels.Keys == Elements(sources[..i + 1])
              && KeepsReadable(r2.labels)
  {
    hide Human, Issue, Sound;
    var source := sources[i];
    IssueKeeps(r, source);
    if source !in r.labels && Human(source, map[]) == source {
      ReadableKeepsSpelling(r, source);
    }
    assert sources[..i + 1] == sources[..i] + [source];
  }

  /** Distinct sources stay distinct and readable ones keep their own spelling. */
  method HumanLabelsOf(sources: seq<Text>) returns (result: Labels)
    ensures result.Keys == Elements(sources)
    ensures forall s, t :: s in result && t in result && s != t ==> result[s] != result[t]
    ensures forall s :: s in sources && Human(s, map[]) == s ==> result[s] == s
  {
    hide Human, Issue, Readable;
    var registry := new HumanLabelRegistry(Readable(sources));
    var i := 0;
    while i < |sources|
      invariant 0 <= i <= |sources| && registry.Valid() && fresh(registry) && registry.reserved == Readable(sources)
      invariant registry.labels.Keys == Elements(sources[..i]) && KeepsReadable(registry.labels)
    {
      hide Sound, KeepsReadable;
      IssueNext(registry.State(), sources, i);
      var display := registry.Label(sources[i]);
      i := i + 1;
    }
    assert sources[..i] == sources;
    result := registry.labels;
  }

  // ----- titles and series -----

  datatype SeriesRegistry = SeriesRegistry(titles: Registry, series: map<Text, Registry>)

  const NEW := Registry({}, map[], {})

  function Within(r: SeriesRegistry, title: Text): Registry {
    if title in r.series then r.series[title] else NEW
  }

  /** The destination of a title and series: the title's alias and the series' alias under that title. */
  function Resolve(r: SeriesRegistry, title: Text, series: Text): (SeriesRegistry, (Text, Text)) {
    var (titles, t) := Issue(r.titles, title);
    var (inner, s) := Issue(Within(r, title), series);
    (SeriesRegistry(titles, r.series[title := inner]), (t, s))
  }

  ghost predicate SoundSeries(r: SeriesRegistry) {
    Sound(r.titles) && forall t :: t in r.series ==> Sound(r.series[t]) && t in r.titles.labels
  }

  /** This title and series have this destination. */
  ghost predicate Goes(r: SeriesRegistry, title: Text, series: Text, to: (Text, Text)) {
    && title in r.titles.labels && r.titles.labels[title] == to.0
    && title in r.series && series in r.series[title].labels && r.series[title].labels[series] == to.1
  }

  lemma ResolveKeeps(r: SeriesRegistry, title: Text, series: Text)
    requires SoundSeries(r)
    ensures var (r2, to) := Resolve(r, title, series);
            && SoundSeries(r2) && Goes(r2, title, series, to)
            && forall t, s, d :: Goes(r, t, s, d) ==> Goes(r2, t, s, d)
  {
    hide Issue, Sound;
    NewSound();
    IssueKeeps(r.titles, title);
    IssueKeeps(Within(r, title), series);
  }

  lemma NewSound()
    ensures Sound(NEW)
  {
  }

  /** Two different title and series pairs never share a destination. */
  lemma DestinationsDistinct(r: SeriesRegistry, t1: Text, s1: Text, t2: Text, s2: Text, d1: (Text, Text),
                             d2: (Text, Text))
    requires SoundSeries(r) && Goes(r, t1, s1, d1) && Goes(r, t2, s2, d2) && (t1, s1) != (t2, s2)
    ensures d1 != d2
  {
  }
}
