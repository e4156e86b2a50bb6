/**
 * What the publisher makes of released text (adapters/clearml/console_worker.py): control sequences are removed a
 * second time and the lines are reported one by one. The second removal can join the halves of a reference.
 */
module PublishedText {
  import opened Prelude
  import opened HumanText
  import opened HumanTextStreaming

  // ----- messages -----

  /** The first position of a character, the length when it does not occur. */
  function FirstOf(c: int, t: Text): (n: nat)
    ensures n <= |t| && (forall i :: 0 <= i < n ==> t[i] != c) && (n < |t| ==> t[n] == c)
  {
    if t == [] || t[0] == c then 0 else 1 + FirstOf(c, t[1..])
  }

  /** The position behind the last occurrence, zero when there is none. */
  function BehindLast(c: int, t: Text): (n: nat)
    ensures n <= |t| && (n > 0 ==> t[n - 1] == c) && (forall i :: n <= i < |t| ==> t[i] != c)
  {
    if t == [] then 0 else if t[|t| - 1] == c then |t| else BehindLast(c, t[..|t| - 1])
  }

  /** What a terminal would still show of one line; an empty rest is not reported. */
  function Latest(line: Text): seq<Text> {
    var rest := line[BehindLast(13, line)..];
    if rest == [] then [] else [rest]
  }

  /** The messages of one published text. */
  function Messages(t: Text): seq<Text>
    decreases |t|
  {
    var n := FirstOf(10, t);
    if n == |t| then Latest(t) else Latest(t[..n]) + Messages(t[n + 1..])
  }

  /** Nothing in the rest of the line makes the terminal drop what comes here: no carriage return before its end. */
  predicate Undropped(t: Text) {
    t == [] || t[0] == 10 || (t[0] != 13 && Undropped(t[1..]))
  }

  lemma {:induction false} UndroppedIff(t: Text, rest: Text)
    requires 10 !in t && (rest == [] || rest[0] == 10)
    ensures Undropped(t + rest) <==> 13 !in t
  {
    if t == [] {
      assert t + rest == rest;
    } else {
      assert (t + rest)[1..] == t[1..] + rest;
      UndroppedIff(t[1..], rest);
    }
  }

  /** A reference starts here, on a part of its line that is kept. */
  ghost predicate ShownAt(t: Text, i: nat)
    requires i < |t|
  {
    !OpaqueFreeAt(t, i) && Undropped(t[i..])
  }

  ghost predicate ShowsSome(t: Text) {
    exists i :: 0 <= i < |t| && ShownAt(t, i)
  }

  ghost predicate SomeMessageShows(messages: seq<Text>) {
    exists m :: m in messages && !OpaqueFree(false, m)
  }

  /** Behind a character no reference contains nothing matters to it. */
  lemma OpaqueStops(t: Text, rest: Text)
    requires rest == [] || !HexOrDash(rest[0])
    ensures OpaqueLength(t + rest) == OpaqueLength(t)
  {
    hide OpaqueLength;
    var all, k := t + rest, |t|;
    assert all[..k] == t == t[..k];
    assert rest != [] ==> all[k] == rest[0];
    if OpaqueLength(t) > 0 { OpaqueByPrefix(t, all, k); }
    if OpaqueLength(all) > 0 {
      OpaqueShape(all);
      OpaqueByPrefix(all, t, k);
    }
  }

  lemma NewlineStops()
    ensures !Hex(10) && !HexOrDash(10) && !Hex(13)
  {
  }

  /** The first line of a text shows what it shows alone. */
  lemma LineShown(line: Text, rest: Text, i: nat)
    requires 10 !in line && i < |line| && (rest == [] || rest[0] == 10)
    ensures ShownAt(line + rest, i) <==> ShownAt(line, i)
    ensures ShownAt(line, i) ==> 13 !in line[i..]
    ensures 13 !in line[i..] ==> Undropped(line[i..])
  {
    hide OpaqueLength, Hex, HexOrDash, Undropped;
    NewlineStops();
    assert (line + rest)[i..] == line[i..] + rest && line[i..] + [] == line[i..];
    assert i > 0 ==> (line + rest)[i - 1] == line[i - 1];
    forall c | c in line[i..] ensures c in line {}
    OpaqueStops(line[i..], rest);
    UndroppedIff(line[i..], rest);
    UndroppedIff(line[i..], []);
  }

  lemma ReturnAhead(line: Text, i: nat)
    requires i <= |line|
    ensures 13 in line[i..] <==> i < BehindLast(13, line)
  {
    var b := BehindLast(13, line);
    if i < b { assert line[i..][b - 1 - i] == 13; }
  }

  /** Of a line only what follows its last carriage return is shown. */
  lemma LatestAt(line: Text, i: nat)
    requires 10 !in line && i < |line|
    ensures var b := BehindLast(13, line); ShownAt(line, i) <==> i >= b && !OpaqueFreeAt(line[b..], i - b)
  {
    hide OpaqueLength, Hex, Undropped, HexOrDash;
    NewlineStops();
    var b := BehindLast(13, line);
    LineShown(line, [], i);
    ReturnAhead(line, i);
    if i >= b {
      assert line[b..][i - b..] == line[i..];
      assert i > b ==> line[b..][i - b - 1] == line[i - 1];
    }
  }

  lemma LatestShowsIff(line: Text)
    requires 10 !in line
    ensures SomeMessageShows(Latest(line)) <==> ShowsSome(line)
  {
    hide ShownAt, OpaqueFreeAt, OpaqueFree;
    var b := BehindLast(13, line);
    var rest := line[b..];
    if ShowsSome(line) {
      var i :| 0 <= i < |line| && ShownAt(line, i);
      LatestAt(line, i);
      NotFree(rest, i - b);
      assert rest in Latest(line);
    }
    if m :| m in Latest(line) && !OpaqueFree(false, m) {
      var i := SomeMatch(rest);
      LatestAt(line, b + i);
      assert ShownAt(line, b + i);
    }
  }

  lemma NotFree(t: Text, i: nat)
    requires i < |t| && !OpaqueFreeAt(t, i)
    ensures !OpaqueFree(false, t)
  {
  }

  lemma SomeMatch(t: Text) returns (i: nat)
    requires !OpaqueFree(false, t)
    ensures i < |t| && !OpaqueFreeAt(t, i)
  {
    hide OpaqueLength, Hex;
    i :| 0 <= i < |t| && Matches(if i == 0 then false else Hex(t[i - 1]), t[i..]);
  }

  /** Behind a line the rest of the text shows what it shows alone. */
  lemma RestShown(line: Text, rest: Text, i: nat)
    requires i < |rest|
    ensures ShownAt(line + [10] + rest, |line| + 1 + i) <==> ShownAt(rest, i)
  {
    hide OpaqueLength, Undropped;
    var t := line + [10] + rest;
    NewlineStops();
    assert t[|line| + 1 + i..] == rest[i..];
    assert t[|line| + i] == if i == 0 then 10 else rest[i - 1];
  }

  lemma NewlineShowsNothing(t: Text, i: nat)
    requires i < |t| && t[i] == 10
    ensures !ShownAt(t, i)
  {
    NewlineStops();
    assert t[i..][0] == 10;
    NotMatched(if i == 0 then false else Hex(t[i - 1]), t[i..]);
  }

  lemma ShowsSomeIff(line: Text, rest: Text)
    requires 10 !in line
    ensures ShowsSome(line + [10] + rest) <==> ShowsSome(line) || ShowsSome(rest)
  {
    hide ShownAt;
    var t, n := line + [10] + rest, |line|;
    assert t == line + ([10] + rest) && t[n] == 10;
    forall i | 0 <= i < n ensures ShownAt(t, i) <==> ShownAt(line, i) { LineShown(line, [10] + rest, i); }
    forall i | 0 <= i < |rest| ensures ShownAt(t, n + 1 + i) <==> ShownAt(rest, i) { RestShown(line, rest, i); }
    NewlineShowsNothing(t, n);
    if ShowsSome(t) {
      var i :| 0 <= i < |t| && ShownAt(t, i);
      if i > n { assert ShownAt(rest, i - n - 1) by { assert ShownAt(t, n + 1 + (i - n - 1)); } }
    }
    if i :| 0 <= i < |line| && ShownAt(line, i) { assert ShownAt(t, i); }
    if i :| 0 <= i < |rest| && ShownAt(rest, i) { assert ShownAt(t, n + 1 + i); }
  }

  /** Some reported line shows a reference exactly when one stands in the text where no carriage return drops it. */
  lemma {:induction false} MessagesShowIff(t: Text)
    ensures SomeMessageShows(Messages(t)) <==> ShowsSome(t)
    decreases |t|
  {
    hide OpaqueFree, Latest, ShowsSome;
    var n := FirstOf(10, t);
    if n == |t| {
      LatestShowsIff(t);
    } else {
      var line, rest := t[..n], t[n + 1..];
      LatestShowsIff(line);
      MessagesShowIff(rest);
      ShowsSomeIff(line, rest);
      assert t == line + [10] + rest;
    }
  }

  // ----- references interrupted by control sequences -----

  /** The text behind the control sequences it starts with. */
  function Skip(t: Text): (r: Text)
    ensures |r| <= |t| && CsiLength(r) == 0
    decreases |t|
  {
    if CsiLength(t) > 0 then Skip(t[CsiLength(t)..]) else t
  }

  /** Reading on across control sequences, the text goes on with exactly these characters and then no digit. */
  predicate Spells(t: Text, ref: Text)
    decreases |ref|
  {
    var r := Skip(t);
    if ref == [] then r == [] || !Hex(r[0]) else r != [] && r[0] == ref[0] && Spells(r[1..], ref[1..])
  }

  /** No control sequence covers this character. */
  ghost predicate Kept(t: Text, i: nat)
    requires i < |t|
  {
    forall e :: 0 <= e <= i ==> e + CsiLength(t[e..]) <= i
  }

  /** Behind a character that is no digit, or at the start, a reference is spelled across control sequences. */
  ghost predicate SpelledAt(t: Text, q: nat, ref: Text)
    requires q <= |t|
  {
    IsReference(ref) && (q == 0 || (Kept(t, q - 1) && !Hex(t[q - 1]))) && Spells(t[q..], ref)
  }

  /** The text holds a reference once its control sequences are read over. */
  ghost predicate Interrupted(t: Text) {
    exists q, ref :: 0 <= q <= |t| && SpelledAt(t, q, ref)
  }

  lemma {:induction false} SkipStrips(t: Text)
    ensures Strip(t) == Strip(Skip(t))
    decreases |t|
  {
    hide CsiLength, Strip;
    if CsiLength(t) > 0 {
      StripFirst(t);
      SkipStrips(t[CsiLength(t)..]);
    }
  }

  /** What the stripped text starts with. */
  lemma {:induction false} SpellsIff(t: Text, ref: Text)
    ensures Spells(t, ref) <==>
        |ref| <= |Strip(t)| && Strip(t)[..|ref|] == ref && (|ref| == |Strip(t)| || !Hex(Strip(t)[|ref|]))
    decreases |ref|
  {
    hide CsiLength, Strip, Hex;
    var r := Skip(t);
    SkipStrips(t);
    if r == [] {
      StripNothing();
    } else {
      StripFirst(r);
      if ref != [] {
        SpellsIff(r[1..], ref[1..]);
        ConsPrefixIff(ref, [r[0]], Strip(r[1..]));
      }
    }
  }

  lemma ConsPrefixIff(ref: Text, first: Text, rest: Text)
    requires ref != [] && |first| == 1
    ensures |ref| <= |first + rest| && (first + rest)[..|ref|] == ref <==>
            first[0] == ref[0] && |ref[1..]| <= |rest| && rest[..|ref[1..]|] == ref[1..]
  {
    if |ref| <= |first + rest| {
      assert (first + rest)[..|ref|] == first + rest[..|ref| - 1];
      assert ref == [ref[0]] + ref[1..];
    }
  }

  /** A text starts with a reference exactly when some reference is its beginning and no digit follows. */
  lemma ReferenceFirst(t: Text, ref: Text)
    requires IsReference(ref) && |ref| <= |t| && t[..|ref|] == ref && (|ref| == |t| || !Hex(t[|ref|]))
    ensures OpaqueLength(t) > 0
  {
    hide Hex;
    assert ref[..|ref|] == ref;
    OpaqueByPrefix(ref, t, |ref|);
  }

  /** Where the character before the rest of the stripped text comes from. */
  lemma {:induction false} Located(t: Text, m: nat) returns (q: nat)
    requires m <= |Strip(t)|
    ensures q <= |t| && Strip(t[q..]) == Strip(t)[m..] && (m == 0 ==> q == 0)
    ensures m > 0 ==> q > 0 && Kept(t, q - 1) && t[q - 1] == Strip(t)[m - 1]
    decreases |t|
  {
    hide CsiLength, Strip;
    if m == 0 {
      q := 0;
      assert t[0..] == t;
    } else {
      if t == [] { StripNothing(); }
      StripFirst(t);
      var n := StripStep(t);
      var before := if CsiLength(t) > 0 then 0 else 1;
      var rest := Strip(t[n..]);
      if m == before {
        q := 1;
        assert t[0..] == t;
      } else {
        var p := Located(t[n..], m - before);
        q := n + p;
        assert t[n..][p..] == t[q..];
        KeptBehind(t, n, q - 1);
      }
    }
  }

  /** A character kept behind the first step is kept. */
  lemma KeptBehind(t: Text, n: nat, i: nat)
    requires t != [] && n == StripStep(t) && n <= i < |t|
    ensures Kept(t, i) <==> Kept(t[n..], i - n)
  {
    hide CsiLength;
    assert t[0..] == t;
    forall e | 0 < e < n ensures CsiLength(t[e..]) == 0 {
      BodyHasNoEscape(t, e);
      StartsWithEscape(t[e..]);
    }
    forall e | n <= e <= i ensures CsiLength(t[e..]) == CsiLength(t[n..][e - n..]) {
      assert t[n..][e - n..] == t[e..];
    }
    if Kept(t, i) {
      forall e | 0 <= e <= i - n ensures e + CsiLength(t[n..][e..]) <= i - n { assert t[n..][e..] == t[n + e..]; }
    }
  }

  /** A kept character appears in the stripped text, followed by the stripped rest. */
  lemma {:induction false} Placed(t: Text, i: nat) returns (m: nat)
    requires i < |t| && Kept(t, i)
    ensures m < |Strip(t)| && Strip(t)[m] == t[i] && Strip(t)[m + 1..] == Strip(t[i + 1..])
    decreases |t|
  {
    hide CsiLength, Strip, Kept;
    KeptHere(t, i);
    StripFirst(t);
    var n := StripStep(t);
    if i < n {
      m := 0;
    } else {
      KeptBehind(t, n, i);
      var p := Placed(t[n..], i - n);
      assert t[n..][i - n + 1..] == t[i + 1..];
      m := if CsiLength(t) > 0 then p else p + 1;
    }
  }

  lemma KeptHere(t: Text, i: nat)
    requires i < |t| && Kept(t, i)
    ensures CsiLength(t) <= i && (i < StripStep(t) ==> i == 0 && CsiLength(t) == 0)
  {
    assert t[0..] == t;
  }

  /**
   * Exactly when removing control sequences brings a reference to light: a reference must be spelled across
   * control sequences of the text.
   */
  lemma RemovalShowsIff(t: Text)
    ensures !OpaqueFree(false, Strip(t)) <==> Interrupted(t)
  {
    hide OpaqueLength, Strip, Spells, Kept, Hex, IsReference;
    var x := Strip(t);
    if m :| 0 <= m < |x| && Matches(if m == 0 then false else Hex(x[m - 1]), x[m..]) {
      var q := Located(t, m);
      var ref := FirstReference(x[m..]);
      SpellsIff(t[q..], ref);
      assert SpelledAt(t, q, ref);
    }
    if q, ref :| 0 <= q <= |t| && SpelledAt(t, q, ref) {
      var m := SpelledShows(t, q, ref);
      NotFree(x, m);
    }
  }

  lemma SpelledShows(t: Text, q: nat, ref: Text) returns (m: nat)
    requires q <= |t| && SpelledAt(t, q, ref)
    ensures m < |Strip(t)| && !OpaqueFreeAt(Strip(t), m) && Strip(t)[m..] == Strip(t[q..])
  {
    hide OpaqueLength, Strip, Spells, Kept, Hex;
    var x := Strip(t);
    SpellsIff(t[q..], ref);
    m := 0;
    if q > 0 {
      var p := Placed(t, q - 1);
      m := p + 1;
    } else {
      assert t[0..] == t && x[0..] == x;
    }
    ReferenceFirst(x[m..], ref);
  }

  /** Control sequences hold neither line ends nor carriage returns. */
  lemma {:induction false} UndroppedStrips(t: Text)
    ensures Undropped(Strip(t)) <==> Undropped(t)
    decreases |t|
  {
    hide CsiLength, Strip, Undropped;
    if t == [] {
      StripNothing();
    } else {
      StripFirst(t);
      var n := StripStep(t);
      UndroppedStrips(t[n..]);
      if CsiLength(t) > 0 {
        CsiHasShape(t);
        assert t == t[..n] + t[n..];
        forall c | c in t[..n] ensures c != 10 && c != 13 {}
        UndroppedBehind(t[..n], t[n..]);
      } else {
        UndroppedStep(t);
        UndroppedStep([t[0]] + Strip(t[1..]));
      }
    }
  }

  lemma UndroppedStep(t: Text)
    requires t != []
    ensures Undropped(t) <==> t[0] == 10 || (t[0] != 13 && Undropped(t[1..]))
  {
  }

  lemma {:induction false} UndroppedBehind(a: Text, b: Text)
    requires 10 !in a && 13 !in a
    ensures Undropped(a + b) <==> Undropped(b)
  {
    if a == [] {
      assert a + b == b;
    } else {
      assert (a + b)[1..] == a[1..] + b;
      UndroppedBehind(a[1..], b);
    }
  }

  /** A reference spelled across control sequences, where no carriage return drops it. */
  ghost predicate InterruptedShown(t: Text) {
    exists q, ref :: 0 <= q <= |t| && SpelledAt(t, q, ref) && Undropped(t[q..])
  }

  /** What becomes of a released text: some reported line shows a reference exactly when one is spelled like that. */
  lemma ReportedShowsIff(t: Text)
    ensures SomeMessageShows(Messages(Strip(t))) <==> InterruptedShown(t)
  {
    hide OpaqueLength, Strip, Spells, Kept, Hex, IsReference, Undropped, Messages, SomeMessageShows;
    var x := Strip(t);
    MessagesShowIff(x);
    if m :| 0 <= m < |x| && ShownAt(x, m) {
      var q := Located(t, m);
      var ref := FirstReference(x[m..]);
      SpellsIff(t[q..], ref);
      UndroppedStrips(t[q..]);
      assert SpelledAt(t, q, ref);
    }
    if q, ref :| 0 <= q <= |t| && SpelledAt(t, q, ref) && Undropped(t[q..]) {
      var m := SpelledShows(t, q, ref);
      UndroppedStrips(t[q..]);
      assert ShownAt(x, m);
    }
  }

  // ----- what a second removal finds -----

  ghost predicate HasControl(t: Text) {
    exists i :: 0 <= i < |t| && CsiLength(t[i..]) > 0
  }

  lemma HasControlIs(t: Text)
    requires t != []
    ensures HasControl(t) <==> CsiLength(t) > 0 || HasControl(t[1..])
  {
    hide CsiLength;
    assert t[0..] == t;
    if HasControl(t[1..]) {
      var i :| 0 <= i < |t[1..]| && CsiLength(t[1..][i..]) > 0;
      assert t[1..][i..] == t[i + 1..];
    }
    if i :| 0 < i < |t| && CsiLength(t[i..]) > 0 { assert t[1..][i - 1..] == t[i..]; }
  }

  /** A removal changes a text exactly when it holds a control sequence. */
  lemma {:induction false} RemovalChangesIff(t: Text)
    ensures |Strip(t)| <= |t| && (Strip(t) != t <==> HasControl(t)) && (HasControl(t) ==> |Strip(t)| < |t|)
    decreases |t|
  {
    hide CsiLength, Strip, HasControl;
    if t == [] {
      StripNothing();
      NoControlInNothing();
    } else {
      StripFirst(t);
      HasControlIs(t);
      RemovalChangesIff(t[StripStep(t)..]);
    }
  }

  lemma NoControlInNothing()
    ensures !HasControl([])
  {
  }

  /** The position of the first reference, the length when there is none. */
  function FirstStart(after: bool, t: Text): (k: nat)
    ensures k <= |t|
    decreases |t|
  {
    if t == [] || Matches(after, t) then 0 else 1 + FirstStart(Hex(t[0]), t[1..])
  }

  /** Parameters, then intermediates, up to here. */
  predicate Middle(t: Text, m: nat) {
    && m <= |t| && (forall i :: 2 <= i < m ==> Parameter(t[i]) || Intermediate(t[i]))
    && (forall i, j :: 2 <= i < j < m && Intermediate(t[i]) ==> Intermediate(t[j]))
  }

  /**
   * An escape that will introduce a control sequence once references are named: the bracket of a name directly
   * behind it counts, and so does one that ends its parameters.
   */
  ghost predicate ControlAt(after: bool, t: Text) {
    var k := FirstStart(after, t);
    && t != [] && t[0] == 27
    && ((k == 1 && k < |t|)
        || (k > 1 && |t| > 1 && t[1] == 91 && exists m ::
          2 <= m <= k && m < |t| && Middle(t, m) && (m == k || FinalByte(t[m]))))
  }

  ghost predicate ControlLeft(after: bool, t: Text) {
    exists i :: 0 <= i < |t| && ControlAt(if i == 0 then after else Hex(t[i - 1]), t[i..])
  }

  lemma ControlLeftIs(after: bool, t: Text)
    requires t != []
    ensures ControlLeft(after, t) <==> ControlAt(after, t) || ControlLeft(Hex(t[0]), t[1..])
  {
    hide ControlAt, Hex;
    assert t[0..] == t;
    if ControlLeft(Hex(t[0]), t[1..]) {
      var i :| 0 <= i < |t[1..]| && ControlAt(if i == 0 then Hex(t[0]) else Hex(t[1..][i - 1]), t[1..][i..]);
      assert t[1..][i..] == t[i + 1..];
      assert ControlAt(Hex(t[i + 1 - 1]), t[i + 1..]);
    }
    if i :| 0 < i < |t| && ControlAt(Hex(t[i - 1]), t[i..]) {
      assert t[1..][i - 1..] == t[i..];
      assert ControlAt(if i - 1 == 0 then Hex(t[0]) else Hex(t[1..][i - 2]), t[1..][i - 1..]);
    }
  }

  /** Up to the first reference the named text is the original; then a bracketed word follows. */
  lemma {:induction false} NamedPrefix(after: bool, t: Text)
    ensures var k, w := FirstStart(after, t), Replace(after, t, map[]);
            && k <= |w| && t[..k] == w[..k] && (k == |t| ==> w == t)
            && (k < |t| ==> k + 1 < |w| && w[k] == 91 && FinalByte(w[k + 1]))
    decreases |t|
  {
    hide Piece, Replace, OpaqueLength, Hex, Matches;
    if t == [] {
      ReplaceNothing(after, map[]);
    } else if Matches(after, t) {
      ReplaceIs(after, t, map[]);
      NameOpens(after, t);
    } else {
      PlainStep(after, t, map[]);
      NamedPrefix(Hex(t[0]), t[1..]);
      ConsPrefix(t, Replace(Hex(t[0]), t[1..], map[]), FirstStart(Hex(t[0]), t[1..]));
    }
  }

  lemma NameOpens(after: bool, t: Text)
    requires t != [] && Matches(after, t)
    ensures var w := Piece(after, t, map[]); |w| > 1 && w[0] == 91 && FinalByte(w[1])
  {
    hide OpaqueLength;
  }

  /** A control sequence of the named text, seen in the original. */
  lemma ControlFound(after: bool, t: Text)
    requires CsiLength(Replace(after, t, map[])) > 0
    ensures ControlAt(after, t)
  {
    hide Replace, CsiLength, FirstStart, Matches;
    var k, w := FirstStart(after, t), Replace(after, t, map[]);
    NamedPrefix(after, t);
    SamePrefix(t, w, k);
    CsiHasShape(w);
    var n := CsiLength(w);
    if k > 1 {
      assert k < |t| ==> !Parameter(w[k]) && !Intermediate(w[k]);
      assert Middle(t, n - 1);
    }
  }

  lemma ControlArises(after: bool, t: Text)
    requires ControlAt(after, t)
    ensures CsiLength(Replace(after, t, map[])) > 0
  {
    hide Replace, CsiLength, FirstStart, Matches, Middle, FinalByte;
    var k, w := FirstStart(after, t), Replace(after, t, map[]);
    NamedPrefix(after, t);
    SamePrefix(t, w, k);
    if k == 1 {
      ShortShape(w);
    } else {
      var m :| 2 <= m <= k && m < |t| && Middle(t, m) && (m == k || FinalByte(t[m]));
      LongShape(t, w, k, m);
    }
  }

  lemma ShortShape(w: Text)
    requires |w| > 2 && w[0] == 27 && w[1] == 91 && FinalByte(w[2])
    ensures CsiLength(w) == 3
  {
    assert CsiShape(w, 3);
    ShapeIsCsi(w, 3);
  }

  lemma LongShape(t: Text, w: Text, k: nat, m: nat)
    requires 2 <= m <= k <= |t| && m < |w| && k <= |w| && forall i :: 0 <= i < k ==> t[i] == w[i]
    requires t[0] == 27 && t[1] == 91 && Middle(t, m) && (if m == k then w[m] == 91 else FinalByte(t[m]))
    ensures CsiLength(w) == m + 1
  {
    assert CsiShape(w, m + 1);
    ShapeIsCsi(w, m + 1);
  }

  /** Digits and dashes in front cannot start a control sequence. */
  lemma {:induction false} ControlBehind(after: bool, t: Text, n: nat)
    requires 0 < n <= |t| && (forall i :: 0 <= i < n ==> t[i] != 27)
    ensures ControlLeft(after, t) <==> ControlLeft(Hex(t[n - 1]), t[n..])
    decreases n
  {
    hide ControlLeft, Hex;
    ControlLeftIs(after, t);
    NoEscapeNoControl(after, t);
    if n > 1 {
      assert forall i :: 0 <= i < n - 1 ==> t[1..][i] == t[i + 1];
      ControlBehind(Hex(t[0]), t[1..], n - 1);
      assert t[1..][n - 1..] == t[n..];
    }
  }

  lemma NoEscapeNoControl(after: bool, t: Text)
    requires t != [] && t[0] != 27
    ensures !ControlAt(after, t)
  {
  }

  lemma {:induction false} WordHasNoControl(word: Text, rest: Text)
    requires 27 !in word
    ensures HasControl(word + rest) <==> HasControl(rest)
  {
    hide HasControl, CsiLength;
    if word == [] {
      assert word + rest == rest;
    } else {
      HasControlIs(word + rest);
      StartsWithEscape(word + rest);
      assert (word + rest)[0] == word[0] && (word + rest)[1..] == word[1..] + rest;
      WordHasNoControl(word[1..], rest);
    }
  }

  lemma NameHasNoEscape(after: bool, t: Text)
    requires t != [] && Matches(after, t)
    ensures 27 !in Piece(after, t, map[])
  {
    hide OpaqueLength;
  }

  /** Naming references leaves a control sequence exactly where the original says so. */
  lemma {:induction false} ControlLeftIff(after: bool, t: Text)
    ensures HasControl(Replace(after, t, map[])) <==> ControlLeft(after, t)
    decreases |t|
  {
    hide Replace, Piece, HasControl, ControlLeft, ControlAt, CsiLength, OpaqueLength, Matches, Hex;
    if t == [] {
      ReplaceNothing(after, map[]);
      NothingControlled(after);
    } else if Matches(after, t) {
      var n := OpaqueStep(after, t);
      MatchHasNoEscape(after, t);
      ControlBehind(after, t, n);
      ControlLeftIff(Hex(t[n - 1]), t[n..]);
      NameHasNoEscape(after, t);
      WordHasNoControl(Piece(after, t, map[]), Replace(Hex(t[n - 1]), t[n..], map[]));
      ReplaceIs(after, t, map[]);
    } else {
      var w := Replace(after, t, map[]);
      PlainStep(after, t, map[]);
      ControlLeftIff(Hex(t[0]), t[1..]);
      ControlLeftIs(after, t);
      HasControlIs(w);
      assert w[1..] == Replace(Hex(t[0]), t[1..], map[]);
      if CsiLength(w) > 0 { ControlFound(after, t); }
      if ControlAt(after, t) { ControlArises(after, t); }
    }
  }

  lemma NothingControlled(after: bool)
    ensures !HasControl([]) && !ControlLeft(after, [])
  {
  }

  lemma MatchHasNoEscape(after: bool, t: Text)
    requires t != [] && Matches(after, t)
    ensures forall i :: 0 <= i < OpaqueStep(after, t) ==> t[i] != 27
  {
    hide OpaqueLength;
    OpaqueShape(t);
  }

  /**
   * The second removal touches the released text exactly when one removal left a control sequence in the input, or
   * the name of a reference completes one.
   */
  lemma SecondRemovalIff(t: Text)
    ensures Strip(Human(t, map[])) != Human(t, map[]) <==> ControlLeft(false, Links(Strip(t), map[]))
  {
    hide Replace, Links, Strip, HasControl, ControlLeft;
    ControlLeftIff(false, Links(Strip(t), map[]));
    RemovalChangesIff(Human(t, map[]));
  }

  // ----- two inputs that are shown -----

  /** Where no reference starts, nothing is replaced. */
  lemma {:induction false} FreePrefix(after: bool, t: Text, n: nat, labels: Labels)
    requires n <= |t| && forall i :: 0 <= i < n ==> !Matches(if i == 0 then after else Hex(t[i - 1]), t[i..])
    ensures Replace(after, t, labels) == t[..n] + Replace(if n == 0 then after else Hex(t[n - 1]), t[n..], labels)
    decreases n
  {
    hide OpaqueLength, Replace, Hex, Matches;
    if n == 0 {
      assert t[0..] == t && t[..0] + Replace(after, t, labels) == Replace(after, t, labels);
    } else {
      assert t[0..] == t;
      PlainStep(after, t, labels);
      forall i | 0 <= i < n - 1 ensures !Matches(if i == 0 then Hex(t[0]) else Hex(t[1..][i - 1]), t[1..][i..]) {
        assert t[1..][i..] == t[i + 1..];
        assert !Matches(if i + 1 == 0 then after else Hex(t[i + 1 - 1]), t[i + 1..]);
      }
      FreePrefix(Hex(t[0]), t[1..], n - 1, labels);
      var rest := Replace(Hex(t[n - 1]), t[n..], labels);
      assert t[1..][n - 1..] == t[n..];
      assert [t[0]] + (t[1..][..n - 1] + rest) == t[..n] + rest;
    }
  }

  /** Short of 32 digits and dashes nothing can start a reference. */
  lemma StopNear(after: bool, t: Text, i: nat)
    requires i < |t| && i < 32 && !HexOrDash(t[i])
    ensures !Matches(after, t)
  {
    if OpaqueLength(t) > 0 { OpaqueShape(t); }
  }

  lemma DigitsArePlain(t: Text)
    requires Digits(t)
    ensures 27 !in t && 58 !in t && 45 !in t && 91 !in t && 10 !in t && 13 !in t
  {
  }

  lemma NoEscapeAtAll(t: Text)
    requires 27 !in t
    ensures Strip(t) == t
  {
    NoEscape(t, |t|);
    StripNothing();
    assert t[|t|..] == [] && t[..|t|] + [] == t;
  }

  /** Removing one reset sequence behind escape-free text. */
  lemma ResetDropped(a: Text, b: Text)
    requires 27 !in a && 27 !in b
    ensures Strip(a + RESET + b) == a + b
  {
    hide CsiLength, Strip;
    var t := a + RESET + b;
    var u := RESET + b;
    assert t[..|a|] == a && t[|a|..] == u;
    NoEscape(t, |a|);
    ResetFirst(b);
    assert u[3..] == b;
    NoEscapeAtAll(b);
  }

  lemma ResetFirst(b: Text)
    ensures Strip(RESET + b) == Strip((RESET + b)[3..])
  {
    hide Strip;
    ShapeIsCsi(RESET + b, 3);
    StripFirst(RESET + b);
  }

  lemma EscapeStays(a: Text, b: Text)
    requires 27 !in a && b != [] && b[0] != 91
    ensures Strip(a + [27] + b) == a + [27] + Strip(b)
  {
    hide CsiLength, Strip;
    var t := a + [27] + b;
    assert t[..|a|] == a && t[|a|..] == [27] + b;
    NoEscape(t, |a|);
    assert ([27] + b)[1..] == b;
    EscapeKept([27] + b);
    assert a + ([27] + Strip(b)) == a + [27] + Strip(b);
  }

  lemma LineOf(t: Text)
    requires 10 !in t && 13 !in t && t != []
    ensures Messages(t + [10]) == [t]
  {
    var line := t + [10];
    assert line[|t|] == 10;
    assert FirstOf(10, line) == |t|;
    assert line[..|t|] == t && line[|t| + 1..] == [];
    assert BehindLast(13, t) == 0 && t[0..] == t;
    assert Messages([]) == [];
  }

  lemma DigitsAreReference(t: Text, rest: Text)
    requires Digits(t) && |t| == 32 && (rest == [] || !Hex(rest[0]))
    ensures OpaqueLength(t + rest) == 32 && !OpaqueFree(false, t + rest)
  {
    var all := t + rest;
    assert forall i :: 0 <= i < 32 ==> all[i] == t[i];
    RunIs(Hex, all, 32);
    UuidRun(all);
    assert all[0..] == all;
    assert !OpaqueFreeAt(all, 0);
  }

  lemma CutDigitsFree(a: Text, b: Text)
    requires Digits(a) && Digits(b) && |a| < 32 && |b| < 32
    ensures OpaqueFree(false, a + RESET + b + [10])
  {
    var s := a + RESET + b + [10];
    forall i | 0 <= i < |s| ensures !Matches(if i == 0 then false else Hex(s[i - 1]), s[i..]) {
      var stop := if i <= |a| then |a| else if i < |a| + 3 then i else |s| - 1;
      assert s[i..][stop - i] == s[stop] && !HexOrDash(s[stop]);
      StopNear(if i == 0 then false else Hex(s[i - 1]), s[i..], stop - i);
    }
  }

  /**
   * Two halves of an identifier around nested control sequences, in one chunk and without any checkpoint: the
   * filter releases them apart, and the second removal reports them as one.
   */
  lemma NestedHalvesJoin(a: Text, b: Text)
    requires Digits(a) && Digits(b) && a != [] && b != [] && |a| + |b| == 32
    ensures var (s, released) := Feed(EMPTY, map[], a + [27] + RESET + [91, 109] + b + [10], false);
            && s == EMPTY && OpaqueFree(false, released)
            && Messages(Strip(released)) == [a + b] && !OpaqueFree(false, a + b)
  {
    hide Strip, Human, Feed, Messages, OpaqueFree;
    var t := a + [27] + RESET + [91, 109] + b + [10];
    var s := a + RESET + b + [10];
    DigitsArePlain(a);
    DigitsArePlain(b);
    var inner := [91, 109] + b + [10];
    assert t == a + [27] + (RESET + inner);
    EscapeStays(a, RESET + inner);
    ResetDropped([], inner);
    assert [] + RESET + inner == RESET + inner && [] + inner == inner;
    assert a + [27] + inner == s;
    CutDigitsFree(a, b);
    FreeHuman(t, s);
    assert Cut(t);
    FeedCut(map[], t);
    ResetDropped(a, b + [10]);
    assert s == a + RESET + (b + [10]);
    assert a + (b + [10]) == (a + b) + [10];
    LineOf(a + b);
    DigitsAreReference(a + b, []);
    assert a + b + [] == a + b;
  }

  lemma FreeHuman(t: Text, s: Text)
    requires Strip(t) == s && 58 !in s && OpaqueFree(false, s)
    ensures Human(t, map[]) == s
  {
    hide Strip, Links, Replace, OpaqueLength;
    NoColonNoLink(s, map[]);
    FreePrefix(false, s, |s|, map[]);
    ReplaceNothing(if |s| == 0 then false else Hex(s[|s| - 1]), map[]);
    assert s[..|s|] + [] == s && s[|s|..] == [];
  }

  const ASK: Text := [97, 115, 107, 93]

  /**
   * No control sequence in the input at all: the name that replaces a reference behind an escape completes one, and
   * its removal leaves a digit that completes another reference.
   */
  lemma NamedReferenceJoins(a: Text, r: Text)
    requires Digits(a) && |a| == 31 && Digits(r) && |r| == 32
    ensures var t := a + [27] + r + [10];
            && Strip(t) == t && Human(t, map[]) == a + [27] + TASK + [10]
            && Messages(Strip(Human(t, map[]))) == [a + ASK] && !OpaqueFree(false, a + ASK)
  {
    hide Strip, Human, Messages, OpaqueFree;
    DigitsArePlain(a);
    DigitsArePlain(r);
    var t := a + [27] + r + [10];
    assert t == a + [27] + (r + [10]);
    EscapeStays(a, r + [10]);
    NoEscapeAtAll(r + [10]);
    NameBehindEscape(a, r);
    assert TASK == [91, 116] + ASK;
    var w := a + [27] + TASK + [10];
    SequenceOfName(a);
    assert a + (ASK + [10]) == (a + ASK) + [10];
    LineOf(a + ASK);
    DigitsAreReference(a + [97], [115, 107, 93]);
    assert (a + [97]) + [115, 107, 93] == a + ASK;
  }

  lemma NameBehindEscape(a: Text, r: Text)
    requires Digits(a) && |a| == 31 && Digits(r) && |r| == 32 && Strip(a + [27] + r + [10]) == a + [27] + r + [10]
    ensures Human(a + [27] + r + [10], map[]) == a + [27] + TASK + [10]
  {
    hide Strip, Links, Replace, OpaqueLength, Hex, HexOrDash;
    var t := a + [27] + r + [10];
    DigitsArePlain(a);
    DigitsArePlain(r);
    NoColonNoLink(t, map[]);
    EscapeStops();
    forall i | 0 <= i < 32 ensures !Matches(if i == 0 then false else Hex(t[i - 1]), t[i..]) {
      assert t[i..][31 - i] == t[31] == 27;
      StopNear(if i == 0 then false else Hex(t[i - 1]), t[i..], 31 - i);
    }
    FreePrefix(false, t, 32, map[]);
    var rest := r + [10];
    assert t[32..] == rest && t[..32] == a + [27] && t[31] == 27;
    NewlineStops();
    DigitsAreReference(r, [10]);
    ReplaceIs(false, rest, map[]);
    assert rest[..32] == r && rest[32..] == [10];
    NewlineAlone();
    assert a + [27] + (TASK + [10]) == a + [27] + TASK + [10];
  }

  lemma EscapeStops()
    ensures !Hex(27) && !HexOrDash(27)
  {
  }

  lemma NewlineAlone()
    ensures Replace(true, [10], map[]) == [10]
  {
    FreePrefix(true, [10], 1, map[]);
    ReplaceNothing(Hex(10), map[]);
  }

  lemma SequenceOfName(a: Text)
    requires 27 !in a
    ensures Strip(a + [27] + TASK + [10]) == a + (ASK + [10])
  {
    hide CsiLength, Strip;
    var w := a + [27] + TASK + [10];
    var u := [27] + TASK + [10];
    assert w[..|a|] == a && w[|a|..] == u;
    NoEscape(w, |a|);
    assert u == [27, 91, 116] + ASK + [10];
    assert CsiShape(u, 3);
    ShapeIsCsi(u, 3);
    StripFirst(u);
    assert u[3..] == ASK + [10];
    NoEscapeAtAll(ASK + [10]);
  }
}
