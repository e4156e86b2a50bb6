/**
 * Published text read off the decoded text in one pass (core/presentation.py, adapters/clearml/console_worker.py):
 * where links are named and control sequences were removed once, one step reads over a control sequence that is left
 * or completed by a name, takes a reference as its name, or reads a plain character.
 */
module PublishedReading {
  import opened Prelude
  import opened HumanText
  import opened HumanTextStreaming
  import opened PublishedText

  /**
   * A moment of the reading: letters of a name still to come, whether the last character read was a digit, whether the
   * last character of the text was one, and the rest of the text.
   */
  datatype Reading = Reading(letters: Text, before: bool, after: bool, rest: Text)

  /** Whether a reference starts at this position. */
  predicate MatchesAt(after: bool, t: Text, k: nat)
    requires k <= |t|
  {
    Matches(if k == 0 then after else Hex(t[k - 1]), t[k..])
  }

  /**
   * The last position of a control sequence at the start, or of the reference whose name completes one; zero for
   * none.
   */
  function ControlEnd(after: bool, t: Text): (m: nat)
    ensures m > 0 ==> m < |t| && m <= FirstStart(after, t)
  {
    var k := FirstStart(after, t);
    if t == [] || t[0] != 27 || k == 0 then 0
    else if k == 1 then (if |t| > 1 then 1 else 0)
    else if t[1] != 91 then 0
    else
      var a := 2 + Run(Parameter, t[2..k]);
      var b := a + Run(Intermediate, t[a..k]);
      if b < |t| && (b == k || FinalByte(t[b])) then b else 0
  }

  /** The name of the reference at the start of the text. */
  function Named(t: Text): (name: Text)
    requires OpaqueLength(t) > 0
    ensures 2 < |name| < 32
  {
    Reference(t[..OpaqueLength(t)], map[])
  }

  predicate Done(r: Reading) {
    r.letters == [] && r.rest == []
  }

  /** One step: the character read, if any, and the next moment. */
  function Next(r: Reading): (Option<int>, Reading) {
    if r.letters != [] then
      (Some(r.letters[0]), r.(letters := r.letters[1..], before := Hex(r.letters[0])))
    else if r.rest == [] then (None, r)
    else if Matches(r.after, r.rest) then
      (None, Reading(Named(r.rest), r.before, true, r.rest[OpaqueLength(r.rest)..]))
    else
      var m := ControlEnd(r.after, r.rest);
      if m == 0 then (Some(r.rest[0]), Reading([], Hex(r.rest[0]), Hex(r.rest[0]), r.rest[1..]))
      else if MatchesAt(r.after, r.rest, m) then
        // The bracket of the name ends the sequence, or starts it when it stands right behind the escape.
        (None, Reading(Named(r.rest[m..])[if m == 1 then 2 else 1..], r.before, true,
          r.rest[m + OpaqueLength(r.rest[m..])..]))
      else (None, Reading([], r.before, Hex(r.rest[m]), r.rest[m + 1..]))
  }

  function Size(r: Reading): nat {
    |r.letters| + |r.rest|
  }

  lemma NextIsSmaller(r: Reading)
    requires !Done(r)
    ensures Size(Next(r).1) < Size(r)
  {
    hide Uuid;
    if r.letters == [] && Matches(r.after, r.rest) { OpaqueShape(r.rest); }
    var m := ControlEnd(r.after, r.rest);
    if r.letters == [] && m > 0 && MatchesAt(r.after, r.rest, m) { OpaqueShape(r.rest[m..]); }
  }

  /** From this moment on exactly these characters are read, and then no digit. */
  predicate SpellsFrom(r: Reading, ref: Text)
    decreases Size(r)
  {
    if Done(r) then ref == []
    else
      NextIsSmaller(r);
      var (c, r2) := Next(r);
      if c.None? then SpellsFrom(r2, ref)
      else if ref == [] then !Hex(c.value)
      else c.value == ref[0] && SpellsFrom(r2, ref[1..])
  }

  /** The moment after `j` steps. */
  function At(v: Text, j: nat): Reading {
    if j == 0 then Reading([], false, false, v) else Next(At(v, j - 1)).1
  }

  /** Behind no digit, this moment starts reading a reference. */
  ghost predicate ReadsReference(v: Text, j: nat, ref: Text) {
    IsReference(ref) && !At(v, j).before && SpellsFrom(At(v, j), ref)
  }

  /** Somewhere a reference is read. */
  ghost predicate SpelledIn(v: Text) {
    exists j: nat, ref :: ReadsReference(v, j, ref)
  }

  /** Somewhere a reference is read, and no carriage return follows before the end of its line. */
  ghost predicate SpelledShown(v: Text) {
    exists j: nat, ref :: ReadsReference(v, j, ref) && Undropped(At(v, j).rest)
  }

  // ----- the reading is the twice cleaned text -----

  function ReadOut(r: Reading): Text
    decreases Size(r)
  {
    if Done(r) then []
    else
      NextIsSmaller(r);
      var (c, r2) := Next(r);
      (if c.Some? then [c.value] else []) + ReadOut(r2)
  }

  /** What the rest of the text becomes once references are named. */
  function Ahead(r: Reading): Text {
    r.letters + Replace(r.after, r.rest, map[])
  }

  lemma MatchesShift(after: bool, t: Text, i: nat)
    requires 0 < i <= |t|
    ensures MatchesAt(after, t, i) == MatchesAt(Hex(t[0]), t[1..], i - 1)
  {
    hide OpaqueLength, Hex, Matches;
    assert t[1..][i - 1..] == t[i..];
  }

  lemma MatchesHere(after: bool, t: Text)
    ensures MatchesAt(after, t, 0) == Matches(after, t)
  {
    hide Matches;
    assert t[0..] == t;
  }

  lemma {:induction false} FirstStartIs(after: bool, t: Text)
    ensures var k := FirstStart(after, t);
            (forall i :: 0 <= i < k ==> !MatchesAt(after, t, i)) && (k < |t| ==> MatchesAt(after, t, k))
    decreases |t|
  {
    hide MatchesAt, Matches, Hex;
    MatchesHere(after, t);
    if t != [] && !Matches(after, t) {
      FirstStartIs(Hex(t[0]), t[1..]);
      forall i | 0 < i <= |t| ensures MatchesAt(after, t, i) == MatchesAt(Hex(t[0]), t[1..], i - 1)
      { MatchesShift(after, t, i); }
    }
  }

  /** The text up to a position in front of which no reference starts is not changed. */
  lemma UpTo(after: bool, t: Text, m: nat)
    requires 0 < m <= |t| && m <= FirstStart(after, t)
    ensures Replace(after, t, map[]) == t[..m] + Replace(Hex(t[m - 1]), t[m..], map[])
  {
    hide OpaqueLength, Hex, Matches, Replace;
    FirstStartIs(after, t);
    forall i | 0 <= i < m ensures !Matches(if i == 0 then after else Hex(t[i - 1]), t[i..]) {
      assert !MatchesAt(after, t, i);
    }
    FreePrefix(after, t, m, map[]);
  }

  lemma NameTaken(after: bool, t: Text)
    requires t != [] && Matches(after, t)
    ensures Replace(after, t, map[]) == Named(t) + Replace(true, t[OpaqueLength(t)..], map[])
    ensures 27 !in Named(t) && 10 !in Named(t) && 13 !in Named(t) && Named(t)[0] == 91 && FinalByte(Named(t)[1])
  {
    hide Uuid, Replace;
    OpaqueShape(t);
    ReplaceIs(after, t, map[]);
  }

  /** Parameters and intermediates that stop at this position do not stop earlier. */
  lemma MiddleEnds(t: Text, k: nat, m: nat)
    requires 2 <= m <= k <= |t| && Middle(t, m) && (m == k || FinalByte(t[m]))
    ensures var a := 2 + Run(Parameter, t[2..k]); a <= k && m == a + Run(Intermediate, t[a..k])
  {
    var a := 2;
    while a < m && Parameter(t[a])
      invariant 2 <= a <= m && forall i :: 2 <= i < a ==> Parameter(t[i])
    {
      a := a + 1;
    }
    forall i | 0 <= i < a - 2 ensures Parameter(t[2..k][i]) { assert t[2..k][i] == t[i + 2]; }
    assert a < k ==> t[2..k][a - 2] == t[a];
    RunIs(Parameter, t[2..k], a - 2);
    forall i | 0 <= i < m - a ensures Intermediate(t[a..k][i]) {
      assert Intermediate(t[a]);
      assert t[a..k][i] == t[a + i];
    }
    assert m < k ==> t[a..k][m - a] == t[m];
    RunIs(Intermediate, t[a..k], m - a);
  }

  lemma RunsAreMiddle(t: Text, k: nat)
    requires 2 <= k <= |t|
    ensures var a := 2 + Run(Parameter, t[2..k]); a <= k && var b := a + Run(Intermediate, t[a..k]);
            b <= k && Middle(t, b)
  {
    var a := 2 + Run(Parameter, t[2..k]);
    var b := a + Run(Intermediate, t[a..k]);
    forall i | 2 <= i < b ensures if i < a then Parameter(t[i]) else Intermediate(t[i]) {
      if i < a { assert t[2..k][i - 2] == t[i]; } else { assert t[a..k][i - a] == t[i]; }
    }
  }

  /** A step meets a control sequence exactly when the named text has one there, and knows its length. */
  lemma ControlEndIs(after: bool, t: Text)
    ensures var m := ControlEnd(after, t); CsiLength(Replace(after, t, map[])) == if m == 0 then 0 else if m == 1 then 3
        else m + 1
  {
    hide Replace, CsiLength, FirstStart, Matches, Middle, FinalByte, Parameter, Intermediate;
    var k, w, m := FirstStart(after, t), Replace(after, t, map[]), ControlEnd(after, t);
    NamedPrefix(after, t);
    SamePrefix(t, w, k);
    if m == 1 {
      ShortShape(w);
    } else if m > 1 {
      RunsAreMiddle(t, k);
      LongShape(t, w, k, m);
    } else if CsiLength(w) > 0 {
      ControlFound(after, t);
      ControlHasEnd(after, t);
    }
  }

  lemma ControlHasEnd(after: bool, t: Text)
    requires ControlAt(after, t)
    ensures ControlEnd(after, t) > 0
  {
    hide FirstStart, Middle, FinalByte, Parameter, Intermediate;
    var k := FirstStart(after, t);
    if k > 1 {
      var m :| 2 <= m <= k && m < |t| && Middle(t, m) && (m == k || FinalByte(t[m]));
      MiddleEnds(t, k, m);
    }
  }

  /** A sequence completed by a name leaves the rest of the name and what follows. */
  lemma NameLeaves(after: bool, t: Text, m: nat)
    requires m == ControlEnd(after, t) > 0 && MatchesAt(after, t, m)
    ensures OpaqueLength(t[m..]) > 0
    ensures var cut, name := if m == 1 then 2 else 1, Named(t[m..]);
            && m + cut <= |Replace(after, t, map[])| && 27 !in name[cut..] && 10 !in name[cut..] && 13 !in name[cut..]
            && Replace(after, t, map[])[m + cut..] == name[cut..] + Replace(true, t[m + OpaqueLength(t[m..])..], map[])
  {
    hide Replace, FirstStart, OpaqueLength, Hex, ControlEnd, Named;
    UpTo(after, t, m);
    NameTaken(Hex(t[m - 1]), t[m..]);
    var name, n := Named(t[m..]), OpaqueLength(t[m..]);
    var cut := if m == 1 then 2 else 1;
    assert t[m..][n..] == t[m + n..];
    var rest := Replace(true, t[m + n..], map[]);
    assert (t[..m] + (name + rest))[m + cut..] == name[cut..] + rest;
    forall c | c in name[cut..] ensures c in name {}
  }

  /** A sequence left in the text leaves what follows it. */
  lemma SequenceLeaves(after: bool, t: Text, m: nat)
    requires m == ControlEnd(after, t) > 0 && !MatchesAt(after, t, m)
    ensures m > 1 && m + 1 <= |Replace(after, t, map[])|
    ensures Replace(after, t, map[])[m + 1..] == Replace(Hex(t[m]), t[m + 1..], map[])
  {
    hide Replace, FirstStart, Hex, ControlEnd, MatchesAt;
    NotFirst(after, t, m);
    UpTo(after, t, m + 1);
  }

  /** Behind the control sequence the named text is what the next moment has ahead. */
  lemma ControlLeaves(r: Reading)
    requires r.letters == [] && r.rest != [] && !Matches(r.after, r.rest) && ControlEnd(r.after, r.rest) > 0
    ensures Next(r).0.None? && 27 !in Next(r).1.letters && 10 !in Next(r).1.letters && 13 !in Next(r).1.letters
    ensures CsiLength(Ahead(r)) > 0 && Ahead(Next(r).1) == Ahead(r)[CsiLength(Ahead(r))..]
  {
    hide Replace, CsiLength, FirstStart, OpaqueLength, Hex, ControlEnd, Named, Matches, MatchesAt;
    var t, m, w := r.rest, ControlEnd(r.after, r.rest), Replace(r.after, r.rest, map[]);
    assert [] + w == w;
    ControlEndIs(r.after, t);
    if MatchesAt(r.after, t, m) {
      NameLeaves(r.after, t, m);
    } else {
      SequenceLeaves(r.after, t, m);
      assert [] + Replace(Hex(t[m]), t[m + 1..], map[]) == Replace(Hex(t[m]), t[m + 1..], map[]);
    }
  }

  lemma NotFirst(after: bool, t: Text, m: nat)
    requires m == ControlEnd(after, t) > 0 && !MatchesAt(after, t, m)
    ensures m > 1 && m < FirstStart(after, t)
  {
    hide Matches, OpaqueLength;
    FirstStartIs(after, t);
  }

  /** Reading on reads the named text without its control sequences. */
  lemma {:induction false} ReadIs(r: Reading)
    requires 27 !in r.letters
    ensures ReadOut(r) == Strip(Ahead(r))
    decreases Size(r)
  {
    hide Replace, CsiLength, Strip, OpaqueLength, Hex, ControlEnd, Named, Matches, MatchesAt;
    if Done(r) {
      ReplaceNothing(r.after, map[]);
      StripNothing();
    } else {
      NextIsSmaller(r);
      var (c, r2) := Next(r);
      var w := Ahead(r);
      if r.letters != [] {
        assert w[0] == r.letters[0] && w[1..] == Ahead(r2);
        StartsWithEscape(w);
        StripFirst(w);
      } else if Matches(r.after, r.rest) {
        NameTaken(r.after, r.rest);
        assert [] + Replace(r.after, r.rest, map[]) == Ahead(r2);
      } else if ControlEnd(r.after, r.rest) > 0 {
        ControlLeaves(r);
        StripFirst(w);
      } else {
        PlainStep(r.after, r.rest, map[]);
        assert w == Replace(r.after, r.rest, map[]);
        ControlEndIs(r.after, r.rest);
        StripFirst(w);
        assert w[1..] == Ahead(r2);
      }
      ReadIs(r2);
    }
  }

  lemma {:induction false} SpellsFromIff(r: Reading, ref: Text)
    ensures SpellsFrom(r, ref) <==>
            |ref| <= |ReadOut(r)| && ReadOut(r)[..|ref|] == ref && (|ref| == |ReadOut(r)| || !Hex(ReadOut(r)[|ref|]))
    decreases Size(r)
  {
    hide Next, Hex;
    if !Done(r) {
      NextIsSmaller(r);
      var (c, r2) := Next(r);
      if c.None? {
        SpellsFromIff(r2, ref);
        assert ReadOut(r) == ReadOut(r2);
      } else if ref != [] {
        SpellsFromIff(r2, ref[1..]);
        ConsPrefixIff(ref, [c.value], ReadOut(r2));
      }
    }
  }

  /** Every moment stands somewhere in what is read, behind the character it remembers. */
  lemma {:induction false} StandsAt(v: Text, j: nat) returns (m: nat)
    ensures var x := ReadOut(At(v, 0));
            m <= |x| && x[m..] == ReadOut(At(v, j)) && At(v, j).before == (m > 0 && Hex(x[m - 1]))
  {
    hide OpaqueLength, ControlEnd, Named, Matches, MatchesAt, Hex, ReadOut;
    var x := ReadOut(At(v, 0));
    if j == 0 {
      m := 0;
      assert x[0..] == x;
    } else {
      m := StandsAt(v, j - 1);
      var r := At(v, j - 1);
      ReadStep(r);
      if Next(r).0.Some? {
        assert x[m..][0] == x[m] && x[m..][1..] == x[m + 1..];
        m := m + 1;
      }
    }
  }

  lemma ReadStep(r: Reading)
    ensures var (c, r2) := Next(r);
            if c.Some? then ReadOut(r) == [c.value] + ReadOut(r2) && r2.before == Hex(c.value)
            else ReadOut(r) == ReadOut(r2) && r2.before == r.before
  {
    hide OpaqueLength, ControlEnd, Named, Matches, MatchesAt, Hex;
    if !Done(r) { NextIsSmaller(r); }
  }

  /** Every place of what is read is some moment's. */
  lemma {:induction false} MomentAt(v: Text, j: nat, n: nat) returns (i: nat)
    requires n <= |ReadOut(At(v, j))|
    ensures |ReadOut(At(v, i))| == n
    decreases Size(At(v, j))
  {
    hide Next, ReadOut;
    var r := At(v, j);
    if |ReadOut(r)| == n {
      i := j;
    } else {
      NotDone(r);
      NextIsSmaller(r);
      ReadStep(r);
      assert At(v, j + 1) == Next(r).1;
      i := MomentAt(v, j + 1, n);
    }
  }

  lemma NotDone(r: Reading)
    requires ReadOut(r) != []
    ensures !Done(r)
  {
  }

  /** What is read has a reference behind a certain place exactly as the moment there says. */
  lemma ReadsIff(v: Text, j: nat, ref: Text, m: nat)
    requires var x := ReadOut(At(v, 0));
            m <= |x| && x[m..] == ReadOut(At(v, j)) && At(v, j).before == (m > 0 && Hex(x[m - 1]))
    ensures ReadsReference(v, j, ref) ==> m < |ReadOut(At(v, 0))| && !OpaqueFreeAt(ReadOut(At(v, 0)), m)
  {
    hide At, ReadOut, SpellsFrom, OpaqueLength, Hex;
    var x := ReadOut(At(v, 0));
    SpellsFromIff(At(v, j), ref);
    if ReadsReference(v, j, ref) { ReferenceFirst(x[m..], ref); }
  }

  /** A reference of what is read, and the moment that starts it. */
  lemma ReadAt(v: Text, m: nat) returns (j: nat, ref: Text)
    requires m < |ReadOut(At(v, 0))| && !OpaqueFreeAt(ReadOut(At(v, 0)), m)
    ensures ReadsReference(v, j, ref) && ReadOut(At(v, j)) == ReadOut(At(v, 0))[m..]
  {
    hide At, ReadOut, SpellsFrom, OpaqueLength, Hex, IsReference;
    var x := ReadOut(At(v, 0));
    j := MomentAt(v, 0, |x| - m);
    var n := StandsAt(v, j);
    assert |x[n..]| == |x| - n;
    ref := FirstReference(x[m..]);
    SpellsFromIff(At(v, j), ref);
  }

  lemma StartReads(t: Text)
    ensures ReadOut(At(Links(Strip(t), map[]), 0)) == Strip(Human(t, map[]))
  {
    hide Strip, Links, Replace, ReadOut;
    var v := Links(Strip(t), map[]);
    ReadIs(At(v, 0));
    assert [] + Replace(false, v, map[]) == Replace(false, v, map[]);
  }

  /**
   * Main result: published text shows a reference if and only if reading the decoded text, cleaned once and with its
   * links named, spells one.
   */
  lemma PublishedShowsIff(t: Text)
    ensures !OpaqueFree(false, Strip(Human(t, map[]))) <==> SpelledIn(Links(Strip(t), map[]))
  {
    hide OpaqueFree, OpaqueFreeAt, Human, Strip, Links, ReadsReference, ReadOut, At;
    var v, x := Links(Strip(t), map[]), Strip(Human(t, map[]));
    StartReads(t);
    if !OpaqueFree(false, x) {
      var m := SomeMatch(x);
      var j, ref := ReadAt(v, m);
    }
    if j: nat, ref :| ReadsReference(v, j, ref) {
      var m := StandsAt(v, j);
      ReadsIff(v, j, ref, m);
      NotFree(x, m);
    }
  }

  // ----- what is reported -----

  /** No name and no control sequence ends a line or drops one. */
  lemma {:induction false} UndroppedReads(r: Reading)
    requires 27 !in r.letters && 10 !in r.letters && 13 !in r.letters
    ensures Undropped(ReadOut(r)) <==> Undropped(r.rest)
    decreases Size(r)
  {
    hide Strip, Replace, Undropped;
    ReadIs(r);
    UndroppedStrips(Ahead(r));
    UndroppedBehind(r.letters, Replace(r.after, r.rest, map[]));
    UndroppedNames(r.after, r.rest);
  }

  lemma {:induction false} UndroppedNames(after: bool, t: Text)
    ensures Undropped(Replace(after, t, map[])) <==> Undropped(t)
    decreases |t|
  {
    hide Replace, OpaqueLength, Hex, Undropped, Named, Matches;
    if t == [] {
      ReplaceNothing(after, map[]);
    } else if Matches(after, t) {
      var n := OpaqueLength(t);
      MatchIsLine(after, t);
      NameTaken(after, t);
      UndroppedNames(true, t[n..]);
      assert t == t[..n] + t[n..];
      UndroppedBehind(t[..n], t[n..]);
      UndroppedBehind(Named(t), Replace(true, t[n..], map[]));
    } else {
      PlainStep(after, t, map[]);
      UndroppedNames(Hex(t[0]), t[1..]);
      UndroppedStep(t);
      UndroppedStep(Replace(after, t, map[]));
      assert Replace(after, t, map[])[1..] == Replace(Hex(t[0]), t[1..], map[]);
    }
  }

  lemma MatchIsLine(after: bool, t: Text)
    requires Matches(after, t)
    ensures 0 < OpaqueLength(t) <= |t| && 10 !in t[..OpaqueLength(t)] && 13 !in t[..OpaqueLength(t)]
  {
    hide OpaqueLength;
    OpaqueShape(t);
  }

  lemma {:induction false} LettersPlain(v: Text, j: nat)
    ensures 27 !in At(v, j).letters && 10 !in At(v, j).letters && 13 !in At(v, j).letters
  {
    hide Named, OpaqueLength, ControlEnd, MatchesAt, Hex, Matches;
    if j > 0 {
      LettersPlain(v, j - 1);
      var r := At(v, j - 1);
      if r.letters != [] {
        forall c | c in r.letters[1..] ensures c in r.letters {}
      } else if r.rest != [] {
        if Matches(r.after, r.rest) {
          NameTaken(r.after, r.rest);
        } else if ControlEnd(r.after, r.rest) > 0 {
          ControlLeaves(r);
        }
      }
    }
  }

  /**
   * Main result: some line reported for rendered text shows a reference if and only if reading the decoded text spells
   * one that no carriage return drops.
   */
  lemma DecodedShowsIff(t: Text)
    ensures SomeMessageShows(Messages(Strip(Human(t, map[])))) <==> SpelledShown(Links(Strip(t), map[]))
  {
    hide OpaqueFree, OpaqueFreeAt, Human, Strip, Links, ReadsReference, ReadOut, At, Messages, SomeMessageShows,
      Undropped;
    var v, x := Links(Strip(t), map[]), Strip(Human(t, map[]));
    StartReads(t);
    MessagesShowIff(x);
    if m :| 0 <= m < |x| && ShownAt(x, m) {
      var j, ref := ReadAt(v, m);
      LettersPlain(v, j);
      UndroppedReads(At(v, j));
    }
    if j: nat, ref :| ReadsReference(v, j, ref) && Undropped(At(v, j).rest) {
      var m := StandsAt(v, j);
      ReadsIff(v, j, ref, m);
      LettersPlain(v, j);
      UndroppedReads(At(v, j));
      assert ShownAt(x, m);
    }
  }
}
