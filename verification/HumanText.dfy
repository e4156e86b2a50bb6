/**
 * Human-facing text (core/presentation.py): control sequences removed, links and opaque references replaced.
 * Text is a list of code points, so that escaped bytes (U+DC80..U+DCFF) are representable.
 */
module HumanText {
  import opened Prelude

  type Text = seq<int>

  type Labels = map<Text, Text>

  function Codes(s: string): Text {
    seq(|s|, i requires 0 <= i < |s| => s[i] as int)
  }

  // ----- character classes -----

  predicate Space(c: int) {
    9 <= c <= 13 || 28 <= c <= 32 || c == 0x85 || c == 0xA0 || c == 0x1680 || 0x2000 <= c <= 0x200A
    || c == 0x2028 || c == 0x2029 || c == 0x202F || c == 0x205F || c == 0x3000
  }

  predicate Hex(c: int) {
    48 <= c <= 57 || 65 <= c <= 70 || 97 <= c <= 102
  }

  predicate Parameter(c: int) {
    0x30 <= c <= 0x3F
  }

  predicate Intermediate(c: int) {
    0x20 <= c <= 0x2F
  }

  predicate FinalByte(c: int) {
    0x40 <= c <= 0x7E
  }

  /** Anything but white space, angle brackets and quotes. */
  predicate UrlChar(c: int) {
    !Space(c) && c != 60 && c != 62 && c != 34 && c != 39
  }

  /** Length of the longest prefix of characters satisfying `p`. */
  function Run(p: int -> bool, t: Text): (n: nat)
    ensures n <= |t| && (forall i :: 0 <= i < n ==> p(t[i])) && (n < |t| ==> !p(t[n]))
  {
    if t == [] || !p(t[0]) then 0 else 1 + Run(p, t[1..])
  }

  lemma {:induction false} RunIs(p: int -> bool, t: Text, n: nat)
    requires n <= |t| && (forall i :: 0 <= i < n ==> p(t[i])) && (n < |t| ==> !p(t[n]))
    ensures Run(p, t) == n
  {
    if n > 0 { RunIs(p, t[1..], n - 1); }
  }

  /** A run that stops inside the first part is not changed by what follows. */
  lemma RunLocal(p: int -> bool, a: Text, b: Text)
    requires Run(p, a) < |a|
    ensures Run(p, a + b) == Run(p, a)
  {
    RunIs(p, a + b, Run(p, a));
  }

  // ----- control sequences -----

  /** Length of the control sequence at the start of the text, zero when there is none. */
  function CsiLength(t: Text): (n: nat)
    ensures n <= |t|
  {
    if |t| < 2 || t[0] != 27 || t[1] != 91 then 0
    else
      var a := 2 + Run(Parameter, t[2..]);
      var b := a + Run(Intermediate, t[a..]);
      if b < |t| && FinalByte(t[b]) then b + 1 else 0
  }

  /** The shape of a control sequence of length `n`: parameters, then intermediates, then one final byte. */
  predicate CsiShape(t: Text, n: nat) {
    && 3 <= n <= |t| && t[0] == 27 && t[1] == 91 && FinalByte(t[n - 1])
    && (forall i :: 2 <= i < n - 1 ==> Parameter(t[i]) || Intermediate(t[i]))
    && (forall i, j :: 2 <= i < j < n - 1 && Intermediate(t[i]) ==> Intermediate(t[j]))
  }

  lemma CsiHasShape(t: Text)
    ensures CsiLength(t) > 0 ==> CsiShape(t, CsiLength(t))
  {
    if CsiLength(t) > 0 {
      var a := 2 + Run(Parameter, t[2..]);
      var b := a + Run(Intermediate, t[a..]);
      forall i | 2 <= i < b ensures if i < a then Parameter(t[i]) else Intermediate(t[i]) {
        if i < a { assert t[2..][i - 2] == t[i]; } else { assert t[a..][i - a] == t[i]; }
      }
    }
  }

  lemma ShapeIsCsi(t: Text, n: nat)
    requires CsiShape(t, n)
    ensures CsiLength(t) == n
  {
    var a := 2;
    while a < n - 1 && Parameter(t[a])
      invariant 2 <= a <= n - 1 && forall i :: 2 <= i < a ==> Parameter(t[i])
    {
      a := a + 1;
    }
    forall i | 0 <= i < a - 2 ensures Parameter(t[2..][i]) {
      assert t[2..][i] == t[i + 2];
    }
    RunIs(Parameter, t[2..], a - 2);
    forall i | 0 <= i < n - 1 - a ensures Intermediate(t[a..][i]) {
      assert Intermediate(t[a]);
      assert t[a..][i] == t[a + i];
    }
    assert !Intermediate(t[n - 1]);
    RunIs(Intermediate, t[a..], n - 1 - a);
  }

  /** A control sequence is recognised from its own characters alone. */
  lemma CsiLocal(a: Text, b: Text)
    ensures CsiLength(a) > 0 ==> CsiLength(a + b) == CsiLength(a)
    ensures 0 < CsiLength(a + b) <= |a| ==> CsiLength(a) == CsiLength(a + b)
  {
    CsiHasShape(a);
    CsiHasShape(a + b);
    assert forall i :: 0 <= i < |a| ==> (a + b)[i] == a[i];
    if CsiLength(a) > 0 { ShapeIsCsi(a + b, CsiLength(a)); }
    if 0 < CsiLength(a + b) <= |a| { ShapeIsCsi(a, CsiLength(a + b)); }
  }

  function StripStep(t: Text): (n: nat)
    requires t != []
    ensures 1 <= n <= |t|
  {
    if CsiLength(t) > 0 then CsiLength(t) else 1
  }

  function Strip(t: Text): Text {
    if t == [] then [] else (if CsiLength(t) > 0 then [] else [t[0]]) + Strip(t[StripStep(t)..])
  }

  /** No control sequence of the whole text starts in `a` and ends in `b`. */
  ghost predicate CutsClean(a: Text, b: Text) {
    forall i :: 0 <= i < |a| ==> CsiLength((a + b)[i..]) <= |a| - i
  }

  lemma CutsCleanTail(a: Text, b: Text, k: nat)
    requires CutsClean(a, b) && k <= |a|
    ensures CutsClean(a[k..], b)
  {
    var rest := a[k..];
    forall i | 0 <= i < |rest| ensures CsiLength((rest + b)[i..]) <= |rest| - i {
      assert (rest + b)[i..] == (a + b)[k + i..];
    }
  }

  lemma CutsCleanStep(a: Text, b: Text)
    requires a != [] && CutsClean(a, b)
    ensures CsiLength(a + b) == CsiLength(a)
  {
    hide CsiLength;
    assert (a + b)[0..] == a + b;
    CsiLocal(a, b);
  }

  lemma {:induction false} StripSplits(a: Text, b: Text)
    requires CutsClean(a, b)
    ensures Strip(a + b) == Strip(a) + Strip(b)
    decreases |a|
  {
    hide CsiLength, CutsClean;
    if a == [] {
      assert a + b == b;
    } else {
      CutsCleanStep(a, b);
      var n := StripStep(a);
      assert (a + b)[n..] == a[n..] + b;
      CutsCleanTail(a, b, n);
      StripSplits(a[n..], b);
    }
  }

  /** Text without escape characters is left alone. */
  lemma {:induction false} NoEscape(t: Text, k: nat)
    requires k <= |t| && forall i :: 0 <= i < k ==> t[i] != 27
    ensures Strip(t) == t[..k] + Strip(t[k..])
  {
    hide CsiLength, Strip;
    if k == 0 {
      assert t[..0] + Strip(t) == Strip(t) && t[0..] == t;
    } else {
      StartsWithEscape(t);
      StripFirst(t);
      assert forall i :: 0 <= i < k - 1 ==> t[1..][i] == t[i + 1];
      NoEscape(t[1..], k - 1);
      assert t[1..][k - 1..] == t[k..];
      assert t[..k] == [t[0]] + t[1..][..k - 1];
      assert [t[0]] + (t[1..][..k - 1] + Strip(t[k..])) == t[..k] + Strip(t[k..]);
    }
  }

  lemma BodyHasNoEscape(t: Text, i: nat)
    requires 0 < i < CsiLength(t)
    ensures t[i] != 27
  {
    CsiHasShape(t);
  }

  /** A control sequence cut in two survives in both parts. */
  lemma CutSequenceSurvives(a: Text, b: Text)
    requires a != [] && CsiLength(a + b) > |a|
    ensures |Strip(a + b)| < |Strip(a) + Strip(b)|
  {
    hide CsiLength, Strip;
    var n := CsiLength(a + b);
    CsiLocal(a, b);
    forall i | 0 < i < n ensures (a + b)[i] != 27 { BodyHasNoEscape(a + b, i); }
    assert forall i :: 0 <= i < |a| - 1 ==> a[1..][i] == (a + b)[i + 1];
    assert forall i :: 0 <= i < n - |a| ==> b[i] == (a + b)[|a| + i];
    NoEscape(a[1..], |a| - 1);
    NoEscape(b, n - |a|);
    assert (a + b)[n..] == b[n - |a|..];
    StripFirst(a);
    StripFirst(a + b);
  }

  lemma StripFirst(t: Text)
    requires t != []
    ensures Strip(t) == if CsiLength(t) > 0 then Strip(t[CsiLength(t)..]) else [t[0]] + Strip(t[1..])
  {
    hide CsiLength;
    var rest := Strip(t[StripStep(t)..]);
    assert [] + rest == rest;
  }

  /** Stripping piecewise equals stripping the whole exactly when no control sequence is cut. */
  lemma {:induction false} CutIsExact(a: Text, b: Text)
    ensures Strip(a + b) == Strip(a) + Strip(b) <==> CutsClean(a, b)
    decreases |a|
  {
    hide CsiLength;
    if CutsClean(a, b) {
      StripSplits(a, b);
    } else {
      StripDiffers(a, b);
    }
  }

  lemma {:induction false} StripDiffers(a: Text, b: Text)
    requires !CutsClean(a, b)
    ensures |Strip(a + b)| < |Strip(a) + Strip(b)|
    decreases |a|
  {
    hide CsiLength;
    assert (a + b)[0..] == a + b;
    if CsiLength(a + b) > |a| {
      CutSequenceSurvives(a, b);
    } else {
      CsiLocal(a, b);
      var n := StripStep(a);
      assert (a + b)[n..] == a[n..] + b;
      LaterCut(a, b, n);
      StripDiffers(a[n..], b);
    }
  }

  /** A cut sequence starts behind a whole one. */
  lemma LaterCut(a: Text, b: Text, n: nat)
    requires a != [] && !CutsClean(a, b) && CsiLength(a + b) <= |a| && n == StripStep(a)
        && CsiLength(a) == CsiLength(a + b)
    ensures !CutsClean(a[n..], b)
  {
    hide CsiLength;
    var i :| 0 <= i < |a| && CsiLength((a + b)[i..]) > |a| - i;
    assert (a + b)[0..] == a + b;
    if i < n {
      StartsWithEscape((a + b)[i..]);
      BodyHasNoEscape(a + b, i);
    } else {
      assert (a[n..] + b)[i - n..] == (a + b)[i..];
    }
  }

  lemma StartsWithEscape(t: Text)
    ensures CsiLength(t) > 0 ==> t != [] && t[0] == 27
  {
  }

  // ----- links -----

  predicate Starts(t: Text, prefix: Text) {
    |prefix| <= |t| && t[..|prefix|] == prefix
  }

  const HTTP := Codes("http://")
  const HTTPS := Codes("https://")
  const CLEARML := Codes("clearml://")

  function Scheme(t: Text): (n: nat)
    ensures n <= |t|
  {
    if Starts(t, HTTP) then |HTTP| else if Starts(t, HTTPS) then |HTTPS| else if Starts(t, CLEARML) then |CLEARML|
      else 0
  }

  function UrlLength(t: Text): (n: nat)
    ensures n <= |t|
  {
    var s := Scheme(t);
    var run := Run(UrlChar, t[s..]);
    if s > 0 && run > 0 then s + run else 0
  }

  // ----- opaque references -----

  predicate Dash(t: Text, i: nat) {
    i < |t| && t[i] == 45
  }

  predicate HexBetween(t: Text, i: nat, j: nat) {
    j <= |t| && forall k :: i <= k < j ==> Hex(t[k])
  }

  predicate Uuid(t: Text) {
    && HexBetween(t, 0, 8) && Dash(t, 8) && HexBetween(t, 9, 13) && Dash(t, 13) && HexBetween(t, 14, 18) && Dash(t, 18)
    && HexBetween(t, 19, 23) && Dash(t, 23) && HexBetween(t, 24, 36) && (|t| > 36 ==> !Hex(t[36]))
  }

  /** Length of the reference at the start of the text, where the character before it is not hexadecimal. */
  function OpaqueLength(t: Text): (n: nat)
    ensures n <= |t|
  {
    var run := Run(Hex, t);
    if Uuid(t) then 36 else if run == 64 || run == 40 || run == 32 then run else 0
  }

  predicate Matches(after: bool, t: Text) {
    !after && OpaqueLength(t) > 0
  }

  /** How far one scanning step goes: over a reference, or over one character. */
  function OpaqueStep(after: bool, t: Text): (n: nat)
    requires t != []
    ensures 1 <= n <= |t|
  {
    if Matches(after, t) then OpaqueLength(t) else 1
  }

  /** All references of a text, left to right; `after` says whether a hexadecimal character precedes it. */
  function Opaques(after: bool, t: Text): seq<Text>
    decreases |t|
  {
    if t == [] then []
    else
      var n := OpaqueStep(after, t);
      (if Matches(after, t) then [t[..n]] else []) + Opaques(Hex(t[n - 1]), t[n..])
  }

  const REFERENCE := Codes("[reference]")
  const CHECKSUM := Codes("[checksum]")
  const REVISION := Codes("[revision]")
  const TASK := Codes("[task]")
  const LINK := Codes("[ClearML link]")
  const LONG := Codes("[long reference]")

  /** Every reference replaced by the same text. */
  function Blank(after: bool, t: Text): Text
    decreases |t|
  {
    if t == [] then []
    else
      var n := OpaqueStep(after, t);
      (if Matches(after, t) then REFERENCE else [t[0]]) + Blank(Hex(t[n - 1]), t[n..])
  }

  function Reference(value: Text, labels: Labels): Text {
    if value in labels then Blank(false, labels[value])
    else if 45 in value then REFERENCE
    else if |value| == 64 then CHECKSUM
    else if |value| == 40 then REVISION
    else TASK
  }

  function Piece(after: bool, t: Text, labels: Labels): Text
    requires t != []
  {
    if Matches(after, t) then Reference(t[..OpaqueLength(t)], labels) else [t[0]]
  }

  function Replace(after: bool, t: Text, labels: Labels): Text
    decreases |t|
  {
    if t == [] then []
    else
      var n := OpaqueStep(after, t);
      Piece(after, t, labels) + Replace(Hex(t[n - 1]), t[n..], labels)
  }

  function Joined(names: seq<Text>): Text {
    if names == [] then [] else if |names| == 1 then names[0] else names[0] + Codes(" / ") + Joined(names[1..])
  }

  function Known(ids: seq<Text>, labels: Labels): seq<Text> {
    if ids == [] then []
    else (if ids[0] in labels then [labels[ids[0]]] else []) + Known(ids[1..], labels)
  }

  /** A link without references is kept; otherwise its known names, or a description. */
  function Link(value: Text, labels: Labels): Text {
    var ids := Opaques(false, value);
    if ids == [] then value
    else if Known(ids, labels) != [] then Joined(Known(ids, labels))
    else LINK
  }

  function LinkStep(t: Text): (n: nat)
    requires t != []
    ensures 1 <= n <= |t|
  {
    if UrlLength(t) > 0 then UrlLength(t) else 1
  }

  function LinkPiece(t: Text, labels: Labels): Text
    requires t != []
  {
    if UrlLength(t) > 0 then Link(t[..UrlLength(t)], labels) else [t[0]]
  }

  function Links(t: Text, labels: Labels): Text {
    if t == [] then [] else LinkPiece(t, labels) + Links(t[LinkStep(t)..], labels)
  }

  function Human(t: Text, labels: Labels): Text {
    Replace(false, Links(Strip(t), labels), labels)
  }

  // ----- cutting at white space -----

  predicate EndsInSpace(t: Text) {
    t != [] && Space(t[|t| - 1])
  }

  predicate Cut(t: Text) {
    t == [] || EndsInSpace(t)
  }

  lemma {:induction false} StripEndsInSpace(t: Text)
    requires EndsInSpace(t)
    ensures EndsInSpace(Strip(t))
    decreases |t|
  {
    CsiHasShape(t);
    var n := if CsiLength(t) > 0 then CsiLength(t) else 1;
    if n < |t| {
      StripEndsInSpace(t[n..]);
    } else {
      assert CsiLength(t) == 0;
      assert t[1..] == [];
    }
  }

  lemma SchemeHasNoSpace(t: Text, i: nat)
    requires i < Scheme(t)
    ensures !Space(t[i])
  {
    var s := if Starts(t, HTTP) then HTTP else if Starts(t, HTTPS) then HTTPS else CLEARML;
    assert t[i] == t[..|s|][i] == s[i];
  }

  lemma SharedCharacter(a: Text, b: Text, prefix: Text)
    requires 0 < |a| < |prefix| <= |a + b| && (a + b)[..|prefix|] == prefix
    ensures prefix[|a| - 1] == a[|a| - 1]
  {
    assert (a + b)[..|prefix|][|a| - 1] == a[|a| - 1];
  }

  lemma StartsLocal(a: Text, b: Text, prefix: Text)
    requires EndsInSpace(a) && forall i :: 0 <= i < |prefix| ==> !Space(prefix[i])
    ensures Starts(a + b, prefix) == Starts(a, prefix)
  {
    if |prefix| <= |a| {
      assert (a + b)[..|prefix|] == a[..|prefix|];
    } else if Starts(a + b, prefix) {
      SharedCharacter(a, b, prefix);
    }
  }

  lemma SchemesHaveNoSpace()
    ensures forall i :: 0 <= i < |HTTP| ==> !Space(HTTP[i])
    ensures forall i :: 0 <= i < |HTTPS| ==> !Space(HTTPS[i])
    ensures forall i :: 0 <= i < |CLEARML| ==> !Space(CLEARML[i])
  {
  }

  lemma SchemeInside(a: Text)
    requires EndsInSpace(a)
    ensures Scheme(a) < |a|
  {
    if Scheme(a) > |a| - 1 { SchemeHasNoSpace(a, |a| - 1); }
  }

  lemma UrlLocal(a: Text, b: Text)
    requires EndsInSpace(a)
    ensures UrlLength(a + b) == UrlLength(a) < |a|
  {
    hide Space;
    SchemesHaveNoSpace();
    StartsLocal(a, b, HTTP);
    StartsLocal(a, b, HTTPS);
    StartsLocal(a, b, CLEARML);
    var s := Scheme(a);
    assert Scheme(a + b) == s;
    SchemeInside(a);
    var tail := a[s..];
    assert tail[|tail| - 1] == a[|a| - 1];
    assert (a + b)[s..] == tail + b;
    assert !UrlChar(tail[|tail| - 1]);
    RunLocal(UrlChar, tail, b);
  }

  lemma LinkPieceLocal(a: Text, b: Text, labels: Labels)
    requires EndsInSpace(a)
    ensures LinkStep(a + b) == LinkStep(a) && LinkPiece(a + b, labels) == LinkPiece(a, labels)
    ensures LinkStep(a) == |a| ==> LinkPiece(a, labels) == a
  {
    hide Link, UrlLength, Space;
    UrlLocal(a, b);
    var n := LinkStep(a);
    assert (a + b)[..n] == a[..n];
    if n == |a| { assert a == [a[0]]; }
  }

  lemma {:induction false} LinksSplit(a: Text, b: Text, labels: Labels)
    requires Cut(a)
    ensures Links(a + b, labels) == Links(a, labels) + Links(b, labels)
    ensures EndsInSpace(a) ==> EndsInSpace(Links(a, labels))
    decreases |a|
  {
    hide LinkPiece, LinkStep, Space;
    if a == [] {
      assert a + b == b;
    } else {
      LinkPieceLocal(a, b, labels);
      var n := LinkStep(a);
      assert (a + b)[n..] == a[n..] + b;
      LinksSplit(a[n..], b, labels);
    }
  }

  lemma UuidLocal(a: Text, b: Text)
    requires EndsInSpace(a)
    ensures Uuid(a + b) == Uuid(a)
    ensures Uuid(a) ==> 36 < |a|
  {
    var last := |a| - 1;
    assert (a + b)[last] == a[last] && !Hex(a[last]) && a[last] != 45;
    if |a| > 36 {
      assert forall i :: 0 <= i <= 36 ==> (a + b)[i] == a[i];
    }
  }

  lemma OpaqueLocal(a: Text, b: Text)
    requires EndsInSpace(a)
    ensures OpaqueLength(a + b) == OpaqueLength(a) < |a|
  {
    UuidLocal(a, b);
    assert !Hex(a[|a| - 1]);
    RunLocal(Hex, a, b);
  }

  lemma PieceLocal(after: bool, a: Text, b: Text, labels: Labels)
    requires EndsInSpace(a)
    ensures OpaqueStep(after, a + b) == OpaqueStep(after, a) && Piece(after, a + b, labels) == Piece(after, a, labels)
    ensures OpaqueStep(after, a) == |a| ==> Piece(after, a, labels) == a && !Hex(a[|a| - 1])
  {
    hide Reference, OpaqueLength;
    OpaqueLocal(a, b);
    var n := OpaqueStep(after, a);
    assert (a + b)[..n] == a[..n];
    if n == |a| { assert a == [a[0]]; }
  }

  lemma Regroup(a: Text, b: Text, c: Text)
    ensures a + (b + c) == (a + b) + c
    ensures EndsInSpace(b) ==> EndsInSpace(a + b)
  {
  }

  lemma ReplaceNothing(after: bool, labels: Labels)
    ensures Replace(after, [], labels) == []
  {
  }

  lemma ReplaceIs(after: bool, t: Text, labels: Labels)
    requires t != []
    ensures var n := OpaqueStep(after, t);
            Replace(after, t, labels) == Piece(after, t, labels) + Replace(Hex(t[n - 1]), t[n..], labels)
  {
  }

  lemma {:induction false} ReplaceSplits(after: bool, a: Text, b: Text, labels: Labels)
    requires EndsInSpace(a)
    ensures Replace(after, a + b, labels) == Replace(after, a, labels) + Replace(false, b, labels)
    ensures EndsInSpace(Replace(after, a, labels))
    decreases |a|
  {
    hide Piece, OpaqueStep, Space, Hex, Replace;
    PieceLocal(after, a, b, labels);
    var n := OpaqueStep(after, a);
    assert (a + b)[n..] == a[n..] + b;
    var next, piece := Hex(a[n - 1]), Piece(after, a, labels);
    assert (a + b)[n - 1] == a[n - 1];
    ReplaceIs(after, a, labels);
    ReplaceIs(after, a + b, labels);
    if n < |a| {
      ReplaceSplits(next, a[n..], b, labels);
      Regroup(piece, Replace(next, a[n..], labels), Replace(false, b, labels));
    } else {
      assert a[n..] == [] && [] + b == b && piece + [] == piece;
      ReplaceNothing(next, labels);
    }
  }

  /** Text may be rendered in pieces cut after white space, unless the cut falls inside a control sequence. */
  lemma HumanSplits(a: Text, b: Text, labels: Labels)
    requires Cut(a) && CutsClean(a, b)
    ensures Human(a + b, labels) == Human(a, labels) + Human(b, labels)
  {
    hide Links, Strip, Replace, Space, CutsClean;
    if a == [] {
      assert a + b == b;
      NothingHuman(labels);
    } else {
      StripSplits(a, b);
      StripEndsInSpace(a);
      LinksSplit(Strip(a), Strip(b), labels);
      ReplaceSplits(false, Links(Strip(a), labels), Links(Strip(b), labels), labels);
    }
  }

  lemma NothingHuman(labels: Labels)
    ensures Human([], labels) == []
  {
  }

  /** No control sequence contains white space (only a plain space could occur in one). */
  ghost predicate SpacelessCsi(t: Text) {
    forall i, j :: 0 <= i < |t| && i <= j < i + CsiLength(t[i..]) ==> !Space(t[j])
  }

  lemma SpacelessCutsClean(a: Text, b: Text)
    requires Cut(a) && SpacelessCsi(a + b)
    ensures CutsClean(a, b)
  {
    hide Space, CsiLength;
    if a != [] {
      var last := |a| - 1;
      assert (a + b)[last] == a[last];
    }
  }

  // ----- no reference survives -----

  predicate HexOrDash(c: int) {
    Hex(c) || c == 45
  }

  /** No reference in the text; `after` says whether a hexadecimal character precedes it. */
  ghost predicate OpaqueFree(after: bool, t: Text) {
    forall i :: 0 <= i < |t| ==> !Matches(if i == 0 then after else Hex(t[i - 1]), t[i..])
  }

  /** A reference consists of hexadecimal digits and dashes, at least the first eight and the last of them digits. */
  lemma OpaqueShape(t: Text)
    requires OpaqueLength(t) > 0
    ensures var n := OpaqueLength(t);
            && n >= 32 && (forall i :: 0 <= i < n ==> Hex(t[i]) || t[i] == 45) && (forall i :: 0 <= i < 8 ==> Hex(t[i]))
            && Hex(t[n - 1])
            && (n < |t| ==> !Hex(t[n]))
  {
  }

  lemma UuidRun(t: Text)
    ensures Uuid(t) ==> Run(Hex, t) == 8
  {
    if Uuid(t) { RunIs(Hex, t, 8); }
  }

  /** A reference is recognised from its own characters and the one behind them. */
  lemma OpaqueByPrefix(t: Text, u: Text, k: nat)
    requires k <= |t| && k <= |u| && t[..k] == u[..k] && OpaqueLength(t) > 0
    requires OpaqueLength(t) < k || (OpaqueLength(t) == k && (k == |u| || !Hex(u[k])))
    ensures OpaqueLength(u) == OpaqueLength(t)
  {
    var n := OpaqueLength(t);
    OpaqueShape(t);
    SamePrefix(t, u, k);
    if !Uuid(t) {
      RunIs(Hex, u, n);
      UuidRun(u);
    }
  }

  // ----- labels that complete no reference -----

  /** Where a dashed identifier has its dashes. */
  predicate AtDash(i: int) {
    i == 8 || i == 13 || i == 18 || i == 23
  }

  /** The text could stand in a dashed identifier from position `a` on. */
  predicate UuidPart(t: Text, a: nat) {
    a + |t| <= 36 && forall i :: 0 <= i < |t| ==> if AtDash(a + i) then t[i] == 45 else Hex(t[i])
  }

  /** No end of the word is the beginning of a dashed identifier up to one of its dashes. */
  ghost predicate OpensNone(w: Text) {
    forall i :: 0 <= i < |w| && AtDash(|w| - i) && (i == 0 || !Hex(w[i - 1])) ==> !UuidPart(w[i..], 0)
  }

  /** No beginning of the word is the end of a dashed identifier behind one of its dashes. */
  ghost predicate ClosesNone(w: Text) {
    forall j :: 0 < j <= |w| && AtDash(35 - j) && (j == |w| || !Hex(w[j])) ==> !UuidPart(w[..j], 36 - j)
  }

  /** The word is not all there is between two dashes of a dashed identifier. */
  ghost predicate LinksNone(w: Text) {
    forall a: nat :: AtDash(a - 1) && AtDash(a + |w|) ==> !UuidPart(w, a)
  }

  /** Put between characters that are not digits, the word takes part in no reference beyond itself. */
  ghost predicate Inert(w: Text) {
    OpensNone(w) && ClosesNone(w) && LinksNone(w)
  }

  predicate IsReference(ref: Text) {
    ref != [] && OpaqueLength(ref) == |ref|
  }

  /** What replaces a labelled reference, the label with its own references blanked, is inert. */
  ghost predicate InertLabels(labels: Labels) {
    forall v :: v in labels && IsReference(v) ==> Inert(Blank(false, labels[v]))
  }

  /** An inert text without references. */
  ghost predicate FreeWord(t: Text) {
    Inert(t) && OpaqueFree(false, t)
  }

  ghost predicate FreeLabels(labels: Labels) {
    forall v :: v in labels && IsReference(v) ==> FreeWord(Blank(false, labels[v]))
  }

  lemma UuidAt(t: Text, i: nat)
    requires Uuid(t) && i < 36
    ensures i < |t| && if AtDash(i) then t[i] == 45 else Hex(t[i])
  {
  }

  /** A reference with a character that is no digit is a dashed one. */
  lemma DashedReference(t: Text, i: nat)
    requires i < OpaqueLength(t) && !Hex(t[i])
    ensures Uuid(t) && OpaqueLength(t) == 36 && AtDash(i)
  {
    if Uuid(t) { UuidAt(t, i); }
  }

  lemma PartOf(t: Text, a: nat, part: Text)
    requires Uuid(t) && a + |part| <= 36 && t[a..a + |part|] == part
    ensures UuidPart(part, a)
  {
    forall i | 0 <= i < |part| ensures if AtDash(a + i) then part[i] == 45 else Hex(part[i]) {
      UuidAt(t, a + i);
      assert t[a..a + |part|][i] == t[a + i];
    }
  }

  /** The text a match covers is a reference by itself. */
  lemma FirstReference(t: Text) returns (ref: Text)
    requires OpaqueLength(t) > 0
    ensures ref == t[..OpaqueLength(t)] && IsReference(ref) && (|ref| == |t| || !Hex(t[|ref|]))
  {
    hide Hex;
    var n := OpaqueLength(t);
    ref := t[..n];
    OpaqueShape(t);
    assert ref[..n] == t[..n];
    OpaqueByPrefix(t, ref, n);
  }

  /** Up to its first reference the replaced text is the original; then the name follows, and no digit behind it. */
  lemma {:induction false} FirstNamed(after: bool, t: Text, labels: Labels) returns (k: nat, name: Text, rest: Text)
    requires FreeLabels(labels)
    ensures k <= |t| && Replace(after, t, labels) == t[..k] + name + rest
    ensures k == |t| ==> name == [] && rest == []
    ensures k < |t| ==>
        Matches(if k == 0 then after else Hex(t[k - 1]), t[k..]) && FreeWord(name) && (rest == [] || !Hex(rest[0]))
    decreases |t|
  {
    hide Piece, OpaqueStep, Replace, OpaqueLength, FreeLabels, FreeWord, Matches, Hex;
    if t == [] {
      ReplaceNothing(after, labels);
      k, name, rest := 0, [], [];
    } else if Matches(after, t) {
      name, rest := NameFirst(after, t, labels);
      k := 0;
      assert t[0..] == t && t[..0] + name + rest == name + rest;
    } else {
      PlainStep(after, t, labels);
      k, name, rest := FirstNamed(Hex(t[0]), t[1..], labels);
      assert t[..k + 1] == [t[0]] + t[1..][..k];
      assert [t[0]] + (t[1..][..k] + name + rest) == ([t[0]] + t[1..][..k]) + name + rest;
      assert k < |t[1..]| ==> t[1..][k..] == t[k + 1..];
      k := k + 1;
    }
  }

  lemma NameFirst(after: bool, t: Text, labels: Labels) returns (name: Text, rest: Text)
    requires t != [] && Matches(after, t) && FreeLabels(labels)
    ensures Replace(after, t, labels) == name + rest && FreeWord(name) && (rest == [] || !Hex(rest[0]))
    ensures name == Piece(after, t, labels) && rest == Replace(true, t[OpaqueLength(t)..], labels)
  {
    hide Piece, Replace, FreeWord;
    var n := OpaqueLength(t);
    OpaqueShape(t);
    name, rest := Piece(after, t, labels), Replace(true, t[n..], labels);
    PieceFree(after, t, labels);
    ReplaceIs(after, t, labels);
    if t[n..] != [] { BehindReference(t[n..], labels); } else { ReplaceNothing(true, labels); }
  }

  lemma ConsPrefix(t: Text, rest: Text, j: nat)
    requires t != [] && j <= |t[1..]| && j <= |rest| && t[1..][..j] == rest[..j]
    ensures ([t[0]] + rest)[..j + 1] == t[..j + 1]
    ensures j < |rest| ==> ([t[0]] + rest)[j + 1] == rest[j]
    ensures rest == t[1..] ==> [t[0]] + rest == t
  {
    assert t[..j + 1] == [t[0]] + t[1..][..j];
    assert ([t[0]] + rest)[..j + 1] == [t[0]] + rest[..j];
  }

  lemma PlainStep(after: bool, t: Text, labels: Labels)
    requires t != [] && !Matches(after, t)
    ensures Replace(after, t, labels) == [t[0]] + Replace(Hex(t[0]), t[1..], labels)
  {
    hide OpaqueLength, Hex, Reference, Replace;
    ReplaceIs(after, t, labels);
  }

  predicate Broken(t: Text, i: nat) {
    exists j :: i <= j < i + 8 && j < |t| && !Hex(t[j])
  }

  /** What replaces a reference without labels: a bracketed word in which no eight characters are hexadecimal. */
  predicate Bracketed(t: Text) {
    && |t| > 1 && t[0] == 91 && t[|t| - 1] == 93
    && forall i :: 0 <= i < |t| ==> Broken(t, i)
  }

  lemma WordsBracketed()
    ensures Bracketed(REFERENCE) && Bracketed(CHECKSUM) && Bracketed(REVISION) && Bracketed(TASK) && Bracketed(LINK)
        && Bracketed(LONG)
  {
    WordBracketed(REFERENCE);
    WordBracketed(CHECKSUM);
    WordBracketed(REVISION);
    WordBracketed(TASK);
    WordBracketed(LINK);
    WordBracketed(LONG);
  }

  lemma WordBracketed(t: Text)
    requires t == REFERENCE || t == CHECKSUM || t == REVISION || t == TASK || t == LINK || t == LONG
    ensures Bracketed(t)
  {
    var last := |t| - 1;
    assert !Hex(t[0]) && !Hex(t[last]);
    forall i | 0 <= i < |t| ensures Broken(t, i) {
      if i + 8 <= last {
        var j := if !Hex(t[i]) then i else if !Hex(t[i + 1]) then i + 1 else if !Hex(t[i + 2]) then i + 2 else i + 3;
        assert !Hex(t[j]);
      }
    }
  }

  lemma PieceBracketed(after: bool, t: Text)
    requires t != [] && Matches(after, t)
    ensures Bracketed(Piece(after, t, map[]))
  {
    hide Bracketed, OpaqueLength;
    WordsBracketed();
  }

  /** A word between characters that no reference contains. */
  predicate Fence(t: Text) {
    t != [] && !HexOrDash(t[0]) && !HexOrDash(t[|t| - 1])
  }

  lemma FenceIsInert(w: Text)
    requires Fence(w)
    ensures Inert(w)
  {
    forall i, a: nat | 0 <= i < |w| ensures !UuidPart(w[i..], a) { assert w[i..][|w| - 1 - i] == w[|w| - 1]; }
    forall j, a: nat | 0 < j <= |w| ensures !UuidPart(w[..j], a) { assert w[..j][0] == w[0]; }
    forall a: nat ensures !UuidPart(w, a) { assert w[0..] == w; }
  }

  lemma BracketedIsFree(word: Text)
    requires Bracketed(word)
    ensures Fence(word) && FreeWord(word)
  {
    hide OpaqueLength, Inert;
    FenceIsInert(word);
    forall i | 0 <= i < |word| ensures !Matches(if i == 0 then false else Hex(word[i - 1]), word[i..]) {
      assert Broken(word, i);
      var j :| i <= j < i + 8 && j < |word| && !Hex(word[j]);
      assert word[i..][j - i] == word[j];
      NotMatched(if i == 0 then false else Hex(word[i - 1]), word[i..]);
    }
  }

  lemma PieceFree(after: bool, t: Text, labels: Labels)
    requires t != [] && Matches(after, t) && FreeLabels(labels)
    ensures FreeWord(Piece(after, t, labels))
  {
    hide Bracketed, OpaqueLength, FreeWord, Blank;
    var ref := FirstReference(t);
    WordsBracketed();
    BracketedIsFree(REFERENCE);
    BracketedIsFree(CHECKSUM);
    BracketedIsFree(REVISION);
    BracketedIsFree(TASK);
  }

  lemma NotMatched(after: bool, t: Text)
    requires (exists j :: 0 <= j < 8 && j < |t| && !Hex(t[j]))
    ensures !Matches(after, t)
  {
    if OpaqueLength(t) > 0 { OpaqueShape(t); }
  }

  lemma SamePrefix(a: Text, b: Text, k: nat)
    requires k <= |a| && k <= |b| && a[..k] == b[..k]
    ensures forall i :: 0 <= i < k ==> a[i] == b[i]
  {
    forall i | 0 <= i < k ensures a[i] == b[i] { assert a[..k][i] == b[..k][i]; }
  }

  /** A dashed identifier cannot lead from a character that is no digit into an inert word and on. */
  lemma CrossesNone(a: Text, w: Text, rest: Text)
    requires a != [] && |a| < 36 && !Hex(a[|a| - 1]) && Inert(w) && (rest == [] || !Hex(rest[0]))
    ensures !Uuid(a + w + rest)
  {
    var t := a + w + rest;
    if Uuid(t) {
      assert ClosesNone(w) && LinksNone(w);
      UuidAt(t, |a| - 1);
      var j := 36 - |a|;
      assert j < |w| ==> t[36] == w[j];
      if j <= |w| {
        PartOf(t, |a|, w[..j]);
      } else {
        UuidAt(t, |a| + |w|);
        PartOf(t, |a|, w);
      }
    }
  }

  /** Replacing nothing at the front cannot create a reference there. */
  lemma FrontStaysFree(t: Text, labels: Labels)
    requires t != [] && !Matches(false, t) && FreeLabels(labels)
    ensures !Matches(false, Replace(false, t, labels))
  {
    hide Replace, FreeLabels, Uuid, Inert, Hex;
    var k, name, rest := FirstNamed(false, t, labels);
    assert t[0..] == t && t[..|t|] == t && t[..|t|] + [] + [] == t;
    var out := Replace(false, t, labels);
    if k < |t| {
      SamePrefix(out, t, k);
      OpaqueShape(t[k..]);
      if 0 < OpaqueLength(out) <= k { ShortMatch(out, t, k); }
      if OpaqueLength(out) > k {
        DashedReference(out, k - 1);
        CrossesNone(t[..k], name, rest);
      }
    }
  }

  /** A match inside the common part is one of the original; it does not end right in front of a name. */
  lemma ShortMatch(out: Text, t: Text, k: nat)
    requires k <= |out| && k <= |t| && out[..k] == t[..k] && 0 < OpaqueLength(out) <= k && !Hex(t[k - 1])
    ensures OpaqueLength(t) > 0
  {
    OpaqueShape(out);
    SamePrefix(out, t, k);
    OpaqueByPrefix(out, t, k);
  }

  /** Behind a replaced reference the text goes on with a character that cannot start one. */
  lemma BehindReference(t: Text, labels: Labels)
    requires t != [] && !Hex(t[0])
    ensures var r := Replace(true, t, labels); r != [] && !Hex(r[0])
  {
    ReplaceIs(true, t, labels);
  }

  lemma OpaqueFreeCons(after: bool, c: int, rest: Text)
    requires OpaqueFree(Hex(c), rest) && !Matches(after, [c] + rest)
    ensures OpaqueFree(after, [c] + rest)
  {
    hide OpaqueLength, Hex;
    var t := [c] + rest;
    forall i | 0 <= i < |t| ensures !Matches(if i == 0 then after else Hex(t[i - 1]), t[i..]) {
      if i > 0 {
        assert t[i..] == rest[i - 1..];
        assert i > 1 ==> t[i - 1] == rest[i - 2];
      } else {
        assert t[0..] == t;
      }
    }
  }

  /** A free word in front of free text that does not start with a digit. */
  lemma OpaqueFreeWord(word: Text, rest: Text)
    requires FreeWord(word) && OpaqueFree(true, rest) && (rest == [] || !Hex(rest[0]))
    ensures OpaqueFree(false, word + rest)
  {
    hide OpaqueLength, Hex, Inert;
    var t := word + rest;
    forall i | 0 <= i < |t| ensures !Matches(if i == 0 then false else Hex(t[i - 1]), t[i..]) {
      if i < |word| {
        assert t[i..] == word[i..] + rest;
        assert !Matches(if i == 0 then false else Hex(word[i - 1]), word[i..]);
        if i == 0 || !Hex(word[i - 1]) { WordHolds(word, rest, i); }
      } else {
        assert t[i..] == rest[i - |word|..];
        if i == |word| {
          assert !Hex(t[i..][0]);
          NotMatched(if i == 0 then false else Hex(t[i - 1]), t[i..]);
        } else {
          assert t[i - 1] == rest[i - |word| - 1];
        }
      }
    }
  }

  /** No reference leaves an inert word. */
  lemma WordHolds(word: Text, rest: Text, i: nat)
    requires Inert(word) && i < |word| && (rest == [] || !Hex(rest[0])) && (i == 0 || !Hex(word[i - 1]))
    ensures OpaqueLength(word[i..] + rest) > 0 ==> OpaqueLength(word[i..]) > 0
  {
    hide OpaqueLength, Uuid, Hex, ClosesNone, LinksNone;
    var t, k := word[i..] + rest, |word| - i;
    assert t[..k] == word[i..] == word[i..][..k];
    if OpaqueLength(t) > k {
      assert t[k] == rest[0] && OpensNone(word);
      DashedReference(t, k);
      PartOf(t, 0, word[i..]);
    } else if OpaqueLength(t) > 0 {
      OpaqueByPrefix(t, word[i..], k);
    }
  }

  /** With free labels, or none, the replaced text contains no reference: replacing is final. */
  lemma {:induction false} ReplaceIsFinal(after: bool, t: Text, labels: Labels)
    requires FreeLabels(labels)
    ensures OpaqueFree(after, Replace(after, t, labels))
    decreases |t|
  {
    hide OpaqueFree, OpaqueLength, Piece, FreeWord, FreeLabels;
    if t == [] {
      NothingFree(after);
    } else if Matches(after, t) {
      var n := OpaqueLength(t);
      OpaqueShape(t);
      ReplaceIsFinal(true, t[n..], labels);
      var name, rest := NameFirst(after, t, labels);
      OpaqueFreeWord(name, rest);
    } else {
      PlainStep(after, t, labels);
      ReplaceIsFinal(Hex(t[0]), t[1..], labels);
      if !after { FrontStaysFree(t, labels); }
      OpaqueFreeCons(after, t[0], Replace(Hex(t[0]), t[1..], labels));
    }
  }

  lemma ReferenceStays()
    ensures Blank(false, REFERENCE) == REFERENCE && FreeWord(REFERENCE)
  {
    hide Bracketed;
    WordsBracketed();
    BracketedIsFree(REFERENCE);
    FreeStays(false, REFERENCE);
  }

  /** Blanking a text without references changes nothing. */
  lemma {:induction false} FreeStays(after: bool, t: Text)
    requires OpaqueFree(after, t)
    ensures Blank(after, t) == t
    decreases |t|
  {
    hide OpaqueLength, Hex;
    if t != [] {
      assert t[0..] == t;
      forall i | 0 <= i < |t[1..]| ensures !Matches(if i == 0 then Hex(t[0]) else Hex(t[1..][i - 1]), t[1..][i..]) {
        assert t[1..][i..] == t[i + 1..];
        assert !Matches(if i + 1 == 0 then after else Hex(t[i + 1 - 1]), t[i + 1..]);
      }
      FreeStays(Hex(t[0]), t[1..]);
    }
  }

  /** Every reference of the text is labelled with the blank word. */
  ghost predicate Blanked(after: bool, t: Text, labels: Labels) {
    forall r :: r in Opaques(after, t) ==> r in labels && labels[r] == REFERENCE
  }

  lemma BlankedRest(after: bool, t: Text, labels: Labels)
    requires t != [] && Blanked(after, t, labels)
    ensures var n := OpaqueStep(after, t); Blanked(Hex(t[n - 1]), t[n..], labels)
    ensures Matches(after, t) ==> t[..OpaqueLength(t)] in labels && labels[t[..OpaqueLength(t)]] == REFERENCE
  {
    hide OpaqueLength, Hex;
    var n := OpaqueStep(after, t);
    var first, rest := if Matches(after, t) then [t[..n]] else [], Opaques(Hex(t[n - 1]), t[n..]);
    assert Opaques(after, t) == first + rest;
    forall r | r in first || r in rest ensures r in Opaques(after, t) {}
    if Matches(after, t) { assert t[..n] in first; }
  }

  lemma BlankNothing(after: bool)
    ensures Blank(after, []) == []
  {
  }

  lemma BlankIs(after: bool, t: Text)
    requires t != []
    ensures var n := OpaqueStep(after, t);
            Blank(after, t) == (if Matches(after, t) then REFERENCE else [t[0]]) + Blank(Hex(t[n - 1]), t[n..])
  {
    hide OpaqueLength, Hex;
  }

  lemma BlankPiece(after: bool, t: Text, labels: Labels)
    requires t != [] && (Matches(after, t) ==>
        t[..OpaqueLength(t)] in labels && labels[t[..OpaqueLength(t)]] == REFERENCE)
    ensures Piece(after, t, labels) == if Matches(after, t) then REFERENCE else [t[0]]
  {
    hide OpaqueLength, Blank, FreeWord;
    ReferenceStays();
  }

  /** Blanking is replacing where every reference is labelled with the same word. */
  lemma {:induction false} BlankIsReplace(after: bool, t: Text, labels: Labels)
    requires Blanked(after, t, labels)
    ensures Replace(after, t, labels) == Blank(after, t)
    decreases |t|
  {
    hide OpaqueLength, Hex, Replace, Blanked, Piece, Blank, Matches;
    if t == [] {
      ReplaceNothing(after, labels);
      BlankNothing(after);
    } else {
      var n := OpaqueStep(after, t);
      BlankedRest(after, t, labels);
      BlankIsReplace(Hex(t[n - 1]), t[n..], labels);
      ReplaceIs(after, t, labels);
      BlankIs(after, t);
      BlankPiece(after, t, labels);
    }
  }

  /** Blanked text contains no reference. */
  lemma BlankIsFree(t: Text)
    ensures OpaqueFree(false, Blank(false, t))
  {
    hide OpaqueFree, Blank, FreeWord;
    ReferenceStays();
    var labels := map r | r in Opaques(false, t) :: REFERENCE;
    BlankIsReplace(false, t, labels);
    ReplaceIsFinal(false, t, labels);
  }

  lemma InertAreFree(labels: Labels)
    requires InertLabels(labels)
    ensures FreeLabels(labels)
  {
    hide Inert;
    forall v | v in labels && IsReference(v) ensures FreeWord(Blank(false, labels[v])) { BlankIsFree(labels[v]); }
  }

  lemma NothingFree(after: bool)
    ensures OpaqueFree(after, [])
  {
  }

  /** Rendered text shows no opaque reference, whatever it is labelled with, as long as the labels are inert. */
  lemma HumanShowsNoReference(t: Text, labels: Labels)
    requires InertLabels(labels)
    ensures OpaqueFree(false, Human(t, labels))
  {
    hide OpaqueFree, Links, Strip, InertLabels, FreeLabels;
    InertAreFree(labels);
    ReplaceIsFinal(false, Links(Strip(t), labels), labels);
  }
}
