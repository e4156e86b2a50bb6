/** Which word stands for which reference, told by its digits. */
module ReferenceWords {
  import opened Prelude
  import opened HumanText
  import opened HumanTextStreaming

  predicate AllHex(t: Text) {
    forall i :: 0 <= i < |t| ==> Hex(t[i])
  }

  /** Eight, four, four, four and twelve digits with dashes between them. */
  predicate Dashed(t: Text) {
    |t| == 36 && forall i :: 0 <= i < 36 ==> if i == 8 || i == 13 || i == 18 || i == 23 then t[i] == 45 else Hex(t[i])
  }

  /** Text of digits and dashes holds no control sequence and no link. */
  lemma OnlyReplaced(t: Text, labels: Labels)
    requires forall i :: 0 <= i < |t| ==> HexOrDash(t[i])
    ensures Human(t, labels) == Replace(false, t, labels)
  {
    hide Strip, Links, Replace;
    forall i | 0 <= i < |t| ensures t[i] != 27 && t[i] != 58 { assert HexOrDash(t[i]); }
    NoEscape(t, |t|);
    StripNothing();
    assert t[..|t|] + [] == t && t[|t|..] == [];
    NoColonNoLink(t, labels);
  }

  lemma WholeReplaced(t: Text, labels: Labels)
    requires t != [] && OpaqueLength(t) == |t|
    ensures Replace(false, t, labels) == Reference(t, labels)
  {
    hide OpaqueLength, Reference;
    assert t[..|t|] == t && t[|t|..] == [];
    assert Reference(t, labels) + [] == Reference(t, labels);
  }

  /** Behind a digit nothing is a reference. */
  lemma {:induction false} DigitsKept(t: Text, labels: Labels)
    requires AllHex(t)
    ensures Replace(true, t, labels) == t
    decreases |t|
  {
    if t != [] {
      assert Hex(t[0]) && forall i :: 0 <= i < |t[1..]| ==> t[1..][i] == t[i + 1];
      DigitsKept(t[1..], labels);
    }
  }

  lemma DigitsMatch(t: Text)
    requires AllHex(t) && t != []
    ensures OpaqueLength(t) == if |t| == 64 || |t| == 40 || |t| == 32 then |t| else 0
  {
    RunIs(Hex, t, |t|);
    UuidRun(t);
  }

  /** Digits alone: 64 are a checksum, 40 a revision, 32 a task, and any other number of them is left alone. */
  lemma DigitsAreNamed(t: Text, labels: Labels)
    requires AllHex(t) && t !in labels
    ensures Human(t, labels) == if |t| == 64 then Codes("[checksum]")
                                else if |t| == 40 then Codes("[revision]")
                                else if |t| == 32 then Codes("[task]") else t
  {
    hide Human, OpaqueLength, Blank;
    OnlyReplaced(t, labels);
    if t != [] {
      DigitsMatch(t);
      forall c | c in t ensures c != 45 { assert Hex(c); }
      if |t| == 64 || |t| == 40 || |t| == 32 {
        WholeReplaced(t, labels);
      } else {
        assert forall i :: 0 <= i < |t[1..]| ==> t[1..][i] == t[i + 1];
        DigitsKept(t[1..], labels);
      }
    }
  }

  lemma DashedMatches(t: Text)
    requires Dashed(t)
    ensures OpaqueLength(t) == 36 && 45 in t && forall i :: 0 <= i < |t| ==> HexOrDash(t[i])
  {
    assert t[8] == 45 && t[13] == 45 && t[18] == 45 && t[23] == 45;
  }

  /** A dashed identifier is a reference of unknown kind. */
  lemma DashedIsReference(t: Text, labels: Labels)
    requires Dashed(t) && t !in labels
    ensures Human(t, labels) == Codes("[reference]")
  {
    hide Human, OpaqueLength, Blank, Replace;
    DashedMatches(t);
    OnlyReplaced(t, labels);
    WholeReplaced(t, labels);
  }

  /** A labelled reference is shown as its label, as long as that holds no reference itself. */
  lemma LabelledIsNamed(t: Text, labels: Labels)
    requires (Dashed(t) || (AllHex(t) && (|t| == 64 || |t| == 40 || |t| == 32))) && t in labels
    requires OpaqueFree(false, labels[t])
    ensures Human(t, labels) == labels[t]
  {
    hide Human, OpaqueLength, Blank, Replace, OpaqueFree;
    if Dashed(t) { DashedMatches(t); } else { DigitsMatch(t); }
    OnlyReplaced(t, labels);
    WholeReplaced(t, labels);
    FreeNotBlanked(false, labels[t]);
  }

  lemma {:induction false} FreeNotBlanked(after: bool, t: Text)
    requires OpaqueFree(after, t)
    ensures Blank(after, t) == t
    decreases |t|
  {
    hide OpaqueLength, Hex;
    if t != [] {
      assert t[0..] == t;
      FreeTail(after, t);
      FreeNotBlanked(Hex(t[0]), t[1..]);
    }
  }

  lemma FreeTail(after: bool, t: Text)
    requires t != [] && OpaqueFree(after, t)
    ensures OpaqueFree(Hex(t[0]), t[1..])
  {
    hide OpaqueLength, Hex;
    forall i | 0 <= i < |t[1..]| ensures !Matches(if i == 0 then Hex(t[0]) else Hex(t[1..][i - 1]), t[1..][i..]) {
      assert t[1..][i..] == t[i + 1..];
      assert !Matches(Hex(t[i]), t[i + 1..]);
    }
  }

  // ----- links -----

  /** A whole text that is one link. */
  predicate OneLink(t: Text) {
    t != [] && UrlLength(t) == |t| && forall i :: 0 <= i < |t| ==> t[i] != 27
  }

  lemma LinkReplaced(t: Text, labels: Labels)
    requires OneLink(t)
    ensures Human(t, labels) == Replace(false, Link(t, labels), labels)
  {
    hide UrlLength, Link, Strip;
    NoEscape(t, |t|);
    StripNothing();
    assert t[..|t|] + [] == t && t[|t|..] == [] && t[..|t|] == t;
    assert Links([], labels) == [];
    assert Link(t, labels) + [] == Link(t, labels);
  }

  lemma {:induction false} FreeHasNone(after: bool, t: Text)
    ensures Opaques(after, t) == [] <==> OpaqueFree(after, t)
    decreases |t|
  {
    hide OpaqueLength, Hex;
    if t != [] {
      assert t[0..] == t;
      if !Matches(after, t) {
        FreeHasNone(Hex(t[0]), t[1..]);
        if OpaqueFree(after, t) { FreeTail(after, t); }
        if OpaqueFree(Hex(t[0]), t[1..]) { FreeCons(after, t); }
      }
    }
  }

  lemma FreeCons(after: bool, t: Text)
    requires t != [] && !Matches(after, t) && OpaqueFree(Hex(t[0]), t[1..])
    ensures OpaqueFree(after, t)
  {
    hide OpaqueLength, Hex;
    forall i | 0 <= i < |t| ensures !Matches(if i == 0 then after else Hex(t[i - 1]), t[i..]) {
      if i == 0 {
        assert t[0..] == t;
      } else {
        assert t[1..][i - 1..] == t[i..];
        assert !Matches(if i - 1 == 0 then Hex(t[0]) else Hex(t[1..][i - 2]), t[1..][i - 1..]);
      }
    }
  }

  lemma {:induction false} FreeNotReplaced(after: bool, t: Text, labels: Labels)
    requires OpaqueFree(after, t)
    ensures Replace(after, t, labels) == t
    decreases |t|
  {
    hide OpaqueLength, Hex, Replace, OpaqueFree;
    if t == [] {
      ReplaceNothing(after, labels);
    } else {
      FreeAtStart(after, t);
      PlainStep(after, t, labels);
      FreeTail(after, t);
      FreeNotReplaced(Hex(t[0]), t[1..], labels);
    }
  }

  lemma FreeAtStart(after: bool, t: Text)
    requires t != [] && OpaqueFree(after, t)
    ensures !Matches(after, t)
  {
    hide OpaqueLength, Hex;
    assert t[0..] == t;
  }

  /** Without names a link is kept when it holds no reference and described when it holds one. */
  lemma LinkIsDescribed(t: Text)
    requires OneLink(t)
    ensures Human(t, map[]) == if OpaqueFree(false, t) then t else Codes("[ClearML link]")
  {
    hide Human, Opaques, OpaqueFree, UrlLength, OpaqueLength;
    LinkReplaced(t, map[]);
    FreeHasNone(false, t);
    NothingKnown(Opaques(false, t));
    if OpaqueFree(false, t) {
      FreeNotReplaced(false, t, map[]);
    } else {
      ShortUnchanged(false, Codes("[ClearML link]"), map[]);
    }
  }

  lemma {:induction false} NothingKnown(ids: seq<Text>)
    ensures Known(ids, map[]) == []
  {
    if ids != [] { NothingKnown(ids[1..]); }
  }

  // ----- overlong tokens -----

  predicate Spaceless(t: Text) {
    forall i :: 0 <= i < |t| ==> !Space(t[i])
  }

  lemma BoundaryBehind(head: Text, token: Text)
    requires Cut(head) && Spaceless(token)
    ensures Boundary(head + token) == |head|
  {
    hide Space;
    assert (head + token)[..|head|] == head && (head + token)[|head|..] == token;
    BoundaryIs(head + token, |head|);
  }

  /** A token beyond the limit is reported as such instead of being kept. */
  lemma OverlongIsReported(s: Stream, labels: Labels, chunk: Text, head: Text, token: Text)
    requires !s.discard && s.pending + chunk == head + token && Cut(head) && Spaceless(token) && |token| > 4096
    ensures Feed(s, labels, chunk, false) == (Stream([], true), Human(head, labels) + Codes("[long reference]"))
  {
    hide Human, Boundary, Space, FirstSpace;
    BoundaryBehind(head, token);
    assert (head + token)[..|head|] == head;
  }

  /** From then on everything up to the next white space is dropped, and what follows is handled as at the start. */
  lemma OverlongIsDropped(labels: Labels, more: Text, behind: Text, last: bool)
    requires Spaceless(more)
    ensures Feed(Stream([], true), labels, more, last) == (Stream([], true), [])
    ensures behind != [] && Space(behind[0]) ==>
      Feed(Stream([], true), labels, more + behind, last) == Feed(EMPTY, labels, behind, last)
  {
    hide Human, Boundary, Space;
    if behind != [] && Space(behind[0]) {
      var all := more + behind;
      assert all[|more|] == behind[0];
      assert forall i :: 0 <= i < |more| ==> all[i] == more[i];
      assert FirstSpace(all) == |more|;
      assert all[|more|..] == behind;
      assert [] + behind == behind;
    }
  }

  // ----- checkpoints -----

  /** Digits and dashes from a first digit on, or nothing. */
  predicate PossibleReference(t: Text) {
    (t != [] ==> Hex(t[0])) && forall i :: 0 <= i < |t| ==> HexOrDash(t[i])
  }

  lemma {:induction false} CandidateIs(head: Text, tail: Text)
    requires PossibleReference(tail) && (head == [] || !HexOrDash(head[|head| - 1]))
    ensures Candidate(head + tail) == |head|
  {
    hide Hex;
    var t := head + tail;
    if head == [] {
      assert t == tail;
    } else {
      assert t[1..] == head[1..] + tail && t[|head| - 1] == head[|head| - 1];
      CandidateIs(head[1..], tail);
    }
  }

  lemma {:induction false} NoEnd(after: bool, t: Text)
    requires OpaqueFree(after, t)
    ensures FirstEnd(after, t) == 0
    decreases |t|
  {
    hide OpaqueLength, Hex, OpaqueFree;
    if t != [] {
      FreeAtStart(after, t);
      FreeTail(after, t);
      NoEnd(Hex(t[0]), t[1..]);
    }
  }

  /**
   * A checkpoint shows the pending text when no reference can have begun at its end. A whole reference there is named;
   * the beginning of one is shown as a reference, and its continuation dropped.
   */
  lemma CheckpointShows(s: Stream, labels: Labels, head: Text, tail: Text)
    requires s.pending == head + tail && 27 !in s.pending
    requires PossibleReference(tail) && (head == [] || !HexOrDash(head[|head| - 1]))
    ensures tail == [] ==> Checkpoint(s, labels) == (Stream([], s.discard), Human(s.pending, labels))
    ensures IsReference(tail) ==> Checkpoint(s, labels) == (Stream([], true), Human(s.pending, labels))
    ensures tail != [] && OpaqueFree(false, tail) ==>
      Checkpoint(s, labels) == (Stream([], true), Human(head, labels) + Codes("[reference]"))
  {
    hide Human, OpaqueLength, Strip, DropTail, Candidate, OpaqueFree;
    NoEscape(s.pending, |s.pending|);
    StripNothing();
    assert s.pending[..|s.pending|] + [] == s.pending && s.pending[|s.pending|..] == [];
    NoEscapeKept(s.pending);
    CandidateIs(head, tail);
    assert s.pending[|head|..] == tail && s.pending[..|head|] == head;
    if OpaqueFree(false, tail) { NoEnd(false, tail); }
  }
}
