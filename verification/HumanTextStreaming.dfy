/** The bounded stream filter of core/presentation.py: chunk invariance, bounded tails, no reference exposed. */
module HumanTextStreaming {
  import opened Prelude
  import opened HumanText

  const MAX_TOKEN := 4096

  /** Index just behind the last white space, zero when there is none. */
  function Boundary(t: Text): (n: nat)
    ensures n <= |t| && Cut(t[..n]) && forall i :: n <= i < |t| ==> !Space(t[i])
  {
    if t == [] then 0
    else if Space(t[|t| - 1]) then assert t[..|t|] == t; |t|
    else
      var n := Boundary(t[..|t| - 1]);
      assert t[..|t| - 1][..n] == t[..n];
      assert forall i :: 0 <= i < |t| - 1 ==> t[i] == t[..|t| - 1][i];
      n
  }

  /** Index of the first white space, the length when there is none. */
  function FirstSpace(t: Text): (n: nat)
    ensures n <= |t| && (forall i :: 0 <= i < n ==> !Space(t[i])) && (n < |t| ==> Space(t[n]))
  {
    if t == [] || Space(t[0]) then 0 else 1 + FirstSpace(t[1..])
  }

  datatype Stream = Stream(pending: Text, discard: bool)

  const EMPTY := Stream([], false)

  /** Text not emitted so far plus the new chunk, without the rest of a discarded token. */
  function Offered(s: Stream, chunk: Text): Text {
    s.pending + (if s.discard then chunk[FirstSpace(chunk)..] else chunk)
  }

  function Feed(s: Stream, labels: Labels, chunk: Text, last: bool): (Stream, Text) {
    if s.discard && FirstSpace(chunk) == |chunk| then (s, [])
    else
      var whole := Offered(s, chunk);
      if last then (EMPTY, Human(whole, labels))
      else
        var n := Boundary(whole);
        if |whole| - n > MAX_TOKEN then (Stream([], true), Human(whole[..n], labels) + LONG)
        else (Stream(whole[n..], false), Human(whole[..n], labels))
  }

  // ----- publication checkpoints -----

  /** An unfinished control sequence reaching the end of the text. */
  predicate CsiTail(t: Text) {
    t != [] && t[0] == 27 &&
    (|t| == 1 || (t[1] == 91 && var a := 2 + Run(Parameter, t[2..]); a + Run(Intermediate, t[a..]) == |t|))
  }

  function DropTail(t: Text): Text {
    if t == [] || CsiTail(t) then [] else [t[0]] + DropTail(t[1..])
  }

  /** Where a reference that reaches the end of the text could start, the length when nowhere. */
  function Candidate(t: Text): (n: nat)
    ensures n <= |t| && (forall i :: n <= i < |t| ==> HexOrDash(t[i])) && (n < |t| ==> Hex(t[n]))
  {
    if t == [] then 0
    else
      var n := 1 + Candidate(t[1..]);
      if Hex(t[0]) && forall i :: 0 <= i < |t| ==> HexOrDash(t[i]) then 0
      else n
  }

  /** End of the first reference, zero when there is none. */
  function FirstEnd(after: bool, t: Text): (n: nat)
    ensures n <= |t|
    decreases |t|
  {
    if t == [] then 0
    else if Matches(after, t) then OpaqueLength(t)
    else
      var n := FirstEnd(Hex(t[0]), t[1..]);
      if n == 0 then 0 else n + 1
  }

  /** The pending text a checkpoint renders, without control sequences. */
  function Settled(s: Stream): Text {
    DropTail(Strip(s.pending))
  }

  function Checkpoint(s: Stream, labels: Labels): (Stream, Text) {
    var text := Settled(s);
    var n := Candidate(text);
    if n == |text| then (Stream([], s.discard), Human(text, labels))
    else if FirstEnd(false, text[n..]) == |text| - n then (Stream([], true), Human(text, labels))
    else (Stream([], true), Human(text[..n], labels) + REFERENCE)
  }

  class HumanTextStream {
    const labels: Labels
    var pending: Text
    var discard: bool

    ghost function State(): Stream
      reads this
    {
      Stream(pending, discard)
    }

    constructor (labels: Labels)
      ensures State() == EMPTY && this.labels == labels
    {
      this.labels, pending, discard := labels, [], false;
    }

    /** Emit everything up to the last white space; an overlong tail is dropped up to the next separator. */
    method FeedText(chunk: Text, last: bool) returns (result: Text)
      requires |pending| <= MAX_TOKEN
      modifies this
      ensures (State(), result) == Feed(old(State()), labels, chunk, last)
      ensures |pending| <= MAX_TOKEN
    {
      var text := chunk;
      if discard {
        var separator := FirstSpace(text);
        if separator == |text| {
          return [];
        }
        text := text[separator..];
        discard := false;
      }
      text := pending + text;
      pending := [];
      if last {
        return Human(text, labels);
      }
      var boundary := Boundary(text);
      pending := text[boundary..];
      result := Human(text[..boundary], labels);
      if |pending| > MAX_TOKEN {
        pending := [];
        discard := true;
        result := result + LONG;
      }
    }

    /** Flush the tail, hiding a possible reference prefix and its continuation. */
    method CheckpointText() returns (result: Text)
      modifies this
      ensures (State(), result) == Checkpoint(old(State()), labels)
      ensures pending == []
    {
      var text := DropTail(Strip(pending));
      pending := [];
      var start := Candidate(text);
      if start == |text| {
        return Human(text, labels);
      }
      discard := true;
      if FirstEnd(false, text[start..]) == |text| - start {
        return Human(text, labels);
      }
      result := Human(text[..start], labels) + REFERENCE;
    }
  }

  // ----- chunk invariance -----

  function Concat(chunks: seq<Text>): Text {
    if chunks == [] then [] else Concat(chunks[..|chunks| - 1]) + chunks[|chunks| - 1]
  }

  /** State and output after feeding the chunks one by one, none of them final. */
  function FeedAll(labels: Labels, chunks: seq<Text>): (Stream, Text) {
    if chunks == [] then (EMPTY, [])
    else
      var (s, out) := FeedAll(labels, chunks[..|chunks| - 1]);
      var (s2, more) := Feed(s, labels, chunks[|chunks| - 1], false);
      (s2, out + more)
  }

  /** The unfinished token behind the last white space. */
  function Tail(t: Text): Text {
    t[Boundary(t)..]
  }

  lemma {:induction false} BoundaryIs(t: Text, n: nat)
    requires n <= |t| && Cut(t[..n]) && forall i :: n <= i < |t| ==> !Space(t[i])
    ensures Boundary(t) == n
  {
    hide Space;
    if n < |t| {
      assert t[..|t| - 1][..n] == t[..n];
      BoundaryIs(t[..|t| - 1], n);
    } else {
      assert t[..|t|] == t;
    }
  }

  lemma BoundaryShift(a: Text, b: Text)
    requires Cut(a)
    ensures Boundary(a + b) == |a| + Boundary(b)
  {
    hide Space;
    var m := Boundary(b);
    assert (a + b)[..|a| + m] == a + b[..m];
    BoundaryIs(a + b, |a| + m);
  }

  /** No prefix of the chunks leaves an unfinished token longer than the limit. */
  ghost predicate TailsFit(chunks: seq<Text>) {
    forall k :: 0 <= k <= |chunks| ==> |Tail(Concat(chunks[..k]))| <= MAX_TOKEN
  }

  lemma TailsFitPrefix(chunks: seq<Text>)
    requires chunks != [] && TailsFit(chunks)
    ensures TailsFit(chunks[..|chunks| - 1]) && |Tail(Concat(chunks))| <= MAX_TOKEN
  {
    hide Tail, Concat;
    var prefix := chunks[..|chunks| - 1];
    forall k | 0 <= k <= |prefix| ensures |Tail(Concat(prefix[..k]))| <= MAX_TOKEN {
      assert prefix[..k] == chunks[..k];
    }
    assert chunks[..|chunks|] == chunks;
  }

  lemma CutPieces(all: Text, chunk: Text)
    ensures Boundary(all + chunk) == Boundary(all) + Boundary(all[Boundary(all)..] + chunk)
  {
    hide Space;
    var n := Boundary(all);
    assert all + chunk == all[..n] + (all[n..] + chunk);
    BoundaryShift(all[..n], all[n..] + chunk);
  }

  lemma Splice(all: Text, chunk: Text, n: nat, m: nat)
    requires n <= |all| && m <= |all[n..] + chunk|
    ensures var text := all[n..] + chunk;
            all + chunk == all[..n] + text && (all + chunk)[..n + m] == all[..n] + text[..m]
              && (all + chunk)[n + m..] == text[m..]
  {
    var text := all[n..] + chunk;
    assert all + chunk == all[..n] + text;
  }

  /** No control sequence spans this place of the text. */
  ghost predicate CleanCut(whole: Text, n: nat) {
    n <= |whole| && CutsClean(whole[..n], whole[n..])
  }

  /** No control sequence of the whole text spans a place where the stream cuts it. */
  ghost predicate CleanCuts(chunks: seq<Text>, later: Text) {
    forall k :: 0 <= k <= |chunks| ==> CleanCut(Concat(chunks) + later, Boundary(Concat(chunks[..k])))
  }

  lemma CleanCutsPrefix(chunks: seq<Text>, later: Text)
    requires chunks != [] && CleanCuts(chunks, later)
    ensures CleanCuts(chunks[..|chunks| - 1], chunks[|chunks| - 1] + later)
  {
    hide Boundary, CleanCut;
    var prefix, last := chunks[..|chunks| - 1], chunks[|chunks| - 1];
    assert Concat(prefix) + (last + later) == Concat(chunks) + later;
    forall k | 0 <= k <= |prefix| ensures CleanCut(Concat(prefix) + (last + later), Boundary(Concat(prefix[..k]))) {
      assert prefix[..k] == chunks[..k];
    }
  }

  /** A clean cut stays clean when the text goes on for less. */
  lemma CutsCleanShorter(a: Text, b: Text, c: Text)
    requires CutsClean(a, b + c)
    ensures CutsClean(a, b)
  {
    hide CsiLength;
    forall i | 0 <= i < |a| ensures CsiLength((a + b)[i..]) <= |a| - i {
      CsiLocal((a + b)[i..], c);
      assert (a + (b + c))[i..] == (a + b)[i..] + c;
    }
  }

  /** Between chunks the tail is pending and everything before it is rendered. */
  lemma {:induction false} FeedAllRenders(labels: Labels, chunks: seq<Text>, later: Text)
    requires TailsFit(chunks) && CleanCuts(chunks, later)
    ensures var all := Concat(chunks);
            FeedAll(labels, chunks) == (Stream(Tail(all), false), Human(all[..Boundary(all)], labels))
  {
    hide Human, TailsFit, Boundary, CleanCuts, CutsClean;
    if chunks == [] {
      NothingHuman(labels);
      BoundaryOfNothing();
    } else {
      var prefix, chunk := chunks[..|chunks| - 1], chunks[|chunks| - 1];
      var before := Concat(prefix);
      TailsFitPrefix(chunks);
      CleanCutsPrefix(chunks, later);
      FeedAllRenders(labels, prefix, chunk + later);
      LastCut(prefix, chunk + later);
      HeadSplits(labels, before, chunk, later);
      Splice(before, chunk, Boundary(before), Boundary(before[Boundary(before)..] + chunk));
    }
  }

  /** One more chunk renders one more piece. */
  lemma HeadSplits(labels: Labels, before: Text, chunk: Text, later: Text)
    requires var n := Boundary(before); CutsClean(before[..n], before[n..] + (chunk + later))
    ensures var n, all := Boundary(before), before + chunk; var text := before[n..] + chunk;
            && Boundary(all) == n + Boundary(text)
            && Human(all[..Boundary(all)], labels) == Human(before[..n], labels) + Human(text[..Boundary(text)], labels)
  {
    hide Human, Boundary, CutsClean;
    CutPieces(before, chunk);
    var n := Boundary(before);
    var text := before[n..] + chunk;
    var m := Boundary(text);
    Splice(before, chunk, n, m);
    assert before[n..] + (chunk + later) == text[..m] + (text[m..] + later);
    CutsCleanShorter(before[..n], text[..m], text[m..] + later);
    BoundaryCuts(before);
    HumanSplits(before[..n], text[..m], labels);
  }

  lemma LastCut(chunks: seq<Text>, later: Text)
    requires CleanCuts(chunks, later)
    ensures var all := Concat(chunks); var n := Boundary(all); CutsClean(all[..n], all[n..] + later)
  {
    hide Boundary, CutsClean;
    var all := Concat(chunks);
    var n := Boundary(all);
    assert chunks[..|chunks|] == chunks;
    assert CleanCut(all + later, n);
    assert (all + later)[..n] == all[..n] && (all + later)[n..] == all[n..] + later;
  }

  lemma {:induction false} ConcatPrefix(chunks: seq<Text>, k: nat)
    requires k <= |chunks|
    ensures |Concat(chunks[..k])| <= |Concat(chunks)| && Concat(chunks)[..|Concat(chunks[..k])|] == Concat(chunks[..k])
  {
    if k < |chunks| {
      var prefix := chunks[..|chunks| - 1];
      ConcatPrefix(prefix, k);
      assert prefix[..k] == chunks[..k];
    } else {
      assert chunks[..k] == chunks;
    }
  }

  /** Control sequences without white space span no cut. */
  lemma SpacelessIsClean(chunks: seq<Text>, later: Text)
    requires SpacelessCsi(Concat(chunks) + later)
    ensures CleanCuts(chunks, later)
  {
    hide Boundary, CutsClean, SpacelessCsi, Cut, Concat;
    var whole := Concat(chunks) + later;
    forall k | 0 <= k <= |chunks| ensures CleanCut(whole, Boundary(Concat(chunks[..k]))) {
      var part := Concat(chunks[..k]);
      var n := Boundary(part);
      ConcatPrefix(chunks, k);
      BoundaryCuts(part);
      assert whole[..n] == part[..n] && whole[..n] + whole[n..] == whole;
      SpacelessCutsClean(whole[..n], whole[n..]);
    }
  }

  lemma BoundaryOfNothing()
    ensures Boundary([]) == 0
  {
  }

  lemma BoundaryCuts(t: Text)
    ensures Cut(t[..Boundary(t)])
  {
  }

  /** Main result: however the text is cut, the outputs up to a final feed are the rendered whole text. */
  lemma ChunkInvariance(labels: Labels, chunks: seq<Text>, last: Text)
    requires TailsFit(chunks) && CleanCuts(chunks, last)
    ensures var (s, out) := FeedAll(labels, chunks);
            out + Feed(s, labels, last, true).1 == Human(Concat(chunks) + last, labels)
  {
    hide Human, TailsFit, Boundary, CutsClean, Concat, Cut, CleanCuts;
    var all := Concat(chunks);
    FeedAllRenders(labels, chunks, last);
    var n := Boundary(all);
    BoundaryCuts(all);
    assert all + last == all[..n] + (all[n..] + last);
    LastCut(chunks, last);
    HumanSplits(all[..n], all[n..] + last, labels);
  }

  /** Text that ends in white space is rendered at once. */
  lemma FeedCut(labels: Labels, t: Text)
    requires Cut(t)
    ensures Feed(EMPTY, labels, t, false) == (EMPTY, Human(t, labels))
  {
    hide Human, Cut;
    assert t[..|t|] == t && t[|t|..] == [] && EMPTY.pending + t == t;
    BoundaryIs(t, |t|);
  }

  /** The condition matters: a sequence with an inner space, cut behind it, is not removed. */
  lemma SpacedSequenceBreaks()
    ensures var (s, out) := Feed(EMPTY, map[], [27, 91, 32], false);
            out + Feed(s, map[], [65], true).1 != Human([27, 91, 32] + [65], map[])
  {
    hide Human, Feed;
    FeedCut(map[], [27, 91, 32]);
    FeedLast([65]);
    OneSequence();
    OneCharacter();
  }

  lemma FeedLast(t: Text)
    ensures Feed(EMPTY, map[], t, true).1 == Human(t, map[])
  {
    assert EMPTY.pending + t == t;
  }

  lemma OneSequence()
    ensures Human([27, 91, 32] + [65], map[]) == []
  {
    var t: Text := [27, 91, 32, 65];
    assert [27, 91, 32] + [65] == t;
    ShapeIsCsi(t, 4);
    assert t[4..] == [];
  }

  lemma OneCharacter()
    ensures Human([65], map[]) == [65]
  {
    assert [65][1..] == [];
  }

  // ----- nothing opaque is shown -----

  /** Behind its last digit the text has a character that ends any reference. */
  ghost predicate Sealed(t: Text) {
    forall i :: 0 <= i < |t| && Hex(t[i]) ==> HasStop(t[i..])
  }

  predicate HasStop(t: Text) {
    exists i :: 0 <= i < |t| && !HexOrDash(t[i])
  }

  lemma StopAt(t: Text, i: nat)
    requires i < |t| && !HexOrDash(t[i])
    ensures forall k :: 0 <= k <= i ==> HasStop(t[k..])
  {
    forall k | 0 <= k <= i ensures HasStop(t[k..]) { assert t[k..][i - k] == t[i]; }
  }

  lemma StopEnds(t: Text)
    requires t != [] && !HexOrDash(t[|t| - 1])
    ensures Sealed(t) && HasStop(t)
  {
    StopAt(t, |t| - 1);
    assert t[0..] == t;
  }

  lemma StopJoins(a: Text, b: Text)
    ensures HasStop(a + b) <==> HasStop(a) || HasStop(b)
  {
    if HasStop(a) {
      var i :| 0 <= i < |a| && !HexOrDash(a[i]);
      assert (a + b)[i] == a[i];
    }
    if HasStop(b) {
      var i :| 0 <= i < |b| && !HexOrDash(b[i]);
      assert (a + b)[|a| + i] == b[i];
    }
  }

  /** Both parts sealed, or the second sealed and able to seal the first. */
  lemma SealedJoins(a: Text, b: Text)
    ensures Sealed(a + b) <==> Sealed(b) && (Sealed(a) || HasStop(b))
  {
    hide Hex, HasStop;
    forall i | 0 <= i < |a + b| ensures i >= |a| ==> (a + b)[i..] == b[i - |a|..] {}
    if Sealed(a + b) {
      forall i | 0 <= i < |b| && Hex(b[i]) ensures HasStop(b[i..]) { assert (a + b)[|a| + i..] == b[i..]; }
      forall i | 0 <= i < |a| && Hex(a[i]) ensures HasStop(a[i..]) || HasStop(b) {
        assert (a + b)[i..] == a[i..] + b;
        StopJoins(a[i..], b);
      }
    }
    if Sealed(b) && (Sealed(a) || HasStop(b)) {
      forall i | 0 <= i < |a + b| && Hex((a + b)[i]) ensures HasStop((a + b)[i..]) {
        if i < |a| {
          assert (a + b)[i..] == a[i..] + b;
          StopJoins(a[i..], b);
        }
      }
    }
  }

  // ----- unfinished references -----

  predicate Digits(t: Text) {
    forall i :: 0 <= i < |t| ==> Hex(t[i])
  }

  /** The beginning of a dashed identifier, not all of it. */
  predicate UuidStart(t: Text) {
    |t| < 36 && forall i :: 0 <= i < |t| ==> if i == 8 || i == 13 || i == 18 || i == 23 then t[i] == 45 else Hex(t[i])
  }

  /** More characters could make this a reference. */
  predicate Startable(t: Text) {
    t != [] && ((|t| <= 63 && Digits(t)) || UuidStart(t))
  }

  /**
   * Behind a character that is no digit the text ends in at most 63 digits, or in the beginning of a dashed
   * identifier.
   */
  ghost predicate Completable(t: Text) {
    exists i :: 0 <= i < |t| && CompletableAt(t, i)
  }

  predicate CompletableAt(t: Text, i: nat)
    requires i < |t|
  {
    !(i > 0 && Hex(t[i - 1])) && Startable(t[i..])
  }

  lemma PrefixStartable(t: Text, k: nat)
    requires 0 < k < OpaqueLength(t)
    ensures Startable(t[..k])
  {
  }

  lemma StartableShrinks(t: Text, k: nat)
    requires 0 < k <= |t|
    ensures Startable(t) ==> Startable(t[..k])
  {
  }

  lemma StartableShape(t: Text)
    ensures Startable(t) ==> t != [] && Hex(t[0]) && forall i :: 0 <= i < |t| ==> HexOrDash(t[i])
  {
  }

  lemma SealedTail(t: Text, i: nat)
    requires Sealed(t) && i < |t|
    ensures !Startable(t[i..])
  {
    hide Startable, Hex, HexOrDash;
    assert t[i..][0] == t[i];
    StartableShape(t[i..]);
  }

  /** A reference cannot cross into text that starts with a stop, nor out of text whose end is not the start of one. */
  lemma JoinFree(a: Text, b: Text)
    requires OpaqueFree(false, a) && OpaqueFree(false, b)
    requires !Completable(a) || b == [] || !HexOrDash(b[0])
    ensures OpaqueFree(false, a + b)
  {
    hide OpaqueLength, Hex, Completable, HexOrDash;
    forall i | 0 <= i < |a + b| ensures !Matches(if i == 0 then false else Hex((a + b)[i - 1]), (a + b)[i..]) {
      if i < |a| {
        NotAcross(a, b, i);
      } else {
        assert (a + b)[i..] == b[i - |a|..];
        assert i > |a| ==> (a + b)[i - 1] == b[i - |a| - 1];
        assert OpaqueFreeAt(b, i - |a|);
      }
    }
  }

  /** No reference starts at this position. */
  ghost predicate OpaqueFreeAt(t: Text, i: nat)
    requires i < |t|
  {
    !Matches(if i == 0 then false else Hex(t[i - 1]), t[i..])
  }

  lemma NotAcross(a: Text, b: Text, i: nat)
    requires i < |a| && OpaqueFree(false, a) && (!Completable(a) || b == [] || !HexOrDash(b[0]))
    ensures OpaqueFreeAt(a + b, i)
  {
    hide OpaqueLength, Hex, Startable;
    assert (a + b)[i..] == a[i..] + b;
    assert i > 0 ==> (a + b)[i - 1] == a[i - 1];
    assert OpaqueFreeAt(a, i);
    if OpaqueLength(a[i..] + b) > |a| - i {
      Crossing(a[i..], b);
      assert !CompletableAt(a, i);
    } else if OpaqueLength(a[i..] + b) > 0 {
      Inside(a[i..], b);
    }
  }

  /** A reference that goes on into the second part was started by the first. */
  lemma Crossing(t: Text, b: Text)
    requires t != [] && OpaqueLength(t + b) > |t|
    ensures Startable(t) && b != [] && HexOrDash(b[0])
  {
    hide OpaqueLength, Startable;
    PrefixStartable(t + b, |t|);
    assert (t + b)[..|t|] == t;
    OpaqueShape(t + b);
    assert (t + b)[|t|] == b[0];
  }

  lemma Inside(t: Text, b: Text)
    requires 0 < OpaqueLength(t + b) <= |t|
    ensures OpaqueLength(t) == OpaqueLength(t + b)
  {
    hide Uuid;
    assert (t + b)[..|t|] == t[..|t|];
    OpaqueByPrefix(t + b, t, |t|);
  }

  /** Replacing parts keeps a text sealed when every part stays sealed and keeps its stops. */
  lemma Recombine(p: Text, r: Text, q: Text, x: Text)
    requires (Sealed(p) ==> Sealed(q)) && (HasStop(p) ==> HasStop(q)) && (Sealed(r) ==> Sealed(x))
        && (HasStop(r) ==> HasStop(x))
    ensures (Sealed(p + r) ==> Sealed(q + x)) && (HasStop(p + r) ==> HasStop(q + x))
  {
    hide Sealed, HasStop;
    SealedJoins(p, r);
    SealedJoins(q, x);
    StopJoins(p, r);
    StopJoins(q, x);
  }

  lemma WordSealed(t: Text)
    requires Bracketed(t)
    ensures Sealed(t) && HasStop(t)
  {
    hide Broken;
    StopEnds(t);
  }

  /** Links never unseal a text: a kept link is unchanged, a described one ends in a bracket. */
  lemma {:induction false} LinksSealed(t: Text)
    ensures (Sealed(t) ==> Sealed(Links(t, map[]))) && (HasStop(t) ==> HasStop(Links(t, map[])))
    decreases |t|
  {
    hide Sealed, HasStop, LinkPiece, LinkStep;
    if t != [] {
      var n := LinkStep(t);
      LinksSealed(t[n..]);
      LinkPieceSealed(t);
      assert t == t[..n] + t[n..];
      Recombine(t[..n], t[n..], LinkPiece(t, map[]), Links(t[n..], map[]));
    }
  }

  lemma LinkPieceSealed(t: Text)
    requires t != []
    ensures var n := LinkStep(t);
            LinkPiece(t, map[]) == t[..n] || (Sealed(LinkPiece(t, map[])) && HasStop(LinkPiece(t, map[])))
  {
    hide Sealed, HasStop, Bracketed, UrlLength, Opaques;
    WordsBracketed();
    WordSealed(LINK);
    if UrlLength(t) > 0 {
      NothingKnown(Opaques(false, t[..UrlLength(t)]));
    }
  }

  lemma {:induction false} NothingKnown(ids: seq<Text>)
    ensures Known(ids, map[]) == []
  {
    if ids != [] { NothingKnown(ids[1..]); }
  }

  lemma {:induction false} ReplaceSealed(after: bool, t: Text)
    ensures (Sealed(t) ==> Sealed(Replace(after, t, map[]))) && (HasStop(t) ==> HasStop(Replace(after, t, map[])))
    decreases |t|
  {
    hide Sealed, HasStop, Piece, OpaqueStep, Replace;
    if t == [] {
      ReplaceNothing(after, map[]);
    } else {
      var n := OpaqueStep(after, t);
      ReplaceSealed(Hex(t[n - 1]), t[n..]);
      PieceSealed(after, t);
      ReplaceIs(after, t, map[]);
      assert t == t[..n] + t[n..];
      Recombine(t[..n], t[n..], Piece(after, t, map[]), Replace(Hex(t[n - 1]), t[n..], map[]));
    }
  }

  lemma PieceSealed(after: bool, t: Text)
    requires t != []
    ensures var n := OpaqueStep(after, t);
            Piece(after, t, map[]) == t[..n] || (Sealed(Piece(after, t, map[])) && HasStop(Piece(after, t, map[])))
  {
    hide Sealed, HasStop, Bracketed, OpaqueLength, Reference;
    if Matches(after, t) {
      PieceBracketed(after, t);
      WordSealed(Piece(after, t, map[]));
    }
  }

  /** Rendering keeps a text sealed, provided stripping it once removed all control sequences. */
  lemma HumanSealed(t: Text)
    requires Sealed(t) && Strip(t) == t
    ensures Sealed(Human(t, map[]))
  {
    hide Sealed, HasStop, Links, Replace, Strip;
    LinksSealed(t);
    ReplaceSealed(false, Links(t, map[]));
  }

  /** Rendering text cut at white space ends in white space. */
  lemma HumanCut(t: Text, labels: Labels)
    requires Cut(t)
    ensures Cut(Human(t, labels))
  {
    hide Strip, Links, Replace, Space;
    if t == [] {
      NothingHuman(labels);
    } else {
      StripEndsInSpace(t);
      LinksSplit(Strip(t), [], labels);
      ReplaceSplits(false, Links(Strip(t), labels), [], labels);
    }
  }

  /** White space at the front stays there. */
  lemma HumanStartsInSpace(t: Text, labels: Labels)
    requires t != [] && Space(t[0])
    ensures Human(t, labels) != [] && Space(Human(t, labels)[0])
  {
    hide Space, Links, Replace, Strip;
    var c, rest := [t[0]], t[1..];
    assert t == c + rest && EndsInSpace(c);
    SpaceAlone(t[0], rest, labels);
    HumanSplits(c, rest, labels);
  }

  lemma SpaceAlone(c: int, rest: Text, labels: Labels)
    requires Space(c)
    ensures CutsClean([c], rest) && Human([c], labels) == [c]
  {
    var t: Text := [c];
    assert t[1..] == [];
    forall i | 0 <= i < 1 ensures CsiLength((t + rest)[i..]) <= 1 {
      assert (t + rest)[0..] == t + rest;
      StartsWithEscape(t + rest);
    }
    StartsWithEscape(t);
    StripFirst(t);
    UrlLocal(t, []);
    OpaqueLocal(t, []);
    RenderedAlone(t, labels);
  }

  lemma RenderedAlone(t: Text, labels: Labels)
    requires |t| == 1 && Strip(t[1..]) == [] && Strip(t) == [t[0]] + Strip(t[1..]) && UrlLength(t) == 0
        && OpaqueLength(t) == 0
    ensures Human(t, labels) == t
  {
    hide Strip, UrlLength, OpaqueLength;
    assert Strip(t) == t && t[1..] == [];
    assert Links(t, labels) == t;
    ReplaceIs(false, t, labels);
    ReplaceNothing(Hex(t[0]), labels);
    assert Piece(false, t, labels) == t;
  }

  lemma CandidateSeals(t: Text)
    requires Candidate(t) == |t|
    ensures Sealed(t)
  {
    forall i | 0 <= i < |t| && Hex(t[i]) ensures HasStop(t[i..]) {
      CandidateBefore(t, i);
    }
  }

  /** A digit with only digits and dashes behind it is a candidate. */
  lemma {:induction false} CandidateBefore(t: Text, i: nat)
    requires i < |t| && Hex(t[i]) && Candidate(t) > i
    ensures HasStop(t[i..])
  {
    hide Hex, HexOrDash;
    if i == 0 {
      var j :| 0 <= j < |t| && !HexOrDash(t[j]);
      assert t[0..] == t;
    } else {
      assert t[1..][i - 1] == t[i];
      CandidateBefore(t[1..], i - 1);
      assert t[1..][i - 1..] == t[i..];
    }
  }

  // ----- text in which nothing is replaced -----

  lemma ColonInside(t: Text, prefix: Text, i: nat)
    requires i < |prefix| && prefix[i] == 58
    ensures Starts(t, prefix) ==> 58 in t
  {
    if Starts(t, prefix) { assert t[..|prefix|][i] == t[i]; }
  }

  lemma {:induction false} NoColonNoLink(t: Text, labels: Labels)
    requires 58 !in t
    ensures Links(t, labels) == t
  {
    hide UrlChar, Link;
    if t != [] {
      assert HTTP[4] == 58 && HTTPS[5] == 58 && CLEARML[7] == 58;
      ColonInside(t, HTTP, 4);
      ColonInside(t, HTTPS, 5);
      ColonInside(t, CLEARML, 7);
      NoColonNoLink(t[1..], labels);
    }
  }

  /** Text shorter than any reference is left alone. */
  lemma {:induction false} ShortUnchanged(after: bool, t: Text, labels: Labels)
    requires |t| < 32
    ensures Replace(after, t, labels) == t
    decreases |t|
  {
    hide OpaqueLength, Replace, Hex;
    if t == [] {
      ReplaceNothing(after, labels);
    } else {
      ShortNoMatch(after, t);
      PlainStep(after, t, labels);
      ShortUnchanged(Hex(t[0]), t[1..], labels);
    }
  }

  lemma ShortNoMatch(after: bool, t: Text)
    requires |t| < 32
    ensures !Matches(after, t)
  {
    hide Uuid;
    if OpaqueLength(t) > 0 { OpaqueShape(t); }
  }

  lemma ShortHuman(t: Text)
    requires |Strip(t)| < 32 && 58 !in Strip(t)
    ensures Human(t, map[]) == Strip(t)
  {
    hide Links, Replace, Strip;
    NoColonNoLink(Strip(t), map[]);
    ShortUnchanged(false, Strip(t), map[]);
  }

  lemma EscapeKept(u: Text)
    requires |u| > 1 && u[0] == 27 && u[1] != 91
    ensures Strip(u) == [27] + Strip(u[1..])
  {
    StripFirst(u);
  }

  lemma StripNothing()
    ensures Strip([]) == []
  {
  }

  lemma KeptFirst(t: Text)
    requires t != [] && t[0] != 27
    ensures DropTail(t) == [t[0]] + DropTail(t[1..])
  {
  }

  lemma {:induction false} TailKept(t: Text, k: nat)
    requires k <= |t| && (forall i :: 0 <= i < k ==> t[i] != 27) && DropTail(t[k..]) == t[k..]
    ensures DropTail(t) == t
  {
    hide DropTail;
    if k > 0 {
      KeptFirst(t);
      assert t[1..][k - 1..] == t[k..];
      assert forall i :: 0 <= i < k - 1 ==> t[1..][i] == t[i + 1];
      TailKept(t[1..], k - 1);
    } else {
      assert t[0..] == t;
    }
  }

  lemma {:induction false} NoEscapeKept(t: Text)
    requires 27 !in t
    ensures DropTail(t) == t
  {
    if t != [] { NoEscapeKept(t[1..]); }
  }

  lemma {:induction false} NoCandidate(t: Text)
    requires t != [] && !HexOrDash(t[|t| - 1])
    ensures Candidate(t) == |t|
  {
    if |t| > 1 { NoCandidate(t[1..]); }
  }

  const RESET: Text := [27, 91, 109]
}
