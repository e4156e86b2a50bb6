/**
 * What checkpoints of the stream filter (core/presentation.py) can expose: the exact condition under which a
 * continuation completes a reference whose beginning was shown.
 */
module CheckpointExposure {
  import opened Prelude
  import opened HumanText
  import opened HumanTextStreaming

  // ----- runs of chunks and checkpoints -----

  datatype Event = Chunk(text: Text) | Mark

  function Step(s: Stream, e: Event): (Stream, Text) {
    match e
    case Chunk(text) => Feed(s, map[], text, false)
    case Mark => Checkpoint(s, map[])
  }

  function RunAll(events: seq<Event>): (Stream, Text) {
    if events == [] then (EMPTY, [])
    else
      var (s, out) := RunAll(events[..|events| - 1]);
      var (s2, more) := Step(s, events[|events| - 1]);
      (s2, out + more)
  }

  /** Everything shown when a final text ends the run here. */
  function Shown(events: seq<Event>, last: Text): Text {
    var (s, out) := RunAll(events);
    out + Feed(s, map[], last, true).1
  }

  /** Nothing is being dropped, and what was shown ends in the beginning of a reference. */
  ghost predicate Open(s: Stream, out: Text) {
    !s.discard && Completable(out)
  }

  /** What was shown has no reference, and unless what follows is dropped it ends in the beginning of none. */
  ghost predicate Guarded(s: Stream, out: Text) {
    OpaqueFree(false, out) && (s.discard ==> s.pending == []) && !Open(s, out)
  }

  // ----- an open end is completed by some continuation -----

  function Repeated(n: nat): (t: Text)
    ensures |t| == n && forall i :: 0 <= i < n ==> t[i] == 48
  {
    seq(n, _ => 48)
  }

  const TEMPLATE: Text := Repeated(8) + [45] + Repeated(4) + [45] + Repeated(4) + [45] + Repeated(4) + [45]
    + Repeated(12)

  lemma TemplateIs()
    ensures |TEMPLATE| == 36
    ensures forall i :: 0 <= i < 36 ==> TEMPLATE[i] == if i == 8 || i == 13 || i == 18 || i == 23 then 45 else 48
  {
  }

  /** Fewer than 32 characters complete any beginning. */
  lemma Completion(t: Text) returns (b: Text)
    requires Startable(t)
    ensures |b| < 32 && 27 !in b && 58 !in b && OpaqueLength(t + b) > 0
  {
    if Digits(t) && |t| <= 63 {
      var n := if |t| < 32 then 32 else if |t| < 40 then 40 else 64;
      b := Repeated(n - |t|);
      CompletedRun(t, b, n);
    } else {
      TemplateIs();
      b := TEMPLATE[|t|..];
      forall i | 0 <= i < |b| ensures b[i] == TEMPLATE[|t| + i] && b[i] != 27 && b[i] != 58 {}
      CompletedUuid(t);
      DashInside(t);
    }
  }

  lemma DashInside(t: Text)
    requires UuidStart(t) && !Digits(t)
    ensures |t| > 8
  {
  }

  lemma CompletedRun(t: Text, b: Text, n: nat)
    requires Digits(t) && (n == 32 || n == 40 || n == 64) && |t| + |b| == n && forall i :: 0 <= i < |b| ==> b[i] == 48
    ensures OpaqueLength(t + b) > 0
  {
    hide Uuid;
    RunIs(Hex, t + b, n);
    UuidRun(t + b);
  }

  lemma CompletedUuid(t: Text)
    requires UuidStart(t)
    ensures OpaqueLength(t + TEMPLATE[|t|..]) > 0
  {
    TemplateIs();
    var u := t + TEMPLATE[|t|..];
    assert forall i :: 0 <= i < 36 ==> if i == 8 || i == 13 || i == 18 || i == 23 then u[i] == 45 else Hex(u[i]);
    assert Uuid(u);
  }

  /** With nothing pending or dropped, an open end can be completed by what comes next. */
  lemma OpenIsCompleted(out: Text) returns (b: Text)
    requires Completable(out)
    ensures !OpaqueFree(false, out + Feed(EMPTY, map[], b, true).1)
  {
    hide OpaqueFree, OpaqueLength, Startable, Hex, Human;
    var i :| 0 <= i < |out| && CompletableAt(out, i);
    b := Completion(out[i..]);
    ShortPlain(b);
    FeedLast(b);
    assert (out + b)[i..] == out[i..] + b;
    assert i > 0 ==> (out + b)[i - 1] == out[i - 1];
    assert !OpaqueFreeAt(out + b, i);
    NotFreeAt(out + b, i);
  }

  lemma NotFreeAt(t: Text, i: nat)
    requires i < |t| && !OpaqueFreeAt(t, i)
    ensures !OpaqueFree(false, t)
  {
  }

  lemma ShortPlain(b: Text)
    requires |b| < 32 && 27 !in b && 58 !in b
    ensures Human(b, map[]) == b
  {
    hide Human, Strip;
    NoEscape(b, |b|);
    StripNothing();
    assert b[|b|..] == [] && b[..|b|] + [] == b;
    ShortHuman(b);
  }

  // ----- a closed end stays closed -----

  lemma StopsClosed(t: Text)
    requires t != [] && !HexOrDash(t[|t| - 1])
    ensures !Completable(t)
  {
    hide Startable, HexOrDash;
    forall i | 0 <= i < |t| ensures !CompletableAt(t, i) {
      assert t[i..][|t| - 1 - i] == t[|t| - 1];
      StartableShape(t[i..]);
    }
  }

  lemma SpaceStops(c: int)
    requires Space(c)
    ensures !HexOrDash(c)
  {
  }

  /** Showing a rendered head cut at white space closes the end, or shows nothing. */
  lemma ShowHead(out: Text, head: Text)
    requires OpaqueFree(false, out) && Cut(head) && (!Completable(out) || (head != [] && Space(head[0])))
    ensures OpaqueFree(false, out + Human(head, map[])) && !Completable(out + Human(head, map[]))
  {
    hide OpaqueFree, Completable, Human, Space, HexOrDash;
    var more := Human(head, map[]);
    HumanShowsNoReference(head, map[]);
    HumanCut(head, map[]);
    if head != [] && Space(head[0]) {
      HumanStartsInSpace(head, map[]);
      SpaceStops(more[0]);
    }
    JoinFree(out, more);
    if more == [] {
      assert out + more == out;
    } else {
      SpaceStops(more[|more| - 1]);
      assert (out + more)[|out + more| - 1] == more[|more| - 1];
      StopsClosed(out + more);
    }
  }

  /** A bracketed word closes any end. */
  lemma ShowWord(out: Text, word: Text)
    requires OpaqueFree(false, out) && Bracketed(word)
    ensures OpaqueFree(false, out + word) && !Completable(out + word)
  {
    hide OpaqueFree, Completable, Bracketed, HexOrDash;
    BracketedIsFree(word);
    JoinFree(out, word);
    assert (out + word)[|out + word| - 1] == word[|word| - 1];
    StopsClosed(out + word);
  }

  /** After discarding, the next text starts at the separator. */
  lemma OfferedStarts(s: Stream, chunk: Text)
    requires s.discard ==> s.pending == [] && FirstSpace(chunk) < |chunk|
    ensures var whole := Offered(s, chunk); var n := Boundary(whole);
            Cut(whole[..n]) && (s.discard ==>
              whole[..n] != [] && Space(whole[..n][0]) && whole != [] && Space(whole[0]))
  {
    hide Space;
  }

  lemma FeedGuarded(s: Stream, out: Text, chunk: Text)
    requires Guarded(s, out)
    ensures var (s2, more) := Feed(s, map[], chunk, false); Guarded(s2, out + more)
  {
    hide OpaqueFree, Completable, Human, Space, Boundary, FirstSpace, HexOrDash, Bracketed;
    if s.discard && FirstSpace(chunk) == |chunk| {
      assert out + [] == out;
    } else {
      var whole := Offered(s, chunk);
      var n := Boundary(whole);
      OfferedStarts(s, chunk);
      ShowHead(out, whole[..n]);
      var head := Human(whole[..n], map[]);
      if |whole| - n > MAX_TOKEN {
        WordsBracketed();
        ShowWord(out + head, LONG);
        assert out + head + LONG == out + (head + LONG);
      }
    }
  }

  /** A checkpoint shows no reference, and unless it leaves the end open everything stays guarded. */
  lemma CheckpointShows(s: Stream, out: Text)
    requires Guarded(s, out)
    ensures var (s2, more) := Checkpoint(s, map[]);
            s2.pending == [] && OpaqueFree(false, out + more) && (!Open(s2, out + more) ==> Guarded(s2, out + more))
  {
    hide OpaqueFree, Completable, Human, Candidate, FirstEnd, Strip, Settled, Bracketed, HexOrDash;
    var text := Settled(s);
    var n := Candidate(text);
    if s.discard {
      SettledNothing(s);
      NothingHuman(map[]);
      CandidateOfNothing();
      assert out + [] == out;
    } else if n == |text| || FirstEnd(false, text[n..]) == |text| - n {
      HumanShowsNoReference(text, map[]);
      JoinFree(out, Human(text, map[]));
    } else {
      var head := Human(text[..n], map[]);
      HumanShowsNoReference(text[..n], map[]);
      JoinFree(out, head);
      WordsBracketed();
      ShowWord(out + head, REFERENCE);
      assert out + head + REFERENCE == out + (head + REFERENCE);
    }
  }

  lemma SettledNothing(s: Stream)
    requires s.pending == []
    ensures Settled(s) == []
  {
  }

  lemma CandidateOfNothing()
    ensures Candidate([]) == 0
  {
  }

  /** No checkpoint of the run leaves the end open. */
  ghost predicate ClosedRun(events: seq<Event>) {
    forall k :: 0 <= k < |events| && events[k].Mark? ==> ClosedAfter(events, k)
  }

  ghost predicate ClosedAfter(events: seq<Event>, k: nat)
    requires k < |events|
  {
    !Open(RunAll(events[..k + 1]).0, RunAll(events[..k + 1]).1)
  }

  lemma ClosedPrefix(events: seq<Event>)
    requires events != [] && ClosedRun(events)
    ensures ClosedRun(events[..|events| - 1])
    ensures events[|events| - 1].Mark? ==> !Open(RunAll(events).0, RunAll(events).1)
  {
    hide RunAll, Open;
    var prefix := events[..|events| - 1];
    forall k | 0 <= k < |prefix| && prefix[k].Mark? ensures ClosedAfter(prefix, k) {
      assert prefix[..k + 1] == events[..k + 1];
      assert ClosedAfter(events, k);
    }
    assert events[..|events|] == events;
    if events[|events| - 1].Mark? { assert ClosedAfter(events, |events| - 1); }
  }

  lemma {:induction false} RunGuarded(events: seq<Event>)
    requires ClosedRun(events)
    ensures Guarded(RunAll(events).0, RunAll(events).1)
  {
    hide Guarded, Feed, Checkpoint, Open, ClosedRun;
    if events == [] {
      NothingShown();
    } else {
      var prefix, e := events[..|events| - 1], events[|events| - 1];
      ClosedPrefix(events);
      RunGuarded(prefix);
      var (s, out) := RunAll(prefix);
      match e {
        case Chunk(text) => FeedGuarded(s, out, text);
        case Mark => CheckpointShows(s, out);
      }
    }
  }

  lemma NothingShown()
    ensures Guarded(EMPTY, [])
  {
  }

  /** A final text on a guarded state shows nothing. */
  lemma LastGuarded(s: Stream, out: Text, last: Text)
    requires Guarded(s, out)
    ensures OpaqueFree(false, out + Feed(s, map[], last, true).1)
  {
    hide OpaqueFree, Completable, Human, Space, FirstSpace, HexOrDash, Boundary;
    if s.discard && FirstSpace(last) == |last| {
      assert out + [] == out;
    } else {
      var whole := Offered(s, last);
      OfferedStarts(s, last);
      HumanShowsNoReference(whole, map[]);
      if s.discard {
        HumanStartsInSpace(whole, map[]);
        SpaceStops(Human(whole, map[])[0]);
      }
      JoinFree(out, Human(whole, map[]));
    }
  }

  /**
   * One checkpoint, exactly: some continuation completes a reference if and only if nothing is dropped behind the
   * checkpoint and what was shown so far ends in the beginning of one.
   */
  lemma MarkExposesIff(s: Stream, out: Text)
    requires Guarded(s, out)
    ensures var (s2, more) := Checkpoint(s, map[]);
            (exists b :: !OpaqueFree(false, out + more + Feed(s2, map[], b, true).1)) <==> Open(s2, out + more)
  {
    hide Guarded, OpaqueFree, Feed, Checkpoint, Completable;
    CheckpointShows(s, out);
    var (s2, more) := Checkpoint(s, map[]);
    if Open(s2, out + more) {
      var b := OpenIsCompleted(out + more);
    } else {
      forall b ensures OpaqueFree(false, out + more + Feed(s2, map[], b, true).1) { LastGuarded(s2, out + more, b); }
    }
  }

  /** Every way to end the run, now or at any earlier moment, shows no reference. */
  ghost predicate NeverExposed(events: seq<Event>) {
    forall k, last :: 0 <= k <= |events| ==> OpaqueFree(false, Shown(events[..k], last))
  }

  /**
   * Main result, for all runs: whatever the chunks and overlong tokens, no continuation ever shows a reference if and
   * only if no checkpoint leaves the end open.
   */
  lemma ExposureIsExact(events: seq<Event>)
    ensures NeverExposed(events) <==> ClosedRun(events)
  {
    hide OpaqueFree, Open, Shown, RunAll;
    if ClosedRun(events) {
      forall k, last | 0 <= k <= |events| ensures OpaqueFree(false, Shown(events[..k], last)) {
        ClosedUpTo(events, k);
        NoReferenceExposed(events[..k], last);
      }
    }
    if k :| 0 <= k < |events| && events[k].Mark? && !ClosedAfter(events, k) {
      var b := OpenEndExposed(events, k);
      assert !OpaqueFree(false, Shown(events[..k + 1], b));
    }
  }

  lemma ClosedUpTo(events: seq<Event>, k: nat)
    requires ClosedRun(events) && k <= |events|
    ensures ClosedRun(events[..k])
  {
    hide RunAll, Open;
    forall j | 0 <= j < k && events[..k][j].Mark? ensures ClosedAfter(events[..k], j) {
      assert events[..k][..j + 1] == events[..j + 1];
      assert ClosedAfter(events, j);
    }
  }

  lemma OpenEndExposed(events: seq<Event>, k: nat) returns (b: Text)
    requires k < |events| && events[k].Mark? && !ClosedAfter(events, k)
    ensures !OpaqueFree(false, Shown(events[..k + 1], b))
  {
    hide OpaqueFree, Feed, Settled, Candidate, FirstEnd, Human, Completable;
    var upto := events[..k + 1];
    assert upto[|upto| - 1] == events[k];
    b := OpenIsCompleted(RunAll(upto).1);
  }

  lemma NoReferenceExposed(events: seq<Event>, last: Text)
    requires ClosedRun(events)
    ensures OpaqueFree(false, Shown(events, last))
  {
    hide OpaqueFree, ClosedRun, RunAll, Feed, Guarded;
    RunGuarded(events);
    LastGuarded(RunAll(events).0, RunAll(events).1, last);
  }

  /** Without checkpoints no condition is needed at all. */
  lemma ChunksExposeNothing(chunks: seq<Event>, last: Text)
    requires forall k :: 0 <= k < |chunks| ==> chunks[k].Chunk?
    ensures OpaqueFree(false, Shown(chunks, last))
  {
    hide OpaqueFree, RunAll, Feed, ClosedAfter;
    NoReferenceExposed(chunks, last);
  }

  /** A checkpoint leaves the end closed whenever one pass removed all control sequences from the pending text. */
  lemma CleanMarkCloses(s: Stream, out: Text)
    requires Guarded(s, out) && Strip(Settled(s)) == Settled(s)
    ensures var (s2, more) := Checkpoint(s, map[]); !Open(s2, out + more)
  {
    hide OpaqueFree, Completable, Human, Candidate, FirstEnd, Strip, Settled, Sealed;
    var text := Settled(s);
    if s.discard {
      SettledNothing(s);
      CandidateOfNothing();
    } else if Candidate(text) == |text| {
      CandidateSeals(text);
      HumanSealed(text);
      SealedKeepsClosed(out, Human(text, map[]));
    }
  }

  lemma SealedKeepsClosed(out: Text, more: Text)
    requires !Completable(out) && Sealed(more)
    ensures !Completable(out + more)
  {
    hide Startable, Hex, HexOrDash, Sealed;
    var all := out + more;
    forall i | 0 <= i < |all| ensures !CompletableAt(all, i) {
      if i < |out| {
        assert all[i..][..|out| - i] == out[i..];
        assert i > 0 ==> all[i - 1] == out[i - 1];
        StartableShrinks(all[i..], |out| - i);
        assert !CompletableAt(out, i);
      } else {
        assert all[i..] == more[i - |out|..];
        SealedTail(more, i - |out|);
      }
    }
  }

  // ----- a checkpoint that exposes -----

  const HEAD: Text := [100, 101, 97, 100, 98, 101, 101, 102]
  const REST: Text := [45, 48, 49, 50, 51, 45, 48, 49, 50, 51, 45, 48, 49, 50, 51, 45, 48, 49, 50, 51, 48, 49, 50, 51,
    48, 49, 50, 51]

  lemma ResetStripped()
    ensures Strip(RESET) == []
  {
    ShapeIsCsi(RESET, 3);
    StripFirst(RESET);
    assert RESET[3..] == [];
  }

  lemma OneSequenceLeft()
    ensures Strip(HEAD + RESET) == HEAD
  {
    var t := HEAD + RESET;
    NoEscape(t, 8);
    assert t[..8] == HEAD && t[8..] == RESET;
    ResetStripped();
    assert HEAD + [] == HEAD;
  }

  /** Removing the inner control sequence joins its surroundings to a new one. */
  lemma NestedLeavesOne()
    ensures Strip(HEAD + [27] + RESET + [91, 109]) == HEAD + RESET
  {
    hide CsiLength, Strip;
    var u := [27] + RESET + [91, 109];
    var t := HEAD + [27] + RESET + [91, 109];
    assert t[..8] == HEAD && t[8..] == u;
    NoEscape(t, 8);
    EscapeKept(u);
    var w := RESET + [91, 109];
    assert u[1..] == w && w[3..] == [91, 109];
    SequenceDropped(w);
    BracketKept();
    assert [27] + [91, 109] == RESET;
  }

  lemma SequenceDropped(w: Text)
    requires |w| == 5 && w[0] == 27 && w[1] == 91 && w[2] == 109
    ensures Strip(w) == Strip(w[3..])
  {
    ShapeIsCsi(w, 3);
    StripFirst(w);
  }

  lemma BracketKept()
    ensures Strip([91, 109]) == [91, 109]
  {
    var t: Text := [91, 109];
    NoEscape(t, 2);
    assert t[2..] == [] && t[..2] + [] == t;
  }

  lemma ResetIsNoTail()
    ensures DropTail(RESET) == RESET
  {
    RunIs(Parameter, RESET[2..], 0);
    RunIs(Intermediate, RESET[2..], 0);
    NoEscapeKept([91, 109]);
    assert RESET[1..] == [91, 109];
  }

  lemma WholeIsReference()
    ensures !OpaqueFree(false, HEAD + REST)
  {
    var t := HEAD + REST;
    assert Uuid(t);
    assert t[0..] == t;
    assert OpaqueLength(t) == 36;
    assert !OpaqueFreeAt(t, 0);
  }

  /** A checkpoint at nested control sequences shows the first digits, and the rest completes a reference. */
  lemma NestedSequencesExpose()
    ensures var s := Stream(HEAD + [27] + RESET + [91, 109], false);
            var (s2, out) := Checkpoint(s, map[]);
            Strip(Settled(s)) != Settled(s) && !OpaqueFree(false, out + Feed(s2, map[], REST, true).1)
  {
    hide Strip, Human, OpaqueFree, Candidate, DropTail;
    NestedLeavesOne();
    OneSequenceLeft();
    var t := HEAD + RESET;
    ResetIsNoTail();
    assert t[8..] == RESET;
    TailKept(t, 8);
    NoCandidate(t);
    ShortHuman(t);
    NoEscape(REST, 28);
    StripNothing();
    assert REST[..28] + [] == REST && REST[28..] == [];
    ShortHuman(REST);
    assert [] + REST == REST;
    WholeIsReference();
  }
}
