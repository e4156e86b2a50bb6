/** Whole logs: barriers on well-formed text, and released text that renders exactly the acknowledged bytes. */
module ConsoleLogs {
  import opened Prelude
  import opened HumanText
  import opened HumanTextStreaming
  import opened Utf8
  import opened ConsoleDelivery

  // ----- barriers on well-formed text -----

  /** The bytes of an unfinished character at the end. */
  function Unfinished(t: Bytes): Bytes {
    Decode(t, false).1
  }

  lemma WholeDecodes(t: Bytes, p: nat)
    requires t != [] && WholeCharacter(t) && Need(t[0]) < p <= |t|
    ensures Unfinished(t[..p]) == Unfinished(t[Need(t[0]) + 1..p])
  {
    hide Decode, WholeCharacter;
    var used := Need(t[0]) + 1;
    var a, b := t[..used], t[used..p];
    assert t[..p] == a + b;
    WholeAlone(t);
    DecodeSplits(a, b, false);
    assert [] + b == b;
  }

  lemma NothingWaits()
    ensures Decode([], false).1 == []
  {
  }

  lemma WholeAlone(t: Bytes)
    requires t != [] && WholeCharacter(t)
    ensures Need(t[0]) < |t| && Unfinished(t[..Need(t[0]) + 1]) == []
  {
    hide PrefixFits, CodePoint;
    var a := t[..Need(t[0]) + 1];
    assert a[0] == t[0];
    assert PrefixFits(a, |a|) by { WholePrefix(t); }
    assert DecodeOne(a).Char? && DecodeOne(a).used == |a|;
    assert a[|a|..] == [];
    NothingWaits();
    assert Decode(a, false).1 == Decode(a[|a|..], false).1;
  }

  lemma WholePrefix(t: Bytes)
    requires t != [] && WholeCharacter(t)
    ensures PrefixFits(t[..Need(t[0]) + 1], Need(t[0]) + 1)
  {
  }

  /** Part of one character waits. */
  lemma PartWaits(t: Bytes, p: nat)
    requires 0 < p <= |t| && t[0] >= 0x80 && |t| <= Need(t[0]) && PrefixFits(t, |t|)
    ensures Unfinished(t[..p]) == t[..p]
  {
    var a := t[..p];
    assert forall i :: 0 <= i < p ==> a[i] == t[i];
    assert DecodeOne(a).Incomplete?;
  }

  /** A cut inside a whole character is settled by its remaining bytes. */
  lemma CutWholeSettles(t: Bytes, p: nat)
    requires t != [] && WholeCharacter(t) && p <= Need(t[0])
    ensures Settles(t[..p], t, p)
  {
    hide PrefixFits, Decode;
    WholeAlone(t);
    if p == 0 {
      assert t[..0] + t[0..0] == [];
      NothingWaits();
      assert Waiting(t[..0], t, 0, 0) == [];
    } else {
      var j := Need(t[0]) + 1 - p;
      assert t[..p] + t[p..p + j] == t[..Need(t[0]) + 1];
      assert Waiting(t[..p], t, p, j) == [];
    }
  }

  lemma SpliceBehind(t: Bytes, used: nat, p: nat, j: nat)
    requires used <= p && p + j <= |t|
    ensures var u, q := t[used..], p - used;
            t[..p] + t[p..p + j] == t[..p + j] && u[..q] + u[q..q + j] == t[used..p + j]
  {
    var u, q := t[used..], p - used;
    assert t[..p] + t[p..p + j] == t[..p + j];
    assert u[..q] == t[used..p];
    assert u[q..q + j] == t[p..p + j];
    assert t[used..p] + t[p..p + j] == t[used..p + j];
  }

  lemma SettlesBehind(t: Bytes, p: nat)
    requires t != [] && WholeCharacter(t) && Need(t[0]) < p <= |t|
    ensures var used := Need(t[0]) + 1; Settles(t[..p], t, p) <==> Settles(t[used..][..p - used], t[used..], p - used)
  {
    hide WholeCharacter, Decode;
    var used := Need(t[0]) + 1;
    var u, q := t[used..], p - used;
    forall j: nat | j <= 3 && p + j <= |t| ensures Waiting(t[..p], t, p, j) == Waiting(u[..q], u, q, j) {
      SpliceBehind(t, used, p, j);
      WholeDecodes(t, p + j);
    }
    if Settles(t[..p], t, p) {
      var j: nat :| j <= 3 && p + j <= |t| && Waiting(t[..p], t, p, j) == [];
      assert Waiting(u[..q], u, q, j) == [];
    }
    if Settles(u[..q], u, q) {
      var j: nat :| j <= 3 && q + j <= |u| && Waiting(u[..q], u, q, j) == [];
      assert Waiting(t[..p], t, p, j) == [];
    }
  }

  /** On well-formed text every cut is settled within three bytes, unless it falls into an unfinished last character. */
  lemma {:induction false} ValidSettles(t: Bytes, p: nat)
    requires ValidSoFar(t) && p <= |t|
    ensures Settles(t[..p], t, p) <==> p <= |t| - |Unfinished(t)|
    decreases |t|
  {
    hide ValidSoFar, WholeCharacter, Settles, Unfinished, PrefixFits;
    if t == [] {
      EmptySettles();
      assert t[..p] == [];
    } else {
      FirstCharacter(t);
      if WholeCharacter(t) {
        var used := Need(t[0]) + 1;
        WholeInside(t);
        WholeDecodes(t, |t|);
        assert t[..|t|] == t && t[used..|t|] == t[used..];
        UnfinishedInside(t[used..]);
        if p < used {
          CutWholeSettles(t, p);
        } else {
          SettlesBehind(t, p);
          ValidSettles(t[used..], p - used);
        }
      } else {
        PartSettles(t, p);
      }
    }
  }

  lemma WholeInside(t: Bytes)
    requires t != [] && WholeCharacter(t)
    ensures Need(t[0]) < |t|
  {
  }

  lemma UnfinishedInside(t: Bytes)
    ensures |Unfinished(t)| <= |t|
  {
    DecodeLosesNothing(t, false);
  }

  lemma EmptySettles()
    ensures Settles([], [], 0) && Unfinished([]) == []
  {
    var none: Bytes := [];
    assert none + none[0..0] == [];
    assert Waiting([], [], 0, 0) == [];
  }

  lemma PartSettles(t: Bytes, p: nat)
    requires t != [] && p <= |t| && t[0] >= 0x80 && |t| <= Need(t[0]) && PrefixFits(t, |t|)
    ensures Settles(t[..p], t, p) <==> p <= |t| - |Unfinished(t)|
  {
    hide PrefixFits, Decode;
    PartWaits(t, |t|);
    assert t[..|t|] == t;
    forall j: nat | j <= 3 && p + j <= |t| ensures Waiting(t[..p], t, p, j) == t[..p + j] {
      assert t[..p] + t[p..p + j] == t[..p + j];
      if p + j > 0 { PartWaits(t, p + j); } else { NothingWaits(); }
    }
    if p == 0 { assert Waiting(t[..0], t, 0, 0) == []; }
  }

  /** The decoder has seen exactly the log from `start` on. */
  ghost predicate InStep(l: Log, start: nat) {
    start <= l.position <= |l.file| && l.console.buffer == Unfinished(l.file[start..l.position])
  }

  lemma AttachInStep(file: Bytes, offset: nat)
    requires offset <= |file|
    ensures InStep(Log(file, IDLE, offset), offset)
  {
    assert file[offset..offset] == [];
  }

  lemma PublishInStep(c: Console, file: Bytes, start: nat, position: nat, payload: Bytes, checkpoint: bool)
    requires InStep(Log(file, c, position), start) && position + |payload| <= |file|
        && file[position..position + |payload|] == payload
    ensures InStep(Log(file, Publish(c, payload, false, checkpoint).0, position + |payload|), start)
  {
    hide Decode, Feed, Checkpoint;
    DecodeSplits(file[start..position], payload, false);
    assert file[start..position + |payload|] == file[start..position] + payload;
  }

  lemma {:induction false} CompleteInStep(c: Console, file: Bytes, start: nat, position: nat, k: nat)
    requires InStep(Log(file, c, position), start)
    ensures var (c2, n, _) := Complete(c, file, position, k); 0 <= n && InStep(Log(file, c2, position + n), start)
    decreases k
  {
    hide Publish, Unfinished;
    if k > 0 && c.buffer != [] && position < |file| {
      assert file[position..position + 1] == [file[position]];
      PublishInStep(c, file, start, position, [file[position]], true);
      CompleteInStep(Publish(c, [file[position]], false, true).0, file, start, position + 1, k - 1);
    }
  }

  lemma RoundInStep(l: Log, r: Round, start: nat)
    requires InStep(l, start)
    ensures InStep(RoundStep(l, r), start)
  {
    hide Publish, Complete, Payload, Unfinished;
    var file := l.file + r.appended;
    assert file[start..l.position] == l.file[start..l.position];
    PayloadIs(file, l.position, r.limit);
    var payload := Payload(file, l.position, r.limit);
    var checkpoint := r.limit.Some? && Reached(file, l.position, r.limit);
    PublishInStep(l.console, file, start, l.position, payload, checkpoint);
    CompleteInStep(Publish(l.console, payload, false, checkpoint).0, file, start, l.position + |payload|, 3);
  }

  lemma {:induction false} RunInStep(l: Log, rounds: seq<Round>, start: nat)
    requires InStep(l, start)
    ensures InStep(RunRounds(l, rounds), start)
  {
    hide InStep, RoundStep;
    if rounds != [] {
      RunInStep(l, rounds[..|rounds| - 1], start);
      RoundInStep(RunRounds(l, rounds[..|rounds| - 1]), rounds[|rounds| - 1], start);
    }
  }

  /** What a watermark meets depends on the log alone. */
  lemma SettlesInLog(l: Log, start: nat, limit: nat)
    requires InStep(l, start) && l.position <= limit <= |l.file|
    ensures var t := l.file[start..];
            Settles(l.console.buffer + l.file[l.position..limit], l.file, limit) <==>
              Settles(t[..limit - start], t, limit - start)
  {
    hide Decode;
    var t, p := l.file[start..], limit - start;
    var seen := l.console.buffer + l.file[l.position..limit];
    forall j: nat | j <= 3 && limit + j <= |l.file|
      ensures Waiting(seen, l.file, limit, j) == Waiting(t[..p], t, p, j)
    {
      var read, next := l.file[start..l.position], l.file[l.position..limit + j];
      DecodeSplits(read, next, false);
      assert seen + l.file[limit..limit + j] == l.console.buffer + next;
      assert t[..p] + t[p..p + j] == read + next;
    }
    if Settles(seen, l.file, limit) {
      var j: nat :| j <= 3 && limit + j <= |l.file| && Waiting(seen, l.file, limit, j) == [];
      assert Waiting(t[..p], t, p, j) == [];
    }
    if Settles(t[..p], t, p) {
      var j: nat :| j <= 3 && p + j <= |t| && Waiting(t[..p], t, p, j) == [];
      assert Waiting(seen, l.file, limit, j) == [];
    }
  }

  /**
   * On a log that is well-formed since the worker attached, a barrier that reads up to its watermark acknowledges it
   * if and only if the watermark does not lie in an unfinished character at the end of the log.
   */
  lemma ValidBarrier(l: Log, start: nat, limit: nat)
    requires InStep(l, start) && Accounted(l) && WellFormed(l.console) && ValidSoFar(l.file[start..])
    requires l.position <= limit && Reached(l.file, l.position, Some(limit))
    ensures var r := PublishBatch(l.console, l.position, l.file, Some(limit), false, true);
            WellFormed(r.console) && (Receipt(r.console, r.position) >= limit <==>
              limit <= |l.file| - |Unfinished(l.file[start..])|)
  {
    hide WellFormed, Settles, PublishBatch, Reached, Pending, ValidSoFar, Decode, Feed, InStep, Receipt, HeldAt;
    InStepBounds(l, start);
    var c, file, t := l.console, l.file, l.file[start..];
    BarrierIsExact(c, l.position, file, limit);
    SettlesInLog(l, start, limit);
    ValidSettles(t, limit - start);
    if limit > |file| - |Unfinished(t)| {
      var more := Min(3, |file| - limit);
      UnfinishedLast(l, start, limit);
      assert Fed(c, file[l.position..limit + more]).buffer == Unfinished(t);
    }
  }

  lemma InStepBounds(l: Log, start: nat)
    requires InStep(l, start)
    ensures start <= l.position <= |l.file|
  {
  }

  /** Behind such a watermark the log ends, with the whole unfinished character waiting. */
  lemma UnfinishedLast(l: Log, start: nat, limit: nat)
    requires InStep(l, start) && l.position <= limit <= |l.file| && limit > |l.file| - |Unfinished(l.file[start..])|
    ensures var more := Min(3, |l.file| - limit);
            && more == |l.file| - limit < |Unfinished(l.file[start..])|
            && Fed(l.console, l.file[l.position..limit + more]).buffer == Unfinished(l.file[start..])
  {
    hide Decode, Feed, Encode, Encodable;
    DecodeLosesNothing(l.file[start..], false);
    var read, next := l.file[start..l.position], l.file[l.position..];
    DecodeSplits(read, next, false);
    assert read + next == l.file[start..];
    assert l.file[l.position..|l.file|] == next;
  }

  // ----- released text renders the acknowledged bytes -----

  /** What one pass without a barrier reads and decodes. */
  function Arrived(l: Log, r: Round): Text {
    Decode(l.console.buffer + Payload(l.file + r.appended, l.position, None), false).0
  }

  function ReleasedBy(l: Log, r: Round): Text {
    Release(l.console, Payload(l.file + r.appended, l.position, None), false, false).1
  }

  /** The decoded chunks of a run, and everything its passes released. */
  function Transcript(l: Log, rounds: seq<Round>): (seq<Text>, Text) {
    if rounds == [] then ([], [])
    else
      var prefix, r := rounds[..|rounds| - 1], rounds[|rounds| - 1];
      var (chunks, released) := Transcript(l, prefix);
      (chunks + [Arrived(RunRounds(l, prefix), r)], released + ReleasedBy(RunRounds(l, prefix), r))
  }

  ghost predicate NoBarriers(rounds: seq<Round>) {
    forall k :: 0 <= k < |rounds| ==> rounds[k].limit.None?
  }

  /** A run without barriers feeds its decoded chunks one after another. */
  lemma {:induction false} RunFeeds(file: Bytes, offset: nat, rounds: seq<Round>)
    requires offset <= |file| && NoBarriers(rounds)
    ensures var l, l2 := Log(file, IDLE, offset), RunRounds(Log(file, IDLE, offset), rounds);
            var (chunks, released) := Transcript(l, rounds);
            && (l2.console.text, released) == FeedAll(map[], chunks)
            && InStep(l2, offset) && Concat(chunks) == Decode(l2.file[offset..l2.position], false).0
  {
    hide Decode, Feed, Payload, InStep;
    var l := Log(file, IDLE, offset);
    if rounds == [] {
      AttachInStep(file, offset);
      assert file[offset..offset] == [];
      NothingDecoded();
    } else {
      var prefix, r := rounds[..|rounds| - 1], rounds[|rounds| - 1];
      RunFeeds(file, offset, prefix);
      var m := RunRounds(l, prefix);
      RoundInStep(m, r, offset);
      RoundDecodes(m, r, offset);
      var chunks := Transcript(l, prefix).0;
      assert (chunks + [Arrived(m, r)])[..|chunks|] == chunks;
    }
  }

  lemma NothingDecoded()
    ensures Decode([], false).0 == []
  {
  }

  lemma RoundDecodes(l: Log, r: Round, start: nat)
    requires InStep(l, start) && r.limit.None?
    ensures var l2 := RoundStep(l, r);
            && start <= l2.position <= |l2.file|
            && l2.console.text == Feed(l.console.text, map[], Arrived(l, r), false).0
            && Decode(l2.file[start..l2.position], false).0 == Decode(l.file[start..l.position], false).0
              + Arrived(l, r)
  {
    hide Decode, Feed, Payload;
    var file := l.file + r.appended;
    var payload := Payload(file, l.position, None);
    PayloadIs(file, l.position, None);
    DecodeSplits(l.file[start..l.position], payload, false);
    assert file[start..l.position + |payload|] == l.file[start..l.position] + payload;
  }

  /**
   * Main result: along every run of appends and batches without barriers, the released text is the rendering of
   * exactly the characters whose bytes the receipt acknowledges.
   */
  lemma ReleasedIsAcknowledged(file: Bytes, offset: nat, rounds: seq<Round>)
    requires offset <= |file| && NoBarriers(rounds)
    requires var chunks := Transcript(Log(file, IDLE, offset), rounds).0; TailsFit(chunks) && CleanCuts(chunks, [])
    ensures var l2 := RunRounds(Log(file, IDLE, offset), rounds); offset <= l2.position <= |l2.file|
    ensures var l2 := RunRounds(Log(file, IDLE, offset), rounds);
            var text := Decode(l2.file[offset..l2.position], false).0;
            var head := text[..Boundary(text)];
            && WellFormed(l2.console) && offset <= LogReceipt(l2) <= |l2.file|
            && Transcript(Log(file, IDLE, offset), rounds).1 == Human(head, map[])
            && Encodable(head) && l2.file[offset..LogReceipt(l2)] == Encode(head)
  {
    hide Human, Decode, Boundary, WellFormed, Encodable, Encode, RunRounds, Transcript, InStep, TailsFit, CleanCuts,
      Concat, HeldAt;
    var l := Log(file, IDLE, offset);
    RunFeeds(file, offset, rounds);
    var chunks := Transcript(l, rounds).0;
    FeedAllRenders(map[], chunks, []);
    AttachAccounted(file, offset);
    IdleWellFormed();
    ReceiptsNeverDecrease(l, rounds);
    var l2 := RunRounds(l, rounds);
    InStepBounds(l2, offset);
    AcknowledgedBytes(l2, offset);
  }

  lemma IdleWellFormed()
    ensures WellFormed(IDLE)
  {
  }

  lemma AcknowledgedBytes(l: Log, start: nat)
    requires InStep(l, start) && WellFormed(l.console) && start <= l.position <= |l.file|
    requires var text := Decode(l.file[start..l.position], false).0; l.console.text.pending == text[Boundary(text)..]
    ensures var text := Decode(l.file[start..l.position], false).0; var head := text[..Boundary(text)];
            && Encodable(head) && start <= LogReceipt(l) <= |l.file| && l.file[start..LogReceipt(l)] == Encode(head)
  {
    hide Decode, Boundary, Encode, Encodable;
    var read := l.file[start..l.position];
    DecodeLosesNothing(read, false);
    var text := Decode(read, false).0;
    var n := Boundary(text);
    assert text == text[..n] + text[n..];
    EncodableParts(text[..n], text[n..]);
    EncodeJoins(text[..n], text[n..]);
    var head := Encode(text[..n]);
    assert read == head + (Encode(text[n..]) + l.console.buffer);
    assert |head| <= |read| && read[..|head|] == head;
    assert forall i :: 0 <= i < |head| ==> l.file[start..start + |head|][i] == read[i];
    assert l.file[start..start + |head|] == head;
    var kept := Encode(text[n..]) + l.console.buffer;
    assert |read| == |head| + |kept| && LogReceipt(l) == start + |head|;
  }
}
