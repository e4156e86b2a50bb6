/**
 * Acknowledged delivery of append-only logs (adapters/clearml/console_worker.py): receipts are byte offsets,
 * and what was read but not yet published stays pending between batches.
 */
module ConsoleDelivery {
  import opened Prelude
  import opened HumanText
  import opened HumanTextStreaming
  import opened Utf8
  import opened PublishedText

  const READ_SIZE := 1048576

  /** Undecoded bytes and the text filter of one log. */
  datatype Console = Console(buffer: Bytes, text: Stream)

  const IDLE := Console([], EMPTY)

  predicate WellFormed(c: Console) {
    && Encodable(c.text.pending) && |c.text.pending| <= MAX_TOKEN && |c.buffer| <= 3
    && (c.text.discard ==> c.text.pending == []) && Unbroken(c.text.pending)
  }

  /** No white space: one unfinished token. */
  predicate Unbroken(t: Text) {
    forall i :: 0 <= i < |t| ==> !Space(t[i])
  }

  /** The original bytes of everything decoded or buffered but not published. */
  function Pending(c: Console): Bytes
    requires WellFormed(c)
  {
    Encode(c.text.pending) + c.buffer
  }

  /** Decode one payload and release what is complete; a checkpoint flushes unless a character is unfinished. */
  function Release(c: Console, payload: Bytes, last: bool, checkpoint: bool): (Console, Text) {
    var (chars, wait) := Decode(c.buffer + payload, last);
    var (fed, released) := Feed(c.text, map[], chars, last);
    if checkpoint && wait == [] then
      var (flushed, more) := Checkpoint(fed, map[]);
      (Console(wait, flushed), released + more)
    else (Console(wait, fed), released)
  }

  /** The messages reported for one payload: what was released, without control sequences, line by line. */
  function Publish(c: Console, payload: Bytes, last: bool, checkpoint: bool): (Console, seq<Text>) {
    var (c2, released) := Release(c, payload, last, checkpoint);
    (c2, Messages(Strip(released)))
  }

  /**
   * Some reported line of a payload shows a reference if and only if the released text spells one across control
   * sequences where no carriage return drops it.
   */
  lemma ReportedIff(c: Console, payload: Bytes, last: bool, checkpoint: bool)
    ensures SomeMessageShows(Publish(c, payload, last, checkpoint).1) <==>
        InterruptedShown(Release(c, payload, last, checkpoint).1)
  {
    hide Release, Strip, InterruptedShown, Messages, SomeMessageShows;
    ReportedShowsIff(Release(c, payload, last, checkpoint).1);
  }

  predicate Suffix(small: Bytes, all: Bytes) {
    |small| <= |all| && all[|all| - |small|..] == small
  }

  /** What stays pending in the filter is the end of what it was given. */
  lemma FeedKeepsTail(s: Stream, chunk: Text, last: bool) returns (head: Text)
    requires s.discard ==> s.pending == []
    ensures var s2 := Feed(s, map[], chunk, last).0;
            && s.pending + chunk == head + s2.pending && (s2.discard ==> s2.pending == [])
            && (Unbroken(s.pending) ==> Unbroken(s2.pending))
            && (last ==> s2.pending == []) && (|s.pending| <= MAX_TOKEN ==> |s2.pending| <= MAX_TOKEN)
  {
    hide Human, Boundary, FirstSpace, Space;
    var s2 := Feed(s, map[], chunk, last).0;
    var all := s.pending + chunk;
    if s2.pending == [] {
      head := all;
      assert all + [] == all;
    } else {
      var whole := Offered(s, chunk);
      var skipped := if s.discard then chunk[..FirstSpace(chunk)] else [];
      assert all == skipped + whole;
      head := skipped + whole[..Boundary(whole)];
      assert all == head + s2.pending;
    }
  }

  lemma {:induction false} EncodableParts(a: Text, b: Text)
    requires Encodable(a + b)
    ensures Encodable(a) && Encodable(b)
  {
    forall i | 0 <= i < |a| ensures 0 <= a[i] < 0x110000 { assert (a + b)[i] == a[i]; }
    forall i | 0 <= i < |b| ensures 0 <= b[i] < 0x110000 { assert (a + b)[|a| + i] == b[i]; }
  }

  /** Publishing keeps pending exactly the last bytes of what was pending before and the payload. */
  lemma PublishKeepsTail(c: Console, payload: Bytes, last: bool, checkpoint: bool)
    requires WellFormed(c)
    ensures var c2 := Publish(c, payload, last, checkpoint).0;
            && WellFormed(c2) && Suffix(Pending(c2), Pending(c) + payload)
            && (last ==> Pending(c2) == []) && (checkpoint && c2.buffer == [] ==> Pending(c2) == [])
            && c2.buffer == Decode(c.buffer + payload, last).1
  {
    hide Feed, Checkpoint, Encode, Encodable, Decode, Space;
    var (chars, wait) := Decode(c.buffer + payload, last);
    DecodeLosesNothing(c.buffer + payload, last);
    var head := FeedKeepsTail(c.text, chars, last);
    var fed := Feed(c.text, map[], chars, last).0;
    EncodeJoins(c.text.pending, chars);
    EncodableParts(head, fed.pending);
    EncodeJoins(head, fed.pending);
    NothingEncoded();
    var before, kept := Encode(head), Encode(fed.pending);
    TailOf(Encode(c.text.pending), c.buffer, payload, Encode(chars), wait, before, kept);
    CheckpointEmpties(fed);
    TailOfTail(before, kept, wait, Pending(c) + payload);
  }

  lemma TailOf(p: Bytes, buffer: Bytes, payload: Bytes, chars: Bytes, wait: Bytes, before: Bytes, kept: Bytes)
    requires chars + wait == buffer + payload && p + chars == before + kept
    ensures p + buffer + payload == before + (kept + wait)
  {
    assert p + buffer + payload == p + (buffer + payload) == p + chars + wait;
  }

  lemma TailOfTail(before: Bytes, kept: Bytes, wait: Bytes, all: Bytes)
    requires all == before + (kept + wait)
    ensures Suffix(kept + wait, all) && Suffix(wait, all) && Suffix([], all)
  {
  }

  lemma CheckpointEmpties(s: Stream)
    requires s.discard ==> s.pending == []
    ensures Checkpoint(s, map[]).0.pending == []
  {
  }

  // ----- one batch -----

  /** Read the bytes after a watermark, one at a time and at most `k`, until no character is unfinished. */
  function Complete(c: Console, file: Bytes, position: nat, k: nat): (r: (Console, nat, seq<Text>))
    ensures 0 <= r.1 <= k
    decreases k
  {
    if k == 0 || c.buffer == [] || position >= |file| then (c, 0, [])
    else
      var (c1, shown) := Publish(c, [file[position]], false, true);
      var (c2, n, more) := Complete(c1, file, position + 1, k - 1);
      (c2, n + 1, shown + more)
  }

  /** At most one read size, at most up to the limit. */
  function Payload(file: Bytes, from: nat, limit: Option<nat>): Bytes {
    var size := if limit.Some? then Min(READ_SIZE, Max(0, limit.value - from)) else READ_SIZE;
    if from >= |file| then [] else file[from..Min(|file|, from + size)]
  }

  predicate Reached(file: Bytes, from: nat, limit: Option<nat>) {
    limit.Some? && from + |Payload(file, from, limit)| >= limit.value
  }

  datatype Batch = Batch(console: Console, position: nat, shown: seq<Text>)

  /** One batch of a console log that was read up to `from`. */
  function PublishBatch(c: Console, from: nat, file: Bytes, limit: Option<nat>, final: bool, checkpoint: bool): Batch {
    var payload := Payload(file, from, limit);
    var reached := Reached(file, from, limit);
    var (c1, shown) := Publish(c, payload, final && (limit.None? || reached), checkpoint && reached);
    if checkpoint && reached && c1.buffer != [] then
      var (c2, n, more) := Complete(c1, file, from + |payload|, 3);
      Batch(c2, from + |payload| + n, shown + more)
    else Batch(c1, from + |payload|, shown)
  }

  /** What holds between two batches: the position read is the receipt plus the pending bytes. */
  ghost predicate HeldAt(c: Console, position: nat, file: Bytes) {
    WellFormed(c) && |Pending(c)| <= position <= |file| && file[position - |Pending(c)|..position] == Pending(c)
  }

  function Receipt(c: Console, position: nat): int
    requires WellFormed(c)
  {
    position - |Pending(c)|
  }

  /** Held at this position with a receipt of at least `before`. */
  ghost predicate Advanced(before: int, c: Console, position: nat, file: Bytes) {
    HeldAt(c, position, file) && Receipt(c, position) >= before
  }

  lemma PublishAdvances(before: int, c: Console, position: nat, file: Bytes, payload: Bytes, last: bool,
                        checkpoint: bool)
    requires Advanced(before, c, position, file) && position + |payload| <= |file|
        && file[position..position + |payload|] == payload
    ensures Advanced(before, Publish(c, payload, last, checkpoint).0, position + |payload|, file)
  {
    hide Publish, WellFormed, Pending, HeldAt;
    PublishHolds(c, position, file, payload, last, checkpoint);
  }

  lemma PublishHolds(c: Console, position: nat, file: Bytes, payload: Bytes, last: bool, checkpoint: bool)
    requires HeldAt(c, position, file) && position + |payload| <= |file|
        && file[position..position + |payload|] == payload
    ensures var c2 := Publish(c, payload, last, checkpoint).0;
            HeldAt(c2, position + |payload|, file) && Receipt(c2, position + |payload|) >= Receipt(c, position)
  {
    hide Publish, WellFormed, Pending;
    PublishKeepsTail(c, payload, last, checkpoint);
    var c2 := Publish(c, payload, last, checkpoint).0;
    SuffixOfFile(Pending(c), payload, Pending(c2), position, file);
  }

  lemma SuffixOfFile(before: Bytes, payload: Bytes, after: Bytes, position: nat, file: Bytes)
    requires |before| <= position && position + |payload| <= |file| && Suffix(after, before + payload)
    requires file[position - |before|..position] == before && file[position..position + |payload|] == payload
    ensures |after| <= position + |payload| && file[position + |payload| - |after|..position + |payload|] == after
  {
    var all := before + payload;
    assert file[position - |before|..position + |payload|] == all;
    assert file[position + |payload| - |after|..position + |payload|] == all[|all| - |after|..];
  }

  lemma {:induction false} CompleteAdvances(before: int, c: Console, position: nat, file: Bytes, k: nat)
    requires Advanced(before, c, position, file)
    ensures var (c2, n, _) := Complete(c, file, position, k); 0 <= n <= k && Advanced(before, c2, position + n, file)
    decreases k
  {
    hide Publish, Advanced;
    AdvancedBounds(before, c, position, file);
    if k > 0 && c.buffer != [] && position < |file| {
      assert file[position..position + 1] == [file[position]];
      PublishAdvances(before, c, position, file, [file[position]], false, true);
      CompleteAdvances(before, Publish(c, [file[position]], false, true).0, position + 1, file, k - 1);
    }
  }

  lemma AdvancedBounds(before: int, c: Console, position: nat, file: Bytes)
    requires Advanced(before, c, position, file)
    ensures position <= |file| && WellFormed(c)
  {
  }

  /** Once the character is complete nothing is pending. */
  lemma {:induction false} CompleteFlushes(c: Console, position: nat, file: Bytes, k: nat)
    requires WellFormed(c) && c.buffer != []
    ensures var (c2, n, _) := Complete(c, file, position, k); WellFormed(c2) && (c2.buffer == [] ==> Pending(c2) == [])
    decreases k
  {
    hide Publish, WellFormed, Pending;
    if k > 0 && position < |file| {
      var c1 := Publish(c, [file[position]], false, true).0;
      PublishKeepsTail(c, [file[position]], false, true);
      if c1.buffer != [] { CompleteFlushes(c1, position + 1, file, k - 1); }
    }
  }

  lemma PayloadIs(file: Bytes, from: nat, limit: Option<nat>)
    requires from <= |file|
    ensures var p := Payload(file, from, limit); from + |p| <= |file| && file[from..from + |p|] == p
    ensures limit.Some? && from <= limit.value ==> from + |Payload(file, from, limit)| <= limit.value
  {
  }

  /**
   * Accounting. After any batch the pending bytes are exactly the last bytes read, reading went on where it
   * stopped, and the receipt never decreases.
   */
  lemma BatchKeepsAccount(c: Console, position: nat, file: Bytes, limit: Option<nat>, final: bool, checkpoint: bool)
    requires HeldAt(c, position, file) && WellFormed(c)
    ensures var r := PublishBatch(c, position, file, limit, final, checkpoint);
            position <= r.position && Advanced(Receipt(c, position), r.console, r.position, file)
  {
    hide Publish, HeldAt, Complete, Payload;
    var before := Receipt(c, position);
    assert Advanced(before, c, position, file);
    hide Advanced;
    AdvancedBounds(before, c, position, file);
    var payload := Payload(file, position, limit);
    var reached := Reached(file, position, limit);
    PayloadIs(file, position, limit);
    PublishAdvances(before, c, position, file, payload, final && (limit.None? || reached), checkpoint && reached);
    var c1 := Publish(c, payload, final && (limit.None? || reached), checkpoint && reached).0;
    CompleteAdvances(before, c1, position + |payload|, file, 3);
  }

  /** Appending to the log changes nothing that is held. */
  lemma AppendKeepsAccount(c: Console, position: nat, file: Bytes, more: Bytes)
    requires HeldAt(c, position, file)
    ensures HeldAt(c, position, file + more)
  {
    hide Pending, WellFormed;
    assert (file + more)[position - |Pending(c)|..position] == file[position - |Pending(c)|..position];
  }

  // ----- whole runs -----

  /** What one pass of the worker meets: appended bytes, and the watermark of a publication barrier if one waits. */
  datatype Round = Round(appended: Bytes, limit: Option<nat>)

  datatype Log = Log(file: Bytes, console: Console, position: nat)

  function RoundStep(l: Log, r: Round): Log {
    var file := l.file + r.appended;
    var b := PublishBatch(l.console, l.position, file, r.limit, false, r.limit.Some?);
    Log(file, b.console, b.position)
  }

  function RunRounds(l: Log, rounds: seq<Round>): Log {
    if rounds == [] then l else RoundStep(RunRounds(l, rounds[..|rounds| - 1]), rounds[|rounds| - 1])
  }

  ghost predicate Accounted(l: Log) {
    HeldAt(l.console, l.position, l.file)
  }

  function LogReceipt(l: Log): int
    requires WellFormed(l.console)
  {
    Receipt(l.console, l.position)
  }

  /** A worker that attaches at an earlier receipt starts with nothing pending. */
  lemma AttachAccounted(file: Bytes, offset: nat)
    requires offset <= |file|
    ensures Accounted(Log(file, IDLE, offset)) && LogReceipt(Log(file, IDLE, offset)) == offset
  {
    assert file[offset..offset] == [];
  }

  lemma RoundKeepsAccount(l: Log, r: Round)
    requires Accounted(l) && WellFormed(l.console)
    ensures var l2 := RoundStep(l, r);
            WellFormed(l2.console) && Accounted(l2) && l.position <= l2.position && LogReceipt(l) <= LogReceipt(l2)
  {
    hide WellFormed, Pending, PublishBatch;
    AppendKeepsAccount(l.console, l.position, l.file, r.appended);
    BatchKeepsAccount(l.console, l.position, l.file + r.appended, r.limit, false, r.limit.Some?);
  }

  /** For every sequence of appends and batches: the account balances and receipts never decrease. */
  lemma {:induction false} ReceiptsNeverDecrease(l: Log, rounds: seq<Round>)
    requires Accounted(l) && WellFormed(l.console)
    ensures var l2 := RunRounds(l, rounds);
            WellFormed(l2.console) && Accounted(l2) && l.position <= l2.position && LogReceipt(l) <= LogReceipt(l2)
  {
    hide WellFormed, Accounted, LogReceipt, RoundStep;
    if rounds != [] {
      ReceiptsNeverDecrease(l, rounds[..|rounds| - 1]);
      RoundKeepsAccount(RunRounds(l, rounds[..|rounds| - 1]), rounds[|rounds| - 1]);
    }
  }

  // ----- barriers -----

  /** Waiting bytes wait when decoded again. */
  lemma {:induction false} WaitingIsStable(t: Bytes)
    ensures var w := Decode(t, false).1; Decode(w, false) == ([], w)
    decreases |t|
  {
    hide DecodeOne;
    if t != [] {
      match DecodeOne(t)
      case Char(code, used) => WaitingIsStable(t[used..]);
      case Incomplete =>
    }
  }

  /** The bytes still waiting after `j` more bytes of the file. */
  function Waiting(seen: Bytes, file: Bytes, position: nat, j: nat): Bytes
    requires position + j <= |file|
  {
    Decode(seen + file[position..position + j], false).1
  }

  /** Some position at most three bytes further on ends a character. */
  ghost predicate Settles(seen: Bytes, file: Bytes, position: nat) {
    exists j: nat :: j <= 3 && position + j <= |file| && Waiting(seen, file, position, j) == []
  }

  lemma WaitingNow(seen: Bytes, file: Bytes, position: nat)
    requires position <= |file|
    ensures Waiting(seen, file, position, 0) == Decode(seen, false).1
  {
    assert file[position..position] == [] && seen + [] == seen;
  }

  lemma WaitingLater(seen: Bytes, file: Bytes, position: nat, j: nat)
    requires position + 1 + j <= |file|
    ensures Waiting(seen + [file[position]], file, position + 1, j) == Waiting(seen, file, position, j + 1)
  {
    assert file[position..position + 1 + j] == [file[position]] + file[position + 1..position + 1 + j];
    assert seen + [file[position]] + file[position + 1..position + 1 + j] == seen + file[position..position + 1 + j];
  }

  /** Bytes read one at a time leave the same waiting bytes as read at once. */
  lemma {:induction false} CompleteDecodes(c: Console, seen: Bytes, file: Bytes, position: nat, k: nat)
    requires position <= |file| && c.buffer == Decode(seen, false).1
    ensures var (c2, n, _) := Complete(c, file, position, k);
            && 0 <= n <= k && position + n <= |file| && c2.buffer == Waiting(seen, file, position, n)
            && (c2.buffer == [] || n == k || position + n == |file|)
            && (forall j: nat :: j < n ==> Waiting(seen, file, position, j) != [])
    decreases k
  {
    hide Waiting, Publish, Decode;
    WaitingNow(seen, file, position);
    if k > 0 && c.buffer != [] && position < |file| {
      var more := seen + [file[position]];
      var c1 := Publish(c, [file[position]], false, true).0;
      OneMoreByte(c, seen, file[position]);
      CompleteDecodes(c1, more, file, position + 1, k - 1);
      var (c2, n, _) := Complete(c1, file, position + 1, k - 1);
      WaitingLater(seen, file, position, n);
      forall j: nat | j < n + 1 ensures Waiting(seen, file, position, j) != [] {
        if j > 0 { WaitingLater(seen, file, position, j - 1); }
      }
    }
  }

  lemma OneMoreByte(c: Console, seen: Bytes, b: byte)
    requires c.buffer == Decode(seen, false).1
    ensures Publish(c, [b], false, true).0.buffer == Decode(seen + [b], false).1
  {
    hide Decode, Feed, Checkpoint;
    DecodeSplits(seen, [b], false);
  }

  /** A barrier batch ends without an unfinished character exactly when one ends within three bytes of the watermark. */
  lemma BarrierSettles(c: Console, position: nat, file: Bytes, limit: nat)
    requires position <= |file| && Reached(file, position, Some(limit))
    ensures var payload := Payload(file, position, Some(limit));
            var r := PublishBatch(c, position, file, Some(limit), false, true);
            r.console.buffer == [] <==> Settles(c.buffer + payload, file, position + |payload|)
  {
    hide Decode, Feed, Checkpoint, Complete, Payload, Waiting;
    var payload := Payload(file, position, Some(limit));
    PayloadIs(file, position, Some(limit));
    var seen, from := c.buffer + payload, position + |payload|;
    var c1 := Publish(c, payload, false, true).0;
    WaitingNow(seen, file, from);
    if c1.buffer == [] {
      assert Waiting(seen, file, from, 0) == [];
    } else {
      CompleteDecodes(c1, seen, file, from, 3);
    }
  }

  /** A settled barrier acknowledges at least its watermark, with nothing left pending. */
  lemma BarrierAcknowledges(c: Console, position: nat, file: Bytes, limit: nat)
    requires HeldAt(c, position, file) && WellFormed(c) && Reached(file, position, Some(limit))
    requires Settles(c.buffer + Payload(file, position, Some(limit)), file,
        position + |Payload(file, position, Some(limit))|)
    ensures var r := PublishBatch(c, position, file, Some(limit), false, true);
            WellFormed(r.console) && Pending(r.console) == [] && Receipt(r.console, r.position) == r.position >= limit
  {
    hide Publish, Pending, Complete, Settles, Payload;
    BarrierSettles(c, position, file, limit);
    var payload := Payload(file, position, Some(limit));
    PublishKeepsTail(c, payload, false, true);
    var c1 := Publish(c, payload, false, true).0;
    if c1.buffer != [] { CompleteFlushes(c1, position + |payload|, file, 3); }
    BatchKeepsAccount(c, position, file, Some(limit), false, true);
  }

  // ----- unsettled barriers -----

  /** Escaped bytes only. */
  predicate Escapes(t: Text) {
    forall i :: 0 <= i < |t| ==> 0xDC80 <= t[i] <= 0xDCFF
  }

  lemma {:induction false} StrayBytes(u: Bytes)
    requires u != [] && forall i :: 0 <= i < |u| - 1 ==> Continuation(u[i])
    ensures Decode(u, false).1 != [] ==> Escapes(Decode(u, false).0)
  {
    if |u| > 1 {
      assert DecodeOne(u) == Char(Escape(u[0]), 1);
      StrayBytes(u[1..]);
    } else {
      assert u[1..] == [];
    }
  }

  /** While a character stays unfinished, bytes that cannot continue it become escapes. */
  lemma StuckBytes(w: Bytes, b: byte)
    requires w != [] && Decode(w, false) == ([], w) && Decode(w + [b], false).1 != []
    ensures Escapes(Decode(w + [b], false).0)
  {
    var t := w + [b];
    assert DecodeOne(w).Incomplete?;
    assert forall i :: 0 <= i < |w| ==> t[i] == w[i];
    assert forall i :: 1 <= i < |w| ==> Continuation(w[i]);
    if DecodeOne(t).Char? {
      if DecodeOne(t).used == 1 {
        assert forall i :: 0 <= i < |t[1..]| - 1 ==> t[1..][i] == w[i + 1];
        StrayBytes(t[1..]);
      }
    }
  }

  lemma EscapesAreUnbroken(t: Text)
    requires Escapes(t)
    ensures Unbroken(t)
  {
  }

  /** Unbroken text is kept whole, or dropped for being too long. */
  lemma FeedUnbroken(s: Stream, chunk: Text)
    requires Unbroken(s.pending) && Unbroken(chunk) && (s.discard ==> s.pending == [])
    ensures var s2 := Feed(s, map[], chunk, false).0;
            && (s.discard ==> s2.discard) && (!s2.discard ==> s2.pending == s.pending + chunk)
  {
    hide Human, Space;
    if !s.discard {
      var whole := s.pending + chunk;
      assert whole[..0] == [] && whole[0..] == whole;
      BoundaryIs(whole, 0);
    }
  }

  /** A byte that finishes nothing makes the pending bytes one longer. */
  lemma StuckPublish(c: Console, b: byte)
    requires WellFormed(c) && c.buffer != [] && Decode(c.buffer, false) == ([], c.buffer)
    requires Publish(c, [b], false, true).0.buffer != []
    ensures var c2 := Publish(c, [b], false, true).0;
            && WellFormed(c2) && Decode(c2.buffer, false) == ([], c2.buffer)
            && (c.text.discard ==> c2.text.discard) && (!c2.text.discard ==> |Pending(c2)| == |Pending(c)| + 1)
  {
    hide Feed, Checkpoint, Encode, Encodable, Decode, Unbroken;
    PublishKeepsTail(c, [b], false, true);
    var t := c.buffer + [b];
    var chars, wait := Decode(t, false).0, Decode(t, false).1;
    StuckBytes(c.buffer, b);
    EscapesAreUnbroken(chars);
    WaitingIsStable(t);
    FeedUnbroken(c.text, chars);
    DecodeLosesNothing(t, false);
    EncodeJoins(c.text.pending, chars);
    assert |Encode(chars)| + |wait| == |t|;
  }

  lemma {:induction false} StuckGrows(c: Console, file: Bytes, position: nat, k: nat)
    requires WellFormed(c) && c.buffer != [] && Decode(c.buffer, false) == ([], c.buffer)
    ensures var (c2, n, _) := Complete(c, file, position, k);
            && (c.text.discard ==> c2.buffer == [] || c2.text.discard)
            && (c2.buffer != [] && !c2.text.discard ==> WellFormed(c2) && |Pending(c2)| == |Pending(c)| + n)
    decreases k
  {
    hide Publish, WellFormed, Pending, Decode;
    if k > 0 && position < |file| {
      var c1 := Publish(c, [file[position]], false, true).0;
      if c1.buffer != [] {
        StuckPublish(c, file[position]);
        StuckGrows(c1, file, position + 1, k - 1);
      }
    }
  }

  /** Unless it is dropping an overlong token, an unsettled barrier stays below its watermark. */
  lemma UnsettledStaysBelow(c: Console, position: nat, file: Bytes, limit: nat)
    requires HeldAt(c, position, file) && WellFormed(c) && position <= limit && Reached(file, position, Some(limit))
    ensures var r := PublishBatch(c, position, file, Some(limit), false, true);
            WellFormed(r.console)
            && (r.console.buffer != [] && !r.console.text.discard ==> Receipt(r.console, r.position) < limit)
  {
    hide Pending, Complete, Payload, Decode, Feed, Checkpoint, WellFormed, HeldAt, Advanced;
    BatchKeepsAccount(c, position, file, Some(limit), false, true);
    var payload := Payload(file, position, Some(limit));
    var r := PublishBatch(c, position, file, Some(limit), false, true);
    AdvancedBounds(Receipt(c, position), r.console, r.position, file);
    PayloadUpTo(file, position, limit);
    PublishKeepsTail(c, payload, false, true);
    var c1 := Publish(c, payload, false, true).0;
    WaitingIsStable(c.buffer + payload);
    if c1.buffer != [] {
      StuckGrows(c1, file, position + |payload|, 3);
      PendingHasBuffer(c1);
    }
  }

  lemma PayloadUpTo(file: Bytes, position: nat, limit: nat)
    requires position <= limit && Reached(file, position, Some(limit))
    ensures position + |Payload(file, position, Some(limit))| == limit
  {
  }

  lemma PendingHasBuffer(c: Console)
    requires WellFormed(c)
    ensures |Pending(c)| >= |c.buffer|
  {
  }

  /** The filter's state once this text is pending: its unfinished token, unless that is too long. */
  function Held(whole: Text): Stream {
    var n := Boundary(whole);
    if |whole| - n > MAX_TOKEN then Stream([], true) else Stream(whole[n..], false)
  }

  lemma FeedHolds(s: Stream, chunk: Text)
    ensures Feed(s, map[], chunk, false).0 == if s.discard && FirstSpace(chunk) == |chunk| then s
        else Held(Offered(s, chunk))
  {
    hide Human, Boundary, FirstSpace;
  }

  lemma HeldJoins(whole: Text, b: Text)
    requires Unbroken(b) && !Held(whole).discard
    ensures Held(whole + b) == Held(Held(whole).pending + b)
  {
    hide Space, Unbroken;
    BoundaryUnbroken(whole, b);
    BoundaryUnbroken(Held(whole).pending, b);
    var n := Boundary(whole);
    BoundaryIs(whole[n..], 0);
    assert (whole + b)[n..] == whole[n..] + b;
  }

  lemma OverlongJoins(whole: Text, b: Text)
    requires Unbroken(b) && Held(whole).discard
    ensures Held(whole + b) == Held(whole)
  {
    hide Space, Unbroken;
    BoundaryUnbroken(whole, b);
  }

  /** Feeding an unbroken rest separately leaves the filter where feeding everything at once does. */
  lemma FeedJoins(s: Stream, a: Text, b: Text)
    requires Unbroken(b) && (s.discard ==> s.pending == [])
    ensures Feed(Feed(s, map[], a, false).0, map[], b, false).0 == Feed(s, map[], a + b, false).0
  {
    hide Feed, Held, FirstSpace, Unbroken;
    FeedHolds(s, a);
    FeedHolds(s, b);
    FeedHolds(s, a + b);
    FirstSpaceJoins(a, b);
    if !(s.discard && FirstSpace(a) == |a|) {
      var whole := Offered(s, a);
      OfferedJoins(s, a, b);
      FeedHolds(Held(whole), b);
      if Held(whole).discard { OverlongJoins(whole, b); } else { HeldJoins(whole, b); }
    }
  }

  lemma OfferedJoins(s: Stream, a: Text, b: Text)
    requires s.discard ==> FirstSpace(a + b) == FirstSpace(a)
    ensures Offered(s, a + b) == Offered(s, a) + b
  {
    hide FirstSpace;
    if s.discard { assert (a + b)[FirstSpace(a)..] == a[FirstSpace(a)..] + b; }
  }

  lemma FirstSpaceIs(t: Text, n: nat)
    requires n <= |t| && (forall i :: 0 <= i < n ==> !Space(t[i])) && (n < |t| ==> Space(t[n]))
    ensures FirstSpace(t) == n
  {
    hide Space;
  }

  lemma FirstSpaceJoins(a: Text, b: Text)
    requires Unbroken(b)
    ensures FirstSpace(b) == |b| && FirstSpace(a + b) == if FirstSpace(a) == |a| then |a + b| else FirstSpace(a)
  {
    hide Space;
    FirstSpaceIs(b, |b|);
    FirstSpaceIs(a + b, if FirstSpace(a) == |a| then |a + b| else FirstSpace(a));
  }

  lemma BoundaryUnbroken(a: Text, b: Text)
    requires Unbroken(b)
    ensures Boundary(a + b) == Boundary(a)
  {
    hide Space;
    assert (a + b)[..Boundary(a)] == a[..Boundary(a)];
    BoundaryIs(a + b, Boundary(a));
  }

  /** Decoding and feeding, with nothing flushed in between. */
  function Fed(c: Console, bytes: Bytes): Console {
    var (chars, wait) := Decode(c.buffer + bytes, false);
    Console(wait, Feed(c.text, map[], chars, false).0)
  }

  /** The characters that arrive while one stays unfinished are escapes. */
  ghost predicate OnlyEscapes(buffer: Bytes, bytes: Bytes) {
    Escapes(Decode(buffer + bytes, false).0)
  }

  /** As long as a character stays unfinished, reading past the watermark only feeds. */
  lemma {:induction false} StuckFeeds(c: Console, file: Bytes, position: nat, k: nat)
    requires WellFormed(c) && c.buffer != [] && Decode(c.buffer, false) == ([], c.buffer) && position <= |file|
    ensures var (c2, n, _) := Complete(c, file, position, k);
            && 0 <= n && position + n <= |file|
            && (c2.buffer != [] ==>
              c2 == Fed(c, file[position..position + n]) && OnlyEscapes(c.buffer, file[position..position + n]))
    decreases k
  {
    hide Publish, WellFormed, Decode, Feed, OnlyEscapes, Fed;
    if k == 0 || position >= |file| {
      FedNothing(c);
      assert file[position..position] == [];
    } else {
      var b := file[position];
      var c1 := Publish(c, [b], false, true).0;
      if c1.buffer != [] {
        StuckPublish(c, b);
        StuckFeeds(c1, file, position + 1, k - 1);
        var (c2, n, _) := Complete(c1, file, position + 1, k - 1);
        var more := file[position + 1..position + 1 + n];
        assert file[position..position + (n + 1)] == [b] + more;
        if c2.buffer != [] { FedByByte(c, b, more); }
      }
    }
  }

  lemma FedNothing(c: Console)
    requires WellFormed(c) && Decode(c.buffer, false) == ([], c.buffer)
    ensures Fed(c, []) == c && OnlyEscapes(c.buffer, [])
  {
    hide Human, Decode, Encodable, Space;
    var s := c.text;
    assert c.buffer + [] == c.buffer;
    assert s.pending + [] == s.pending;
    assert s.pending[0..] == s.pending && s.pending[..0] == [];
    if !s.discard { BoundaryIs(s.pending, 0); }
  }

  /** One more byte in front, read while its character stays unfinished. */
  lemma FedByByte(c: Console, b: byte, more: Bytes)
    requires WellFormed(c) && c.buffer != [] && Decode(c.buffer, false) == ([], c.buffer)
    requires var c1 := Publish(c, [b], false, true).0; c1.buffer != [] && OnlyEscapes(c1.buffer, more)
    ensures Fed(Publish(c, [b], false, true).0, more) == Fed(c, [b] + more) && OnlyEscapes(c.buffer, [b] + more)
  {
    hide Decode, Feed, Encodable;
    var c1 := Publish(c, [b], false, true).0;
    StuckBytes(c.buffer, b);
    DecodeSplits(c.buffer + [b], more, false);
    assert c.buffer + [b] + more == c.buffer + ([b] + more);
    var first, second := Decode(c.buffer + [b], false).0, Decode(c1.buffer + more, false).0;
    EscapesAreUnbroken(second);
    FeedJoins(c.text, first, second);
  }

  /** A barrier that does not settle has read up to three bytes further and done nothing but decode and feed. */
  lemma UnsettledOnlyFeeds(c: Console, position: nat, file: Bytes, limit: nat)
    requires HeldAt(c, position, file) && WellFormed(c) && position <= limit && Reached(file, position, Some(limit))
    requires PublishBatch(c, position, file, Some(limit), false, true).console.buffer != []
    ensures limit <= |file|
    ensures var more := Min(3, |file| - limit); var r := PublishBatch(c, position, file, Some(limit), false, true);
            r.position == limit + more && r.console == Fed(c, file[position..limit + more])
  {
    hide Decode, Feed, Checkpoint, Complete, Payload, Encode, Encodable;
    var payload := Payload(file, position, Some(limit));
    PayloadUpTo(file, position, limit);
    PayloadIs(file, position, Some(limit));
    PublishKeepsTail(c, payload, false, true);
    var c1 := Publish(c, payload, false, true).0;
    WaitingIsStable(c.buffer + payload);
    CompleteReads(c1, file, limit, 3);
    StuckFeeds(c1, file, limit, 3);
    var n := Complete(c1, file, limit, 3).1;
    var more := file[limit..limit + n];
    assert file[position..limit + n] == payload + more;
    FedAfter(c, payload, more);
  }

  lemma FedAfter(c: Console, payload: Bytes, more: Bytes)
    requires WellFormed(c)
    requires var c1 := Publish(c, payload, false, true).0; c1.buffer != [] && OnlyEscapes(c1.buffer, more)
    ensures Fed(Publish(c, payload, false, true).0, more) == Fed(c, payload + more)
  {
    hide Decode, Feed, Encodable;
    var c1 := Publish(c, payload, false, true).0;
    DecodeSplits(c.buffer + payload, more, false);
    assert c.buffer + payload + more == c.buffer + (payload + more);
    EscapesAreUnbroken(Decode(c1.buffer + more, false).0);
    FeedJoins(c.text, Decode(c.buffer + payload, false).0, Decode(c1.buffer + more, false).0);
  }

  /** While it stays unfinished, everything up to `k` bytes is read. */
  lemma {:induction false} CompleteReads(c: Console, file: Bytes, position: nat, k: nat)
    requires c.buffer != [] && position <= |file|
    ensures var (c2, n, _) := Complete(c, file, position, k); c2.buffer != [] ==> n == Min(k, |file| - position)
    decreases k
  {
    hide Publish;
    if k > 0 && position < |file| {
      var c1 := Publish(c, [file[position]], false, true).0;
      if c1.buffer != [] { CompleteReads(c1, file, position + 1, k - 1); }
    }
  }

  /**
   * The exact condition, for every console, log and watermark: a character ends within three bytes of it, or the
   * filter is dropping an overlong token and fewer bytes wait than were read past the watermark.
   */
  lemma BarrierIsExact(c: Console, position: nat, file: Bytes, limit: nat)
    requires HeldAt(c, position, file) && WellFormed(c) && position <= limit && Reached(file, position, Some(limit))
    ensures limit <= |file|
    ensures var r := PublishBatch(c, position, file, Some(limit), false, true); var more := Min(3, |file| - limit);
            WellFormed(r.console) &&
            (Receipt(r.console, r.position) >= limit <==>
              Settles(c.buffer + file[position..limit], file, limit)
              || (Fed(c, file[position..limit + more]).text.discard
                && |Fed(c, file[position..limit + more]).buffer| <= more))
  {
    hide HeldAt, WellFormed, Settles, Payload, Receipt, Reached, PublishBatch, Fed, Pending;
    PayloadUpTo(file, position, limit);
    UnsettledStaysBelow(c, position, file, limit);
    HeldInside(c, position, file);
    BarrierSettles(c, position, file, limit);
    PayloadIs(file, position, Some(limit));
    if Settles(c.buffer + file[position..limit], file, limit) {
      BarrierAcknowledges(c, position, file, limit);
    } else {
      UnsettledOnlyFeeds(c, position, file, limit);
      var r := PublishBatch(c, position, file, Some(limit), false, true);
      if r.console.text.discard { DroppingReceipt(r.console, r.position); }
    }
  }

  lemma DroppingReceipt(c: Console, position: nat)
    requires WellFormed(c) && c.text.discard
    ensures Receipt(c, position) == position - |c.buffer|
  {
    NothingEncoded();
  }

  lemma HeldInside(c: Console, position: nat, file: Bytes)
    requires HeldAt(c, position, file)
    ensures position <= |file|
  {
  }

  /** Malformed bytes can keep a watermark unacknowledged although the log goes on: the fourth lead byte waits again. */
  lemma MalformedNeverSettles()
    ensures var file: Bytes := [0xE2, 0xE2, 0xE2, 0xE2, 0x41]; !Settles([0xE2], file, 1) && 1 + 3 < |file|
  {
    var file: Bytes := [0xE2, 0xE2, 0xE2, 0xE2, 0x41];
    forall j: nat | j <= 3 ensures Waiting([0xE2], file, 1, j) != [] {
      assert [0xE2] + file[1..1 + j] == file[..1 + j];
      LeadsWait(file[..1 + j]);
    }
  }

  lemma {:induction false} LeadsWait(t: Bytes)
    requires t != [] && forall i :: 0 <= i < |t| ==> t[i] == 0xE2
    ensures Decode(t, false).1 == [0xE2]
  {
    if |t| > 1 {
      LeadsWait(t[1..]);
    } else {
      assert t == [t[0]];
    }
  }

  // ----- the final watermark -----

  /** A final batch reads up to one read size; when it reaches the watermark nothing stays pending. */
  lemma FinalBatch(c: Console, position: nat, file: Bytes, limit: nat)
    requires WellFormed(c) && position <= limit <= |file|
    ensures var r := PublishBatch(c, position, file, Some(limit), true, false);
            && WellFormed(r.console) && r.position == Min(position + READ_SIZE, limit)
            && (r.position == limit ==> Pending(r.console) == [])
  {
    hide Publish, Pending, WellFormed;
    PublishKeepsTail(c, Payload(file, position, Some(limit)), Reached(file, position, Some(limit)), false);
  }
}
