/** The publisher objects and the final loop: every log is acknowledged exactly up to its final watermark. */
module ConsolePublisher {
  import opened Prelude
  import opened HumanText
  import opened HumanTextStreaming
  import opened Utf8
  import opened PublishedText
  import opened ConsoleDelivery
  import opened ReportedLines

  class ConsoleStream {
    var buffer: Bytes
    const text: HumanTextStream

    ghost function State(): Console
      reads this, text
    {
      Console(buffer, text.State())
    }

    ghost predicate Valid()
      reads this, text
    {
      WellFormed(State()) && text.labels == map[]
    }

    constructor ()
      ensures Valid() && State() == IDLE && fresh(text)
    {
      buffer := [];
      text := new HumanTextStream(map[]);
      new;
      NothingEncoded();
    }

    method PendingBytes() returns (n: nat)
      requires Valid()
      ensures n == |Pending(State())|
    {
      n := |buffer| + |Encode(text.pending)|;
    }

    /** Decode, filter, remove control sequences once more, and report the lines. */
    method PublishText(payload: Bytes, last: bool, checkpoint: bool) returns (shown: seq<Text>)
      requires Valid()
      modifies this, text
      ensures Valid() && (State(), shown) == Publish(old(State()), payload, last, checkpoint)
      ensures Reports(Strip(Release(old(State()), payload, last, checkpoint).1), shown)
    {
      hide Feed, Checkpoint, Decode, Encode, Encodable, Unbroken, Messages, Strip, Reports;
      ReportsIff(Strip(Release(State(), payload, last, checkpoint).1), Publish(State(), payload, last, checkpoint).1);
      PublishKeepsTail(State(), payload, last, checkpoint);
      var decoded := Decode(buffer + payload, last);
      buffer := decoded.1;
      var released := text.FeedText(decoded.0, last);
      if checkpoint && buffer == [] {
        var more := text.CheckpointText();
        released := released + more;
      }
      shown := Messages(Strip(released));
    }

    /** Read at most three bytes past a watermark, until no character is unfinished. */
    method CompleteCharacter(file: Bytes, position: nat) returns (consumed: nat, shown: seq<Text>)
      requires Valid()
      modifies this, text
      ensures Valid() && (State(), consumed, shown) == Complete(old(State()), file, position, 3)
    {
      hide Publish, WellFormed, Complete, Left, Reports, Release, Strip;
      consumed, shown := 0, [];
      ghost var all := Complete(State(), file, position, 3);
      LeftAtFirst(State(), file, position);
      var i := 0;
      while i < 3
        invariant 0 <= i <= 3 && Valid()
        invariant Left(State(), file, position, consumed, shown, 3 - i) == all
      {
        if buffer == [] || position + consumed >= |file| {
          LeftNothing(State(), file, position, consumed, shown, 3 - i);
          return;
        }
        LeftStep(State(), file, position, consumed, shown, 3 - i);
        var more := PublishText([file[position + consumed]], false, true);
        consumed, shown, i := consumed + 1, shown + more, i + 1;
      }
      LeftNothing(State(), file, position, consumed, shown, 0);
    }

    /** One batch of this log; the receipt is what was read less what is pending. */
    method PublishLog(offset: nat, file: Bytes, limit: Option<nat>, final: bool, checkpoint: bool)
      returns (acknowledged: int, shown: seq<Text>)
      requires Valid()
      modifies this, text
      ensures Valid()
      ensures var r := PublishBatch(old(State()), offset + |Pending(old(State()))|, file, limit, final, checkpoint);
              State() == r.console && shown == r.shown && acknowledged == Receipt(r.console, r.position)
    {
      hide Publish, Complete, WellFormed, Payload, Pending, Reports, Release, Strip;
      var waiting := PendingBytes();
      var from := offset + waiting;
      var payload := Payload(file, from, limit);
      var reached := Reached(file, from, limit);
      shown := PublishText(payload, final && (limit.None? || reached), checkpoint && reached);
      var consumed := |payload|;
      if checkpoint && reached && buffer != [] {
        var more, tail := CompleteCharacter(file, from + consumed);
        consumed := consumed + more;
        shown := shown + tail;
      }
      var left := PendingBytes();
      acknowledged := from + consumed - left;
    }
  }

  /** The whole result, from what was read and shown so far. */
  function Left(c: Console, file: Bytes, position: nat, consumed: nat, shown: seq<Text>, k: nat):
      (Console, nat, seq<Text>) {
    var (c2, n, more) := Complete(c, file, position + consumed, k);
    (c2, consumed + n, shown + more)
  }

  lemma LeftAtFirst(c: Console, file: Bytes, position: nat)
    ensures Left(c, file, position, 0, [], 3) == Complete(c, file, position, 3)
  {
    hide Complete;
    assert [] + Complete(c, file, position, 3).2 == Complete(c, file, position, 3).2;
  }

  lemma LeftNothing(c: Console, file: Bytes, position: nat, consumed: nat, shown: seq<Text>, k: nat)
    requires k == 0 || c.buffer == [] || position + consumed >= |file|
    ensures Left(c, file, position, consumed, shown, k) == (c, consumed, shown)
  {
    hide Publish;
    assert shown + [] == shown;
  }

  lemma LeftStep(c: Console, file: Bytes, position: nat, consumed: nat, shown: seq<Text>, k: nat)
    requires k > 0 && c.buffer != [] && position + consumed < |file|
    ensures var (c1, more) := Publish(c, [file[position + consumed]], false, true);
            Left(c, file, position, consumed, shown, k) == Left(c1, file, position, consumed + 1, shown + more, k - 1)
  {
    hide Publish;
    var (c1, one) := Publish(c, [file[position + consumed]], false, true);
    var later := Complete(c1, file, position + consumed + 1, k - 1).2;
    assert shown + (one + later) == (shown + one) + later;
  }

  // ----- the scalar journal -----

  /** Length up to and including the last newline. */
  function CompleteLines(payload: Bytes): (n: nat)
    ensures n <= |payload| && (n > 0 ==> payload[n - 1] == 10) && forall i :: n <= i < |payload| ==> payload[i] != 10
  {
    if payload == [] then 0
    else if payload[|payload| - 1] == 10 then |payload|
    else CompleteLines(payload[..|payload| - 1])
  }

  datatype PublishError = IncompleteJournal

  /** Only whole lines are delivered; at the final watermark nothing may be left over. */
  function PublishScalars(offset: nat, file: Bytes, limit: nat): Result<nat, PublishError> {
    var payload := Payload(file, offset, Some(limit));
    var complete := CompleteLines(payload);
    if offset + |payload| >= limit && complete != |payload| then Err(IncompleteJournal) else Ok(offset + complete)
  }

  /** The offset after `k` final batches, unless one of them was refused. */
  function ScalarRun(offset: nat, file: Bytes, limit: nat, k: nat): Result<nat, PublishError>
    decreases k
  {
    if k == 0 then Ok(offset)
    else
      match PublishScalars(offset, file, limit)
      case Ok(next) => ScalarRun(next, file, limit, k - 1)
      case Err(error) => Err(error)
  }

  /** From the offset on, every line up to the watermark ends in a newline within one read size. */
  ghost predicate LinesFit(offset: nat, file: Bytes, limit: nat) {
    offset <= limit && forall p: nat :: offset <= p < limit ==> NewlineSoon(file, limit, p)
  }

  ghost predicate NewlineSoon(file: Bytes, limit: nat, p: nat) {
    exists q :: p <= q < limit && q < p + READ_SIZE && q < |file| && file[q] == 10
  }

  /** Fitting lines are delivered batch by batch, and what is left still fits. */
  lemma ScalarsAdvance(offset: nat, file: Bytes, limit: nat)
    requires LinesFit(offset, file, limit)
    ensures PublishScalars(offset, file, limit).Ok?
    ensures var next := PublishScalars(offset, file, limit).value;
            LinesFit(next, file, limit) && offset <= next && (offset < limit ==> offset < next)
  {
    var payload := Payload(file, offset, Some(limit));
    if offset < limit {
      LastNewline(offset, file, limit);
      assert |payload| == Min(READ_SIZE, limit - offset);
      assert NewlineSoon(file, limit, offset);
      var q :| offset <= q < limit && q < offset + READ_SIZE && q < |file| && file[q] == 10;
      assert payload[q - offset] == file[q];
      if offset + |payload| >= limit { assert payload[|payload| - 1] == file[limit - 1]; }
    }
  }

  lemma LastNewline(offset: nat, file: Bytes, limit: nat)
    requires LinesFit(offset, file, limit) && offset < limit
    ensures limit <= |file| && file[limit - 1] == 10
  {
    assert NewlineSoon(file, limit, limit - 1);
  }

  lemma {:induction false} FittingDelivered(offset: nat, file: Bytes, limit: nat) returns (k: nat)
    requires LinesFit(offset, file, limit)
    ensures ScalarRun(offset, file, limit, k) == Ok(limit)
    decreases limit - offset
  {
    hide LinesFit, PublishScalars;
    FitsBelow(offset, file, limit);
    if offset == limit {
      k := 0;
    } else {
      ScalarsAdvance(offset, file, limit);
      var next := PublishScalars(offset, file, limit).value;
      FitsBelow(next, file, limit);
      var rest := FittingDelivered(next, file, limit);
      k := rest + 1;
    }
  }

  lemma FitsBelow(offset: nat, file: Bytes, limit: nat)
    requires LinesFit(offset, file, limit)
    ensures offset <= limit
  {
  }

  /** What one batch delivered were lines that fit. */
  lemma DeliveredFits(offset: nat, file: Bytes, limit: nat)
    requires PublishScalars(offset, file, limit).Ok? && LinesFit(PublishScalars(offset, file, limit).value, file, limit)
    ensures LinesFit(offset, file, limit)
  {
    var payload := Payload(file, offset, Some(limit));
    var next := PublishScalars(offset, file, limit).value;
    forall p: nat | offset <= p < limit ensures NewlineSoon(file, limit, p) {
      if p < next { assert payload[next - 1 - offset] == file[next - 1]; }
    }
  }

  lemma {:induction false} OnlyFittingDelivered(offset: nat, file: Bytes, limit: nat, k: nat)
    requires ScalarRun(offset, file, limit, k) == Ok(limit)
    ensures LinesFit(offset, file, limit)
    decreases k
  {
    hide LinesFit, PublishScalars;
    if k == 0 {
      NothingLeftFits(file, limit);
    } else {
      OnlyFittingDelivered(PublishScalars(offset, file, limit).value, file, limit, k - 1);
      DeliveredFits(offset, file, limit);
    }
  }

  lemma NothingLeftFits(file: Bytes, limit: nat)
    ensures LinesFit(limit, file, limit)
  {
  }

  /**
   * The final batches bring the journal's receipt to its watermark if and only if every line from the current
   * offset on ends in a newline within one read. Lines already acknowledged do not matter.
   */
  lemma JournalDeliveredIff(offset: nat, file: Bytes, limit: nat)
    ensures (exists k: nat :: ScalarRun(offset, file, limit, k) == Ok(limit)) <==> LinesFit(offset, file, limit)
  {
    hide LinesFit;
    if LinesFit(offset, file, limit) { var k := FittingDelivered(offset, file, limit); }
    if k: nat :| ScalarRun(offset, file, limit, k) == Ok(limit) { OnlyFittingDelivered(offset, file, limit, k); }
  }

  /** A journal whose last line has no newline is refused instead of being acknowledged. */
  lemma UnfinishedJournalRefused(offset: nat, file: Bytes, limit: nat)
    requires offset < limit <= |file| && limit - offset <= READ_SIZE && file[limit - 1] != 10
    ensures PublishScalars(offset, file, limit).Err?
  {
    var payload := Payload(file, offset, Some(limit));
    assert payload[|payload| - 1] == file[limit - 1];
  }

  /** A line longer than one read makes no progress at all. */
  lemma LongLineStalls(offset: nat, file: Bytes, limit: nat)
    requires offset + READ_SIZE < limit <= |file| && forall i :: offset <= i < offset + READ_SIZE ==> file[i] != 10
    ensures PublishScalars(offset, file, limit) == Ok(offset)
  {
    var payload := Payload(file, offset, Some(limit));
    assert forall i :: 0 <= i < |payload| ==> payload[i] == file[offset + i];
  }

  // ----- the worker -----

  datatype Offsets = Offsets(stdout: nat, stderr: nat, scalars: nat)

  datatype Files = Files(stdout: Bytes, stderr: Bytes, scalars: Bytes)

  datatype Tails = Tails(stdout: Console, stdoutAt: nat, stderr: Console, stderrAt: nat)

  class Publisher {
    const stdout: ConsoleStream
    const stderr: ConsoleStream
    var offsets: Offsets
    // Everything reported to the task log so far.
    var sink: seq<Text>

    ghost predicate Valid()
      reads this, stdout, stdout.text, stderr, stderr.text
    {
      stdout != stderr && stdout.text != stderr.text && stdout.Valid() && stderr.Valid()
    }

    constructor (initial: Offsets)
      ensures Valid() && offsets == initial && stdout.State() == IDLE && stderr.State() == IDLE && sink == []
      ensures fresh(stdout) && fresh(stdout.text) && fresh(stderr) && fresh(stderr.text)
    {
      stdout := new ConsoleStream();
      stderr := new ConsoleStream();
      offsets, sink := initial, [];
    }

    /** The two console logs and the positions they were read to. */
    ghost function Logs(): Tails
      requires Valid()
      reads this, stdout, stdout.text, stderr, stderr.text
    {
      Tails(stdout.State(), offsets.stdout + |Pending(stdout.State())|,
            stderr.State(), offsets.stderr + |Pending(stderr.State())|)
    }

    /** The position each console log was read to lies below its watermark. */
    ghost predicate Below(limits: Offsets)
      requires Valid()
      reads this, stdout, stdout.text, stderr, stderr.text
    {
      && offsets.stdout + |Pending(stdout.State())| <= limits.stdout
      && offsets.stderr + |Pending(stderr.State())| <= limits.stderr && offsets.scalars <= limits.scalars
    }

    /** Work left: unread bytes count double, a log with pending bytes needs one more pass. */
    ghost function Left(limits: Offsets): int
      requires Valid()
      reads this, stdout, stdout.text, stderr, stderr.text
    {
      LeftOf(offsets.stdout, |Pending(stdout.State())|, limits.stdout)
        + LeftOf(offsets.stderr, |Pending(stderr.State())|, limits.stderr)
      + (limits.scalars - offsets.scalars)
    }

    /** One final batch over the three logs; a journal that does not end in a newline is refused. */
    method FinalBatch(files: Files, limits: Offsets) returns (r: Result<Offsets, PublishError>)
      requires Valid() && Below(limits) && limits.stdout <= |files.stdout| && limits.stderr <= |files.stderr|
      modifies this, stdout, stdout.text, stderr, stderr.text
      ensures Valid() && (r.Ok? ==> r == Ok(offsets) && Below(limits)) && (r.Err? ==> offsets == old(offsets))
      ensures match PublishScalars(old(offsets.scalars), files.scalars, limits.scalars)
              case Ok(next) => r.Ok? && offsets.scalars == next
              case Err(error) => r == Err(error)
      ensures sink == old(sink) + FinalShown(old(Logs()), files, limits)
      ensures r.Ok? ==> Logs() == FinalTails(old(Logs()), files, limits)
      ensures LinesFit(old(offsets.scalars), files.scalars, limits.scalars) ==>
        && r.Ok? && LinesFit(offsets.scalars, files.scalars, limits.scalars) && 0 <= Left(limits)
        && (Left(limits) < old(Left(limits)) || (offsets == limits && old(offsets) == limits))
    {
      hide PublishBatch, WellFormed, Pending, LinesFit, PublishScalars;
      FinalLog(stdout.State(), offsets.stdout, files.stdout, limits.stdout);
      FinalLog(stderr.State(), offsets.stderr, files.stderr, limits.stderr);
      var a, shownOut := stdout.PublishLog(offsets.stdout, files.stdout, Some(limits.stdout), true, false);
      var b, shownErr := stderr.PublishLog(offsets.stderr, files.stderr, Some(limits.stderr), true, false);
      sink := sink + shownOut + shownErr;
      var c := PublishScalars(offsets.scalars, files.scalars, limits.scalars);
      if LinesFit(offsets.scalars, files.scalars, limits.scalars) {
        ScalarsAdvance(offsets.scalars, files.scalars, limits.scalars);
        FitsBelow(c.value, files.scalars, limits.scalars);
      }
      if c.Err? {
        return Err(c.error);
      }
      ScalarsInside(offsets.scalars, files.scalars, limits.scalars);
      offsets := Offsets(a, b, c.value);
      r := Ok(offsets);
    }

    /** The final loop: publish until every receipt equals its watermark. */
    method PublishFinal(files: Files, limits: Offsets) returns (ghost batches: nat)
      requires Valid() && Below(limits) && LinesFit(offsets.scalars, files.scalars, limits.scalars)
      requires limits.stdout <= |files.stdout| && limits.stderr <= |files.stderr|
      modifies this, stdout, stdout.text, stderr, stderr.text
      ensures Valid() && offsets == limits
      ensures sink == old(sink) + FinalRun(old(Logs()), files, limits, batches).1
    {
      hide LinesFit, FinalTails, FinalShown, FinalRun, Pending, WellFormed, Publisher.Left, Publisher.Below,
        Publisher.Logs;
      ghost var first := Logs();
      batches := 1;
      var r := FinalBatch(files, limits);
      FinalRunFirst(first, files, limits);
      while offsets != limits
        invariant Valid() && Below(limits) && 0 <= Left(limits)
            && LinesFit(offsets.scalars, files.scalars, limits.scalars)
        invariant Logs() == FinalRun(first, files, limits, batches).0
        invariant sink == old(sink) + FinalRun(first, files, limits, batches).1
        decreases Left(limits)
      {
        FinalRunNext(first, files, limits, batches);
        r := FinalBatch(files, limits);
        batches := batches + 1;
      }
    }
  }

  function FinalOf(c: Console, position: nat, file: Bytes, limit: nat): Batch {
    PublishBatch(c, position, file, Some(limit), true, false)
  }

  /** The two console logs after one final batch. */
  function FinalTails(t: Tails, files: Files, limits: Offsets): Tails {
    var out, err := FinalOf(t.stdout, t.stdoutAt, files.stdout, limits.stdout),
      FinalOf(t.stderr, t.stderrAt, files.stderr, limits.stderr);
    Tails(out.console, out.position, err.console, err.position)
  }

  /** What one final batch reports: first the lines of standard output, then those of standard error. */
  function FinalShown(t: Tails, files: Files, limits: Offsets): seq<Text> {
    FinalOf(t.stdout, t.stdoutAt, files.stdout, limits.stdout).shown
    + FinalOf(t.stderr, t.stderrAt, files.stderr, limits.stderr).shown
  }

  /** The logs after `k` final batches and everything reported by then. */
  function FinalRun(t: Tails, files: Files, limits: Offsets, k: nat): (Tails, seq<Text>) {
    if k == 0 then (t, [])
    else
      var (before, shown) := FinalRun(t, files, limits, k - 1);
      (FinalTails(before, files, limits), shown + FinalShown(before, files, limits))
  }

  lemma FinalRunFirst(t: Tails, files: Files, limits: Offsets)
    ensures FinalRun(t, files, limits, 1) == (FinalTails(t, files, limits), FinalShown(t, files, limits))
  {
    hide FinalTails, FinalShown;
    assert FinalRun(t, files, limits, 0) == (t, []);
    assert [] + FinalShown(t, files, limits) == FinalShown(t, files, limits);
  }

  lemma FinalRunNext(t: Tails, files: Files, limits: Offsets, k: nat)
    ensures var (before, shown) := FinalRun(t, files, limits, k);
            FinalRun(t, files, limits, k + 1)
            == (FinalTails(before, files, limits), shown + FinalShown(before, files, limits))
  {
    hide FinalTails, FinalShown;
  }

  lemma ScalarsInside(offset: nat, file: Bytes, limit: nat)
    requires offset <= limit && PublishScalars(offset, file, limit).Ok?
    ensures PublishScalars(offset, file, limit).value <= limit
  {
  }

  function LeftOf(offset: int, pending: int, limit: int): int {
    2 * (limit - (offset + pending)) + (if offset == limit then 0 else 1)
  }

  /** A batch result nearer to the watermark, or still at it. */
  ghost predicate Toward(c: Console, offset: nat, r: Batch, limit: nat)
    requires WellFormed(c)
  {
    && WellFormed(r.console) && |Pending(r.console)| <= r.position <= limit
    && (if offset == limit then Receipt(r.console, r.position) == limit
        else LeftOf(Receipt(r.console, r.position), |Pending(r.console)|, limit) < LeftOf(offset, |Pending(c)|, limit))
  }

  /** A final batch of one console log moves towards its watermark, and stays there. */
  lemma FinalLog(c: Console, offset: nat, file: Bytes, limit: nat)
    requires WellFormed(c) && offset + |Pending(c)| <= limit <= |file|
    ensures Toward(c, offset, PublishBatch(c, offset + |Pending(c)|, file, Some(limit), true, false), limit)
  {
    hide Publish, Pending, WellFormed, PublishBatch, Payload, Reached;
    var from := offset + |Pending(c)|;
    ConsoleDelivery.FinalBatch(c, from, file, limit);
    FinalKeepsTail(c, from, file, limit);
    var r := PublishBatch(c, from, file, Some(limit), true, false);
    Progress(offset, |Pending(c)|, r.position, |Pending(r.console)|, limit);
  }

  lemma Progress(offset: nat, pending: nat, position: int, left: nat, limit: nat)
    requires offset + pending <= limit && position == Min(offset + pending + READ_SIZE, limit)
    requires position == limit ==> left == 0
    ensures if offset == limit then position - left == limit
        else LeftOf(position - left, left, limit) < LeftOf(offset, pending, limit)
  {
  }

  lemma FinalKeepsTail(c: Console, from: nat, file: Bytes, limit: nat)
    requires WellFormed(c) && from <= limit <= |file| && |Pending(c)| <= from
    ensures var r := PublishBatch(c, from, file, Some(limit), true, false);
            WellFormed(r.console) && |Pending(r.console)| <= r.position
  {
    hide Publish, Pending, WellFormed;
    PublishKeepsTail(c, Payload(file, from, Some(limit)), Reached(file, from, Some(limit)), false);
  }
}
