/** Which lines reach the task log, and in which order: one text, one batch, one run. */
module ReportedLines {
  import opened Prelude
  import opened HumanText
  import opened HumanTextStreaming
  import opened Utf8
  import opened PublishedText
  import opened ConsoleDelivery
  import opened ConsoleLogs

  // ----- one text -----

  /** The lines, with newlines between them. */
  function Join(lines: seq<Text>): Text
    requires lines != []
  {
    if |lines| == 1 then lines[0] else lines[0] + [10] + Join(lines[1..])
  }

  /** The part of a line behind its last carriage return, or the whole line when there is none. */
  ghost predicate IsRest(line: Text, rest: Text) {
    && 13 !in rest && |rest| <= |line| && line[|line| - |rest|..] == rest
    && (|rest| < |line| ==> line[|line| - |rest| - 1] == 13)
  }

  function NonEmpty(rests: seq<Text>): seq<Text> {
    if rests == [] then [] else (if rests[0] == [] then [] else [rests[0]]) + NonEmpty(rests[1..])
  }

  ghost predicate LinesAndRests(lines: seq<Text>, rests: seq<Text>) {
    |lines| == |rests| && forall i :: 0 <= i < |lines| ==> 10 !in lines[i] && IsRest(lines[i], rests[i])
  }

  /** In the order of the text, the nonempty rests of its lines are shown. */
  ghost predicate Reports(t: Text, shown: seq<Text>) {
    exists lines, rests :: lines != [] && LinesAndRests(lines, rests) && Join(lines) == t && shown == NonEmpty(rests)
  }

  /** A line alone is reported as what stands behind its last carriage return. */
  lemma OneLine(line: Text, rest: Text)
    requires 10 !in line && IsRest(line, rest)
    ensures Messages(line) == NonEmpty([rest])
  {
    assert FirstOf(10, line) == |line|;
    RestIs(line, rest);
    assert NonEmpty([rest][1..]) == [];
  }

  lemma RestIs(line: Text, rest: Text)
    requires IsRest(line, rest)
    ensures rest == line[BehindLast(13, line)..]
  {
  }

  lemma RestExists(line: Text)
    ensures IsRest(line, line[BehindLast(13, line)..])
  {
  }

  /** The lines in front are reported first. */
  lemma LineByLine(line: Text, t: Text)
    requires 10 !in line
    ensures Messages(line + [10] + t) == Messages(line) + Messages(t)
  {
    var all := line + [10] + t;
    var n := FirstOf(10, all);
    assert all[|line|] == 10;
    assert forall i :: 0 <= i < |line| ==> all[i] == line[i];
    assert n == |line|;
    assert all[..n] == line && all[n + 1..] == t;
    assert FirstOf(10, line) == |line|;
  }

  /** What is reported are exactly the nonempty rests of the lines, in order. */
  lemma {:induction false} LinesReported(lines: seq<Text>, rests: seq<Text>)
    requires lines != [] && LinesAndRests(lines, rests)
    ensures Messages(Join(lines)) == NonEmpty(rests)
  {
    hide Messages, IsRest;
    OneLine(lines[0], rests[0]);
    if |lines| == 1 {
      assert rests == [rests[0]];
    } else {
      assert LinesAndRests(lines[1..], rests[1..]);
      LinesReported(lines[1..], rests[1..]);
      LineByLine(lines[0], Join(lines[1..]));
      assert [rests[0]][1..] == [];
      assert NonEmpty([]) == [];
    }
  }

  lemma JoinCons(line: Text, lines: seq<Text>)
    ensures Join([line] + lines) == if lines == [] then line else line + [10] + Join(lines)
  {
    assert ([line] + lines)[1..] == lines;
  }

  lemma {:induction false} LinesExist(t: Text) returns (lines: seq<Text>, rests: seq<Text>)
    ensures lines != [] && LinesAndRests(lines, rests) && Join(lines) == t
    decreases |t|
  {
    hide IsRest, LinesAndRests, Join, BehindLast;
    var n := FirstOf(10, t);
    var line, more, moreRests := t[..n], [], [];
    if n == |t| {
      assert line == t;
      NoLines();
    } else {
      more, moreRests := LinesExist(t[n + 1..]);
      assert t == line + [10] + t[n + 1..];
    }
    var rest := line[BehindLast(13, line)..];
    RestExists(line);
    lines, rests := [line] + more, [rest] + moreRests;
    JoinCons(line, more);
    OneMoreLine(line, rest, more, moreRests);
  }

  lemma NoLines()
    ensures LinesAndRests([], [])
  {
  }

  lemma OneMoreLine(line: Text, rest: Text, lines: seq<Text>, rests: seq<Text>)
    requires 10 !in line && IsRest(line, rest) && LinesAndRests(lines, rests)
    ensures LinesAndRests([line] + lines, [rest] + rests)
  {
    hide IsRest;
  }

  /** The reported lines of a text, without reference to how they are computed. */
  lemma ReportsIff(t: Text, shown: seq<Text>)
    ensures Reports(t, shown) <==> shown == Messages(t)
  {
    hide Messages, LinesAndRests;
    if Reports(t, shown) {
      var lines, rests :| lines != [] && LinesAndRests(lines, rests) && Join(lines) == t && shown == NonEmpty(rests);
      LinesReported(lines, rests);
    }
    var lines, rests := LinesExist(t);
    LinesReported(lines, rests);
  }

  /** The characters that survive: no line ends, and nothing a later carriage return of the same line drops. */
  function Visible(t: Text): Text {
    if t == [] then [] else (if t[0] != 10 && Undropped(t) then [t[0]] else []) + Visible(t[1..])
  }

  lemma BehindTail(line: Text)
    requires line != []
    ensures 13 in line ==> BehindLast(13, line) == BehindLast(13, line[1..]) + 1
    ensures 13 !in line ==> BehindLast(13, line) == 0
  {
    var b, tail := BehindLast(13, line), line[1..];
    RestExists(tail);
    if 13 in line {
      var i :| 0 <= i < |line| && line[i] == 13;
      assert b > 0;
      assert tail[BehindLast(13, tail)..] == line[BehindLast(13, tail) + 1..];
      RestIs(line, tail[BehindLast(13, tail)..]);
    }
  }

  lemma {:induction false} VisibleLine(line: Text, rest: Text)
    requires 10 !in line && (rest == [] || rest[0] == 10)
    ensures Visible(line + rest) == line[BehindLast(13, line)..] + Visible(rest)
  {
    hide BehindLast, Undropped;
    var t := line + rest;
    if line == [] {
      assert t == rest;
    } else {
      var tail := line[1..];
      assert t[1..] == tail + rest && t[0] == line[0] && 10 !in tail;
      VisibleLine(tail, rest);
      UndroppedIff(line, rest);
      BehindTail(line);
      if 13 in line {
        assert line[BehindLast(13, line)..] == tail[BehindLast(13, tail)..];
      } else {
        assert forall i :: 0 <= i < |tail| ==> tail[i] == line[i + 1];
        assert line[0..] == line && tail[0..] == tail && line == [line[0]] + tail;
      }
    }
  }

  lemma VisibleBehind(rest: Text)
    ensures Visible([10] + rest) == Visible(rest) && Visible([]) == []
  {
    assert ([10] + rest)[1..] == rest;
  }

  lemma LineVisible(line: Text)
    requires 10 !in line
    ensures Concat(Messages(line)) == line[BehindLast(13, line)..] == Visible(line)
  {
    hide BehindLast, Undropped, Latest;
    assert FirstOf(10, line) == |line|;
    assert line + [] == line;
    VisibleLine(line, []);
    VisibleBehind([]);
    ConcatLatest(line);
  }

  /** Put together, the reported lines are exactly the surviving characters in their order. */
  lemma {:induction false} NothingLostOrMoved(t: Text)
    ensures Concat(Messages(t)) == Visible(t)
    decreases |t|
  {
    hide Undropped, Messages, Visible, BehindLast, Concat;
    var n := FirstOf(10, t);
    var line := t[..n];
    LineVisible(line);
    if n == |t| {
      assert line == t;
    } else {
      var rest := t[n + 1..];
      NothingLostOrMoved(rest);
      assert t == line + [10] + rest == line + ([10] + rest);
      LineByLine(line, rest);
      ConcatJoins(Messages(line), Messages(rest));
      VisibleLine(line, [10] + rest);
      VisibleBehind(rest);
    }
  }

  lemma ConcatLatest(line: Text)
    ensures Concat(Latest(line)) == line[BehindLast(13, line)..]
  {
    var rest := line[BehindLast(13, line)..];
    assert [rest][..0] == [];
    assert Concat([rest]) == Concat([]) + rest;
  }

  lemma {:induction false} ConcatJoins(a: seq<Text>, b: seq<Text>)
    ensures Concat(a + b) == Concat(a) + Concat(b)
  {
    if b == [] {
      assert a + b == a;
    } else {
      ConcatJoins(a, b[..|b| - 1]);
      assert (a + b)[..|a + b| - 1] == a + b[..|b| - 1];
    }
  }

  // ----- batches -----

  function Flat(parts: seq<seq<Text>>): seq<Text> {
    if parts == [] then [] else Flat(parts[..|parts| - 1]) + parts[|parts| - 1]
  }

  ghost predicate PartsReport(released: seq<Text>, parts: seq<seq<Text>>) {
    |parts| == |released| && forall i :: 0 <= i < |released| ==> Reports(Strip(released[i]), parts[i])
  }

  /** The lines of these released texts, one text after the other. */
  ghost predicate InOrder(released: seq<Text>, shown: seq<Text>) {
    exists parts :: PartsReport(released, parts) && shown == Flat(parts)
  }

  lemma NothingInOrder()
    ensures InOrder([], [])
  {
    assert PartsReport([], []) && Flat([]) == [];
  }

  lemma OneInOrder(text: Text)
    ensures InOrder([text], Messages(Strip(text)))
  {
    hide Messages, Strip, Reports;
    var shown := Messages(Strip(text));
    ReportsIff(Strip(text), shown);
    assert [shown][..0] == [];
    assert PartsReport([text], [shown]) && Flat([shown]) == [] + shown;
  }

  lemma {:induction false} FlatJoins(a: seq<seq<Text>>, b: seq<seq<Text>>)
    ensures Flat(a + b) == Flat(a) + Flat(b)
  {
    if b == [] {
      assert a + b == a;
    } else {
      FlatJoins(a, b[..|b| - 1]);
      assert (a + b)[..|a + b| - 1] == a + b[..|b| - 1];
    }
  }

  /** What is reported for earlier texts comes first. */
  lemma InOrderJoins(a: seq<Text>, shownA: seq<Text>, b: seq<Text>, shownB: seq<Text>)
    requires InOrder(a, shownA) && InOrder(b, shownB)
    ensures InOrder(a + b, shownA + shownB)
  {
    hide Reports, Flat, Strip;
    var partsA :| PartsReport(a, partsA) && shownA == Flat(partsA);
    var partsB :| PartsReport(b, partsB) && shownB == Flat(partsB);
    FlatJoins(partsA, partsB);
    assert PartsReport(a + b, partsA + partsB);
  }

  // ----- batches -----

  /** What is released byte by byte while a character is completed. */
  function CompleteReleases(c: Console, file: Bytes, position: nat, k: nat): seq<Text>
    decreases k
  {
    if k == 0 || c.buffer == [] || position >= |file| then []
    else
      var (c1, released) := Release(c, [file[position]], false, true);
      [released] + CompleteReleases(c1, file, position + 1, k - 1)
  }

  /** What one batch releases: the payload's text, then what follows from each byte beyond the watermark. */
  function BatchReleases(c: Console, from: nat, file: Bytes, limit: Option<nat>, final: bool, checkpoint: bool):
      seq<Text> {
    var payload, reached := Payload(file, from, limit), Reached(file, from, limit);
    var (c1, released) := Release(c, payload, final && (limit.None? || reached), checkpoint && reached);
    [released] + if checkpoint && reached && c1.buffer != [] then CompleteReleases(c1, file, from + |payload|, 3)
      else []
  }

  lemma PublishInOrder(c: Console, payload: Bytes, last: bool, checkpoint: bool)
    ensures var (c1, released) := Release(c, payload, last, checkpoint);
            Publish(c, payload, last, checkpoint).0 == c1
            && InOrder([released], Publish(c, payload, last, checkpoint).1)
  {
    hide Release, Messages, Strip, InOrder;
    OneInOrder(Release(c, payload, last, checkpoint).1);
  }

  lemma {:induction false} CompleteInOrder(c: Console, file: Bytes, position: nat, k: nat)
    ensures InOrder(CompleteReleases(c, file, position, k), Complete(c, file, position, k).2)
    decreases k
  {
    hide Publish, Release, InOrder;
    if k == 0 || c.buffer == [] || position >= |file| {
      NothingInOrder();
    } else {
      PublishInOrder(c, [file[position]], false, true);
      var (c1, released) := Release(c, [file[position]], false, true);
      CompleteInOrder(c1, file, position + 1, k - 1);
      InOrderJoins([released], Publish(c, [file[position]], false, true).1,
                   CompleteReleases(c1, file, position + 1, k - 1), Complete(c1, file, position + 1, k - 1).2);
    }
  }

  /** A batch reports the lines of what it releases, in the order of the log. */
  lemma BatchInOrder(c: Console, from: nat, file: Bytes, limit: Option<nat>, final: bool, checkpoint: bool)
    ensures InOrder(BatchReleases(c, from, file, limit, final, checkpoint),
                    PublishBatch(c, from, file, limit, final, checkpoint).shown)
  {
    hide Publish, Release, InOrder, Payload, Reached, Complete, CompleteReleases;
    var payload, reached := Payload(file, from, limit), Reached(file, from, limit);
    var last, mark := final && (limit.None? || reached), checkpoint && reached;
    PublishInOrder(c, payload, last, mark);
    var (c1, released) := Release(c, payload, last, mark);
    var shown := Publish(c, payload, last, mark).1;
    if mark && c1.buffer != [] {
      CompleteInOrder(c1, file, from + |payload|, 3);
      InOrderJoins([released], shown, CompleteReleases(c1, file, from + |payload|, 3),
                   Complete(c1, file, from + |payload|, 3).2);
    } else {
      assert [released] + [] == [released];
    }
  }

  // ----- runs -----

  function RoundReleases(l: Log, r: Round): seq<Text> {
    BatchReleases(l.console, l.position, l.file + r.appended, r.limit, false, r.limit.Some?)
  }

  function RoundShown(l: Log, r: Round): seq<Text> {
    PublishBatch(l.console, l.position, l.file + r.appended, r.limit, false, r.limit.Some?).shown
  }

  /** Everything a run releases, text by text. */
  function RunReleases(l: Log, rounds: seq<Round>): seq<Text> {
    if rounds == [] then []
    else
      var prefix := rounds[..|rounds| - 1];
      RunReleases(l, prefix) + RoundReleases(RunRounds(l, prefix), rounds[|rounds| - 1])
  }

  /** Everything a run reports to the task log. */
  function RunShown(l: Log, rounds: seq<Round>): seq<Text> {
    if rounds == [] then []
    else
      var prefix := rounds[..|rounds| - 1];
      RunShown(l, prefix) + RoundShown(RunRounds(l, prefix), rounds[|rounds| - 1])
  }

  /** A run reports the lines of what it releases, in the order it releases it. */
  lemma {:induction false} RunInOrder(l: Log, rounds: seq<Round>)
    ensures InOrder(RunReleases(l, rounds), RunShown(l, rounds))
  {
    hide BatchReleases, PublishBatch, InOrder, RunRounds;
    if rounds == [] {
      NothingInOrder();
    } else {
      var prefix, r := rounds[..|rounds| - 1], rounds[|rounds| - 1];
      var m := RunRounds(l, prefix);
      RunInOrder(l, prefix);
      BatchInOrder(m.console, m.position, m.file + r.appended, r.limit, false, r.limit.Some?);
      InOrderJoins(RunReleases(l, prefix), RunShown(l, prefix), RoundReleases(m, r), RoundShown(m, r));
    }
  }

  lemma {:induction false} ReleasesAddUp(l: Log, rounds: seq<Round>)
    requires NoBarriers(rounds)
    ensures Concat(RunReleases(l, rounds)) == Transcript(l, rounds).1
  {
    hide Release, RunRounds, Payload;
    if rounds != [] {
      var prefix, r := rounds[..|rounds| - 1], rounds[|rounds| - 1];
      ReleasesAddUp(l, prefix);
      var m := RunRounds(l, prefix);
      ConcatJoins(RunReleases(l, prefix), RoundReleases(m, r));
      assert RoundReleases(m, r) == [ReleasedBy(m, r)];
      assert [ReleasedBy(m, r)][..0] == [];
      assert Concat([ReleasedBy(m, r)]) == [] + ReleasedBy(m, r);
    }
  }

  /**
   * Main result for the task log: along every run without barriers the reported lines are, in order, those of
   * consecutive pieces of the rendering of exactly the characters the receipt acknowledges.
   */
  lemma ReportedIsAcknowledged(file: Bytes, offset: nat, rounds: seq<Round>) returns (pieces: seq<Text>)
    requires offset <= |file| && NoBarriers(rounds)
    requires var chunks := Transcript(Log(file, IDLE, offset), rounds).0; TailsFit(chunks) && CleanCuts(chunks, [])
    ensures var l2 := RunRounds(Log(file, IDLE, offset), rounds); offset <= l2.position <= |l2.file|
    ensures var l2 := RunRounds(Log(file, IDLE, offset), rounds);
            var text := Decode(l2.file[offset..l2.position], false).0;
            var head := text[..Boundary(text)];
            && WellFormed(l2.console) && offset <= LogReceipt(l2) <= |l2.file|
            && Encodable(head) && l2.file[offset..LogReceipt(l2)] == Encode(head)
            && Concat(pieces) == Human(head, map[])
            && InOrder(pieces, RunShown(Log(file, IDLE, offset), rounds))
  {
    hide Human, Decode, Boundary, WellFormed, Encodable, Encode, RunRounds, Transcript, TailsFit, CleanCuts, Concat,
      HeldAt, InOrder;
    pieces := RunReleases(Log(file, IDLE, offset), rounds);
    ReleasedIsAcknowledged(file, offset, rounds);
    ReleasesAddUp(Log(file, IDLE, offset), rounds);
    RunInOrder(Log(file, IDLE, offset), rounds);
  }
}
