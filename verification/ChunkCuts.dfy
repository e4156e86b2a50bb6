/**
 * Which cuts of a stream are harmless (core/presentation.py): before names are substituted, text cleaned piece by piece
 * is the cleaned whole exactly when no control sequence spans a cut.
 */
module ChunkCuts {
  import opened Prelude
  import opened HumanText
  import opened HumanTextStreaming

  /** The pieces the filter renders, one for each chunk. */
  function Pieces(chunks: seq<Text>): seq<Text> {
    if chunks == [] then []
    else
      var prefix := chunks[..|chunks| - 1];
      var from := Boundary(Concat(prefix));
      CutPieces(Concat(prefix), chunks[|chunks| - 1]);
      Pieces(prefix) + [Concat(chunks)[from..Boundary(Concat(chunks))]]
  }

  function Rendered(pieces: seq<Text>, labels: Labels): Text {
    if pieces == [] then [] else Rendered(pieces[..|pieces| - 1], labels) + Human(pieces[|pieces| - 1], labels)
  }

  /** However the text is cut, the filter renders these pieces one after the other. */
  lemma {:induction false} FeedAllPieces(labels: Labels, chunks: seq<Text>)
    requires TailsFit(chunks)
    ensures FeedAll(labels, chunks) == (Stream(Tail(Concat(chunks)), false), Rendered(Pieces(chunks), labels))
  {
    hide Human, TailsFit, Boundary;
    if chunks == [] {
      BoundaryOfNothing();
    } else {
      var prefix, chunk := chunks[..|chunks| - 1], chunks[|chunks| - 1];
      var before := Concat(prefix);
      TailsFitPrefix(chunks);
      FeedAllPieces(labels, prefix);
      CutPieces(before, chunk);
      var n := Boundary(before);
      var text := before[n..] + chunk;
      Splice(before, chunk, n, Boundary(text));
      var piece := Concat(chunks)[n..Boundary(Concat(chunks))];
      assert piece == text[..Boundary(text)];
      assert (Pieces(prefix) + [piece])[..|Pieces(prefix)|] == Pieces(prefix);
    }
  }

  /** The pieces together are the text up to the last white space. */
  lemma {:induction false} PiecesJoin(chunks: seq<Text>)
    ensures Concat(Pieces(chunks)) == Concat(chunks)[..Boundary(Concat(chunks))]
  {
    hide Boundary;
    if chunks == [] {
      BoundaryOfNothing();
    } else {
      var prefix, chunk := chunks[..|chunks| - 1], chunks[|chunks| - 1];
      var before := Concat(prefix);
      PiecesJoin(prefix);
      CutPieces(before, chunk);
      var all := Concat(chunks);
      var n, m := Boundary(before), Boundary(all);
      var piece := all[n..m];
      assert (Pieces(prefix) + [piece])[..|Pieces(prefix)|] == Pieces(prefix);
      assert before[..n] == all[..n] && all[..n] + piece == all[..m];
    }
  }

  /** The pieces of the first chunks come first. */
  lemma {:induction false} PiecesPrefix(chunks: seq<Text>, k: nat)
    requires k <= |chunks|
    ensures |Pieces(chunks)| == |chunks| && Pieces(chunks)[..k] == Pieces(chunks[..k])
  {
    hide Boundary, Concat;
    if chunks != [] {
      var prefix := chunks[..|chunks| - 1];
      if k < |chunks| {
        PiecesPrefix(prefix, k);
        assert prefix[..k] == chunks[..k];
      } else {
        PiecesPrefix(prefix, |prefix|);
        assert chunks[..k] == chunks;
      }
    }
  }

  // ----- cleaning in pieces -----

  /** Control sequences removed from every piece by itself. */
  function StripEach(pieces: seq<Text>): Text {
    if pieces == [] then [] else StripEach(pieces[..|pieces| - 1]) + Strip(pieces[|pieces| - 1])
  }

  /** No control sequence spans a place where two pieces meet. */
  ghost predicate CleanBetween(pieces: seq<Text>) {
    forall k :: 0 <= k <= |pieces| ==> CleanCut(Concat(pieces), |Concat(pieces[..k])|)
  }

  /** With a clean cut behind the text, its earlier cuts do not depend on what follows. */
  lemma EarlierCut(c: Text, later: Text, n: nat)
    requires n <= |c| && CutsClean(c, later)
    ensures CleanCut(c + later, n) <==> CleanCut(c, n)
  {
    hide CsiLength;
    var a, b := c[..n], c[n..];
    assert (c + later)[..n] == a && (c + later)[n..] == b + later && a + b == c;
    if CutsClean(a, b + later) { CutsCleanShorter(a, b, later); }
    if CutsClean(a, b) {
      forall i | 0 <= i < |a| ensures CsiLength((a + (b + later))[i..]) <= |a| - i {
        assert (a + (b + later))[i..] == (c + later)[i..] == c[i..] + later;
        assert (a + b)[i..] == c[i..];
        CsiLocal(c[i..], later);
      }
    }
  }

  lemma StripAtMost(a: Text, b: Text)
    ensures |Strip(a + b)| <= |Strip(a)| + |Strip(b)|
    ensures |Strip(a + b)| == |Strip(a)| + |Strip(b)| <==> CutsClean(a, b)
  {
    hide Strip, CutsClean;
    if CutsClean(a, b) { StripSplits(a, b); } else { StripDiffers(a, b); }
  }

  lemma {:induction false} BetweenPrefix(pieces: seq<Text>)
    requires pieces != []
    ensures var prefix, last := pieces[..|pieces| - 1], pieces[|pieces| - 1];
            CleanBetween(pieces) <==> CleanBetween(prefix) && CutsClean(Concat(prefix), last)
  {
    hide CutsClean, CleanCut, Concat;
    var prefix, last := pieces[..|pieces| - 1], pieces[|pieces| - 1];
    var c := Concat(prefix);
    assert Concat(pieces) == c + last by { ConcatLast(pieces); }
    assert pieces[..|pieces|] == pieces;
    WholeIsClean(Concat(pieces));
    WholeIsClean(c);
    assert CleanCut(c + last, |c|) <==> CutsClean(c, last) by { CutBetween(c, last); }
    assert pieces[..|prefix|] == prefix && prefix[..|prefix|] == prefix;
    if CutsClean(c, last) {
      forall k | 0 <= k <= |prefix|
        ensures pieces[..k] == prefix[..k]
            && (CleanCut(c + last, |Concat(pieces[..k])|) <==> CleanCut(c, |Concat(prefix[..k])|))
      {
        ConcatPrefix(prefix, k);
        EarlierCut(c, last, |Concat(prefix[..k])|);
      }
    } else {
      assert !CleanCut(Concat(pieces), |Concat(pieces[..|prefix|])|);
    }
  }

  lemma ConcatLast(pieces: seq<Text>)
    requires pieces != []
    ensures Concat(pieces) == Concat(pieces[..|pieces| - 1]) + pieces[|pieces| - 1]
  {
  }

  lemma CutBetween(a: Text, b: Text)
    ensures CleanCut(a + b, |a|) <==> CutsClean(a, b)
  {
    hide CutsClean;
    assert (a + b)[..|a|] == a && (a + b)[|a|..] == b;
  }

  lemma WholeIsClean(t: Text)
    ensures CleanCut(t, |t|)
  {
    hide CsiLength;
    assert t[..|t|] == t && t[|t|..] == [] && t + [] == t;
  }

  /** Cleaning piece by piece is cleaning the whole exactly when no control sequence spans two pieces. */
  lemma {:induction false} PiecesAreExact(pieces: seq<Text>)
    ensures StripEach(pieces) == Strip(Concat(pieces)) <==> CleanBetween(pieces)
    ensures |StripEach(pieces)| >= |Strip(Concat(pieces))|
  {
    hide Strip, CutsClean, CleanBetween;
    if pieces == [] {
      StripNothing();
      NothingBetween();
    } else {
      var prefix, last := pieces[..|pieces| - 1], pieces[|pieces| - 1];
      PiecesAreExact(prefix);
      BetweenPrefix(pieces);
      StripAtMost(Concat(prefix), last);
      if CutsClean(Concat(prefix), last) {
        StripSplits(Concat(prefix), last);
        SameHead(StripEach(prefix), Strip(Concat(prefix)), Strip(last));
      }
    }
  }

  lemma SameHead(a: Text, b: Text, c: Text)
    ensures a + c == b + c <==> a == b
  {
    if a + c == b + c {
      assert a == (a + c)[..|a|] && |a| == |b|;
    }
  }

  lemma NothingBetween()
    ensures CleanBetween([])
  {
    hide CutsClean;
    WholeIsClean([]);
  }

  /** The cuts of a stream are the places where its pieces meet. */
  lemma CutsAreBetween(chunks: seq<Text>, last: Text)
    ensures var all := Concat(chunks); var pieces := Pieces(chunks) + [all[Boundary(all)..] + last];
            Concat(pieces) == all + last && (CleanBetween(pieces) <==> CleanCuts(chunks, last))
  {
    hide Boundary, CleanCut, Concat, Pieces;
    var all := Concat(chunks);
    var n := Boundary(all);
    var pieces := Pieces(chunks) + [all[n..] + last];
    PiecesPrefix(chunks, |chunks|);
    PiecesJoin(chunks);
    ConcatLast(pieces);
    assert pieces[..|chunks|] == Pieces(chunks);
    assert all[..n] + (all[n..] + last) == all + last;
    WholeIsClean(all + last);
    assert pieces[..|pieces|] == pieces;
    forall k | 0 <= k <= |chunks| ensures |Concat(pieces[..k])| == Boundary(Concat(chunks[..k])) {
      PiecesPrefix(chunks, k);
      assert pieces[..k] == Pieces(chunks)[..k];
      PiecesJoin(chunks[..k]);
    }
    if CleanCuts(chunks, last) {
      forall k | 0 <= k <= |pieces| ensures CleanCut(Concat(pieces), |Concat(pieces[..k])|) {
        if k <= |chunks| { assert CleanCut(all + last, Boundary(Concat(chunks[..k]))); }
      }
    }
    if CleanBetween(pieces) {
      forall k | 0 <= k <= |chunks| ensures CleanCut(all + last, Boundary(Concat(chunks[..k]))) {
        assert CleanCut(Concat(pieces), |Concat(pieces[..k])|);
      }
    }
  }

  /**
   * Main result, for every chunking: before names are substituted, the pieces the stream cleans add up to the cleaned
   * whole text if and only if no control sequence spans one of its cuts.
   */
  lemma ChunkCutsAreExact(chunks: seq<Text>, last: Text)
    ensures var all := Concat(chunks); var pieces := Pieces(chunks) + [all[Boundary(all)..] + last];
            StripEach(pieces) == Strip(all + last) <==> CleanCuts(chunks, last)
  {
    hide Strip, Boundary, Concat, Pieces, CleanBetween, CleanCuts;
    CutsAreBetween(chunks, last);
    var all := Concat(chunks);
    PiecesAreExact(Pieces(chunks) + [all[Boundary(all)..] + last]);
  }
}
