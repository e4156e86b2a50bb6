/**
 * Labels in rendered text (core/presentation.py): exactly which labels can complete an opaque reference with the
 * text around them.
 */
module LabelledText {
  import opened Prelude
  import opened HumanText
  import opened HumanTextStreaming
  import opened CheckpointExposure
  import opened PublishedText

  /** A position at which a dashed identifier starts, or goes on behind a dash. */
  predicate Opening(a: nat) {
    a == 0 || AtDash(a - 1)
  }

  /** A position at which it ends, or goes on with a dash. */
  predicate Ending(b: nat) {
    b == 36 || AtDash(b)
  }

  /** A reference put between two parts of a dashed identifier. */
  function Around(v: Text, a: nat, b: nat): Text
    requires a <= 36 && b <= 36
  {
    TemplateIs();
    TEMPLATE[..a] + v + TEMPLATE[b..]
  }

  lemma SpelledUuid(t: Text)
    requires |t| >= 36 && UuidPart(t[..36], 0) && (|t| == 36 || !Hex(t[36]))
    ensures OpaqueLength(t) == 36
  {
    var head := t[..36];
    forall i | 0 <= i < 36 ensures if AtDash(i) then t[i] == 45 else Hex(t[i]) {
      assert head[i] == t[i] && if AtDash(0 + i) then head[i] == 45 else Hex(head[i]);
    }
    assert Uuid(t);
  }

  /** No reference starts in front of a reference that stands behind a dash. */
  lemma NothingBefore(t: Text, d: nat, v: Text)
    requires d < 24 && |t| > d + |v| && t[d] == 45 && IsReference(v) && t[d + 1..d + 1 + |v|] == v
    ensures OpaqueLength(t) == 0
  {
    hide Uuid, OpaqueLength;
    OpaqueShape(v);
    forall i | 0 <= i < |v| ensures t[d + 1 + i] == v[i] { assert t[d + 1..d + 1 + |v|][i] == t[d + 1 + i]; }
    if OpaqueLength(t) > 0 {
      OpaqueShape(t);
      DashedReference(t, d);
      if d < 23 {
        UuidAt(t, d + 5);
      } else if v[8] == 45 {
        UuidAt(t, 32);
      } else {
        LastDigits(t, v);
      }
    }
  }

  /** Behind the last dash a reference without dashes has too many digits. */
  lemma LastDigits(t: Text, v: Text)
    requires IsReference(v) && v[8] != 45 && |v| >= 32 && |t| > 36 && t[36] == v[12]
    ensures !Uuid(t)
  {
  }

  lemma AroundParts(v: Text, a: nat, b: nat)
    requires a <= 36 && b <= 36
    ensures var t := Around(v, a, b);
            && |t| == a + |v| + 36 - b && t[..a] == TEMPLATE[..a] && t[a..a + |v|] == v && t[a..] == v + TEMPLATE[b..]
  {
    TemplateIs();
  }

  /** Only the reference itself is replaced. */
  lemma OnlyNamed(labels: Labels, v: Text, a: nat, b: nat)
    requires v in labels && IsReference(v) && a < 36 && 8 <= b <= 36 && Opening(a) && Ending(b)
    ensures Replace(false, Around(v, a, b), labels) == Around(Blank(false, labels[v]), a, b)
  {
    hide OpaqueLength, Replace, Blank, Hex;
    var t, rest := Around(v, a, b), TEMPLATE[b..];
    TemplateIs();
    AroundParts(v, a, b);
    forall i | 0 <= i < a ensures !Matches(if i == 0 then false else Hex(t[i - 1]), t[i..]) {
      assert t[i..][a - 1 - i] == TEMPLATE[..a][a - 1] == 45;
      assert t[i..][a - 1 - i + 1..a - 1 - i + 1 + |v|] == t[a..a + |v|];
      NothingBefore(t[i..], a - 1 - i, v);
    }
    FreePrefix(false, t, a, labels);
    DashIsNoDigit();
    NamedHere(labels, v, rest);
    assert a > 0 ==> t[a - 1] == TEMPLATE[..a][a - 1] == 45;
    assert TEMPLATE[..a] + (Blank(false, labels[v]) + rest) == TEMPLATE[..a] + Blank(false, labels[v]) + rest;
  }

  lemma NamedHere(labels: Labels, v: Text, rest: Text)
    requires v in labels && IsReference(v) && |rest| < 32 && (rest == [] || rest[0] == 45)
    ensures Replace(false, v + rest, labels) == Blank(false, labels[v]) + rest
  {
    hide OpaqueLength, Replace, Blank, Hex;
    var t, n := v + rest, |v|;
    DashIsNoDigit();
    assert v[..n] == t[..n] == v;
    OpaqueByPrefix(v, t, n);
    OpaqueShape(v);
    assert t[n - 1] == v[n - 1] && t[n..] == rest;
    ReplaceIs(false, t, labels);
    ShortUnchanged(true, rest, labels);
  }

  lemma DashIsNoDigit()
    ensures !Hex(45)
  {
  }

  /** Digits and dashes hold neither links nor control sequences. */
  lemma PlainHuman(t: Text, labels: Labels)
    requires forall i :: 0 <= i < |t| ==> HexOrDash(t[i])
    ensures Human(t, labels) == Replace(false, t, labels)
  {
    hide Strip, Links, Replace;
    NoEscapeAtAll(t);
    NoColonNoLink(t, labels);
  }

  lemma AroundIsPlain(v: Text, a: nat, b: nat)
    requires a <= 36 && b <= 36 && forall i :: 0 <= i < |v| ==> HexOrDash(v[i])
    ensures forall i :: 0 <= i < |Around(v, a, b)| ==> HexOrDash(Around(v, a, b)[i])
  {
    TemplateIs();
  }

  /** A label that is not inert completes a reference with the right text around it. */
  lemma LabelExposes(labels: Labels, v: Text) returns (t: Text)
    requires v in labels && IsReference(v) && !Inert(Blank(false, labels[v]))
    ensures !OpaqueFree(false, Human(t, labels))
  {
    hide OpaqueLength, OpaqueFree, Human, Replace, Blank, Inert, OpensNone, ClosesNone, LinksNone;
    var w := Blank(false, labels[v]);
    var a, b, i := ExposedAt(w);
    t := Around(v, a, b);
    OpaqueShape(v);
    AroundIsPlain(v, a, b);
    PlainHuman(t, labels);
    OnlyNamed(labels, v, a, b);
    NotFreeAt(Around(w, a, b), i);
  }

  /** Where the identifier starts around a word that is not inert. */
  lemma ExposedAt(w: Text) returns (a: nat, b: nat, i: nat)
    requires !Inert(w)
    ensures a < 36 && 8 <= b <= 36 && Opening(a) && Ending(b)
    ensures i < |Around(w, a, b)| && !OpaqueFreeAt(Around(w, a, b), i)
  {
    hide OpaqueLength;
    if !OpensNone(w) {
      i :| 0 <= i < |w| && AtDash(|w| - i) && (i == 0 || !Hex(w[i - 1])) && UuidPart(w[i..], 0);
      a, b := 0, |w| - i;
      EndOpens(w, i);
    } else if !ClosesNone(w) {
      var j :| 0 < j <= |w| && AtDash(35 - j) && (j == |w| || !Hex(w[j])) && UuidPart(w[..j], 36 - j);
      a, b, i := 36 - j, 36, 0;
      BeginningCloses(w, j);
    } else {
      var c: nat :| AtDash(c - 1) && AtDash(c + |w|) && UuidPart(w, c);
      a, b, i := c, c + |w|, 0;
      WholeLinks(w, c);
    }
  }

  lemma EndOpens(w: Text, i: nat)
    requires i < |w| && AtDash(|w| - i) && (i == 0 || !Hex(w[i - 1])) && UuidPart(w[i..], 0)
    ensures !OpaqueFreeAt(Around(w, 0, |w| - i), i)
  {
    hide OpaqueLength, Uuid;
    TemplateIs();
    var t, k := Around(w, 0, |w| - i), |w| - i;
    assert TEMPLATE[..0] + w == w;
    var u := t[i..];
    assert u == w[i..] + TEMPLATE[k..] && u[..36] == u;
    SpelledUuid(u);
    assert i > 0 ==> t[i - 1] == w[i - 1];
  }

  lemma BeginningCloses(w: Text, j: nat)
    requires 0 < j <= |w| && AtDash(35 - j) && (j == |w| || !Hex(w[j])) && UuidPart(w[..j], 36 - j)
    ensures !OpaqueFreeAt(Around(w, 36 - j, 36), 0)
  {
    hide OpaqueLength, Uuid;
    TemplateIs();
    var t := Around(w, 36 - j, 36);
    assert TEMPLATE[36..] == [] && t == TEMPLATE[..36 - j] + w && t[0..] == t;
    assert t[..36] == TEMPLATE[..36 - j] + w[..j];
    SpelledUuid(t);
  }

  lemma WholeLinks(w: Text, a: nat)
    requires AtDash(a - 1) && AtDash(a + |w|) && UuidPart(w, a)
    ensures !OpaqueFreeAt(Around(w, a, a + |w|), 0)
  {
    hide OpaqueLength, Uuid;
    TemplateIs();
    var t := Around(w, a, a + |w|);
    assert t[0..] == t && t[..36] == t;
    SpelledUuid(t);
  }

  /**
   * Main result: rendering shows no reference in any text if and only if no label of a reference, with its own
   * references blanked, is a part of a dashed identifier that ends or begins at one of its dashes.
   */
  lemma RenderingIsSafeIff(labels: Labels)
    ensures (forall t :: OpaqueFree(false, Human(t, labels))) <==> InertLabels(labels)
  {
    hide OpaqueFree, Human, Inert, Blank, IsReference;
    if InertLabels(labels) {
      forall t ensures OpaqueFree(false, Human(t, labels)) { HumanShowsNoReference(t, labels); }
    }
    if v :| v in labels && IsReference(v) && !Inert(Blank(false, labels[v])) {
      var t := LabelExposes(labels, v);
    }
  }

  // ----- ordinary labels -----

  predicate FourDigits(w: Text, i: nat)
    requires i + 4 <= |w|
  {
    Hex(w[i]) && Hex(w[i + 1]) && Hex(w[i + 2]) && Hex(w[i + 3])
  }

  /** No four digits in a row. */
  predicate Sparse(w: Text) {
    forall i: nat :: i + 4 <= |w| ==> !FourDigits(w, i)
  }

  lemma SparseIsInert(w: Text)
    requires Sparse(w)
    ensures Inert(w) && Blank(false, w) == w
  {
    hide Blank;
    forall i | 0 <= i < |w| && AtDash(|w| - i) ensures !UuidPart(w[i..], 0) { SparsePart(w, i, |w|, 0); }
    forall j | 0 < j <= |w| && AtDash(35 - j) ensures !UuidPart(w[..j], 36 - j) {
      assert w[0..j] == w[..j];
      SparsePart(w, 0, j, 36 - j);
    }
    forall a: nat | AtDash(a - 1) && AtDash(a + |w|) ensures !UuidPart(w, a) {
      if |w| >= 4 {
        assert w[0..|w|] == w;
        SparsePart(w, 0, |w|, a);
      } else {
        assert false;
      }
    }
    forall i | 0 <= i < |w| ensures !Matches(if i == 0 then false else Hex(w[i - 1]), w[i..]) { SparseMatch(w, i); }
    FreeStays(false, w);
  }

  /** Behind a dash or at the start a dashed identifier goes on with four digits. */
  lemma SparsePart(w: Text, i: nat, j: nat, a: nat)
    requires Sparse(w) && i + 4 <= j <= |w| && Opening(a)
    ensures !UuidPart(w[i..j], a)
  {
    var part := w[i..j];
    assert !FourDigits(w, i);
    assert part[0] == w[i] && part[1] == w[i + 1] && part[2] == w[i + 2] && part[3] == w[i + 3];
    assert !AtDash(a) && !AtDash(a + 1) && !AtDash(a + 2) && !AtDash(a + 3);
  }

  lemma SparseMatch(w: Text, i: nat)
    requires Sparse(w) && i < |w|
    ensures OpaqueLength(w[i..]) == 0
  {
    var s := w[i..];
    assert |s| >= 4 ==> !FourDigits(w, i);
    assert |s| >= 4 ==> s[0] == w[i] && s[1] == w[i + 1] && s[2] == w[i + 2] && s[3] == w[i + 3];
    if OpaqueLength(s) > 0 { OpaqueShape(s); }
  }

  /** Words and small numbers are such labels. */
  lemma OrdinaryLabels(a: Text, b: Text, c: Text)
    ensures InertLabels(map[a := Codes("Detector"), b := Codes("Job 17"), c := Codes("Detection model")])
  {
    hide Codes, Inert, Blank, Sparse, IsReference;
    DetectorIsSparse();
    JobIsSparse();
    ModelIsSparse();
    SparseIsInert(Codes("Detector"));
    SparseIsInert(Codes("Job 17"));
    SparseIsInert(Codes("Detection model"));
  }

  lemma DetectorIsSparse()
    ensures Sparse(Codes("Detector"))
  {
    var w := Codes("Detector");
    assert !Hex(w[2]) && !Hex(w[5]);
  }

  lemma JobIsSparse()
    ensures Sparse(Codes("Job 17"))
  {
    var w := Codes("Job 17");
    assert !Hex(w[1]) && !Hex(w[3]);
  }

  lemma ModelIsSparse()
    ensures Sparse(Codes("Detection model"))
  {
    var w := Codes("Detection model");
    assert !Hex(w[2]) && !Hex(w[5]) && !Hex(w[8]) && !Hex(w[11]);
  }
}
