/** Incremental UTF-8 decoding in which undecodable bytes become single escapes (U+DC80..U+DCFF). */
module Utf8 {
  import opened Prelude
  import opened HumanText

  type byte = x: int | 0 <= x < 256

  type Bytes = seq<byte>

  /** How many continuation bytes a lead byte announces; zero for everything that is not a lead. */
  function Need(lead: byte): nat {
    if 0xC2 <= lead <= 0xDF then 1 else if 0xE0 <= lead <= 0xEF then 2 else if 0xF0 <= lead <= 0xF4 then 3 else 0
  }

  predicate Continuation(b: byte) {
    0x80 <= b <= 0xBF
  }

  /** The second byte excludes overlong forms, surrogates and values beyond U+10FFFF. */
  predicate SecondFits(lead: byte, b: byte) {
    && Continuation(b) && (lead == 0xE0 ==> b >= 0xA0) && (lead == 0xED ==> b <= 0x9F)
    && (lead == 0xF0 ==> b >= 0x90) && (lead == 0xF4 ==> b <= 0x8F)
  }

  /** The first `m` bytes could begin one character. */
  predicate PrefixFits(t: Bytes, m: nat)
    requires 1 <= m <= |t|
  {
    && (m >= 2 ==> SecondFits(t[0], t[1])) && (m >= 3 ==> Continuation(t[2])) && (m >= 4 ==> Continuation(t[3]))
  }

  /** One decoding step: a character from its bytes, or a wait for more of them. */
  datatype One = Char(code: int, used: nat) | Incomplete

  /** Six more bits from a continuation byte. */
  function Shifted(high: int, b: byte): int {
    high * 64 + (b as int - 0x80)
  }

  function CodePoint(t: Bytes): int
    requires t != [] && Need(t[0]) < |t|
  {
    match Need(t[0])
    case 1 => Shifted(t[0] - 0xC0, t[1])
    case 2 => Shifted(Shifted(t[0] - 0xE0, t[1]), t[2])
    case 3 => Shifted(Shifted(Shifted(t[0] - 0xF0, t[1]), t[2]), t[3])
    case _ => t[0]
  }

  function Escape(b: byte): int {
    0xDC00 + b
  }

  function DecodeOne(t: Bytes): (r: One)
    requires t != []
    ensures r.Char? ==> 1 <= r.used <= |t|
  {
    var n := Need(t[0]);
    if t[0] < 0x80 then Char(t[0], 1)
    else if n == 0 || !PrefixFits(t, Min(|t|, n + 1)) then Char(Escape(t[0]), 1)
    else if |t| > n then Char(CodePoint(t), n + 1)
    else Incomplete
  }

  /** Decoded characters and the bytes still waiting; a final call escapes an unfinished character. */
  function Decode(t: Bytes, last: bool): (Text, Bytes) {
    if t == [] then ([], [])
    else
      match DecodeOne(t)
      case Char(code, used) => var (rest, wait) := Decode(t[used..], last); ([code] + rest, wait)
      case Incomplete =>
        if last then (var (rest, wait) := Decode(t[1..], last); ([Escape(t[0])] + rest, wait)) else ([], t)
  }

  function EncodeOne(c: int): Bytes
    requires 0 <= c < 0x110000
  {
    if 0xDC80 <= c <= 0xDCFF then [c - 0xDC00]
    else if c < 0x80 then [c]
    else if c < 0x800 then [0xC0 + c / 64, 0x80 + c % 64]
    else if c < 0x10000 then [0xE0 + c / 4096, 0x80 + c / 64 % 64, 0x80 + c % 64]
    else [0xF0 + c / 262144, 0x80 + c / 4096 % 64, 0x80 + c / 64 % 64, 0x80 + c % 64]
  }

  predicate Encodable(t: Text) {
    forall i :: 0 <= i < |t| ==> 0 <= t[i] < 0x110000
  }

  function Encode(t: Text): Bytes
    requires Encodable(t)
  {
    if t == [] then [] else EncodeOne(t[0]) + Encode(t[1..])
  }

  // ----- decoding loses nothing -----

  lemma ShiftedBack(high: int, b: byte)
    requires Continuation(b)
    ensures Shifted(high, b) / 64 == high && Shifted(high, b) % 64 == b - 0x80
  {
  }

  /** A decoded character encodes to exactly the bytes it was read from. */
  lemma OneRoundTrip(t: Bytes)
    requires t != [] && DecodeOne(t).Char?
    ensures var r := DecodeOne(t); 0 <= r.code < 0x110000 && EncodeOne(r.code) == t[..r.used]
  {
    var r := DecodeOne(t);
    if t[0] >= 0x80 && r.used > 1 {
      var n := Need(t[0]);
      if n == 1 {
        ShiftedBack(t[0] - 0xC0, t[1]);
        assert t[..2] == [t[0], t[1]];
      } else if n == 2 {
        ThreeBytes(t);
      } else {
        FourBytes(t);
      }
    } else {
      assert t[..1] == [t[0]];
    }
  }

  lemma ThreeBytes(t: Bytes)
    requires |t| >= 3 && Need(t[0]) == 2 && PrefixFits(t, 3)
    ensures var c := CodePoint(t); 0x800 <= c < 0x10000 && !(0xD800 <= c <= 0xDFFF) && EncodeOne(c) == t[..3]
  {
    hide Shifted;
    var a := Shifted(t[0] - 0xE0, t[1]);
    var c := CodePoint(t);
    ShiftedBack(t[0] - 0xE0, t[1]);
    ShiftedBack(a, t[2]);
    assert c / 4096 == c / 64 / 64;
    assert t[..3] == [t[0], t[1], t[2]];
  }

  lemma FourBytes(t: Bytes)
    requires |t| >= 4 && Need(t[0]) == 3 && PrefixFits(t, 4)
    ensures var c := CodePoint(t); 0x10000 <= c < 0x110000 && EncodeOne(c) == t[..4]
  {
    hide Shifted;
    var a := Shifted(t[0] - 0xF0, t[1]);
    var b := Shifted(a, t[2]);
    var c := CodePoint(t);
    ShiftedBack(t[0] - 0xF0, t[1]);
    ShiftedBack(a, t[2]);
    ShiftedBack(b, t[3]);
    assert c / 4096 == c / 64 / 64 && c / 262144 == c / 64 / 64 / 64;
    assert t[..4] == [t[0], t[1], t[2], t[3]];
  }

  /** Characters and waiting bytes together are the input, byte for byte, malformed bytes included. */
  lemma {:induction false} DecodeLosesNothing(t: Bytes, last: bool)
    ensures var (text, wait) := Decode(t, last);
            Encodable(text) && Encode(text) + wait == t && |wait| <= 3 && (last ==> wait == [])
    decreases |t|
  {
    hide EncodeOne, DecodeOne, Need, PrefixFits, Encode, Encodable;
    if t == [] {
      NothingEncoded();
    } else {
      match DecodeOne(t) {
        case Char(code, used) =>
          DecodeLosesNothing(t[used..], last);
          OneRoundTrip(t);
          Prepended(t, used, code, Decode(t[used..], last).0, Decode(t[used..], last).1);
        case Incomplete =>
          IncompleteIsShort(t);
          if last {
            DecodeLosesNothing(t[1..], last);
            EscapeRoundTrip(t[0]);
            assert t[..1] == [t[0]];
            Prepended(t, 1, Escape(t[0]), Decode(t[1..], last).0, Decode(t[1..], last).1);
          } else {
            NothingEncoded();
            assert [] + t == t;
          }
      }
    }
  }

  lemma NothingEncoded()
    ensures Encodable([]) && Encode([]) == []
  {
  }

  /** One more decoded character in front of a lossless rest. */
  lemma Prepended(t: Bytes, used: nat, code: int, rest: Text, wait: Bytes)
    requires used <= |t| && 0 <= code < 0x110000 && EncodeOne(code) == t[..used]
    requires Encodable(rest) && Encode(rest) + wait == t[used..]
    ensures Encodable([code] + rest) && Encode([code] + rest) + wait == t
  {
    hide EncodeOne;
    PrependCode(code, rest);
    assert t[..used] + t[used..] == t;
    assert EncodeOne(code) + Encode(rest) + wait == EncodeOne(code) + (Encode(rest) + wait);
  }

  lemma IncompleteIsShort(t: Bytes)
    requires t != [] && DecodeOne(t).Incomplete?
    ensures |t| <= 3 && t[0] >= 0x80
  {
  }

  lemma EscapeRoundTrip(b: byte)
    requires b >= 0x80
    ensures 0 <= Escape(b) < 0x110000 && EncodeOne(Escape(b)) == [b]
  {
  }

  lemma PrependCode(code: int, rest: Text)
    requires 0 <= code < 0x110000 && Encodable(rest)
    ensures Encodable([code] + rest) && Encode([code] + rest) == EncodeOne(code) + Encode(rest)
  {
    assert ([code] + rest)[1..] == rest;
  }

  lemma {:induction false} EncodeJoins(a: Text, b: Text)
    requires Encodable(a) && Encodable(b)
    ensures Encodable(a + b) && Encode(a + b) == Encode(a) + Encode(b)
  {
    hide EncodeOne;
    if a == [] {
      assert a + b == b;
    } else {
      EncodeJoins(a[1..], b);
      assert (a + b)[1..] == a[1..] + b;
    }
  }

  // ----- decoding in pieces -----

  /** A step that does not wait is not changed by later bytes. */
  lemma OneLocal(a: Bytes, b: Bytes)
    requires a != [] && DecodeOne(a).Char?
    ensures DecodeOne(a + b) == DecodeOne(a)
  {
    var n := Need(a[0]);
    assert (a + b)[0] == a[0];
    assert forall i :: 0 <= i < |a| ==> (a + b)[i] == a[i];
  }

  /** Decoding piece by piece, carrying the waiting bytes over, decodes the whole. */
  lemma {:induction false} DecodeSplits(a: Bytes, b: Bytes, last: bool)
    ensures var (first, wait) := Decode(a, false); var (second, rest) := Decode(wait + b, last);
            Decode(a + b, last) == (first + second, rest)
    decreases |a|
  {
    hide DecodeOne;
    if a == [] {
      assert a + b == b && [] + b == b;
      assert forall x: Text :: [] + x == x;
    } else {
      match DecodeOne(a) {
        case Char(code, used) =>
          OneLocal(a, b);
          DecodeSplits(a[used..], b, last);
          assert (a + b)[used..] == a[used..] + b;
          var (first, wait) := Decode(a[used..], false);
          var (second, rest) := Decode(wait + b, last);
          assert [code] + (first + second) == ([code] + first) + second;
        case Incomplete =>
          var (second, rest) := Decode(a + b, last);
          assert [] + second == second;
      }
    }
  }

  // ----- well-formed text -----

  /** A whole character, correctly encoded (section 4 of RFC 3629), at the start. */
  predicate WholeCharacter(t: Bytes)
    requires t != []
  {
    t[0] < 0x80 || (Need(t[0]) > 0 && |t| > Need(t[0]) && PrefixFits(t, Need(t[0]) + 1))
  }

  predicate ValidUtf8(t: Bytes) {
    t == [] || (WholeCharacter(t) && ValidUtf8(t[Need(t[0]) + 1..]))
  }

  /** Well-formed so far: it may end inside a character. */
  ghost predicate ValidSoFar(t: Bytes) {
    exists more :: ValidUtf8(t + more)
  }

  predicate IsEscape(c: int) {
    0xDC80 <= c <= 0xDCFF
  }

  /** The definition agrees with the decoder: well-formed bytes are those decoded without escapes and without a rest. */
  lemma {:induction false} ValidIffNoEscapes(t: Bytes)
    ensures ValidUtf8(t) <==> Decode(t, false).1 == [] && forall c :: c in Decode(t, false).0 ==> !IsEscape(c)
    decreases |t|
  {
    hide DecodeOne, WholeCharacter, IsEscape;
    if t != [] {
      WholeIffPlain(t);
      match DecodeOne(t) {
        case Char(code, used) =>
          ValidIffNoEscapes(t[used..]);
          var rest := Decode(t[used..], false).0;
          assert forall c :: c in [code] + rest <==> c == code || c in rest;
        case Incomplete =>
      }
    }
  }

  lemma WholeIffPlain(t: Bytes)
    requires t != []
    ensures WholeCharacter(t) <==> DecodeOne(t).Char? && !IsEscape(DecodeOne(t).code)
    ensures WholeCharacter(t) ==> DecodeOne(t).used == Need(t[0]) + 1
  {
    hide Shifted;
    var n := Need(t[0]);
    if WholeCharacter(t) && n == 1 { TwoBytes(t); }
    if WholeCharacter(t) && n == 2 { ThreeBytes(t); }
    if WholeCharacter(t) && n == 3 { FourBytes(t); }
  }

  lemma TwoBytes(t: Bytes)
    requires |t| >= 2 && Need(t[0]) == 1 && PrefixFits(t, 2)
    ensures CodePoint(t) < 0x800
  {
  }

  /** The first character of text that is well-formed so far is whole, or all there is. */
  lemma FirstCharacter(t: Bytes)
    requires t != [] && ValidSoFar(t)
    ensures WholeCharacter(t) ==> ValidSoFar(t[Need(t[0]) + 1..])
    ensures !WholeCharacter(t) ==> t[0] >= 0x80 && |t| <= Need(t[0]) && PrefixFits(t, |t|)
  {
    var more :| ValidUtf8(t + more);
    var n := Need(t[0]);
    assert forall i :: 0 <= i < |t| ==> (t + more)[i] == t[i];
    if WholeCharacter(t) {
      assert (t + more)[n + 1..] == t[n + 1..] + more;
    }
  }
}
