/** Small shared vocabulary: optional values, outcomes, and lists viewed as sets. */
module Prelude {

  datatype Option<+T> = None | Some(value: T)

  datatype Result<+T, +E> = Ok(value: T) | Err(error: E)

  type pos = x: int | 0 < x witness 1

  function Min(a: int, b: int): int {
    if a <= b then a else b
  }

  function Max(a: int, b: int): int {
    if a >= b then a else b
  }

  /** No element occurs twice. */
  predicate Distinct<T(==)>(s: seq<T>) {
    forall i, j :: 0 <= i < j < |s| ==> s[i] != s[j]
  }

  function Elements<T(==)>(s: seq<T>): set<T> {
    set x | x in s
  }

  lemma {:induction false} DistinctSize<T>(s: seq<T>)
    requires Distinct(s)
    ensures |Elements(s)| == |s|
  {
    if s != [] {
      var prefix, last := s[..|s| - 1], s[|s| - 1];
      DistinctSize(prefix);
      assert s == prefix + [last] && last !in prefix;
      assert Elements(s) == Elements(prefix) + {last};
    }
  }

  lemma SubsetSize<T>(a: set<T>, b: set<T>)
    requires a <= b
    ensures |a| <= |b|
  {
    assert b == a + (b - a);
  }

  /** The smallest element of a nonempty list. */
  function MinOf(s: seq<int>): (m: int)
    requires s != []
    ensures m in s
    ensures forall i :: 0 <= i < |s| ==> m <= s[i]
  {
    if |s| == 1 then s[0] else
    var rest := MinOf(s[..|s| - 1]);
    Min(rest, s[|s| - 1])
  }

  lemma MulDivExact(a: int, n: pos)
    ensures a * n / n == a
  {
    var q := a * n / n;
    assert (a - q) * n == a * n % n;
    if a > q {
      MulMonotone(1, a - q, n);
    } else if a < q {
      MulMonotone(a - q, -1, n);
    }
  }

  /** Multiplying by a positive number keeps strict order. */
  lemma MulMonotone(a: int, b: int, n: pos)
    ensures a < b ==> a * n < b * n
    ensures a <= b ==> a * n <= b * n
  {
  }

  // ----- decimal numerals -----

  function Digit(d: nat): char
    requires d < 10
  {
    ('0' as int + d) as char
  }

  function Decimal(k: nat): string {
    if k < 10 then [Digit(k)] else Decimal(k / 10) + [Digit(k % 10)]
  }

  lemma {:induction false} DecimalInjective(j: nat, k: nat)
    requires Decimal(j) == Decimal(k)
    ensures j == k
  {
    DecimalEnds(j);
    DecimalEnds(k);
    if j >= 10 && k >= 10 {
      assert Decimal(j)[..|Decimal(j)| - 1] == Decimal(j / 10);
      assert Decimal(k)[..|Decimal(k)| - 1] == Decimal(k / 10);
      DecimalInjective(j / 10, k / 10);
    }
  }

  lemma {:induction false} DecimalEnds(k: nat)
    ensures |Decimal(k)| > 0 && Decimal(k)[|Decimal(k)| - 1] == Digit(k % 10)
    ensures k >= 10 ==> |Decimal(k)| > 1
  {
    if k >= 10 { DecimalEnds(k / 10); }
  }
}
