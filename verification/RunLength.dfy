/** Run-length masks of the dataset (scripts/severstal.py): start and length pairs over a column-major image. */
module RunLength {
  import opened Prelude

  datatype RleError = BadDimensions | OddCount | BadRun(index: nat)

  function Start(values: seq<int>, k: nat): int
    requires 2 * k + 1 < |values|
  {
    values[2 * k] - 1
  }

  function End(values: seq<int>, k: nat): int
    requires 2 * k + 1 < |values|
  {
    Start(values, k) + values[2 * k + 1]
  }

  function PreviousEnd(values: seq<int>, k: nat): int
    requires 2 * k <= |values|
  {
    if k == 0 then 0 else End(values, k - 1)
  }

  /** Positive, behind the previous run and inside the image. */
  predicate GoodRun(values: seq<int>, k: nat, size: nat)
    requires 2 * k + 1 < |values|
  {
    PreviousEnd(values, k) <= Start(values, k) && values[2 * k + 1] > 0 && End(values, k) <= size
  }

  predicate GoodRuns(values: seq<int>, count: nat, size: nat)
    requires 2 * count <= |values|
  {
    forall k: nat :: k < count ==> GoodRun(values, k, size)
  }

  /** Position `i` lies in one of the first `count` runs. */
  ghost predicate InRuns(values: seq<int>, count: nat, i: int)
    requires 2 * count <= |values|
  {
    exists k: nat :: k < count && Start(values, k) <= i < End(values, k)
  }

  function TotalLength(values: seq<int>, count: nat): int
    requires 2 * count <= |values|
  {
    if count == 0 then 0 else TotalLength(values, count - 1) + values[2 * count - 1]
  }

  function Ones(flat: seq<bool>): nat {
    if flat == [] then 0 else Ones(flat[..|flat| - 1]) + if flat[|flat| - 1] then 1 else 0
  }

  /** Set exactly the pixels of the runs; refuse anything but sorted disjoint runs inside the image. */
  method Decode(values: seq<int>, height: int, width: int) returns (r: Result<seq<bool>, RleError>)
    ensures r.Ok? <==>
        height > 0 && width > 0 && |values| % 2 == 0 && GoodRuns(values, |values| / 2, PixelCount(height, width))
    ensures r.Ok? ==> |r.value| == PixelCount(height, width)
    ensures r.Ok? ==> forall i :: 0 <= i < |r.value| ==> (r.value[i] <==> InRuns(values, |values| / 2, i))
    ensures r.Err? && r.error.BadRun? ==>
        2 * r.error.index + 1 < |values| && !GoodRun(values, r.error.index, PixelCount(height, width))
                                          && GoodRuns(values, r.error.index, PixelCount(height, width))
  {
    if height <= 0 || width <= 0 {
      return Err(BadDimensions);
    }
    if |values| % 2 != 0 {
      return Err(OddCount);
    }
    var size := PixelCount(height, width);
    var flat := new bool[size](_ => false);
    var previousEnd, k := 0, 0;
    while k < |values| / 2
      invariant 0 <= k <= |values| / 2 && previousEnd == PreviousEnd(values, k) && GoodRuns(values, k, size)
      invariant forall i :: 0 <= i < size ==> (flat[i] <==> InRuns(values, k, i))
    {
      var offset := values[2 * k] - 1;
      var end := offset + values[2 * k + 1];
      if offset < previousEnd || values[2 * k + 1] <= 0 || end > size {
        assert !GoodRun(values, k, size);
        return Err(BadRun(k));
      }
      StartsInside(values, k, size);
      var i := offset;
      while i < end
        invariant offset <= i <= end
        invariant forall j :: 0 <= j < size ==> (flat[j] <==> InRuns(values, k, j) || offset <= j < i)
      {
        flat[i] := true;
        i := i + 1;
      }
      forall j | 0 <= j < size ensures flat[j] <==> InRuns(values, k + 1, j) { OneMoreRun(values, k, j); }
      previousEnd := end;
      k := k + 1;
    }
    r := Ok(flat[..]);
  }

  function PixelCount(height: int, width: int): nat {
    if height > 0 && width > 0 then (Positive(height, width); height * width) else 0
  }

  lemma Positive(a: int, b: int)
    requires a > 0 && b > 0
    ensures a * b > 0
  {
  }

  /** Ends of good runs are nonnegative, so every later start is inside. */
  lemma {:induction false} StartsInside(values: seq<int>, k: nat, size: nat)
    requires 2 * k <= |values| && GoodRuns(values, k, size)
    ensures PreviousEnd(values, k) >= 0
  {
    if k > 0 {
      assert GoodRun(values, k - 1, size);
      StartsInside(values, k - 1, size);
    }
  }

  lemma OneMoreRun(values: seq<int>, k: nat, i: int)
    requires 2 * k + 1 < |values|
    ensures InRuns(values, k + 1, i) <==> InRuns(values, k, i) || Start(values, k) <= i < End(values, k)
  {
    if InRuns(values, k + 1, i) {
      var j: nat :| j < k + 1 && Start(values, j) <= i < End(values, j);
    }
  }

  // ----- area -----

  /** Earlier runs end before later ones start. */
  lemma {:induction false} RunsBefore(values: seq<int>, count: nat, size: nat, i: int)
    requires 2 * count <= |values| && GoodRuns(values, count, size) && InRuns(values, count, i)
    ensures 0 <= i < PreviousEnd(values, count)
  {
    if count > 0 {
      assert GoodRun(values, count - 1, size);
      OneMoreRun(values, count - 1, i);
      StartsInside(values, count - 1, size);
      if InRuns(values, count - 1, i) { RunsBefore(values, count - 1, size, i); }
    }
  }

  lemma {:induction false} OnesJoin(a: seq<bool>, b: seq<bool>)
    ensures Ones(a + b) == Ones(a) + Ones(b)
  {
    if b == [] {
      assert a + b == a;
    } else {
      OnesJoin(a, b[..|b| - 1]);
      assert (a + b)[..|a + b| - 1] == a + b[..|b| - 1];
    }
  }

  lemma {:induction false} OnesConstant(flat: seq<bool>, v: bool)
    requires forall i :: 0 <= i < |flat| ==> flat[i] == v
    ensures Ones(flat) == if v then |flat| else 0
  {
    if flat != [] { OnesConstant(flat[..|flat| - 1], v); }
  }

  /** The decoded mask has as many pixels as the runs are long together: no pixel is counted twice. */
  lemma {:induction false} AreaIsTotalLength(values: seq<int>, count: nat, flat: seq<bool>)
    requires 2 * count <= |values| && GoodRuns(values, count, |flat|)
    requires forall i :: 0 <= i < |flat| ==> (flat[i] <==> InRuns(values, count, i))
    ensures Ones(flat) == TotalLength(values, count)
  {
    if count == 0 {
      OnesConstant(flat, false);
    } else {
      var k := count - 1;
      assert GoodRun(values, k, |flat|);
      StartsInside(values, k, |flat|);
      var a, b := Start(values, k), End(values, k);
      var before := seq(|flat|, i requires 0 <= i < |flat| => flat[i] && i < a);
      forall i | 0 <= i < |flat| ensures flat[i] == if i < a then before[i] else i < b {
        OneMoreRun(values, k, i);
        if InRuns(values, k, i) { RunsBefore(values, k, |flat|, i); }
      }
      forall i | 0 <= i < |flat| ensures before[i] <==> InRuns(values, k, i) {
        OneMoreRun(values, k, i);
        if InRuns(values, k, i) { RunsBefore(values, k, |flat|, i); }
      }
      AreaIsTotalLength(values, k, before);
      Pieces(flat, before, a, b);
    }
  }

  lemma Pieces(flat: seq<bool>, before: seq<bool>, a: int, b: int)
    requires |before| == |flat| && 0 <= a <= b <= |flat|
    requires forall i :: 0 <= i < |flat| ==> flat[i] == if i < a then before[i] else i < b
    requires forall i :: a <= i < |flat| ==> !before[i]
    ensures Ones(flat) == Ones(before) + (b - a)
  {
    hide Ones;
    PiecesAt(flat, before, a, b);
    OnesCut(flat, a);
    OnesCut(flat[a..], b - a);
    OnesCut(before, a);
    OnesConstant(flat[a..][..b - a], true);
    OnesConstant(flat[a..][b - a..], false);
    OnesConstant(before[a..], false);
  }

  lemma OnesCut(flat: seq<bool>, k: nat)
    requires k <= |flat|
    ensures Ones(flat) == Ones(flat[..k]) + Ones(flat[k..])
  {
    assert flat == flat[..k] + flat[k..];
    OnesJoin(flat[..k], flat[k..]);
  }

  lemma PiecesAt(flat: seq<bool>, before: seq<bool>, a: int, b: int)
    requires |before| == |flat| && 0 <= a <= b <= |flat|
    requires forall i :: 0 <= i < |flat| ==> flat[i] == if i < a then before[i] else i < b
    requires forall i :: a <= i < |flat| ==> !before[i]
    ensures flat[..a] == before[..a]
    ensures forall i :: 0 <= i < |flat[a..]| ==> flat[a..][i] == (i < b - a)
    ensures forall i :: 0 <= i < |before[a..]| ==> !before[a..][i]
  {
  }
}
