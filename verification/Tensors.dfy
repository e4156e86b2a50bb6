/**
 * Real tensors in row-major order with the ONNX operators the lowering uses.
 * Operators are partial: ill-shaped operands have no value.
 */
module Tensors {
  import opened Prelude

  type Shape = seq<pos>

  function Size(shape: Shape): (n: pos)
  {
    if shape == [] then 1
    else
      MulPositive(Size(shape[..|shape| - 1]), shape[|shape| - 1]);
      Size(shape[..|shape| - 1]) * shape[|shape| - 1]
  }

  lemma MulPositive(a: int, b: int)
    requires a > 0 && b > 0
    ensures a * b > 0
  {
  }

  datatype RawTensor = Tensor(shape: Shape, data: seq<real>)

  type Tensor = t: RawTensor | |t.data| == Size(t.shape) witness Tensor([], [0.0])

  /** Apply a rounding to every element. */
  function Map(q: real -> real, t: Tensor): Tensor {
    Tensor(t.shape, seq(|t.data|, k requires 0 <= k < |t.data| => q(t.data[k])))
  }

  // ----- broadcasting -----

  /** Right-aligned dimensions are equal or one. */
  predicate FitsInto(shape: Shape, out: Shape) {
    if shape == [] then true
    else
      && out != []
      && (shape[|shape| - 1] == out[|out| - 1] || shape[|shape| - 1] == 1)
      && FitsInto(shape[..|shape| - 1], out[..|out| - 1])
  }

  function Broadcast(a: Shape, b: Shape): Option<Shape> {
    if a == [] then Some(b)
    else if b == [] then Some(a)
    else
      var x, y := a[|a| - 1], b[|b| - 1];
      var rest := Broadcast(a[..|a| - 1], b[..|b| - 1]);
      if rest.None? then None
      else if x == y || y == 1 then Some(rest.value + [x])
      else if x == 1 then Some(rest.value + [y])
      else None
  }

  /** The element of a broadcast operand that position `k` of the result reads. */
  function SourceIndex(shape: Shape, out: Shape, k: nat): (j: nat)
    requires FitsInto(shape, out)
  {
    if shape == [] then 0
    else
      var d, e := shape[|shape| - 1], out[|out| - 1];
      SourceIndex(shape[..|shape| - 1], out[..|out| - 1], k / e) * d + (if d == 1 then 0 else k % e)
  }

  lemma DivBound(k: nat, a: pos, e: pos)
    requires k < a * e
    ensures k / e < a
  {
    var q := k / e;
    assert k == q * e + k % e;
    MulMonotone(a, q, e);
  }

  lemma CellBound(j: nat, a: pos, x: nat, d: pos)
    requires j < a && x < d
    ensures j * d + x < a * d
  {
    MulMonotone(j + 1, a, d);
    assert (j + 1) * d == j * d + d;
  }

  lemma {:induction false} SourceInBounds(shape: Shape, out: Shape, k: nat)
    requires FitsInto(shape, out) && k < Size(out)
    ensures SourceIndex(shape, out, k) < Size(shape)
  {
    if shape != [] {
      var d, e := shape[|shape| - 1], out[|out| - 1];
      var outer := Size(out[..|out| - 1]);
      DivBound(k, outer, e);
      SourceInBounds(shape[..|shape| - 1], out[..|out| - 1], k / e);
      CellBound(SourceIndex(shape[..|shape| - 1], out[..|out| - 1], k / e), Size(shape[..|shape| - 1]),
                if d == 1 then 0 else k % e, d);
    }
  }

  lemma {:induction false} BroadcastFits(a: Shape, b: Shape)
    requires Broadcast(a, b).Some?
    ensures FitsInto(a, Broadcast(a, b).value) && FitsInto(b, Broadcast(a, b).value)
  {
    if a == [] {
      FitsItself(b);
    } else if b == [] {
      FitsItself(a);
    } else {
      BroadcastFits(a[..|a| - 1], b[..|b| - 1]);
      var rest, out := Broadcast(a[..|a| - 1], b[..|b| - 1]).value, Broadcast(a, b).value;
      assert out[..|out| - 1] == rest;
    }
  }

  lemma {:induction false} FitsItself(shape: Shape)
    ensures FitsInto(shape, shape)
  {
    if shape != [] { FitsItself(shape[..|shape| - 1]); }
  }

  /** An operand of the result's own shape is read at the result's own position. */
  lemma {:induction false} SourceOfSame(shape: Shape, k: nat)
    requires FitsInto(shape, shape) && k < Size(shape)
    ensures SourceIndex(shape, shape, k) == k
  {
    if shape != [] {
      var d := shape[|shape| - 1];
      DivBound(k, Size(shape[..|shape| - 1]), d);
      SourceOfSame(shape[..|shape| - 1], k / d);
    }
  }

  function Read(t: Tensor, out: Shape, k: nat): real
    requires FitsInto(t.shape, out) && k < Size(out)
  {
    SourceInBounds(t.shape, out, k);
    t.data[SourceIndex(t.shape, out, k)]
  }

  function Zip(f: (real, real) -> real, a: Tensor, b: Tensor): Option<Tensor> {
    var out := Broadcast(a.shape, b.shape);
    if out.None? then None
    else
      BroadcastFits(a.shape, b.shape);
      Some(Tensor(out.value, seq(Size(out.value), k requires 0 <= k < Size(out.value) =>
        f(Read(a, out.value, k), Read(b, out.value, k)))))
  }

  function AddOp(a: Tensor, b: Tensor): Option<Tensor> {
    Zip((x, y) => x + y, a, b)
  }

  function MulOp(a: Tensor, b: Tensor): Option<Tensor> {
    Zip((x, y) => x * y, a, b)
  }

  // ----- products -----

  /** The sum of `term(0) .. term(n - 1)`. */
  function Sum(n: nat, term: nat -> real): real {
    if n == 0 then 0.0 else Sum(n - 1, term) + term(n - 1)
  }

  lemma {:induction false} SumEqual(n: nat, f: nat -> real, g: nat -> real)
    requires forall c: nat :: c < n ==> f(c) == g(c)
    ensures Sum(n, f) == Sum(n, g)
  {
    if n > 0 { SumEqual(n - 1, f, g); }
  }

  /** Row-major access, with a value outside the tensor so that sums are total. */
  function At(data: seq<real>, i: int): real {
    if 0 <= i < |data| then data[i] else 0.0
  }

  /** Batched matrix product of operands of rank at least two. */
  function MatMul(a: Tensor, b: Tensor): Option<Tensor> {
    var ra, rb := |a.shape|, |b.shape|;
    if ra < 2 || rb < 2 || a.shape[ra - 1] != b.shape[rb - 2] then None
    else
      var batch := Broadcast(a.shape[..ra - 2], b.shape[..rb - 2]);
      if batch.None? then None
      else
        var m, inner, n := a.shape[ra - 2], a.shape[ra - 1], b.shape[rb - 1];
        BroadcastFits(a.shape[..ra - 2], b.shape[..rb - 2]);
        var out := batch.value + [m, n];
        Some(Tensor(out, seq(Size(out), k requires 0 <= k < Size(out) =>
          Cell(a, b, batch.value, m, inner, n, k))))
  }

  /** One element of a batched product: batch `k / n / m`, row `k / n % m`, column `k % n`. */
  function Cell(a: Tensor, b: Tensor, batch: Shape, m: pos, inner: pos, n: pos, k: nat): real
    requires |a.shape| >= 2 && |b.shape| >= 2
    requires FitsInto(a.shape[..|a.shape| - 2], batch) && FitsInto(b.shape[..|b.shape| - 2], batch)
  {
    var left := SourceIndex(a.shape[..|a.shape| - 2], batch, k / n / m) * m + k / n % m;
    var right := SourceIndex(b.shape[..|b.shape| - 2], batch, k / n / m);
    Sum(inner, c => At(a.data, left * inner + c) * At(b.data, (right * inner + c) * n + k % n))
  }

  // ----- shape operators -----

  function Transpose(t: Tensor): Option<Tensor> {
    if |t.shape| != 2 then None
    else
      var rows, columns := t.shape[0], t.shape[1];
      Size2([columns, rows]);
      Some(Tensor([columns, rows], seq(columns * rows, k requires 0 <= k < columns * rows =>
        At(t.data, k % rows * columns + k / rows))))
  }

  lemma Size2(shape: Shape)
    requires |shape| == 2
    ensures Size(shape) == shape[0] * shape[1]
  {
    var row := shape[..1];
    assert row[..0] == [];
    assert Size(row) == Size([]) * row[0];
  }

  /** Zero copies the input dimension, one minus one is inferred, anything else is taken as given. */
  function ReshapeDims(t: Tensor, spec: seq<int>): Option<Shape> {
    if exists i :: 0 <= i < |spec| && (spec[i] < -1 || (spec[i] == 0 && i >= |t.shape|)) then None
    else
      var known := KnownSize(t.shape, spec);
      if (exists i, j :: 0 <= i < j < |spec| && spec[i] == -1 && spec[j] == -1) then None
      else if -1 in spec && Size(t.shape) % known != 0 then None
      else
        var inferred := Size(t.shape) / known;
        if -1 in spec && inferred == 0 then None
        else
          var dims := seq(|spec|, i requires 0 <= i < |spec| =>
            if spec[i] == 0 then t.shape[i] else if spec[i] == -1 then (if inferred > 0 then inferred else 1)
              else spec[i]);
          if Size(dims) != Size(t.shape) then None else Some(dims)
  }

  /** Product of the dimensions that are not inferred. */
  function KnownSize(shape: Shape, spec: seq<int>): pos
    requires forall i :: 0 <= i < |spec| ==> spec[i] >= -1 && (spec[i] == 0 ==> i < |shape|)
  {
    if spec == [] then 1
    else
      var last := spec[|spec| - 1];
      var d: pos := if last == 0 then shape[|spec| - 1] else if last == -1 then 1 else last;
      MulPositive(KnownSize(shape, spec[..|spec| - 1]), d);
      KnownSize(shape, spec[..|spec| - 1]) * d
  }

  function Reshape(t: Tensor, spec: seq<int>): Option<Tensor> {
    var dims := ReshapeDims(t, spec);
    if dims.None? then None else Some(Tensor(dims.value, t.data))
  }

  /** Start and step along one axis: the listed ones, or the whole axis. */
  function AxisStart(axis: nat, dim: pos, starts: seq<int>, axes: seq<int>): int
    requires |starts| == |axes|
  {
    if axes == [] then 0
    else if axes[0] == axis then Max(0, Min(starts[0], dim))
    else AxisStart(axis, dim, starts[1..], axes[1..])
  }

  function AxisEnd(axis: nat, dim: pos, ends: seq<int>, axes: seq<int>): int
    requires |ends| == |axes|
  {
    if axes == [] then dim
    else if axes[0] == axis then Max(0, Min(ends[0], dim))
    else AxisEnd(axis, dim, ends[1..], axes[1..])
  }

  function AxisStep(axis: nat, steps: seq<int>, axes: seq<int>): int
    requires |steps| == |axes|
  {
    if axes == [] then 1
    else if axes[0] == axis then steps[0]
    else AxisStep(axis, steps[1..], axes[1..])
  }

  /** How many positions `start, start + step, ..` lie below `end`. */
  function Count(start: int, end: int, step: pos): int {
    if end <= start then 0 else (end - start + step - 1) / step
  }

  datatype Axis = Axis(start: int, step: pos, dim: pos)

  /** The input element that position `k` of a strided selection reads. */
  function StridedIndex(shape: Shape, axes: seq<Axis>, k: int): int
    requires |shape| == |axes|
  {
    if shape == [] then 0
    else
      var a := axes[|axes| - 1];
      StridedIndex(shape[..|shape| - 1], axes[..|axes| - 1], k / a.dim) * shape[|shape| - 1]
        + (a.start + a.step * (k % a.dim))
  }

  /** Strided selection with positive steps; an empty selection has no value here. */
  function Slice(t: Tensor, starts: seq<int>, ends: seq<int>, axes: seq<int>, steps: seq<int>): Option<Tensor> {
    if !(|starts| == |ends| == |axes| == |steps|) then None
    else if exists i :: 0 <= i < |t.shape| && !ValidAxis(t, i, starts, ends, axes, steps) then None
    else
      var selection := seq(|t.shape|, i requires 0 <= i < |t.shape| => AxisOf(t, i, starts, ends, axes, steps));
      var out: Shape := seq(|t.shape|, i requires 0 <= i < |t.shape| => selection[i].dim);
      Some(Tensor(out, seq(Size(out), k
        requires 0 <= k < Size(out) => At(t.data, StridedIndex(t.shape, selection, k)))))
  }

  predicate ValidAxis(t: Tensor, i: nat, starts: seq<int>, ends: seq<int>, axes: seq<int>, steps: seq<int>)
    requires i < |t.shape| && |starts| == |ends| == |axes| == |steps|
  {
    AxisStep(i, steps, axes) > 0
    && Count(AxisStart(i, t.shape[i], starts, axes), AxisEnd(i, t.shape[i], ends, axes), AxisStep(i, steps, axes)) > 0
  }

  function AxisOf(t: Tensor, i: nat, starts: seq<int>, ends: seq<int>, axes: seq<int>, steps: seq<int>): Axis
    requires i < |t.shape| && |starts| == |ends| == |axes| == |steps| && ValidAxis(t, i, starts, ends, axes, steps)
  {
    var start, step := AxisStart(i, t.shape[i], starts, axes), AxisStep(i, steps, axes);
    Axis(start, step, Count(start, AxisEnd(i, t.shape[i], ends, axes), step))
  }

  /** Reading the parameters of one axis from a two-axis selection. */
  lemma TwoAxes(axis: nat, dim: pos, v: seq<int>, axes: seq<int>)
    requires |v| == |axes| == 2
    ensures AxisStart(axis, dim, v, axes)
         == if axes[0] == axis then Max(0, Min(v[0], dim)) else if axes[1] == axis then Max(0, Min(v[1], dim)) else 0
    ensures AxisEnd(axis, dim, v, axes)
         == if axes[0] == axis then Max(0, Min(v[0], dim)) else if axes[1] == axis then Max(0, Min(v[1], dim)) else dim
    ensures AxisStep(axis, v, axes) == if axes[0] == axis then v[0] else if axes[1] == axis then v[1] else 1
  {
    var w, rest := v[1..], axes[1..];
    assert w[1..] == [] && rest[1..] == [];
    assert AxisStart(axis, dim, w, rest) == if axes[1] == axis then Max(0, Min(v[1], dim)) else 0;
    assert AxisEnd(axis, dim, w, rest) == if axes[1] == axis then Max(0, Min(v[1], dim)) else dim;
    assert AxisStep(axis, w, rest) == if axes[1] == axis then v[1] else 1;
  }
}
