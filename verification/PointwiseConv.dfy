/** A strided 1x1 convolution and the Slice / Reshape / MatMul / Reshape sequence that replaces it. */
module PointwiseConv {
  import opened Prelude
  import opened Tensors

  const SLICE_END: int := 9223372036854775807

  /** The operator definition's output extent: floor((d - 1) / s) + 1. */
  function OutDim(d: pos, s: pos): pos {
    (d - 1) / s + 1
  }

  /** Shapes for which the convolution is defined; the bias has one element per output channel. */
  predicate ConvShapes(x: Tensor, w: Tensor, bias: Option<Tensor>) {
    && |x.shape| == 4 && |w.shape| == 4 && w.shape[2] == 1 && w.shape[3] == 1 && x.shape[1] == w.shape[1]
    && x.shape[2] <= SLICE_END && x.shape[3] <= SLICE_END
    && (bias.Some? ==> bias.value.shape == [w.shape[0]])
  }

  /** One term of a product sum: input channel `c` at the strided position. */
  function TapTerm(q: real -> real, x: Tensor, w: Tensor, sh: pos, sw: pos, n: int, o: int, y: int, z: int,
                   c: int): real
    requires ConvShapes(x, w, None)
  {
    var C, H, W := x.shape[1], x.shape[2], x.shape[3];
    q(At(w.data, o * C + c)) * q(At(x.data, ((n * C + c) * H + y * sh) * W + z * sw))
  }

  /** One product sum: output channel `o` at batch `n`, row `y` and column `z`. */
  function Tap(q: real -> real, x: Tensor, w: Tensor, sh: pos, sw: pos, n: int, o: int, y: int, z: int): real
    requires ConvShapes(x, w, None)
  {
    q(Sum(x.shape[1], c => TapTerm(q, x, w, sh, sw, n, o, y, z, c)))
  }

  /** The convolution by its definition, operands and product sums rounded by `q`, the bias exact. */
  function Conv(q: real -> real, x: Tensor, w: Tensor, bias: Option<Tensor>, sh: pos, sw: pos): Option<Tensor> {
    if !ConvShapes(x, w, bias) then None
    else
      var O, OH, OW := w.shape[0], OutDim(x.shape[2], sh), OutDim(x.shape[3], sw);
      var out := [x.shape[0], O, OH, OW];
      Some(Tensor(out, seq(Size(out), k requires 0 <= k < Size(out) => ConvAt(q, x, w, bias, sh, sw, O, OH, OW, k))))
  }

  function ConvAt(q: real -> real, x: Tensor, w: Tensor, bias: Option<Tensor>, sh: pos, sw: pos,
                  O: pos, OH: pos, OW: pos, k: int): real
    requires ConvShapes(x, w, bias)
  {
    var o := k / OW / OH % O;
    Tap(q, x, w, sh, sw, k / OW / OH / O, o, k / OW % OH, k % OW) + (if bias.Some? then At(bias.value.data, o) else 0.0)
  }

  // ----- index arithmetic -----

  lemma DivMul(a: nat, b: nat, n: pos)
    requires b < n
    ensures (a * n + b) / n == a && (a * n + b) % n == b
  {
    var k := a * n + b;
    var q, r := k / n, k % n;
    assert k == q * n + r;
    Steps(a, q, n);
    Steps(q, a, n);
  }

  lemma Steps(a: int, b: int, n: pos)
    ensures a < b ==> a * n + n <= b * n
  {
    MulMonotone(a + 1, b, n);
  }

  lemma Decomposed(a: nat, y: nat, x: nat, m: pos, n: pos)
    requires y < m && x < n
    ensures m * n > 0 && ((a * m + y) * n + x) / (m * n) == a && ((a * m + y) * n + x) % (m * n) == y * n + x
  {
    MulPositive(m, n);
    CellBound(y, m, x, n);
    Regroup(a, y, x, m, n);
    DivMul(a, y * n + x, m * n);
  }

  lemma DivDiv(k: nat, m: pos, n: pos)
    ensures m * n > 0
    ensures k / (m * n) == k / n / m
    ensures k % (m * n) == k / n % m * n + k % n
  {
    Whole(k, n);
    Whole(k / n, m);
    Decomposed(k / n / m, k / n % m, k % n, m, n);
  }

  lemma Whole(k: nat, n: pos)
    ensures k == k / n * n + k % n && 0 <= k % n < n && k / n >= 0
  {
  }

  lemma Regroup(a: int, y: int, x: int, m: int, n: int)
    ensures (a * m + y) * n + x == a * (m * n) + (y * n + x)
  {
  }

  lemma SizeSnoc(s: Shape, d: pos)
    ensures Size(s + [d]) == Size(s) * d
  {
    assert (s + [d])[..|s|] == s;
  }

  lemma Size1(a: pos)
    ensures Size([a]) == a
  {
    assert [a] == [] + [a];
    SizeSnoc([], a);
  }

  lemma Size3(a: pos, b: pos, c: pos)
    ensures Size([a, b, c]) == a * b * c
  {
    Size2([a, b]);
    assert [a, b, c] == [a, b] + [c];
    SizeSnoc([a, b], c);
  }

  lemma Size4(a: pos, b: pos, c: pos, d: pos)
    ensures Size([a, b, c, d]) == a * b * c * d
  {
    Size3(a, b, c);
    assert [a, b, c, d] == [a, b, c] + [d];
    SizeSnoc([a, b, c], d);
  }

  // ----- sampling -----

  /** Sampling every s-th position of d leaves the operator's extent. */
  lemma CountIsOutDim(d: pos, s: pos)
    ensures Count(0, d, s) == OutDim(d, s)
  {
    DivShift(d - 1, s);
  }

  lemma DivShift(a: nat, s: pos)
    ensures (a + s) / s == a / s + 1
  {
    assert a == a / s * s + a % s;
    assert a + s == (a / s + 1) * s + a % s;
    DivMul(a / s + 1, a % s, s);
  }

  /** Every position read by the convolution lies inside the input. */
  lemma SampleInside(d: pos, s: pos, y: nat)
    requires y < OutDim(d, s)
    ensures y * s < d
  {
    MulMonotone(y, (d - 1) / s, s);
  }

  function Sampled(x: Tensor, sh: pos, sw: pos): Option<Tensor> {
    if sh == 1 && sw == 1 then Some(x)
    else Slice(x, [0, 0], [SLICE_END, SLICE_END], [2, 3], [sh, sw])
  }

  /** Where position `i` of the sampled input comes from. */
  function SampleIndex(i: int, H: pos, W: pos, OH: pos, OW: pos, sh: pos, sw: pos): int {
    (i / OW / OH * H + i / OW % OH * sh) * W + i % OW * sw
  }

  lemma StridedSnoc(shape: Shape, axes: seq<Axis>, d: pos, a: Axis, k: int)
    requires |shape| == |axes|
    ensures StridedIndex(shape + [d], axes + [a], k)
         == StridedIndex(shape, axes, k / a.dim) * d + (a.start + a.step * (k % a.dim))
  {
    assert (shape + [d])[..|shape|] == shape && (axes + [a])[..|axes|] == axes;
  }

  lemma StridedIndex1(N: pos, j: nat)
    requires j < N
    ensures StridedIndex([N], [Axis(0, 1, N)], j) == j
  {
    assert [N][..0] == [] && [Axis(0, 1, N)][..0] == [];
  }

  lemma StridedIndex2(N: pos, C: pos, j: nat)
    requires j < N * C
    ensures StridedIndex([N, C], [Axis(0, 1, N), Axis(0, 1, C)], j) == j
  {
    hide StridedIndex;
    assert [N, C] == [N] + [C] && [Axis(0, 1, N), Axis(0, 1, C)] == [Axis(0, 1, N)] + [Axis(0, 1, C)];
    DivBound(j, N, C);
    StridedIndex1(N, j / C);
    StridedSnoc([N], [Axis(0, 1, N)], C, Axis(0, 1, C), j);
  }

  lemma StridedIndex4(N: pos, C: pos, H: pos, W: pos, OH: pos, OW: pos, sh: pos, sw: pos, i: nat)
    requires i < N * C * OH * OW
    ensures StridedIndex([N, C, H, W], [Axis(0, 1, N), Axis(0, 1, C), Axis(0, sh, OH), Axis(0, sw, OW)], i)
         == SampleIndex(i, H, W, OH, OW, sh, sw)
  {
    hide StridedIndex;
    var batch, rows := [Axis(0, 1, N), Axis(0, 1, C)], [Axis(0, 1, N), Axis(0, 1, C), Axis(0, sh, OH)];
    assert [N, C, H, W] == [N, C, H] + [W] && [N, C, H] == [N, C] + [H];
    assert rows == batch + [Axis(0, sh, OH)];
    assert [Axis(0, 1, N), Axis(0, 1, C), Axis(0, sh, OH), Axis(0, sw, OW)] == rows + [Axis(0, sw, OW)];
    StridedSnoc([N, C, H], rows, W, Axis(0, sw, OW), i);
    StridedSnoc([N, C], batch, H, Axis(0, sh, OH), i / OW);
    MulPositive(N, C);
    MulPositive(N * C, OH);
    DivBound(i, N * C * OH, OW);
    DivBound(i / OW, N * C, OH);
    StridedIndex2(N, C, i / OW / OH);
  }

  /** Slice along the spatial axes keeps exactly the positions the strides visit. */
  lemma SliceIs(x: Tensor, sh: pos, sw: pos)
    requires |x.shape| == 4 && x.shape[2] <= SLICE_END && x.shape[3] <= SLICE_END
    ensures var r, OH, OW := Slice(x, [0, 0], [SLICE_END, SLICE_END], [2, 3], [sh, sw]),
                             OutDim(x.shape[2], sh), OutDim(x.shape[3], sw);
            && r.Some? && r.value.shape == [x.shape[0], x.shape[1], OH, OW]
            && forall i :: 0 <= i < |r.value.data| ==>
                 r.value.data[i] == At(x.data, SampleIndex(i, x.shape[2], x.shape[3], OH, OW, sh, sw))
  {
    var N, C, H, W := x.shape[0], x.shape[1], x.shape[2], x.shape[3];
    var OH, OW := OutDim(H, sh), OutDim(W, sw);
    var starts, ends, axes, steps := [0, 0], [SLICE_END, SLICE_END], [2, 3], [sh as int, sw as int];
    SpatialAxes(x, sh, sw);
    var r := Slice(x, starts, ends, axes, steps);
    var selection := [Axis(0, 1, N), Axis(0, 1, C), Axis(0, sh, OH), Axis(0, sw, OW)];
    assert r.Some?;
    assert x.shape == [N, C, H, W];
    Size4(N, C, OH, OW);
    assert r.value.shape == [N, C, OH, OW];
    forall i | 0 <= i < |r.value.data|
      ensures r.value.data[i] == At(x.data, SampleIndex(i, H, W, OH, OW, sh, sw))
    {
      StridedIndex4(N, C, H, W, OH, OW, sh, sw, i);
      var chosen := seq(|x.shape|, j requires 0 <= j < |x.shape| => AxisOf(x, j, starts, ends, axes, steps));
      assert chosen == selection;
    }
  }

  lemma SpatialAxes(x: Tensor, sh: pos, sw: pos)
    requires |x.shape| == 4 && x.shape[2] <= SLICE_END && x.shape[3] <= SLICE_END
    ensures forall j :: 0 <= j < 4 ==> ValidAxis(x, j, [0, 0], [SLICE_END, SLICE_END], [2, 3], [sh, sw])
    ensures AxisOf(x, 0, [0, 0], [SLICE_END, SLICE_END], [2, 3], [sh, sw]) == Axis(0, 1, x.shape[0])
    ensures AxisOf(x, 1, [0, 0], [SLICE_END, SLICE_END], [2, 3], [sh, sw]) == Axis(0, 1, x.shape[1])
    ensures AxisOf(x, 2, [0, 0], [SLICE_END, SLICE_END], [2, 3], [sh, sw]) == Axis(0, sh, OutDim(x.shape[2], sh))
    ensures AxisOf(x, 3, [0, 0], [SLICE_END, SLICE_END], [2, 3], [sh, sw]) == Axis(0, sw, OutDim(x.shape[3], sw))
  {
    CountIsOutDim(x.shape[2], sh);
    CountIsOutDim(x.shape[3], sw);
    forall j: nat | j < 4 ensures ValidAxis(x, j, [0, 0], [SLICE_END, SLICE_END], [2, 3], [sh, sw]) {
      TwoAxes(j, x.shape[j], [0, 0], [2, 3]);
      TwoAxes(j, x.shape[j], [SLICE_END, SLICE_END], [2, 3]);
      TwoAxes(j, x.shape[j], [sh, sw], [2, 3]);
    }
    forall j: nat | j < 4
      ensures AxisStart(j, x.shape[j], [0, 0], [2, 3]) == 0
      ensures AxisEnd(j, x.shape[j], [SLICE_END, SLICE_END], [2, 3]) == x.shape[j]
      ensures AxisStep(j, [sh, sw], [2, 3]) == if j == 2 then sh else if j == 3 then sw else 1
    {
      TwoAxes(j, x.shape[j], [0, 0], [2, 3]);
      TwoAxes(j, x.shape[j], [SLICE_END, SLICE_END], [2, 3]);
      TwoAxes(j, x.shape[j], [sh, sw], [2, 3]);
    }
  }

  /** The sampled input: its shape, and where each element comes from. */
  lemma SampledIs(x: Tensor, sh: pos, sw: pos)
    requires |x.shape| == 4 && x.shape[2] <= SLICE_END && x.shape[3] <= SLICE_END
    ensures var r, OH, OW := Sampled(x, sh, sw), OutDim(x.shape[2], sh), OutDim(x.shape[3], sw);
            && r.Some? && r.value.shape == [x.shape[0], x.shape[1], OH, OW]
            && forall i :: 0 <= i < |r.value.data| ==>
                 r.value.data[i] == At(x.data, SampleIndex(i, x.shape[2], x.shape[3], OH, OW, sh, sw))
  {
    if sh == 1 && sw == 1 {
      var H, W := x.shape[2], x.shape[3];
      assert OutDim(H, 1) == H && OutDim(W, 1) == W;
      assert x.shape == [x.shape[0], x.shape[1], H, W];
      forall i | 0 <= i < |x.data| ensures SampleIndex(i, H, W, H, W, 1, 1) == i {
        assert SampleIndex(i, H, W, H, W, 1, 1) == (i / W / H * H + i / W % H) * W + i % W;
        assert i / W / H * H + i / W % H == i / W;
      }
    } else {
      SliceIs(x, sh, sw);
    }
  }

  // ----- the product -----

  lemma BatchOfOne(N: pos)
    ensures Broadcast([1], [N]) == Some([N])
    ensures FitsInto([1], [N]) && FitsInto([N], [N])
    ensures forall j: nat :: j < N ==> SourceIndex([1], [N], j) == 0 && SourceIndex([N], [N], j) == j
  {
    var one: Shape := [1];
    assert one[..0] == [] && [N][..0] == [];
    assert Broadcast([], []) == Some([]);
    BroadcastFits([1], [N]);
    forall j: nat | j < N ensures SourceIndex([1], [N], j) == 0 && SourceIndex([N], [N], j) == j {
      Size1(N);
      SourceOfSame([N], j);
    }
  }

  /** A kernel of one batch against N batches of columns. */
  lemma ProductIs(kernel: Tensor, columns: Tensor, N: pos, O: pos, C: pos, P: pos)
    requires kernel.shape == [1, O, C] && columns.shape == [N, C, P]
    ensures var r := MatMul(kernel, columns);
            && r.Some? && r.value.shape == [N, O, P]
            && forall k :: 0 <= k < |r.value.data| ==>
                 r.value.data[k] == Sum(C,
                   c => At(kernel.data, k / P % O * C + c) * At(columns.data, (k / P / O * C + c) * P + k % P))
  {
    BatchOfOne(N);
    assert kernel.shape[..1] == [1] && columns.shape[..1] == [N];
    assert [N] + [O, P] == [N, O, P];
    var r := MatMul(kernel, columns).value;
    Size3(N, O, P);
    forall k | 0 <= k < |r.data|
      ensures r.data[k] == Sum(C,
          c => At(kernel.data, k / P % O * C + c) * At(columns.data, (k / P / O * C + c) * P + k % P))
    {
      CellInside(k, N, O, P);
      assert r.data[k] == Cell(kernel, columns, [N], O, C, P, k);
      CellIs(kernel, columns, N, O, C, P, k);
    }
  }

  lemma CellInside(k: nat, N: pos, O: pos, P: pos)
    requires k < N * O * P
    ensures k / P / O < N
  {
    MulPositive(N, O);
    DivBound(k, N * O, P);
    DivBound(k / P, N, O);
  }

  lemma CellIs(kernel: Tensor, columns: Tensor, N: pos, O: pos, C: pos, P: pos, k: nat)
    requires kernel.shape == [1, O, C] && columns.shape == [N, C, P] && k / P / O < N
    requires FitsInto(kernel.shape[..1], [N]) && FitsInto(columns.shape[..1], [N])
    ensures Cell(kernel, columns, [N], O, C, P, k)
         == Sum(C, c => At(kernel.data, k / P % O * C + c) * At(columns.data, (k / P / O * C + c) * P + k % P))
  {
    BatchOfOne(N);
    assert kernel.shape[..1] == [1] && columns.shape[..1] == [N];
    var left := SourceIndex(kernel.shape[..1], [N], k / P / O) * O + k / P % O;
    var right := SourceIndex(columns.shape[..1], [N], k / P / O);
    assert left == k / P % O && right == k / P / O;
    SumEqual(C, c => At(kernel.data, left * C + c) * At(columns.data, (right * C + c) * P + k % P),
             c => At(kernel.data, k / P % O * C + c) * At(columns.data, (k / P / O * C + c) * P + k % P));
  }

  // ----- reshapes -----

  /** A reshape to explicit positive dimensions of the same size only renames the shape. */
  lemma ReshapeExact(t: Tensor, dims: Shape)
    requires Size(dims) == Size(t.shape)
    ensures Reshape(t, dims) == Some(Tensor(dims, t.data))
  {
    var known := KnownSize(t.shape, dims);
    var inferred := Size(t.shape) / known;
    assert -1 !in dims;
    assert seq(|dims|, i requires 0 <= i < |dims| =>
      if dims[i] == 0 then t.shape[i] else if dims[i] == -1 then (if inferred > 0 then inferred else 1) else dims[i])
        == dims;
  }

  lemma KnownSnoc(shape: Shape, spec: seq<int>, last: int)
    requires forall i :: 0 <= i < |spec| ==> spec[i] >= -1 && (spec[i] == 0 ==> i < |shape|)
    requires last >= -1 && (last == 0 ==> |spec| < |shape|)
    ensures KnownSize(shape, spec + [last])
         == KnownSize(shape, spec) * (if last == 0 then shape[|spec|] else if last == -1 then 1 else last)
  {
    assert (spec + [last])[..|spec|] == spec;
  }

  lemma KnownFlat(shape: Shape, C: pos)
    requires |shape| == 4
    ensures KnownSize(shape, [0, C as int, -1]) == shape[0] * C
  {
    hide KnownSize;
    KnownEmpty(shape);
    KnownSnoc(shape, [], 0);
    KnownSnoc(shape, [0], C);
    KnownSnoc(shape, [0, C as int], -1);
    assert [] + [0] == [0] && [0] + [C as int] == [0, C as int] && [0, C as int] + [-1] == [0, C as int, -1];
  }

  lemma KnownEmpty(shape: Shape)
    ensures KnownSize(shape, []) == 1
  {
  }

  /** Copy the batch, keep the channels, infer the flattened plane. */
  lemma ReshapeFlat(t: Tensor, N: pos, C: pos, OH: pos, OW: pos)
    requires t.shape == [N, C, OH, OW]
    ensures OH * OW > 0 && Reshape(t, [0, C as int, -1]) == Some(Tensor([N, C, OH * OW], t.data))
  {
    hide KnownSize, Size;
    MulPositive(OH, OW);
    var P: pos := OH * OW;
    Size4(N, C, OH, OW);
    Size3(N, C, P);
    SamePlane(N * C, OH, OW);
    KnownFlat(t.shape, C);
    MulDivExact(P, N * C);
    assert N * C * P == P * (N * C);
    FlatDims(t, N, C, P);
  }

  lemma FlatDims(t: Tensor, N: pos, C: pos, P: pos)
    requires |t.shape| == 4 && t.shape[0] == N && KnownSize(t.shape, [0, C as int, -1]) == N * C
    requires Size(t.shape) / (N * C) == P && Size(t.shape) % (N * C) == 0 && Size([N, C, P]) == Size(t.shape)
    ensures ReshapeDims(t, [0, C as int, -1]) == Some([N, C, P])
  {
    hide KnownSize, Size;
    var spec: seq<int> := [0, C as int, -1];
    var dims: Shape := [N, C, P];
    assert spec[2] == -1;
    assert seq(|spec|, i requires 0 <= i < |spec| =>
      if spec[i] == 0 then t.shape[i] else if spec[i] == -1 then (if P > 0 then P else 1) else spec[i]) == dims;
  }

  // ----- the lowering equals the convolution -----

  /** Position `k % (OH * OW)` of plane `nc` of the flattened input, in rows and columns. */
  lemma ColumnIndex(nc: nat, k: nat, H: pos, W: pos, OH: pos, OW: pos, sh: pos, sw: pos)
    ensures OH * OW > 0
    ensures SampleIndex(nc * (OH * OW) + k % (OH * OW), H, W, OH, OW, sh, sw)
         == (nc * H + k / OW % OH * sh) * W + k % OW * sw
  {
    var y, z := k / OW % OH, k % OW;
    DivDiv(k, OH, OW);
    Regroup(nc, y, z, OH, OW);
    DivMul(nc * OH + y, z, OW);
    DivMul(nc, y, OH);
  }

  lemma MapAt(q: real -> real, t: Tensor, i: int)
    requires 0 <= i < |t.data|
    ensures At(Map(q, t).data, i) == q(At(t.data, i))
  {
  }

  /** What the lowering multiplies: the kernel as one matrix, the sampled input as columns. */
  ghost predicate Operands(x: Tensor, w: Tensor, kernel: Tensor, columns: Tensor, sh: pos, sw: pos)
    requires ConvShapes(x, w, None)
  {
    var N, C, O := x.shape[0], x.shape[1], w.shape[0];
    var OH, OW := OutDim(x.shape[2], sh), OutDim(x.shape[3], sw);
    && OH * OW > 0 && kernel.shape == [1, O, C] && kernel.data == w.data
    && columns.shape == [N, C, OH * OW]
    && forall i :: 0 <= i < |columns.data| ==>
         columns.data[i] == At(x.data, SampleIndex(i, x.shape[2], x.shape[3], OH, OW, sh, sw))
  }

  lemma KernelAt(q: real -> real, x: Tensor, w: Tensor, kernel: Tensor, columns: Tensor, sh: pos, sw: pos, o: nat,
                 c: nat)
    requires ConvShapes(x, w, None) && Operands(x, w, kernel, columns, sh, sw) && o < w.shape[0] && c < x.shape[1]
    ensures At(Map(q, kernel).data, o * x.shape[1] + c) == q(At(w.data, o * x.shape[1] + c))
  {
    hide SampleIndex, Size;
    var C, O := x.shape[1], w.shape[0];
    Size3(1, O, C);
    CellBound(o, O, c, C);
    MapAt(q, kernel, o * C + c);
  }

  lemma ColumnAt(q: real -> real, x: Tensor, w: Tensor, kernel: Tensor, columns: Tensor, sh: pos, sw: pos, nc: nat,
                 p: nat)
    requires ConvShapes(x, w, None) && Operands(x, w, kernel, columns, sh, sw)
    requires nc < x.shape[0] * x.shape[1] && p < OutDim(x.shape[2], sh) * OutDim(x.shape[3], sw)
    ensures var OH, OW := OutDim(x.shape[2], sh), OutDim(x.shape[3], sw);
            At(Map(q, columns).data, nc * (OH * OW) + p)
            == q(At(x.data, SampleIndex(nc * (OH * OW) + p, x.shape[2], x.shape[3], OH, OW, sh, sw)))
  {
    hide SampleIndex, Size, OutDim;
    var N, C, P: pos := x.shape[0], x.shape[1], OutDim(x.shape[2], sh) * OutDim(x.shape[3], sw);
    Size3(N, C, P);
    MulPositive(N, C);
    CellBound(nc, N * C, p, P);
    MapAt(q, columns, nc * P + p);
  }

  lemma TermIsTap(q: real -> real, x: Tensor, w: Tensor, kernel: Tensor, columns: Tensor, sh: pos, sw: pos, n: nat,
                  o: nat, c: nat, k: nat, p: nat)
    requires ConvShapes(x, w, None) && Operands(x, w, kernel, columns, sh, sw)
    requires n < x.shape[0] && o < w.shape[0] && c < x.shape[1]
    requires var OH, OW := OutDim(x.shape[2], sh), OutDim(x.shape[3], sw); OH * OW > 0 && p == k % (OH * OW)
    ensures var C, OH, OW := x.shape[1], OutDim(x.shape[2], sh), OutDim(x.shape[3], sw);
            At(Map(q, kernel).data, o * C + c) * At(Map(q, columns).data, (n * C + c) * (OH * OW) + p)
            == TapTerm(q, x, w, sh, sw, n, o, k / OW % OH, k % OW, c)
  {
    hide Map, At, SampleIndex, OutDim, Operands;
    var C, OH, OW := x.shape[1], OutDim(x.shape[2], sh), OutDim(x.shape[3], sw);
    KernelAt(q, x, w, kernel, columns, sh, sw, o, c);
    CellBound(n, x.shape[0], c, C);
    ColumnAt(q, x, w, kernel, columns, sh, sw, n * C + c, p);
    ColumnIndex(n * C + c, k, x.shape[2], x.shape[3], OH, OW, sh, sw);
  }

  /** Each rounded product element is the convolution's sum at the same position. */
  lemma ProductIsTap(q: real -> real, x: Tensor, w: Tensor, kernel: Tensor, columns: Tensor, sh: pos, sw: pos, k: nat,
                     n: nat, o: nat, p: nat)
    requires ConvShapes(x, w, None) && Operands(x, w, kernel, columns, sh, sw)
    requires n < x.shape[0] && o < w.shape[0]
    requires var OH, OW := OutDim(x.shape[2], sh), OutDim(x.shape[3], sw); OH * OW > 0 && p == k % (OH * OW)
    ensures var OH, OW, C := OutDim(x.shape[2], sh), OutDim(x.shape[3], sw), x.shape[1];
            var P := OH * OW;
            q(Sum(C, c => At(Map(q, kernel).data, o * C + c) * At(Map(q, columns).data, (n * C + c) * P + p)))
            == Tap(q, x, w, sh, sw, n, o, k / OW % OH, k % OW)
  {
    hide Map, At, TapTerm, OutDim, Operands;
    var OH, OW, C := OutDim(x.shape[2], sh), OutDim(x.shape[3], sw), x.shape[1];
    var P := OH * OW;
    var a, b, y, z := Map(q, kernel).data, Map(q, columns).data, k / OW % OH, k % OW;
    var lowered: nat -> real := c => At(a, o * C + c) * At(b, (n * C + c) * P + p);
    var direct: nat -> real := c => TapTerm(q, x, w, sh, sw, n, o, y, z, c);
    forall c: nat | c < C ensures lowered(c) == direct(c) {
      TermIsTap(q, x, w, kernel, columns, sh, sw, n, o, c, k, p);
    }
    SumEqual(C, lowered, direct);
  }

  /** The coordinates of a flattened product position and of the output position agree. */
  lemma SamePosition(k: nat, N: pos, O: pos, OH: pos, OW: pos)
    requires OH * OW > 0 && k < N * O * (OH * OW)
    ensures var P := OH * OW;
            k / P == k / OW / OH && k / P / O < N && 0 <= k / P % O < O && k % P >= 0 && k / P / O >= 0
  {
    var P: pos := OH * OW;
    DivDiv(k, OH, OW);
    MulPositive(N, O);
    DivBound(k, N * O, P);
    DivBound(k / P, N, O);
  }

  /** The replacement, as a composition of operators. */
  function LoweredProduct(q: real -> real, x: Tensor, w: Tensor, sh: pos, sw: pos): Option<Tensor>
    requires |x.shape| == 4 && |w.shape| == 4
  {
    var sampled := Sampled(x, sh, sw);
    if sampled.None? || |sampled.value.shape| != 4 then None
    else
      var s := sampled.value;
      var columns := Reshape(s, [0, w.shape[1] as int, -1]);
      var kernel := Reshape(w, [1, w.shape[0], w.shape[1]]);
      if columns.None? || kernel.None? then None
      else
        var product := MatMul(Map(q, kernel.value), Map(q, columns.value));
        if product.None? then None
        else Reshape(Map(q, product.value), [s.shape[0], w.shape[0], s.shape[2], s.shape[3]])
  }

  function LoweredConv(q: real -> real, x: Tensor, w: Tensor, bias: Option<Tensor>, sh: pos, sw: pos): Option<Tensor>
    requires |x.shape| == 4 && |w.shape| == 4
  {
    var product := LoweredProduct(q, x, w, sh, sw);
    if product.None? || bias.None? then product
    else
      var broadcast := Reshape(bias.value, [1, w.shape[0], 1, 1]);
      if broadcast.None? then None else AddOp(product.value, broadcast.value)
  }

  lemma OperandsFit(x: Tensor, w: Tensor, sh: pos, sw: pos) returns (kernel: Tensor, columns: Tensor)
    requires ConvShapes(x, w, None)
    ensures Operands(x, w, kernel, columns, sh, sw)
    ensures Reshape(w, [1, w.shape[0], w.shape[1]]) == Some(kernel)
    ensures Sampled(x, sh, sw).Some? && Reshape(Sampled(x, sh, sw).value, [0, w.shape[1] as int, -1]) == Some(columns)
  {
    hide Sampled, Reshape, SampleIndex, Size;
    var N, C, O := x.shape[0], x.shape[1], w.shape[0];
    var OH, OW := OutDim(x.shape[2], sh), OutDim(x.shape[3], sw);
    SampledIs(x, sh, sw);
    var s := Sampled(x, sh, sw).value;
    ReshapeFlat(s, N, C, OH, OW);
    columns := Reshape(s, [0, C as int, -1]).value;
    kernel := KernelFits(w);
  }

  lemma KernelFits(w: Tensor) returns (kernel: Tensor)
    requires |w.shape| == 4 && w.shape[2] == 1 && w.shape[3] == 1
    ensures Reshape(w, [1, w.shape[0], w.shape[1]]) == Some(kernel)
    ensures kernel.shape == [1, w.shape[0], w.shape[1]] && kernel.data == w.data
  {
    var O, C := w.shape[0], w.shape[1];
    Size3(1, O, C);
    Size4(O, C, 1, 1);
    assert w.shape == [O, C, 1, 1];
    ReshapeExact(w, [1, O, C]);
    kernel := Tensor([1, O, C], w.data);
  }

  /** The rounded product, reshaped to the output, holds the convolution's sums in order. */
  lemma ReshapedProduct(q: real -> real, x: Tensor, w: Tensor, kernel: Tensor, columns: Tensor, product: Tensor,
                        sh: pos, sw: pos)
    requires ConvShapes(x, w, None) && Operands(x, w, kernel, columns, sh, sw)
    requires MatMul(Map(q, kernel), Map(q, columns)) == Some(product)
    ensures Reshape(Map(q, product), [x.shape[0], w.shape[0], OutDim(x.shape[2], sh), OutDim(x.shape[3], sw)])
         == Conv(q, x, w, None, sh, sw)
  {
    hide Tap, MatMul, Sum, Reshape, Size;
    var N, C, O := x.shape[0], x.shape[1], w.shape[0];
    var OH, OW := OutDim(x.shape[2], sh), OutDim(x.shape[3], sw);
    var P: pos := OH * OW;
    ProductIs(Map(q, kernel), Map(q, columns), N, O, C, P);
    Size3(N, O, P);
    Size4(N, O, OH, OW);
    SamePlane(N * O, OH, OW);
    var out: Shape := [N, O, OH, OW];
    ReshapeExact(Map(q, product), out);
    var direct := Conv(q, x, w, None, sh, sw).value;
    forall k | 0 <= k < Size(out) ensures Map(q, product).data[k] == direct.data[k] {
      SamePosition(k, N, O, OH, OW);
      ProductIsTap(q, x, w, kernel, columns, sh, sw, k, k / P / O, k / P % O, k % P);
    }
    assert Map(q, product).data == direct.data;
  }

  lemma SamePlane(a: int, b: int, c: int)
    ensures a * (b * c) == a * b * c
  {
  }

  lemma LoweredProductIs(q: real -> real, x: Tensor, w: Tensor, sh: pos, sw: pos)
    requires ConvShapes(x, w, None)
    ensures LoweredProduct(q, x, w, sh, sw) == Conv(q, x, w, None, sh, sw)
  {
    hide Sampled, MatMul, Reshape, Conv, SampleIndex;
    SampledIs(x, sh, sw);
    var kernel, columns := OperandsFit(x, w, sh, sw);
    ProductIs(Map(q, kernel), Map(q, columns), x.shape[0], w.shape[0], x.shape[1], columns.shape[2]);
    ReshapedProduct(q, x, w, kernel, columns, MatMul(Map(q, kernel), Map(q, columns)).value, sh, sw);
  }

  lemma BroadcastSnoc(a: Shape, b: Shape, x: pos, y: pos)
    ensures Broadcast(a + [x], b + [y])
         == if Broadcast(a, b).None? then None
            else if x == y || y == 1 then Some(Broadcast(a, b).value + [x])
            else if x == 1 then Some(Broadcast(a, b).value + [y])
            else None
  {
    assert (a + [x])[..|a|] == a && (b + [y])[..|b|] == b;
  }

  lemma SourceSnoc(s: Shape, out: Shape, d: pos, e: pos, k: nat)
    requires FitsInto(s, out) && (d == e || d == 1)
    ensures FitsInto(s + [d], out + [e])
    ensures SourceIndex(s + [d], out + [e], k) == SourceIndex(s, out, k / e) * d + (if d == 1 then 0 else k % e)
  {
    assert (s + [d])[..|s|] == s && (out + [e])[..|out|] == out;
  }

  lemma BiasBroadcast(N: pos, O: pos, OH: pos, OW: pos)
    ensures Broadcast([N, O, OH, OW], [1, O, 1, 1]) == Some([N, O, OH, OW])
  {
    hide Broadcast;
    assert Broadcast([], []) == Some([]) by { BroadcastEmpty(); }
    BroadcastSnoc([], [], N, 1);
    BroadcastSnoc([N], [1], O, O);
    BroadcastSnoc([N, O], [1, O], OH, 1);
    BroadcastSnoc([N, O, OH], [1, O, 1], OW, 1);
    assert [] + [N] == [N] && [N] + [O] == [N, O] && [N, O] + [OH] == [N, O, OH] && [N, O, OH] + [OW] == [N, O, OH, OW];
    assert [] + [1] == [1] && [1] + [O as int] == [1, O as int] && [1, O as int] + [1] == [1, O as int, 1];
    assert [1, O as int, 1] + [1] == [1, O as int, 1, 1];
  }

  lemma BroadcastEmpty()
    ensures Broadcast([], []) == Some([])
  {
  }

  lemma Quotients(k: nat, N: pos, O: pos, OH: pos, OW: pos)
    requires k < N * O * OH * OW
    ensures k / OW < N * O * OH && k / OW / OH < N * O && k / OW / OH / O < N
  {
    MulPositive(N, O);
    MulPositive(N * O, OH);
    DivBound(k, N * O * OH, OW);
    DivBound(k / OW, N * O, OH);
    DivBound(k / OW / OH, N, O);
  }

  lemma BiasSource(N: pos, O: pos, OH: pos, OW: pos, plane: nat, k: nat)
    requires plane == k / OW / OH && plane / O < N
    ensures FitsInto([1, O, 1, 1], [N, O, OH, OW]) && SourceIndex([1, O, 1, 1], [N, O, OH, OW], k) == plane % O
  {
    hide SourceIndex, FitsInto, Size;
    BatchOfOne(N);
    var b1: Shape, b2: Shape, b3: Shape := [1], [1, O], [1, O, 1];
    assert [N] + [O] == [N, O] && [N, O] + [OH] == [N, O, OH] && [N, O, OH] + [OW] == [N, O, OH, OW];
    assert b1 + [O] == b2 && b2 + [1] == b3 && b3 + [1] == [1, O, 1, 1];
    BiasChain(N, O, OH, OW, plane, k);
  }

  lemma BiasChain(N: pos, O: pos, OH: pos, OW: pos, plane: nat, k: nat)
    requires plane == k / OW / OH && FitsInto([1], [N]) && SourceIndex([1], [N], plane / O) == 0
    requires var b1: Shape, b2: Shape, b3: Shape := [1], [1, O], [1, O, 1];
             && [N] + [O] == [N, O] && [N, O] + [OH] == [N, O, OH] && [N, O, OH] + [OW] == [N, O, OH, OW]
             && b1 + [O] == b2 && b2 + [1] == b3 && b3 + [1] == [1, O, 1, 1]
    ensures FitsInto([1, O, 1, 1], [N, O, OH, OW]) && SourceIndex([1, O, 1, 1], [N, O, OH, OW], k) == plane % O
  {
    hide SourceIndex, FitsInto, Size;
    SourceSnoc([1], [N], O, O, plane);
    SourceSnoc([1, O], [N, O], 1, OH, k / OW);
    SourceSnoc([1, O, 1], [N, O, OH], 1, OW, k);
  }

  lemma PlaneBound(N: pos, O: pos, OH: pos, OW: pos, k: nat)
    requires k < Size([N, O, OH, OW])
    ensures k / OW / OH / O < N
  {
    Size4(N, O, OH, OW);
    Quotients(k, N, O, OH, OW);
  }

  /** The bias reshaped to [1, O, 1, 1] adds its channel's element at every position. */
  lemma BiasAt(bias: Tensor, N: pos, O: pos, OH: pos, OW: pos, k: nat)
    requires bias.shape == [1, O, 1, 1] && k < Size([N, O, OH, OW])
    ensures FitsInto(bias.shape, [N, O, OH, OW]) && Read(bias, [N, O, OH, OW], k) == At(bias.data, k / OW / OH % O)
  {
    hide SourceIndex, FitsInto, Size;
    PlaneBound(N, O, OH, OW, k);
    BiasSource(N, O, OH, OW, k / OW / OH, k);
    SourceInBounds(bias.shape, [N, O, OH, OW], k);
  }

  /** Main result: for every shape and stride the lowering is the convolution, element by element. */
  lemma LoweringEqualsConvolution(q: real -> real, x: Tensor, w: Tensor, bias: Option<Tensor>, sh: pos, sw: pos)
    requires ConvShapes(x, w, bias)
    ensures LoweredConv(q, x, w, bias, sh, sw) == Conv(q, x, w, bias, sh, sw)
  {
    hide LoweredProduct, Conv, AddOp, Reshape;
    LoweredProductIs(q, x, w, sh, sw);
    ConvWithoutBias(q, x, w, sh, sw);
    if bias.Some? {
      var O := w.shape[0];
      Size1(O);
      Size4(1, O, 1, 1);
      ReshapeExact(bias.value, [1, O, 1, 1]);
      AddBias(q, x, w, bias.value, Tensor([1, O, 1, 1], bias.value.data), sh, sw);
    }
  }

  lemma ConvWithoutBias(q: real -> real, x: Tensor, w: Tensor, sh: pos, sw: pos)
    requires ConvShapes(x, w, None)
    ensures Conv(q, x, w, None, sh, sw).Some?
  {
  }

  lemma AddBias(q: real -> real, x: Tensor, w: Tensor, bias: Tensor, b: Tensor, sh: pos, sw: pos)
    requires ConvShapes(x, w, Some(bias)) && b.shape == [1, w.shape[0], 1, 1] && b.data == bias.data
    ensures AddOp(Conv(q, x, w, None, sh, sw).value, b) == Conv(q, x, w, Some(bias), sh, sw)
  {
    var N, O := x.shape[0], w.shape[0];
    var OH, OW := OutDim(x.shape[2], sh), OutDim(x.shape[3], sw);
    var out: Shape := [N, O, OH, OW];
    var product, direct := Conv(q, x, w, None, sh, sw).value, Conv(q, x, w, Some(bias), sh, sw).value;
    BiasBroadcast(N, O, OH, OW);
    var sum := AddOp(product, b).value;
    FitsItself(out);
    forall k | 0 <= k < Size(out) ensures sum.data[k] == direct.data[k] {
      BiasAt(b, N, O, OH, OW, k);
      SourceOfSame(out, k);
      assert Read(product, out, k) == product.data[k];
    }
    assert sum.data == direct.data;
  }

  /** Row-major position of four coordinates, and its decomposition back into them. */
  lemma Coordinates(N: pos, O: pos, OH: pos, OW: pos, n: nat, o: nat, y: nat, z: nat)
    requires n < N && o < O && y < OH && z < OW
    ensures var k := ((n * O + o) * OH + y) * OW + z;
            && 0 <= k < N * O * OH * OW
            && k / OW / OH / O == n && k / OW / OH % O == o && k / OW % OH == y && k % OW == z
  {
    CellBound(n, N, o, O);
    var plane := n * O + o;
    CellBound(plane, N * O, y, OH);
    var row := plane * OH + y;
    CellBound(row, N * O * OH, z, OW);
    DivMul(row, z, OW);
    DivMul(plane, y, OH);
    DivMul(n, o, O);
  }

  /** The convolution read at coordinates: channel sums at the strided input position, plus the bias. */
  lemma ConvAtCoordinates(q: real -> real, x: Tensor, w: Tensor, bias: Option<Tensor>, sh: pos, sw: pos,
                          n: nat, o: nat, y: nat, z: nat)
    requires ConvShapes(x, w, bias)
    requires n < x.shape[0] && o < w.shape[0] && y < OutDim(x.shape[2], sh) && z < OutDim(x.shape[3], sw)
    ensures var r, O, OH, OW := Conv(q, x, w, bias, sh, sw), w.shape[0], OutDim(x.shape[2], sh), OutDim(x.shape[3], sw);
            && r.Some? && 0 <= ((n * O + o) * OH + y) * OW + z < |r.value.data|
            && r.value.data[((n * O + o) * OH + y) * OW + z]
               == Tap(q, x, w, sh, sw, n, o, y, z) + (if bias.Some? then At(bias.value.data, o) else 0.0)
    ensures y * sh < x.shape[2] && z * sw < x.shape[3]
  {
    hide Tap, Size;
    var N, O := x.shape[0], w.shape[0];
    var OH, OW := OutDim(x.shape[2], sh), OutDim(x.shape[3], sw);
    Size4(N, O, OH, OW);
    Coordinates(N, O, OH, OW, n, o, y, z);
    SampleInside(x.shape[2], sh, y);
    SampleInside(x.shape[3], sw, z);
  }
}
