/** The general matrix product equals its lowering to Transpose, MatMul, Mul and Add. */
module GemmLowering {
  import opened Prelude
  import opened Tensors
  import opened PointwiseConv
  import opened GraphLowering
  import opened LoweringSemantics

  function MaybeTransposed(t: Tensor, transpose: bool): Tensor
    requires |t.shape| == 2
  {
    if transpose then Transpose(t).value else t
  }

  lemma TransposeAt(t: Tensor, i: nat, j: nat)
    requires |t.shape| == 2 && i < t.shape[1] && j < t.shape[0]
    ensures var r := Transpose(t).value;
            r.shape == [t.shape[1], t.shape[0]] && At(r.data, i * t.shape[0] + j) == At(t.data, j * t.shape[1] + i)
  {
    var rows, columns := t.shape[0], t.shape[1];
    Size2([columns, rows]);
    CellBound(i, columns, j, rows);
    DivMul(i, j, rows);
  }

  /** The stored shape of a matrix that is transposed on use. */
  predicate Stored(t: Tensor, transpose: bool, rows: pos, columns: pos) {
    t.shape == (if transpose then [columns, rows] else [rows, columns])
  }

  /** An element of an operand after its optional transposition and rounding. */
  lemma OperandElement(q: real -> real, t: Tensor, transpose: bool, rows: pos, columns: pos, i: nat, j: nat)
    requires Stored(t, transpose, rows, columns) && i < rows && j < columns
    ensures At(Map(q, MaybeTransposed(t, transpose)).data, i * columns + j)
         == q(At(t.data, if transpose then j * rows + i else i * columns + j))
  {
    hide Transpose;
    var r := MaybeTransposed(t, transpose);
    TransposedShape(t, transpose, rows, columns);
    Size2(r.shape);
    CellBound(i, rows, j, columns);
    MapAt(q, r, i * columns + j);
    if transpose { TransposeAt(t, i, j); }
  }

  lemma TransposedShape(t: Tensor, transpose: bool, rows: pos, columns: pos)
    requires Stored(t, transpose, rows, columns)
    ensures MaybeTransposed(t, transpose).shape == [rows, columns]
  {
  }

  /** An unbatched product, element by element. */
  lemma MatMul2(x: Tensor, y: Tensor, M: pos, K: pos, N: pos)
    requires x.shape == [M, K] && y.shape == [K, N]
    ensures var r := MatMul(x, y);
            && r.Some? && r.value.shape == [M, N]
            && forall k :: 0 <= k < |r.value.data| ==>
                 r.value.data[k] == Sum(K, c => At(x.data, k / N * K + c) * At(y.data, c * N + k % N))
  {
    assert x.shape[..0] == [] && y.shape[..0] == [];
    assert Broadcast([], []) == Some([]);
    assert [] + [M, N] == [M, N];
    Size2([M, N]);
    var r := MatMul(x, y).value;
    forall k | 0 <= k < |r.data|
      ensures r.data[k] == Sum(K, c => At(x.data, k / N * K + c) * At(y.data, c * N + k % N))
    {
      assert r.data[k] == Cell(x, y, [], M, K, N, k);
      DivBound(k, M, N);
      Cell2(x, y, M, K, N, k);
    }
  }

  lemma Cell2(x: Tensor, y: Tensor, M: pos, K: pos, N: pos, k: nat)
    requires |x.shape| == |y.shape| == 2 && k / N < M
    ensures Cell(x, y, [], M, K, N, k) == Sum(K, c => At(x.data, k / N * K + c) * At(y.data, c * N + k % N))
  {
    var left := SourceIndex(x.shape[..0], [], k / N / M) * M + k / N % M;
    var right := SourceIndex(y.shape[..0], [], k / N / M);
    assert left == k / N && right == 0;
    var general: nat -> real := c => At(x.data, left * K + c) * At(y.data, (right * K + c) * N + k % N);
    var plain: nat -> real := c => At(x.data, k / N * K + c) * At(y.data, c * N + k % N);
    SumEqual(K, general, plain);
  }

  lemma TermIs(q: real -> real, a: Tensor, b: Tensor, transA: bool, transB: bool, M: pos, K: pos, N: pos, i: nat,
               j: nat, c: nat)
    requires Stored(a, transA, M, K) && Stored(b, transB, K, N) && i < M && j < N && c < K
    ensures At(Map(q, MaybeTransposed(a, transA)).data, i * K + c)
            * At(Map(q, MaybeTransposed(b, transB)).data, c * N + j)
         == GemmTerm(q, a, b, transA, transB, M, K, N, i, j, c)
  {
    hide MaybeTransposed, Map, At;
    OperandElement(q, a, transA, M, K, i, c);
    OperandElement(q, b, transB, K, N, c, j);
  }

  /** The product the lowering computes, rounded, against the definition's sums. */
  lemma GemmProductIs(q: real -> real, a: Tensor, b: Tensor, transA: bool, transB: bool, M: pos, K: pos, N: pos, i: nat,
                      j: nat)
    requires Stored(a, transA, M, K) && Stored(b, transB, K, N) && i < M && j < N
    ensures q(Sum(K, c => At(Map(q, MaybeTransposed(a, transA)).data, i * K + c)
                          * At(Map(q, MaybeTransposed(b, transB)).data, c * N + j)))
         == GemmProduct(q, a, b, transA, transB, M, K, N, i, j)
  {
    hide MaybeTransposed, Map, At, GemmTerm;
    var x, y := Map(q, MaybeTransposed(a, transA)), Map(q, MaybeTransposed(b, transB));
    var lowered: nat -> real := c => At(x.data, i * K + c) * At(y.data, c * N + j);
    var direct: nat -> real := c => GemmTerm(q, a, b, transA, transB, M, K, N, i, j, c);
    forall c: nat | c < K ensures lowered(c) == direct(c) {
      TermIs(q, a, b, transA, transB, M, K, N, i, j, c);
    }
    SumEqual(K, lowered, direct);
  }

  lemma {:induction false} FitsBroadcast(s: Shape, out: Shape)
    requires FitsInto(s, out)
    ensures Broadcast(out, s) == Some(out)
  {
    if s == [] {
    } else {
      FitsBroadcast(s[..|s| - 1], out[..|out| - 1]);
      assert out[..|out| - 1] + [out[|out| - 1]] == out;
    }
  }

  lemma GemmShapes(q: real -> real, a: Tensor, b: Tensor, bias: Option<Tensor>, transA: bool, transB: bool, alpha: real,
                   beta: real)
    returns (M: pos, K: pos, N: pos)
    requires Gemm(q, a, b, bias, transA, transB, alpha, beta).Some?
    ensures Stored(a, transA, M, K) && Stored(b, transB, K, N)
    ensures bias.Some? ==> FitsInto(bias.value.shape, [M, N])
  {
    M, K := if transA then a.shape[1] else a.shape[0], if transA then a.shape[0] else a.shape[1];
    N := if transB then b.shape[0] else b.shape[1];
  }

  lemma GemmIsSized(q: real -> real, a: Tensor, b: Tensor, bias: Option<Tensor>, transA: bool, transB: bool,
                    alpha: real, beta: real,
                    M: pos, K: pos, N: pos)
    requires Stored(a, transA, M, K) && Stored(b, transB, K, N) && (bias.Some? ==> FitsInto(bias.value.shape, [M, N]))
    ensures Gemm(q, a, b, bias, transA, transB, alpha, beta)
        == Some(GemmSized(q, a, b, bias, transA, transB, alpha, beta, M, K, N))
  {
    hide GemmSized, FitsInto;
  }

  /** The definition at known shapes, one element at a time. */
  lemma GemmAt(q: real -> real, a: Tensor, b: Tensor, bias: Option<Tensor>, transA: bool, transB: bool, alpha: real,
               beta: real,
               M: pos, K: pos, N: pos)
    requires Stored(a, transA, M, K) && Stored(b, transB, K, N) && (bias.Some? ==> FitsInto(bias.value.shape, [M, N]))
    ensures var r := Gemm(q, a, b, bias, transA, transB, alpha, beta);
            && r.Some? && r.value.shape == [M, N]
            && forall k :: 0 <= k < |r.value.data| ==>
                 r.value.data[k] == alpha * GemmProduct(q, a, b, transA, transB, M, K, N, k / N, k % N)
                                    + (if bias.Some? then beta * Read(bias.value, [M, N], k) else 0.0)
  {
    hide Gemm, GemmProduct, Read, Size, FitsInto, Stored;
    GemmIsSized(q, a, b, bias, transA, transB, alpha, beta, M, K, N);
  }

  /** The scaled and rounded product of the optionally transposed operands is the bias-free definition. */
  lemma ScaledProductIs(q: real -> real, a: Tensor, b: Tensor, transA: bool, transB: bool, alpha: real)
    returns (p: Tensor)
    requires Gemm(q, a, b, None, transA, transB, alpha, 1.0).Some?
    ensures MatMul(Map(q, MaybeTransposed(a, transA)), Map(q, MaybeTransposed(b, transB))) == Some(p)
    ensures Some(Times(Map(q, p), alpha)) == Gemm(q, a, b, None, transA, transB, alpha, 1.0)
  {
    hide Gemm, MatMul, MaybeTransposed, GemmProduct, Sum;
    var M, K, N := GemmShapes(q, a, b, None, transA, transB, alpha, 1.0);
    TransposedShape(a, transA, M, K);
    TransposedShape(b, transB, K, N);
    var x, y := Map(q, MaybeTransposed(a, transA)), Map(q, MaybeTransposed(b, transB));
    MatMul2(x, y, M, K, N);
    p := MatMul(x, y).value;
    GemmAt(q, a, b, None, transA, transB, alpha, 1.0, M, K, N);
    var r := Gemm(q, a, b, None, transA, transB, alpha, 1.0).value;
    Size2([M, N]);
    forall k | 0 <= k < |p.data| ensures Times(Map(q, p), alpha).data[k] == r.data[k] {
      DivBound(k, M, N);
      GemmProductIs(q, a, b, transA, transB, M, K, N, k / N, k % N);
    }
    assert Times(Map(q, p), alpha).data == r.data;
  }

  lemma GemmBias(q: real -> real, a: Tensor, b: Tensor, bias: Tensor, transA: bool, transB: bool, alpha: real,
                 beta: real)
    requires Gemm(q, a, b, Some(bias), transA, transB, alpha, beta).Some?
    ensures Gemm(q, a, b, None, transA, transB, alpha, 1.0).Some?
    ensures AddOp(Gemm(q, a, b, None, transA, transB, alpha, 1.0).value, Times(bias, beta))
         == Gemm(q, a, b, Some(bias), transA, transB, alpha, beta)
  {
    hide Gemm, GemmProduct;
    var M, K, N := GemmShapes(q, a, b, Some(bias), transA, transB, alpha, beta);
    GemmAt(q, a, b, None, transA, transB, alpha, 1.0, M, K, N);
    GemmAt(q, a, b, Some(bias), transA, transB, alpha, beta, M, K, N);
    var plain, full := Gemm(q, a, b, None, transA, transB, alpha, 1.0).value,
      Gemm(q, a, b, Some(bias), transA, transB, alpha, beta).value;
    AddScaledBias(plain, bias, beta, full);
  }

  lemma AddAt(a: Tensor, b: Tensor, out: Shape)
    requires Broadcast(a.shape, b.shape) == Some(out) && FitsInto(a.shape, out) && FitsInto(b.shape, out)
    ensures var r := AddOp(a, b);
            && r.Some? && r.value.shape == out
            && forall k :: 0 <= k < |r.value.data| ==> r.value.data[k] == Read(a, out, k) + Read(b, out, k)
  {
    hide Read, Size, FitsInto, Broadcast;
  }

  lemma ReadScaled(t: Tensor, factor: real, out: Shape, k: nat)
    requires FitsInto(t.shape, out) && k < Size(out)
    ensures Read(Times(t, factor), out, k) == factor * Read(t, out, k)
  {
    hide SourceIndex, Size, FitsInto;
    SourceInBounds(t.shape, out, k);
  }

  lemma ReadSame(t: Tensor, k: nat)
    requires k < |t.data|
    ensures FitsInto(t.shape, t.shape) && Read(t, t.shape, k) == t.data[k]
  {
    FitsItself(t.shape);
    SourceOfSame(t.shape, k);
  }

  lemma AddScaledBias(plain: Tensor, bias: Tensor, beta: real, full: Tensor)
    requires plain.shape == full.shape && FitsInto(bias.shape, full.shape)
    requires forall k :: 0 <= k < |full.data| ==> full.data[k] == plain.data[k] + beta * Read(bias, full.shape, k)
    ensures AddOp(plain, Times(bias, beta)) == Some(full)
  {
    hide Read, Size, FitsInto, Broadcast, AddOp;
    var out, scaled := full.shape, Times(bias, beta);
    FitsBroadcast(bias.shape, out);
    FitsItself(out);
    AddAt(plain, scaled, out);
    var r := AddOp(plain, scaled).value;
    forall k | 0 <= k < |r.data| ensures r.data[k] == full.data[k] {
      ReadSame(plain, k);
      ReadScaled(bias, beta, out, k);
    }
    assert r.data == full.data;
  }

  lemma GemmScaledRuns(sem: Semantics, b: Builder, node: Node, start: Env, env: Env, x: Tensor, y: Tensor)
    returns (env2: Env)
    requires node.op.GemmOp? && |node.inputs| >= 2 && Runs(sem, b, start, env)
    requires Bound(b, env, node.inputs[0], Floats(x)) && Bound(b, env, node.inputs[1], Floats(y))
    requires Gemm(sem.q, x, y, None, node.op.transA, node.op.transB, node.op.alpha, 1.0).Some?
    ensures var (c, target) := GemmScaled(b, node);
            && Runs(sem, c, start, env2) && Agree(b.occupied, env, env2) && b.occupied <= c.occupied
            && Bound(c, env2, target,
              Floats(Gemm(sem.q, x, y, None, node.op.transA, node.op.transB, node.op.alpha, 1.0).value))
  {
    hide Gemm, MatMul, Transpose, Times, Map;
    var op := node.op;
    GemmRanks(sem.q, x, y, op.transA, op.transB, op.alpha);
    var p := ScaledProductIs(sem.q, x, y, op.transA, op.transB, op.alpha);
    var (b1, left) := Transposed(b, node.inputs[0], op.transA);
    var env1 := TransposedRuns(sem, b, node.inputs[0], op.transA, start, env, x);
    Kept(b, b1, env, env1, node.inputs[1], Floats(y));
    var (b2, right) := Transposed(b1, node.inputs[1], op.transB);
    var e2 := TransposedRuns(sem, b1, node.inputs[1], op.transB, start, env1, y);
    Kept(b1, b2, env1, e2, left, Floats(MaybeTransposed(x, op.transA)));
    var (b3, product) := Product(b2, left, right, node.name);
    ConcreteMatMul(sem, Map(sem.q, MaybeTransposed(x, op.transA)), Map(sem.q, MaybeTransposed(y, op.transB)), p);
    var e3 := ProductRuns(sem, b2, left, right, node.name, start, e2,
                          MaybeTransposed(x, op.transA), MaybeTransposed(y, op.transB), p);
    env2 := ScaledRuns(sem, b3, product, op.alpha, start, e3, Map(sem.q, p));
    AgreeChain(b.occupied, b1.occupied, env, env1, e2);
    AgreeChain(b.occupied, b2.occupied, env, e2, e3);
    AgreeChain(b.occupied, b3.occupied, env, e3, env2);
  }

  lemma GemmRanks(q: real -> real, x: Tensor, y: Tensor, transA: bool, transB: bool, alpha: real)
    requires Gemm(q, x, y, None, transA, transB, alpha, 1.0).Some?
    ensures |x.shape| == 2 && |y.shape| == 2
  {
  }

  lemma GemmWithoutBias(q: real -> real, x: Tensor, y: Tensor, transA: bool, transB: bool, alpha: real, beta: real)
    requires Gemm(q, x, y, None, transA, transB, alpha, beta).Some?
    ensures Gemm(q, x, y, None, transA, transB, alpha, beta) == Gemm(q, x, y, None, transA, transB, alpha, 1.0)
  {
    hide Gemm, GemmProduct;
    var M, K, N := GemmShapes(q, x, y, None, transA, transB, alpha, beta);
    GemmAt(q, x, y, None, transA, transB, alpha, beta, M, K, N);
    GemmAt(q, x, y, None, transA, transB, alpha, 1.0, M, K, N);
    assert Gemm(q, x, y, None, transA, transB, alpha, beta).value.data
      == Gemm(q, x, y, None, transA, transB, alpha, 1.0).value.data;
  }

  /** A lowered general product holds its definition's value, with or without a bias. */
  lemma GemmRuns(sem: Semantics, b: Builder, node: Node, start: Env, env: Env, x: Tensor, y: Tensor,
                 bias: Option<Tensor>, v: Tensor)
    returns (env2: Env)
    requires node.op.GemmOp? && |node.inputs| >= 2 && |node.outputs| >= 1 && Runs(sem, b, start, env)
    requires Bound(b, env, node.inputs[0], Floats(x)) && Bound(b, env, node.inputs[1], Floats(y))
    requires bias.None? ==> BiasName(node) == ""
    requires bias.Some? ==> Bound(b, env, BiasName(node), Floats(bias.value))
    requires Gemm(sem.q, x, y, bias, node.op.transA, node.op.transB, node.op.alpha, node.op.beta) == Some(v)
    ensures Lowered(sem, b, LowerGemm(b, node), start, env, env2, node.outputs[0], Floats(v))
  {
    hide Gemm, GemmScaled, Times, AddOp, Scaled;
    var op := node.op;
    if bias.Some? {
      GemmBias(sem.q, x, y, bias.value, op.transA, op.transB, op.alpha, op.beta);
    } else {
      GemmWithoutBias(sem.q, x, y, op.transA, op.transB, op.alpha, op.beta);
    }
    var plain := Gemm(sem.q, x, y, None, op.transA, op.transB, op.alpha, 1.0).value;
    var (b4, scaled) := GemmScaled(b, node);
    var env4 := GemmScaledRuns(sem, b, node, start, env, x, y);
    if bias.None? {
      LookupOne(env4, scaled);
      env2 := FinalRuns(sem, b, b4, IdentityOp, [scaled], node.outputs[0], start, env, env4, Floats(v));
    } else {
      Kept(b, b4, env, env4, BiasName(node), Floats(bias.value));
      var (b5, factor) := Scaled(b4, BiasName(node), op.beta);
      var env5 := ScaledRuns(sem, b4, BiasName(node), op.beta, start, env4, bias.value);
      Kept(b4, b5, env4, env5, scaled, Floats(plain));
      AgreeChain(b.occupied, b4.occupied, env, env4, env5);
      LookupTwo(env5, scaled, factor);
      ConcreteAdd(sem, plain, Times(bias.value, op.beta), v);
      env2 := FinalRuns(sem, b, b5, SumOp, [scaled, factor], node.outputs[0], start, env, env5, Floats(v));
    }
  }
}
