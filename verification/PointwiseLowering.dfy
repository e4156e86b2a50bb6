/** The emitted nodes of a lowered 1x1 convolution evaluate to the convolution. */
module PointwiseLowering {
  import opened Prelude
  import opened Tensors
  import opened PointwiseConv
  import opened GraphLowering
  import opened LoweringSemantics

  lemma ConcreteSlice(sem: Semantics, x: Tensor, a: seq<int>, b: seq<int>, c: seq<int>, d: seq<int>, r: Tensor)
    requires Slice(x, a, b, c, d) == Some(r)
    ensures EvalOp(sem, SliceOp, [Some(Floats(x)), Some(Ints(a)), Some(Ints(b)), Some(Ints(c)), Some(Ints(d))])
        == Some([Floats(r)])
  {
    hide Slice;
    var ins := [Some(Floats(x)), Some(Ints(a)), Some(Ints(b)), Some(Ints(c)), Some(Ints(d))];
    assert forall i :: 1 <= i < 5 ==> IntsOf(ins[i]).Some?;
  }

  lemma ConcreteReshape(sem: Semantics, x: Tensor, dims: seq<int>, r: Tensor)
    requires Reshape(x, dims) == Some(r)
    ensures EvalOp(sem, ReshapeOp, [Some(Floats(x)), Some(Ints(dims))]) == Some([Floats(r)])
  {
    hide Reshape;
  }

  lemma SampleRuns(sem: Semantics, b: Builder, source: string, strides: (pos, pos), start: Env, env: Env, x: Tensor)
    returns (env2: Env)
    requires Runs(sem, b, start, env) && Bound(b, env, source, Floats(x))
    requires |x.shape| == 4 && x.shape[2] <= SLICE_END && x.shape[3] <= SLICE_END
    ensures Sampled(x, strides.0, strides.1).Some?
    ensures var (c, target) := Sample(b, source, strides);
            && Runs(sem, c, start, env2) && Agree(b.occupied, env, env2) && b.occupied <= c.occupied
            && Bound(c, env2, target, Floats(Sampled(x, strides.0, strides.1).value))
  {
    SampledIs(x, strides.0, strides.1);
    if strides == (1, 1) {
      env2 := env;
    } else {
      env2 := SliceRuns(sem, b, source, strides, start, env, x);
    }
  }

  lemma SliceRuns(sem: Semantics, b: Builder, source: string, strides: (pos, pos), start: Env, env: Env, x: Tensor)
    returns (env2: Env)
    requires Runs(sem, b, start, env) && Bound(b, env, source, Floats(x)) && strides != (1, 1)
    requires Slice(x, [0, 0], [SLICE_END, SLICE_END], [2, 3], [strides.0, strides.1]).Some?
    ensures var (c, target) := Sample(b, source, strides);
            && Runs(sem, c, start, env2) && Agree(b.occupied, env, env2) && b.occupied <= c.occupied
            && Bound(c, env2, target,
              Floats(Slice(x, [0, 0], [SLICE_END, SLICE_END], [2, 3], [strides.0, strides.1]).value))
  {
    hide Slice, Vector;
    var (b1, starts) := Vector(b, [0, 0]);
    var e1 := VectorRuns(sem, b, [0, 0], start, env);
    Kept(b, b1, env, e1, source, Floats(x));
    var (b2, ends) := Vector(b1, [SLICE_END, SLICE_END]);
    var e2 := VectorRuns(sem, b1, [SLICE_END, SLICE_END], start, e1);
    AgreeChain(b.occupied, b1.occupied, env, e1, e2);
    Kept(b1, b2, e1, e2, source, Floats(x));
    Kept(b1, b2, e1, e2, starts, Ints([0, 0]));
    var (b3, axes) := Vector(b2, [2, 3]);
    var e3 := VectorRuns(sem, b2, [2, 3], start, e2);
    AgreeChain(b.occupied, b2.occupied, env, e2, e3);
    Kept(b2, b3, e2, e3, source, Floats(x));
    Kept(b2, b3, e2, e3, starts, Ints([0, 0]));
    Kept(b2, b3, e2, e3, ends, Ints([SLICE_END, SLICE_END]));
    var (b4, steps) := Vector(b3, [strides.0, strides.1]);
    var e4 := VectorRuns(sem, b3, [strides.0, strides.1], start, e3);
    AgreeChain(b.occupied, b3.occupied, env, e3, e4);
    Kept(b3, b4, e3, e4, source, Floats(x));
    Kept(b3, b4, e3, e4, starts, Ints([0, 0]));
    Kept(b3, b4, e3, e4, ends, Ints([SLICE_END, SLICE_END]));
    Kept(b3, b4, e3, e4, axes, Ints([2, 3]));
    var r := Slice(x, [0, 0], [SLICE_END, SLICE_END], [2, 3], [strides.0, strides.1]).value;
    ConcreteSlice(sem, x, [0, 0], [SLICE_END, SLICE_END], [2, 3], [strides.0, strides.1], r);
    LookupFive(e4, source, starts, ends, axes, steps);
    env2 := FreshRuns(sem, b4, SliceOp, [source, starts, ends, axes, steps], "", start, e4, Floats(r));
    AgreeChain(b.occupied, b4.occupied, env, e4, env2);
  }

  lemma LookupFive(env: Env, a: string, b: string, c: string, d: string, e: string)
    ensures LookupAll(env, [a, b, c, d, e])
        == [Lookup(env, a), Lookup(env, b), Lookup(env, c), Lookup(env, d), Lookup(env, e)]
  {
  }

  lemma LookupThree(env: Env, a: string, b: string, c: string)
    ensures LookupAll(env, [a, b, c]) == [Lookup(env, a), Lookup(env, b), Lookup(env, c)]
  {
  }

  lemma ReshapedRuns(sem: Semantics, b: Builder, source: string, dims: seq<int>, start: Env, env: Env, t: Tensor,
                     r: Tensor) returns (env2: Env)
    requires Runs(sem, b, start, env) && Bound(b, env, source, Floats(t)) && Reshape(t, dims) == Some(r)
    ensures var (c, target) := Reshaped(b, source, dims);
            && Runs(sem, c, start, env2) && Agree(b.occupied, env, env2) && b.occupied <= c.occupied
            && Bound(c, env2, target, Floats(r))
  {
    hide Reshape, Vector;
    var (b1, shape) := Vector(b, dims);
    var e1 := VectorRuns(sem, b, dims, start, env);
    Kept(b, b1, env, e1, source, Floats(t));
    ConcreteReshape(sem, t, dims, r);
    LookupTwo(e1, source, shape);
    env2 := FreshRuns(sem, b1, ReshapeOp, [source, shape], "", start, e1, Floats(r));
    AgreeChain(b.occupied, b1.occupied, env, e1, env2);
  }

  lemma GatherRuns(sem: Semantics, b: Builder, shape: string, indexes: seq<int>, dims: seq<int>, picked: seq<int>,
                   start: Env, env: Env)
    returns (env2: Env)
    requires Runs(sem, b, start, env) && Bound(b, env, shape, Ints(dims)) && Pick(dims, indexes) == Some(picked)
    ensures var (b1, at) := Vector(b, indexes); var (c, target) := Emit(b1, GatherOp, [shape, at], None, "");
            && Runs(sem, c, start, env2) && Agree(b.occupied, env, env2) && b.occupied <= c.occupied
            && Bound(c, env2, target, Ints(picked))
  {
    var (b1, at) := Vector(b, indexes);
    var e1 := VectorRuns(sem, b, indexes, start, env);
    Kept(b, b1, env, e1, shape, Ints(dims));
    LookupTwo(e1, shape, at);
    env2 := FreshRuns(sem, b1, GatherOp, [shape, at], "", start, e1, Ints(picked));
    AgreeChain(b.occupied, b1.occupied, env, e1, env2);
  }

  lemma PickShape(N: int, C: int, H: int, W: int)
    ensures Pick([N, C, H, W], [0]) == Some([N]) && Pick([N, C, H, W], [2, 3]) == Some([H, W])
  {
    var data, batch, plane := [N, C, H, W], [0], [2, 3];
    assert seq(1, i requires 0 <= i < 1 => data[batch[i]]) == [N];
    assert forall i :: 0 <= i < |plane| ==> 0 <= plane[i] < |data|;
    assert Pick(data, plane).value == [H, W];
    assert Pick(data, batch).value == [N];
  }

  lemma JoinThree(a: seq<int>, b: seq<int>, c: seq<int>)
    ensures JoinInts([Some(Ints(a)), Some(Ints(b)), Some(Ints(c))]) == Some(a + b + c)
  {
    var one, two := [Some(Ints(a))], [Some(Ints(a)), Some(Ints(b))];
    var three := [Some(Ints(a)), Some(Ints(b)), Some(Ints(c))];
    assert three[..2] == two && two[..1] == one && one[..0] == [];
    assert JoinInts(one) == Some([] + a);
    assert [] + a == a;
  }

  /** The runtime output shape: the sampled batch and plane around the new channel count. */
  lemma OutputShapeRuns(sem: Semantics, b: Builder, shape: string, channels: pos, N: int, C: int, H: int, W: int,
                        start: Env, env: Env)
    returns (env2: Env)
    requires Runs(sem, b, start, env) && Bound(b, env, shape, Ints([N, C, H, W]))
    ensures var (c, target) := OutputShape(b, shape, channels);
            && Runs(sem, c, start, env2) && Agree(b.occupied, env, env2) && b.occupied <= c.occupied
            && Bound(c, env2, target, Ints([N, channels, H, W]))
  {
    hide Vector, Pick, JoinInts, Runs, Agree, Emit;
    var dims := [N, C, H, W];
    PickShape(N, C, H, W);
    var (b1, zero) := Vector(b, [0]);
    var (b2, batch) := Emit(b1, GatherOp, [shape, zero], None, "");
    var e2 := GatherRuns(sem, b, shape, [0], dims, [N], start, env);
    Kept(b, b2, env, e2, shape, Ints(dims));
    var (b3, axes) := Vector(b2, [2, 3]);
    var (b4, spatial) := Emit(b3, GatherOp, [shape, axes], None, "");
    var e4 := GatherRuns(sem, b2, shape, [2, 3], dims, [H, W], start, e2);
    AgreeChain(b.occupied, b2.occupied, env, e2, e4);
    Kept(b2, b4, e2, e4, batch, Ints([N]));
    var (b5, channel) := Vector(b4, [channels]);
    var e5 := VectorRuns(sem, b4, [channels], start, e4);
    AgreeChain(b.occupied, b4.occupied, env, e4, e5);
    Kept(b4, b5, e4, e5, batch, Ints([N]));
    Kept(b4, b5, e4, e5, spatial, Ints([H, W]));
    JoinThree([N], [channels], [H, W]);
    LookupThree(e5, batch, channel, spatial);
    assert [N] + [channels as int] + [H, W] == [N, channels as int, H, W];
    env2 := FreshRuns(sem, b5, ConcatOp, [batch, channel, spatial], "", start, e5, Ints([N, channels, H, W]));
    AgreeChain(b.occupied, b5.occupied, env, e5, env2);
  }

  lemma PointwiseProductRuns(sem: Semantics, b: Builder, node: Node, strides: (pos, pos), start: Env, env: Env,
                             x: Tensor, w: Tensor)
    returns (env2: Env, p: Tensor)
    requires |node.inputs| >= 2 && ConvShapes(x, w, None) && Runs(sem, b, start, env)
    requires Bound(b, env, node.inputs[0], Floats(x)) && Bound(b, env, node.inputs[1], Floats(w))
    ensures var (c, shape, product) := PointwiseProduct(b, node, w.shape, strides);
            var out := [x.shape[0], w.shape[0], OutDim(x.shape[2], strides.0), OutDim(x.shape[3], strides.1)];
            && Runs(sem, c, start, env2) && Agree(b.occupied, env, env2) && b.occupied <= c.occupied
            && Bound(c, env2, shape, Ints([x.shape[0], x.shape[1], out[2], out[3]]))
            && Bound(c, env2, product, Floats(p))
            && Reshape(p, out) == Conv(sem.q, x, w, None, strides.0, strides.1)
  {
    hide Sample, Sampled, Reshaped, Product, Conv, Reshape, MatMul, SampleIndex, Operands;
    var N, C, O := x.shape[0], x.shape[1], w.shape[0];
    var OH, OW := OutDim(x.shape[2], strides.0), OutDim(x.shape[3], strides.1);
    var kernel, columns := OperandsFit(x, w, strides.0, strides.1);
    var (b1, source) := Sample(b, node.inputs[0], strides);
    var e1 := SampleRuns(sem, b, node.inputs[0], strides, start, env, x);
    SampledIs(x, strides.0, strides.1);
    var s := Sampled(x, strides.0, strides.1).value;
    Kept(b, b1, env, e1, node.inputs[1], Floats(w));
    var (b2, shape) := Emit(b1, ShapeOp, [source], None, "");
    LookupOne(e1, source);
    var e2 := FreshRuns(sem, b1, ShapeOp, [source], "", start, e1, Ints(s.shape));
    AgreeChain(b.occupied, b1.occupied, env, e1, e2);
    Kept(b1, b2, e1, e2, source, Floats(s));
    Kept(b1, b2, e1, e2, node.inputs[1], Floats(w));
    var (b3, flattened) := Reshaped(b2, source, [0, w.shape[1] as int, -1]);
    var e3 := ReshapedRuns(sem, b2, source, [0, w.shape[1] as int, -1], start, e2, s, columns);
    AgreeChain(b.occupied, b2.occupied, env, e2, e3);
    Kept(b2, b3, e2, e3, node.inputs[1], Floats(w));
    Kept(b2, b3, e2, e3, shape, Ints(s.shape));
    var (b4, kernelName) := Reshaped(b3, node.inputs[1], [1, w.shape[0], w.shape[1]]);
    var e4 := ReshapedRuns(sem, b3, node.inputs[1], [1, w.shape[0], w.shape[1]], start, e3, w, kernel);
    AgreeChain(b.occupied, b3.occupied, env, e3, e4);
    Kept(b3, b4, e3, e4, shape, Ints(s.shape));
    Kept(b3, b4, e3, e4, flattened, Floats(columns));
    var product := OperandsMultiply(sem.q, x, w, kernel, columns, strides.0, strides.1);
    ConcreteMatMul(sem, Map(sem.q, kernel), Map(sem.q, columns), product);
    env2 := ProductRuns(sem, b4, kernelName, flattened, node.name, start, e4, kernel, columns, product);
    AgreeChain(b.occupied, b4.occupied, env, e4, env2);
    Kept(b4, Product(b4, kernelName, flattened, node.name).0, e4, env2, shape, Ints(s.shape));
    p := Map(sem.q, product);
  }

  lemma OperandsMultiply(q: real -> real, x: Tensor, w: Tensor, kernel: Tensor, columns: Tensor, sh: pos, sw: pos)
    returns (p: Tensor)
    requires ConvShapes(x, w, None) && Operands(x, w, kernel, columns, sh, sw)
    ensures MatMul(Map(q, kernel), Map(q, columns)) == Some(p)
    ensures Reshape(Map(q, p), [x.shape[0], w.shape[0], OutDim(x.shape[2], sh), OutDim(x.shape[3], sw)])
        == Conv(q, x, w, None, sh, sw)
  {
    hide MatMul, Reshape, Conv, SampleIndex;
    ProductIs(Map(q, kernel), Map(q, columns), x.shape[0], w.shape[0], x.shape[1], columns.shape[2]);
    p := MatMul(Map(q, kernel), Map(q, columns)).value;
    ReshapedProduct(q, x, w, kernel, columns, p, sh, sw);
  }

  lemma BiasReshapes(bias: Tensor, O: pos) returns (r: Tensor)
    requires bias.shape == [O]
    ensures Reshape(bias, [1, O, 1, 1]) == Some(r) && r.shape == [1, O, 1, 1] && r.data == bias.data
  {
    Size1(O);
    Size4(1, O, 1, 1);
    ReshapeExact(bias, [1, O, 1, 1]);
    r := Tensor([1, O, 1, 1], bias.data);
  }

  /** A lowered 1x1 convolution holds its definition's value, with or without a bias. */
  lemma PointwiseRuns(sem: Semantics, b: Builder, node: Node, strides: (pos, pos), start: Env, env: Env,
                      x: Tensor, w: Tensor, bias: Option<Tensor>, v: Tensor) returns (env2: Env)
    requires |node.inputs| >= 2 && |node.outputs| >= 1 && |w.shape| == 4 && Runs(sem, b, start, env)
    requires Bound(b, env, node.inputs[0], Floats(x)) && Bound(b, env, node.inputs[1], Floats(w))
    requires bias.None? ==> BiasName(node) == ""
    requires bias.Some? ==> Bound(b, env, BiasName(node), Floats(bias.value))
    requires Conv(sem.q, x, w, bias, strides.0, strides.1) == Some(v)
    ensures Lowered(sem, b, LowerPointwise(b, node, w.shape, strides), start, env, env2, node.outputs[0], Floats(v))
  {
    hide PointwiseProduct, Conv, Reshape, OutputShape, Reshaped;
    assert ConvShapes(x, w, bias) by { ConvNeedsShapes(sem.q, x, w, bias, strides.0, strides.1); }
    var N, C, O := x.shape[0], x.shape[1], w.shape[0];
    var OH, OW := OutDim(x.shape[2], strides.0), OutDim(x.shape[3], strides.1);
    var (b5, shape, product) := PointwiseProduct(b, node, w.shape, strides);
    var env5, p := PointwiseProductRuns(sem, b, node, strides, start, env, x, w);
    var (b6, outputShape) := OutputShape(b5, shape, O);
    var env6 := OutputShapeRuns(sem, b5, shape, O, N, C, OH, OW, start, env5);
    AgreeChain(b.occupied, b5.occupied, env, env5, env6);
    Kept(b5, b6, env5, env6, product, Floats(p));
    ConvWithoutBias(sem.q, x, w, strides.0, strides.1);
    var plain := Conv(sem.q, x, w, None, strides.0, strides.1).value;
    ConcreteReshape(sem, p, [N, O, OH, OW], plain);
    LookupTwo(env6, product, outputShape);
    if bias.None? {
      env2 := FinalRuns(sem, b, b6, ReshapeOp, [product, outputShape], node.outputs[0], start, env, env6,
        Floats(plain));
    } else {
      Kept(b, b6, env, env6, BiasName(node), Floats(bias.value));
      var (b7, output) := Emit(b6, ReshapeOp, [product, outputShape], None, "");
      var env7 := FreshRuns(sem, b6, ReshapeOp, [product, outputShape], "", start, env6, Floats(plain));
      AgreeChain(b.occupied, b6.occupied, env, env6, env7);
      Kept(b6, b7, env6, env7, BiasName(node), Floats(bias.value));
      var r := BiasReshapes(bias.value, O);
      var (b8, broadcast) := Reshaped(b7, BiasName(node), [1, O, 1, 1]);
      var env8 := ReshapedRuns(sem, b7, BiasName(node), [1, O, 1, 1], start, env7, bias.value, r);
      AgreeChain(b.occupied, b7.occupied, env, env7, env8);
      Kept(b7, b8, env7, env8, output, Floats(plain));
      AddBias(sem.q, x, w, bias.value, r, strides.0, strides.1);
      ConcreteAdd(sem, plain, r, v);
      LookupTwo(env8, output, broadcast);
      env2 := FinalRuns(sem, b, b8, SumOp, [output, broadcast], node.outputs[0], start, env, env8, Floats(v));
    }
  }

  lemma ConvNeedsShapes(q: real -> real, x: Tensor, w: Tensor, bias: Option<Tensor>, sh: pos, sw: pos)
    requires Conv(q, x, w, bias, sh, sw).Some?
    ensures ConvShapes(x, w, bias)
  {
  }
}
