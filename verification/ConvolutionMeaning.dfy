/** What a lowered convolution computes, read off the node's own attributes and operands. */
module ConvolutionMeaning {
  import opened Prelude
  import opened Tensors
  import opened PointwiseConv
  import opened GraphLowering
  import opened LoweringSemantics
  import opened LoweringTheorem
  import opened LoweringStructure

  // ----- one node -----

  /**
   * The element for batch `n`, channel `o`, row `y` and column `z`: the rounded channel sum over the input at `y` times
   * the first stride and `z` times the second, plus the channel's bias.
   */
  ghost predicate HoldsAt(q: real -> real, strides: seq<int>, x: Tensor, w: Tensor, bias: Option<Tensor>, t: Tensor,
                          n: nat, o: nat, y: nat, z: nat)
    requires |strides| == 2 && |x.shape| == 4 && |t.shape| == 4
  {
    var C, H, W := x.shape[1], x.shape[2], x.shape[3];
    var row, column := y * strides[0], z * strides[1];
    var k := ((n * t.shape[1] + o) * t.shape[2] + y) * t.shape[3] + z;
    && 0 <= k < |t.data| && row < H && column < W
    && t.data[k] == q(Sum(C, c => q(At(w.data, o * C + c)) * q(At(x.data, ((n * C + c) * H + row) * W + column))))
                    + (if bias.Some? then At(bias.value.data, o) else 0.0)
  }

  /** `t` is the strided 1x1 convolution of `x` with the kernel `w`, operands and sums rounded, the bias exact. */
  ghost predicate IsConvolution(q: real -> real, attrs: ConvAttrs, x: Tensor, w: Tensor, bias: Option<Tensor>,
                                t: Tensor)
    requires Supported(attrs, w.shape) && |x.shape| == 4
  {
    && t.shape == [x.shape[0], w.shape[0], OutDim(x.shape[2], attrs.strides[0]), OutDim(x.shape[3], attrs.strides[1])]
    && forall n: nat, o: nat, y: nat, z: nat ::
         n < t.shape[0] && o < t.shape[1] && y < t.shape[2] && z < t.shape[3] ==>
           HoldsAt(q, attrs.strides, x, w, bias, t, n, o, y, z)
  }

  lemma TapIs(q: real -> real, x: Tensor, w: Tensor, sh: pos, sw: pos, n: nat, o: nat, y: nat, z: nat)
    requires ConvShapes(x, w, None)
    ensures var C, H, W := x.shape[1], x.shape[2], x.shape[3];
            var row, column := y * sh, z * sw;
            Tap(q, x, w, sh, sw, n, o, y, z)
            == q(Sum(C, c => q(At(w.data, o * C + c)) * q(At(x.data, ((n * C + c) * H + row) * W + column))))
  {
    var C, H, W := x.shape[1], x.shape[2], x.shape[3];
    var row, column := y * sh, z * sw;
    SumEqual(C, c => TapTerm(q, x, w, sh, sw, n, o, y, z, c),
      c => q(At(w.data, o * C + c)) * q(At(x.data, ((n * C + c) * H + row) * W + column)));
  }

  lemma ConvHolds(q: real -> real, attrs: ConvAttrs, x: Tensor, w: Tensor, bias: Option<Tensor>, t: Tensor,
                  n: nat, o: nat, y: nat, z: nat)
    requires Supported(attrs, w.shape) && ConvShapes(x, w, bias)
    requires Conv(q, x, w, bias, attrs.strides[0], attrs.strides[1]) == Some(t) && |t.shape| == 4
    requires t.shape == [x.shape[0], w.shape[0], OutDim(x.shape[2], attrs.strides[0]),
                         OutDim(x.shape[3], attrs.strides[1])]
    requires n < t.shape[0] && o < t.shape[1] && y < t.shape[2] && z < t.shape[3]
    ensures HoldsAt(q, attrs.strides, x, w, bias, t, n, o, y, z)
  {
    hide Tap, Conv;
    var sh: pos, sw: pos := attrs.strides[0], attrs.strides[1];
    ConvAtCoordinates(q, x, w, bias, sh, sw, n, o, y, z);
    TapIs(q, x, w, sh, sw, n, o, y, z);
  }

  lemma ConvIsConvolution(q: real -> real, attrs: ConvAttrs, x: Tensor, w: Tensor, bias: Option<Tensor>, t: Tensor)
    requires Supported(attrs, w.shape) && ConvShapes(x, w, bias)
    requires Conv(q, x, w, bias, attrs.strides[0], attrs.strides[1]) == Some(t)
    ensures IsConvolution(q, attrs, x, w, bias, t)
  {
    hide HoldsAt, ConvAt;
    forall n: nat, o: nat, y: nat, z: nat | n < t.shape[0] && o < t.shape[1] && y < t.shape[2] && z < t.shape[3]
      ensures HoldsAt(q, attrs.strides, x, w, bias, t, n, o, y, z)
    {
      ConvHolds(q, attrs, x, w, bias, t, n, o, y, z);
    }
  }

  /** The name holds a tensor. */
  predicate Floating(env: Env, name: string) {
    name != "" && name in env && env[name].Floats?
  }

  /** The bias a node reads, if it names one that has a value. */
  function BiasValue(env: Env, node: Node): Option<Tensor> {
    if Floating(env, BiasName(node)) then Some(env[BiasName(node)].t) else None
  }

  /** The operands a convolution needs: supported attributes and tensors whose shapes fit. */
  predicate Convolvable(node: Node, env: Env)
    requires node.op.ConvOp?
  {
    && 2 <= |node.inputs| <= 3 && Floating(env, node.inputs[0]) && Floating(env, node.inputs[1])
    && (BiasName(node) != "" && BiasName(node) in env ==> env[BiasName(node)].Floats?)
    && Supported(node.op.attrs, env[node.inputs[1]].t.shape)
    && ConvShapes(env[node.inputs[0]].t, env[node.inputs[1]].t, BiasValue(env, node))
  }

  /** With operands from `before`, the node's output in `after` is their convolution by the node's attributes. */
  ghost predicate Convolves(q: real -> real, node: Node, before: Env, after: Env)
    requires node.op.ConvOp? && |node.outputs| == 1
  {
    && Convolvable(node, before)
    && node.outputs[0] in after && after[node.outputs[0]].Floats?
    && IsConvolution(q, node.op.attrs, before[node.inputs[0]].t, before[node.inputs[1]].t, BiasValue(before, node),
                     after[node.outputs[0]].t)
  }

  /** These looked-up values are the operands by name. */
  predicate ReadFrom(node: Node, env: Env, ins: seq<Option<Value>>) {
    && 2 <= |node.inputs| <= 3 && Floating(env, node.inputs[0]) && Floating(env, node.inputs[1])
    && (BiasName(node) != "" && BiasName(node) in env ==> env[BiasName(node)].Floats?)
    && ProductInputs(ins)
    && FloatsOf(ins[0]) == Some(env[node.inputs[0]].t) && FloatsOf(ins[1]) == Some(env[node.inputs[1]].t)
    && BiasOf(ins) == BiasValue(env, node)
  }

  lemma OperandsAre(node: Node, env: Env)
    requires node.op.ConvOp?
    ensures Convolvable(node, env) || ProductInputs(LookupAll(env, node.inputs))
            ==> ReadFrom(node, env, LookupAll(env, node.inputs))
  {
    hide Supported, ConvShapes;
  }

  /** A selected convolution has a value exactly when its operands allow it, and then it is the convolution. */
  lemma RoundedConvolution(sem: Semantics, node: Node, env: Env)
    requires node.op.ConvOp? && |node.outputs| == 1
    ensures EvalRounded(sem, node, env).Some? <==> Convolvable(node, env)
    ensures Convolvable(node, env) ==>
      var after := EvalRounded(sem, node, env).value;
      Convolves(sem.q, node, env, after) && after == env[node.outputs[0] := after[node.outputs[0]]]
  {
    hide Supported, IsConvolution, ConvAt, LookupAll, ProductInputs;
    OperandsAre(node, env);
    var ins := LookupAll(env, node.inputs);
    if ProductInputs(ins) {
      var x, w, bias := env[node.inputs[0]].t, env[node.inputs[1]].t, BiasValue(env, node);
      StridesAre(node.op.attrs, w.shape);
      assert node.outputs == [node.outputs[0]];
      if Convolvable(node, env) {
        var t := Conv(sem.q, x, w, bias, node.op.attrs.strides[0], node.op.attrs.strides[1]).value;
        ConvIsConvolution(sem.q, node.op.attrs, x, w, bias, t);
        BindOne(env, node.outputs[0], Floats(t));
      }
    }
  }

  // ----- the whole graph -----

  lemma {:induction false} DefsGrow(nodes: seq<Node>, i: nat, x: string)
    requires i <= |nodes|
    ensures Defs(nodes[..i], x) <= Defs(nodes, x)
  {
    if i < |nodes| {
      var shorter := nodes[..|nodes| - 1];
      DefsGrow(shorter, i, x);
      assert shorter[..i] == nodes[..i];
    } else {
      assert nodes[..i] == nodes;
    }
  }

  /** A name that has a value is not written again. */
  lemma NotRewritten(nodes: seq<Node>, given: set<string>, i: nat, j: nat, x: string)
    requires Once(nodes, given) && i <= j < |nodes| && x in Defined(nodes[..i], given) && x != ""
    ensures x !in nodes[j].outputs
  {
    DefinedIff(nodes[..i], given, x);
    DefsGrow(nodes, j + 1, x);
    DefsGrow(nodes[..j], i, x);
    assert nodes[..j][..i] == nodes[..i] && nodes[..j + 1][..j] == nodes[..j];
  }

  lemma StepStays(sem: Semantics, g: Graph, k: nat, ref: Env, ref2: Env, x: string)
    requires k < |g.nodes| && ReferenceStep(sem, g, k, ref) == Some(ref2) && x in ref && x !in g.nodes[k].outputs
    ensures x in ref2 && ref2[x] == ref[x]
  {
    hide EvalOp, RoundedOp;
    var node := g.nodes[k];
    var outs := if k in g.selected then Some([RoundedOp(sem, node.op, LookupAll(ref, node.inputs)).value])
                else EvalOp(sem, node.op, LookupAll(ref, node.inputs));
    BindKeys(ref, node.outputs, outs.value);
  }

  /** In a graph that writes every name once, a value stays what it was. */
  lemma {:induction false} ValueStays(sem: Semantics, g: Graph, env: Env, i: nat, k: nat, early: Env, late: Env,
                                      x: string)
    requires i <= k <= |g.nodes| && Once(g.nodes, env.Keys) && x != ""
    requires EvalReference(sem, g.selected, g.nodes[..i], env) == Some(early)
    requires EvalReference(sem, g.selected, g.nodes[..k], env) == Some(late)
    requires x in Defined(g.nodes[..i], env.Keys) && x in early
    ensures x in late && late[x] == early[x]
    decreases k
  {
    hide EvalReference, ReferenceStep, Once, Defined;
    if i < k {
      ReferenceSnoc(sem, g, k - 1, env);
      var middle := EvalReference(sem, g.selected, g.nodes[..k - 1], env).value;
      ValueStays(sem, g, env, i, k - 1, early, middle, x);
      NotRewritten(g.nodes, env.Keys, i, k - 1, x);
      StepStays(sem, g, k - 1, middle, late, x);
    }
  }

  /** Where the reference stands before and after one of its nodes. */
  lemma {:induction false} ReferenceAt(sem: Semantics, g: Graph, env: Env, i: nat, k: nat, late: Env)
    returns (early: Env)
    requires i <= k <= |g.nodes| && WeightsHeld(g, env)
    requires EvalReference(sem, g.selected, g.nodes[..k], env) == Some(late)
    ensures EvalReference(sem, g.selected, g.nodes[..i], env) == Some(early)
    ensures early.Keys == Defined(g.nodes[..i], env.Keys)
    decreases k
  {
    hide EvalReference, ReferenceStep, WeightsHeld, Defined;
    if i < k {
      ReferenceSnoc(sem, g, k - 1, env);
      early := ReferenceAt(sem, g, env, i, k - 1, EvalReference(sem, g.selected, g.nodes[..k - 1], env).value);
    } else {
      early := late;
      ReferenceDefines(sem, g, env, k, late);
    }
  }

  lemma {:induction false} ReferenceDefines(sem: Semantics, g: Graph, env: Env, k: nat, ref: Env)
    requires k <= |g.nodes| && WeightsHeld(g, env)
    requires EvalReference(sem, g.selected, g.nodes[..k], env) == Some(ref)
    ensures ReferenceKeeps(g, env, ref, k)
    decreases k
  {
    hide EvalReference, ReferenceStep, WeightsHeld, ReferenceKeeps;
    if k == 0 {
      NothingDefined(sem, g, env, ref);
    } else {
      ReferenceSnoc(sem, g, k - 1, env);
      var before := EvalReference(sem, g.selected, g.nodes[..k - 1], env).value;
      ReferenceDefines(sem, g, env, k - 1, before);
      LoweringTheorem.StepKeeps(sem, g, env, before, ref, k - 1);
    }
  }

  lemma NothingDefined(sem: Semantics, g: Graph, env: Env, ref: Env)
    requires EvalReference(sem, g.selected, g.nodes[..0], env) == Some(ref)
    ensures ReferenceKeeps(g, env, ref, 0)
  {
    assert g.nodes[..0] == [];
  }

  /** Operands and output of a convolution read the same in any environment that keeps their values. */
  lemma ConvolvesElsewhere(q: real -> real, node: Node, before: Env, after: Env, late: Env)
    requires node.op.ConvOp? && |node.outputs| == 1 && Convolves(q, node, before, after)
    requires forall x :: x in node.inputs && x != "" && x in before ==> x in late && late[x] == before[x]
    requires BiasName(node) !in before ==> BiasName(node) == ""
    requires node.outputs[0] in late && late[node.outputs[0]] == after[node.outputs[0]]
    ensures Convolves(q, node, late, late)
  {
    hide Supported, ConvShapes, IsConvolution;
    assert BiasName(node) != "" ==> BiasName(node) in node.inputs;
  }

  /** A convolution chosen for lowering, with a named output. */
  predicate ChosenConv(g: Graph, i: nat) {
    i < |g.nodes| && i in g.selected && g.nodes[i].op.ConvOp? && |g.nodes[i].outputs| == 1
      && g.nodes[i].outputs[0] != ""
  }

  /** What a name meant before a node is what it means in the end. */
  lemma InputsStay(sem: Semantics, g: Graph, env: Env, i: nat, early: Env, late: Env)
    requires i < |g.nodes| && Once(g.nodes, env.Keys)
    requires EvalReference(sem, g.selected, g.nodes[..i], env) == Some(early)
    requires EvalReference(sem, g.selected, g.nodes, env) == Some(late)
    requires early.Keys == Defined(g.nodes[..i], env.Keys)
    ensures forall x :: x in g.nodes[i].inputs && x != "" && x in early ==> x in late && late[x] == early[x]
  {
    hide EvalReference, Once, Defined;
    assert g.nodes[..|g.nodes|] == g.nodes;
    forall x | x in g.nodes[i].inputs && x != "" && x in early ensures x in late && late[x] == early[x] {
      ValueStays(sem, g, env, i, |g.nodes|, early, late, x);
    }
  }

  /** In the rounded graph every selected convolution is the convolution its attributes describe. */
  lemma ReferenceConvolves(sem: Semantics, g: Graph, env: Env, ref: Env, i: nat)
    requires WeightsHeld(g, env) && Ordered(g.nodes, env.Keys) && Once(g.nodes, env.Keys) && ChosenConv(g, i)
    requires EvalReference(sem, g.selected, g.nodes, env) == Some(ref)
    ensures Convolves(sem.q, g.nodes[i], ref, ref)
  {
    hide EvalReference, Once, WeightsHeld, Convolves, EvalRounded;
    var node := g.nodes[i];
    assert g.nodes[..|g.nodes|] == g.nodes;
    var after := ReferenceAt(sem, g, env, i + 1, |g.nodes|, ref);
    ReferenceSnoc(sem, g, i, env);
    var before := ReferenceAt(sem, g, env, i, i + 1, after);
    RoundedConvolution(sem, node, before);
    InputsStay(sem, g, env, i, before, ref);
    assert InputsBound(node, Defined(g.nodes[..i], env.Keys));
    OutputDefined(g, env, i);
    ValueStays(sem, g, env, i + 1, |g.nodes|, after, ref, node.outputs[0]);
    BiasBound(node, before);
    ConvolvesElsewhere(sem.q, node, before, after, ref);
  }

  lemma BiasBound(node: Node, env: Env)
    requires InputsBound(node, env.Keys)
    ensures BiasName(node) !in env ==> BiasName(node) == ""
  {
  }

  lemma OutputDefined(g: Graph, env: Env, i: nat)
    requires i < |g.nodes| && |g.nodes[i].outputs| == 1
    ensures g.nodes[i].outputs[0] in Defined(g.nodes[..i + 1], env.Keys)
  {
    assert g.nodes[..i + 1][..i] == g.nodes[..i];
  }

  lemma ConvolvesInBoth(q: real -> real, node: Node, names: set<string>, ref: Env, low: Env)
    requires node.op.ConvOp? && |node.outputs| == 1 && Convolves(q, node, ref, ref)
    requires NodeKnown(node, names) && Agree(names, ref, low)
    ensures Convolves(q, node, low, low)
  {
    hide Supported, ConvShapes, IsConvolution;
    forall x | x in node.inputs + node.outputs ensures x in names && (x in ref <==> x in low) {
      assert x in Elements(node.inputs) + Elements(node.outputs);
    }
    assert node.inputs[0] in node.inputs + node.outputs && node.inputs[1] in node.inputs + node.outputs
        && node.outputs[0] in node.inputs + node.outputs;
    assert BiasName(node) != "" ==> BiasName(node) in node.inputs + node.outputs;
  }

  /**
   * Main result for convolutions. In a graph that writes every name once, the lowered node list leaves under the output
   * name of each selected convolution the strided convolution of what it leaves under the operands' names.
   */
  lemma LoweredConvolutions(sem: Semantics, g: Graph, start: Builder, env: Env, ref: Env)
    requires start.nodes == [] && WellFormed(g, env, start.occupied) && Once(g.nodes, env.Keys)
    requires LoweredUpTo(g, |g.nodes|, start).Ok?
    requires EvalReference(sem, g.selected, g.nodes, env) == Some(ref)
    ensures exists low ::
        EvalNodes(sem, LoweredUpTo(g, |g.nodes|, start).value.nodes, env) == Some(low)
        && forall i: nat :: ChosenConv(g, i) ==> Convolves(sem.q, g.nodes[i], low, low)
  {
    hide LoweredUpTo, EvalReference, Agree, Once, Convolves, WeightsHeld, Ordered, EvalNodes, NodeKnown;
    LoweringPreservesMeaning(sem, g, start, env, ref);
    var low :| EvalNodes(sem, LoweredUpTo(g, |g.nodes|, start).value.nodes, env) == Some(low)
               && Agree(start.occupied, ref, low);
    forall i: nat | ChosenConv(g, i) ensures Convolves(sem.q, g.nodes[i], low, low) {
      ReferenceConvolves(sem, g, env, ref, i);
      assert NodeKnown(g.nodes[i], start.occupied);
      ConvolvesInBoth(sem.q, g.nodes[i], start.occupied, ref, low);
    }
  }
}
