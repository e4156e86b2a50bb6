/** The builder object and the pass over a mutable graph, each step tied to its specification on builder states. */
module GraphBuilding {
  import opened Prelude
  import opened Tensors
  import opened PointwiseConv
  import opened GraphLowering
  import opened LoweringSemantics
  import opened LoweringTheorem

  class GraphBuilder {
    var nodes: seq<Node>
    var counter: nat
    var occupied: set<string>

    ghost function State(): Builder
      reads this
    {
      Builder(nodes, counter, occupied)
    }

    constructor (names: set<string>)
      ensures State() == Builder([], 0, names)
    {
      nodes, counter, occupied := [], 0, names;
    }

    /** Count on from the last number tried until a name is free. */
    method Fresh() returns (name: string)
      modifies this
      ensures (State(), name) == GraphLowering.Fresh(old(State()))
      ensures name !in old(occupied)
    {
      ghost var k := FreshIndex(counter, occupied);
      FreshIndexFree(counter, occupied);
      while Name(counter) in occupied
        invariant old(counter) <= counter <= k
        invariant nodes == old(nodes) && occupied == old(occupied)
        decreases k - counter
      {
        counter := counter + 1;
      }
      name := Name(counter);
      counter := counter + 1;
      occupied := occupied + {name};
    }

    /** Append one node writing `output`, or a fresh name when none is given. */
    method Emit(op: Op, inputs: seq<string>, output: Option<string>, name: string) returns (target: string)
      modifies this
      ensures (State(), target) == GraphLowering.Emit(old(State()), op, inputs, output, name)
    {
      if output.Some? {
        target := output.value;
      } else {
        target := Fresh();
      }
      var tag := name;
      if name == "" {
        tag := Fresh();
      }
      nodes := nodes + [Node(op, inputs, [target], tag)];
    }

    method Vector(values: seq<int>) returns (target: string)
      modifies this
      ensures (State(), target) == GraphLowering.Vector(old(State()), values)
    {
      var tensorName := Fresh();
      target := Emit(ConstantOp(Ints(values)), [], None, "");
    }

    method Scalar(value: real) returns (target: string)
      modifies this
      ensures (State(), target) == GraphLowering.Scalar(old(State()), value)
    {
      var tensorName := Fresh();
      target := Emit(ConstantOp(Floats(Unit(value))), [], None, "");
    }

    method QuantizedFloat(source: string) returns (target: string)
      modifies this
      ensures (State(), target) == Quantized(old(State()), source)
    {
      var half := Emit(CastOp(Half), [source], None, "");
      target := Emit(CastOp(Float), [half], None, "");
    }

    method Product(left: string, right: string, name: string) returns (target: string)
      modifies this
      ensures (State(), target) == GraphLowering.Product(old(State()), left, right, name)
    {
      hide Quantized, GraphLowering.Emit;
      var l := QuantizedFloat(left);
      var r := QuantizedFloat(right);
      var product := Emit(MatMulOp, [l, r], None, name);
      target := QuantizedFloat(product);
    }

    method LowerMatMul(node: Node)
      requires |node.inputs| >= 2 && |node.outputs| >= 1
      modifies this
      ensures State() == GraphLowering.LowerMatMul(old(State()), node)
    {
      hide GraphLowering.Product, GraphLowering.Emit;
      var product := Product(node.inputs[0], node.inputs[1], node.name);
      var output := Emit(IdentityOp, [product], Some(node.outputs[0]), "");
    }

    method LowerGemm(node: Node)
      requires node.op.GemmOp? && |node.inputs| >= 2 && |node.outputs| >= 1
      modifies this
      ensures State() == GraphLowering.LowerGemm(old(State()), node)
    {
      hide GraphLowering.Product, GraphLowering.Emit, GraphLowering.Scalar;
      var left, right := node.inputs[0], node.inputs[1];
      if node.op.transA {
        left := Emit(TransposeOp, [left], None, "");
      }
      if node.op.transB {
        right := Emit(TransposeOp, [right], None, "");
      }
      var product := Product(left, right, node.name);
      if node.op.alpha != 1.0 {
        var alpha := Scalar(node.op.alpha);
        product := Emit(ProductOp, [product, alpha], None, "");
      }
      var bias := BiasName(node);
      if bias != "" {
        if node.op.beta != 1.0 {
          var beta := Scalar(node.op.beta);
          bias := Emit(ProductOp, [bias, beta], None, "");
        }
        var sum := Emit(SumOp, [product, bias], Some(node.outputs[0]), "");
      } else {
        var output := Emit(IdentityOp, [product], Some(node.outputs[0]), "");
      }
    }

    method SamplePointwiseInput(source: string, strides: (pos, pos)) returns (target: string)
      modifies this
      ensures (State(), target) == Sample(old(State()), source, strides)
    {
      hide GraphLowering.Vector, GraphLowering.Emit;
      if strides == (1, 1) {
        return source;
      }
      var starts := Vector([0, 0]);
      var ends := Vector([SLICE_END, SLICE_END]);
      var axes := Vector([2, 3]);
      var steps := Vector([strides.0, strides.1]);
      target := Emit(SliceOp, [source, starts, ends, axes, steps], None, "");
    }

    method PointwiseOutputShape(shape: string, channels: pos) returns (target: string)
      modifies this
      ensures (State(), target) == OutputShape(old(State()), shape, channels)
    {
      hide GraphLowering.Vector, GraphLowering.Emit;
      var zero := Vector([0]);
      var batch := Emit(GatherOp, [shape, zero], None, "");
      var axes := Vector([2, 3]);
      var spatial := Emit(GatherOp, [shape, axes], None, "");
      var channel := Vector([channels]);
      target := Emit(ConcatOp, [batch, channel, spatial], None, "");
    }

    /** An unsupported convolution is refused before anything is emitted. */
    method LowerPointwise(node: Node, dims: seq<pos>) returns (ok: bool)
      requires node.op.ConvOp? && |node.inputs| >= 2 && |node.outputs| >= 1
      modifies this
      ensures ok == Supported(node.op.attrs, dims)
      ensures ok ==> State() == GraphLowering.LowerPointwise(old(State()), node, dims,
        (node.op.attrs.strides[0], node.op.attrs.strides[1]))
      ensures !ok ==> State() == old(State())
    {
      hide GraphLowering.Vector, GraphLowering.Emit, Sample, OutputShape, GraphLowering.Product;
      StridesAre(node.op.attrs, dims);
      var strides := PointwiseStrides(node.op.attrs, dims);
      if strides.None? {
        return false;
      }
      var source := SamplePointwiseInput(node.inputs[0], strides.value);
      var shape := Emit(ShapeOp, [source], None, "");
      var plane := Vector([0, dims[1] as int, -1]);
      var flattened := Emit(ReshapeOp, [source, plane], None, "");
      var matrix := Vector([1, dims[0], dims[1]]);
      var kernel := Emit(ReshapeOp, [node.inputs[1], matrix], None, "");
      var product := Product(kernel, flattened, node.name);
      var outputShape := PointwiseOutputShape(shape, dims[0]);
      var bias := BiasName(node);
      var output := Emit(ReshapeOp, [product, outputShape], if bias != "" then None else Some(node.outputs[0]), "");
      if bias != "" {
        var column := Vector([1, dims[0], 1, 1]);
        var broadcast := Emit(ReshapeOp, [bias, column], None, "");
        var sum := Emit(SumOp, [output, broadcast], Some(node.outputs[0]), "");
      }
      ok := true;
    }
  }

  /** The graph of a model, rewritten in place. */
  class ModelGraph {
    var nodes: seq<Node>
    const initializers: map<string, Tensor>
    const declared: set<string>

    constructor (nodes: seq<Node>, initializers: map<string, Tensor>, declared: set<string>)
      ensures this.nodes == nodes && this.initializers == initializers && this.declared == declared
    {
      this.nodes, this.initializers, this.declared := nodes, initializers, declared;
    }
  }

  /** Every name the graph mentions: node inputs, outputs and tags, weights and declared values. */
  function GraphNames(nodes: seq<Node>, initializers: map<string, Tensor>, declared: set<string>): set<string> {
    (set i, x | 0 <= i < |nodes| && x in nodes[i].inputs + nodes[i].outputs + [nodes[i].name] :: x) + initializers.Keys
      + declared
  }

  lemma GraphNamesKnown(nodes: seq<Node>, initializers: map<string, Tensor>, declared: set<string>)
    ensures NamesKnown(nodes, GraphNames(nodes, initializers, declared))
  {
    var names := GraphNames(nodes, initializers, declared);
    forall i | 0 <= i < |nodes| ensures NodeKnown(nodes[i], names) {
      forall x | x in Elements(nodes[i].inputs) + Elements(nodes[i].outputs) ensures x in names {
        assert x in nodes[i].inputs + nodes[i].outputs + [nodes[i].name];
      }
    }
  }

  /** How many of the first `k` positions are selected. */
  function SelectedBelow(selected: set<nat>, k: nat): nat {
    if k == 0 then 0 else SelectedBelow(selected, k - 1) + if k - 1 in selected then 1 else 0
  }

  /** Lower the selected nodes; the graph's node list is replaced only after every one of them is lowered. */
  method Fp16WeightedGraph(graph: ModelGraph, selected: set<nat>) returns (r: Result<nat, LowerError>)
    requires Selectable(graph.nodes, selected)
    modifies graph
    ensures var g := Graph(old(graph.nodes), graph.initializers, selected);
            var start := Builder([], 0, GraphNames(g.nodes, g.initializers, graph.declared));
            var lowered := LoweredUpTo(g, |g.nodes|, start);
            && r.Ok? == lowered.Ok?
            && graph.nodes == (if r.Ok? then lowered.value.nodes else old(graph.nodes))
            && (r.Ok? ==> r.value == SelectedBelow(selected, |g.nodes|))
            && (r.Err? ==> r.error == lowered.error)
  {
    hide GraphNames, LowerPointwise, LowerGemm, LowerMatMul, PointwiseStrides, Supported, LoweredUpTo;
    ghost var g := Graph(graph.nodes, graph.initializers, selected);
    ghost var start := Builder([], 0, GraphNames(g.nodes, g.initializers, graph.declared));
    var builder := new GraphBuilder(GraphNames(graph.nodes, graph.initializers, graph.declared));
    LoweredNone(g, start);
    var i, count := 0, 0;
    while i < |graph.nodes|
      invariant 0 <= i <= |graph.nodes| && graph.nodes == old(graph.nodes)
      invariant LoweredUpTo(g, i, start) == Ok(builder.State())
      invariant count == SelectedBelow(selected, i)
    {
      var node := graph.nodes[i];
      LoweredStep(g, i, start);
      if i !in selected {
        builder.nodes := builder.nodes + [node];
      } else if node.op.ConvOp? {
        StridesAre(node.op.attrs, WeightDims(graph.initializers, node));
        var ok := builder.LowerPointwise(node, WeightDims(graph.initializers, node));
        if !ok {
          Refused(g, i + 1, start);
          return Err(Unsupported(i));
        }
        count := count + 1;
      } else if node.op.GemmOp? {
        builder.LowerGemm(node);
        count := count + 1;
      } else {
        builder.LowerMatMul(node);
        count := count + 1;
      }
      i := i + 1;
    }
    graph.nodes := builder.nodes;
    r := Ok(count);
  }

  /** A refusal is final: later nodes do not change it. */
  lemma {:induction false} Refused(g: Graph, k: nat, start: Builder)
    requires Selectable(g.nodes, g.selected) && k <= |g.nodes| && LoweredUpTo(g, k, start).Err?
    ensures LoweredUpTo(g, |g.nodes|, start) == LoweredUpTo(g, k, start)
    decreases |g.nodes| - k
  {
    hide LoweredUpTo, LowerNode;
    if k < |g.nodes| {
      LoweredStep(g, k, start);
      Refused(g, k + 1, start);
    }
  }

  /** What the replaced node list computes, for every input and every meaning of the other operators. */
  lemma PassPreservesMeaning(sem: Semantics, g: Graph, declared: set<string>, env: Env, ref: Env)
    requires Selectable(g.nodes, g.selected) && Ordered(g.nodes, env.Keys) && WeightsHeld(g, env) && ConvsStored(g)
    requires LoweredUpTo(g, |g.nodes|, Builder([], 0, GraphNames(g.nodes, g.initializers, declared))).Ok?
    requires EvalReference(sem, g.selected, g.nodes, env) == Some(ref)
    ensures var names := GraphNames(g.nodes, g.initializers, declared);
            exists low ::
              EvalNodes(sem, LoweredUpTo(g, |g.nodes|, Builder([], 0, names)).value.nodes, env) == Some(low)
              && Agree(names, ref, low)
  {
    hide GraphNames, NamesKnown, LoweredUpTo, EvalReference, Agree, Ordered, WeightsHeld, ConvsStored;
    GraphNamesKnown(g.nodes, g.initializers, declared);
    LoweringPreservesMeaning(sem, g, Builder([], 0, GraphNames(g.nodes, g.initializers, declared)), env, ref);
  }
}
