/** Lowering preserves meaning: every original name keeps its value with the selected products rounded once. */
module LoweringTheorem {
  import opened Prelude
  import opened Tensors
  import opened PointwiseConv
  import opened GraphLowering
  import opened LoweringSemantics
  import opened GemmLowering
  import opened PointwiseLowering

  /** A graph with its stored weights and the nodes chosen for lowering, by position. */
  datatype Graph = Graph(nodes: seq<Node>, initializers: map<string, Tensor>, selected: set<nat>)

  /** Names with a value after some nodes. */
  function Defined(nodes: seq<Node>, given: set<string>): set<string> {
    if nodes == [] then given
    else Defined(nodes[..|nodes| - 1], given) + Elements(nodes[|nodes| - 1].outputs)
  }

  predicate InputsBound(node: Node, names: set<string>) {
    forall x :: x in node.inputs && x != "" ==> x in names
  }

  /** Every input is given or produced by an earlier node; the empty name marks an absent input. */
  predicate Ordered(nodes: seq<Node>, given: set<string>) {
    forall i :: 0 <= i < |nodes| ==> InputsBound(nodes[i], Defined(nodes[..i], given))
  }

  predicate Lowerable(node: Node) {
    Arity(node) && (node.op.MatMulOp? || node.op.GemmOp? || node.op.ConvOp?)
  }

  predicate Selectable(nodes: seq<Node>, selected: set<nat>) {
    forall i :: 0 <= i < |nodes| && i in selected ==> Lowerable(nodes[i])
  }

  predicate NodeKnown(node: Node, occupied: set<string>) {
    Elements(node.inputs) <= occupied && Elements(node.outputs) <= occupied
  }

  /** The builder starts from every name of the graph. */
  predicate NamesKnown(nodes: seq<Node>, occupied: set<string>) {
    forall i :: 0 <= i < |nodes| ==> NodeKnown(nodes[i], occupied)
  }

  /** Stored weights have their stored shape and no node writes them. */
  predicate WeightsHeld(g: Graph, env: Env) {
    && (forall x :: x in g.initializers ==> x in env && env[x].Floats? && env[x].t.shape == g.initializers[x].shape)
    && (forall i :: 0 <= i < |g.nodes| ==> Elements(g.nodes[i].outputs) !! g.initializers.Keys)
  }

  predicate ConvsStored(g: Graph) {
    forall i :: 0 <= i < |g.nodes| && i in g.selected && Lowerable(g.nodes[i]) && g.nodes[i].op.ConvOp?
      ==> g.nodes[i].inputs[1] in g.initializers
  }

  predicate WellFormed(g: Graph, env: Env, occupied: set<string>) {
    && Selectable(g.nodes, g.selected) && Ordered(g.nodes, env.Keys) && NamesKnown(g.nodes, occupied)
    && WeightsHeld(g, env) && ConvsStored(g)
  }

  // ----- one node -----

  lemma {:induction false} BindKeys(env: Env, names: seq<string>, values: seq<Value>)
    requires |names| <= |values|
    ensures Bind(env, names, values).Keys == env.Keys + Elements(names)
    ensures forall x :: x in env && x !in Elements(names) ==> Bind(env, names, values)[x] == env[x]
  {
    if names != [] {
      var last := |names| - 1;
      BindKeys(env, names[..last], values);
      assert names == names[..last] + [names[last]];
    }
  }

  lemma {:induction false} BindAgree(names: set<string>, a: Env, b: Env, outs: seq<string>, values: seq<Value>)
    requires Agree(names, a, b) && |outs| <= |values|
    ensures Agree(names, Bind(a, outs, values), Bind(b, outs, values))
  {
    if outs != [] { BindAgree(names, a, b, outs[..|outs| - 1], values); }
  }

  lemma LookupAgree(names: set<string>, a: Env, b: Env, inputs: seq<string>)
    requires Agree(names, a, b) && Elements(inputs) <= names
    ensures LookupAll(a, inputs) == LookupAll(b, inputs)
  {
    forall i | 0 <= i < |inputs| ensures Lookup(a, inputs[i]) == Lookup(b, inputs[i]) {
      assert inputs[i] in Elements(inputs);
    }
  }

  /** An unselected node computes the same outputs from agreeing environments. */
  lemma PlainStep(sem: Semantics, b: Builder, node: Node, start: Env, names: set<string>, ref: Env, low: Env, ref2: Env)
    returns (low2: Env)
    requires Runs(sem, b, start, low) && Agree(names, ref, low) && NodeKnown(node, names)
    requires EvalNode(sem, node, ref) == Some(ref2)
    ensures Runs(sem, b.(nodes := b.nodes + [node]), start, low2) && Agree(names, ref2, low2)
  {
    hide EvalOp;
    LookupAgree(names, ref, low, node.inputs);
    var outs := EvalOp(sem, node.op, LookupAll(ref, node.inputs)).value;
    BindAgree(names, ref, low, node.outputs, outs);
    low2 := Bind(low, node.outputs, outs);
    EvalSnoc(sem, b.nodes, node, start);
  }

  /** A present operand is bound, under the same name, in the lowered run. */
  lemma Operand(b: Builder, names: set<string>, ref: Env, low: Env, inputs: seq<string>, i: nat, t: Tensor)
    requires Agree(names, ref, low) && Elements(inputs) <= names && names <= b.occupied && i < |inputs|
    requires FloatsOf(LookupAll(ref, inputs)[i]) == Some(t)
    ensures Bound(b, low, inputs[i], Floats(t))
  {
    assert inputs[i] in Elements(inputs);
    assert LookupAll(ref, inputs)[i] == Lookup(ref, inputs[i]);
  }

  /** An optional operand without a value is the empty name. */
  lemma AbsentBias(ref: Env, node: Node)
    requires InputsBound(node, ref.Keys) && |node.inputs| <= 3 && ProductInputs(LookupAll(ref, node.inputs))
    ensures BiasOf(LookupAll(ref, node.inputs)).None? ==> BiasName(node) == ""
  {
    if |node.inputs| == 3 {
      assert LookupAll(ref, node.inputs)[2] == Lookup(ref, node.inputs[2]);
      assert node.inputs[2] in node.inputs;
    }
  }

  lemma PresentBias(b: Builder, names: set<string>, ref: Env, low: Env, node: Node)
    requires Agree(names, ref, low) && Elements(node.inputs) <= names && names <= b.occupied
    requires BiasOf(LookupAll(ref, node.inputs)).Some?
    ensures Bound(b, low, BiasName(node), Floats(BiasOf(LookupAll(ref, node.inputs)).value))
  {
    Operand(b, names, ref, low, node.inputs, 2, BiasOf(LookupAll(ref, node.inputs)).value);
  }

  /** The single output of a selected node takes the same value in both runs. */
  lemma OneOutput(sem: Semantics, b: Builder, c: Builder, node: Node, start: Env, names: set<string>,
                  ref: Env, low: Env, ref2: Env, low2: Env, v: Value)
    requires |node.outputs| == 1 && Agree(names, ref, low) && names <= b.occupied
    requires Lowered(sem, b, c, start, low, low2, node.outputs[0], v)
    requires Outcome(ref, node, Some([v])) == Some(ref2)
    ensures Runs(sem, c, start, low2) && Agree(names, ref2, low2) && b.occupied <= c.occupied
  {
    assert node.outputs == [node.outputs[0]];
    BindOne(ref, node.outputs[0], v);
    forall x | x in names ensures (x in ref2 <==> x in low2) && (x in ref2 ==> ref2[x] == low2[x]) {
      if x != node.outputs[0] { assert x in b.occupied - {node.outputs[0]}; }
    }
  }

  lemma MatMulStep(sem: Semantics, b: Builder, node: Node, start: Env, names: set<string>, ref: Env, low: Env,
                   ref2: Env) returns (low2: Env)
    requires Lowerable(node) && node.op.MatMulOp? && NodeKnown(node, names) && names <= b.occupied
    requires Runs(sem, b, start, low) && Agree(names, ref, low) && EvalRounded(sem, node, ref) == Some(ref2)
    ensures Runs(sem, LowerMatMul(b, node), start, low2) && Agree(names, ref2, low2)
        && b.occupied <= LowerMatMul(b, node).occupied
  {
    hide EvalOp, LowerMatMul, Lowered, Agree, Runs, LookupAll;
    var ins := LookupAll(ref, node.inputs);
    LookupSize(ref, node.inputs);
    var x, y := FloatsOf(ins[0]).value, FloatsOf(ins[1]).value;
    var product := EvalOp(sem, MatMulOp, [Some(Floats(Map(sem.q, x))), Some(Floats(Map(sem.q, y)))]);
    var p := product.value[0].t;
    assert product.value == [Floats(p)];
    Operand(b, names, ref, low, node.inputs, 0, x);
    Operand(b, names, ref, low, node.inputs, 1, y);
    low2 := MatMulRuns(sem, b, node, start, low, x, y, p);
    OneOutput(sem, b, LowerMatMul(b, node), node, start, names, ref, low, ref2, low2, Floats(Map(sem.q, p)));
  }

  lemma LookupSize(env: Env, names: seq<string>)
    ensures |LookupAll(env, names)| == |names|
  {
  }

  lemma GemmStep(sem: Semantics, b: Builder, node: Node, start: Env, names: set<string>, ref: Env, low: Env, ref2: Env)
    returns (low2: Env)
    requires Lowerable(node) && node.op.GemmOp? && NodeKnown(node, names) && names <= b.occupied
        && InputsBound(node, ref.Keys)
    requires Runs(sem, b, start, low) && Agree(names, ref, low) && EvalRounded(sem, node, ref) == Some(ref2)
    ensures Runs(sem, LowerGemm(b, node), start, low2) && Agree(names, ref2, low2)
        && b.occupied <= LowerGemm(b, node).occupied
  {
    hide Gemm, LowerGemm, Lowered, Agree, Runs, LookupAll, BiasOf, InputsBound;
    var ins := LookupAll(ref, node.inputs);
    LookupSize(ref, node.inputs);
    var x, y, bias := FloatsOf(ins[0]).value, FloatsOf(ins[1]).value, BiasOf(ins);
    var v := Gemm(sem.q, x, y, bias, node.op.transA, node.op.transB, node.op.alpha, node.op.beta).value;
    Operand(b, names, ref, low, node.inputs, 0, x);
    Operand(b, names, ref, low, node.inputs, 1, y);
    AbsentBias(ref, node);
    if bias.Some? { PresentBias(b, names, ref, low, node); }
    low2 := GemmRuns(sem, b, node, start, low, x, y, bias, v);
    OneOutput(sem, b, LowerGemm(b, node), node, start, names, ref, low, ref2, low2, Floats(v));
  }

  lemma ConvStep(sem: Semantics, b: Builder, node: Node, dims: seq<pos>, strides: (pos, pos), start: Env,
                 names: set<string>,
                 ref: Env, low: Env, ref2: Env) returns (low2: Env)
    requires Lowerable(node) && node.op.ConvOp? && NodeKnown(node, names) && names <= b.occupied
        && InputsBound(node, ref.Keys)
    requires Runs(sem, b, start, low) && Agree(names, ref, low) && EvalRounded(sem, node, ref) == Some(ref2)
    requires PointwiseStrides(node.op.attrs, dims) == Some(strides)
    requires node.inputs[1] in ref && ref[node.inputs[1]].Floats? && ref[node.inputs[1]].t.shape == dims
    ensures |dims| == 4 && Runs(sem, LowerPointwise(b, node, dims, strides), start, low2) && Agree(names, ref2, low2)
    ensures b.occupied <= LowerPointwise(b, node, dims, strides).occupied
  {
    hide Conv, LowerPointwise, Lowered, Agree, Runs, LookupAll, BiasOf, InputsBound;
    var ins := LookupAll(ref, node.inputs);
    LookupSize(ref, node.inputs);
    var x, w, bias := FloatsOf(ins[0]).value, FloatsOf(ins[1]).value, BiasOf(ins);
    LookupAt(ref, node.inputs, 1);
    var v := Conv(sem.q, x, w, bias, strides.0, strides.1).value;
    Operand(b, names, ref, low, node.inputs, 0, x);
    Operand(b, names, ref, low, node.inputs, 1, w);
    AbsentBias(ref, node);
    if bias.Some? { PresentBias(b, names, ref, low, node); }
    low2 := PointwiseRuns(sem, b, node, strides, start, low, x, w, bias, v);
    OneOutput(sem, b, LowerPointwise(b, node, dims, strides), node, start, names, ref, low, ref2, low2, Floats(v));
  }

  lemma LookupAt(env: Env, names: seq<string>, i: nat)
    requires i < |names|
    ensures |LookupAll(env, names)| == |names| && LookupAll(env, names)[i] == Lookup(env, names[i])
  {
  }

  /** What the pass needs of a stored weight when it meets a selected convolution. */
  predicate WeightAt(g: Graph, node: Node, ref: Env) {
    node.op.ConvOp? && |node.inputs| >= 2 ==>
      && node.inputs[1] in g.initializers && node.inputs[1] in ref && ref[node.inputs[1]].Floats?
      && ref[node.inputs[1]].t.shape == g.initializers[node.inputs[1]].shape
  }

  lemma SelectedStep(sem: Semantics, g: Graph, b: Builder, node: Node, index: nat, start: Env, names: set<string>,
                     ref: Env, low: Env, ref2: Env) returns (low2: Env)
    requires Lowerable(node) && NodeKnown(node, names) && names <= b.occupied && InputsBound(node, ref.Keys)
    requires Runs(sem, b, start, low) && Agree(names, ref, low) && EvalRounded(sem, node, ref) == Some(ref2)
    requires WeightAt(g, node, ref) && LowerNode(g.initializers, b, node, index).Ok?
    ensures var c := LowerNode(g.initializers, b, node, index).value;
            Runs(sem, c, start, low2) && Agree(names, ref2, low2) && b.occupied <= c.occupied
  {
    hide Runs, Agree, EvalRounded, LowerMatMul, LowerGemm, LowerPointwise, InputsBound, NodeKnown, PointwiseStrides;
    match node.op
    case ConvOp(attrs) =>
      var dims := WeightDims(g.initializers, node);
      low2 := ConvStep(sem, b, node, dims, PointwiseStrides(attrs, dims).value, start, names, ref, low, ref2);
    case GemmOp(_, _, _, _) =>
      low2 := GemmStep(sem, b, node, start, names, ref, low, ref2);
    case _ =>
      low2 := MatMulStep(sem, b, node, start, names, ref, low, ref2);
  }

  // ----- the whole graph -----

  /** The reference run defines exactly the graph's names and leaves the weights alone. */
  ghost predicate ReferenceKeeps(g: Graph, env: Env, ref: Env, k: nat)
    requires k <= |g.nodes|
  {
    && ref.Keys == Defined(g.nodes[..k], env.Keys)
    && forall x :: x in g.initializers && x in env ==> x in ref && ref[x] == env[x]
  }

  function ReferenceStep(sem: Semantics, g: Graph, k: nat, ref: Env): Option<Env>
    requires k < |g.nodes|
  {
    if k in g.selected then EvalRounded(sem, g.nodes[k], ref) else EvalNode(sem, g.nodes[k], ref)
  }

  lemma OutcomeKeeps(g: Graph, env: Env, ref: Env, ref2: Env, k: nat, outs: Option<seq<Value>>)
    requires k < |g.nodes| && ReferenceKeeps(g, env, ref, k) && WeightsHeld(g, env)
    requires Outcome(ref, g.nodes[k], outs) == Some(ref2)
    ensures ReferenceKeeps(g, env, ref2, k + 1)
  {
    BindKeys(ref, g.nodes[k].outputs, outs.value);
    assert g.nodes[..k + 1][..k] == g.nodes[..k];
  }

  lemma StepKeeps(sem: Semantics, g: Graph, env: Env, ref: Env, ref2: Env, k: nat)
    requires k < |g.nodes| && ReferenceKeeps(g, env, ref, k) && WeightsHeld(g, env)
    requires ReferenceStep(sem, g, k, ref) == Some(ref2)
    ensures ReferenceKeeps(g, env, ref2, k + 1)
  {
    hide ReferenceKeeps, WeightsHeld, EvalOp, RoundedOp, Outcome;
    var node := g.nodes[k];
    if k in g.selected {
      var r := RoundedOp(sem, node.op, LookupAll(ref, node.inputs));
      OutcomeKeeps(g, env, ref, ref2, k, if r.Some? then Some([r.value]) else None);
    } else {
      OutcomeKeeps(g, env, ref, ref2, k, EvalOp(sem, node.op, LookupAll(ref, node.inputs)));
    }
  }

  lemma ArityOfPrefix(g: Graph, k: nat)
    requires Selectable(g.nodes, g.selected) && k <= |g.nodes|
    ensures forall i :: 0 <= i < |g.nodes[..k]| && i in g.selected ==> Arity(g.nodes[..k][i])
  {
    forall i | 0 <= i < |g.nodes[..k]| && i in g.selected ensures Arity(g.nodes[..k][i]) {
      assert Lowerable(g.nodes[i]);
    }
  }

  /** The builder after the first `k` nodes. */
  function LoweredUpTo(g: Graph, k: nat, start: Builder): Result<Builder, LowerError>
    requires Selectable(g.nodes, g.selected) && k <= |g.nodes|
  {
    ArityOfPrefix(g, k);
    LowerAll(g.initializers, g.selected, g.nodes[..k], start)
  }

  lemma LoweredNone(g: Graph, start: Builder)
    requires Selectable(g.nodes, g.selected)
    ensures LoweredUpTo(g, 0, start) == Ok(start)
  {
    assert g.nodes[..0] == [];
  }

  lemma LoweredStep(g: Graph, k: nat, start: Builder)
    requires Selectable(g.nodes, g.selected) && k < |g.nodes|
    ensures Lowerable(g.nodes[k]) || k !in g.selected
    ensures LoweredUpTo(g, k + 1, start)
         == var before := LoweredUpTo(g, k, start);
            if before.Err? then before
            else if k in g.selected then LowerNode(g.initializers, before.value, g.nodes[k], k)
            else Ok(before.value.(nodes := before.value.nodes + [g.nodes[k]]))
  {
    hide LowerNode;
    ArityOfPrefix(g, k + 1);
    assert g.nodes[..k + 1][..k] == g.nodes[..k];
  }

  lemma ReferenceSnoc(sem: Semantics, g: Graph, k: nat, env: Env)
    requires k < |g.nodes|
    ensures EvalReference(sem, g.selected, g.nodes[..k + 1], env)
         == var before := EvalReference(sem, g.selected, g.nodes[..k], env);
            if before.None? then None else ReferenceStep(sem, g, k, before.value)
  {
    hide EvalRounded, EvalNode;
    assert g.nodes[..k + 1][..k] == g.nodes[..k];
  }

  lemma WeightKnown(g: Graph, env: Env, ref: Env, k: nat)
    requires k < |g.nodes| && k in g.selected && Lowerable(g.nodes[k]) && WeightsHeld(g, env) && ConvsStored(g)
    requires ReferenceKeeps(g, env, ref, k)
    ensures WeightAt(g, g.nodes[k], ref)
  {
    hide Defined;
  }

  /** Simulation: the builder's prefix runs, and agrees with the reference on every original name. */
  lemma {:induction false} Simulates(sem: Semantics, g: Graph, start: Builder, env: Env, k: nat, ref: Env)
    returns (low: Env)
    requires start.nodes == [] && WellFormed(g, env, start.occupied) && k <= |g.nodes|
    requires LoweredUpTo(g, k, start).Ok? && EvalReference(sem, g.selected, g.nodes[..k], env) == Some(ref)
    ensures var b := LoweredUpTo(g, k, start).value;
            Runs(sem, b, env, low) && start.occupied <= b.occupied
    ensures Agree(start.occupied, ref, low) && ReferenceKeeps(g, env, ref, k)
    decreases k
  {
    hide Runs, Agree, LowerNode, EvalRounded, EvalNode, LowerAll, LoweredUpTo, EvalReference, ReferenceKeeps,
      WeightsHeld, ConvsStored, NodeKnown, Ordered, Lowerable;
    if k == 0 {
      low := NothingYet(sem, g, start, env, ref);
    } else {
      LoweredStep(g, k - 1, start);
      ReferenceSnoc(sem, g, k - 1, env);
      var before := EvalReference(sem, g.selected, g.nodes[..k - 1], env).value;
      var b := LoweredUpTo(g, k - 1, start).value;
      var middle := Simulates(sem, g, start, env, k - 1, before);
      StepKeeps(sem, g, env, before, ref, k - 1);
      var node := g.nodes[k - 1];
      assert NodeKnown(node, start.occupied);
      if k - 1 in g.selected {
        WeightKnown(g, env, before, k - 1);
        OrderedAt(g, env, before, k - 1);
        low := SelectedStep(sem, g, b, node, k - 1, env, start.occupied, before, middle, ref);
      } else {
        low := PlainStep(sem, b, node, env, start.occupied, before, middle, ref);
      }
    }
  }

  lemma NothingYet(sem: Semantics, g: Graph, start: Builder, env: Env, ref: Env) returns (low: Env)
    requires start.nodes == [] && Selectable(g.nodes, g.selected)
    requires EvalReference(sem, g.selected, g.nodes[..0], env) == Some(ref)
    ensures LoweredUpTo(g, 0, start) == Ok(start) && Runs(sem, start, env, low)
    ensures Agree(start.occupied, ref, low) && ReferenceKeeps(g, env, ref, 0)
  {
    assert g.nodes[..0] == [];
    low := env;
  }

  lemma OrderedAt(g: Graph, env: Env, ref: Env, k: nat)
    requires k < |g.nodes| && Ordered(g.nodes, env.Keys) && ReferenceKeeps(g, env, ref, k)
    ensures InputsBound(g.nodes[k], ref.Keys)
  {
  }

  /**
   * Main result. Whenever the rounded graph has a value for every name, the lowered node list runs too, and
   * every name of the original graph holds the same value in both.
   */
  lemma LoweringPreservesMeaning(sem: Semantics, g: Graph, start: Builder, env: Env, ref: Env)
    requires start.nodes == [] && WellFormed(g, env, start.occupied)
    requires LoweredUpTo(g, |g.nodes|, start).Ok?
    requires EvalReference(sem, g.selected, g.nodes, env) == Some(ref)
    ensures exists low ::
        EvalNodes(sem, LoweredUpTo(g, |g.nodes|, start).value.nodes, env) == Some(low)
        && Agree(start.occupied, ref, low)
  {
    hide WellFormed, LoweredUpTo, EvalReference, Agree;
    assert g.nodes[..|g.nodes|] == g.nodes;
    var low := Simulates(sem, g, start, env, |g.nodes|, ref);
  }

  // ----- exact rounding -----

  lemma MapExact(t: Tensor)
    ensures Map(Exact, t) == t
  {
    assert Map(Exact, t).data == t.data;
  }

  lemma RoundedExactly(sem: Semantics, op: Op, ins: seq<Option<Value>>)
    requires sem.q == Exact && RoundedOp(sem, op, ins).Some?
    ensures EvalOp(sem, op, ins) == Some([RoundedOp(sem, op, ins).value])
  {
    hide Gemm, Conv, MatMul, PointwiseStrides;
    if op.MatMulOp? {
      var x, y := FloatsOf(ins[0]).value, FloatsOf(ins[1]).value;
      MapExact(x);
      MapExact(y);
      assert ins == [Some(Floats(x)), Some(Floats(y))];
      var product := EvalOp(sem, op, ins).value;
      MapExact(product[0].t);
      assert product == [product[0]];
    }
  }

  lemma {:induction false} ReferenceIsOriginal(sem: Semantics, selected: set<nat>, nodes: seq<Node>, env: Env)
    requires sem.q == Exact && EvalReference(sem, selected, nodes, env).Some?
    ensures EvalNodes(sem, nodes, env) == EvalReference(sem, selected, nodes, env)
  {
    hide RoundedOp, EvalOp, Outcome;
    if nodes != [] {
      var last := |nodes| - 1;
      ReferenceIsOriginal(sem, selected, nodes[..last], env);
      var before := EvalReference(sem, selected, nodes[..last], env).value;
      var ins := LookupAll(before, nodes[last].inputs);
      if last in selected {
        OutcomeNeedsValues(before, nodes[last],
          if RoundedOp(sem, nodes[last].op, ins).Some? then Some([RoundedOp(sem, nodes[last].op, ins).value])
          else None);
        RoundedExactly(sem, nodes[last].op, ins);
      }
    }
  }

  lemma OutcomeNeedsValues(env: Env, node: Node, outs: Option<seq<Value>>)
    requires Outcome(env, node, outs).Some?
    ensures outs.Some?
  {
  }

  /** With exact rounding the lowered graph gives every original name the original graph's value. */
  lemma ExactLoweringIsIdentity(sem: Semantics, g: Graph, start: Builder, env: Env)
    requires sem.q == Exact && start.nodes == [] && WellFormed(g, env, start.occupied)
    requires LoweredUpTo(g, |g.nodes|, start).Ok? && EvalReference(sem, g.selected, g.nodes, env).Some?
    ensures EvalNodes(sem, g.nodes, env).Some?
    ensures exists low :: EvalNodes(sem, LoweredUpTo(g, |g.nodes|, start).value.nodes, env) == Some(low)
                          && Agree(start.occupied, EvalNodes(sem, g.nodes, env).value, low)
  {
    hide WellFormed, LoweredUpTo, EvalReference, Agree, EvalNodes;
    ReferenceIsOriginal(sem, g.selected, g.nodes, env);
    LoweringPreservesMeaning(sem, g, start, env, EvalReference(sem, g.selected, g.nodes, env).value);
  }
}
