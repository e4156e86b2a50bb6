/** The lowered graph computes the rounded graph: every original name keeps its reference value. */
module LoweringSemantics {
  import opened Prelude
  import opened Tensors
  import opened PointwiseConv
  import opened GraphLowering

  /** The builder's nodes evaluate from `start` to `env`. */
  ghost predicate Runs(sem: Semantics, b: Builder, start: Env, env: Env) {
    EvalNodes(sem, b.nodes, start) == Some(env)
  }

  /** The two environments give every listed name the same value. */
  ghost predicate Agree(names: set<string>, a: Env, b: Env) {
    forall x :: x in names ==> (x in a <==> x in b) && (x in a ==> a[x] == b[x])
  }

  ghost predicate Bound(b: Builder, env: Env, name: string, v: Value) {
    name != "" && name in b.occupied && name in env && env[name] == v
  }

  // ----- single emissions -----

  lemma EvalSnoc(sem: Semantics, nodes: seq<Node>, node: Node, start: Env)
    ensures EvalNodes(sem, nodes + [node], start)
         == var before := EvalNodes(sem, nodes, start); if before.None? then None else EvalNode(sem, node, before.value)
  {
    assert (nodes + [node])[..|nodes|] == nodes;
  }

  lemma FreshIsNew(b: Builder)
    ensures var (c, name) := Fresh(b);
            && name !in b.occupied && c.occupied == b.occupied + {name} && c.nodes == b.nodes && name != ""
  {
    FreshIndexFree(b.counter, b.occupied);
  }

  lemma EmitShape(b: Builder, op: Op, inputs: seq<string>, output: Option<string>, name: string)
    ensures var (c, target) := Emit(b, op, inputs, output, name);
            && b.occupied <= c.occupied
            && (exists tag :: c.nodes == b.nodes + [Node(op, inputs, [target], tag)])
            && (output.Some? ==> target == output.value)
            && (output.None? ==> target !in b.occupied && target in c.occupied && target != "")
  {
    FreshIsNew(b);
    var (b1, target) := if output.Some? then (b, output.value) else Fresh(b);
    FreshIsNew(b1);
  }

  lemma EmitRuns(sem: Semantics, b: Builder, op: Op, inputs: seq<string>, output: Option<string>, name: string,
                 start: Env, env: Env, v: Value)
    requires Runs(sem, b, start, env) && EvalOp(sem, op, LookupAll(env, inputs)) == Some([v])
    ensures var (c, target) := Emit(b, op, inputs, output, name); Runs(sem, c, start, env[target := v])
  {
    var (c, target) := Emit(b, op, inputs, output, name);
    EmitShape(b, op, inputs, output, name);
    var tag :| c.nodes == b.nodes + [Node(op, inputs, [target], tag)];
    var node := Node(op, inputs, [target], tag);
    EvalSnoc(sem, b.nodes, node, start);
    BindOne(env, target, v);
  }

  lemma BindOne(env: Env, name: string, v: Value)
    ensures Bind(env, [name], [v]) == env[name := v]
  {
    assert [name][..0] == [];
  }

  /** A fresh emission: a new name is bound, every name in use keeps its value. */
  lemma FreshRuns(sem: Semantics, b: Builder, op: Op, inputs: seq<string>, name: string, start: Env, env: Env, v: Value)
    returns (env2: Env)
    requires Runs(sem, b, start, env) && EvalOp(sem, op, LookupAll(env, inputs)) == Some([v])
    ensures var (c, target) := Emit(b, op, inputs, None, name);
            && Runs(sem, c, start, env2) && Agree(b.occupied, env, env2) && b.occupied <= c.occupied
            && Bound(c, env2, target, v)
  {
    EmitRuns(sem, b, op, inputs, None, name, start, env, v);
    EmitShape(b, op, inputs, None, name);
    env2 := env[Emit(b, op, inputs, None, name).1 := v];
  }

  lemma Kept(b: Builder, c: Builder, env: Env, env2: Env, name: string, v: Value)
    requires Bound(b, env, name, v) && Agree(b.occupied, env, env2) && b.occupied <= c.occupied
    ensures Bound(c, env2, name, v)
  {
  }

  lemma AgreeChain(small: set<string>, large: set<string>, a: Env, b: Env, c: Env)
    requires small <= large && Agree(small, a, b) && Agree(large, b, c)
    ensures Agree(small, a, c)
  {
  }

  lemma VectorRuns(sem: Semantics, b: Builder, values: seq<int>, start: Env, env: Env) returns (env2: Env)
    requires Runs(sem, b, start, env)
    ensures var (c, target) := Vector(b, values);
            && Runs(sem, c, start, env2) && Agree(b.occupied, env, env2) && b.occupied <= c.occupied
            && Bound(c, env2, target, Ints(values))
  {
    FreshIsNew(b);
    env2 := FreshRuns(sem, Fresh(b).0, ConstantOp(Ints(values)), [], "", start, env, Ints(values));
  }

  lemma ScalarRuns(sem: Semantics, b: Builder, value: real, start: Env, env: Env) returns (env2: Env)
    requires Runs(sem, b, start, env)
    ensures var (c, target) := Scalar(b, value);
            && Runs(sem, c, start, env2) && Agree(b.occupied, env, env2) && b.occupied <= c.occupied
            && Bound(c, env2, target, Floats(Unit(value)))
  {
    FreshIsNew(b);
    env2 := FreshRuns(sem, Fresh(b).0, ConstantOp(Floats(Unit(value))), [], "", start, env, Floats(Unit(value)));
  }

  // ----- products -----

  lemma ConcreteCasts(sem: Semantics, t: Tensor)
    ensures EvalOp(sem, CastOp(Half), [Some(Floats(t))]) == Some([Halves(Map(sem.q, t))])
    ensures EvalOp(sem, CastOp(Float), [Some(Halves(Map(sem.q, t)))]) == Some([Floats(Map(sem.q, t))])
  {
    hide Map;
  }

  lemma LookupBound(b: Builder, env: Env, name: string, v: Value)
    requires Bound(b, env, name, v)
    ensures LookupAll(env, [name]) == [Some(v)]
  {
  }

  /** Casting down and up rounds every element once. */
  lemma QuantizedRuns(sem: Semantics, b: Builder, source: string, start: Env, env: Env, t: Tensor) returns (env2: Env)
    requires Runs(sem, b, start, env) && Bound(b, env, source, Floats(t))
    ensures var (c, target) := Quantized(b, source);
            && Runs(sem, c, start, env2) && Agree(b.occupied, env, env2) && b.occupied <= c.occupied
            && Bound(c, env2, target, Floats(Map(sem.q, t)))
  {
    hide Map, Runs, Agree, Emit, EvalOp, LookupAll, Bound;
    var (b1, half) := Emit(b, CastOp(Half), [source], None, "");
    ConcreteCasts(sem, t);
    LookupBound(b, env, source, Floats(t));
    var env1 := FreshRuns(sem, b, CastOp(Half), [source], "", start, env, Halves(Map(sem.q, t)));
    LookupBound(b1, env1, half, Halves(Map(sem.q, t)));
    env2 := FreshRuns(sem, b1, CastOp(Float), [half], "", start, env1, Floats(Map(sem.q, t)));
    AgreeChain(b.occupied, b1.occupied, env, env1, env2);
  }

  lemma ConcreteMatMul(sem: Semantics, x: Tensor, y: Tensor, p: Tensor)
    requires MatMul(x, y) == Some(p)
    ensures EvalOp(sem, MatMulOp, [Some(Floats(x)), Some(Floats(y))]) == Some([Floats(p)])
  {
    hide MatMul;
  }

  lemma ConcreteAdd(sem: Semantics, x: Tensor, y: Tensor, p: Tensor)
    requires AddOp(x, y) == Some(p)
    ensures EvalOp(sem, SumOp, [Some(Floats(x)), Some(Floats(y))]) == Some([Floats(p)])
  {
    hide AddOp;
  }

  /** The product of two rounded operands, rounded: what RoundedOp gives a matrix product. */
  lemma ProductRuns(sem: Semantics, b: Builder, left: string, right: string, name: string, start: Env, env: Env,
                    x: Tensor, y: Tensor, p: Tensor) returns (env2: Env)
    requires Runs(sem, b, start, env) && Bound(b, env, left, Floats(x)) && Bound(b, env, right, Floats(y))
    requires EvalOp(sem, MatMulOp, [Some(Floats(Map(sem.q, x))), Some(Floats(Map(sem.q, y)))]) == Some([Floats(p)])
    ensures var (c, target) := Product(b, left, right, name);
            && Runs(sem, c, start, env2) && Agree(b.occupied, env, env2) && b.occupied <= c.occupied
            && Bound(c, env2, target, Floats(Map(sem.q, p)))
  {
    hide Map, Runs, Agree, Emit, EvalOp, Quantized;
    var (b1, l) := Quantized(b, left);
    var env1 := QuantizedRuns(sem, b, left, start, env, x);
    Kept(b, b1, env, env1, right, Floats(y));
    var (b2, r) := Quantized(b1, right);
    var e2 := QuantizedRuns(sem, b1, right, start, env1, y);
    Kept(b1, b2, env1, e2, l, Floats(Map(sem.q, x)));
    var (b3, product) := Emit(b2, MatMulOp, [l, r], None, name);
    assert LookupAll(e2, [l, r]) == [Some(Floats(Map(sem.q, x))), Some(Floats(Map(sem.q, y)))];
    var e3 := FreshRuns(sem, b2, MatMulOp, [l, r], name, start, e2, Floats(p));
    env2 := QuantizedRuns(sem, b3, product, start, e3, p);
    AgreeChain(b.occupied, b1.occupied, env, env1, e2);
    AgreeChain(b.occupied, b2.occupied, env, e2, e3);
    AgreeChain(b.occupied, b3.occupied, env, e3, env2);
  }

  // ----- whole nodes -----

  /** A lowered node: its output holds `v`, every other name in use keeps its value. */
  ghost predicate Lowered(sem: Semantics, b: Builder, c: Builder, start: Env, env: Env, env2: Env, output: string,
                          v: Value) {
    && Runs(sem, c, start, env2) && b.occupied <= c.occupied
    && output in env2 && env2[output] == v
    && Agree(b.occupied - {output}, env, env2)
  }

  /** The final emission writes the node's own output over fresh intermediate names. */
  lemma FinalRuns(sem: Semantics, b0: Builder, b: Builder, op: Op, inputs: seq<string>, output: string,
                  start: Env, env0: Env, env: Env, v: Value) returns (env2: Env)
    requires Runs(sem, b, start, env) && EvalOp(sem, op, LookupAll(env, inputs)) == Some([v])
    requires b0.occupied <= b.occupied && Agree(b0.occupied, env0, env)
    ensures Lowered(sem, b0, Emit(b, op, inputs, Some(output), "").0, start, env0, env2, output, v)
  {
    EmitRuns(sem, b, op, inputs, Some(output), "", start, env, v);
    EmitShape(b, op, inputs, Some(output), "");
    env2 := env[output := v];
  }

  lemma LookupOne(env: Env, a: string)
    ensures LookupAll(env, [a]) == [Lookup(env, a)]
  {
  }

  lemma LookupTwo(env: Env, a: string, b: string)
    ensures LookupAll(env, [a, b]) == [Lookup(env, a), Lookup(env, b)]
  {
  }

  lemma MatMulRuns(sem: Semantics, b: Builder, node: Node, start: Env, env: Env, x: Tensor, y: Tensor, p: Tensor)
    returns (env2: Env)
    requires |node.inputs| >= 2 && |node.outputs| >= 1 && Runs(sem, b, start, env)
    requires Bound(b, env, node.inputs[0], Floats(x)) && Bound(b, env, node.inputs[1], Floats(y))
    requires EvalOp(sem, MatMulOp, [Some(Floats(Map(sem.q, x))), Some(Floats(Map(sem.q, y)))]) == Some([Floats(p)])
    ensures Lowered(sem, b, LowerMatMul(b, node), start, env, env2, node.outputs[0], Floats(Map(sem.q, p)))
  {
    hide Product, Map, Lowered;
    var (b1, product) := Product(b, node.inputs[0], node.inputs[1], node.name);
    var env1 := ProductRuns(sem, b, node.inputs[0], node.inputs[1], node.name, start, env, x, y, p);
    LookupOne(env1, product);
    env2 := FinalRuns(sem, b, b1, IdentityOp, [product], node.outputs[0], start, env, env1, Floats(Map(sem.q, p)));
  }

  /** An optional transposition. */
  lemma TransposedRuns(sem: Semantics, b: Builder, source: string, transpose: bool, start: Env, env: Env, t: Tensor)
    returns (env2: Env)
    requires Runs(sem, b, start, env) && Bound(b, env, source, Floats(t)) && |t.shape| == 2
    ensures var (c, target) := Transposed(b, source, transpose);
            && Runs(sem, c, start, env2) && Agree(b.occupied, env, env2) && b.occupied <= c.occupied
            && Bound(c, env2, target, Floats(if transpose then Transpose(t).value else t))
  {
    env2 := env;
    if transpose {
      LookupOne(env, source);
      env2 := FreshRuns(sem, b, TransposeOp, [source], "", start, env, Floats(Transpose(t).value));
    }
  }

  function Times(t: Tensor, factor: real): Tensor {
    Tensor(t.shape, seq(|t.data|, k requires 0 <= k < |t.data| => t.data[k] * factor))
  }

  lemma ScalarReads(t: Tensor, factor: real, k: nat)
    requires k < Size(t.shape) && FitsInto(t.shape, t.shape)
    ensures Read(t, t.shape, k) == t.data[k] && Read(Unit(factor), t.shape, k) == factor
  {
    SourceOfSame(t.shape, k);
  }

  /** Multiplying by a rank-zero tensor scales every element. */
  lemma ScalarProduct(t: Tensor, factor: real)
    ensures MulOp(t, Unit(factor)) == Some(Times(t, factor))
  {
    hide Read, Size, FitsInto, SourceIndex;
    var scalar := Unit(factor);
    assert Broadcast(t.shape, []) == Some(t.shape);
    FitsItself(t.shape);
    BroadcastFits(t.shape, []);
    var r := MulOp(t, scalar).value;
    forall k | 0 <= k < |r.data| ensures r.data[k] == Times(t, factor).data[k] {
      ScalarReads(t, factor, k);
      assert r.data[k] == Read(t, t.shape, k) * Read(scalar, t.shape, k);
    }
    assert r.data == Times(t, factor).data;
  }

  lemma ConcreteProduct(sem: Semantics, x: Tensor, y: Tensor, p: Tensor)
    requires MulOp(x, y) == Some(p)
    ensures EvalOp(sem, ProductOp, [Some(Floats(x)), Some(Floats(y))]) == Some([Floats(p)])
  {
    hide MulOp;
  }

  lemma TimesOne(t: Tensor)
    ensures Times(t, 1.0) == t
  {
    assert Times(t, 1.0).data == t.data;
  }

  lemma ScaledRuns(sem: Semantics, b: Builder, source: string, factor: real, start: Env, env: Env, t: Tensor)
    returns (env2: Env)
    requires Runs(sem, b, start, env) && Bound(b, env, source, Floats(t))
    ensures var (c, target) := Scaled(b, source, factor);
            && Runs(sem, c, start, env2) && Agree(b.occupied, env, env2) && b.occupied <= c.occupied
            && Bound(c, env2, target, Floats(Times(t, factor)))
  {
    hide Times, MulOp, Scalar;
    if factor == 1.0 {
      TimesOne(t);
      env2 := env;
    } else {
      var (b1, scalar) := Scalar(b, factor);
      var env1 := ScalarRuns(sem, b, factor, start, env);
      Kept(b, b1, env, env1, source, Floats(t));
      ScalarProduct(t, factor);
      ConcreteProduct(sem, t, Unit(factor), Times(t, factor));
      LookupTwo(env1, source, scalar);
      env2 := FreshRuns(sem, b1, ProductOp, [source, scalar], "", start, env1, Floats(Times(t, factor)));
      AgreeChain(b.occupied, b1.occupied, env, env1, env2);
    }
  }
}
