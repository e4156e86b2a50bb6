/**
 * Graphs of operators over named values, and the pass that replaces selected products
 * by half-rounded ones (adapters/export/precision.py).
 */
module GraphLowering {
  import opened Prelude
  import opened Tensors
  import opened PointwiseConv

  datatype DType = Float | Half

  datatype Value = Floats(t: Tensor) | Halves(t: Tensor) | Ints(v: seq<int>)

  /** Convolution attributes; an absent one holds the default the pass assumes. */
  datatype ConvAttrs = ConvAttrs(group: int, kernel: seq<int>, pads: seq<int>, autoPad: string, dilations: seq<int>,
                                 strides: seq<int>)

  datatype Op =
    | MatMulOp | GemmOp(transA: bool, transB: bool, alpha: real, beta: real) | ConvOp(attrs: ConvAttrs)
    | CastOp(to: DType) | IdentityOp | TransposeOp | ProductOp | SumOp | SliceOp | ReshapeOp | ShapeOp
    | GatherOp | ConcatOp | ConstantOp(value: Value) | OtherOp(kind: string)

  datatype Node = Node(op: Op, inputs: seq<string>, outputs: seq<string>, name: string)

  type Env = map<string, Value>

  /** `q` rounds to half precision; `other` gives the operators that are not spelled out here. */
  datatype Semantics = Semantics(q: real -> real, other: (Op, seq<Option<Value>>) -> Option<seq<Value>>)

  function Exact(x: real): real {
    x
  }

  // ----- operators -----

  /** The strides of an unpadded, ungrouped, undilated 1x1 convolution; anything else is unsupported. */
  function PointwiseStrides(attrs: ConvAttrs, dims: seq<int>): Option<(pos, pos)> {
    if |dims| != 4 || dims[2..] != [1, 1] then None
    else if !(attrs.group == 1 && attrs.kernel == [1, 1] && attrs.pads == [0, 0, 0, 0] && attrs.autoPad == "NOTSET"
              && attrs.dilations == [1, 1]) then None
    else if |attrs.strides| != 2 || attrs.strides[0] <= 0 || attrs.strides[1] <= 0 then None
    else Some((attrs.strides[0], attrs.strides[1]))
  }

  /** What the attributes and the weight's dimensions must say for a convolution to be lowered. */
  predicate Supported(attrs: ConvAttrs, dims: seq<int>) {
    && |dims| == 4 && dims[2] == 1 && dims[3] == 1
    && attrs.group == 1 && attrs.kernel == [1, 1] && attrs.pads == [0, 0, 0, 0] && attrs.dilations == [1, 1]
    && attrs.autoPad == "NOTSET"
    && |attrs.strides| == 2 && attrs.strides[0] > 0 && attrs.strides[1] > 0
  }

  /** Exactly the supported convolutions have strides, and these are the attribute's own. */
  lemma StridesAre(attrs: ConvAttrs, dims: seq<int>)
    ensures PointwiseStrides(attrs, dims)
         == if Supported(attrs, dims) then Some((attrs.strides[0], attrs.strides[1])) else None
  {
    if |dims| == 4 { assert dims[2..] == [dims[2], dims[3]]; }
  }

  /** General matrix product: alpha times the rounded product plus beta times a broadcast bias. */
  function Gemm(q: real -> real, a: Tensor, b: Tensor, bias: Option<Tensor>, transA: bool, transB: bool, alpha: real,
                beta: real)
    : Option<Tensor>
  {
    if |a.shape| != 2 || |b.shape| != 2 then None
    else
      var M, K := if transA then a.shape[1] else a.shape[0], if transA then a.shape[0] else a.shape[1];
      var L, N := if transB then b.shape[1] else b.shape[0], if transB then b.shape[0] else b.shape[1];
      if K != L || (bias.Some? && !FitsInto(bias.value.shape, [M, N])) then None
      else Some(GemmSized(q, a, b, bias, transA, transB, alpha, beta, M, K, N))
  }

  function GemmSized(q: real -> real, a: Tensor, b: Tensor, bias: Option<Tensor>, transA: bool, transB: bool,
                     alpha: real, beta: real,
                     M: pos, K: pos, N: pos): Tensor
    requires bias.Some? ==> FitsInto(bias.value.shape, [M, N])
  {
    Tensor([M, N], seq(Size([M, N]), k requires 0 <= k < Size([M, N]) =>
      alpha * GemmProduct(q, a, b, transA, transB, M, K, N, k / N, k % N)
      + (if bias.Some? then beta * Read(bias.value, [M, N], k) else 0.0)))
  }

  /** One term of the product's sum, read from the stored operands. */
  function GemmTerm(q: real -> real, a: Tensor, b: Tensor, transA: bool, transB: bool, M: pos, K: pos, N: pos, i: int,
                    j: int, c: int): real {
    q(At(a.data, if transA then c * M + i else i * K + c)) * q(At(b.data, if transB then j * K + c else c * N + j))
  }

  /** The rounded sum over the inner dimension for row `i` and column `j`. */
  function GemmProduct(q: real -> real, a: Tensor, b: Tensor, transA: bool, transB: bool, M: pos, K: pos, N: pos,
                       i: int, j: int): real {
    q(Sum(K, c => GemmTerm(q, a, b, transA, transB, M, K, N, i, j, c)))
  }

  function FloatsOf(x: Option<Value>): Option<Tensor> {
    if x.Some? && x.value.Floats? then Some(x.value.t) else None
  }

  function IntsOf(x: Option<Value>): Option<seq<int>> {
    if x.Some? && x.value.Ints? then Some(x.value.v) else None
  }

  function Wrap(t: Option<Tensor>): Option<Value> {
    if t.Some? then Some(Floats(t.value)) else None
  }

  function Pick(data: seq<int>, indexes: seq<int>): Option<seq<int>> {
    if exists i :: 0 <= i < |indexes| && !(0 <= indexes[i] < |data|) then None
    else Some(seq(|indexes|, i requires 0 <= i < |indexes| => data[indexes[i]]))
  }

  function JoinInts(ins: seq<Option<Value>>): Option<seq<int>> {
    if ins == [] then Some([])
    else
      var rest, last := JoinInts(ins[..|ins| - 1]), IntsOf(ins[|ins| - 1]);
      if rest.Some? && last.Some? then Some(rest.value + last.value) else None
  }

  function Binary(f: (Tensor, Tensor) -> Option<Tensor>, ins: seq<Option<Value>>): Option<Value> {
    if |ins| != 2 || FloatsOf(ins[0]).None? || FloatsOf(ins[1]).None? then None
    else Wrap(f(FloatsOf(ins[0]).value, FloatsOf(ins[1]).value))
  }

  /** An optional third operand: absent, or a float tensor. */
  predicate ProductInputs(ins: seq<Option<Value>>) {
    && 2 <= |ins| <= 3 && FloatsOf(ins[0]).Some? && FloatsOf(ins[1]).Some?
    && (|ins| == 3 && ins[2].Some? ==> FloatsOf(ins[2]).Some?)
  }

  function BiasOf(ins: seq<Option<Value>>): Option<Tensor> {
    if |ins| == 3 then FloatsOf(ins[2]) else None
  }

  function GemmWith(q: real -> real, op: Op, ins: seq<Option<Value>>): Option<Value>
    requires op.GemmOp?
  {
    if !ProductInputs(ins) then None
    else Wrap(Gemm(q, FloatsOf(ins[0]).value, FloatsOf(ins[1]).value, BiasOf(ins), op.transA, op.transB, op.alpha,
      op.beta))
  }

  function ConvWith(q: real -> real, op: Op, ins: seq<Option<Value>>): Option<Value>
    requires op.ConvOp?
  {
    if !ProductInputs(ins) then None
    else
      var x, w := FloatsOf(ins[0]).value, FloatsOf(ins[1]).value;
      var strides := PointwiseStrides(op.attrs, w.shape);
      if strides.None? then None else Wrap(Conv(q, x, w, BiasOf(ins), strides.value.0, strides.value.1))
  }

  function CastTo(q: real -> real, to: DType, x: Value): Option<Value> {
    match x
    case Floats(t) => Some(if to == Half then Halves(Map(q, t)) else x)
    case Halves(t) => Some(if to == Half then x else Floats(t))
    case Ints(_) => None
  }

  /** The operators this model spells out, where they are defined. */
  function Concrete(q: real -> real, op: Op, ins: seq<Option<Value>>): Option<Value> {
    match op
    case MatMulOp => Binary(MatMul, ins)
    case GemmOp(_, _, _, _) => GemmWith(Exact, op, ins)
    case ConvOp(_) => ConvWith(Exact, op, ins)
    case CastOp(to) => if |ins| == 1 && ins[0].Some? then CastTo(q, to, ins[0].value) else None
    case IdentityOp => if |ins| == 1 then ins[0] else None
    case TransposeOp => if |ins| == 1 && FloatsOf(ins[0]).Some? then Wrap(Transpose(FloatsOf(ins[0]).value)) else None
    case ProductOp => Binary(MulOp, ins)
    case SumOp => Binary(AddOp, ins)
    case SliceOp =>
      if |ins| == 5 && FloatsOf(ins[0]).Some? && forall i :: 1 <= i < 5 ==> IntsOf(ins[i]).Some? then
        Wrap(Slice(FloatsOf(ins[0]).value, IntsOf(ins[1]).value, IntsOf(ins[2]).value, IntsOf(ins[3]).value,
          IntsOf(ins[4]).value))
      else None
    case ReshapeOp =>
      if |ins| == 2 && FloatsOf(ins[0]).Some? && IntsOf(ins[1]).Some? then
        Wrap(Reshape(FloatsOf(ins[0]).value, IntsOf(ins[1]).value))
      else None
    case ShapeOp => if |ins| == 1 && FloatsOf(ins[0]).Some? then Some(Ints(FloatsOf(ins[0]).value.shape)) else None
    case GatherOp =>
      if |ins| == 2 && IntsOf(ins[0]).Some? && IntsOf(ins[1]).Some? then
        var picked := Pick(IntsOf(ins[0]).value, IntsOf(ins[1]).value);
        if picked.Some? then Some(Ints(picked.value)) else None
      else None
    case ConcatOp => var joined := JoinInts(ins); if joined.Some? then Some(Ints(joined.value)) else None
    case ConstantOp(value) => if ins == [] then Some(value) else None
    case OtherOp(_) => None
  }

  function EvalOp(sem: Semantics, op: Op, ins: seq<Option<Value>>): Option<seq<Value>> {
    var r := Concrete(sem.q, op, ins);
    if r.Some? then Some([r.value]) else sem.other(op, ins)
  }

  // ----- evaluation -----

  function Lookup(env: Env, name: string): Option<Value> {
    if name != "" && name in env then Some(env[name]) else None
  }

  function LookupAll(env: Env, names: seq<string>): seq<Option<Value>> {
    seq(|names|, i requires 0 <= i < |names| => Lookup(env, names[i]))
  }

  function Bind(env: Env, names: seq<string>, values: seq<Value>): Env
    requires |names| <= |values|
  {
    if names == [] then env
    else Bind(env, names[..|names| - 1], values)[names[|names| - 1] := values[|names| - 1]]
  }

  function Outcome(env: Env, node: Node, outs: Option<seq<Value>>): Option<Env> {
    if outs.None? || |outs.value| < |node.outputs| then None else Some(Bind(env, node.outputs, outs.value))
  }

  function EvalNode(sem: Semantics, node: Node, env: Env): Option<Env> {
    Outcome(env, node, EvalOp(sem, node.op, LookupAll(env, node.inputs)))
  }

  function EvalNodes(sem: Semantics, nodes: seq<Node>, env: Env): Option<Env> {
    if nodes == [] then Some(env)
    else
      var before := EvalNodes(sem, nodes[..|nodes| - 1], env);
      if before.None? then None else EvalNode(sem, nodes[|nodes| - 1], before.value)
  }

  /** A selected node by definition: operands and product rounded once, everything else exact. */
  function RoundedOp(sem: Semantics, op: Op, ins: seq<Option<Value>>): Option<Value> {
    match op
    case MatMulOp =>
      if |ins| != 2 || FloatsOf(ins[0]).None? || FloatsOf(ins[1]).None? then None
      else
        var product := EvalOp(sem, MatMulOp, [Some(Floats(Map(sem.q, FloatsOf(ins[0]).value))),
                                              Some(Floats(Map(sem.q, FloatsOf(ins[1]).value)))]);
        if product.Some? && |product.value| == 1
          && product.value[0].Floats? then Some(Floats(Map(sem.q, product.value[0].t)))
        else None
    case GemmOp(_, _, _, _) => GemmWith(sem.q, op, ins)
    case ConvOp(_) => ConvWith(sem.q, op, ins)
    case _ => None
  }

  function EvalRounded(sem: Semantics, node: Node, env: Env): Option<Env> {
    var r := RoundedOp(sem, node.op, LookupAll(env, node.inputs));
    Outcome(env, node, if r.Some? then Some([r.value]) else None)
  }

  /** The graph with its selected nodes rounded: what the lowered graph must compute. */
  function EvalReference(sem: Semantics, selected: set<nat>, nodes: seq<Node>, env: Env): Option<Env> {
    if nodes == [] then Some(env)
    else
      var last := |nodes| - 1;
      var before := EvalReference(sem, selected, nodes[..last], env);
      if before.None? then None
      else if last in selected then EvalRounded(sem, nodes[last], before.value)
      else EvalNode(sem, nodes[last], before.value)
  }

  // ----- fresh names -----

  const PREFIX := "_cy_fp16_"

  function Name(k: nat): string {
    PREFIX + Decimal(k)
  }

  lemma NameInjective(j: nat, k: nat)
    requires Name(j) == Name(k)
    ensures j == k
  {
    assert Name(j)[|PREFIX|..] == Decimal(j) && Name(k)[|PREFIX|..] == Decimal(k);
    DecimalInjective(j, k);
  }

  /** The builder's state: emitted nodes, the next number to try and every name in use. */
  datatype Builder = Builder(nodes: seq<Node>, counter: nat, occupied: set<string>)

  /** The first number from `counter` on whose name is free; each occupied name is met at most once. */
  function FreshIndex(counter: nat, occupied: set<string>): nat
    decreases |occupied|
  {
    if Name(counter) !in occupied then counter else FreshIndex(counter + 1, occupied - {Name(counter)})
  }

  lemma {:induction false} FreshIndexFree(counter: nat, occupied: set<string>)
    ensures var k := FreshIndex(counter, occupied);
            k >= counter && Name(k) !in occupied && forall j: nat :: counter <= j < k ==> Name(j) in occupied
    decreases |occupied|
  {
    if Name(counter) in occupied {
      var rest := occupied - {Name(counter)};
      FreshIndexFree(counter + 1, rest);
      var k := FreshIndex(counter + 1, rest);
      if Name(k) == Name(counter) { NameInjective(k, counter); }
    }
  }

  function Fresh(b: Builder): (Builder, string) {
    var k := FreshIndex(b.counter, b.occupied);
    (b.(counter := k + 1, occupied := b.occupied + {Name(k)}), Name(k))
  }

  // ----- the pass on builder states -----

  function Emit(b: Builder, op: Op, inputs: seq<string>, output: Option<string>, name: string): (Builder, string) {
    var (b1, target) := if output.Some? then (b, output.value) else Fresh(b);
    var (b2, tag) := if name != "" then (b1, name) else Fresh(b1);
    (b2.(nodes := b2.nodes + [Node(op, inputs, [target], tag)]), target)
  }

  function Vector(b: Builder, values: seq<int>): (Builder, string) {
    Emit(Fresh(b).0, ConstantOp(Ints(values)), [], None, "")
  }

  /** A rank-zero tensor. */
  function Unit(value: real): Tensor {
    Tensor([], [value])
  }

  function Scalar(b: Builder, value: real): (Builder, string) {
    Emit(Fresh(b).0, ConstantOp(Floats(Unit(value))), [], None, "")
  }

  function Quantized(b: Builder, source: string): (Builder, string) {
    var (b1, half) := Emit(b, CastOp(Half), [source], None, "");
    Emit(b1, CastOp(Float), [half], None, "")
  }

  function Product(b: Builder, left: string, right: string, name: string): (Builder, string) {
    var (b1, l) := Quantized(b, left);
    var (b2, r) := Quantized(b1, right);
    var (b3, product) := Emit(b2, MatMulOp, [l, r], None, name);
    Quantized(b3, product)
  }

  function LowerMatMul(b: Builder, node: Node): Builder
    requires |node.inputs| >= 2 && |node.outputs| >= 1
  {
    var (b1, product) := Product(b, node.inputs[0], node.inputs[1], node.name);
    Emit(b1, IdentityOp, [product], Some(node.outputs[0]), "").0
  }

  function Transposed(b: Builder, source: string, transpose: bool): (Builder, string) {
    if transpose then Emit(b, TransposeOp, [source], None, "") else (b, source)
  }

  function Scaled(b: Builder, source: string, factor: real): (Builder, string) {
    if factor == 1.0 then (b, source)
    else
      var (b1, scalar) := Scalar(b, factor);
      Emit(b1, ProductOp, [source, scalar], None, "")
  }

  function BiasName(node: Node): string {
    if |node.inputs| > 2 then node.inputs[2] else ""
  }

  /** Transpose as asked, multiply, scale by alpha. */
  function GemmScaled(b: Builder, node: Node): (Builder, string)
    requires node.op.GemmOp? && |node.inputs| >= 2
  {
    var (b1, left) := Transposed(b, node.inputs[0], node.op.transA);
    var (b2, right) := Transposed(b1, node.inputs[1], node.op.transB);
    var (b3, product) := Product(b2, left, right, node.name);
    Scaled(b3, product, node.op.alpha)
  }

  function LowerGemm(b: Builder, node: Node): Builder
    requires node.op.GemmOp? && |node.inputs| >= 2 && |node.outputs| >= 1
  {
    var (b4, scaled) := GemmScaled(b, node);
    if BiasName(node) == "" then Emit(b4, IdentityOp, [scaled], Some(node.outputs[0]), "").0
    else
      var (b5, bias) := Scaled(b4, BiasName(node), node.op.beta);
      Emit(b5, SumOp, [scaled, bias], Some(node.outputs[0]), "").0
  }

  function Sample(b: Builder, source: string, strides: (pos, pos)): (Builder, string) {
    if strides == (1, 1) then (b, source)
    else
      var (b1, starts) := Vector(b, [0, 0]);
      var (b2, ends) := Vector(b1, [SLICE_END, SLICE_END]);
      var (b3, axes) := Vector(b2, [2, 3]);
      var (b4, steps) := Vector(b3, [strides.0, strides.1]);
      Emit(b4, SliceOp, [source, starts, ends, axes, steps], None, "")
  }

  function OutputShape(b: Builder, shape: string, channels: pos): (Builder, string) {
    var (b1, zero) := Vector(b, [0]);
    var (b2, batch) := Emit(b1, GatherOp, [shape, zero], None, "");
    var (b3, axes) := Vector(b2, [2, 3]);
    var (b4, spatial) := Emit(b3, GatherOp, [shape, axes], None, "");
    var (b5, channel) := Vector(b4, [channels]);
    Emit(b5, ConcatOp, [batch, channel, spatial], None, "")
  }

  function Reshaped(b: Builder, source: string, dims: seq<int>): (Builder, string) {
    var (b1, shape) := Vector(b, dims);
    Emit(b1, ReshapeOp, [source, shape], None, "")
  }

  /** Sampling, flattening and the rounded product: everything before the output is shaped. */
  function PointwiseProduct(b: Builder, node: Node, dims: seq<pos>, strides: (pos, pos)): (Builder, string, string)
    requires |dims| == 4 && |node.inputs| >= 2
  {
    var (b1, source) := Sample(b, node.inputs[0], strides);
    var (b2, shape) := Emit(b1, ShapeOp, [source], None, "");
    var (b3, flattened) := Reshaped(b2, source, [0, dims[1] as int, -1]);
    var (b4, kernel) := Reshaped(b3, node.inputs[1], [1, dims[0], dims[1]]);
    var (b5, product) := Product(b4, kernel, flattened, node.name);
    (b5, shape, product)
  }

  function LowerPointwise(b: Builder, node: Node, dims: seq<pos>, strides: (pos, pos)): Builder
    requires |dims| == 4 && |node.inputs| >= 2 && |node.outputs| >= 1
  {
    var (b5, shape, product) := PointwiseProduct(b, node, dims, strides);
    var (b6, outputShape) := OutputShape(b5, shape, dims[0]);
    if BiasName(node) == "" then Emit(b6, ReshapeOp, [product, outputShape], Some(node.outputs[0]), "").0
    else
      var (b7, output) := Emit(b6, ReshapeOp, [product, outputShape], None, "");
      var (b8, broadcast) := Reshaped(b7, BiasName(node), [1, dims[0], 1, 1]);
      Emit(b8, SumOp, [output, broadcast], Some(node.outputs[0]), "").0
  }

  datatype LowerError = Unsupported(index: nat)

  /** Shape facts the pass reads off the initializers. */
  function WeightDims(initializers: map<string, Tensor>, node: Node): seq<pos> {
    if |node.inputs| >= 2 && node.inputs[1] in initializers then initializers[node.inputs[1]].shape else []
  }

  predicate Arity(node: Node) {
    |node.inputs| >= 2 && |node.outputs| == 1
  }

  function LowerNode(initializers: map<string, Tensor>, b: Builder, node: Node, index: nat): Result<Builder, LowerError>
    requires Arity(node)
  {
    match node.op
    case ConvOp(attrs) =>
      var dims := WeightDims(initializers, node);
      var strides := PointwiseStrides(attrs, dims);
      if strides.None? then Err(Unsupported(index)) else Ok(LowerPointwise(b, node, dims, strides.value))
    case GemmOp(_, _, _, _) => Ok(LowerGemm(b, node))
    case _ => Ok(LowerMatMul(b, node))
  }

  /** The builder after the first `|nodes|` nodes of the graph. */
  function LowerAll(initializers: map<string, Tensor>, selected: set<nat>, nodes: seq<Node>,
                    start: Builder): Result<Builder, LowerError>
    requires forall i :: 0 <= i < |nodes| && i in selected ==> Arity(nodes[i])
  {
    if nodes == [] then Ok(start)
    else
      var last := |nodes| - 1;
      var before := LowerAll(initializers, selected, nodes[..last], start);
      if before.Err? then before
      else if last in selected then LowerNode(initializers, before.value, nodes[last], last)
      else Ok(before.value.(nodes := before.value.nodes + [nodes[last]]))
  }
}
