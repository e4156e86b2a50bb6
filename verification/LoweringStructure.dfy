/**
 * The lowered node list is well formed: every name is defined once and before use, fresh names stay clear of
 * the graph's own, and each upcast and raw product the pass introduces has exactly one consumer.
 */
module LoweringStructure {
  import opened Prelude
  import opened PointwiseConv
  import opened GraphLowering
  import opened LoweringSemantics
  import opened LoweringTheorem

  // ----- counting -----

  /** How often a name is written. */
  function Defs(nodes: seq<Node>, x: string): nat {
    if nodes == [] then 0 else Defs(nodes[..|nodes| - 1], x) + multiset(nodes[|nodes| - 1].outputs)[x]
  }

  /** How often a name is read. */
  function Uses(nodes: seq<Node>, x: string): nat {
    if nodes == [] then 0 else Uses(nodes[..|nodes| - 1], x) + multiset(nodes[|nodes| - 1].inputs)[x]
  }

  /** Upcasts to single precision and raw products. */
  predicate PrivateOp(op: Op) {
    op == CastOp(Float) || op.MatMulOp?
  }

  /** A node of that kind whose output is not a name of the original graph. */
  predicate Private(node: Node, orig: set<string>) {
    PrivateOp(node.op) && |node.outputs| == 1 && node.outputs[0] !in orig
  }

  function PrivateNames(nodes: seq<Node>, orig: set<string>): set<string> {
    if nodes == [] then {}
    else
      var last := nodes[|nodes| - 1];
      PrivateNames(nodes[..|nodes| - 1], orig) + (if Private(last, orig) then {last.outputs[0]} else {})
  }

  lemma Snoc(nodes: seq<Node>, node: Node, given: set<string>, orig: set<string>, x: string)
    ensures Defs(nodes + [node], x) == Defs(nodes, x) + multiset(node.outputs)[x]
    ensures Uses(nodes + [node], x) == Uses(nodes, x) + multiset(node.inputs)[x]
    ensures Defined(nodes + [node], given) == Defined(nodes, given) + Elements(node.outputs)
    ensures PrivateNames(nodes + [node], orig)
         == PrivateNames(nodes, orig) + (if Private(node, orig) then {node.outputs[0]} else {})
  {
    assert (nodes + [node])[..|nodes|] == nodes;
  }

  lemma {:induction false} DefinedIff(nodes: seq<Node>, given: set<string>, x: string)
    ensures x in Defined(nodes, given) <==> x in given || Defs(nodes, x) > 0
  {
    if nodes != [] { DefinedIff(nodes[..|nodes| - 1], given, x); }
  }

  lemma {:induction false} UnknownUnused(nodes: seq<Node>, occupied: set<string>, orig: set<string>, x: string)
    requires NamesKnown(nodes, occupied) && x !in occupied
    ensures Uses(nodes, x) == 0 && Defs(nodes, x) == 0 && x !in PrivateNames(nodes, orig)
  {
    if nodes != [] {
      var last := nodes[|nodes| - 1];
      assert NodeKnown(last, occupied);
      assert x !in Elements(last.inputs) && x !in Elements(last.outputs);
      UnknownUnused(nodes[..|nodes| - 1], occupied, orig, x);
    }
  }

  lemma {:induction false} PrivateNotOriginal(nodes: seq<Node>, orig: set<string>)
    ensures PrivateNames(nodes, orig) !! orig
  {
    if nodes != [] { PrivateNotOriginal(nodes[..|nodes| - 1], orig); }
  }

  // ----- the invariant -----

  /** Every name is written at most once, and a given name never. */
  ghost predicate Once(nodes: seq<Node>, given: set<string>) {
    forall x :: x != "" ==> Defs(nodes, x) <= (if x in given then 0 else 1)
  }

  /** Private names have one reader, except the open ones, which have none yet. */
  ghost predicate OneReader(nodes: seq<Node>, orig: set<string>, open: set<string>) {
    && open <= PrivateNames(nodes, orig)
    && forall x :: x in PrivateNames(nodes, orig) ==> Uses(nodes, x) == if x in open then 0 else 1
  }

  ghost predicate Threaded(b: Builder, given: set<string>, orig: set<string>, open: set<string>) {
    && Ordered(b.nodes, given) && Once(b.nodes, given) && NamesKnown(b.nodes, b.occupied)
    && given <= orig <= b.occupied && OneReader(b.nodes, orig, open)
  }

  /** A later builder only adds names outside the ones in use. */
  ghost predicate Extends(b: Builder, c: Builder, orig: set<string>) {
    && b.occupied <= c.occupied && b.nodes <= c.nodes
    && (forall x :: Defs(b.nodes, x) <= Defs(c.nodes, x))
    && (forall x :: x in orig ==> Defs(c.nodes, x) == Defs(b.nodes, x))
    && (forall x :: x in b.occupied && x in PrivateNames(c.nodes, orig) ==> x in PrivateNames(b.nodes, orig))
  }

  /** A defined name that any number of nodes may read. */
  ghost predicate Shared(b: Builder, given: set<string>, orig: set<string>, x: string) {
    x != "" && x in b.occupied && x in Defined(b.nodes, given) && x !in PrivateNames(b.nodes, orig)
  }

  lemma ExtendsChain(a: Builder, b: Builder, c: Builder, orig: set<string>)
    requires Extends(a, b, orig) && Extends(b, c, orig)
    ensures Extends(a, c, orig)
  {
  }

  /** A node that may be appended, consuming the open names `used`. */
  ghost predicate Fits(b: Builder, node: Node, given: set<string>, orig: set<string>, open: set<string>,
                       used: set<string>) {
    && Elements(node.inputs) <= b.occupied && InputsBound(node, Defined(b.nodes, given))
    && used <= open && (forall x :: x in used ==> multiset(node.inputs)[x] == 1)
    && (forall x :: x in node.inputs && x in PrivateNames(b.nodes, orig) ==> x in used)
    && (forall x :: x in node.outputs && x != "" ==>
      x !in given && Defs(b.nodes, x) == 0 && multiset(node.outputs)[x] == 1)
    && (Private(node, orig) ==> node.outputs[0] !in b.occupied)
  }

  function Opened(node: Node, orig: set<string>): set<string> {
    if Private(node, orig) then {node.outputs[0]} else {}
  }

  lemma AppendOrdered(nodes: seq<Node>, node: Node, given: set<string>)
    requires Ordered(nodes, given) && InputsBound(node, Defined(nodes, given))
    ensures Ordered(nodes + [node], given)
  {
    hide InputsBound, Defined;
    var all := nodes + [node];
    forall i | 0 <= i < |all| ensures InputsBound(all[i], Defined(all[..i], given)) {
      assert all[..i] == nodes[..i];
      if i == |nodes| { assert nodes[..i] == nodes; }
    }
  }

  lemma AppendOnce(nodes: seq<Node>, node: Node, given: set<string>)
    requires Once(nodes, given)
    requires forall x :: x in node.outputs && x != "" ==>
        x !in given && Defs(nodes, x) == 0 && multiset(node.outputs)[x] == 1
    ensures Once(nodes + [node], given)
  {
    forall x | x != "" ensures Defs(nodes + [node], x) <= (if x in given then 0 else 1) {
      Snoc(nodes, node, given, {}, x);
      if x in node.outputs {}
    }
  }

  lemma AppendReader(b: Builder, node: Node, given: set<string>, orig: set<string>, open: set<string>,
                     used: set<string>)
    requires OneReader(b.nodes, orig, open) && NamesKnown(b.nodes, b.occupied) && Fits(b, node, given, orig, open, used)
    ensures OneReader(b.nodes + [node], orig, open - used + Opened(node, orig))
  {
    hide Ordered, InputsBound, Defined;
    var all, now := b.nodes + [node], open - used + Opened(node, orig);
    forall x | x in PrivateNames(all, orig) ensures Uses(all, x) == if x in now then 0 else 1 {
      Snoc(b.nodes, node, given, orig, x);
      if x !in PrivateNames(b.nodes, orig) {
        assert x == node.outputs[0];
        UnknownUnused(b.nodes, b.occupied, orig, x);
        assert x !in Elements(node.inputs);
      } else if Private(node, orig) && x == node.outputs[0] {
        UnknownUnused(b.nodes, b.occupied, orig, x);
      }
    }
    forall x | x in now ensures x in PrivateNames(all, orig) {
      Snoc(b.nodes, node, given, orig, x);
    }
  }

  lemma AppendKnown(b: Builder, c: Builder, node: Node)
    requires NamesKnown(b.nodes, b.occupied) && b.occupied <= c.occupied && c.nodes == b.nodes + [node]
        && NodeKnown(node, c.occupied)
    ensures NamesKnown(c.nodes, c.occupied)
  {
    forall i | 0 <= i < |c.nodes| ensures NodeKnown(c.nodes[i], c.occupied) {
      if i < |b.nodes| { assert NodeKnown(b.nodes[i], b.occupied); }
    }
  }

  lemma AppendThreaded(b: Builder, c: Builder, node: Node, given: set<string>, orig: set<string>, open: set<string>,
                       used: set<string>)
    requires Threaded(b, given, orig, open) && Fits(b, node, given, orig, open, used)
    requires b.occupied <= c.occupied && c.nodes == b.nodes + [node] && Elements(node.outputs) <= c.occupied
    ensures Threaded(c, given, orig, open - used + Opened(node, orig))
  {
    hide Ordered, Once, OneReader, NamesKnown, InputsBound, Private;
    AppendOrdered(b.nodes, node, given);
    AppendOnce(b.nodes, node, given);
    AppendReader(b, node, given, orig, open, used);
    AppendKnown(b, c, node);
  }

  // ----- emissions -----

  /** Readable inputs of a new node, of which those in `used` are private and open. */
  ghost predicate Ready(b: Builder, inputs: seq<string>, given: set<string>, orig: set<string>, open: set<string>,
                        used: set<string>) {
    && used <= open && (forall x :: x in used ==> multiset(inputs)[x] == 1)
    && (forall x :: x in inputs ==> x != "" && x in b.occupied && x in Defined(b.nodes, given))
    && (forall x :: x in inputs && x !in used ==> x !in PrivateNames(b.nodes, orig))
  }

  /** A fresh output is open when private and shared otherwise. */
  lemma EmitThreaded(b: Builder, op: Op, inputs: seq<string>, name: string, given: set<string>, orig: set<string>,
                     open: set<string>, used: set<string>)
    requires Threaded(b, given, orig, open) && Ready(b, inputs, given, orig, open, used)
    ensures var (c, target) := Emit(b, op, inputs, None, name);
            && Threaded(c, given, orig, open - used + (if PrivateOp(op) then {target} else {})) && Extends(b, c, orig)
            && target !in b.occupied && target in c.occupied && target != "" && target in Defined(c.nodes, given)
            && (!PrivateOp(op) ==> Shared(c, given, orig, target))
  {
    hide Threaded, Emit, PrivateOp;
    EmitShape(b, op, inputs, None, name);
    var (c, target) := Emit(b, op, inputs, None, name);
    var tag :| c.nodes == b.nodes + [Node(op, inputs, [target], tag)];
    var node := Node(op, inputs, [target], tag);
    OriginalOccupied(b, given, orig, open, target);
    FreshFits(b, node, given, orig, open, used, target);
    AppendThreaded(b, c, node, given, orig, open, used);
    FreshExtends(b, c, node, given, orig, open, target);
  }

  lemma OriginalOccupied(b: Builder, given: set<string>, orig: set<string>, open: set<string>, x: string)
    requires Threaded(b, given, orig, open) && x !in b.occupied
    ensures x !in orig && x !in given && Defs(b.nodes, x) == 0
    ensures NamesKnown(b.nodes, b.occupied)
  {
    UnknownUnused(b.nodes, b.occupied, orig, x);
  }

  lemma FreshFits(b: Builder, node: Node, given: set<string>, orig: set<string>, open: set<string>, used: set<string>,
                  target: string)
    requires Ready(b, node.inputs, given, orig, open, used) && node.outputs == [target]
    requires target !in b.occupied && target !in given && Defs(b.nodes, target) == 0
    ensures Fits(b, node, given, orig, open, used)
  {
  }

  lemma FreshExtends(b: Builder, c: Builder, node: Node, given: set<string>, orig: set<string>, open: set<string>,
                     target: string)
    requires NamesKnown(b.nodes, b.occupied) && b.occupied <= c.occupied && c.nodes == b.nodes + [node]
    requires node.outputs == [target] && target !in b.occupied && target !in orig && target in c.occupied
        && target != ""
    ensures Extends(b, c, orig) && target in Defined(c.nodes, given)
    ensures Opened(node, orig) == if PrivateOp(node.op) then {target} else {}
    ensures !PrivateOp(node.op) ==> Shared(c, given, orig, target)
  {
    hide PrivateOp;
    forall x ensures Defs(c.nodes, x) == Defs(b.nodes, x) + (if x == target then 1 else 0) {
      Snoc(b.nodes, node, given, orig, x);
    }
    Snoc(b.nodes, node, given, orig, target);
    UnknownUnused(b.nodes, b.occupied, orig, target);
    assert target in Elements([target]);
  }

  // ----- products are rounded at once -----

  predicate RawProduct(node: Node, orig: set<string>) {
    node.op.MatMulOp? && Private(node, orig)
  }

  /** Every raw product is read by the half cast that directly follows it. */
  ghost predicate Rounded(nodes: seq<Node>, orig: set<string>) {
    forall i :: 0 <= i < |nodes| && RawProduct(nodes[i], orig) ==>
      i + 1 < |nodes| && nodes[i + 1].op == CastOp(Half) && nodes[i + 1].inputs == nodes[i].outputs
  }

  ghost predicate Linked(b: Builder, given: set<string>, orig: set<string>, open: set<string>) {
    Threaded(b, given, orig, open) && Rounded(b.nodes, orig)
  }

  lemma RoundedSnoc(nodes: seq<Node>, node: Node, orig: set<string>)
    requires Rounded(nodes, orig) && !RawProduct(node, orig)
    ensures Rounded(nodes + [node], orig)
  {
    hide RawProduct;
  }

  lemma RoundedPair(nodes: seq<Node>, product: Node, half: Node, orig: set<string>)
    requires Rounded(nodes, orig) && half.op == CastOp(Half) && half.inputs == product.outputs
    ensures Rounded(nodes + [product] + [half], orig)
  {
  }

  /** A name a new node may read: defined, and open if it is private. */
  ghost predicate Usable(b: Builder, given: set<string>, orig: set<string>, open: set<string>, x: string) {
    x != "" && x in b.occupied && x in Defined(b.nodes, given) && (x in PrivateNames(b.nodes, orig) ==> x in open)
  }

  lemma StillUsable(b: Builder, c: Builder, given: set<string>, orig: set<string>, open: set<string>,
                    open2: set<string>, x: string)
    requires Usable(b, given, orig, open, x) && Extends(b, c, orig) && (x in open ==> x in open2)
    ensures Usable(c, given, orig, open2, x)
  {
    DefinedIff(b.nodes, given, x);
    DefinedIff(c.nodes, given, x);
  }

  lemma UsableReady(b: Builder, inputs: seq<string>, given: set<string>, orig: set<string>, open: set<string>)
    requires Distinct(inputs) && forall x :: x in inputs ==> Usable(b, given, orig, open, x)
    ensures Ready(b, inputs, given, orig, open, open * Elements(inputs))
  {
    hide Defined;
    forall x | x in open * Elements(inputs) ensures multiset(inputs)[x] == 1 {
      OnceInside(inputs, x);
    }
  }

  lemma {:induction false} OnceInside(s: seq<string>, x: string)
    requires Distinct(s) && x in s
    ensures multiset(s)[x] == 1
  {
    var last := |s| - 1;
    assert s == s[..last] + [s[last]];
    if s[last] == x {
      assert x !in s[..last];
    } else {
      OnceInside(s[..last], x);
    }
  }

  lemma EmitLinked(b: Builder, op: Op, inputs: seq<string>, name: string, given: set<string>, orig: set<string>,
                   open: set<string>)
    requires Linked(b, given, orig, open) && !op.MatMulOp?
    requires Distinct(inputs) && forall x :: x in inputs ==> Usable(b, given, orig, open, x)
    ensures var (c, target) := Emit(b, op, inputs, None, name);
            var now := open - Elements(inputs) + (if PrivateOp(op) then {target} else {});
            && Linked(c, given, orig, now) && Extends(b, c, orig) && Usable(c, given, orig, now, target)
            && target !in b.occupied && target !in orig
  {
    hide Threaded, Rounded, Emit, Defined, Extends, Ready;
    UsableReady(b, inputs, given, orig, open);
    EmitThreaded(b, op, inputs, name, given, orig, open, open * Elements(inputs));
    EmitShape(b, op, inputs, None, name);
    var (c, target) := Emit(b, op, inputs, None, name);
    var tag :| c.nodes == b.nodes + [Node(op, inputs, [target], tag)];
    RoundedSnoc(b.nodes, Node(op, inputs, [target], tag), orig);
    OriginalOccupied(b, given, orig, open, target);
    assert open - open * Elements(inputs) == open - Elements(inputs);
  }

  lemma FreshLinked(b: Builder, given: set<string>, orig: set<string>, open: set<string>)
    requires Linked(b, given, orig, open)
    ensures Linked(Fresh(b).0, given, orig, open) && Extends(b, Fresh(b).0, orig)
  {
    hide Ordered, Once, OneReader, Rounded;
    FreshIsNew(b);
    var c := Fresh(b).0;
    forall i | 0 <= i < |c.nodes| ensures NodeKnown(c.nodes[i], c.occupied) {
      assert NodeKnown(b.nodes[i], b.occupied);
    }
  }

  lemma GrownNames(b: Builder, c: Builder, orig: set<string>)
    requires Extends(b, c, orig)
    ensures b.occupied <= c.occupied
  {
  }

  lemma ConstantLinked(b: Builder, v: Value, given: set<string>, orig: set<string>, open: set<string>)
    requires Linked(b, given, orig, open)
    ensures var (c, target) := Emit(Fresh(b).0, ConstantOp(v), [], None, "");
            && Linked(c, given, orig, open) && Extends(b, c, orig) && Usable(c, given, orig, open, target)
            && target !in b.occupied && target !in orig
  {
    hide Linked, Extends, Usable, Emit, Fresh;
    FreshLinked(b, given, orig, open);
    var b1 := Fresh(b).0;
    EmitLinked(b1, ConstantOp(v), [], "", given, orig, open);
    ExtendsChain(b, b1, Emit(b1, ConstantOp(v), [], None, "").0, orig);
    assert open - Elements([]) + {} == open;
    GrownNames(b, b1, orig);
  }

  // ----- builder operations -----

  /** Growing `b` to `c` gave the new name `target`; `open` are the private names still waiting for a reader. */
  ghost predicate Gives(b: Builder, c: Builder, given: set<string>, orig: set<string>, open: set<string>,
                        target: string) {
    && Linked(c, given, orig, open) && Extends(b, c, orig) && Usable(c, given, orig, open, target)
    && target !in b.occupied && target !in orig
  }

  lemma GivesAfter(a: Builder, b: Builder, c: Builder, given: set<string>, orig: set<string>, open: set<string>,
                   target: string)
    requires Extends(a, b, orig) && Gives(b, c, given, orig, open, target)
    ensures Gives(a, c, given, orig, open, target)
  {
    hide Linked, Usable;
    ExtendsChain(a, b, c, orig);
  }

  lemma OneInput(b: Builder, op: Op, x: string, name: string, given: set<string>, orig: set<string>, open: set<string>)
    requires Linked(b, given, orig, open) && !op.MatMulOp? && Usable(b, given, orig, open, x)
    ensures var (c, target) := Emit(b, op, [x], None, name);
            Gives(b, c, given, orig, open - {x} + (if PrivateOp(op) then {target} else {}), target)
  {
    hide Linked, Usable, Extends, Emit;
    EmitLinked(b, op, [x], name, given, orig, open);
    assert Elements([x]) == {x};
  }

  lemma TwoInputs(b: Builder, op: Op, x: string, y: string, name: string, given: set<string>, orig: set<string>,
                  open: set<string>)
    requires Linked(b, given, orig, open) && !op.MatMulOp? && !PrivateOp(op) && x != y
    requires Usable(b, given, orig, open, x) && Usable(b, given, orig, open, y)
    ensures var (c, target) := Emit(b, op, [x, y], None, name); Gives(b, c, given, orig, open - {x, y}, target)
  {
    hide Linked, Usable, Extends, Emit, PrivateOp;
    EmitLinked(b, op, [x, y], name, given, orig, open);
    assert Elements([x, y]) == {x, y};
    assert open - {x, y} + {} == open - {x, y};
  }

  lemma QuantizedLinked(b: Builder, source: string, given: set<string>, orig: set<string>, open: set<string>)
    requires Linked(b, given, orig, open) && Usable(b, given, orig, open, source)
    ensures var (c, target) := Quantized(b, source); Gives(b, c, given, orig, open - {source} + {target}, target)
  {
    hide Linked, Usable, Extends, Emit;
    var (b1, half) := Emit(b, CastOp(Half), [source], None, "");
    OneInput(b, CastOp(Half), source, "", given, orig, open);
    assert open - {source} + {} == open - {source};
    OneInput(b1, CastOp(Float), half, "", given, orig, open - {source});
    var (c, target) := Emit(b1, CastOp(Float), [half], None, "");
    OpenKnown(b, given, orig, open, half);
    assert open - {source} - {half} + {target} == open - {source} + {target};
    GivesAfter(b, b1, c, given, orig, open - {source} + {target}, target);
  }

  lemma OpenKnown(b: Builder, given: set<string>, orig: set<string>, open: set<string>, x: string)
    requires Linked(b, given, orig, open) && x !in b.occupied
    ensures x !in open
  {
    UnknownUnused(b.nodes, b.occupied, orig, x);
  }

  /** A raw product and the half cast that follows it. */
  lemma RawProductLinked(b: Builder, l: string, r: string, name: string, given: set<string>, orig: set<string>)
    requires Linked(b, given, orig, {l, r}) && l != r && Usable(b, given, orig, {l, r}, l)
        && Usable(b, given, orig, {l, r}, r)
    ensures var (b1, product) := Emit(b, MatMulOp, [l, r], None, name);
            var (c, half) := Emit(b1, CastOp(Half), [product], None, "");
            Gives(b, c, given, orig, {}, half)
  {
    hide Emit, Rounded, Threaded, Extends, Shared, Defined;
    var open: set<string> := {l, r};
    var (b1, product) := Emit(b, MatMulOp, [l, r], None, name);
    UsableReady(b, [l, r], given, orig, open);
    assert Elements([l, r]) == open && open * open == open;
    EmitThreaded(b, MatMulOp, [l, r], name, given, orig, open, open);
    assert open - open + {product} == {product};
    EmitShape(b, MatMulOp, [l, r], None, name);
    var tag :| b1.nodes == b.nodes + [Node(MatMulOp, [l, r], [product], tag)];
    var (c, half) := Emit(b1, CastOp(Half), [product], None, "");
    assert Ready(b1, [product], given, orig, {product}, {product});
    EmitThreaded(b1, CastOp(Half), [product], "", given, orig, {product}, {product});
    assert {product} - {product} + {} == {};
    EmitShape(b1, CastOp(Half), [product], None, "");
    var tag2 :| c.nodes == b1.nodes + [Node(CastOp(Half), [product], [half], tag2)];
    RoundedPair(b.nodes, Node(MatMulOp, [l, r], [product], tag), Node(CastOp(Half), [product], [half], tag2), orig);
    ExtendsChain(b, b1, c, orig);
    SharedIsUsable(c, given, orig, half);
    OriginalOccupied(b1, given, orig, {product}, half);
    GrownNames(b, b1, orig);
  }

  lemma SharedIsUsable(b: Builder, given: set<string>, orig: set<string>, x: string)
    requires Shared(b, given, orig, x)
    ensures Usable(b, given, orig, {}, x)
  {
  }

  lemma ProductLinked(b: Builder, left: string, right: string, name: string, given: set<string>, orig: set<string>)
    requires Linked(b, given, orig, {}) && Usable(b, given, orig, {}, left) && Usable(b, given, orig, {}, right)
    ensures var (c, target) := Product(b, left, right, name); Gives(b, c, given, orig, {target}, target)
  {
    hide Linked, Usable, Extends, Emit, Quantized;
    var (b1, l) := Quantized(b, left);
    QuantizedLinked(b, left, given, orig, {});
    assert {} - {left} + {l} == {l};
    StillUsable(b, b1, given, orig, {}, {l}, right);
    UsableKnown(b, given, orig, {}, right);
    var (b2, r) := Quantized(b1, right);
    QuantizedLinked(b1, right, given, orig, {l});
    UsableKnown(b1, given, orig, {l}, l);
    assert {l} - {right} + {r} == {l, r};
    StillUsable(b1, b2, given, orig, {l}, {l, r}, l);
    var (b3, product) := Emit(b2, MatMulOp, [l, r], None, name);
    var (b4, half) := Emit(b3, CastOp(Half), [product], None, "");
    RawProductLinked(b2, l, r, name, given, orig);
    var (c, target) := Emit(b4, CastOp(Float), [half], None, "");
    OneInput(b4, CastOp(Float), half, "", given, orig, {});
    assert {} - {half} + {target} == {target};
    GivesAfter(b2, b4, c, given, orig, {target}, target);
    GivesAfter(b1, b2, c, given, orig, {target}, target);
    GivesAfter(b, b1, c, given, orig, {target}, target);
    QuantizedIs(b3, product);
  }

  lemma QuantizedIs(b: Builder, source: string)
    ensures Quantized(b, source) == var (b1, half) := Emit(b, CastOp(Half), [source], None, "");
            Emit(b1, CastOp(Float), [half], None, "")
  {
  }

  lemma UsableKnown(b: Builder, given: set<string>, orig: set<string>, open: set<string>, x: string)
    requires Usable(b, given, orig, open, x)
    ensures x != "" && x in b.occupied
  {
  }

  /** Transposing is optional: the source itself otherwise. */
  lemma TransposedLinked(b: Builder, source: string, transpose: bool, given: set<string>, orig: set<string>)
    requires Linked(b, given, orig, {}) && Usable(b, given, orig, {}, source)
    ensures var (c, target) := Transposed(b, source, transpose);
            Linked(c, given, orig, {}) && Extends(b, c, orig) && Usable(c, given, orig, {}, target)
  {
    hide Linked, Usable, Emit;
    if transpose {
      OneInput(b, TransposeOp, source, "", given, orig, {});
      assert {} - {source} + {} == {};
    }
  }

  /** Scaling by one reads nothing; any other factor consumes the source. */
  lemma ScaledLinked(b: Builder, source: string, factor: real, given: set<string>, orig: set<string>, open: set<string>)
    requires Linked(b, given, orig, open) && Usable(b, given, orig, open, source)
    ensures var (c, target) := Scaled(b, source, factor);
            var now := if factor == 1.0 then open else open - {source};
            && Linked(c, given, orig, now) && Extends(b, c, orig) && Usable(c, given, orig, now, target)
            && (factor == 1.0 ==> target == source) && (factor != 1.0 ==> target !in b.occupied && target !in orig)
  {
    hide Linked, Usable, Emit, Fresh;
    if factor != 1.0 {
      var (b1, scalar) := Scalar(b, factor);
      ConstantLinked(b, Floats(Unit(factor)), given, orig, open);
      UsableKnown(b, given, orig, open, source);
      StillUsable(b, b1, given, orig, open, open, source);
      TwoInputs(b1, ProductOp, source, scalar, "", given, orig, open);
      OpenKnown(b, given, orig, open, scalar);
      assert open - {source, scalar} == open - {source};
      var (c, target) := Emit(b1, ProductOp, [source, scalar], None, "");
      GivesAfter(b, b1, c, given, orig, open - {source}, target);
    }
  }

  // ----- the node's own output -----

  /** The builder grew by writing exactly the original names `outs`. */
  ghost predicate Writes(b: Builder, c: Builder, orig: set<string>, outs: seq<string>) {
    && b.occupied <= c.occupied
    && forall x :: x in orig ==> Defs(c.nodes, x) == Defs(b.nodes, x) + multiset(outs)[x]
  }

  /** A name of the graph that nothing has written yet. */
  ghost predicate Unwritten(b: Builder, given: set<string>, orig: set<string>, o: string) {
    o in orig && (o != "" ==> o !in given && Defs(b.nodes, o) == 0)
  }

  lemma StillUnwritten(b: Builder, c: Builder, given: set<string>, orig: set<string>, o: string)
    requires Unwritten(b, given, orig, o) && Extends(b, c, orig)
    ensures Unwritten(c, given, orig, o)
  {
  }

  lemma FinalLinked(b0: Builder, b: Builder, op: Op, inputs: seq<string>, o: string, given: set<string>,
                    orig: set<string>, open: set<string>)
    requires Linked(b, given, orig, open) && Extends(b0, b, orig) && Unwritten(b0, given, orig, o) && !op.MatMulOp?
    requires Distinct(inputs) && open <= Elements(inputs) && forall x :: x in inputs ==> Usable(b, given, orig, open, x)
    ensures var c := Emit(b, op, inputs, Some(o), "").0; Linked(c, given, orig, {}) && Writes(b0, c, orig, [o])
  {
    hide Ordered, Once, OneReader, NamesKnown, Rounded, Emit, Defined, Ready;
    StillUnwritten(b0, b, given, orig, o);
    UsableReady(b, inputs, given, orig, open);
    EmitShape(b, op, inputs, Some(o), "");
    var c := Emit(b, op, inputs, Some(o), "").0;
    var tag :| c.nodes == b.nodes + [Node(op, inputs, [o], tag)];
    var node := Node(op, inputs, [o], tag);
    RoundedSnoc(b.nodes, node, orig);
    FinalFits(b, node, given, orig, open, o);
    AppendThreaded(b, c, node, given, orig, open, open * Elements(inputs));
    assert open - open * Elements(inputs) + Opened(node, orig) == {};
    forall x | x in orig ensures Defs(c.nodes, x) == Defs(b0.nodes, x) + multiset([o])[x] {
      Snoc(b.nodes, node, given, orig, x);
    }
  }

  lemma FinalFits(b: Builder, node: Node, given: set<string>, orig: set<string>, open: set<string>, o: string)
    requires Ready(b, node.inputs, given, orig, open, open * Elements(node.inputs)) && Unwritten(b, given, orig, o)
        && node.outputs == [o]
    ensures Fits(b, node, given, orig, open, open * Elements(node.inputs))
  {
    hide Defined;
  }

  lemma MatMulLinked(b: Builder, node: Node, given: set<string>, orig: set<string>)
    requires |node.inputs| >= 2 && |node.outputs| >= 1 && Linked(b, given, orig, {})
        && Unwritten(b, given, orig, node.outputs[0])
    requires Usable(b, given, orig, {}, node.inputs[0]) && Usable(b, given, orig, {}, node.inputs[1])
    ensures Linked(LowerMatMul(b, node), given, orig, {}) && Writes(b, LowerMatMul(b, node), orig, [node.outputs[0]])
  {
    hide Linked, Usable, Extends, Unwritten, Writes, Emit, Product;
    var (b1, product) := Product(b, node.inputs[0], node.inputs[1], node.name);
    ProductLinked(b, node.inputs[0], node.inputs[1], node.name, given, orig);
    FinalLinked(b, b1, IdentityOp, [product], node.outputs[0], given, orig, {product});
  }

  /** The open name left by the scaled product, if scaling did not consume it. */
  lemma GemmScaledLinked(b: Builder, node: Node, given: set<string>, orig: set<string>) returns (open: set<string>)
    requires node.op.GemmOp? && |node.inputs| >= 2 && Linked(b, given, orig, {})
    requires Usable(b, given, orig, {}, node.inputs[0]) && Usable(b, given, orig, {}, node.inputs[1])
    ensures var (c, target) := GemmScaled(b, node); open <= {target} && Gives(b, c, given, orig, open, target)
  {
    hide Linked, Usable, Extends, Emit, Product, Transposed, Scaled;
    var op := node.op;
    var (b1, left) := Transposed(b, node.inputs[0], op.transA);
    TransposedLinked(b, node.inputs[0], op.transA, given, orig);
    StillUsable(b, b1, given, orig, {}, {}, node.inputs[1]);
    var (b2, right) := Transposed(b1, node.inputs[1], op.transB);
    TransposedLinked(b1, node.inputs[1], op.transB, given, orig);
    StillUsable(b1, b2, given, orig, {}, {}, left);
    ExtendsChain(b, b1, b2, orig);
    var (b3, product) := Product(b2, left, right, node.name);
    ProductLinked(b2, left, right, node.name, given, orig);
    ScaledLinked(b3, product, op.alpha, given, orig, {product});
    open := if op.alpha == 1.0 then {product} else {product} - {product};
    var (c, target) := Scaled(b3, product, op.alpha);
    GrownNames(b2, b3, orig);
    ExtendsChain(b2, b3, c, orig);
    GivesAfter(b, b2, c, given, orig, open, target);
  }

  lemma GemmLinked(b: Builder, node: Node, given: set<string>, orig: set<string>)
    requires node.op.GemmOp? && |node.inputs| >= 2 && |node.outputs| >= 1 && Linked(b, given, orig, {})
    requires Usable(b, given, orig, {}, node.inputs[0]) && Usable(b, given, orig, {}, node.inputs[1])
    requires BiasName(node) != "" ==> Usable(b, given, orig, {}, BiasName(node)) && BiasName(node) in orig
    requires Unwritten(b, given, orig, node.outputs[0])
    ensures Linked(LowerGemm(b, node), given, orig, {}) && Writes(b, LowerGemm(b, node), orig, [node.outputs[0]])
  {
    hide Linked, Usable, Extends, Unwritten, Writes, Emit, GemmScaled, Scaled;
    var (b4, scaled) := GemmScaled(b, node);
    var open := GemmScaledLinked(b, node, given, orig);
    var bias := BiasName(node);
    if bias == "" {
      FinalLinked(b, b4, IdentityOp, [scaled], node.outputs[0], given, orig, open);
    } else {
      StillUsable(b, b4, given, orig, {}, open, bias);
      ScaledLinked(b4, bias, node.op.beta, given, orig, open);
      assert open - {bias} == open;
      var (b5, factor) := Scaled(b4, bias, node.op.beta);
      UsableKnown(b4, given, orig, open, scaled);
      StillUsable(b4, b5, given, orig, open, open, scaled);
      ExtendsChain(b, b4, b5, orig);
      FinalLinked(b, b5, SumOp, [scaled, factor], node.outputs[0], given, orig, open);
    }
  }

  // ----- convolutions -----

  /** A constant next to a usable name, read together by one node. */
  lemma WithConstant(b: Builder, op: Op, source: string, v: Value, given: set<string>, orig: set<string>,
                     open: set<string>)
    requires Linked(b, given, orig, open) && Usable(b, given, orig, open, source) && !op.MatMulOp? && !PrivateOp(op)
    ensures var (b1, constant) := Emit(Fresh(b).0, ConstantOp(v), [], None, "");
            var (c, target) := Emit(b1, op, [source, constant], None, "");
            Gives(b, c, given, orig, open - {source}, target)
  {
    hide Linked, Usable, Extends, Emit, Fresh, PrivateOp;
    var (b1, constant) := Emit(Fresh(b).0, ConstantOp(v), [], None, "");
    ConstantLinked(b, v, given, orig, open);
    UsableKnown(b, given, orig, open, source);
    StillUsable(b, b1, given, orig, open, open, source);
    TwoInputs(b1, op, source, constant, "", given, orig, open);
    OpenKnown(b, given, orig, open, constant);
    assert open - {source, constant} == open - {source};
    var (c, target) := Emit(b1, op, [source, constant], None, "");
    GivesAfter(b, b1, c, given, orig, open - {source}, target);
  }

  lemma ReshapedLinked(b: Builder, source: string, dims: seq<int>, given: set<string>, orig: set<string>,
                       open: set<string>)
    requires Linked(b, given, orig, open) && Usable(b, given, orig, open, source)
    ensures var (c, target) := Reshaped(b, source, dims); Gives(b, c, given, orig, open - {source}, target)
  {
    hide Linked, Usable, Extends, Emit, Fresh;
    WithConstant(b, ReshapeOp, source, Ints(dims), given, orig, open);
  }

  /** Two names stay usable while a constant is added. */
  lemma ConstantBeside(b: Builder, v: Value, names: set<string>, given: set<string>, orig: set<string>,
                       open: set<string>)
    requires Linked(b, given, orig, open) && forall x :: x in names ==> Usable(b, given, orig, open, x)
    ensures var (c, target) := Emit(Fresh(b).0, ConstantOp(v), [], None, "");
            && Gives(b, c, given, orig, open, target) && target !in names
            && forall x :: x in names + {target} ==> Usable(c, given, orig, open, x)
  {
    hide Linked, Usable, Extends, Emit, Fresh;
    ConstantLinked(b, v, given, orig, open);
    var (c, target) := Emit(Fresh(b).0, ConstantOp(v), [], None, "");
    forall x | x in names ensures Usable(c, given, orig, open, x) && x != target {
      UsableKnown(b, given, orig, open, x);
      StillUsable(b, c, given, orig, open, open, x);
    }
  }

  lemma SampleLinked(b: Builder, source: string, strides: (pos, pos), given: set<string>, orig: set<string>)
    requires Linked(b, given, orig, {}) && Usable(b, given, orig, {}, source)
    ensures var (c, target) := Sample(b, source, strides);
            Linked(c, given, orig, {}) && Extends(b, c, orig) && Usable(c, given, orig, {}, target)
  {
    hide Linked, Usable, Emit, Fresh, Defs, PrivateNames;
    if strides != (1, 1) {
      hide Extends;
      var (b1, starts) := Vector(b, [0, 0]);
      ConstantBeside(b, Ints([0, 0]), {source}, given, orig, {});
      var (b2, ends) := Vector(b1, [SLICE_END, SLICE_END]);
      ConstantBeside(b1, Ints([SLICE_END, SLICE_END]), {source, starts}, given, orig, {});
      ExtendsChain(b, b1, b2, orig);
      var (b3, axes) := Vector(b2, [2, 3]);
      ConstantBeside(b2, Ints([2, 3]), {source, starts, ends}, given, orig, {});
      ExtendsChain(b, b2, b3, orig);
      var (b4, steps) := Vector(b3, [strides.0, strides.1]);
      ConstantBeside(b3, Ints([strides.0, strides.1]), {source, starts, ends, axes}, given, orig, {});
      ExtendsChain(b, b3, b4, orig);
      var inputs := [source, starts, ends, axes, steps];
      EmitLinked(b4, SliceOp, inputs, "", given, orig, {});
      var (c, target) := Emit(b4, SliceOp, inputs, None, "");
      assert {} - Elements(inputs) + {} == {};
      ExtendsChain(b, b4, c, orig);
    }
  }

  lemma OutputShapeLinked(b: Builder, shape: string, channels: pos, given: set<string>, orig: set<string>,
                          open: set<string>)
    requires Linked(b, given, orig, open) && Usable(b, given, orig, open, shape) && shape !in open
    ensures var (c, target) := OutputShape(b, shape, channels); Gives(b, c, given, orig, open, target)
  {
    hide Linked, Usable, Extends, Emit, Fresh;
    assert open - {shape} == open;
    var (b1, zero) := Vector(b, [0]);
    var (b2, batch) := Emit(b1, GatherOp, [shape, zero], None, "");
    WithConstant(b, GatherOp, shape, Ints([0]), given, orig, open);
    StillUsable(b, b2, given, orig, open, open, shape);
    var (b3, axes) := Vector(b2, [2, 3]);
    var (b4, spatial) := Emit(b3, GatherOp, [shape, axes], None, "");
    WithConstant(b2, GatherOp, shape, Ints([2, 3]), given, orig, open);
    UsableKnown(b2, given, orig, open, batch);
    StillUsable(b2, b4, given, orig, open, open, batch);
    ExtendsChain(b, b2, b4, orig);
    var (b5, channel) := Vector(b4, [channels]);
    ConstantBeside(b4, Ints([channels]), {batch, spatial}, given, orig, open);
    ExtendsChain(b, b4, b5, orig);
    var inputs := [batch, channel, spatial];
    EmitLinked(b5, ConcatOp, inputs, "", given, orig, open);
    OpenKnown(b, given, orig, open, batch);
    OpenKnown(b2, given, orig, open, spatial);
    OpenKnown(b4, given, orig, open, channel);
    var (c, target) := Emit(b5, ConcatOp, inputs, None, "");
    assert open - Elements(inputs) + {} == open;
    GivesAfter(b, b5, c, given, orig, open, target);
  }

  lemma PointwiseProductLinked(b: Builder, node: Node, dims: seq<pos>, strides: (pos, pos), given: set<string>,
                               orig: set<string>)
    requires |dims| == 4 && |node.inputs| >= 2 && Linked(b, given, orig, {})
    requires Usable(b, given, orig, {}, node.inputs[0]) && Usable(b, given, orig, {}, node.inputs[1])
    ensures var (c, shape, product) := PointwiseProduct(b, node, dims, strides);
            Gives(b, c, given, orig, {product}, product) && Usable(c, given, orig, {product}, shape) && shape != product
  {
    hide Linked, Usable, Extends, Emit, Sample, Reshaped, Product;
    var (b1, source) := Sample(b, node.inputs[0], strides);
    SampleLinked(b, node.inputs[0], strides, given, orig);
    StillUsable(b, b1, given, orig, {}, {}, node.inputs[1]);
    var (b2, shape) := Emit(b1, ShapeOp, [source], None, "");
    OneInput(b1, ShapeOp, source, "", given, orig, {});
    assert {} - {source} + {} == {};
    StillUsable(b1, b2, given, orig, {}, {}, source);
    StillUsable(b1, b2, given, orig, {}, {}, node.inputs[1]);
    ExtendsChain(b, b1, b2, orig);
    var (b3, flattened) := Reshaped(b2, source, [0, dims[1] as int, -1]);
    ReshapedLinked(b2, source, [0, dims[1] as int, -1], given, orig, {});
    assert {} - {source} == {};
    StillUsable(b2, b3, given, orig, {}, {}, shape);
    StillUsable(b2, b3, given, orig, {}, {}, node.inputs[1]);
    ExtendsChain(b, b2, b3, orig);
    var (b4, kernel) := Reshaped(b3, node.inputs[1], [1, dims[0], dims[1]]);
    ReshapedLinked(b3, node.inputs[1], [1, dims[0], dims[1]], given, orig, {});
    assert {} - {node.inputs[1]} == {};
    StillUsable(b3, b4, given, orig, {}, {}, shape);
    StillUsable(b3, b4, given, orig, {}, {}, flattened);
    ExtendsChain(b, b3, b4, orig);
    var (b5, product) := Product(b4, kernel, flattened, node.name);
    ProductLinked(b4, kernel, flattened, node.name, given, orig);
    UsableKnown(b4, given, orig, {}, shape);
    StillUsable(b4, b5, given, orig, {}, {product}, shape);
    GivesAfter(b, b4, b5, given, orig, {product}, product);
  }

  lemma PointwiseLinked(b: Builder, node: Node, dims: seq<pos>, strides: (pos, pos), given: set<string>,
                        orig: set<string>)
    requires |dims| == 4 && |node.inputs| >= 2 && |node.outputs| >= 1 && Linked(b, given, orig, {})
    requires Usable(b, given, orig, {}, node.inputs[0]) && Usable(b, given, orig, {}, node.inputs[1])
    requires BiasName(node) != "" ==> Usable(b, given, orig, {}, BiasName(node)) && BiasName(node) in orig
    requires Unwritten(b, given, orig, node.outputs[0])
    ensures var c := LowerPointwise(b, node, dims, strides);
            Linked(c, given, orig, {}) && Writes(b, c, orig, [node.outputs[0]])
  {
    hide Linked, Usable, Extends, Unwritten, Writes, Emit, Reshaped, OutputShape, PointwiseProduct;
    var (b5, shape, product) := PointwiseProduct(b, node, dims, strides);
    PointwiseProductLinked(b, node, dims, strides, given, orig);
    var open := {product};
    var (b6, outputShape) := OutputShape(b5, shape, dims[0]);
    OutputShapeLinked(b5, shape, dims[0], given, orig, open);
    UsableKnown(b5, given, orig, open, product);
    StillUsable(b5, b6, given, orig, open, open, product);
    ExtendsChain(b, b5, b6, orig);
    var bias := BiasName(node);
    if bias == "" {
      FinalLinked(b, b6, ReshapeOp, [product, outputShape], node.outputs[0], given, orig, open);
    } else {
      StillUsable(b, b5, given, orig, {}, open, bias);
      StillUsable(b5, b6, given, orig, open, open, bias);
      var (b7, output) := Emit(b6, ReshapeOp, [product, outputShape], None, "");
      TwoInputs(b6, ReshapeOp, product, outputShape, "", given, orig, open);
      assert open - {product, outputShape} == {};
      assert bias !in open;
      StillUsable(b6, b7, given, orig, open, {}, bias);
      ExtendsChain(b, b6, b7, orig);
      var (b8, broadcast) := Reshaped(b7, bias, [1, dims[0], 1, 1]);
      ReshapedLinked(b7, bias, [1, dims[0], 1, 1], given, orig, {});
      assert {} - {bias} == {};
      UsableKnown(b7, given, orig, {}, output);
      StillUsable(b7, b8, given, orig, {}, {}, output);
      ExtendsChain(b, b7, b8, orig);
      FinalLinked(b, b8, SumOp, [output, broadcast], node.outputs[0], given, orig, {});
    }
  }

  // ----- the whole graph -----

  predicate OperandsNamed(g: Graph) {
    forall i :: 0 <= i < |g.nodes| && i in g.selected && Lowerable(g.nodes[i]) ==>
      g.nodes[i].inputs[0] != "" && g.nodes[i].inputs[1] != ""
  }

  /** A graph in single-assignment form whose selected nodes have both operands. */
  ghost predicate SingleAssignment(g: Graph, given: set<string>, orig: set<string>) {
    && Selectable(g.nodes, g.selected) && OperandsNamed(g)
    && Ordered(g.nodes, given) && Once(g.nodes, given) && NamesKnown(g.nodes, orig) && given <= orig
  }

  /** The builder holds the first `k` nodes' names, each written as often as in the graph. */
  ghost predicate Holds(g: Graph, b: Builder, given: set<string>, orig: set<string>, k: nat)
    requires k <= |g.nodes|
  {
    Linked(b, given, orig, {}) && forall x :: x in orig ==> Defs(b.nodes, x) == Defs(g.nodes[..k], x)
  }

  lemma InputUsable(g: Graph, b: Builder, given: set<string>, orig: set<string>, k: nat, x: string)
    requires k < |g.nodes| && Holds(g, b, given, orig, k) && SingleAssignment(g, given, orig)
    requires x in g.nodes[k].inputs && x != ""
    ensures Usable(b, given, orig, {}, x) && x in orig
  {
    hide Linked, Once, OperandsNamed, Selectable;
    assert NodeKnown(g.nodes[k], orig);
    assert x in Elements(g.nodes[k].inputs);
    assert InputsBound(g.nodes[k], Defined(g.nodes[..k], given));
    DefinedIff(g.nodes[..k], given, x);
    DefinedIff(b.nodes, given, x);
    PrivateNotOriginal(b.nodes, orig);
    LinkedNames(b, given, orig, {});
  }

  lemma LinkedNames(b: Builder, given: set<string>, orig: set<string>, open: set<string>)
    requires Linked(b, given, orig, open)
    ensures given <= orig <= b.occupied
  {
  }

  lemma OutputUnwritten(g: Graph, b: Builder, given: set<string>, orig: set<string>, k: nat, x: string)
    requires k < |g.nodes| && Holds(g, b, given, orig, k) && SingleAssignment(g, given, orig)
    requires x in g.nodes[k].outputs
    ensures Unwritten(b, given, orig, x) && (x != "" ==> multiset(g.nodes[k].outputs)[x] == 1)
  {
    hide Linked, Ordered, OperandsNamed, Selectable;
    assert NodeKnown(g.nodes[k], orig);
    assert x in Elements(g.nodes[k].outputs);
    assert g.nodes[..k + 1] == g.nodes[..k] + [g.nodes[k]];
    Snoc(g.nodes[..k], g.nodes[k], given, orig, x);
    DefsPrefix(g.nodes, k + 1, x);
    assert multiset(g.nodes[k].outputs)[x] > 0;
  }

  lemma {:induction false} DefsPrefix(nodes: seq<Node>, k: nat, x: string)
    requires k <= |nodes|
    ensures Defs(nodes[..k], x) <= Defs(nodes, x)
  {
    if k == |nodes| {
      assert nodes[..k] == nodes;
    } else {
      DefsPrefix(nodes[..|nodes| - 1], k, x);
      assert nodes[..|nodes| - 1][..k] == nodes[..k];
    }
  }

  /** A node that is kept as it is. */
  lemma PlainLinked(g: Graph, b: Builder, given: set<string>, orig: set<string>, k: nat)
    requires k < |g.nodes| && Holds(g, b, given, orig, k) && SingleAssignment(g, given, orig)
    ensures Holds(g, b.(nodes := b.nodes + [g.nodes[k]]), given, orig, k + 1)
  {
    hide Ordered, Once, OneReader, Rounded, OperandsNamed, Selectable, Defined;
    var node := g.nodes[k];
    var c := b.(nodes := b.nodes + [node]);
    assert NodeKnown(node, orig);
    PlainFits(g, b, given, orig, k);
    PlainNotPrivate(node, orig);
    AppendThreaded(b, c, node, given, orig, {}, {});
    assert {} - {} + Opened(node, orig) == {};
    RoundedSnoc(b.nodes, node, orig);
    DefsStep(g, b, c, node.outputs, orig, k);
  }

  lemma PlainNotPrivate(node: Node, orig: set<string>)
    requires NodeKnown(node, orig)
    ensures !Private(node, orig) && !RawProduct(node, orig)
  {
    if |node.outputs| == 1 { assert node.outputs[0] in Elements(node.outputs); }
  }

  lemma DefsStep(g: Graph, b: Builder, c: Builder, outs: seq<string>, orig: set<string>, k: nat)
    requires k < |g.nodes| && outs == g.nodes[k].outputs
    requires forall x :: x in orig ==> Defs(b.nodes, x) == Defs(g.nodes[..k], x)
    requires Writes(b, c, orig, outs) || c.nodes == b.nodes + [g.nodes[k]]
    ensures forall x :: x in orig ==> Defs(c.nodes, x) == Defs(g.nodes[..k + 1], x)
  {
    assert g.nodes[..k + 1] == g.nodes[..k] + [g.nodes[k]];
    forall x | x in orig ensures Defs(c.nodes, x) == Defs(g.nodes[..k + 1], x) {
      Snoc(g.nodes[..k], g.nodes[k], {}, orig, x);
      Snoc(b.nodes, g.nodes[k], {}, orig, x);
    }
  }

  lemma PlainFits(g: Graph, b: Builder, given: set<string>, orig: set<string>, k: nat)
    requires k < |g.nodes| && Holds(g, b, given, orig, k) && SingleAssignment(g, given, orig)
    ensures Fits(b, g.nodes[k], given, orig, {}, {})
  {
    hide Linked, Holds, SingleAssignment, Defined;
    var node := g.nodes[k];
    forall x | x in node.inputs && x != ""
      ensures x in Defined(b.nodes, given) && x !in PrivateNames(b.nodes, orig)
    {
      InputUsable(g, b, given, orig, k, x);
    }
    forall x | x in node.outputs && x != ""
      ensures x !in given && Defs(b.nodes, x) == 0 && multiset(node.outputs)[x] == 1
    {
      OutputUnwritten(g, b, given, orig, k, x);
    }
    KnownParts(g, b, given, orig, k);
    PrivateNotOriginal(b.nodes, orig);
    PlainNotPrivate(node, orig);
  }

  lemma KnownParts(g: Graph, b: Builder, given: set<string>, orig: set<string>, k: nat)
    requires k < |g.nodes| && Holds(g, b, given, orig, k) && SingleAssignment(g, given, orig)
    ensures NodeKnown(g.nodes[k], orig) && orig <= b.occupied
  {
    hide Ordered, Once, OneReader, Rounded;
    assert NodeKnown(g.nodes[k], orig);
  }

  lemma SelectedLinked(g: Graph, b: Builder, given: set<string>, orig: set<string>, k: nat)
    requires k < |g.nodes| && k in g.selected && Holds(g, b, given, orig, k) && SingleAssignment(g, given, orig)
    requires Lowerable(g.nodes[k]) && LowerNode(g.initializers, b, g.nodes[k], k).Ok?
    ensures Holds(g, LowerNode(g.initializers, b, g.nodes[k], k).value, given, orig, k + 1)
  {
    hide Linked, Usable, Unwritten, LowerMatMul, LowerGemm, LowerPointwise, PointwiseStrides, SingleAssignment, Writes;
    var node := g.nodes[k];
    NamedOperands(g, given, orig, k);
    InputUsable(g, b, given, orig, k, node.inputs[0]);
    InputUsable(g, b, given, orig, k, node.inputs[1]);
    if BiasName(node) != "" { InputUsable(g, b, given, orig, k, BiasName(node)); }
    OutputUnwritten(g, b, given, orig, k, node.outputs[0]);
    match node.op {
      case ConvOp(attrs) =>
        var dims := WeightDims(g.initializers, node);
        StridesNeedRank(attrs, dims);
        PointwiseLinked(b, node, dims, PointwiseStrides(attrs, dims).value, given, orig);
      case GemmOp(_, _, _, _) =>
        GemmLinked(b, node, given, orig);
      case _ =>
        MatMulLinked(b, node, given, orig);
    }
    assert node.outputs == [node.outputs[0]];
    DefsStep(g, b, LowerNode(g.initializers, b, node, k).value, node.outputs, orig, k);
  }

  lemma StridesNeedRank(attrs: ConvAttrs, dims: seq<int>)
    requires PointwiseStrides(attrs, dims).Some?
    ensures |dims| == 4
  {
  }

  lemma NamedOperands(g: Graph, given: set<string>, orig: set<string>, k: nat)
    requires k < |g.nodes| && k in g.selected && SingleAssignment(g, given, orig) && Lowerable(g.nodes[k])
    ensures |g.nodes[k].inputs| >= 2 && g.nodes[k].inputs[0] != "" && g.nodes[k].inputs[1] != ""
  {
    hide Once, Ordered, NamesKnown;
  }

  lemma {:induction false} PrefixHolds(g: Graph, start: Builder, given: set<string>, k: nat)
    requires start.nodes == [] && SingleAssignment(g, given, start.occupied) && k <= |g.nodes|
    requires LoweredUpTo(g, k, start).Ok?
    ensures Holds(g, LoweredUpTo(g, k, start).value, given, start.occupied, k)
    decreases k
  {
    hide Holds, LoweredUpTo, LowerNode, Once, Ordered, NamesKnown, OperandsNamed;
    if k == 0 {
      NothingHeld(g, start, given);
    } else {
      LoweredStep(g, k - 1, start);
      PrefixHolds(g, start, given, k - 1);
      var b := LoweredUpTo(g, k - 1, start).value;
      if k - 1 in g.selected {
        SelectedLinked(g, b, given, start.occupied, k - 1);
      } else {
        PlainLinked(g, b, given, start.occupied, k - 1);
      }
    }
  }

  lemma NothingHeld(g: Graph, start: Builder, given: set<string>)
    requires start.nodes == [] && Selectable(g.nodes, g.selected) && given <= start.occupied
    ensures LoweredUpTo(g, 0, start) == Ok(start) && Holds(g, start, given, start.occupied, 0)
  {
    assert g.nodes[..0] == [];
  }

  /**
   * Main result. The lowered list is in single-assignment form, defines exactly the graph's own names among
   * them, and gives every upcast and raw product it introduces exactly one reader; the reader of a raw
   * product is the half cast right behind it.
   */
  lemma LoweredGraphWellFormed(g: Graph, start: Builder, given: set<string>)
    requires start.nodes == [] && SingleAssignment(g, given, start.occupied)
    requires LoweredUpTo(g, |g.nodes|, start).Ok?
    ensures var nodes := LoweredUpTo(g, |g.nodes|, start).value.nodes;
            && Ordered(nodes, given) && Once(nodes, given)
            && (forall x :: x in start.occupied ==> Defs(nodes, x) == Defs(g.nodes, x))
            && (forall i :: 0 <= i < |nodes| && Private(nodes[i], start.occupied) ==>
              Uses(nodes, nodes[i].outputs[0]) == 1)
            && Rounded(nodes, start.occupied)
  {
    hide LoweredUpTo, Ordered, Once, Rounded, NamesKnown, OperandsNamed;
    PrefixHolds(g, start, given, |g.nodes|);
    assert g.nodes[..|g.nodes|] == g.nodes;
    var nodes := LoweredUpTo(g, |g.nodes|, start).value.nodes;
    forall i | 0 <= i < |nodes| && Private(nodes[i], start.occupied) ensures Uses(nodes, nodes[i].outputs[0]) == 1 {
      PrivateListed(nodes, start.occupied, i);
    }
  }

  lemma {:induction false} PrivateListed(nodes: seq<Node>, orig: set<string>, i: nat)
    requires i < |nodes| && Private(nodes[i], orig)
    ensures nodes[i].outputs[0] in PrivateNames(nodes, orig)
  {
    if i < |nodes| - 1 { PrivateListed(nodes[..|nodes| - 1], orig, i); }
  }

  /** The pass fails exactly when some selected convolution is not a supported pointwise one. */
  lemma {:induction false} RejectionIsUnsupported(g: Graph, start: Builder, k: nat)
    requires Selectable(g.nodes, g.selected) && k <= |g.nodes|
    ensures LoweredUpTo(g, k, start).Err? <==>
            exists i :: 0 <= i < k && i in g.selected && g.nodes[i].op.ConvOp?
                        && !Supported(g.nodes[i].op.attrs, WeightDims(g.initializers, g.nodes[i]))
    decreases k
  {
    hide PointwiseStrides, Supported, LoweredUpTo, LowerMatMul, LowerGemm, LowerPointwise;
    if k == 0 {
      LoweredNone(g, start);
    } else {
      LoweredStep(g, k - 1, start);
      if g.nodes[k - 1].op.ConvOp? {
        StridesAre(g.nodes[k - 1].op.attrs, WeightDims(g.initializers, g.nodes[k - 1]));
      }
      RejectionIsUnsupported(g, start, k - 1);
    }
  }
}
