/** The polynomial node group of node/grp/polynomial.py: a shader node
    group "AnyCam.Polynomial.V2.deg{n-1}" with inputs "Input" and
    "Coef. 0".."Coef. n-1" whose output is the polynomial in Horner form,
    built from math nodes. The module gives the node graph a meaning (what
    value a socket carries for given group inputs) and proves that the
    group computes the sum of the coefficients times powers of the input. */
module Polynomial {
  import opened Wrappers
  import opened Strings
  import opened NodeTree
  import opened ShaderUtils

  // ---------------------------------------------------------------------
  // Polynomials

  function Pow(x: real, k: nat): real {
    if k == 0 then 1.0 else x * Pow(x, k - 1)
  }

  /** The sum of `a[i] * x^i` over the coefficients. */
  function Poly(a: seq<real>, x: real): real {
    PowerSum(a, x, 0)
  }

  /** The sum of `a[i] * x^i` for `i` from `k` on. */
  function PowerSum(a: seq<real>, x: real, k: nat): real
    decreases |a| - k
  {
    if k >= |a| then 0.0 else a[k] * Pow(x, k) + PowerSum(a, x, k + 1)
  }

  /** The Horner scheme from coefficient `p` on:
      `a[p] + x * (a[p+1] + x * (... + x * a[|a|-1]))`. */
  function Horner(a: seq<real>, x: real, p: nat): real
    decreases |a| - p
  {
    if p >= |a| then 0.0 else a[p] + x * Horner(a, x, p + 1)
  }

  /** The Horner scheme from `p` on, scaled by `x^p`, is the sum of the
      terms from `p` on. */
  lemma {:induction false} HornerScaled(a: seq<real>, x: real, p: nat)
    ensures Pow(x, p) * Horner(a, x, p) == PowerSum(a, x, p)
    decreases |a| - p
  {
    if p < |a| {
      HornerScaled(a, x, p + 1);
      Factor(a[p], Pow(x, p), x, Horner(a, x, p + 1), Pow(x, p + 1), PowerSum(a, x, p + 1),
             Horner(a, x, p), PowerSum(a, x, p));
    } else {
      TimesZero(Pow(x, p), Horner(a, x, p));
    }
  }

  /** The arithmetic step of `HornerScaled`: with `w' = x * w`, the term
      `c * w` and the rest `w' * h` make `w * (c + x * h)`. */
  lemma Factor(c: real, w: real, x: real, h: real, w': real, s': real, hp: real, sp: real)
    requires w' == x * w && w' * h == s' && hp == c + x * h && sp == c * w + s'
    ensures w * hp == sp
  {
  }

  lemma TimesZero(w: real, h: real)
    requires h == 0.0
    ensures w * h == 0.0
  {
  }

  /** The Horner scheme computes the polynomial. */
  lemma HornerIsPoly(a: seq<real>, x: real)
    ensures Horner(a, x, 0) == Poly(a, x)
  {
    HornerScaled(a, x, 0);
  }

  // ---------------------------------------------------------------------
  // What a shader node graph computes

  const MathId := "MATH"
  const GroupInputId := "GROUP_INPUT"

  /** `links` of input `j` of the node named `node`: the first one. */
  function FindLinkTo(links: seq<Link>, node: string, j: nat): (r: Option<Link>)
    ensures r.Some? ==> r.value in links && r.value.toNode == node && r.value.toSocket == j
    ensures r.None? ==> forall l | l in links :: !(l.toNode == node && l.toSocket == j)
  {
    if |links| == 0 then None
    else if links[0].toNode == node && links[0].toSocket == j then Some(links[0])
    else
      assert forall l | l in links :: l == links[0] || l in links[1..];
      FindLinkTo(links[1..], node, j)
  }

  lemma {:induction false} FindLinkToAppend(links: seq<Link>, extra: seq<Link>, node: string, j: nat)
    ensures FindLinkTo(links + extra, node, j) ==
      if FindLinkTo(links, node, j).Some? then FindLinkTo(links, node, j) else FindLinkTo(extra, node, j)
  {
    if |links| > 0 {
      assert (links + extra)[1..] == links[1..] + extra;
      FindLinkToAppend(links[1..], extra, node, j);
    } else {
      assert links + extra == extra;
    }
  }

  /** The first node named `name`, as `nodes[name]` finds it. */
  function NodeAt(nodes: seq<Node>, name: string): Option<Node> {
    if |nodes| == 0 then None
    else if nodes[0].name == name then Some(nodes[0])
    else NodeAt(nodes[1..], name)
  }

  /** `NodeAt` finds a node exactly for the names in the tree. */
  lemma {:induction false} NodeAtNames(nodes: seq<Node>, name: string)
    ensures NodeAt(nodes, name).None? <==> name !in NodeNames(nodes)
    ensures NodeAt(nodes, name).Some? ==> NodeAt(nodes, name).value.name == name
  {
    if |nodes| > 0 {
      NodeAtNames(nodes[1..], name);
      assert NodeNames(nodes) == {nodes[0].name} + NodeNames(nodes[1..]) by {
        forall x | x in NodeNames(nodes) ensures x in {nodes[0].name} + NodeNames(nodes[1..]) {
          var i :| 0 <= i < |nodes| && nodes[i].name == x;
          if i > 0 { assert nodes[1..][i - 1] == nodes[i]; }
        }
      }
    }
  }

  /** Appending nodes keeps every node that is found. */
  lemma {:induction false} NodeAtAppend(nodes: seq<Node>, extra: seq<Node>, name: string)
    ensures NodeAt(nodes + extra, name) == if NodeAt(nodes, name).Some? then NodeAt(nodes, name) else NodeAt(extra, name)
  {
    if |nodes| > 0 {
      assert (nodes + extra)[1..] == nodes[1..] + extra;
      NodeAtAppend(nodes[1..], extra, name);
    } else {
      assert nodes + extra == extra;
    }
  }

  /** What a socket computes, as an expression over the group inputs:
      group input `s`, a constant (an unlinked input's default value), or a
      math operation on two expressions. */
  datatype Expr = In(s: nat) | Const(v: real) | Op(op: string, l: Expr, r: Expr)

  /** A value a socket carries, or none. */
  datatype Number = Undefined | Num(v: real)

  /** The value of an expression when the group inputs carry `env`;
      undefined for a missing input or an operation other than ADD and
      MULTIPLY. */
  function Eval(e: Expr, env: seq<real>): Number {
    match e
    case In(s) => if s < |env| then Num(env[s]) else Undefined
    case Const(v) => Num(v)
    case Op(op, l, r) =>
      var a, b := Eval(l, env), Eval(r, env);
      if a.Undefined? || b.Undefined? then Undefined
      else if op == "ADD" then Num(a.v + b.v)
      else if op == "MULTIPLY" then Num(a.v * b.v)
      else Undefined
  }

  /** The expression output `s` of the node named `name` computes: a group
      input node passes group input `s` on, a math node applies its
      operation to what its two inputs receive. `fuel` bounds the depth of
      the graph that is followed; None when it runs out or the socket
      computes nothing. */
  function OutputExpr(t: Tree, name: string, s: nat, fuel: nat): Option<Expr>
    decreases fuel, 0
  {
    if fuel == 0 then None
    else match NodeAt(t.nodes, name)
      case None => None
      case Some(n) =>
        if n.typeId == GroupInputId then Some(In(s))
        else if n.typeId == MathId && s == 0 then
          var a, b := InputExpr(t, name, 0, fuel - 1), InputExpr(t, name, 1, fuel - 1);
          if a.None? || b.None? then None else Some(Op(n.operation, a.value, b.value))
        else None
  }

  /** What input `j` of the node named `name` receives: what the output
      linked to it computes, otherwise its own default value. */
  function InputExpr(t: Tree, name: string, j: nat, fuel: nat): Option<Expr>
    decreases fuel, 1
  {
    match FindLinkTo(t.links, name, j)
    case Some(l) => OutputExpr(t, l.fromNode, l.fromSocket, fuel)
    case None =>
      match NodeAt(t.nodes, name)
      case None => None
      case Some(n) =>
        if j < |n.ins| && n.ins[j].default.Some? && n.ins[j].default.value.Real? then Some(Const(n.ins[j].default.value.r))
        else None
  }

  /** More fuel does not change a defined expression. */
  lemma {:induction false} OutputMono(t: Tree, name: string, s: nat, f: nat, g: nat)
    requires f <= g && OutputExpr(t, name, s, f).Some?
    ensures OutputExpr(t, name, s, g) == OutputExpr(t, name, s, f)
    decreases f, 0
  {
    var n := NodeAt(t.nodes, name).value;
    if n.typeId != GroupInputId {
      InputMono(t, name, 0, f - 1, g - 1);
      InputMono(t, name, 1, f - 1, g - 1);
    }
  }

  lemma {:induction false} InputMono(t: Tree, name: string, j: nat, f: nat, g: nat)
    requires f <= g && InputExpr(t, name, j, f).Some?
    ensures InputExpr(t, name, j, g) == InputExpr(t, name, j, f)
    decreases f, 1
  {
    match FindLinkTo(t.links, name, j)
    case Some(l) => OutputMono(t, l.fromNode, l.fromSocket, f, g);
    case None =>
  }

  /** The node named `name` is a math node of `t`, one whose inputs are read. */
  predicate Reads(t: Tree, name: string) {
    NodeAt(t.nodes, name).Some? && NodeAt(t.nodes, name).value.typeId == MathId
  }

  /** `t'` is `t` with nodes and links appended, where no appended link
      leads into a math node of `t`. */
  predicate Extends(t: Tree, t': Tree) {
    && |t.nodes| <= |t'.nodes| && t'.nodes[..|t.nodes|] == t.nodes
    && |t.links| <= |t'.links| && t'.links[..|t.links|] == t.links
    && forall i | |t.links| <= i < |t'.links| :: !Reads(t, t'.links[i].toNode)
  }

  /** A node of `t` is found in an extension as it is in `t`. */
  lemma ExtendsFinds(t: Tree, t': Tree, name: string)
    requires Extends(t, t') && NodeAt(t.nodes, name).Some?
    ensures NodeAt(t'.nodes, name) == NodeAt(t.nodes, name)
  {
    assert t'.nodes == t.nodes + t'.nodes[|t.nodes|..];
    NodeAtAppend(t.nodes, t'.nodes[|t.nodes|..], name);
  }

  /** The input links of a node of `t` are the same in an extension. */
  lemma ExtendsLinks(t: Tree, t': Tree, name: string, j: nat)
    requires Extends(t, t') && Reads(t, name)
    ensures FindLinkTo(t'.links, name, j) == FindLinkTo(t.links, name, j)
  {
    var extra := t'.links[|t.links|..];
    assert t'.links == t.links + extra;
    FindLinkToAppend(t.links, extra, name, j);
    assert forall l | l in extra :: l.toNode != name;
  }

  /** An expression that is defined in `t` is the same in an extension. */
  lemma {:induction false} OutputStable(t: Tree, t': Tree, name: string, s: nat, f: nat)
    requires Extends(t, t') && OutputExpr(t, name, s, f).Some?
    ensures OutputExpr(t', name, s, f) == OutputExpr(t, name, s, f)
    decreases f, 0
  {
    ExtendsFinds(t, t', name);
    var n := NodeAt(t.nodes, name).value;
    if n.typeId == MathId && s == 0 {
      InputStable(t, t', name, 0, f - 1);
      InputStable(t, t', name, 1, f - 1);
    }
  }

  lemma {:induction false} InputStable(t: Tree, t': Tree, name: string, j: nat, f: nat)
    requires Extends(t, t') && Reads(t, name) && InputExpr(t, name, j, f).Some?
    ensures InputExpr(t', name, j, f) == InputExpr(t, name, j, f)
    decreases f, 1
  {
    ExtendsLinks(t, t', name, j);
    ExtendsFinds(t, t', name);
    match FindLinkTo(t.links, name, j)
    case Some(l) => OutputStable(t, t', l.fromNode, l.fromSocket, f);
    case None =>
  }

  /** Extension is transitive. */
  lemma ExtendsTrans(t1: Tree, t2: Tree, t3: Tree)
    requires Extends(t1, t2) && Extends(t2, t3)
    ensures Extends(t1, t3)
  {
    assert t3.nodes[..|t1.nodes|] == t3.nodes[..|t2.nodes|][..|t1.nodes|];
    assert t3.links[..|t1.links|] == t3.links[..|t2.links|][..|t1.links|];
    forall i | |t1.links| <= i < |t3.links| ensures !Reads(t1, t3.links[i].toNode) {
      var x := t3.links[i].toNode;
      if i < |t2.links| {
        assert t3.links[i] == t2.links[i];
      } else if Reads(t1, x) {
        ExtendsFinds(t1, t2, x);
      }
    }
  }

  // ---------------------------------------------------------------------
  // Math nodes

  const MathType := "ShaderNodeMath"

  /** The host registers the math node type with its two inputs. */
  predicate MathKind(kinds: map<string, NodeKind>) {
    MathType in kinds && kinds[MathType].typeId == MathId && |kinds[MathType].ins| >= 2
  }

  /** Every link of `t` leads into a node of `t`. */
  predicate Wired(t: Tree) {
    forall i | 0 <= i < |t.links| :: NodeAt(t.nodes, t.links[i].toNode).Some?
  }

  /** `t'` is `t` with one more math node named `name`, with operation
      `op` and label `title`, whose inputs 0 and 1 are linked to the
      outputs `a` and `b`; the group interface is kept. */
  predicate MathAppended(t: Tree, t': Tree, name: string, op: string, title: string,
                         a: (string, nat), b: (string, nat))
  {
    && name !in NodeNames(t.nodes)
    && |t'.nodes| == |t.nodes| + 1 && t'.nodes[..|t.nodes|] == t.nodes
    && t'.nodes[|t.nodes|].name == name && t'.nodes[|t.nodes|].typeId == MathId
    && t'.nodes[|t.nodes|].operation == op && t'.nodes[|t.nodes|].labelText == title
    && t'.links == t.links + [Link(a.0, a.1, name, 0), Link(b.0, b.1, name, 1)]
    && t'.inputs == t.inputs && t'.outputs == t.outputs
  }

  /** `nsh.math.Add`/`Multiply` (node/shader/math.py): a new math node with
      the operation, its two inputs linked to the outputs `a` and `b`,
      and the title as its label; the result names the new node, whose
      output 0 is the socket returned. */
  function AddMath(t: Tree, kinds: map<string, NodeKind>, op: string, title: string,
                   a: (string, nat), b: (string, nat)): (r: (Tree, string))
    requires MathKind(kinds)
    ensures MathAppended(t, r.0, r.1, op, title, a, b)
  {
    var t1 := AddNode(t, kinds, MathType).value;
    var k := |t.nodes|;
    var t2 := t1.(nodes := t1.nodes[k := t1.nodes[k].(operation := op)]);
    var t3 := Connect(t2, k, 0, SocketSrc(a.0, a.1)).value;
    var t4 := Connect(t3, k, 1, SocketSrc(b.0, b.1)).value;
    var r := t4.(nodes := t4.nodes[k := t4.nodes[k].(labelText := title)]);
    assert r.nodes[..k] == t.nodes;
    (r, t1.nodes[k].name)
  }

  /** The new math node is found under its name, and its two inputs
      are linked to `a` and `b`. */
  lemma AddMathShape(t: Tree, t': Tree, name: string, op: string, title: string,
                     a: (string, nat), b: (string, nat))
    requires MathAppended(t, t', name, op, title, a, b) && Wired(t)
    ensures NodeAt(t'.nodes, name) == Some(t'.nodes[|t.nodes|])
    ensures FindLinkTo(t'.links, name, 0) == Some(Link(a.0, a.1, name, 0))
    ensures FindLinkTo(t'.links, name, 1) == Some(Link(b.0, b.1, name, 1))
  {
    var n := t'.nodes[|t.nodes|];
    NodeAtNames(t.nodes, name);
    assert t'.nodes == t.nodes + [n];
    NodeAtAppend(t.nodes, [n], name);
    var extra := [Link(a.0, a.1, name, 0), Link(b.0, b.1, name, 1)];
    assert FindLinkTo(t.links, name, 0).None? && FindLinkTo(t.links, name, 1).None? by {
      forall l | l in t.links ensures l.toNode != name {
        var i :| 0 <= i < |t.links| && t.links[i] == l;
      }
    }
    FindLinkToAppend(t.links, extra, name, 0);
    FindLinkToAppend(t.links, extra, name, 1);
  }

  /** Adding a math node extends the tree. */
  lemma AddMathExtends(t: Tree, t': Tree, name: string, op: string, title: string,
                       a: (string, nat), b: (string, nat))
    requires MathAppended(t, t', name, op, title, a, b)
    ensures Extends(t, t')
  {
    NodeAtNames(t.nodes, name);
    var extra := [Link(a.0, a.1, name, 0), Link(b.0, b.1, name, 1)];
    assert t'.links[..|t.links|] == t.links;
    forall i | |t.links| <= i < |t'.links| ensures !Reads(t, t'.links[i].toNode) {
      assert t'.links[i] == extra[i - |t.links|];
    }
  }

  /** Adding a math node keeps the tree wired, and the new node is read. */
  lemma AddMathWired(t: Tree, t': Tree, name: string, op: string, title: string,
                     a: (string, nat), b: (string, nat))
    requires MathAppended(t, t', name, op, title, a, b) && Wired(t)
    ensures Wired(t') && Reads(t', name)
  {
    AddMathShape(t, t', name, op, title, a, b);
    AddMathExtends(t, t', name, op, title, a, b);
    var extra := [Link(a.0, a.1, name, 0), Link(b.0, b.1, name, 1)];
    forall i | 0 <= i < |t'.links| ensures NodeAt(t'.nodes, t'.links[i].toNode).Some? {
      if i < |t.links| {
        assert t'.links[i] == t.links[i];
        ExtendsFinds(t, t', t.links[i].toNode);
      } else {
        assert t'.links[i] == extra[i - |t.links|];
      }
    }
  }

  /** A new math node computes its operation on what the outputs it is
      linked to compute; the graph before it computes what it did. */
  lemma AddMathExpr(t: Tree, t': Tree, name: string, op: string, title: string,
                    a: (string, nat), b: (string, nat), f: nat, ea: Expr, eb: Expr)
    requires MathAppended(t, t', name, op, title, a, b) && Wired(t)
    requires OutputExpr(t, a.0, a.1, f) == Some(ea) && OutputExpr(t, b.0, b.1, f) == Some(eb)
    ensures OutputExpr(t', name, 0, f + 2) == Some(Op(op, ea, eb))
  {
    AddMathShape(t, t', name, op, title, a, b);
    AddMathExtends(t, t', name, op, title, a, b);
    OutputStable(t, t', a.0, a.1, f);
    OutputStable(t, t', b.0, b.1, f);
    OutputMono(t', a.0, a.1, f, f + 1);
    OutputMono(t', b.0, b.1, f, f + 1);
    assert InputExpr(t', name, 0, f + 1) == Some(ea);
    assert InputExpr(t', name, 1, f + 1) == Some(eb);
  }

  // ---------------------------------------------------------------------
  // The Horner chain

  /** The group input node `gi` and the group output node `go` are in the
      tree, nothing is linked into the output yet, and every link leads
      into a node of the tree. */
  predicate Ready(t: Tree, gi: string, go: string) {
    && Wired(t)
    && NodeAt(t.nodes, gi).Some? && NodeAt(t.nodes, gi).value.typeId == GroupInputId
    && NodeAt(t.nodes, go).Some? && NodeAt(t.nodes, go).value.typeId != MathId
    && FindLinkTo(t.links, go, 0).None?
  }

  /** A new math node keeps the tree ready. */
  lemma AddMathReady(t: Tree, t': Tree, name: string, op: string, title: string,
                     a: (string, nat), b: (string, nat), gi: string, go: string)
    requires MathAppended(t, t', name, op, title, a, b) && Ready(t, gi, go)
    ensures Ready(t', gi, go) && Extends(t, t')
  {
    AddMathExtends(t, t', name, op, title, a, b);
    AddMathWired(t, t', name, op, title, a, b);
    ExtendsFinds(t, t', gi);
    ExtendsFinds(t, t', go);
    NodeAtNames(t.nodes, go);
    FindLinkToAppend(t.links, [Link(a.0, a.1, name, 0), Link(b.0, b.1, name, 1)], go, 0);
  }

  /** The group input node passes the group inputs on. */
  lemma GroupInputExpr(t: Tree, gi: string, s: nat, f: nat)
    requires NodeAt(t.nodes, gi).Some? && NodeAt(t.nodes, gi).value.typeId == GroupInputId && 1 <= f
    ensures OutputExpr(t, gi, s, f) == Some(In(s))
  {
  }

  function MulTitle(p: nat): string {
    "p" + NatToString(p) + " * x"
  }

  function AddTitle(p: nat): string
    requires p >= 1
  {
    "p" + NatToString(p - 1) + " = a" + NatToString(p - 1) + " + p" + NatToString(p) + "*x"
  }

  /** An input of a new math node: the output of the node added last, or
      output `k` of the group input node (`x` for 0, coefficient
      `a{k-1}` otherwise). */
  datatype Operand = Prev | Arg(k: nat)

  /** One math node to add: its operation, its label and its inputs. */
  datatype Instr = Instr(op: string, title: string, a: Operand, b: Operand)

  function OperandSocket(x: Operand, gi: string, prev: string): (string, nat) {
    match x
    case Prev => (prev, 0)
    case Arg(k) => (gi, k)
  }

  function OperandExpr(x: Operand, e: Expr): Expr {
    match x
    case Prev => e
    case Arg(k) => In(k)
  }

  /** Adds the math nodes of `prog` one after the other, each reading the
      one before it (`prev` before the first); the result is the tree and
      the name of the last node. */
  function Build(t: Tree, kinds: map<string, NodeKind>, gi: string, prev: string, prog: seq<Instr>): (Tree, string)
    requires MathKind(kinds)
    decreases |prog|
  {
    if |prog| == 0 then (t, prev)
    else Step(Build(t, kinds, gi, prev, prog[..|prog| - 1]), kinds, gi, prog[|prog| - 1])
  }

  /** The math node of one instruction added after the node `b.1`. */
  function Step(b: (Tree, string), kinds: map<string, NodeKind>, gi: string, i: Instr): (Tree, string)
    requires MathKind(kinds)
  {
    AddMath(b.0, kinds, i.op, i.title, OperandSocket(i.a, gi, b.1), OperandSocket(i.b, gi, b.1))
  }

  /** What the last node of `prog` computes when the node before the
      first computes `e`. */
  function ProgExpr(e: Expr, prog: seq<Instr>): Expr
    decreases |prog|
  {
    if |prog| == 0 then e
    else
      var p := ProgExpr(e, prog[..|prog| - 1]);
      var i := prog[|prog| - 1];
      Op(i.op, OperandExpr(i.a, p), OperandExpr(i.b, p))
  }

  /** One new math node computes its operation on its operands and keeps
      the tree ready. */
  lemma InstrComputes(t: Tree, t': Tree, name: string, i: Instr, gi: string, go: string, prev: string,
                      f: nat, e: Expr, g: nat)
    requires MathAppended(t, t', name, i.op, i.title, OperandSocket(i.a, gi, prev), OperandSocket(i.b, gi, prev))
    requires Ready(t, gi, go) && 1 <= f && OutputExpr(t, prev, 0, f) == Some(e) && g == f + 2
    ensures Ready(t', gi, go)
    ensures OutputExpr(t', name, 0, g) == Some(Op(i.op, OperandExpr(i.a, e), OperandExpr(i.b, e)))
  {
    if i.a.Arg? { GroupInputExpr(t, gi, i.a.k, f); }
    if i.b.Arg? { GroupInputExpr(t, gi, i.b.k, f); }
    var a, b := OperandSocket(i.a, gi, prev), OperandSocket(i.b, gi, prev);
    AddMathExpr(t, t', name, i.op, i.title, a, b, f, OperandExpr(i.a, e), OperandExpr(i.b, e));
    AddMathReady(t, t', name, i.op, i.title, a, b, gi, go);
  }

  /** Node `k` of a program took tree `ts[k]` to `ts[k+1]`, adding the
      node `names[k+1]` that reads `names[k]`. */
  predicate StepAt(ts: seq<Tree>, names: seq<string>, prog: seq<Instr>, gi: string, k: nat)
    requires k < |prog| && k + 1 < |ts| && k + 1 < |names|
  {
    var i := prog[k];
    MathAppended(ts[k], ts[k + 1], names[k + 1], i.op, i.title, OperandSocket(i.a, gi, names[k]), OperandSocket(i.b, gi, names[k]))
  }

  /** The trees and node names in between the nodes of a program. */
  predicate Traced(ts: seq<Tree>, names: seq<string>, prog: seq<Instr>, gi: string) {
    && |ts| == |prog| + 1 && |names| == |prog| + 1
    && forall k | 0 <= k < |prog| :: StepAt(ts, names, prog, gi, k)
  }

  /** `Build` passes through the trees of a trace. */
  lemma {:induction false} BuildTrace(t: Tree, kinds: map<string, NodeKind>, gi: string, prev: string, prog: seq<Instr>)
    returns (ts: seq<Tree>, names: seq<string>)
    requires MathKind(kinds)
    ensures Traced(ts, names, prog, gi) && ts[0] == t && names[0] == prev
    ensures (ts[|prog|], names[|prog|]) == Build(t, kinds, gi, prev, prog)
    decreases |prog|
  {
    if |prog| == 0 {
      ts, names := [t], [prev];
    } else {
      var init := prog[..|prog| - 1];
      var ts', names' := BuildTrace(t, kinds, gi, prev, init);
      var b := Build(t, kinds, gi, prev, init);
      var i := prog[|prog| - 1];
      var m := AddMath(b.0, kinds, i.op, i.title, OperandSocket(i.a, gi, b.1), OperandSocket(i.b, gi, b.1));
      ts, names := ts' + [m.0], names' + [m.1];
      forall k | 0 <= k < |prog| ensures StepAt(ts, names, prog, gi, k) {
        if k < |init| {
          assert StepAt(ts', names', init, gi, k);
          assert ts[k] == ts'[k] && ts[k + 1] == ts'[k + 1] && names[k] == names'[k] && names[k + 1] == names'[k + 1];
          assert prog[k] == init[k];
        }
      }
    }
  }

  /** Along a trace, node `k` computes the expression of the first `k`
      instructions. */
  lemma {:induction false} TraceComputes(ts: seq<Tree>, names: seq<string>, prog: seq<Instr>, gi: string, go: string,
                                         f: nat, e: Expr, k: nat, g: nat)
    requires Traced(ts, names, prog, gi) && k <= |prog|
    requires Ready(ts[0], gi, go) && 1 <= f && OutputExpr(ts[0], names[0], 0, f) == Some(e) && g == f + 2 * k
    ensures Ready(ts[k], gi, go) && OutputExpr(ts[k], names[k], 0, g) == Some(ProgExpr(e, prog[..k]))
    decreases k
  {
    if k > 0 {
      TraceComputes(ts, names, prog, gi, go, f, e, k - 1, g - 2);
      assert StepAt(ts, names, prog, gi, k - 1);
      var p := ProgExpr(e, prog[..k - 1]);
      InstrComputes(ts[k - 1], ts[k], names[k], prog[k - 1], gi, go, names[k - 1], g - 2, p, g);
      assert prog[..k][..k - 1] == prog[..k - 1];
    }
  }

  /** The nodes of a program compute its expression, with `g` the fuel
      that follows the graph back to where `e` is computed. */
  lemma BuildComputes(t: Tree, kinds: map<string, NodeKind>, gi: string, go: string, prev: string,
                      prog: seq<Instr>, f: nat, e: Expr, g: nat)
    requires MathKind(kinds) && Ready(t, gi, go) && 1 <= f && OutputExpr(t, prev, 0, f) == Some(e)
    requires g == f + 2 * |prog|
    ensures var r := Build(t, kinds, gi, prev, prog);
      Ready(r.0, gi, go) && OutputExpr(r.0, r.1, 0, g) == Some(ProgExpr(e, prog))
  {
    var ts, names := BuildTrace(t, kinds, gi, prev, prog);
    TraceComputes(ts, names, prog, gi, go, f, e, |prog|, g);
    assert prog[..|prog|] == prog;
  }

  /** Seeing both halves of a program: its expression is the second half's
      on top of the first half's. */
  lemma {:induction false} ProgExprAppend(e: Expr, a: seq<Instr>, b: seq<Instr>)
    ensures ProgExpr(e, a + b) == ProgExpr(ProgExpr(e, a), b)
    decreases |b|
  {
    if |b| == 0 {
      assert a + b == a;
    } else {
      assert (a + b)[..|a + b| - 1] == a + b[..|b| - 1];
      ProgExprAppend(e, a, b[..|b| - 1]);
    }
  }

  // ---------------------------------------------------------------------
  // The nodes of `Create`

  /** The first two nodes: `a{n-1} * x` from `x` and the last coefficient,
      then `p{n-2} = a{n-2} + a{n-1}*x`. Group input 0 is `x`, group input
      `k+1` is coefficient `a{k}`. */
  function FirstPass(n: nat): seq<Instr>
    requires n >= 2
  {
    [Instr("MULTIPLY", "a" + NatToString(n - 1) + " * x", Arg(0), Arg(n)),
     Instr("ADD", "p" + NatToString(n - 2) + " = a" + NatToString(n - 2) + " + a" + NatToString(n - 1) + "*x",
           Arg(n - 1), Prev)]
  }

  /** One pass of the loop of `Create` for power `p`: `p{p} * x` from `x`
      and the running sum, then `p{p-1} = a{p-1} + p{p}*x` from that and
      coefficient `a{p-1}`. */
  function Pass(p: nat): seq<Instr>
    requires p >= 1
  {
    [Instr("MULTIPLY", MulTitle(p), Arg(0), Prev), Instr("ADD", AddTitle(p), Prev, Arg(p))]
  }

  /** The passes of `for p in range(hi - 1, lo - 1, -1)`: powers `hi - 1`
      down to `lo`. */
  function Passes(hi: nat, lo: nat): seq<Instr>
    requires lo >= 1
    decreases hi
  {
    if hi <= lo then [] else Pass(hi - 1) + Passes(hi - 1, lo)
  }

  /** The last pass is the one for power `lo`. */
  lemma {:induction false} PassesLast(hi: nat, lo: nat)
    requires 1 <= lo < hi
    ensures Passes(hi, lo) == Passes(hi, lo + 1) + Pass(lo)
    decreases hi
  {
    if hi - 1 > lo {
      PassesLast(hi - 1, lo);
      assert Pass(hi - 1) + (Passes(hi - 1, lo + 1) + Pass(lo)) == (Pass(hi - 1) + Passes(hi - 1, lo + 1)) + Pass(lo);
    }
  }

  /** Every node `Create` adds, in order, for `n` coefficients. */
  function HornerProgram(n: nat): seq<Instr>
    requires n >= 2
  {
    FirstPass(n) + Passes(n - 1, 1)
  }

  /** How many instructions of a program have the operation `op`. */
  function CountInstr(prog: seq<Instr>, op: string): nat
    decreases |prog|
  {
    if |prog| == 0 then 0
    else CountInstr(prog[..|prog| - 1], op) + if prog[|prog| - 1].op == op then 1 else 0
  }

  lemma {:induction false} CountInstrAppend(a: seq<Instr>, b: seq<Instr>, op: string)
    ensures CountInstr(a + b, op) == CountInstr(a, op) + CountInstr(b, op)
    decreases |b|
  {
    if |b| == 0 {
      assert a + b == a;
    } else {
      assert (a + b)[..|a + b| - 1] == a + b[..|b| - 1];
      CountInstrAppend(a, b[..|b| - 1], op);
    }
  }

  /** A pass, like the first two nodes, is one product and one sum. */
  lemma PairCount(i0: Instr, i1: Instr, op: string)
    requires i0.op == "MULTIPLY" && i1.op == "ADD" && (op == "MULTIPLY" || op == "ADD")
    ensures CountInstr([i0, i1], op) == 1
  {
    assert "MULTIPLY" != "ADD" by { assert |"MULTIPLY"| != |"ADD"|; }
    assert [i0][..0] == [];
    assert CountInstr([i0], op) == if op == "MULTIPLY" then 1 else 0;
    assert [i0, i1][..1] == [i0];
  }

  /** The passes for powers `hi - 1` down to `lo` are `hi - lo` products
      and as many sums. */
  lemma {:induction false} PassesCount(hi: nat, lo: nat, op: string)
    requires lo >= 1 && (op == "MULTIPLY" || op == "ADD")
    ensures var k := if hi <= lo then 0 else hi - lo;
      |Passes(hi, lo)| == 2 * k && CountInstr(Passes(hi, lo), op) == k
    decreases hi
  {
    if hi > lo {
      var pass := Pass(hi - 1);
      PassesCount(hi - 1, lo, op);
      PairCount(pass[0], pass[1], op);
      CountInstrAppend(pass, Passes(hi - 1, lo), op);
    }
  }

  /** `Create` adds `n - 1` products and `n - 1` sums. */
  lemma HornerProgramCount(n: nat, op: string)
    requires n >= 2 && (op == "MULTIPLY" || op == "ADD")
    ensures |HornerProgram(n)| == 2 * (n - 1) && CountInstr(HornerProgram(n), op) == n - 1
  {
    var f := FirstPass(n);
    PassesCount(n - 1, 1, op);
    PairCount(f[0], f[1], op);
    CountInstrAppend(f, Passes(n - 1, 1), op);
  }

  /** How many math nodes with operation `op` there are. */
  function CountMath(nodes: seq<Node>, op: string): nat
    decreases |nodes|
  {
    if |nodes| == 0 then 0
    else
      var n := nodes[|nodes| - 1];
      CountMath(nodes[..|nodes| - 1], op) + if n.typeId == MathId && n.operation == op then 1 else 0
  }

  /** `Build` appends one node per instruction and keeps the group
      interface. */
  lemma {:induction false} BuildKeeps(t: Tree, kinds: map<string, NodeKind>, gi: string, prev: string,
                                      prog: seq<Instr>)
    requires MathKind(kinds)
    ensures var r := Build(t, kinds, gi, prev, prog).0;
      && |r.nodes| == |t.nodes| + |prog| && r.nodes[..|t.nodes|] == t.nodes
      && r.inputs == t.inputs && r.outputs == t.outputs
    decreases |prog|
  {
    if |prog| > 0 {
      var init := prog[..|prog| - 1];
      BuildKeeps(t, kinds, gi, prev, init);
      var b := Build(t, kinds, gi, prev, init);
      var i := prog[|prog| - 1];
      var m := AddMath(b.0, kinds, i.op, i.title, OperandSocket(i.a, gi, b.1), OperandSocket(i.b, gi, b.1));
      assert m.0.nodes[..|t.nodes|] == m.0.nodes[..|b.0.nodes|][..|t.nodes|];
    }
  }

  /** The nodes `Build` appends are math nodes with the instructions'
      operations. */
  lemma {:induction false} BuildNodes(t: Tree, kinds: map<string, NodeKind>, gi: string, prev: string,
                                      prog: seq<Instr>, op: string)
    requires MathKind(kinds)
    ensures CountMath(Build(t, kinds, gi, prev, prog).0.nodes, op) == CountMath(t.nodes, op) + CountInstr(prog, op)
    decreases |prog|
  {
    if |prog| > 0 {
      var init := prog[..|prog| - 1];
      BuildNodes(t, kinds, gi, prev, init, op);
      var b := Build(t, kinds, gi, prev, init);
      var i := prog[|prog| - 1];
      var m := AddMath(b.0, kinds, i.op, i.title, OperandSocket(i.a, gi, b.1), OperandSocket(i.b, gi, b.1));
      assert m.0.nodes[..|m.0.nodes| - 1] == b.0.nodes;
    }
  }

  /** `links.new(last, go.inputs[0])`: the output of the node `b.1` linked
      into input 0 of the group output node `go`. */
  function LinkOut(b: (Tree, string), go: string): Tree {
    b.0.(links := b.0.links + [Link(b.1, 0, go, 0)])
  }

  /** The group output then receives what that node computes. */
  lemma LinkOutComputes(b: (Tree, string), gi: string, go: string, g: nat, e: Expr)
    requires Ready(b.0, gi, go) && OutputExpr(b.0, b.1, 0, g) == Some(e)
    ensures InputExpr(LinkOut(b, go), go, 0, g) == Some(e)
  {
    var link := Link(b.1, 0, go, 0);
    var c := LinkOut(b, go);
    assert Extends(b.0, c) by {
      assert c.nodes[..|b.0.nodes|] == b.0.nodes;
      assert c.links[..|b.0.links|] == b.0.links;
    }
    OutputStable(b.0, c, b.1, 0, g);
    FindLinkToAppend(b.0.links, [link], go, 0);
  }

  /** The tree with the nodes of `Create` and the last sum linked into
      the group output node `go`. */
  function Chain(t: Tree, kinds: map<string, NodeKind>, gi: string, go: string, n: nat): Tree
    requires MathKind(kinds) && n >= 2
  {
    LinkOut(Build(t, kinds, gi, gi, HornerProgram(n)), go)
  }

  /** The expression the group output receives. */
  function ChainExpr(n: nat): Expr
    requires n >= 2
  {
    ProgExpr(In(0), HornerProgram(n))
  }

  /** On a ready tree, the group output receives what the nodes of any
      program compute from the group input `x`. */
  lemma ProgramComputes(t: Tree, kinds: map<string, NodeKind>, gi: string, go: string, prog: seq<Instr>, g: nat)
    requires MathKind(kinds) && Ready(t, gi, go) && g == 1 + 2 * |prog|
    ensures InputExpr(LinkOut(Build(t, kinds, gi, gi, prog), go), go, 0, g) == Some(ProgExpr(In(0), prog))
  {
    GroupInputExpr(t, gi, 0, 1);
    BuildComputes(t, kinds, gi, go, gi, prog, 1, In(0), g);
    LinkOutComputes(Build(t, kinds, gi, gi, prog), gi, go, g, ProgExpr(In(0), prog));
  }

  /** On a ready tree, the group output receives the chain's expression
      (fuel `4n - 3` follows the graph back to the group input). */
  lemma ChainComputes(t: Tree, kinds: map<string, NodeKind>, gi: string, go: string, n: nat)
    requires MathKind(kinds) && n >= 2 && Ready(t, gi, go)
    ensures InputExpr(Chain(t, kinds, gi, go, n), go, 0, 4 * n - 3) == Some(ChainExpr(n))
  {
    HornerProgramCount(n, "ADD");
    ProgramComputes(t, kinds, gi, go, HornerProgram(n), 4 * n - 3);
  }

  // ---------------------------------------------------------------------
  // What the chain evaluates to

  /** The value of `x` and of each coefficient at the group inputs. */
  function X(env: seq<real>): real
    requires |env| >= 1
  {
    env[0]
  }

  function Coefs(env: seq<real>): seq<real>
    requires |env| >= 1
  {
    env[1..]
  }

  /** The expression of a two-node program. */
  lemma ProgExprPair(e: Expr, i0: Instr, i1: Instr)
    ensures var p := Op(i0.op, OperandExpr(i0.a, e), OperandExpr(i0.b, e));
      ProgExpr(e, [i0, i1]) == Op(i1.op, OperandExpr(i1.a, p), OperandExpr(i1.b, p))
  {
    assert [i0][..0] == [];
    assert ProgExpr(e, [i0]) == Op(i0.op, OperandExpr(i0.a, e), OperandExpr(i0.b, e));
    assert [i0, i1][..1] == [i0];
  }

  /** Sums and products evaluate to the sum and product of the operands. */
  lemma EvalArith(l: Expr, r: Expr, env: seq<real>, a: real, b: real)
    requires Eval(l, env) == Num(a) && Eval(r, env) == Num(b)
    ensures Eval(Op("ADD", l, r), env) == Num(a + b)
    ensures Eval(Op("MULTIPLY", l, r), env) == Num(a * b)
  {
    assert "MULTIPLY" != "ADD" by { assert |"MULTIPLY"| != |"ADD"|; }
  }

  /** A pass for power `p` turns the Horner sum from `p` on into the one
      from `p - 1` on. */
  lemma EvalPass(e: Expr, p: nat, env: seq<real>)
    requires 1 <= p < |env|
    requires Eval(e, env) == Num(Horner(Coefs(env), X(env), p))
    ensures Eval(ProgExpr(e, Pass(p)), env) == Num(Horner(Coefs(env), X(env), p - 1))
  {
    var cs, x := Coefs(env), X(env);
    var h := Horner(cs, x, p);
    var pass := Pass(p);
    ProgExprPair(e, pass[0], pass[1]);
    var m := Op("MULTIPLY", In(0), e);
    EvalArith(In(0), e, env, x, h);
    EvalArith(m, In(p), env, x * h, env[p]);
    assert cs[p - 1] == env[p];
    assert Horner(cs, x, p - 1) == cs[p - 1] + x * h;
  }

  /** The passes from power `hi - 1` down to `lo` turn the Horner sum from
      `hi - 1` on into the one from `lo - 1` on. */
  lemma {:induction false} EvalPasses(e: Expr, hi: nat, lo: nat, env: seq<real>)
    requires 1 <= lo <= hi && hi <= |env|
    requires Eval(e, env) == Num(Horner(Coefs(env), X(env), hi - 1))
    ensures Eval(ProgExpr(e, Passes(hi, lo)), env) == Num(Horner(Coefs(env), X(env), lo - 1))
    decreases hi
  {
    if hi > lo {
      EvalPass(e, hi - 1, env);
      ProgExprAppend(e, Pass(hi - 1), Passes(hi - 1, lo));
      EvalPasses(ProgExpr(e, Pass(hi - 1)), hi - 1, lo, env);
    }
  }

  /** The first two nodes compute the Horner sum from `n - 2` on. */
  lemma EvalFirstPass(e: Expr, n: nat, env: seq<real>)
    requires n >= 2 && |env| == n + 1
    ensures Eval(ProgExpr(e, FirstPass(n)), env) == Num(Horner(Coefs(env), X(env), n - 2))
  {
    var cs, x := Coefs(env), X(env);
    var f := FirstPass(n);
    ProgExprPair(e, f[0], f[1]);
    var m := Op("MULTIPLY", In(0), In(n));
    EvalArith(In(0), In(n), env, x, env[n]);
    EvalArith(In(n - 1), m, env, env[n - 1], x * env[n]);
    HornerLastTwo(cs, x);
    assert cs[n - 2] == env[n - 1] && cs[n - 1] == env[n];
  }

  /** The Horner sum from the last but one coefficient. */
  lemma HornerLastTwo(cs: seq<real>, x: real)
    requires |cs| >= 2
    ensures Horner(cs, x, |cs| - 2) == cs[|cs| - 2] + x * cs[|cs| - 1]
  {
    var k := |cs|;
    assert Horner(cs, x, k) == 0.0;
    TimesZero(x, 0.0);
    assert Horner(cs, x, k - 1) == cs[k - 1];
  }

  /** With `x` and the `n` coefficients at the group inputs, the chain
      computes the polynomial `a0 + a1 * x + ... + a{n-1} * x^(n-1)`. */
  lemma ChainEval(n: nat, env: seq<real>)
    requires n >= 2 && |env| == n + 1
    ensures Eval(ChainExpr(n), env) == Num(Poly(Coefs(env), X(env)))
  {
    var f := FirstPass(n);
    ProgExprAppend(In(0), f, Passes(n - 1, 1));
    EvalFirstPass(In(0), n, env);
    EvalPasses(ProgExpr(In(0), f), n - 1, 1, env);
    HornerIsPoly(Coefs(env), X(env));
  }

  // ---------------------------------------------------------------------
  // Clearing the group

  /** The links that touch none of the nodes named in `gone`, in order. */
  function Unlinked(links: seq<Link>, gone: set<string>): (r: seq<Link>)
    ensures |r| <= |links|
    ensures forall l | l in r :: l in links && l.fromNode !in gone && l.toNode !in gone
    ensures forall l | l in links && l.fromNode !in gone && l.toNode !in gone :: l in r
  {
    if |links| == 0 then []
    else
      var rest := Unlinked(links[1..], gone);
      assert forall l | l in links :: l == links[0] || l in links[1..];
      if links[0].fromNode in gone || links[0].toNode in gone then rest else [links[0]] + rest
  }

  /** Removing nothing keeps every link. */
  lemma {:induction false} UnlinkedNone(links: seq<Link>)
    ensures Unlinked(links, {}) == links
  {
    if |links| > 0 {
      UnlinkedNone(links[1..]);
    }
  }

  /** Dropping the links of `a` and then those of `b` drops the links of
      both at once. */
  lemma {:induction false} UnlinkedUnion(links: seq<Link>, a: set<string>, b: set<string>)
    ensures Unlinked(Unlinked(links, a), b) == Unlinked(links, a + b)
  {
    if |links| > 0 {
      UnlinkedUnion(links[1..], a, b);
      var l := links[0];
      if !(l.fromNode in a || l.toNode in a) {
        assert ([l] + Unlinked(links[1..], a))[1..] == Unlinked(links[1..], a);
      }
    }
  }

  lemma NodeNamesSnoc(nodes: seq<Node>, i: nat)
    requires i < |nodes|
    ensures NodeNames(nodes[..i + 1]) == NodeNames(nodes[..i]) + {nodes[i].name}
  {
    assert forall k | 0 <= k < i :: nodes[..i + 1][k] == nodes[..i][k];
    assert nodes[..i + 1][i] == nodes[i];
  }

  /** `nodes.remove(node)`: node `k` is gone, and so is every link into
      or out of it; the interface is kept. */
  function RemoveNode(t: Tree, k: nat): (r: Tree)
    requires k < |t.nodes|
    ensures |r.nodes| == |t.nodes| - 1 && r.nodes == t.nodes[..k] + t.nodes[k + 1..]
    ensures forall l | l in r.links :: l in t.links && l.fromNode != t.nodes[k].name && l.toNode != t.nodes[k].name
    ensures r.inputs == t.inputs && r.outputs == t.outputs
  {
    t.(nodes := t.nodes[..k] + t.nodes[k + 1..], links := Unlinked(t.links, {t.nodes[k].name}))
  }

  /** The tree once every node has been removed: the interface stays. */
  function Cleared(t: Tree): (r: Tree)
    ensures r.nodes == [] && r.inputs == t.inputs && r.outputs == t.outputs
  {
    t.(nodes := [], links := Unlinked(t.links, NodeNames(t.nodes)))
  }

  /** In a tree whose links all lead into its nodes, no link survives the
      removal of the nodes. */
  lemma ClearedWired(t: Tree)
    requires Wired(t)
    ensures Cleared(t).links == []
  {
    var r := Cleared(t).links;
    if |r| > 0 {
      var l := r[0];
      var i :| 0 <= i < |t.links| && t.links[i] == l;
      NodeAtNames(t.nodes, l.toNode);
      assert false;
    }
  }

  /** The tree once its first `i` nodes have been removed one by one. */
  function RemovedUpTo(t: Tree, i: nat): Tree
    requires i <= |t.nodes|
  {
    t.(nodes := t.nodes[i..], links := Unlinked(t.links, NodeNames(t.nodes[..i])))
  }

  /** Nothing removed is the tree itself; all removed is the cleared tree. */
  lemma RemovedUpToEnds(t: Tree)
    ensures RemovedUpTo(t, 0) == t
    ensures RemovedUpTo(t, |t.nodes|) == Cleared(t)
  {
    UnlinkedNone(t.links);
    assert NodeNames(t.nodes[..0]) == {};
    assert t.nodes[0..] == t.nodes;
    assert t.nodes[..|t.nodes|] == t.nodes && t.nodes[|t.nodes|..] == [];
  }

  /** The next node to remove is the first one left. */
  lemma RemovedUpToStep(t: Tree, i: nat)
    requires i < |t.nodes|
    ensures RemoveNode(RemovedUpTo(t, i), 0) == RemovedUpTo(t, i + 1)
  {
    UnlinkedUnion(t.links, NodeNames(t.nodes[..i]), {t.nodes[i].name});
    NodeNamesSnoc(t.nodes, i);
    assert t.nodes[i..][1..] == t.nodes[i + 1..];
  }

  /** The removal loop of `Create`, over the nodes as they were before it:
      each node is the first one left when its turn comes. */
  method ClearGroup(data: CBlendData, ref: TreeRef)
    requires ref in data.trees
    modifies data
    ensures data.trees == old(data.trees)[ref := Cleared(old(data.trees[ref]))]
    ensures data.materials == old(data.materials)
  {
    var orig := data.trees[ref];
    RemovedUpToEnds(orig);
    for i := 0 to |orig.nodes|
      invariant data.materials == old(data.materials)
      invariant data.trees == old(data.trees)[ref := RemovedUpTo(orig, i)]
    {
      RemovedUpToStep(orig, i);
      data.trees := data.trees[ref := RemoveNode(data.trees[ref], 0)];
    }
  }

  // ---------------------------------------------------------------------
  // Create

  const DegreeError := "Polynomial must be of degree 1 or higher"
  const FloatSocket := "NodeSocketFloat"

  /** The group name for `n` coefficients, of the polynomial's degree. */
  function GroupName(n: nat): string
    requires n >= 1
  {
    "AnyCam.Polynomial.V2.deg" + NatToString(n - 1)
  }

  /** Different numbers of coefficients have different groups. */
  lemma GroupNameInjective(m: nat, n: nat)
    requires m >= 1 && n >= 1 && GroupName(m) == GroupName(n)
    ensures m == n
  {
    var p := "AnyCam.Polynomial.V2.deg";
    assert NatToString(m - 1) == GroupName(m)[|p|..];
    assert NatToString(n - 1) == GroupName(n)[|p|..];
    NatToStringInjective(m - 1, n - 1);
  }

  function CoefName(i: nat): string {
    "Coef. " + NatToString(i)
  }

  /** The input declarations: "Input", then one float per coefficient,
      each defaulting to 0. */
  function InputEntries(n: nat): (r: seq<Entry>)
    ensures |r| == n + 1
  {
    [Provide("Input", FloatSocket, Some(Real(0.0)))]
      + seq(n, i requires 0 <= i < n => Provide(CoefName(i), FloatSocket, Some(Real(0.0))))
  }

  const OutputEntries := [Provide("Output", FloatSocket, None)]

  /** The host's node types as `Create` uses them: math nodes with two
      inputs, and the group input and output nodes. */
  predicate PolyKinds(kinds: map<string, NodeKind>) {
    && MathKind(kinds) && GroupNodeKinds(kinds)
    && "NodeGroupInput" in kinds && kinds["NodeGroupInput"].typeId == GroupInputId
    && "NodeGroupOutput" in kinds && kinds["NodeGroupOutput"].typeId != MathId
  }

  /** The group interface provided on a tree: the inputs, then the
      outputs; the result names the group input and output nodes. A
      provision that raises returns the tree with whatever it declared
      and added before the raise. */
  function ProvideInterface(t: Tree, kinds: map<string, NodeKind>, socketTypes: map<string, Option<Value>>, n: nat)
    : (r: (Tree, Result<(string, string)>))
  {
    var p := ProvideSockets(t, kinds, socketTypes, SocketList(InputEntries(n)), true);
    if p.1.Err? then (p.0, Err(p.1.msg))
    else
      var q := ProvideSockets(p.0, kinds, socketTypes, SocketList(OutputEntries), false);
      if q.1.Err? then (q.0, Err(q.1.msg))
      else (q.0, Ok((p.0.nodes[p.1.value].name, q.0.nodes[q.1.value].name)))
  }

  /** The rebuild of a group tree for `n` coefficients: every node
      removed, the interface provided, then the chain of math nodes linked
      from the group input node to the group output node. */
  function Rebuild(t: Tree, kinds: map<string, NodeKind>, socketTypes: map<string, Option<Value>>, n: nat)
    : (r: (Tree, Outcome))
    requires MathKind(kinds) && n >= 2
  {
    var s := ProvideInterface(Cleared(t), kinds, socketTypes, n);
    if s.1.Err? then (s.0, Fail(s.1.msg))
    else (Chain(s.0, kinds, s.1.value.0, s.1.value.1, n), Outcome.Pass)
  }

  /** `Create`: the group for `coefCount` coefficients, (re)built when it
      is new or `force` is set; otherwise the existing group as it is. */
  function CreateGroup(trees: map<TreeRef, Tree>, kinds: map<string, NodeKind>,
                       socketTypes: map<string, Option<Value>>, coefCount: int, force: bool)
    : (r: (map<TreeRef, Tree>, Result<TreeRef>))
    requires MathKind(kinds)
    ensures coefCount < 2 ==> r == (trees, Err(DegreeError))
    ensures coefCount >= 2 ==> var ref := Group(GroupName(coefCount));
      && r.0.Keys == trees.Keys + {ref}
      && (forall k | k in trees && k != ref :: r.0[k] == trees[k])
      && (r.1.Ok? ==> r.1.value == ref)
      && (ref in trees && !force ==> r == (trees, Ok(ref)))
  {
    if coefCount < 2 then (trees, Err(DegreeError))
    else
      var ref := Group(GroupName(coefCount));
      if ref in trees && !force then (trees, Ok(ref))
      else
        var b := Rebuild(if ref in trees then trees[ref] else EmptyTree, kinds, socketTypes, coefCount);
        (trees[ref := b.0], if b.1.Fail? then Err(b.1.msg) else Ok(ref))
  }

  lemma GroupNodeNamesDiffer()
    ensures "Group Input" != "Group Output"
  {
    assert |"Group Input"| != |"Group Output"|;
  }

  /** One provision on a tree without its group node: the node is
      appended and returned, the links stay, and the sockets of that side
      are what the entries make of them. */
  lemma ProvidedOnce(t: Tree, kinds: map<string, NodeKind>, socketTypes: map<string, Option<Value>>,
                     es: seq<Entry>, isInput: bool, r: (Tree, Result<nat>))
    requires PolyKinds(kinds)
    requires FindNode(t.nodes, if isInput then "Group Input" else "Group Output").None?
    requires r == ProvideSockets(t, kinds, socketTypes, SocketList(es), isInput) && r.1.Ok?
    ensures r.1.value == |t.nodes| && |r.0.nodes| == |t.nodes| + 1 && r.0.nodes[..|t.nodes|] == t.nodes
    ensures r.0.nodes[|t.nodes|].name == (if isInput then "Group Input" else "Group Output")
    ensures r.0.nodes[|t.nodes|].typeId == (if isInput then GroupInputId else kinds["NodeGroupOutput"].typeId)
    ensures r.0.links == t.links && Side(r.0, !isInput) == Side(t, !isInput)
    ensures Side(r.0, isInput) == ProvideAll(Side(t, isInput), socketTypes, es, isInput).0
    ensures AllPresent(SocketNames(Side(r.0, isInput)), es)
  {
    ProvideSocketsAppends(t, kinds, socketTypes, SocketList(es), isInput);
    ProvideSocketsSide(t, kinds, socketTypes, SocketList(es), isInput);
    ProvideSocketsProvides(t, kinds, socketTypes, SocketList(es), isInput);
  }

  /** An interface that raised nothing: the tree holds the group input
      and output nodes, no link, and the provided sockets. */
  lemma InterfaceShape(t: Tree, kinds: map<string, NodeKind>, socketTypes: map<string, Option<Value>>, n: nat)
    requires PolyKinds(kinds) && Wired(t)
    requires ProvideInterface(Cleared(t), kinds, socketTypes, n).1.Ok?
    ensures var s := ProvideInterface(Cleared(t), kinds, socketTypes, n); var u := s.0;
      && s.1.value == ("Group Input", "Group Output")
      && Ready(u, "Group Input", "Group Output")
      && |u.nodes| == 2 && u.nodes[0].typeId == GroupInputId && u.nodes[1].typeId != MathId
      && u.inputs == ProvideAll(t.inputs, socketTypes, InputEntries(n), true).0
      && u.outputs == ProvideAll(t.outputs, socketTypes, OutputEntries, false).0
      && AllPresent(SocketNames(u.inputs), InputEntries(n)) && AllPresent(SocketNames(u.outputs), OutputEntries)
  {
    var c := Cleared(t);
    ClearedWired(t);
    var p := ProvideSockets(c, kinds, socketTypes, SocketList(InputEntries(n)), true);
    ProvidedOnce(c, kinds, socketTypes, InputEntries(n), true, p);
    GroupNodeNamesDiffer();
    assert NodeNames(p.0.nodes) == {"Group Input"};
    var q := ProvideSockets(p.0, kinds, socketTypes, SocketList(OutputEntries), false);
    ProvidedOnce(p.0, kinds, socketTypes, OutputEntries, false, q);
    TwoNodesReady(q.0);
  }

  /** A rebuild that raised nothing is the chain on such an interface. */
  lemma RebuildShape(t: Tree, kinds: map<string, NodeKind>, socketTypes: map<string, Option<Value>>, n: nat)
    returns (u: Tree)
    requires PolyKinds(kinds) && n >= 2 && Wired(t)
    requires Rebuild(t, kinds, socketTypes, n).1.Pass?
    ensures Rebuild(t, kinds, socketTypes, n).0 == Chain(u, kinds, "Group Input", "Group Output", n)
    ensures Ready(u, "Group Input", "Group Output")
    ensures |u.nodes| == 2 && u.nodes[0].typeId == GroupInputId && u.nodes[1].typeId != MathId
    ensures u.inputs == ProvideAll(t.inputs, socketTypes, InputEntries(n), true).0
    ensures u.outputs == ProvideAll(t.outputs, socketTypes, OutputEntries, false).0
    ensures AllPresent(SocketNames(u.inputs), InputEntries(n)) && AllPresent(SocketNames(u.outputs), OutputEntries)
  {
    InterfaceShape(t, kinds, socketTypes, n);
    u := ProvideInterface(Cleared(t), kinds, socketTypes, n).0;
  }

  /** The group input node, then the group output node, and no link. */
  lemma TwoNodesReady(u: Tree)
    requires |u.nodes| == 2 && u.links == []
    requires u.nodes[0].name == "Group Input" && u.nodes[0].typeId == GroupInputId
    requires u.nodes[1].name == "Group Output" && u.nodes[1].typeId != MathId
    ensures Ready(u, "Group Input", "Group Output")
  {
    GroupNodeNamesDiffer();
    assert u.nodes[1..][0] == u.nodes[1];
  }

  /** Every math node of a rebuilt group is one of the chain's. */
  lemma CountMathInterface(nodes: seq<Node>, op: string)
    requires |nodes| == 2 && nodes[0].typeId == GroupInputId && nodes[1].typeId != MathId
    ensures CountMath(nodes, op) == 0
  {
    assert nodes[..1][..0] == [] && nodes[..1][0] == nodes[0];
    assert MathId != GroupInputId by { assert |MathId| != |GroupInputId|; }
    assert CountMath(nodes[..1], op) == 0;
  }

  /** The rebuilt group's output receives the polynomial of its inputs:
      with `x` at group input 0 and coefficient `a{i}` at group input
      `i + 1`, it is the sum of `a{i} * x^i`. */
  lemma CreateComputes(trees: map<TreeRef, Tree>, kinds: map<string, NodeKind>,
                       socketTypes: map<string, Option<Value>>, coefCount: int, force: bool, env: seq<real>)
    requires PolyKinds(kinds) && coefCount >= 2 && |env| == coefCount + 1
    requires Group(GroupName(coefCount)) in trees ==> force && Wired(trees[Group(GroupName(coefCount))])
    requires CreateGroup(trees, kinds, socketTypes, coefCount, force).1.Ok?
    ensures var t := CreateGroup(trees, kinds, socketTypes, coefCount, force).0[Group(GroupName(coefCount))];
      var out := InputExpr(t, "Group Output", 0, 4 * coefCount - 3);
      out.Some? && Eval(out.value, env) == Num(Poly(Coefs(env), X(env)))
  {
    var ref := Group(GroupName(coefCount));
    CreateRebuilds(trees, kinds, socketTypes, coefCount, force);
    var u := RebuildShape(if ref in trees then trees[ref] else EmptyTree, kinds, socketTypes, coefCount);
    ChainComputes(u, kinds, "Group Input", "Group Output", coefCount);
    ChainEval(coefCount, env);
  }

  /** The chain on the two interface nodes: `n - 1` nodes of each
      operation, `2 * n` nodes in all. */
  lemma ChainCounts(u: Tree, kinds: map<string, NodeKind>, n: nat, op: string)
    requires MathKind(kinds) && n >= 2 && (op == "MULTIPLY" || op == "ADD")
    requires |u.nodes| == 2 && u.nodes[0].typeId == GroupInputId && u.nodes[1].typeId != MathId
    ensures var c := Chain(u, kinds, "Group Input", "Group Output", n);
      |c.nodes| == 2 * n && CountMath(c.nodes, op) == n - 1
  {
    var prog := HornerProgram(n);
    BuildKeeps(u, kinds, "Group Input", "Group Input", prog);
    BuildNodes(u, kinds, "Group Input", "Group Input", prog, op);
    HornerProgramCount(n, op);
    CountMathInterface(u.nodes, op);
  }

  /** `Create` with a new group, or a forced one: the group is the
      rebuilt tree, and the call raises exactly when the rebuild does. */
  lemma CreateRebuilds(trees: map<TreeRef, Tree>, kinds: map<string, NodeKind>,
                       socketTypes: map<string, Option<Value>>, coefCount: int, force: bool)
    requires PolyKinds(kinds) && coefCount >= 2
    requires Group(GroupName(coefCount)) in trees ==> force
    ensures var ref := Group(GroupName(coefCount));
      var b := Rebuild(if ref in trees then trees[ref] else EmptyTree, kinds, socketTypes, coefCount);
      var r := CreateGroup(trees, kinds, socketTypes, coefCount, force);
      r.0[ref] == b.0 && (r.1.Ok? <==> b.1.Pass?)
  {
  }

  /** The rebuilt group holds the group input and output nodes and
      `n - 1` multiplications and `n - 1` additions. */
  lemma CreateCounts(trees: map<TreeRef, Tree>, kinds: map<string, NodeKind>,
                     socketTypes: map<string, Option<Value>>, coefCount: int, force: bool)
    requires PolyKinds(kinds) && coefCount >= 2
    requires Group(GroupName(coefCount)) in trees ==> force && Wired(trees[Group(GroupName(coefCount))])
    requires CreateGroup(trees, kinds, socketTypes, coefCount, force).1.Ok?
    ensures var t := CreateGroup(trees, kinds, socketTypes, coefCount, force).0[Group(GroupName(coefCount))];
      && |t.nodes| == 2 * coefCount
      && CountMath(t.nodes, "MULTIPLY") == coefCount - 1
      && CountMath(t.nodes, "ADD") == coefCount - 1
  {
    var ref := Group(GroupName(coefCount));
    CreateRebuilds(trees, kinds, socketTypes, coefCount, force);
    var u := RebuildShape(if ref in trees then trees[ref] else EmptyTree, kinds, socketTypes, coefCount);
    ChainCounts(u, kinds, coefCount, "MULTIPLY");
    ChainCounts(u, kinds, coefCount, "ADD");
  }

  /** After a call that raised nothing, the group declares every input
      and output socket of `Create`. */
  lemma CreateProvides(trees: map<TreeRef, Tree>, kinds: map<string, NodeKind>,
                       socketTypes: map<string, Option<Value>>, coefCount: int, force: bool)
    requires PolyKinds(kinds) && coefCount >= 2
    requires Group(GroupName(coefCount)) in trees ==> force && Wired(trees[Group(GroupName(coefCount))])
    requires CreateGroup(trees, kinds, socketTypes, coefCount, force).1.Ok?
    ensures var t := CreateGroup(trees, kinds, socketTypes, coefCount, force).0[Group(GroupName(coefCount))];
      AllPresent(SocketNames(t.inputs), InputEntries(coefCount)) && AllPresent(SocketNames(t.outputs), OutputEntries)
  {
    var ref := Group(GroupName(coefCount));
    CreateRebuilds(trees, kinds, socketTypes, coefCount, force);
    var u := RebuildShape(if ref in trees then trees[ref] else EmptyTree, kinds, socketTypes, coefCount);
    BuildKeeps(u, kinds, "Group Input", "Group Input", HornerProgram(coefCount));
  }

  // ---------------------------------------------------------------------
  // The interface of a new group

  function CoefNames(n: nat): (r: seq<string>)
    ensures |r| == n && forall i | 0 <= i < n :: r[i] == CoefName(i)
  {
    seq(n, i requires 0 <= i < n => CoefName(i))
  }

  /** Different coefficients have different socket names, none of them
      "Input". */
  lemma CoefNameDistinct(i: nat, j: nat)
    ensures CoefName(i) != "Input"
    ensures CoefName(i) == CoefName(j) ==> i == j
  {
    var p := "Coef. ";
    assert |CoefName(i)| > |"Input"|;
    if CoefName(i) == CoefName(j) {
      assert NatToString(i) == CoefName(i)[|p|..];
      assert NatToString(j) == CoefName(j)[|p|..];
      NatToStringInjective(i, j);
    }
  }

  /** On a group without sockets, the declarations of `Create` are all
      new and all different. */
  lemma EntriesFresh(socketTypes: map<string, Option<Value>>, n: nat)
    requires FloatSocket in socketTypes
    requires socketTypes[FloatSocket].Some? ==> socketTypes[FloatSocket].value.Real?
    ensures FreshEntries([], socketTypes, InputEntries(n), true)
    ensures FreshEntries([], socketTypes, OutputEntries, false)
    ensures EntryNames(InputEntries(n)) == ["Input"] + CoefNames(n)
    ensures EntryNames(OutputEntries) == ["Output"]
  {
    var es := InputEntries(n);
    forall i, j | 0 <= i < j < |es| ensures es[i].name != es[j].name {
      CoefNameDistinct(j - 1, if i == 0 then 0 else i - 1);
    }
    forall i | 0 <= i < |es| ensures FreshEntry([], socketTypes, es[i], true) {
    }
    assert EntryNames(es) == ["Input"] + CoefNames(n);
  }

  /** On a group without sockets, both runs of declarations of `Create`
      raise nothing and declare exactly their sockets. */
  lemma EmptyProvided(socketTypes: map<string, Option<Value>>, n: nat)
    requires FloatSocket in socketTypes
    requires socketTypes[FloatSocket].Some? ==> socketTypes[FloatSocket].value.Real?
    ensures var p := ProvideAll([], socketTypes, InputEntries(n), true);
      p.1.Pass? && SocketNames(p.0) == ["Input"] + CoefNames(n)
    ensures var q := ProvideAll([], socketTypes, OutputEntries, false);
      q.1.Pass? && SocketNames(q.0) == ["Output"]
  {
    EntriesFresh(socketTypes, n);
    ProvideAllFresh([], socketTypes, InputEntries(n), true);
    ProvideAllFresh([], socketTypes, OutputEntries, false);
  }

  /** Rebuilding an empty tree raises nothing, when the host knows the
      float socket type, and gives it exactly the sockets of `Create`. */
  lemma EmptyRebuildInterface(kinds: map<string, NodeKind>, socketTypes: map<string, Option<Value>>, n: nat)
    requires PolyKinds(kinds) && n >= 2
    requires FloatSocket in socketTypes
    requires socketTypes[FloatSocket].Some? ==> socketTypes[FloatSocket].value.Real?
    ensures var b := Rebuild(EmptyTree, kinds, socketTypes, n);
      && b.1.Pass?
      && SocketNames(b.0.inputs) == ["Input"] + CoefNames(n)
      && SocketNames(b.0.outputs) == ["Output"]
  {
    EmptyProvided(socketTypes, n);
    InterfaceOk(EmptyTree, kinds, socketTypes, n);
    var u := RebuildShape(EmptyTree, kinds, socketTypes, n);
    BuildKeeps(u, kinds, "Group Input", "Group Input", HornerProgram(n));
  }

  /** A new group gets exactly the sockets "Input", "Coef. 0" up to
      "Coef. {n-1}" and "Output", and the call raises nothing, when the
      host knows the float socket type. */
  lemma CreateInterface(trees: map<TreeRef, Tree>, kinds: map<string, NodeKind>,
                        socketTypes: map<string, Option<Value>>, coefCount: int, force: bool)
    requires PolyKinds(kinds) && coefCount >= 2 && Group(GroupName(coefCount)) !in trees
    requires FloatSocket in socketTypes
    requires socketTypes[FloatSocket].Some? ==> socketTypes[FloatSocket].value.Real?
    ensures var r := CreateGroup(trees, kinds, socketTypes, coefCount, force);
      var t := r.0[Group(GroupName(coefCount))];
      && r.1 == Ok(Group(GroupName(coefCount)))
      && SocketNames(t.inputs) == ["Input"] + CoefNames(coefCount)
      && SocketNames(t.outputs) == ["Output"]
  {
    EmptyRebuildInterface(kinds, socketTypes, coefCount);
    CreateRebuilds(trees, kinds, socketTypes, coefCount, force);
  }

  /** The interface raises nothing when neither run of declarations
      does. */
  lemma InterfaceOk(t: Tree, kinds: map<string, NodeKind>, socketTypes: map<string, Option<Value>>, n: nat)
    requires PolyKinds(kinds) && Wired(t)
    requires ProvideAll(t.inputs, socketTypes, InputEntries(n), true).1.Pass?
    requires ProvideAll(t.outputs, socketTypes, OutputEntries, false).1.Pass?
    ensures ProvideInterface(Cleared(t), kinds, socketTypes, n).1.Ok?
  {
    var c := Cleared(t);
    var p := ProvideSockets(c, kinds, socketTypes, SocketList(InputEntries(n)), true);
    ProvideSocketsSide(c, kinds, socketTypes, SocketList(InputEntries(n)), true);
    ProvideSocketsSide(p.0, kinds, socketTypes, SocketList(OutputEntries), false);
  }

  // ---------------------------------------------------------------------
  // Create, step by step

  /** Build of one more instruction. */
  lemma BuildSnoc(t: Tree, kinds: map<string, NodeKind>, gi: string, prev: string, prog: seq<Instr>, i: Instr)
    requires MathKind(kinds)
    ensures Build(t, kinds, gi, prev, prog + [i]) == Step(Build(t, kinds, gi, prev, prog), kinds, gi, i)
  {
    assert (prog + [i])[..|prog|] == prog;
  }

  /** Build of two more instructions. */
  lemma BuildPair(t: Tree, kinds: map<string, NodeKind>, gi: string, done: seq<Instr>, pair: seq<Instr>, whole: seq<Instr>)
    requires MathKind(kinds) && |pair| == 2 && whole == done + [pair[0], pair[1]]
    ensures Build(t, kinds, gi, gi, whole) == Step(Step(Build(t, kinds, gi, gi, done), kinds, gi, pair[0]), kinds, gi, pair[1])
  {
    BuildSnoc(t, kinds, gi, gi, done, pair[0]);
    BuildSnoc(t, kinds, gi, gi, done + [pair[0]], pair[1]);
    assert done + [pair[0]] + [pair[1]] == whole;
  }

  lemma Regroup(a: seq<Instr>, b: seq<Instr>, c: seq<Instr>)
    requires |c| == 2
    ensures a + (b + c) == a + b + [c[0], c[1]]
  {
    assert c == [c[0], c[1]];
  }

  /** The first two nodes of `Create` are the first pass. */
  lemma FirstPassStep(t: Tree, kinds: map<string, NodeKind>, gi: string, n: nat)
    requires MathKind(kinds) && n >= 2
    ensures var first := FirstPass(n);
      Step(Step((t, gi), kinds, gi, first[0]), kinds, gi, first[1]) == Build(t, kinds, gi, gi, first + Passes(n - 1, n - 1))
  {
    var first := FirstPass(n);
    assert first + Passes(n - 1, n - 1) == [] + [first[0], first[1]];
    BuildPair(t, kinds, gi, [], first, first + Passes(n - 1, n - 1));
  }

  /** The two nodes of the loop pass for power `p` extend the program by
      `Pass(p)`. */
  lemma PassStep(t: Tree, kinds: map<string, NodeKind>, gi: string, n: nat, p: nat)
    requires MathKind(kinds) && n >= 2 && 1 <= p < n - 1
    ensures var pass := Pass(p);
      Step(Step(Build(t, kinds, gi, gi, FirstPass(n) + Passes(n - 1, p + 1)), kinds, gi, pass[0]), kinds, gi, pass[1])
        == Build(t, kinds, gi, gi, FirstPass(n) + Passes(n - 1, p))
  {
    PassesLast(n - 1, p);
    Regroup(FirstPass(n), Passes(n - 1, p + 1), Pass(p));
    BuildPair(t, kinds, gi, FirstPass(n) + Passes(n - 1, p + 1), Pass(p), FirstPass(n) + Passes(n - 1, p));
  }

  /** The nodes `Create` adds: the first two, `a{n-1} * x` and
      `p{n-2} = a{n-2} + a{n-1}*x`, then for each power `p` from `n - 2`
      down to 1 the product `p{p} * x` of `x` and the running sum and the
      sum `p{p-1} = a{p-1} + p{p}*x`, each reading the node before it. */
  method AddChainNodes(t: Tree, kinds: map<string, NodeKind>, gi: string, n: nat) returns (cur: Tree, last: string)
    requires MathKind(kinds) && n >= 2
    ensures (cur, last) == Build(t, kinds, gi, gi, HornerProgram(n))
  {
    var first := FirstPass(n);
    var mul := Step((t, gi), kinds, gi, first[0]);
    var add := Step(mul, kinds, gi, first[1]);
    FirstPassStep(t, kinds, gi, n);
    cur, last := add.0, add.1;
    for p := n - 1 downto 1
      invariant (cur, last) == Build(t, kinds, gi, gi, FirstPass(n) + Passes(n - 1, p))
    {
      var pass := Pass(p);
      var m := Step((cur, last), kinds, gi, pass[0]);
      var a := Step(m, kinds, gi, pass[1]);
      PassStep(t, kinds, gi, n, p);
      cur, last := a.0, a.1;
    }
  }

  /** A second write to the same key of a map replaces the first. */
  lemma UpdateTwice(m: map<TreeRef, Tree>, k: TreeRef, a: Tree, b: Tree)
    ensures m[k := a][k := b] == m[k := b]
  {
  }

  /** The two provisions of `Create` on the group `ref`; the result
      names the group input and output nodes they return. */
  method ProvideGroupInterface(data: CBlendData, ref: TreeRef, kinds: map<string, NodeKind>,
                               socketTypes: map<string, Option<Value>>, n: nat) returns (r: Result<(string, string)>)
    requires ref in data.trees
    modifies data
    ensures ref in data.trees
    ensures data.trees[ref] == ProvideInterface(old(data.trees[ref]), kinds, socketTypes, n).0
    ensures r == ProvideInterface(old(data.trees[ref]), kinds, socketTypes, n).1
    ensures data.trees == old(data.trees)[ref := data.trees[ref]]
    ensures data.materials == old(data.materials)
  {
    ghost var m0, t0 := data.trees, data.trees[ref];
    var gin := ProvideNodeTreeInputs(data, ref, SocketList(InputEntries(n)), kinds, socketTypes);
    ghost var p := ProvideSockets(t0, kinds, socketTypes, SocketList(InputEntries(n)), true);
    if gin.Err? {
      return Err(gin.msg);
    }
    var gi := data.trees[ref].nodes[gin.value].name;
    var gout := ProvideNodeTreeOutputs(data, ref, SocketList(OutputEntries), kinds, socketTypes);
    UpdateTwice(m0, ref, p.0, data.trees[ref]);
    if gout.Err? {
      return Err(gout.msg);
    }
    var go := data.trees[ref].nodes[gout.value].name;
    return Ok((gi, go));
  }

  /** The math nodes of `Create` on the group `ref`, the last one linked
      into input 0 of the group output node `go`. */
  method AddChain(data: CBlendData, ref: TreeRef, kinds: map<string, NodeKind>, gi: string, go: string, n: nat)
    requires MathKind(kinds) && n >= 2 && ref in data.trees
    modifies data
    ensures data.trees == old(data.trees)[ref := Chain(old(data.trees[ref]), kinds, gi, go, n)]
    ensures data.materials == old(data.materials)
  {
    var cur, last := AddChainNodes(data.trees[ref], kinds, gi, n);
    data.trees := data.trees[ref := LinkOut((cur, last), go)];
  }

  /** The rebuild of the group `ref` on the host's data. */
  method RebuildGroup(data: CBlendData, ref: TreeRef, kinds: map<string, NodeKind>,
                      socketTypes: map<string, Option<Value>>, n: nat) returns (o: Outcome)
    requires MathKind(kinds) && n >= 2 && ref in data.trees
    modifies data
    ensures data.trees == old(data.trees)[ref := Rebuild(old(data.trees[ref]), kinds, socketTypes, n).0]
    ensures o == Rebuild(old(data.trees[ref]), kinds, socketTypes, n).1
    ensures data.materials == old(data.materials)
  {
    ghost var m0, t0 := data.trees, data.trees[ref];
    ClearGroup(data, ref);
    var names := ProvideGroupInterface(data, ref, kinds, socketTypes, n);
    ghost var s := ProvideInterface(Cleared(t0), kinds, socketTypes, n);
    UpdateTwice(m0, ref, Cleared(t0), s.0);
    if names.Err? {
      return Fail(names.msg);
    }
    AddChain(data, ref, kinds, names.value.0, names.value.1, n);
    UpdateTwice(m0, ref, s.0, data.trees[ref]);
    return Outcome.Pass;
  }

  /** `Create` on the host's data: the check of the number of
      coefficients, the lookup or creation of the group, and the rebuild
      when the group is new or `force` is set. */
  method Create(data: CBlendData, kinds: map<string, NodeKind>, socketTypes: map<string, Option<Value>>,
                coefCount: int, force: bool) returns (r: Result<TreeRef>)
    requires MathKind(kinds)
    modifies data
    ensures (data.trees, r) == CreateGroup(old(data.trees), kinds, socketTypes, coefCount, force)
    ensures data.materials == old(data.materials)
  {
    if coefCount < 2 {
      return Err(DegreeError);
    }
    var ref := Group(GroupName(coefCount));
    var update: bool;
    if ref !in data.trees {
      data.trees := data.trees[ref := EmptyTree];
      update := true;
    } else {
      update := force;
    }
    if !update {
      return Ok(ref);
    }
    var o := RebuildGroup(data, ref, kinds, socketTypes, coefCount);
    UpdateTwice(old(data.trees), ref, EmptyTree, data.trees[ref]);
    r := if o.Fail? then Err(o.msg) else Ok(ref);
  }
}
