// Node trees as the node helpers see them: shader node groups and material
// node trees, the nodes in them, their sockets and links, and the host's
// node-type registry.

module NodeTree {
  import opened Wrappers
  import opened Strings

  /** A value a socket default can hold: a float, or a tuple of floats
      (a colour or a vector). */
  datatype Value = Real(r: real) | Tuple(t: seq<real>)

  /** Whether a socket currently holding `current` takes `v` as its new
      default: a float socket takes a float, a tuple socket a tuple of the
      same length. */
  predicate Accepts(current: Value, v: Value) {
    match current
    case Real(_) => v.Real?
    case Tuple(t) => v.Tuple? && |v.t| == |t|
  }

  /** An input socket of a node; `default` is None for a socket without a
      default value (a shader socket). */
  datatype Input = Input(name: string, default: Option<Value>)

  datatype Loc = Loc(x: real, y: real)

  /** A node: its unique name, label, type id (such as "MATH" or "GROUP"),
      math operation, the node group it uses (group nodes only), its input
      sockets, its output socket names, location and size. */
  datatype Node = Node(name: string, labelText: string, typeId: string, operation: string,
                       tree: Option<string>, ins: seq<Input>, outs: seq<string>,
                       location: Loc, width: real, height: real)

  /** A link from output `fromSocket` of node `fromNode` to input `toSocket`
      of node `toNode`. */
  datatype Link = Link(fromNode: string, fromSocket: nat, toNode: string, toSocket: nat)

  /** An interface socket of a node group. */
  datatype Socket = Socket(name: string, typeName: string, default: Option<Value>)

  datatype Tree = Tree(nodes: seq<Node>, links: seq<Link>, inputs: seq<Socket>, outputs: seq<Socket>)

  const EmptyTree := Tree([], [], [], [])

  /** A node tree of the blend data: a node group, or the tree of a material. */
  datatype TreeRef = Group(name: string) | Material(name: string)

  /** What the host creates for a node type name: the type id, the base
      name new nodes are named after, and the sockets. */
  datatype NodeKind = NodeKind(typeId: string, baseName: string, ins: seq<Input>, outs: seq<string>,
                               width: real, height: real)

  function NodeNames(nodes: seq<Node>): set<string> {
    set i | 0 <= i < |nodes| :: nodes[i].name
  }

  /** Node names are unique within a tree. */
  predicate UniqueNames(nodes: seq<Node>) {
    forall i, j | 0 <= i < j < |nodes| :: nodes[i].name != nodes[j].name
  }

  /** The collection lookup `nodes.get(name)`: the first node of that name. */
  function FindNode(nodes: seq<Node>, name: string): (r: Option<nat>)
    ensures r.Some? ==> r.value < |nodes| && nodes[r.value].name == name
    ensures r.Some? ==> forall i | 0 <= i < r.value :: nodes[i].name != name
    ensures r.None? <==> name !in NodeNames(nodes)
  {
    if |nodes| == 0 then None
    else if nodes[0].name == name then Some(0)
    else
      var r := FindNode(nodes[1..], name);
      assert NodeNames(nodes) == {nodes[0].name} + NodeNames(nodes[1..]) by {
        forall x | x in NodeNames(nodes) ensures x in {nodes[0].name} + NodeNames(nodes[1..]) {
          var i :| 0 <= i < |nodes| && nodes[i].name == x;
          if i > 0 { assert nodes[1..][i - 1] == nodes[i]; }
        }
      }
      if r.None? then None else Some(r.value + 1)
  }

  /** Looking a name up after appending nodes finds the old node when there
      is one, and otherwise nothing before the appended part. */
  lemma {:induction false} FindNodeAppend(nodes: seq<Node>, extra: seq<Node>, name: string)
    ensures FindNode(nodes, name).Some? ==> FindNode(nodes + extra, name) == FindNode(nodes, name)
    ensures FindNode(nodes, name).None? ==>
      FindNode(nodes + extra, name).None? || FindNode(nodes + extra, name).value >= |nodes|
  {
    if |nodes| > 0 {
      assert (nodes + extra)[1..] == nodes[1..] + extra;
      FindNodeAppend(nodes[1..], extra, name);
    } else {
      assert nodes + extra == extra;
    }
  }

  function SocketNames(sockets: seq<Socket>): (r: seq<string>)
    ensures |r| == |sockets|
  {
    seq(|sockets|, i requires 0 <= i < |sockets| => sockets[i].name)
  }

  /** The socket lookup `sockets.get(name)`. */
  function FindSocket(sockets: seq<Socket>, name: string): (r: Option<nat>)
    ensures r.Some? ==> r.value < |sockets| && sockets[r.value].name == name
    ensures r.Some? ==> forall i | 0 <= i < r.value :: sockets[i].name != name
    ensures r.None? <==> name !in SocketNames(sockets)
  {
    if |sockets| == 0 then None
    else
      assert SocketNames(sockets) == [sockets[0].name] + SocketNames(sockets[1..]);
      if sockets[0].name == name then Some(0)
      else
        var r := FindSocket(sockets[1..], name);
        if r.None? then None else Some(r.value + 1)
  }

  /** The name the host gives a new node of base name `base`: the base name
      itself when it is free, otherwise the first free numbered variant.
      The variant is written "base.1", "base.2", ..., where Blender pads
      the number to "base.001"; no contract of the model depends on the
      format, only on the name being free. */
  function NewNodeName(nodes: seq<Node>, base: string): (r: string)
    ensures r !in NodeNames(nodes)
    ensures base !in NodeNames(nodes) ==> r == base
  {
    Numbered(base, ".", FirstFree(base, ".", NodeNames(nodes), 0))
  }

  /** `nodes.new(typeName)`: a node of the registered kind, appended under a
      fresh name. An unknown type name raises. */
  function AddNode(t: Tree, kinds: map<string, NodeKind>, typeName: string): (r: Result<Tree>)
    ensures typeName !in kinds <==> r.Err?
    ensures r.Ok? ==> |r.value.nodes| == |t.nodes| + 1
    ensures r.Ok? ==> var k := kinds[typeName]; var n := r.value.nodes[|t.nodes|];
      && r.value.nodes == t.nodes + [n]
      && n.name !in NodeNames(t.nodes)
      && n.typeId == k.typeId && n.tree.None? && n.ins == k.ins && n.outs == k.outs
      && r.value.(nodes := t.nodes) == t
  {
    if typeName !in kinds then Err("Node type '" + typeName + "' undefined")
    else
      var k := kinds[typeName];
      var name := NewNodeName(t.nodes, k.baseName);
      Ok(t.(nodes := t.nodes + [Node(name, "", k.typeId, "", None, k.ins, k.outs, Loc(0.0, 0.0), k.width, k.height)]))
  }

  /** Every node name stays unique when a node is added. */
  lemma AddNodeUnique(t: Tree, kinds: map<string, NodeKind>, typeName: string)
    requires UniqueNames(t.nodes)
    requires AddNode(t, kinds, typeName).Ok?
    ensures UniqueNames(AddNode(t, kinds, typeName).value.nodes)
  {
    var t' := AddNode(t, kinds, typeName).value;
    forall i, j | 0 <= i < j < |t'.nodes|
      ensures t'.nodes[i].name != t'.nodes[j].name
    {
      if j == |t.nodes| {
        assert t'.nodes[i] == t.nodes[i];
        assert t.nodes[i].name in NodeNames(t.nodes);
      } else {
        assert t'.nodes[i] == t.nodes[i] && t'.nodes[j] == t.nodes[j];
      }
    }
  }

  /** The blend data the node helpers work on: every node tree by
      reference, and the materials in data order. A material whose
      reference has no tree has no node tree. */
  class CBlendData {
    var trees: map<TreeRef, Tree>
    var materials: seq<string>

    constructor (trees: map<TreeRef, Tree>, materials: seq<string>)
      ensures this.trees == trees && this.materials == materials
    {
      this.trees := trees;
      this.materials := materials;
    }
  }
}
