// `ReplaceNodeType` of the shader node utilities: every node of a search
// type in a node tree (and, recursing, in the node groups its group nodes
// use) is replaced by a new node of another type, with the links of one
// selected input and one selected output carried over.

module ShaderReplace {
  import opened Wrappers
  import opened Strings
  import opened NodeTree

  /** A socket chosen by position or by name. */
  datatype SocketKey = At(index: nat) | Named(name: string)

  /** `CNodeDescriptor`: the type id a node is recognised by, the type name
      `nodes.new` creates it from, and the input and output socket whose
      links are carried over. */
  datatype NodeDescriptor = NodeDescriptor(typeId: string, typeName: string, input: SocketKey, output: SocketKey)

  /** The position of the first socket called `name`. */
  function FirstNamed(names: seq<string>, name: string): (r: Option<nat>)
    ensures r.Some? ==> r.value < |names| && names[r.value] == name
    ensures r.Some? ==> forall i | 0 <= i < r.value :: names[i] != name
    ensures r.None? <==> name !in names
  {
    if |names| == 0 then None
    else if names[0] == name then Some(0)
    else
      var r := FirstNamed(names[1..], name);
      assert name in names[1..] <==> name in names;
      if r.None? then None else Some(r.value + 1)
  }

  /** `sockets[key]` on a socket collection with these names: an index past
      the end or a missing name raises. */
  function Select(names: seq<string>, key: SocketKey): (r: Result<nat>)
    ensures r.Ok? ==> r.value < |names|
    ensures key.At? ==> (r.Ok? <==> key.index < |names|) && (r.Ok? ==> r.value == key.index)
    ensures key.Named? ==> (r.Ok? <==> key.name in names) && (r.Ok? ==> names[r.value] == key.name)
  {
    match key
    case At(i) =>
      if i < |names| then Ok(i)
      else Err("bpy_prop_collection[index]: index " + NatToString(i) + " out of range, size " + NatToString(|names|))
    case Named(name) =>
      match FirstNamed(names, name)
      case Some(i) => Ok(i)
      case None => Err("bpy_prop_collection[key]: key \"" + name + "\" not found")
  }

  function InputNames(ins: seq<Input>): seq<string> {
    seq(|ins|, i requires 0 <= i < |ins| => ins[i].name)
  }

  /** `node.inputs[socket].links`: the links into that input, in link order. */
  function LinksInto(links: seq<Link>, node: string, socket: nat): (r: seq<Link>)
    ensures forall l | l in r :: l in links && l.toNode == node && l.toSocket == socket
    ensures forall l | l in links && l.toNode == node && l.toSocket == socket :: l in r
  {
    if |links| == 0 then []
    else
      assert forall l | l in links :: l == links[0] || l in links[1..];
      (if links[0].toNode == node && links[0].toSocket == socket then [links[0]] else [])
        + LinksInto(links[1..], node, socket)
  }

  /** `node.outputs[socket].links`: the links out of that output. */
  function LinksOutOf(links: seq<Link>, node: string, socket: nat): (r: seq<Link>)
    ensures forall l | l in r :: l in links && l.fromNode == node && l.fromSocket == socket
    ensures forall l | l in links && l.fromNode == node && l.fromSocket == socket :: l in r
  {
    if |links| == 0 then []
    else
      assert forall l | l in links :: l == links[0] || l in links[1..];
      (if links[0].fromNode == node && links[0].fromSocket == socket then [links[0]] else [])
        + LinksOutOf(links[1..], node, socket)
  }

  /** The links `links.new(l.from_socket, node.inputs[socket])` creates, one
      per link of `ls`, in order. */
  function Feeding(ls: seq<Link>, node: string, socket: nat): (r: seq<Link>)
    ensures |r| == |ls|
    ensures forall k | 0 <= k < |r| :: r[k].toNode == node
  {
    if |ls| == 0 then []
    else
      var l := ls[|ls| - 1];
      Feeding(ls[..|ls| - 1], node, socket) + [Link(l.fromNode, l.fromSocket, node, socket)]
  }

  /** The links `links.new(node.outputs[socket], l.to_socket)` creates. */
  function Draining(ls: seq<Link>, node: string, socket: nat): (r: seq<Link>)
    ensures |r| == |ls|
    ensures forall k | 0 <= k < |r| :: r[k].fromNode == node
  {
    if |ls| == 0 then []
    else
      var l := ls[|ls| - 1];
      Draining(ls[..|ls| - 1], node, socket) + [Link(node, socket, l.toNode, l.toSocket)]
  }

  /** `nodes.remove(node)` on the nodes: every node of that name goes. */
  function RemoveNamed(nodes: seq<Node>, name: string): (r: seq<Node>)
    ensures forall n | n in r :: n in nodes && n.name != name
    ensures forall n | n in nodes && n.name != name :: n in r
  {
    if |nodes| == 0 then []
    else
      assert forall n | n in nodes :: n == nodes[0] || n in nodes[1..];
      (if nodes[0].name == name then [] else [nodes[0]]) + RemoveNamed(nodes[1..], name)
  }

  /** `nodes.remove(node)` on the links: the host drops every link of the
      removed node. */
  function Detach(links: seq<Link>, name: string): (r: seq<Link>)
    ensures forall l | l in r :: l in links && l.fromNode != name && l.toNode != name
    ensures forall l | l in links && l.fromNode != name && l.toNode != name :: l in r
  {
    if |links| == 0 then []
    else
      assert forall l | l in links :: l == links[0] || l in links[1..];
      (if links[0].fromNode == name || links[0].toNode == name then [] else [links[0]])
        + Detach(links[1..], name)
  }

  /** The replacement node `made` gets a link from the source of every link
      into input `i` of `nd`. The input of `made` is only looked up when
      there is such a link. */
  function RewireInputs(t: Tree, nd: Node, i: nat, made: Node, key: SocketKey): (r: (Tree, Outcome))
    ensures r.0.nodes == t.nodes && t.links <= r.0.links
    ensures r.1.Fail? <==> |LinksInto(t.links, nd.name, i)| > 0 && Select(InputNames(made.ins), key).Err?
    ensures r.1.Fail? ==> r.0 == t
    ensures forall k | |t.links| <= k < |r.0.links| :: r.0.links[k].toNode == made.name
    ensures r.1.Pass? ==> forall l | l in LinksInto(t.links, nd.name, i) ::
      Link(l.fromNode, l.fromSocket, made.name, Select(InputNames(made.ins), key).value) in r.0.links
  {
    var ins := LinksInto(t.links, nd.name, i);
    if |ins| == 0 then (t, Pass)
    else match Select(InputNames(made.ins), key)
      case Err(msg) => (t, Fail(msg))
      case Ok(j) =>
        FeedingCovers(ins, made.name, j);
        (t.(links := t.links + Feeding(ins, made.name, j)), Pass)
  }

  lemma {:induction false} FeedingCovers(ls: seq<Link>, node: string, socket: nat)
    ensures forall l | l in ls :: Link(l.fromNode, l.fromSocket, node, socket) in Feeding(ls, node, socket)
  {
    if |ls| > 0 {
      var m := |ls| - 1;
      FeedingCovers(ls[..m], node, socket);
      assert forall l | l in ls :: l == ls[m] || l in ls[..m];
    }
  }

  lemma {:induction false} DrainingCovers(ls: seq<Link>, node: string, socket: nat)
    ensures forall l | l in ls :: Link(node, socket, l.toNode, l.toSocket) in Draining(ls, node, socket)
  {
    if |ls| > 0 {
      var m := |ls| - 1;
      DrainingCovers(ls[..m], node, socket);
      assert forall l | l in ls :: l == ls[m] || l in ls[..m];
    }
  }

  /** Every link out of output `o` of `nd` gets a counterpart from the
      selected output of `made`, looked up only when there is such a link. */
  function RewireOutputs(t: Tree, nd: Node, o: nat, made: Node, key: SocketKey): (r: (Tree, Outcome))
    ensures r.0.nodes == t.nodes && t.links <= r.0.links
    ensures r.1.Fail? <==> |LinksOutOf(t.links, nd.name, o)| > 0 && Select(made.outs, key).Err?
    ensures r.1.Fail? ==> r.0 == t
    ensures forall k | |t.links| <= k < |r.0.links| :: r.0.links[k].fromNode == made.name
    ensures r.1.Pass? ==> forall l | l in LinksOutOf(t.links, nd.name, o) ::
      Link(made.name, Select(made.outs, key).value, l.toNode, l.toSocket) in r.0.links
  {
    var outs := LinksOutOf(t.links, nd.name, o);
    if |outs| == 0 then (t, Pass)
    else match Select(made.outs, key)
      case Err(msg) => (t, Fail(msg))
      case Ok(j) =>
        DrainingCovers(outs, made.name, j);
        (t.(links := t.links + Draining(outs, made.name, j)), Pass)
  }

  /** A node `ReplaceNodeType` creates: of the replacement kind, using no
      node group. */
  predicate IsFresh(n: Node, kinds: map<string, NodeKind>, replace: NodeDescriptor) {
    replace.typeName in kinds && n.typeId == kinds[replace.typeName].typeId && n.tree.None?
  }

  /** The body of the second loop of `ReplaceNodeType` for the node `nd`:
      a new node of the replacement type, the selected input and output
      links carried over to it, and `nd` removed with its links. On an
      error the tree keeps what was done before it. */
  function ReplaceOne(t: Tree, kinds: map<string, NodeKind>, nd: Node, search: NodeDescriptor,
                      replace: NodeDescriptor): (r: (Tree, Outcome))
    ensures r.0.inputs == t.inputs && r.0.outputs == t.outputs
    ensures forall n | n in r.0.nodes :: n in t.nodes || IsFresh(n, kinds, replace)
    ensures r.1.Pass? ==> forall n | n in r.0.nodes :: n.name != nd.name
    ensures r.1.Pass? ==> forall l | l in r.0.links :: l.fromNode != nd.name && l.toNode != nd.name
  {
    match AddNode(t, kinds, replace.typeName)
    case Err(msg) => (t, Fail(msg))
    case Ok(t1) =>
      var made := t1.nodes[|t.nodes|];
      assert forall n | n in t1.nodes :: n in t.nodes || n == made;
      match Select(InputNames(nd.ins), search.input)
      case Err(msg) => (t1, Fail(msg))
      case Ok(i) =>
        var t2 := RewireInputs(t1, nd, i, made, replace.input);
        if t2.1.Fail? then t2
        else match Select(nd.outs, search.output)
          case Err(msg) => (t2.0, Fail(msg))
          case Ok(o) =>
            var t3 := RewireOutputs(t2.0, nd, o, made, replace.output);
            if t3.1.Fail? then t3
            else (t3.0.(nodes := RemoveNamed(t3.0.nodes, nd.name), links := Detach(t3.0.links, nd.name)), Pass)
  }

  /** The second loop of `ReplaceNodeType`: each collected node in turn,
      stopping at the first error. */
  function ReplaceAll(t: Tree, kinds: map<string, NodeKind>, found: seq<Node>, search: NodeDescriptor,
                      replace: NodeDescriptor): (r: (Tree, Outcome))
    ensures r.0.inputs == t.inputs && r.0.outputs == t.outputs
    ensures forall n | n in r.0.nodes :: n in t.nodes || IsFresh(n, kinds, replace)
    ensures r.1.Pass? ==> forall n | n in r.0.nodes :: IsFresh(n, kinds, replace) || (n in t.nodes && n !in found)
    decreases |found|
  {
    if |found| == 0 then (t, Pass)
    else
      var s := ReplaceOne(t, kinds, found[0], search, replace);
      if s.1.Fail? then s
      else
        var r := ReplaceAll(s.0, kinds, found[1..], search, replace);
        assert forall n | n in found :: n == found[0] || n in found[1..];
        r
  }

  /** The nodes the first loop of `ReplaceNodeType` collects: nodes of the
      search type, except group nodes when it recurses into them. */
  predicate Matches(n: Node, search: NodeDescriptor, recurse: bool) {
    !(n.typeId == "GROUP" && recurse) && n.typeId == search.typeId
  }

  /** `group` ranks below the tree `ref`: every material tree is above every
      node group. */
  predicate Below(group: string, ref: TreeRef, rank: map<string, nat>) {
    group in rank && (ref.Group? ==> ref.name in rank && rank[group] < rank[ref.name])
  }

  /** The group node `n` of tree `ref` uses a node group that exists and
      ranks below `ref`. */
  predicate GroupBelow(n: Node, ref: TreeRef, rank: map<string, nat>, refs: set<TreeRef>) {
    n.typeId == "GROUP" && n.tree.Some? ==> Group(n.tree.value) in refs && Below(n.tree.value, ref, rank)
  }

  /** Node groups do not use themselves, directly or through other groups
      (the host refuses such groups): `rank` orders them so that every group
      node uses a group of lower rank. */
  predicate Ranked(trees: map<TreeRef, Tree>, rank: map<string, nat>) {
    && (forall x | x in trees && x.Group? :: x.name in rank)
    && (forall x, n | x in trees && n in trees[x].nodes :: GroupBelow(n, x, rank, trees.Keys))
  }

  /** Every node of `later` was a node of `earlier` or is a replacement node. */
  predicate NodesEvolve(earlier: seq<Node>, later: seq<Node>, kinds: map<string, NodeKind>, replace: NodeDescriptor) {
    forall n | n in later :: n in earlier || IsFresh(n, kinds, replace)
  }

  /** The trees `later` only lost nodes or gained replacement nodes. */
  predicate Evolves(earlier: map<TreeRef, Tree>, later: map<TreeRef, Tree>, kinds: map<string, NodeKind>,
                    replace: NodeDescriptor) {
    && later.Keys == earlier.Keys
    && (forall x | x in later :: NodesEvolve(earlier[x].nodes, later[x].nodes, kinds, replace))
  }

  lemma EvolvesRanked(earlier: map<TreeRef, Tree>, later: map<TreeRef, Tree>, rank: map<string, nat>,
                      kinds: map<string, NodeKind>, replace: NodeDescriptor)
    requires Ranked(earlier, rank) && Evolves(earlier, later, kinds, replace)
    ensures Ranked(later, rank)
  {
    forall x, n | x in later && n in later[x].nodes
      ensures GroupBelow(n, x, rank, later.Keys)
    {
      assert NodesEvolve(earlier[x].nodes, later[x].nodes, kinds, replace);
      if n in earlier[x].nodes {
        assert GroupBelow(n, x, rank, earlier.Keys);
      }
    }
  }

  lemma EvolvesTransitive(a: map<TreeRef, Tree>, b: map<TreeRef, Tree>, c: map<TreeRef, Tree>,
                          kinds: map<string, NodeKind>, replace: NodeDescriptor)
    requires Evolves(a, b, kinds, replace) && Evolves(b, c, kinds, replace)
    ensures Evolves(a, c, kinds, replace)
  {
    forall x | x in c
      ensures NodesEvolve(a[x].nodes, c[x].nodes, kinds, replace)
    {
      assert NodesEvolve(a[x].nodes, b[x].nodes, kinds, replace);
      assert NodesEvolve(b[x].nodes, c[x].nodes, kinds, replace);
    }
  }

  /** Trees the processing of `ref` leaves alone: the material trees, and
      for a node group the groups of its rank and above. */
  predicate NotBelow(x: TreeRef, ref: TreeRef, rank: map<string, nat>) {
    x.Material? || (ref.Group? && x.name in rank && ref.name in rank && rank[x.name] >= rank[ref.name])
  }

  /** Processing the nodes of `ref` changes no tree that is not below it. */
  predicate KeepsAbove(earlier: map<TreeRef, Tree>, later: map<TreeRef, Tree>, ref: TreeRef, rank: map<string, nat>)
    requires later.Keys == earlier.Keys
  {
    forall x | x in earlier && NotBelow(x, ref, rank) :: later[x] == earlier[x]
  }

  /** Processing `ref` changes no tree but `ref` that is not below it. */
  predicate KeepsOthers(earlier: map<TreeRef, Tree>, later: map<TreeRef, Tree>, ref: TreeRef, rank: map<string, nat>)
    requires later.Keys == earlier.Keys
  {
    forall x | x in earlier && x != ref && NotBelow(x, ref, rank) :: later[x] == earlier[x]
  }

  /** Processing a group below `ref`, then the rest of the nodes of `ref`,
      leaves the trees that are not below `ref` alone. */
  lemma KeepsDescend(a: map<TreeRef, Tree>, b: map<TreeRef, Tree>, c: map<TreeRef, Tree>, ref: TreeRef,
                     group: string, rank: map<string, nat>)
    requires b.Keys == a.Keys && c.Keys == a.Keys && Below(group, ref, rank)
    requires KeepsOthers(a, b, Group(group), rank) && KeepsAbove(b, c, ref, rank)
    ensures KeepsAbove(a, c, ref, rank)
  {
    forall x | x in a && NotBelow(x, ref, rank)
      ensures c[x] == a[x]
    {
      assert x != Group(group) && NotBelow(x, Group(group), rank);
    }
  }

  /** The order the recursion of `ReplaceNodeType` descends in: from a
      material tree to node groups, and from a group to groups of lower rank. */
  function Height(ref: TreeRef, rank: map<string, nat>): nat {
    if ref.Group? && ref.name in rank then rank[ref.name] else 0
  }

  function Tier(ref: TreeRef): nat {
    if ref.Material? then 1 else 0
  }

  /** What the first loop of `ReplaceNodeType` does from node `i` of the
      node list `nodes` of tree `ref` on: it recurses into the tree of each
      group node (when `recurse` is set) and collects the matching nodes
      after `found`. A group node without a tree raises. */
  datatype Scanned = Scanned(trees: map<TreeRef, Tree>, found: seq<Node>, outcome: Outcome)

  function Scan(trees: map<TreeRef, Tree>, rank: map<string, nat>, kinds: map<string, NodeKind>,
                search: NodeDescriptor, replace: NodeDescriptor, recurse: bool,
                ref: TreeRef, nodes: seq<Node>, i: nat, found: seq<Node>): (r: Scanned)
    requires Ranked(trees, rank) && i <= |nodes|
    requires forall n | n in nodes :: GroupBelow(n, ref, rank, trees.Keys)
    ensures Ranked(r.trees, rank) && Evolves(trees, r.trees, kinds, replace)
    ensures KeepsAbove(trees, r.trees, ref, rank)
    ensures r.outcome.Pass? ==> found <= r.found
    ensures r.outcome.Pass? ==> forall j | i <= j < |nodes| && Matches(nodes[j], search, recurse) :: nodes[j] in r.found
    decreases Tier(ref), Height(ref, rank), 1, |nodes| - i, 1
  {
    if i == |nodes| then Scanned(trees, found, Pass)
    else
      var n := nodes[i];
      assert n in nodes;
      if n.typeId == "GROUP" && recurse then ScanGroup(trees, rank, kinds, search, replace, recurse, ref, nodes, i, found)
      else if n.typeId == search.typeId then
        var r := Scan(trees, rank, kinds, search, replace, recurse, ref, nodes, i + 1, found + [n]);
        assert n in found + [n];
        r
      else Scan(trees, rank, kinds, search, replace, recurse, ref, nodes, i + 1, found)
  }

  /** `Scan` at a group node, recursing into its tree. */
  function ScanGroup(trees: map<TreeRef, Tree>, rank: map<string, nat>, kinds: map<string, NodeKind>,
                search: NodeDescriptor, replace: NodeDescriptor, recurse: bool,
                ref: TreeRef, nodes: seq<Node>, i: nat, found: seq<Node>): (r: Scanned)
    requires Ranked(trees, rank) && i < |nodes| && nodes[i].typeId == "GROUP" && recurse
    requires forall n | n in nodes :: GroupBelow(n, ref, rank, trees.Keys)
    ensures Ranked(r.trees, rank) && Evolves(trees, r.trees, kinds, replace)
    ensures KeepsAbove(trees, r.trees, ref, rank)
    ensures r.outcome.Pass? ==> found <= r.found
    ensures r.outcome.Pass? ==> forall j | i <= j < |nodes| && Matches(nodes[j], search, recurse) :: nodes[j] in r.found
    decreases Tier(ref), Height(ref, rank), 1, |nodes| - i, 0
  {
    var n := nodes[i];
    assert n in nodes;
    if n.tree.None? then Scanned(trees, found, Fail("'NoneType' object has no attribute 'nodes'"))
    else
      assert GroupBelow(n, ref, rank, trees.Keys);
      var sub := Process(trees, rank, kinds, search, replace, true, Group(n.tree.value));
      EvolvesRanked(trees, sub.0, rank, kinds, replace);
      if sub.1.Fail? then Scanned(sub.0, found, sub.1)
      else
        var r := Scan(sub.0, rank, kinds, search, replace, recurse, ref, nodes, i + 1, found);
        EvolvesTransitive(trees, sub.0, r.trees, kinds, replace);
        KeepsDescend(trees, sub.0, r.trees, ref, n.tree.value, rank);
        r
  }

  /** `ReplaceNodeType` on the tree `ref`: the first loop over its nodes,
      then the replacement of every collected node. */
  function Process(trees: map<TreeRef, Tree>, rank: map<string, nat>, kinds: map<string, NodeKind>,
                   search: NodeDescriptor, replace: NodeDescriptor, recurse: bool, ref: TreeRef)
    : (r: (map<TreeRef, Tree>, Outcome))
    requires Ranked(trees, rank) && ref in trees
    ensures Ranked(r.0, rank) && Evolves(trees, r.0, kinds, replace)
    ensures KeepsOthers(trees, r.0, ref, rank)
    decreases Tier(ref), Height(ref, rank), 2, 0, 0
  {
    var s := Scan(trees, rank, kinds, search, replace, recurse, ref, trees[ref].nodes, 0, []);
    if s.outcome.Fail? then (s.trees, s.outcome)
    else
      var t := ReplaceAll(s.trees[ref], kinds, s.found, search, replace);
      var r := s.trees[ref := t.0];
      assert NodesEvolve(s.trees[ref].nodes, t.0.nodes, kinds, replace);
      assert Evolves(s.trees, r, kinds, replace);
      EvolvesRanked(s.trees, r, rank, kinds, replace);
      (r, t.1)
  }

  /** The replacement type differs from the search type, so that a new node
      is never a node to replace. */
  predicate Distinct(kinds: map<string, NodeKind>, search: NodeDescriptor, replace: NodeDescriptor) {
    replace.typeName in kinds ==> kinds[replace.typeName].typeId != search.typeId
  }

  /** No node of tree `x` is one to replace and, when recursing, neither is
      any node of the groups its group nodes use, at any depth. */
  predicate Clean(trees: map<TreeRef, Tree>, rank: map<string, nat>, search: NodeDescriptor, recurse: bool,
                  x: TreeRef)
    decreases Tier(x), Height(x, rank)
  {
    && x in trees
    && (forall n | n in trees[x].nodes :: !Matches(n, search, recurse))
    && (recurse ==> GroupsClean(trees, rank, search, x, trees[x].nodes))
  }

  /** The groups the group nodes `ns` of tree `x` use are clean. */
  predicate GroupsClean(trees: map<TreeRef, Tree>, rank: map<string, nat>, search: NodeDescriptor, x: TreeRef,
                        ns: seq<Node>)
    decreases Tier(x), Height(x, rank), |ns|
  {
    forall n | n in ns && n.typeId == "GROUP" && n.tree.Some? && Below(n.tree.value, x, rank) ::
      Clean(trees, rank, search, true, Group(n.tree.value))
  }

  /** Removing nodes and adding replacement nodes keeps a tree clean. */
  lemma {:induction false} CleanEvolves(a: map<TreeRef, Tree>, b: map<TreeRef, Tree>, rank: map<string, nat>,
                                        kinds: map<string, NodeKind>, search: NodeDescriptor,
                                        replace: NodeDescriptor, recurse: bool, x: TreeRef)
    requires Evolves(a, b, kinds, replace) && Distinct(kinds, search, replace)
    requires Clean(a, rank, search, recurse, x)
    ensures Clean(b, rank, search, recurse, x)
    decreases Tier(x), Height(x, rank)
  {
    assert NodesEvolve(a[x].nodes, b[x].nodes, kinds, replace);
    if recurse {
      forall n | n in b[x].nodes && n.typeId == "GROUP" && n.tree.Some? && Below(n.tree.value, x, rank)
        ensures Clean(b, rank, search, true, Group(n.tree.value))
      {
        assert n in a[x].nodes;
        CleanEvolves(a, b, rank, kinds, search, replace, true, Group(n.tree.value));
      }
    }
  }

  lemma GroupsCleanEvolve(a: map<TreeRef, Tree>, b: map<TreeRef, Tree>, rank: map<string, nat>,
                          kinds: map<string, NodeKind>, search: NodeDescriptor, replace: NodeDescriptor,
                          x: TreeRef, ns: seq<Node>)
    requires Evolves(a, b, kinds, replace) && Distinct(kinds, search, replace)
    requires GroupsClean(a, rank, search, x, ns)
    ensures GroupsClean(b, rank, search, x, ns)
  {
    forall n | n in ns && n.typeId == "GROUP" && n.tree.Some? && Below(n.tree.value, x, rank)
      ensures Clean(b, rank, search, true, Group(n.tree.value))
    {
      CleanEvolves(a, b, rank, kinds, search, replace, true, Group(n.tree.value));
    }
  }

  /** Once the group of node `i` is clean too, the groups of the nodes up
      to `i` are. */
  lemma GroupsCleanExtend(a: map<TreeRef, Tree>, b: map<TreeRef, Tree>, rank: map<string, nat>,
                          kinds: map<string, NodeKind>, search: NodeDescriptor, replace: NodeDescriptor,
                          x: TreeRef, nodes: seq<Node>, i: nat)
    requires i < |nodes| && nodes[i].tree.Some?
    requires Evolves(a, b, kinds, replace) && Distinct(kinds, search, replace)
    requires GroupsClean(a, rank, search, x, nodes[..i])
    requires Clean(b, rank, search, true, Group(nodes[i].tree.value))
    ensures GroupsClean(b, rank, search, x, nodes[..i + 1])
  {
    GroupsCleanEvolve(a, b, rank, kinds, search, replace, x, nodes[..i]);
    assert forall m | m in nodes[..i + 1] :: m in nodes[..i] || m == nodes[i];
  }

  /** After the first loop, every group the loop recursed into is clean. */
  lemma {:induction false} ScanCleans(trees: map<TreeRef, Tree>, rank: map<string, nat>,
                                      kinds: map<string, NodeKind>, search: NodeDescriptor,
                                      replace: NodeDescriptor, ref: TreeRef, nodes: seq<Node>, i: nat,
                                      found: seq<Node>)
    requires Ranked(trees, rank) && i <= |nodes|
    requires forall n | n in nodes :: GroupBelow(n, ref, rank, trees.Keys)
    requires Distinct(kinds, search, replace)
    requires GroupsClean(trees, rank, search, ref, nodes[..i])
    ensures var r := Scan(trees, rank, kinds, search, replace, true, ref, nodes, i, found);
      r.outcome.Pass? ==> GroupsClean(r.trees, rank, search, ref, nodes)
    decreases Tier(ref), Height(ref, rank), 1, |nodes| - i, 1
  {
    if i == |nodes| {
      assert nodes[..i] == nodes;
    } else if nodes[i].typeId == "GROUP" {
      ScanGroupCleans(trees, rank, kinds, search, replace, ref, nodes, i, found);
    } else {
      assert GroupsClean(trees, rank, search, ref, nodes[..i + 1]) by {
        assert forall n | n in nodes[..i + 1] :: n in nodes[..i] || n == nodes[i];
      }
      var next := if nodes[i].typeId == search.typeId then found + [nodes[i]] else found;
      ScanCleans(trees, rank, kinds, search, replace, ref, nodes, i + 1, next);
    }
  }

  lemma {:induction false} ScanGroupCleans(trees: map<TreeRef, Tree>, rank: map<string, nat>,
                                           kinds: map<string, NodeKind>, search: NodeDescriptor,
                                           replace: NodeDescriptor, ref: TreeRef, nodes: seq<Node>, i: nat,
                                           found: seq<Node>)
    requires Ranked(trees, rank) && i < |nodes| && nodes[i].typeId == "GROUP"
    requires forall n | n in nodes :: GroupBelow(n, ref, rank, trees.Keys)
    requires Distinct(kinds, search, replace)
    requires GroupsClean(trees, rank, search, ref, nodes[..i])
    ensures var r := ScanGroup(trees, rank, kinds, search, replace, true, ref, nodes, i, found);
      r.outcome.Pass? ==> GroupsClean(r.trees, rank, search, ref, nodes)
    decreases Tier(ref), Height(ref, rank), 1, |nodes| - i, 0
  {
    var n := nodes[i];
    assert n in nodes;
    if n.tree.Some? {
      assert GroupBelow(n, ref, rank, trees.Keys);
      var g := Group(n.tree.value);
      var sub := Process(trees, rank, kinds, search, replace, true, g);
      if sub.1.Pass? {
        ProcessCleans(trees, rank, kinds, search, replace, true, g);
        GroupsCleanExtend(trees, sub.0, rank, kinds, search, replace, ref, nodes, i);
        ScanCleans(sub.0, rank, kinds, search, replace, ref, nodes, i + 1, found);
        assert ScanGroup(trees, rank, kinds, search, replace, true, ref, nodes, i, found)
            == Scan(sub.0, rank, kinds, search, replace, true, ref, nodes, i + 1, found);
      }
    }
  }

  /** The nodes left after the second loop: none of them is one to replace. */
  lemma ReplaceAllLeavesNoMatch(t: Tree, kinds: map<string, NodeKind>, found: seq<Node>, search: NodeDescriptor,
                                replace: NodeDescriptor, recurse: bool)
    requires Distinct(kinds, search, replace)
    requires forall n | n in t.nodes && Matches(n, search, recurse) :: n in found
    requires ReplaceAll(t, kinds, found, search, replace).1.Pass?
    ensures forall n | n in ReplaceAll(t, kinds, found, search, replace).0.nodes :: !Matches(n, search, recurse)
  {
  }

  /** The second loop on a tree whose matching nodes were all collected,
      and whose groups are clean, leaves the tree clean. */
  lemma ReplacedTreeClean(trees: map<TreeRef, Tree>, rank: map<string, nat>, kinds: map<string, NodeKind>,
                          search: NodeDescriptor, replace: NodeDescriptor, recurse: bool, ref: TreeRef,
                          found: seq<Node>)
    requires ref in trees && Distinct(kinds, search, replace)
    requires forall j | 0 <= j < |trees[ref].nodes| && Matches(trees[ref].nodes[j], search, recurse) ::
      trees[ref].nodes[j] in found
    requires recurse ==> GroupsClean(trees, rank, search, ref, trees[ref].nodes)
    requires ReplaceAll(trees[ref], kinds, found, search, replace).1.Pass?
    ensures Clean(trees[ref := ReplaceAll(trees[ref], kinds, found, search, replace).0], rank, search, recurse, ref)
  {
    var nodes := trees[ref].nodes;
    var t := ReplaceAll(trees[ref], kinds, found, search, replace);
    var r := trees[ref := t.0];
    assert NodesEvolve(nodes, t.0.nodes, kinds, replace);
    assert Evolves(trees, r, kinds, replace);
    forall n | n in nodes && Matches(n, search, recurse)
      ensures n in found
    {
      var j :| 0 <= j < |nodes| && nodes[j] == n;
    }
    ReplaceAllLeavesNoMatch(trees[ref], kinds, found, search, replace, recurse);
    if recurse {
      GroupsCleanEvolve(trees, r, rank, kinds, search, replace, ref, nodes);
      forall n | n in r[ref].nodes && n.typeId == "GROUP" && n.tree.Some? && Below(n.tree.value, ref, rank)
        ensures Clean(r, rank, search, true, Group(n.tree.value))
      {
        assert n in nodes;
      }
      assert GroupsClean(r, rank, search, ref, r[ref].nodes);
    }
    assert forall n | n in r[ref].nodes :: !Matches(n, search, recurse);
  }

  /** After `ReplaceNodeType` succeeds on `ref` no node to replace is left
      in it, nor, when recursing, in the groups it uses at any depth. */
  lemma {:induction false} ProcessCleans(trees: map<TreeRef, Tree>, rank: map<string, nat>,
                                         kinds: map<string, NodeKind>, search: NodeDescriptor,
                                         replace: NodeDescriptor, recurse: bool, ref: TreeRef)
    requires Ranked(trees, rank) && ref in trees && Distinct(kinds, search, replace)
    ensures var r := Process(trees, rank, kinds, search, replace, recurse, ref);
      r.1.Pass? ==> Clean(r.0, rank, search, recurse, ref)
    decreases Tier(ref), Height(ref, rank), 2, 0, 0
  {
    var nodes := trees[ref].nodes;
    var s := Scan(trees, rank, kinds, search, replace, recurse, ref, nodes, 0, []);
    if s.outcome.Pass? {
      assert NotBelow(ref, ref, rank);
      assert s.trees[ref] == trees[ref];
      if recurse {
        assert nodes[..0] == [];
        ScanCleans(trees, rank, kinds, search, replace, ref, nodes, 0, []);
      }
      var t := ReplaceAll(s.trees[ref], kinds, s.found, search, replace);
      if t.1.Pass? {
        ReplacedTreeClean(s.trees, rank, kinds, search, replace, recurse, ref, s.found);
      }
    }
  }

  /** A replacement that succeeds carries over to the new node every link
      into the selected input of `nd`, and every link out of its selected
      output, from another node; it keeps every link that does not touch
      `nd`. */
  lemma ReplaceOneRewires(t: Tree, kinds: map<string, NodeKind>, nd: Node, search: NodeDescriptor,
                          replace: NodeDescriptor)
    requires nd.name in NodeNames(t.nodes)
    requires ReplaceOne(t, kinds, nd, search, replace).1.Pass?
    ensures replace.typeName in kinds
    ensures Select(InputNames(nd.ins), search.input).Ok? && Select(nd.outs, search.output).Ok?
    ensures var r := ReplaceOne(t, kinds, nd, search, replace).0;
      var k := kinds[replace.typeName];
      var made := NewNodeName(t.nodes, k.baseName);
      var i := Select(InputNames(nd.ins), search.input).value;
      var o := Select(nd.outs, search.output).value;
      && (forall l | l in t.links && l.fromNode != nd.name && l.toNode != nd.name :: l in r.links)
      && (forall l | l in t.links && l.toNode == nd.name && l.toSocket == i && l.fromNode != nd.name ::
            Link(l.fromNode, l.fromSocket, made, Select(InputNames(k.ins), replace.input).value) in r.links)
      && (forall l | l in t.links && l.fromNode == nd.name && l.fromSocket == o && l.toNode != nd.name ::
            Link(made, Select(k.outs, replace.output).value, l.toNode, l.toSocket) in r.links)
  {
    var t1 := AddNode(t, kinds, replace.typeName).value;
    var made := t1.nodes[|t.nodes|];
    assert made.name != nd.name;
    var i := Select(InputNames(nd.ins), search.input).value;
    var t2 := RewireInputs(t1, nd, i, made, replace.input);
    var o := Select(nd.outs, search.output).value;
    var t3 := RewireOutputs(t2.0, nd, o, made, replace.output);
    assert ReplaceOne(t, kinds, nd, search, replace).0
        == t3.0.(nodes := RemoveNamed(t3.0.nodes, nd.name), links := Detach(t3.0.links, nd.name));
  }

  /** A successful replacement adds no link other than those of the new
      node. */
  lemma ReplaceOneAddsOnlyMade(t: Tree, kinds: map<string, NodeKind>, nd: Node, search: NodeDescriptor,
                               replace: NodeDescriptor)
    requires nd.name in NodeNames(t.nodes)
    requires ReplaceOne(t, kinds, nd, search, replace).1.Pass?
    ensures replace.typeName in kinds
    ensures var r := ReplaceOne(t, kinds, nd, search, replace).0;
      var made := NewNodeName(t.nodes, kinds[replace.typeName].baseName);
      forall l | l in r.links ::
        (l in t.links && l.fromNode != nd.name && l.toNode != nd.name) || l.fromNode == made || l.toNode == made
  {
    var t1 := AddNode(t, kinds, replace.typeName).value;
    var made := t1.nodes[|t.nodes|];
    assert made.name != nd.name;
    var i := Select(InputNames(nd.ins), search.input).value;
    var t2 := RewireInputs(t1, nd, i, made, replace.input);
    var o := Select(nd.outs, search.output).value;
    var t3 := RewireOutputs(t2.0, nd, o, made, replace.output);
    assert ReplaceOne(t, kinds, nd, search, replace).0
        == t3.0.(nodes := RemoveNamed(t3.0.nodes, nd.name), links := Detach(t3.0.links, nd.name));
    assert forall l | l in t3.0.links :: l in t.links || l.fromNode == made.name || l.toNode == made.name by {
      forall l | l in t3.0.links
        ensures l in t.links || l.fromNode == made.name || l.toNode == made.name
      {
        var k :| 0 <= k < |t3.0.links| && t3.0.links[k] == l;
        if k >= |t2.0.links| {
        } else if k >= |t.links| {
          assert t2.0.links[k] == l;
        } else {
          assert t.links[k] == l;
        }
      }
    }
  }

  /** In a tree with unique node names that holds `nd`, a replacement keeps
      the node count and the names unique: one node goes, one comes. */
  lemma ReplaceOneKeepsCount(t: Tree, kinds: map<string, NodeKind>, nd: Node, search: NodeDescriptor,
                             replace: NodeDescriptor)
    requires UniqueNames(t.nodes) && nd.name in NodeNames(t.nodes)
    requires ReplaceOne(t, kinds, nd, search, replace).1.Pass?
    ensures var r := ReplaceOne(t, kinds, nd, search, replace).0;
      |r.nodes| == |t.nodes| && UniqueNames(r.nodes)
  {
    var t1 := AddNode(t, kinds, replace.typeName).value;
    AddNodeUnique(t, kinds, replace.typeName);
    var made := t1.nodes[|t.nodes|];
    var i := Select(InputNames(nd.ins), search.input).value;
    var t2 := RewireInputs(t1, nd, i, made, replace.input);
    var o := Select(nd.outs, search.output).value;
    var t3 := RewireOutputs(t2.0, nd, o, made, replace.output);
    assert ReplaceOne(t, kinds, nd, search, replace).0.nodes == RemoveNamed(t1.nodes, nd.name);
    var j :| 0 <= j < |t.nodes| && t.nodes[j].name == nd.name;
    assert t1.nodes[j] == t.nodes[j];
    assert nd.name in NodeNames(t1.nodes);
    RemoveNamedOne(t1.nodes, nd.name);
  }

  /** Removing a name that occurs once from unique names drops one node. */
  lemma {:induction false} RemoveNamedOne(nodes: seq<Node>, name: string)
    requires UniqueNames(nodes) && name in NodeNames(nodes)
    ensures |RemoveNamed(nodes, name)| == |nodes| - 1 && UniqueNames(RemoveNamed(nodes, name))
  {
    UniqueTail(nodes);
    if nodes[0].name == name {
      RemoveNamedAbsent(nodes[1..], name);
    } else {
      var i :| 0 <= i < |nodes| && nodes[i].name == name;
      assert nodes[1..][i - 1].name == name;
      RemoveNamedOne(nodes[1..], name);
      UniqueCons(nodes[0], RemoveNamed(nodes[1..], name));
    }
  }

  lemma UniqueTail(nodes: seq<Node>)
    requires UniqueNames(nodes) && |nodes| > 0
    ensures UniqueNames(nodes[1..]) && forall n | n in nodes[1..] :: n.name != nodes[0].name
  {
    var tail := nodes[1..];
    forall i, j | 0 <= i < j < |tail| ensures tail[i].name != tail[j].name {
      assert tail[i] == nodes[i + 1] && tail[j] == nodes[j + 1];
    }
    forall n | n in tail ensures n.name != nodes[0].name {
      var j :| 0 <= j < |tail| && tail[j] == n;
      assert nodes[j + 1] == n;
    }
  }

  lemma UniqueCons(x: Node, rest: seq<Node>)
    requires UniqueNames(rest) && forall n | n in rest :: n.name != x.name
    ensures UniqueNames([x] + rest)
  {
    var s := [x] + rest;
    forall i, j | 0 <= i < j < |s| ensures s[i].name != s[j].name {
      assert s[j] == rest[j - 1];
      if i == 0 {
        assert rest[j - 1] in rest;
      } else {
        assert s[i] == rest[i - 1];
      }
    }
  }

  lemma {:induction false} RemoveNamedAbsent(nodes: seq<Node>, name: string)
    requires UniqueNames(nodes) && forall n | n in nodes :: n.name != name
    ensures RemoveNamed(nodes, name) == nodes
  {
    if |nodes| > 0 {
      assert nodes[0] in nodes;
      RemoveNamedAbsent(nodes[1..], name);
    }
  }

  /** The first inner loop of `ReplaceNodeType`: a link into the selected
      input of `made` from the source of each link into input `i` of `nd`. */
  method CarryInputs(t: Tree, nd: Node, i: nat, made: Node, key: SocketKey) returns (r: Tree, o: Outcome)
    ensures (r, o) == RewireInputs(t, nd, i, made, key)
  {
    var ins := LinksInto(t.links, nd.name, i);
    if |ins| == 0 {
      return t, Pass;
    }
    // The socket lookup is the same on every pass; it can only raise on the first.
    var j := Select(InputNames(made.ins), key);
    if j.Err? {
      return t, Fail(j.msg);
    }
    var links := AppendFeeding(t.links, ins, made.name, j.value);
    r, o := t.(links := links), Pass;
  }

  /** The loop of `CarryInputs`: one new link per link in `ls`. */
  method AppendFeeding(links: seq<Link>, ls: seq<Link>, node: string, socket: nat) returns (r: seq<Link>)
    ensures r == links + Feeding(ls, node, socket)
  {
    r := links;
    for k := 0 to |ls|
      invariant r == links + Feeding(ls[..k], node, socket)
    {
      assert ls[..k + 1][..k] == ls[..k];
      r := r + [Link(ls[k].fromNode, ls[k].fromSocket, node, socket)];
    }
    assert ls[..|ls|] == ls;
  }

  /** The second inner loop: a link from the selected output of `made` to
      the target of each link out of output `o` of `nd`. */
  method CarryOutputs(t: Tree, nd: Node, o: nat, made: Node, key: SocketKey) returns (r: Tree, out: Outcome)
    ensures (r, out) == RewireOutputs(t, nd, o, made, key)
  {
    var outs := LinksOutOf(t.links, nd.name, o);
    if |outs| == 0 {
      return t, Pass;
    }
    var j := Select(made.outs, key);
    if j.Err? {
      return t, Fail(j.msg);
    }
    var links := AppendDraining(t.links, outs, made.name, j.value);
    r, out := t.(links := links), Pass;
  }

  /** The loop of `CarryOutputs`: one new link per link in `ls`. */
  method AppendDraining(links: seq<Link>, ls: seq<Link>, node: string, socket: nat) returns (r: seq<Link>)
    ensures r == links + Draining(ls, node, socket)
  {
    r := links;
    for k := 0 to |ls|
      invariant r == links + Draining(ls[..k], node, socket)
    {
      assert ls[..k + 1][..k] == ls[..k];
      r := r + [Link(node, socket, ls[k].toNode, ls[k].toSocket)];
    }
    assert ls[..|ls|] == ls;
  }

  /** The body of the second loop of `ReplaceNodeType` for the node `nd`. */
  method ReplaceInTree(t: Tree, kinds: map<string, NodeKind>, nd: Node, search: NodeDescriptor,
                       replace: NodeDescriptor) returns (r: Tree, o: Outcome)
    ensures (r, o) == ReplaceOne(t, kinds, nd, search, replace)
  {
    var added := AddNode(t, kinds, replace.typeName);
    if added.Err? {
      return t, Fail(added.msg);
    }
    r := added.value;
    var made := r.nodes[|t.nodes|];
    var i := Select(InputNames(nd.ins), search.input);
    if i.Err? {
      return r, Fail(i.msg);
    }
    r, o := CarryInputs(r, nd, i.value, made, replace.input);
    if o.Fail? {
      return;
    }
    var out := Select(nd.outs, search.output);
    if out.Err? {
      return r, Fail(out.msg);
    }
    r, o := CarryOutputs(r, nd, out.value, made, replace.output);
    if o.Fail? {
      return;
    }
    r := r.(nodes := RemoveNamed(r.nodes, nd.name), links := Detach(r.links, nd.name));
  }

  /** `ReplaceNodeType` on the tree `ref` of the blend data. `rank` is the
      order of the node groups that makes the recursion end. */
  method ReplaceNodeType(data: CBlendData, ref: TreeRef, kinds: map<string, NodeKind>, search: NodeDescriptor,
                         replace: NodeDescriptor, recurse: bool, ghost rank: map<string, nat>) returns (o: Outcome)
    requires Ranked(data.trees, rank) && ref in data.trees
    modifies data
    ensures (data.trees, o) == Process(old(data.trees), rank, kinds, search, replace, recurse, ref)
    ensures data.materials == old(data.materials)
    decreases Tier(ref), Height(ref, rank), 2, 0, 0
  {
    var found;
    found, o := CollectNodes(data, ref, kinds, search, replace, recurse, rank);
    if o.Fail? {
      return;
    }
    o := ReplaceFound(data, ref, kinds, found, search, replace);
  }

  /** The first loop of `ReplaceNodeType`: recurse into group nodes and
      collect the nodes to replace. */
  method CollectNodes(data: CBlendData, ref: TreeRef, kinds: map<string, NodeKind>, search: NodeDescriptor,
                      replace: NodeDescriptor, recurse: bool, ghost rank: map<string, nat>)
    returns (found: seq<Node>, o: Outcome)
    requires Ranked(data.trees, rank) && ref in data.trees
    modifies data
    ensures Scanned(data.trees, found, o)
         == Scan(old(data.trees), rank, kinds, search, replace, recurse, ref, old(data.trees[ref].nodes), 0, [])
    ensures data.materials == old(data.materials)
    decreases Tier(ref), Height(ref, rank), 1, 1, 0
  {
    ghost var trees0 := data.trees;
    var nodes := data.trees[ref].nodes;
    assert forall n | n in nodes :: GroupBelow(n, ref, rank, trees0.Keys);
    found, o := [], Pass;
    for i := 0 to |nodes|
      invariant Ranked(data.trees, rank) && data.trees.Keys == trees0.Keys && o == Pass
      invariant Scan(data.trees, rank, kinds, search, replace, recurse, ref, nodes, i, found)
             == Scan(trees0, rank, kinds, search, replace, recurse, ref, nodes, 0, [])
      invariant data.materials == old(data.materials)
    {
      var n := nodes[i];
      assert n in nodes;
      if n.typeId == "GROUP" && recurse {
        if n.tree.None? {
          return found, Fail("'NoneType' object has no attribute 'nodes'");
        }
        o := VisitGroup(data, ref, kinds, search, replace, recurse, nodes, i, found, rank);
        if o.Fail? {
          return;
        }
      } else if n.typeId == search.typeId {
        found := found + [n];
      }
    }
  }

  /** The first loop of `ReplaceNodeType` at a group node that uses a node group. */
  method VisitGroup(data: CBlendData, ref: TreeRef, kinds: map<string, NodeKind>, search: NodeDescriptor,
                    replace: NodeDescriptor, recurse: bool, nodes: seq<Node>, i: nat, found: seq<Node>,
                    ghost rank: map<string, nat>) returns (o: Outcome)
    requires Ranked(data.trees, rank) && i < |nodes| && recurse
    requires nodes[i].typeId == "GROUP" && nodes[i].tree.Some?
    requires forall n | n in nodes :: GroupBelow(n, ref, rank, data.trees.Keys)
    modifies data
    ensures Ranked(data.trees, rank) && data.trees.Keys == old(data.trees).Keys
    ensures ScanGroup(old(data.trees), rank, kinds, search, replace, recurse, ref, nodes, i, found)
         == if o.Fail? then Scanned(data.trees, found, o)
            else Scan(data.trees, rank, kinds, search, replace, recurse, ref, nodes, i + 1, found)
    ensures data.materials == old(data.materials)
    decreases Tier(ref), Height(ref, rank), 0, 0, 0
  {
    var n := nodes[i];
    assert n in nodes;
    assert GroupBelow(n, ref, rank, data.trees.Keys);
    o := ReplaceNodeType(data, Group(n.tree.value), kinds, search, replace, true, rank);
  }

  /** The second loop of `ReplaceNodeType`: replace each collected node. */
  method ReplaceFound(data: CBlendData, ref: TreeRef, kinds: map<string, NodeKind>, found: seq<Node>,
                      search: NodeDescriptor, replace: NodeDescriptor) returns (o: Outcome)
    requires ref in data.trees
    modifies data
    ensures data.trees == old(data.trees)[ref := ReplaceAll(old(data.trees[ref]), kinds, found, search, replace).0]
    ensures o == ReplaceAll(old(data.trees[ref]), kinds, found, search, replace).1
    ensures data.materials == old(data.materials)
  {
    ghost var t0 := data.trees[ref];
    var t := data.trees[ref];
    o := Pass;
    for k := 0 to |found|
      invariant ReplaceAll(t, kinds, found[k..], search, replace) == ReplaceAll(t0, kinds, found, search, replace)
      invariant o == Pass
      invariant unchanged(data)
    {
      assert found[k..][0] == found[k] && found[k..][1..] == found[k + 1..];
      t, o := ReplaceInTree(t, kinds, found[k], search, replace);
      if o.Fail? {
        data.trees := data.trees[ref := t];
        return;
      }
    }
    assert found[|found|..] == [];
    data.trees := data.trees[ref := t];
  }
}
