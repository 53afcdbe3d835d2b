/** Node helpers of util/node.py: looking a node up by name or label, and
    folding the numbered copies of node groups ("Mix.001") that materials
    use back onto the base groups ("Mix"). */
module NodeUtil {
  import opened Wrappers
  import opened Strings
  import opened NodeTree

  // ---------------------------------------------------------------------
  // Lookups

  /** Node `i` is the first node named `name`. */
  predicate FirstNamed(nodes: seq<Node>, i: int, name: string) {
    0 <= i < |nodes| && nodes[i].name == name && forall j | 0 <= j < i :: nodes[j].name != name
  }

  /** Node `i` is the first node labelled `label`. */
  predicate FirstLabelled(nodes: seq<Node>, i: int, text: string) {
    0 <= i < |nodes| && nodes[i].labelText == text && forall j | 0 <= j < i :: nodes[j].labelText != text
  }

  /** `next((x for x in nodes if x.label == text), None)`, as an index. */
  function FindLabel(nodes: seq<Node>, text: string): (r: Option<nat>)
    ensures r.Some? ==> FirstLabelled(nodes, r.value, text)
    ensures r.None? ==> forall j | 0 <= j < |nodes| :: nodes[j].labelText != text
  {
    if |nodes| == 0 then None
    else if nodes[0].labelText == text then Some(0)
    else
      var r := FindLabel(nodes[1..], text);
      assert forall j | 1 <= j < |nodes| :: nodes[j] == nodes[1..][j - 1];
      if r.None? then None else Some(r.value + 1)
  }

  /** `GetByIdOrLabel`: the first node of that name; failing that, the
      first node of that label; otherwise None. */
  function GetByIdOrLabel(nodes: seq<Node>, name: string): (r: Option<Node>)
    ensures r.Some? <==> exists j | 0 <= j < |nodes| :: nodes[j].name == name || nodes[j].labelText == name
    ensures forall i | FirstNamed(nodes, i, name) :: r == Some(nodes[i])
    ensures (forall j | 0 <= j < |nodes| :: nodes[j].name != name) ==>
              forall i | FirstLabelled(nodes, i, name) :: r == Some(nodes[i])
  {
    match FindNode(nodes, name)
    case Some(i) => Some(nodes[i])
    case None =>
      assert forall j | 0 <= j < |nodes| :: nodes[j].name != name by {
        forall j | 0 <= j < |nodes| ensures nodes[j].name != name {
          assert nodes[j].name in NodeNames(nodes);
        }
      }
      match FindLabel(nodes, name)
      case Some(i) => Some(nodes[i])
      case None => None
  }

  /** `GetByLabelOrId`: the first node of that label; failing that, the
      first node of that name; otherwise None. */
  function GetByLabelOrId(nodes: seq<Node>, name: string): (r: Option<Node>)
    ensures r.Some? <==> exists j | 0 <= j < |nodes| :: nodes[j].name == name || nodes[j].labelText == name
    ensures forall i | FirstLabelled(nodes, i, name) :: r == Some(nodes[i])
    ensures (forall j | 0 <= j < |nodes| :: nodes[j].labelText != name) ==>
              forall i | FirstNamed(nodes, i, name) :: r == Some(nodes[i])
  {
    match FindLabel(nodes, name)
    case Some(i) => Some(nodes[i])
    case None =>
      match FindNode(nodes, name)
      case Some(i) => Some(nodes[i])
      case None =>
        assert forall j | 0 <= j < |nodes| :: nodes[j].name != name by {
          forall j | 0 <= j < |nodes| ensures nodes[j].name != name {
            assert nodes[j].name in NodeNames(nodes);
          }
        }
        None
  }

  /** The two lookups differ only in priority: when no node carries the
      string as a label, or none carries it as a name, they find the same
      node. */
  lemma LookupsAgree(nodes: seq<Node>, name: string)
    requires (forall j | 0 <= j < |nodes| :: nodes[j].labelText != name) ||
             (forall j | 0 <= j < |nodes| :: nodes[j].name != name)
    ensures GetByIdOrLabel(nodes, name) == GetByLabelOrId(nodes, name)
  {
    var byName := FindNode(nodes, name);
    var byLabel := FindLabel(nodes, name);
    if byName.Some? {
      assert FirstNamed(nodes, byName.value, name);
    } else {
      assert forall j | 0 <= j < |nodes| :: nodes[j].name != name by {
        forall j | 0 <= j < |nodes| ensures nodes[j].name != name {
          assert nodes[j].name in NodeNames(nodes);
        }
      }
      if byLabel.Some? {
        assert FirstLabelled(nodes, byLabel.value, name);
      }
    }
  }

  // ---------------------------------------------------------------------
  // Redirecting copies of node groups

  /** The inner loop of `MakeMaterialNodeGroupsUnique` for one group node
      that uses group `g`: each base name in turn, the node is redirected
      to the base group when its current group name starts with the base
      name and differs from it; the name it leaves is collected for
      removal. The current name is read afresh on every pass, so a node
      redirected to one base name can be redirected again to a later base
      name that is a prefix of the first. */
  function Redirect(g: string, names: seq<string>): (r: (string, set<string>))
    ensures r.0 <= g
    decreases |names|
  {
    if |names| == 0 then (g, {})
    else
      var p := Redirect(g, names[..|names| - 1]);
      var s := names[|names| - 1];
      if StartsWith(p.0, s) && p.0 != s then (s, p.1 + {p.0}) else p
  }

  /** Every redirection step moves to a shorter prefix, so the group a node
      ends up with is a prefix of the group it had. It keeps its group
      exactly when nothing is collected for removal, and everything
      collected is a prefix of the old group name longer than the new one. */
  lemma {:induction false} RedirectShortens(g: string, names: seq<string>)
    ensures var r := Redirect(g, names);
      && r.0 <= g
      && (r.0 == g <==> r.1 == {})
      && (forall x | x in r.1 :: x <= g && |r.0| < |x| && (x == g || x in names))
      && (r.0 != g ==> r.0 in names)
    decreases |names|
  {
    if |names| > 0 {
      var init := names[..|names| - 1];
      RedirectShortens(g, init);
      var p := Redirect(g, init);
      var s := names[|names| - 1];
      if StartsWith(p.0, s) && p.0 != s {
        assert s <= p.0 && |s| < |p.0|;
        assert forall x | x in init :: x in names;
        PrefixTransitive(s, p.0, g);
      } else {
        assert forall x | x in init :: x in names;
      }
    }
  }

  lemma PrefixTransitive(a: string, b: string, c: string)
    requires a <= b && b <= c
    ensures a <= c
  {
    assert c[..|b|][..|a|] == c[..|a|];
  }

  /** No base name is a proper prefix of another. */
  predicate Unnested(names: seq<string>) {
    forall i, j | 0 <= i < |names| && 0 <= j < |names| :: !(StartsWith(names[i], names[j]) && names[i] != names[j])
  }

  /** The first base name that group name `g` starts with and differs from. */
  function BaseOf(g: string, names: seq<string>): (r: Option<string>)
    ensures r.Some? ==> r.value in names && StartsWith(g, r.value) && g != r.value
    ensures r.None? <==> forall s | s in names :: !(StartsWith(g, s) && g != s)
  {
    if |names| == 0 then None
    else if StartsWith(g, names[0]) && g != names[0] then Some(names[0])
    else
      assert forall s | s in names :: s == names[0] || s in names[1..];
      BaseOf(g, names[1..])
  }

  /** Two base names that are both proper prefixes of `g` are equal when
      the names are unnested. */
  lemma OneBase(g: string, names: seq<string>, a: string, b: string)
    requires Unnested(names) && a in names && b in names
    requires StartsWith(g, a) && g != a && StartsWith(g, b) && g != b
    ensures a == b
  {
    var i :| 0 <= i < |names| && names[i] == a;
    var j :| 0 <= j < |names| && names[j] == b;
    PrefixesComparable(g, a, b);
    assert !(StartsWith(names[i], names[j]) && names[i] != names[j]);
    assert !(StartsWith(names[j], names[i]) && names[j] != names[i]);
  }

  /** Two prefixes of one string are prefixes of each other. */
  lemma PrefixesComparable(g: string, a: string, b: string)
    requires StartsWith(g, a) && StartsWith(g, b)
    ensures StartsWith(a, b) || StartsWith(b, a)
  {
    if |a| <= |b| {
      assert b[..|a|] == g[..|b|][..|a|];
    } else {
      assert a[..|b|] == g[..|a|][..|b|];
    }
  }

  lemma UnnestedInit(names: seq<string>)
    requires Unnested(names) && |names| > 0
    ensures Unnested(names[..|names| - 1])
  {
    var init := names[..|names| - 1];
    forall i, j | 0 <= i < |init| && 0 <= j < |init|
      ensures !(StartsWith(init[i], init[j]) && init[i] != init[j])
    {
      assert init[i] == names[i] && init[j] == names[j];
    }
  }

  /** With unnested base names a copy moves straight to its base group and
      only the copy's name is collected; a group that is no copy stays. */
  lemma {:induction false} RedirectUnnested(g: string, names: seq<string>)
    requires Unnested(names)
    ensures Redirect(g, names) == match BaseOf(g, names)
                                  case None => (g, {})
                                  case Some(s) => (s, {g})
    decreases |names|
  {
    if |names| > 0 {
      var init := names[..|names| - 1];
      UnnestedInit(names);
      RedirectUnnested(g, init);
      var s := names[|names| - 1];
      assert s == names[|names| - 1];
      assert forall x | x in init :: x in names;
      var b := BaseOf(g, init);
      if b.Some? {
        var m :| 0 <= m < |names| && names[m] == b.value;
        assert !(StartsWith(names[m], names[|names| - 1]) && names[m] != names[|names| - 1]);
        assert BaseOf(g, names).Some?;
        OneBase(g, names, b.value, BaseOf(g, names).value);
      } else if StartsWith(g, s) && g != s {
        assert Redirect(g, init) == (g, {});
        assert {} + {g} == {g};
        assert s in names;
        assert BaseOf(g, names).Some?;
        OneBase(g, names, s, BaseOf(g, names).value);
      } else {
        assert forall x | x in names :: x in init || x == s;
      }
    }
  }

  // ---------------------------------------------------------------------
  // The node loop and the material loop

  /** One node of the material loop: a group node is redirected by
      `Redirect`; with at least one base name, a group node without a group
      raises where its group's name is read. */
  function RedirectNode(n: Node, names: seq<string>): (r: Result<(Node, set<string>)>)
    ensures r.Err? <==> n.typeId == "GROUP" && |names| > 0 && n.tree.None?
    ensures r.Ok? ==> r.value.0 == n.(tree := r.value.0.tree)
  {
    if n.typeId != "GROUP" || |names| == 0 then Ok((n, {}))
    else if n.tree.None? then Err("'NoneType' object has no attribute 'name'")
    else
      var r := Redirect(n.tree.value, names);
      Ok((n.(tree := Some(r.0)), r.1))
  }

  /** The group names one node leaves. */
  function RemovedBy(n: Node, names: seq<string>): set<string> {
    match RedirectNode(n, names)
    case Ok(v) => v.1
    case Err(_) => {}
  }

  datatype NodesRedirected = NodesRedirected(nodes: seq<Node>, removed: set<string>, outcome: Outcome)

  /** The node loop over one material's tree: the nodes in place, up to the
      first node that raises; the nodes from there on keep their groups. */
  function RedirectNodes(nodes: seq<Node>, names: seq<string>): (r: NodesRedirected)
    ensures |r.nodes| == |nodes|
  {
    if |nodes| == 0 then NodesRedirected([], {}, Pass)
    else
      match RedirectNode(nodes[0], names)
      case Err(msg) => NodesRedirected(nodes, {}, Fail(msg))
      case Ok(v) =>
        var rest := RedirectNodes(nodes[1..], names);
        NodesRedirected([v.0] + rest.nodes, v.1 + rest.removed, rest.outcome)
  }

  /** The node loop works node by node: it passes exactly when no node
      raises, and then each node is redirected on its own. */
  lemma {:induction false} RedirectNodesPointwise(nodes: seq<Node>, names: seq<string>)
    ensures var r := RedirectNodes(nodes, names);
      && (r.outcome.Pass? <==> forall j | 0 <= j < |nodes| :: RedirectNode(nodes[j], names).Ok?)
      && (r.outcome.Pass? ==> forall j | 0 <= j < |nodes| :: r.nodes[j] == RedirectNode(nodes[j], names).value.0)
  {
    if |nodes| > 0 {
      RedirectNodesPointwise(nodes[1..], names);
      assert forall j | 1 <= j < |nodes| :: nodes[j] == nodes[1..][j - 1];
    }
  }

  /** The names the node loop collects are those its nodes leave, all of
      them when it passes. */
  lemma {:induction false} RedirectNodesRemoved(nodes: seq<Node>, names: seq<string>)
    ensures var r := RedirectNodes(nodes, names);
      && (forall x | x in r.removed :: exists j | 0 <= j < |nodes| :: x in RemovedBy(nodes[j], names))
      && (r.outcome.Pass? ==> forall j, x | 0 <= j < |nodes| && x in RemovedBy(nodes[j], names) :: x in r.removed)
  {
    if |nodes| > 0 {
      var tail := nodes[1..];
      RedirectNodesRemoved(tail, names);
      if RedirectNode(nodes[0], names).Ok? {
        var r := RedirectNodes(nodes, names);
        forall x | x in r.removed
          ensures exists j | 0 <= j < |nodes| :: x in RemovedBy(nodes[j], names)
        {
          if x !in RemovedBy(nodes[0], names) {
            var j :| 0 <= j < |tail| && x in RemovedBy(tail[j], names);
            assert tail[j] == nodes[j + 1];
          }
        }
        if r.outcome.Pass? {
          forall j, x | 0 <= j < |nodes| && x in RemovedBy(nodes[j], names) ensures x in r.removed {
            if j > 0 {
              assert nodes[j] == tail[j - 1];
            }
          }
        }
      }
    }
  }

  datatype Redirected = Redirected(trees: map<TreeRef, Tree>, removed: set<string>, outcome: Outcome)

  /** The material loop: for each material in data order that has a node
      tree, the node loop on that tree, written back in place; it stops at
      the first node that raises. */
  function RedirectMaterials(trees: map<TreeRef, Tree>, mats: seq<string>, names: seq<string>): (r: Redirected)
    ensures r.trees.Keys == trees.Keys
    ensures forall k | k in trees && !(k.Material? && k.name in mats) :: r.trees[k] == trees[k]
    ensures forall k | k in trees :: r.trees[k].(nodes := trees[k].nodes) == trees[k]
    decreases |mats|
  {
    if |mats| == 0 then Redirected(trees, {}, Pass)
    else
      var m := Material(mats[0]);
      assert forall x | x in mats[1..] :: x in mats;
      if m !in trees then RedirectMaterials(trees, mats[1..], names)
      else
        var q := RedirectNodes(trees[m].nodes, names);
        var t1 := trees[m := trees[m].(nodes := q.nodes)];
        if q.outcome.Fail? then Redirected(t1, q.removed, q.outcome)
        else
          var rest := RedirectMaterials(t1, mats[1..], names);
          Redirected(rest.trees, q.removed + rest.removed, rest.outcome)
  }

  /** Material names are unique. */
  predicate Distinct(mats: seq<string>) {
    forall i, j | 0 <= i < j < |mats| :: mats[i] != mats[j]
  }

  /** The tail of distinct names is distinct and misses the head. */
  lemma DistinctTail(mats: seq<string>)
    requires Distinct(mats) && |mats| > 0
    ensures Distinct(mats[1..]) && mats[0] !in mats[1..]
    ensures forall x | x in mats :: x == mats[0] || x in mats[1..]
  {
    var tail := mats[1..];
    forall i, j | 0 <= i < j < |tail| ensures tail[i] != tail[j] {
      assert tail[i] == mats[i + 1] && tail[j] == mats[j + 1];
    }
    forall i | 0 <= i < |tail| ensures tail[i] != mats[0] {
      assert tail[i] == mats[i + 1];
    }
  }

  /** With distinct material names every material tree is visited once,
      from its original state. */
  lemma {:induction false} RedirectMaterialsOnce(trees: map<TreeRef, Tree>, mats: seq<string>, names: seq<string>)
    requires Distinct(mats)
    requires RedirectMaterials(trees, mats, names).outcome.Pass?
    ensures forall k | k in trees && k.Material? && k.name in mats ::
              RedirectNodes(trees[k].nodes, names).outcome.Pass? &&
              RedirectMaterials(trees, mats, names).trees[k] == trees[k].(nodes := RedirectNodes(trees[k].nodes, names).nodes)
    decreases |mats|
  {
    if |mats| > 0 {
      var m := Material(mats[0]);
      DistinctTail(mats);
      if m !in trees {
        RedirectMaterialsOnce(trees, mats[1..], names);
      } else {
        var q := RedirectNodes(trees[m].nodes, names);
        var t1 := trees[m := trees[m].(nodes := q.nodes)];
        RedirectMaterialsOnce(t1, mats[1..], names);
        assert RedirectMaterials(trees, mats, names).trees == RedirectMaterials(t1, mats[1..], names).trees;
      }
    }
  }

  /** Every name the material loop collects is one that the node loop of
      some material's tree collects. */
  lemma {:induction false} RedirectMaterialsRemovedFrom(trees: map<TreeRef, Tree>, mats: seq<string>,
                                                         names: seq<string>, x: string)
    requires Distinct(mats)
    requires x in RedirectMaterials(trees, mats, names).removed
    ensures exists k | k in trees && k.Material? && k.name in mats :: x in RedirectNodes(trees[k].nodes, names).removed
    decreases |mats|
  {
    var m := Material(mats[0]);
    DistinctTail(mats);
    if m !in trees {
      RedirectMaterialsRemovedFrom(trees, mats[1..], names, x);
    } else {
      var q := RedirectNodes(trees[m].nodes, names);
      var t1 := trees[m := trees[m].(nodes := q.nodes)];
      if x !in q.removed {
        RedirectMaterialsRemovedFrom(t1, mats[1..], names, x);
        var k :| k in t1 && k.Material? && k.name in mats[1..] && x in RedirectNodes(t1[k].nodes, names).removed;
        assert k != m && t1[k] == trees[k];
      }
    }
  }

  /** On success, every name the node loop of a material's tree collects
      is collected by the material loop. */
  lemma {:induction false} RedirectMaterialsRemovedAll(trees: map<TreeRef, Tree>, mats: seq<string>,
                                                        names: seq<string>, k: TreeRef)
    requires Distinct(mats)
    requires RedirectMaterials(trees, mats, names).outcome.Pass?
    requires k in trees && k.Material? && k.name in mats
    ensures RedirectNodes(trees[k].nodes, names).removed <= RedirectMaterials(trees, mats, names).removed
    decreases |mats|
  {
    var m := Material(mats[0]);
    DistinctTail(mats);
    if m !in trees {
      RedirectMaterialsRemovedAll(trees, mats[1..], names, k);
    } else if k != m {
      var q := RedirectNodes(trees[m].nodes, names);
      var t1 := trees[m := trees[m].(nodes := q.nodes)];
      RedirectMaterialsRemovedAll(t1, mats[1..], names, k);
    }
  }

  // ---------------------------------------------------------------------
  // MakeMaterialNodeGroupsUnique

  /** The check loop: the first base name without a node group. */
  function FirstMissing(trees: map<TreeRef, Tree>, names: seq<string>): (r: Option<string>)
    ensures r.None? <==> forall s | s in names :: Group(s) in trees
    ensures r.Some? ==> r.value in names && Group(r.value) !in trees
  {
    if |names| == 0 then None
    else if Group(names[0]) !in trees then Some(names[0])
    else
      assert forall s | s in names :: s == names[0] || s in names[1..];
      FirstMissing(trees, names[1..])
  }

  /** The removal loop: the node groups of the collected names go. */
  function RemoveGroups(trees: map<TreeRef, Tree>, removed: set<string>): (r: map<TreeRef, Tree>)
    ensures forall k :: k in r <==> k in trees && !(k.Group? && k.name in removed)
    ensures forall k | k in r :: r[k] == trees[k]
  {
    map k | k in trees && !(k.Group? && k.name in removed) :: trees[k]
  }

  /** `MakeMaterialNodeGroupsUnique` on the node trees: check every base
      name, redirect the group nodes of every material tree, then remove
      the collected node groups. A missing base name raises before anything
      changes; a group node without a group raises with the nodes visited
      so far already redirected and nothing removed. */
  function MakeUnique(trees: map<TreeRef, Tree>, mats: seq<string>, names: seq<string>): (r: (map<TreeRef, Tree>, Outcome))
    ensures (exists s | s in names :: Group(s) !in trees) ==> r.0 == trees && r.1.Fail?
    ensures forall k | k in r.0 :: k in trees
    ensures forall k | k in trees && !k.Group? :: k in r.0
  {
    match FirstMissing(trees, names)
    case Some(s) => (trees, Fail("Node group '" + s + "' does not exist"))
    case None =>
      var red := RedirectMaterials(trees, mats, names);
      if red.outcome.Fail? then (red.trees, red.outcome)
      else (RemoveGroups(red.trees, red.removed), Pass)
  }

  /** A group node after redirection by unnested base names: a copy uses
      its base group, every other node is unchanged. */
  function Rebased(n: Node, names: seq<string>): Node {
    if n.typeId == "GROUP" && n.tree.Some? then
      match BaseOf(n.tree.value, names)
      case None => n
      case Some(s) => n.(tree := Some(s))
    else n
  }

  /** Some group node of `nodes` uses group `x`. */
  ghost predicate UsesGroup(nodes: seq<Node>, x: string) {
    exists j | 0 <= j < |nodes| :: nodes[j].typeId == "GROUP" && nodes[j].tree == Some(x)
  }

  /** Some group node of a material tree uses group `x`, which is a copy
      of a base group. */
  ghost predicate CopyInUse(trees: map<TreeRef, Tree>, mats: seq<string>, names: seq<string>, x: string) {
    && BaseOf(x, names).Some?
    && exists k | k in trees && k.Material? && k.name in mats :: UsesGroup(trees[k].nodes, x)
  }

  /** With unnested base names one node is rebased, and leaves its own
      group exactly when that group is a copy. */
  lemma NodeRebased(n: Node, names: seq<string>)
    requires Unnested(names) && RedirectNode(n, names).Ok?
    ensures RedirectNode(n, names).value.0 == Rebased(n, names)
    ensures RemovedBy(n, names) == if n.typeId == "GROUP" && n.tree.Some? && BaseOf(n.tree.value, names).Some?
                                   then {n.tree.value} else {}
  {
    if n.typeId == "GROUP" && n.tree.Some? {
      RedirectUnnested(n.tree.value, names);
    }
  }

  /** Main theorem, trees: with unnested base names and distinct material
      names, a successful call rebases every node of every material tree
      and changes nothing else of those trees. */
  lemma MakeUniqueRebases(trees: map<TreeRef, Tree>, mats: seq<string>, names: seq<string>, k: TreeRef)
    requires Unnested(names) && Distinct(mats)
    requires MakeUnique(trees, mats, names).1.Pass?
    requires k in trees && k.Material? && k.name in mats
    ensures var r := MakeUnique(trees, mats, names).0;
      && k in r && r[k].(nodes := trees[k].nodes) == trees[k] && |r[k].nodes| == |trees[k].nodes|
      && forall j | 0 <= j < |trees[k].nodes| :: r[k].nodes[j] == Rebased(trees[k].nodes[j], names)
  {
    var red := RedirectMaterials(trees, mats, names);
    RedirectMaterialsOnce(trees, mats, names);
    var nodes := trees[k].nodes;
    RedirectNodesPointwise(nodes, names);
    forall j | 0 <= j < |nodes| ensures red.trees[k].nodes[j] == Rebased(nodes[j], names) {
      NodeRebased(nodes[j], names);
    }
  }

  /** A passing node loop with unnested base names collects exactly the
      copies its group nodes use. */
  lemma NodesRemovedCopies(nodes: seq<Node>, names: seq<string>, x: string)
    requires Unnested(names) && RedirectNodes(nodes, names).outcome.Pass?
    ensures x in RedirectNodes(nodes, names).removed <==> BaseOf(x, names).Some? && UsesGroup(nodes, x)
  {
    RedirectNodesRemoved(nodes, names);
    RedirectNodesPointwise(nodes, names);
    if x in RedirectNodes(nodes, names).removed {
      var j :| 0 <= j < |nodes| && x in RemovedBy(nodes[j], names);
      NodeRebased(nodes[j], names);
    } else if BaseOf(x, names).Some? && UsesGroup(nodes, x) {
      var j :| 0 <= j < |nodes| && nodes[j].typeId == "GROUP" && nodes[j].tree == Some(x);
      NodeRebased(nodes[j], names);
    }
  }

  /** A passing material loop with unnested base names and distinct
      material names collects exactly the copies in use. */
  lemma MaterialsRemovedCopies(trees: map<TreeRef, Tree>, mats: seq<string>, names: seq<string>, x: string)
    requires Unnested(names) && Distinct(mats)
    requires RedirectMaterials(trees, mats, names).outcome.Pass?
    ensures x in RedirectMaterials(trees, mats, names).removed <==> CopyInUse(trees, mats, names, x)
  {
    RedirectMaterialsOnce(trees, mats, names);
    if x in RedirectMaterials(trees, mats, names).removed {
      RedirectMaterialsRemovedFrom(trees, mats, names, x);
      var k :| k in trees && k.Material? && k.name in mats && x in RedirectNodes(trees[k].nodes, names).removed;
      NodesRemovedCopies(trees[k].nodes, names, x);
    } else if CopyInUse(trees, mats, names, x) {
      var k :| k in trees && k.Material? && k.name in mats && UsesGroup(trees[k].nodes, x);
      NodesRemovedCopies(trees[k].nodes, names, x);
      RedirectMaterialsRemovedAll(trees, mats, names, k);
    }
  }

  /** Main theorem, node groups: a successful call with unnested base
      names and distinct material names removes exactly the copies that
      material trees used, and keeps every other node group as it was. */
  lemma MakeUniqueRemovesCopies(trees: map<TreeRef, Tree>, mats: seq<string>, names: seq<string>, x: string)
    requires Unnested(names) && Distinct(mats)
    requires MakeUnique(trees, mats, names).1.Pass?
    requires Group(x) in trees
    ensures var r := MakeUnique(trees, mats, names).0;
      && (Group(x) in r <==> !CopyInUse(trees, mats, names, x))
      && (Group(x) in r ==> r[Group(x)] == trees[Group(x)])
  {
    MaterialsRemovedCopies(trees, mats, names, x);
  }

  /** With unnested base names no base group is removed: a base name is
      never a copy of another. */
  lemma MakeUniqueKeepsBases(trees: map<TreeRef, Tree>, mats: seq<string>, names: seq<string>, s: string)
    requires Unnested(names) && Distinct(mats)
    requires MakeUnique(trees, mats, names).1.Pass?
    requires s in names
    ensures Group(s) in MakeUnique(trees, mats, names).0
  {
    assert BaseOf(s, names).None? by {
      var i :| 0 <= i < |names| && names[i] == s;
      forall t | t in names ensures !(StartsWith(s, t) && s != t) {
        var j :| 0 <= j < |names| && names[j] == t;
        assert !(StartsWith(names[i], names[j]) && names[i] != names[j]);
      }
    }
    MakeUniqueRemovesCopies(trees, mats, names, s);
  }

  /** With unnested base names, distinct material names and resolved
      group nodes, a successful call leaves every group node of the listed
      material trees on a node group that still exists, so the removal
      never has to unlink a group from them. */
  lemma MakeUniqueKeepsMaterialsResolved(trees: map<TreeRef, Tree>, mats: seq<string>, names: seq<string>, k: TreeRef)
    requires Unnested(names) && Distinct(mats) && Resolved(trees)
    requires MakeUnique(trees, mats, names).1.Pass?
    requires k in trees && k.Material? && k.name in mats
    ensures var r := MakeUnique(trees, mats, names).0;
      k in r && RefsIn(r[k].nodes, r.Keys)
  {
    var r := MakeUnique(trees, mats, names).0;
    MakeUniqueRebases(trees, mats, names, k);
    var nodes := trees[k].nodes;
    forall j | 0 <= j < |r[k].nodes| ensures RefIn(r[k].nodes[j], r.Keys) {
      var n := nodes[j];
      assert RefIn(n, trees.Keys);
      if n.typeId == "GROUP" && n.tree.Some? {
        match BaseOf(n.tree.value, names)
        case Some(b) =>
          MakeUniqueKeepsBases(trees, mats, names, b);
        case None =>
          MakeUniqueRemovesCopies(trees, mats, names, n.tree.value);
      }
    }
  }

  /** A group node that has a group uses one of `keys`. */
  predicate RefIn(n: Node, keys: set<TreeRef>) {
    n.typeId == "GROUP" && n.tree.Some? ==> Group(n.tree.value) in keys
  }

  /** Every group node of `nodes` that has a group uses one of `keys`. */
  predicate RefsIn(nodes: seq<Node>, keys: set<TreeRef>) {
    forall j | 0 <= j < |nodes| :: RefIn(nodes[j], keys)
  }

  /** The host keeps every group node of a material tree on an existing
      node group. */
  predicate Resolved(trees: map<TreeRef, Tree>) {
    forall k | k in trees && k.Material? :: RefsIn(trees[k].nodes, trees.Keys)
  }

  /** When the base groups exist, one node stays resolved and leaves
      only an existing node group. */
  lemma NodeStaysResolved(n: Node, names: seq<string>, keys: set<TreeRef>)
    requires RefIn(n, keys) && forall s | s in names :: Group(s) in keys
    requires RedirectNode(n, names).Ok?
    ensures var v := RedirectNode(n, names).value;
      RefIn(v.0, keys) && forall x | x in v.1 :: Group(x) in keys
  {
    if n.typeId == "GROUP" && |names| > 0 {
      RedirectShortens(n.tree.value, names);
    }
  }

  /** When the base groups exist, the node loop keeps references resolved
      and collects only names of existing node groups. */
  lemma {:induction false} NodesStayResolved(nodes: seq<Node>, names: seq<string>, keys: set<TreeRef>)
    requires RefsIn(nodes, keys) && forall s | s in names :: Group(s) in keys
    ensures var r := RedirectNodes(nodes, names);
      RefsIn(r.nodes, keys) && forall x | x in r.removed :: Group(x) in keys
  {
    if |nodes| > 0 && RedirectNode(nodes[0], names).Ok? {
      var v := RedirectNode(nodes[0], names).value;
      var tail := nodes[1..];
      assert forall j | 0 <= j < |tail| :: tail[j] == nodes[j + 1];
      NodeStaysResolved(nodes[0], names, keys);
      NodesStayResolved(tail, names, keys);
      var rest := RedirectNodes(tail, names);
      var r := RedirectNodes(nodes, names);
      assert r.nodes == [v.0] + rest.nodes;
      assert forall j | 1 <= j < |r.nodes| :: r.nodes[j] == rest.nodes[j - 1];
    }
  }

  /** When the base groups exist, the material loop keeps the trees
      resolved and collects only names of existing node groups. */
  lemma {:induction false} MaterialsStayResolved(trees: map<TreeRef, Tree>, mats: seq<string>, names: seq<string>)
    requires Resolved(trees) && forall s | s in names :: Group(s) in trees
    ensures var r := RedirectMaterials(trees, mats, names);
      Resolved(r.trees) && forall x | x in r.removed :: Group(x) in trees
    decreases |mats|
  {
    if |mats| > 0 {
      var m := Material(mats[0]);
      if m !in trees {
        MaterialsStayResolved(trees, mats[1..], names);
      } else {
        var q := RedirectNodes(trees[m].nodes, names);
        NodesStayResolved(trees[m].nodes, names, trees.Keys);
        var t1 := trees[m := trees[m].(nodes := q.nodes)];
        assert t1.Keys == trees.Keys;
        MaterialsStayResolved(t1, mats[1..], names);
      }
    }
  }

  /** The check loop. */
  method FindMissing(trees: map<TreeRef, Tree>, names: seq<string>) returns (r: Option<string>)
    ensures r == FirstMissing(trees, names)
  {
    var i := 0;
    while i < |names|
      invariant 0 <= i <= |names|
      invariant FirstMissing(trees, names) == FirstMissing(trees, names[i..])
    {
      assert names[i..][1..] == names[i + 1..];
      if Group(names[i]) !in trees {
        return Some(names[i]);
      }
      i := i + 1;
    }
    return None;
  }

  /** The inner loop over the base names for one group node using `g`. */
  method RedirectGroupName(g: string, names: seq<string>) returns (h: string, rm: set<string>)
    ensures (h, rm) == Redirect(g, names)
  {
    h, rm := g, {};
    var i := 0;
    while i < |names|
      invariant 0 <= i <= |names|
      invariant (h, rm) == Redirect(g, names[..i])
    {
      assert names[..i + 1][..i] == names[..i];
      if StartsWith(h, names[i]) && h != names[i] {
        rm := rm + {h};
        h := names[i];
      }
      i := i + 1;
    }
    assert names[..i] == names;
  }

  /** One node of the node loop. */
  method RedirectOneNode(n: Node, names: seq<string>) returns (r: Result<(Node, set<string>)>)
    ensures r == RedirectNode(n, names)
  {
    if n.typeId != "GROUP" || |names| == 0 {
      return Ok((n, {}));
    }
    if n.tree.None? {
      return Err("'NoneType' object has no attribute 'name'");
    }
    var h, rm := RedirectGroupName(n.tree.value, names);
    return Ok((n.(tree := Some(h)), rm));
  }

  /** The node loop's state after `i` nodes: the first `i` nodes are
      redirected, the rest still as they were. */
  ghost predicate NodesLoop(nodes: seq<Node>, names: seq<string>, out: seq<Node>, rm: set<string>, i: int) {
    && 0 <= i <= |nodes| && |out| == |nodes| && out[i..] == nodes[i..]
    && var rest := RedirectNodes(nodes[i..], names);
       RedirectNodes(nodes, names) == NodesRedirected(out[..i] + rest.nodes, rm + rest.removed, rest.outcome)
  }

  /** The node loop from node `i` on, one node at a time. */
  lemma RedirectNodesFrom(nodes: seq<Node>, names: seq<string>, i: int)
    requires 0 <= i < |nodes|
    ensures var r := RedirectNodes(nodes[i..], names);
      match RedirectNode(nodes[i], names)
      case Err(msg) => r == NodesRedirected(nodes[i..], {}, Fail(msg))
      case Ok(v) => var rest := RedirectNodes(nodes[i + 1..], names);
        r == NodesRedirected([v.0] + rest.nodes, v.1 + rest.removed, rest.outcome)
  {
    assert nodes[i..][0] == nodes[i] && nodes[i..][1..] == nodes[i + 1..];
  }

  /** A node that raises ends the node loop with the state so far. */
  lemma NodesLoopFail(nodes: seq<Node>, names: seq<string>, out: seq<Node>, rm: set<string>, i: int)
    requires NodesLoop(nodes, names, out, rm, i) && i < |nodes| && RedirectNode(nodes[i], names).Err?
    ensures RedirectNodes(nodes, names) == NodesRedirected(out, rm, Fail(RedirectNode(nodes[i], names).msg))
  {
    RedirectNodesFrom(nodes, names, i);
    assert out == out[..i] + nodes[i..];
    assert rm + {} == rm;
  }

  /** A node that passes moves the node loop on by one. */
  lemma NodesLoopStep(nodes: seq<Node>, names: seq<string>, out: seq<Node>, rm: set<string>, i: int)
    requires NodesLoop(nodes, names, out, rm, i) && i < |nodes| && RedirectNode(nodes[i], names).Ok?
    ensures var v := RedirectNode(nodes[i], names).value;
      NodesLoop(nodes, names, out[i := v.0], rm + v.1, i + 1)
  {
    RedirectNodesFrom(nodes, names, i);
    var v := RedirectNode(nodes[i], names).value;
    var out' := out[i := v.0];
    var rest := RedirectNodes(nodes[i + 1..], names);
    assert out'[..i + 1] == out[..i] + [v.0];
    assert out'[i + 1..] == out[i + 1..];
    assert rm + (v.1 + rest.removed) == (rm + v.1) + rest.removed;
    assert out[..i] + ([v.0] + rest.nodes) == out'[..i + 1] + rest.nodes;
  }

  /** The node loop over one material's tree, on the tree's nodes. */
  method RedirectTreeNodes(nodes: seq<Node>, names: seq<string>) returns (out: seq<Node>, rm: set<string>, o: Outcome)
    ensures NodesRedirected(out, rm, o) == RedirectNodes(nodes, names)
  {
    out, rm := nodes, {};
    var i := 0;
    assert out[..0] + nodes == nodes && {} + RedirectNodes(nodes, names).removed == RedirectNodes(nodes, names).removed;
    while i < |nodes|
      invariant NodesLoop(nodes, names, out, rm, i)
    {
      assert out[i] == nodes[i..][0];
      var step := RedirectOneNode(out[i], names);
      if step.Err? {
        NodesLoopFail(nodes, names, out, rm, i);
        return out, rm, Fail(step.msg);
      }
      NodesLoopStep(nodes, names, out, rm, i);
      out := out[i := step.value.0];
      rm := rm + step.value.1;
      i := i + 1;
    }
    assert out[..i] == out && rm + {} == rm;
    o := Pass;
  }

  /** The material loop, on the blend data: it returns the names collected
      and the outcome, with the trees written back in place. */
  method RedirectInMaterials(data: CBlendData, names: seq<string>) returns (removed: set<string>, o: Outcome)
    modifies data
    ensures Redirected(data.trees, removed, o) == RedirectMaterials(old(data.trees), old(data.materials), names)
    ensures data.materials == old(data.materials)
  {
    ghost var trees0 := data.trees;
    var mats := data.materials;
    removed := {};
    var i := 0;
    while i < |mats|
      invariant 0 <= i <= |mats| && data.materials == mats
      invariant var rest := RedirectMaterials(data.trees, mats[i..], names);
        RedirectMaterials(trees0, mats, names) == Redirected(rest.trees, removed + rest.removed, rest.outcome)
    {
      assert mats[i..][1..] == mats[i + 1..];
      var m := Material(mats[i]);
      if m in data.trees {
        var tree := data.trees[m];
        var out, rm, oo := RedirectTreeNodes(tree.nodes, names);
        data.trees := data.trees[m := tree.(nodes := out)];
        assert removed + (rm + RedirectMaterials(data.trees, mats[i + 1..], names).removed)
            == (removed + rm) + RedirectMaterials(data.trees, mats[i + 1..], names).removed;
        removed := removed + rm;
        if oo.Fail? {
          return removed, oo;
        }
      }
      i := i + 1;
    }
    assert removed + {} == removed;
    o := Pass;
  }

  /** The removal loop: each collected name's node group is removed. */
  method RemoveCollected(data: CBlendData, removed: set<string>)
    requires forall x | x in removed :: Group(x) in data.trees
    modifies data
    ensures data.trees == RemoveGroups(old(data.trees), removed)
    ensures data.materials == old(data.materials)
  {
    ghost var trees0 := data.trees;
    var left := removed;
    while left != {}
      invariant left <= removed && data.materials == old(data.materials)
      invariant data.trees == RemoveGroups(trees0, removed - left)
      invariant forall x | x in left :: Group(x) in data.trees
      decreases |left|
    {
      var x :| x in left;
      data.trees := data.trees - {Group(x)};
      left := left - {x};
    }
  }

  /** `MakeMaterialNodeGroupsUnique` on the blend data. */
  method MakeMaterialNodeGroupsUnique(data: CBlendData, names: seq<string>) returns (o: Outcome)
    requires Resolved(data.trees)
    modifies data
    ensures (data.trees, o) == MakeUnique(old(data.trees), old(data.materials), names)
    ensures data.materials == old(data.materials)
  {
    var missing := FindMissing(data.trees, names);
    if missing.Some? {
      return Fail("Node group '" + missing.value + "' does not exist");
    }
    MaterialsStayResolved(data.trees, data.materials, names);
    var removed;
    removed, o := RedirectInMaterials(data, names);
    if o.Fail? {
      return;
    }
    RemoveCollected(data, removed);
  }
}
