/** Collections (collection.py): the collection tree with its objects,
    the view layer's tree of layer collections, and the collection registry
    that `CreateCollectionHierarchy` extends. */
module Collection {
  import opened Wrappers
  import opened Strings

  /** An object as a collection lists it: name, type and parent's name. */
  datatype CObj = CObj(name: string, kind: string, parent: Option<string>)

  datatype Cln = Cln(name: string, objects: seq<CObj>, children: seq<Cln>)

  function ObjNames(os: seq<CObj>): (r: seq<string>)
    ensures |r| == |os| && forall k | 0 <= k < |os| :: r[k] == os[k].name
  {
    if |os| == 0 then [] else [os[0].name] + ObjNames(os[1..])
  }

  function ChildNames(cs: seq<Cln>): (r: seq<string>)
    ensures |r| == |cs| && forall k | 0 <= k < |cs| :: r[k] == cs[k].name
  {
    if |cs| == 0 then [] else [cs[0].name] + ChildNames(cs[1..])
  }

  // ---------------------------------------------------------------------
  // GetCollectionObjects

  predicate TypeOK(types: Option<seq<string>>, kind: string) {
    types.None? || kind in types.value
  }

  /** The comprehension's condition: without `_bChildren`, only objects
      without a parent among the collection's own objects. */
  predicate Listed(x: CObj, own: seq<string>, withChildren: bool, types: Option<seq<string>>) {
    && (withChildren || x.parent.None? || x.parent.value !in own)
    && TypeOK(types, x.kind)
  }

  /** The names of the objects of `os` that are listed, in order. */
  function Filter(os: seq<CObj>, own: seq<string>, withChildren: bool, types: Option<seq<string>>): (r: seq<string>)
    ensures |r| <= |os|
  {
    if |os| == 0 then []
    else
      var rest := Filter(os[1..], own, withChildren, types);
      if Listed(os[0], own, withChildren, types) then [os[0].name] + rest else rest
  }

  /** The filter lists exactly the names of the objects that pass it. */
  lemma {:induction false} FilterExact(os: seq<CObj>, own: seq<string>, withChildren: bool, types: Option<seq<string>>)
    ensures forall k | 0 <= k < |os| && Listed(os[k], own, withChildren, types) :: os[k].name in Filter(os, own, withChildren, types)
    ensures forall n | n in Filter(os, own, withChildren, types) ::
              exists k | 0 <= k < |os| :: os[k].name == n && Listed(os[k], own, withChildren, types)
  {
    if |os| > 0 {
      FilterExact(os[1..], own, withChildren, types);
      assert forall k | 1 <= k < |os| :: os[k] == os[1..][k - 1];
    }
  }

  function OwnListing(c: Cln, withChildren: bool, types: Option<seq<string>>): seq<string> {
    Filter(c.objects, ObjNames(c.objects), withChildren, types)
  }

  /** The reference listing: own objects, then with `_bRecursive` each
      child's listing in child order. */
  function Listing(c: Cln, withChildren: bool, recursive: bool, types: Option<seq<string>>): (r: seq<string>)
    ensures OwnListing(c, withChildren, types) <= r
    ensures !recursive ==> r == OwnListing(c, withChildren, types)
    decreases c, 1
  {
    OwnListing(c, withChildren, types) + (if recursive then ListingAll(c.children, withChildren, types) else [])
  }

  function ListingAll(cs: seq<Cln>, withChildren: bool, types: Option<seq<string>>): seq<string>
    decreases cs, 0
  {
    if |cs| == 0 then [] else Listing(cs[0], withChildren, true, types) + ListingAll(cs[1..], withChildren, types)
  }

  lemma {:induction false} ListingAllAppend(cs: seq<Cln>, c: Cln, withChildren: bool, types: Option<seq<string>>)
    ensures ListingAll(cs + [c], withChildren, types) ==
            ListingAll(cs, withChildren, types) + Listing(c, withChildren, true, types)
  {
    if |cs| == 0 {
      assert [c][1..] == [];
    } else {
      assert (cs + [c])[1..] == cs[1..] + [c];
      ListingAllAppend(cs[1..], c, withChildren, types);
    }
  }

  /** `GetCollectionObjects`: the own objects by the comprehension, then
      the recursive listings appended child by child. */
  method GetCollectionObjects(c: Cln, withChildren: bool, recursive: bool, types: Option<seq<string>>)
    returns (names: seq<string>)
    ensures names == Listing(c, withChildren, recursive, types)
    decreases c, 1
  {
    names := OwnListing(c, withChildren, types);
    if recursive {
      var rest := ListChildren(c.children, withChildren, types);
      names := names + rest;
    }
  }

  /** The loop over the child collections, each listed recursively. */
  method ListChildren(cs: seq<Cln>, withChildren: bool, types: Option<seq<string>>) returns (names: seq<string>)
    ensures names == ListingAll(cs, withChildren, types)
    decreases cs, 0
  {
    names := [];
    for i := 0 to |cs|
      invariant names == ListingAll(cs[..i], withChildren, types)
    {
      var childNames := GetCollectionObjects(cs[i], withChildren, true, types);
      ListingAllAppend(cs[..i], cs[i], withChildren, types);
      assert cs[..i + 1] == cs[..i] + [cs[i]];
      names := names + childNames;
    }
    assert cs[..|cs|] == cs;
  }

  /** Without `_bChildren`, an object whose parent is one of the
      collection's own objects is not listed (names being unique). */
  lemma OwnListingExcludesParented(c: Cln, types: Option<seq<string>>, k: nat)
    requires k < |c.objects|
    requires c.objects[k].parent.Some? && c.objects[k].parent.value in ObjNames(c.objects)
    requires forall j | 0 <= j < |c.objects| && j != k :: c.objects[j].name != c.objects[k].name
    ensures c.objects[k].name !in OwnListing(c, false, types)
  {
    FilterExact(c.objects, ObjNames(c.objects), false, types);
  }

  // ---------------------------------------------------------------------
  // Pre-order searches

  /** All collections of the tree in pre-order. */
  function PreOrder(c: Cln): seq<Cln>
    decreases c, 1
  {
    [c] + PreOrderAll(c.children)
  }

  function PreOrderAll(cs: seq<Cln>): seq<Cln>
    decreases cs, 0
  {
    if |cs| == 0 then [] else PreOrder(cs[0]) + PreOrderAll(cs[1..])
  }

  /** The first element of a sequence with property p. */
  function FirstWhere(s: seq<Cln>, p: Cln -> bool): (r: Option<Cln>)
    ensures r.Some? ==> r.value in s && p(r.value)
    ensures r.None? <==> forall k | 0 <= k < |s| :: !p(s[k])
  {
    if |s| == 0 then None else if p(s[0]) then Some(s[0]) else FirstWhere(s[1..], p)
  }

  lemma {:induction false} FirstWhereAppend(a: seq<Cln>, b: seq<Cln>, p: Cln -> bool)
    ensures FirstWhere(a + b, p) == if FirstWhere(a, p).Some? then FirstWhere(a, p) else FirstWhere(b, p)
  {
    if |a| > 0 {
      assert (a + b)[1..] == a[1..] + b;
      FirstWhereAppend(a[1..], b, p);
    } else {
      assert a + b == b;
    }
  }

  predicate HoldsObject(c: Cln, objName: string) { objName in ObjNames(c.objects) }

  predicate HasChild(c: Cln, childName: string) { childName in ChildNames(c.children) }

  /** `FindObjectInCollection`: the collection itself when it holds the
      object, else the first hit among the children. */
  function FindObjectInCollection(c: Cln, objName: string): (r: Option<Cln>)
    ensures r.Some? ==> HoldsObject(r.value, objName)
    ensures HoldsObject(c, objName) ==> r == Some(c)
    decreases c, 1
  {
    if HoldsObject(c, objName) then Some(c) else FindObjectInChildren(c.children, objName)
  }

  function FindObjectInChildren(cs: seq<Cln>, objName: string): (r: Option<Cln>)
    ensures r.Some? ==> HoldsObject(r.value, objName)
    decreases cs, 0
  {
    if |cs| == 0 then None
    else match FindObjectInCollection(cs[0], objName)
      case Some(x) => Some(x)
      case None => FindObjectInChildren(cs[1..], objName)
  }

  /** The search result is the first collection in pre-order that holds
      the object directly; None when no collection of the tree does. */
  lemma {:induction false} FindObjectIsFirstInPreOrder(c: Cln, objName: string)
    ensures FindObjectInCollection(c, objName) == FirstWhere(PreOrder(c), x => HoldsObject(x, objName))
    decreases c, 1
  {
    var p := x => HoldsObject(x, objName);
    FirstWhereAppend([c], PreOrderAll(c.children), p);
    if !HoldsObject(c, objName) {
      assert [c][1..] == [];
      FindObjectInChildrenIsFirst(c.children, objName);
    }
  }

  lemma {:induction false} FindObjectInChildrenIsFirst(cs: seq<Cln>, objName: string)
    ensures FindObjectInChildren(cs, objName) == FirstWhere(PreOrderAll(cs), x => HoldsObject(x, objName))
    decreases cs, 0
  {
    if |cs| > 0 {
      var p := x => HoldsObject(x, objName);
      FirstWhereAppend(PreOrder(cs[0]), PreOrderAll(cs[1..]), p);
      FindObjectIsFirstInPreOrder(cs[0], objName);
      FindObjectInChildrenIsFirst(cs[1..], objName);
    }
  }

  /** `_DoGetParentCollection`: the start collection when the collection
      is among its children, else the first hit among the children. */
  function GetParentCollection(start: Cln, childName: string): (r: Option<Cln>)
    ensures r.Some? ==> HasChild(r.value, childName)
    ensures HasChild(start, childName) ==> r == Some(start)
    decreases start, 1
  {
    if HasChild(start, childName) then Some(start)
    else if |start.children| == 0 then None
    else GetParentInChildren(start.children, childName)
  }

  function GetParentInChildren(cs: seq<Cln>, childName: string): (r: Option<Cln>)
    ensures r.Some? ==> HasChild(r.value, childName)
    decreases cs, 0
  {
    if |cs| == 0 then None
    else match GetParentCollection(cs[0], childName)
      case Some(x) => Some(x)
      case None => GetParentInChildren(cs[1..], childName)
  }

  /** The parent found is the first collection in pre-order with the
      collection as a direct child; None when there is none. */
  lemma {:induction false} ParentIsFirstInPreOrder(start: Cln, childName: string)
    ensures GetParentCollection(start, childName) == FirstWhere(PreOrder(start), x => HasChild(x, childName))
    decreases start, 1
  {
    var p := x => HasChild(x, childName);
    FirstWhereAppend([start], PreOrderAll(start.children), p);
    if !HasChild(start, childName) {
      assert [start][1..] == [];
      ParentInChildrenIsFirst(start.children, childName);
    }
  }

  lemma {:induction false} ParentInChildrenIsFirst(cs: seq<Cln>, childName: string)
    ensures GetParentInChildren(cs, childName) == FirstWhere(PreOrderAll(cs), x => HasChild(x, childName))
    decreases cs, 0
  {
    if |cs| > 0 {
      var p := x => HasChild(x, childName);
      FirstWhereAppend(PreOrder(cs[0]), PreOrderAll(cs[1..]), p);
      ParentIsFirstInPreOrder(cs[0], childName);
      ParentInChildrenIsFirst(cs[1..], childName);
    }
  }

  // ---------------------------------------------------------------------
  // Layer collections

  /** The view layer's tree of layer collections, by name. */
  datatype Layer = Layer(name: string, children: seq<Layer>)

  function LayerNames(l: Layer): seq<string>
    decreases l, 1
  {
    [l.name] + LayerNamesAll(l.children)
  }

  function LayerNamesAll(ls: seq<Layer>): seq<string>
    decreases ls, 0
  {
    if |ls| == 0 then [] else LayerNames(ls[0]) + LayerNamesAll(ls[1..])
  }

  /** `_xLayCol.children.get(_sName)`. */
  function DirectChild(ls: seq<Layer>, name: string): (r: Option<Layer>)
    ensures r.Some? ==> r.value in ls && r.value.name == name
    ensures r.None? ==> forall k | 0 <= k < |ls| :: ls[k].name != name
  {
    if |ls| == 0 then None else if ls[0].name == name then Some(ls[0]) else DirectChild(ls[1..], name)
  }

  /** `FindLayerCollection`: the node itself, a direct child of that name,
      or the first hit of a depth-first search of the children. */
  function FindLayerCollection(l: Layer, name: string): (r: Option<Layer>)
    ensures r.Some? ==> r.value.name == name
    ensures l.name == name ==> r == Some(l)
    decreases l, 1
  {
    if l.name == name then Some(l)
    else match DirectChild(l.children, name)
      case Some(x) => Some(x)
      case None => FindLayerInChildren(l.children, name)
  }

  function FindLayerInChildren(ls: seq<Layer>, name: string): (r: Option<Layer>)
    ensures r.Some? ==> r.value.name == name
    decreases ls, 0
  {
    if |ls| == 0 then None
    else match FindLayerCollection(ls[0], name)
      case Some(x) => Some(x)
      case None => FindLayerInChildren(ls[1..], name)
  }

  lemma {:induction false} DirectChildPresent(ls: seq<Layer>, name: string)
    ensures DirectChild(ls, name).Some? ==> name in LayerNamesAll(ls)
  {
    if |ls| > 0 && ls[0].name != name {
      DirectChildPresent(ls[1..], name);
    }
  }

  /** The search finds a node of that name exactly when the tree has one. */
  lemma {:induction false} FindLayerIffPresent(l: Layer, name: string)
    ensures FindLayerCollection(l, name).Some? <==> name in LayerNames(l)
    ensures FindLayerCollection(l, name).Some? ==> FindLayerCollection(l, name).value.name == name
    decreases l, 1
  {
    DirectChildPresent(l.children, name);
    FindLayerInChildrenIffPresent(l.children, name);
  }

  lemma {:induction false} FindLayerInChildrenIffPresent(ls: seq<Layer>, name: string)
    ensures FindLayerInChildren(ls, name).Some? <==> name in LayerNamesAll(ls)
    ensures FindLayerInChildren(ls, name).Some? ==> FindLayerInChildren(ls, name).value.name == name
    decreases ls, 0
  {
    if |ls| > 0 {
      FindLayerIffPresent(ls[0], name);
      FindLayerInChildrenIffPresent(ls[1..], name);
    }
  }

  /** The view layer: its root layer collection, the active one, and the
      exclude flag of each layer collection by name. */
  class CViewLayer {
    var root: Layer
    var active: Layer
    var exclude: map<string, bool>

    constructor (root: Layer)
      ensures this.root == root && active == root && exclude == map[]
    {
      this.root, active, exclude := root, root, map[];
    }

    /** `SetActiveCollection`: activate the layer collection of that name;
        raises when there is none. */
    method SetActiveCollection(name: string) returns (r: Outcome)
      modifies this
      ensures root == old(root) && exclude == old(exclude)
      ensures r.Pass? <==> name in LayerNames(root)
      ensures r.Pass? ==> FindLayerCollection(root, name) == Some(active) && active.name == name
      ensures r.Fail? ==> active == old(active) && r.msg == "Layer collection '" + name + "' not found."
    {
      FindLayerIffPresent(root, name);
      var found := FindLayerCollection(root, name);
      if found.None? {
        return Fail("Layer collection '" + name + "' not found.");
      }
      active := found.value;
      r := Pass;
    }

    /** `ExcludeCollection`: set the exclude flag of the layer collection of
        that name; raises when there is none. */
    method ExcludeCollection(name: string, flag: bool) returns (r: Outcome)
      modifies this
      ensures root == old(root) && active == old(active)
      ensures r.Pass? <==> name in LayerNames(root)
      ensures r.Pass? ==> exclude == old(exclude)[name := flag]
      ensures r.Fail? ==> exclude == old(exclude) && r.msg == "Layer collection '" + name + "' not found."
    {
      FindLayerIffPresent(root, name);
      var found := FindLayerCollection(root, name);
      if found.None? {
        return Fail("Layer collection '" + name + "' not found.");
      }
      exclude := exclude[found.value.name := flag];
      r := Pass;
    }
  }

  // ---------------------------------------------------------------------
  // CreateCollectionHierarchy

  /** The argument of `CreateCollectionHierarchy`: a list of names or
      something else. */
  datatype HierarchyArg = NameList(names: seq<string>) | NotAList

  /** The name of level k: the first k+1 names joined by "." or the plain
      k-th name. */
  function LevelName(names: seq<string>, k: nat, hierarchyNames: bool): string
    requires k < |names|
  {
    if hierarchyNames then Join(names[..k + 1], ".") else names[k]
  }

  /** The collections of the file (`bpy.data.collections`) with their child
      names, those that have a layer collection in the view layer, the
      root and the active collection. */
  class CScene {
    var children: map<string, seq<string>>
    var inView: set<string>
    var root: string
    var active: string

    ghost predicate Valid()
      reads this
    {
      root in children && root in inView && active in inView && inView <= children.Keys
    }

    /** `CreateCollection` under the active collection, which it then
        activates. */
    method CreateCollection(name: string)
      requires Valid() && name !in children
      modifies this
      ensures Valid() && root == old(root) && active == name
      ensures children == old(children)[old(active) := old(children)[old(active)] + [name]][name := []]
      ensures inView == old(inView) + {name}
    {
      children := children[active := children[active] + [name]][name := []];
      inView := inView + {name};
      active := name;
    }

    /** `SetActiveCollection` by name; raises when the collection has no
        layer collection. */
    method SetActive(name: string) returns (r: Outcome)
      requires Valid()
      modifies this
      ensures Valid() && root == old(root) && children == old(children) && inView == old(inView)
      ensures r.Pass? <==> name in inView
      ensures r.Fail? ==> r.msg == "Layer collection '" + name + "' not found."
      ensures active == if r.Pass? then name else old(active)
    {
      if name !in inView {
        return Fail("Layer collection '" + name + "' not found.");
      }
      active := name;
      r := Pass;
    }

    /** The first level of `CreateCollectionHierarchy`: make the collection
        under the scene collection, or activate the existing one. */
    method EnterTop(names: seq<string>) returns (o: Outcome)
      requires Valid() && |names| > 0
      modifies this
      ensures Valid() && root == old(root)
      ensures var run := EnterTopLevel(Level(old(children), old(inView), old(root)), names[0]);
        o == Message(run.o, names) && Level(children, inView, active) == run.s
    {
      active := root;
      var top := names[0];
      if top !in children {
        CreateCollection(top);
      } else {
        o := SetActive(top);
        if o.Fail? {
          return;
        }
      }
      o := Pass;
    }

    /** One pass of the loop of `CreateCollectionHierarchy`: make or reuse
        the collection `level`, a child of the active collection. It raises
        exactly when a collection of that name exists but is not a child of
        the active one, or has no layer collection. */
    method EnterLevel(names: seq<string>, level: string) returns (o: Outcome)
      requires Valid()
      modifies this
      ensures Valid() && root == old(root)
      ensures o.Fail? <==> level in old(children) && (level !in old(children)[old(active)] || level !in old(inView))
      ensures var run := EnterNextLevel(Level(old(children), old(inView), old(active)), level);
        o == Message(run.o, names) && Level(children, inView, active) == run.s
    {
      if level !in children {
        CreateCollection(level);
      } else {
        if level !in children[active] {
          return Fail(OutsideHierarchy(level, names));
        }
        o := SetActive(level);
        if o.Fail? {
          return;
        }
      }
      o := Pass;
    }

    /** `CreateCollectionHierarchy`: make or reuse one collection per level,
        each a child of the level above; an existing collection of a level's
        name that is not a child of the level above is an error, and the
        levels made before it stay. */
    method CreateCollectionHierarchy(arg: HierarchyArg, hierarchyNames: bool) returns (r: Result<Option<string>>)
      requires Valid()
      modifies this
      ensures Valid() && root == old(root)
      ensures (r, Level(children, inView, active)) == Hierarchy(Level(old(children), old(inView), old(active)), root, arg, hierarchyNames)
    {
      if arg.NotAList? {
        return Err(NotAListMessage);
      }
      var names := arg.names;
      if |names| == 0 {
        return Ok(None);
      }
      ghost var s0 := Level(children, inView, root);
      ghost var ls := LevelNames(names, hierarchyNames);
      assert names[..1] == [names[0]];
      var made := EnterTop(names);
      if made.Fail? {
        LevelsStopped(s0, ls, 1, |names|);
        return Err(made.msg);
      }
      var o := EnterLevels(names, hierarchyNames, s0);
      if o.Fail? {
        return Err(o.msg);
      }
      r := Ok(Some(LevelName(names, |names| - 1, hierarchyNames)));
    }

    /** The loop over the levels after the first, threading the dotted
        name of the level so far. */
    method EnterLevels(names: seq<string>, hierarchyNames: bool, ghost s0: Level<string>) returns (o: Outcome)
      requires Valid() && |names| >= 1 && LevelOk(s0)
      requires Run(Passed, Level(children, inView, active)) == Levels(s0, LevelNames(names, hierarchyNames), 1)
      modifies this
      ensures Valid() && root == old(root)
      ensures var run := Levels(s0, LevelNames(names, hierarchyNames), |names|);
        o == Message(run.o, names) && Level(children, inView, active) == run.s
    {
      ghost var ls := LevelNames(names, hierarchyNames);
      var full := names[0];
      assert names[..1] == [names[0]];
      for i := 1 to |names|
        invariant Valid() && root == old(root)
        invariant Run(Passed, Level(children, inView, active)) == Levels(s0, ls, i)
        invariant full == Join(names[..i], ".")
      {
        NextLevelName(names, i, hierarchyNames);
        full := full + "." + names[i];
        var level := if hierarchyNames then full else names[i];
        o := EnterLevel(names, level);
        if o.Fail? {
          LevelsStopped(s0, ls, i + 1, |names|);
          return;
        }
      }
      o := Pass;
    }
  }

  const NotAListMessage := "Collection hierarchy must be a list of string"

  function LayerNotFound(name: string): string {
    "Layer collection '" + name + "' not found."
  }

  function OutsideHierarchy(level: string, names: seq<string>): string {
    "Collection '" + level + "' already exists outside the given hierarchy: " + Join(names, "/")
  }

  /** The dotted name of level i extends the one of level i-1. */
  lemma NextLevelName(names: seq<string>, i: nat, hierarchyNames: bool)
    requires 0 < i < |names|
    ensures Join(names[..i + 1], ".") == Join(names[..i], ".") + "." + names[i]
    ensures LevelNames(names, hierarchyNames)[i] ==
              if hierarchyNames then Join(names[..i], ".") + "." + names[i] else names[i]
  {
    assert names[..i + 1][..i] == names[..i];
  }

  /** The name of every level, in order. */
  function LevelNames(names: seq<string>, hierarchyNames: bool): (ls: seq<string>)
    ensures |ls| == |names| && forall k | 0 <= k < |names| :: ls[k] == LevelName(names, k, hierarchyNames)
  {
    seq(|names|, k requires 0 <= k < |names| => LevelName(names, k, hierarchyNames))
  }

  /** What `CreateCollectionHierarchy` changes, for collections named by
      `K`: the child lists, the collections with a layer collection, and
      the active collection. */
  datatype Level<K> = Level(children: map<K, seq<K>>, inView: set<K>, active: K)

  /** How a level step ends: it passes, or raises for a level that exists
      outside the hierarchy or has no layer collection. */
  datatype Stop<K> = Passed | Outside(level: K) | NoLayer(level: K)

  /** A step's outcome and the state it leaves. */
  datatype Run<K> = Run(o: Stop<K>, s: Level<K>)

  /** The exception a step raises, with the source's message. */
  function Message(o: Stop<string>, names: seq<string>): (r: Outcome)
    ensures r.Pass? <==> o.Passed?
  {
    match o
    case Passed => Pass
    case Outside(level) => Fail(OutsideHierarchy(level, names))
    case NoLayer(level) => Fail(LayerNotFound(level))
  }

  predicate LevelOk<K>(s: Level<K>) {
    s.active in s.inView && s.inView <= s.children.Keys
  }

  /** `CreateCollection` of a new name under the active collection. */
  function Made<K>(s: Level<K>, name: K): (t: Level<K>)
    requires LevelOk(s) && name !in s.children
    ensures LevelOk(t) && t.active == name && t.inView == s.inView + {name}
    ensures t.children.Keys == s.children.Keys + {name} && t.children[name] == []
    ensures t.children[s.active] == s.children[s.active] + [name]
    ensures forall c | c in s.children && c != s.active :: t.children[c] == s.children[c]
  {
    Level(s.children[s.active := s.children[s.active] + [name]][name := []], s.inView + {name}, name)
  }

  /** The first level: created under the active collection when missing,
      activated when present, an error when it has no layer collection. */
  function EnterTopLevel<K>(s: Level<K>, top: K): (r: Run<K>)
    requires LevelOk(s)
    ensures LevelOk(r.s)
    ensures r.o == (if top in s.children && top !in s.inView then NoLayer(top) else Passed)
    ensures !r.o.Passed? ==> r.s == s
    ensures r.o.Passed? ==> r.s.active == top && top in r.s.children
  {
    if top !in s.children then Run(Passed, Made(s, top))
    else if top in s.inView then Run(Passed, s.(active := top))
    else Run(NoLayer(top), s)
  }

  /** A further level: created under the active collection when missing,
      reused when it is already a child of it and has a layer collection,
      an error otherwise. */
  function EnterNextLevel<K>(s: Level<K>, level: K): (r: Run<K>)
    requires LevelOk(s)
    ensures LevelOk(r.s)
    ensures !r.o.Passed? <==> level in s.children && (level !in s.children[s.active] || level !in s.inView)
    ensures !r.o.Passed? ==> r.s == s
    ensures r.o.Outside? <==> level in s.children && level !in s.children[s.active]
    ensures r.o.Passed? ==> level in r.s.children && s.active in r.s.children && level in r.s.children[s.active] && r.s.active == level
  {
    if level !in s.children then Run(Passed, Made(s, level))
    else if level !in s.children[s.active] then Run(Outside(level), s)
    else if level in s.inView then Run(Passed, s.(active := level))
    else Run(NoLayer(level), s)
  }

  /** The first n levels `ls` entered in turn from `s0`, stopping at the
      first that raises. */
  function Levels<K>(s0: Level<K>, ls: seq<K>, n: nat): (r: Run<K>)
    requires LevelOk(s0) && 1 <= n <= |ls|
    ensures LevelOk(r.s)
    decreases n
  {
    if n == 1 then EnterTopLevel(s0, ls[0])
    else
      var p := Levels(s0, ls, n - 1);
      if !p.o.Passed? then p else EnterNextLevel(p.s, ls[n - 1])
  }

  /** `CreateCollectionHierarchy` on a state: the error for a non-list,
      nothing for an empty list, otherwise the levels entered from the
      scene collection and the last level's name. */
  function Hierarchy(s: Level<string>, root: string, arg: HierarchyArg, hierarchyNames: bool): (r: (Result<Option<string>>, Level<string>))
    requires LevelOk(s) && root in s.inView
    ensures LevelOk(r.1)
    ensures arg.NotAList? ==> r == (Err(NotAListMessage), s)
    ensures arg.NameList? && |arg.names| == 0 ==> r == (Ok(None), s)
    ensures r.0.Ok? && arg.NameList? && |arg.names| > 0 ==>
              r.0.value == Some(LevelName(arg.names, |arg.names| - 1, hierarchyNames))
  {
    match arg
    case NotAList => (Err(NotAListMessage), s)
    case NameList(names) =>
      if |names| == 0 then (Ok(None), s)
      else
        var ls := LevelNames(names, hierarchyNames);
        var run := Levels(s.(active := root), ls, |names|);
        (match Message(run.o, names)
         case Pass => Ok(Some(ls[|names| - 1]))
         case Fail(msg) => Err(msg),
         run.s)
  }

  /** A call that returns leaves every level a collection, each a child of
      the level above, with the last level active. */
  lemma HierarchyLinked(s: Level<string>, root: string, names: seq<string>, hierarchyNames: bool)
    requires LevelOk(s) && root in s.inView && |names| > 0
    requires Hierarchy(s, root, NameList(names), hierarchyNames).0.Ok?
    ensures var t := Hierarchy(s, root, NameList(names), hierarchyNames).1;
      var ls := LevelNames(names, hierarchyNames);
      t.active == ls[|names| - 1] && LevelsIn(t.children, ls, |names|) && LinkedUpTo(t.children, ls, |names|)
  {
    LevelsLinked(s.(active := root), LevelNames(names, hierarchyNames), |names|);
  }

  /** Entering levels that all pass leaves every level a collection, each
      a child of the one above, with the last one active. */
  lemma {:induction false} LevelsLinked<K>(s0: Level<K>, ls: seq<K>, n: nat)
    requires LevelOk(s0) && 1 <= n <= |ls|
    requires Levels(s0, ls, n).o.Passed?
    ensures var t := Levels(s0, ls, n).s;
      t.active == ls[n - 1] && LevelsIn(t.children, ls, n) && LinkedUpTo(t.children, ls, n)
    decreases n
  {
    if n > 1 {
      LevelsLinked(s0, ls, n - 1);
      LinkedNext(Levels(s0, ls, n - 1).s, ls, n - 1);
    }
  }

  /** Entering level i after a chain of i linked levels links it too. */
  lemma LinkedNext<K>(s: Level<K>, ls: seq<K>, i: nat)
    requires LevelOk(s) && 1 <= i < |ls| && s.active == ls[i - 1]
    requires LevelsIn(s.children, ls, i) && LinkedUpTo(s.children, ls, i)
    requires EnterNextLevel(s, ls[i]).o.Passed?
    ensures var t := EnterNextLevel(s, ls[i]).s;
      t.active == ls[i] && LevelsIn(t.children, ls, i + 1) && LinkedUpTo(t.children, ls, i + 1)
  {
    var t := EnterNextLevel(s, ls[i]).s;
    if ls[i] !in s.children {
      LevelsKept(ls, i, s.children, t.children, s.active, ls[i]);
    }
    LevelStep(ls, i, t.children, ls[i]);
  }

  /** The levels change nothing but the levels themselves: every collection
      keeps its children and may only gain new ones at the end, only the
      active collection and the levels gain children, and a new collection
      or layer collection is one of the levels. */
  lemma {:induction false} LevelsFrame<K>(s0: Level<K>, ls: seq<K>, n: nat)
    requires LevelOk(s0) && 1 <= n <= |ls|
    ensures Grows(s0, Levels(s0, ls, n).s, LevelSet(ls, n))
    decreases n
  {
    var t := Levels(s0, ls, n).s;
    if n == 1 {
      StepGrows(s0, t, ls[0]);
    } else {
      LevelsFrame(s0, ls, n - 1);
      var p := Levels(s0, ls, n - 1);
      var ps := LevelSet(ls, n - 1);
      if p.o.Passed? {
        LevelsLinked(s0, ls, n - 1);
        assert p.s.active in ps;
        StepGrows(p.s, t, ls[n - 1]);
        GrowsTrans(s0, p.s, t, ps, ls[n - 1]);
      } else {
        GrowsWiden(s0, t, ps, ls[n - 1]);
      }
    }
  }

  /** The names of the first n levels. */
  function LevelSet<K>(ls: seq<K>, n: nat): (r: set<K>)
    requires n <= |ls|
    ensures forall k | 0 <= k < n :: ls[k] in r
  {
    if n == 0 then {} else LevelSet(ls, n - 1) + {ls[n - 1]}
  }

  /** From s to t collections only gain children at the end; only the
      active collection of s and the names in ls gain any; every new
      collection and layer collection is named in ls. */
  predicate Grows<K>(s: Level<K>, t: Level<K>, ls: set<K>) {
    && s.children.Keys <= t.children.Keys && s.inView <= t.inView
    && (forall c | c in s.children :: s.children[c] <= t.children[c])
    && (forall c | c in s.children && c != s.active && c !in ls :: t.children[c] == s.children[c])
    && t.children.Keys <= s.children.Keys + ls && t.inView <= s.inView + ls
  }

  /** One level step grows the state by that level. */
  lemma StepGrows<K>(s: Level<K>, t: Level<K>, level: K)
    requires LevelOk(s)
    requires t == s || t == s.(active := level) || (level !in s.children && t == Made(s, level))
    ensures Grows(s, t, {level})
  {
  }

  lemma GrowsTrans<K>(s: Level<K>, p: Level<K>, t: Level<K>, ls: set<K>, level: K)
    requires Grows(s, p, ls) && Grows(p, t, {level}) && p.active in ls
    ensures Grows(s, t, ls + {level})
  {
    forall c | c in s.children ensures s.children[c] <= t.children[c] {
      assert s.children[c] <= p.children[c] <= t.children[c];
    }
  }

  lemma GrowsWiden<K>(s: Level<K>, t: Level<K>, ls: set<K>, level: K)
    requires Grows(s, t, ls)
    ensures Grows(s, t, ls + {level})
  {
  }

  /** A second level that exists outside the hierarchy, under a first level
      that is new, stops the call with its error. */
  lemma HierarchyRaisesOutside(s: Level<string>, root: string, names: seq<string>, hierarchyNames: bool)
    requires LevelOk(s) && root in s.inView && |names| >= 2
    requires names[0] !in s.children && LevelName(names, 1, hierarchyNames) in s.children
    ensures Hierarchy(s, root, NameList(names), hierarchyNames).0
         == Err(OutsideHierarchy(LevelName(names, 1, hierarchyNames), names))
  {
    var ls := LevelNames(names, hierarchyNames);
    assert names[..1] == [names[0]];
    assert ls[0] == names[0];
    var s1 := s.(active := root);
    var t := Made(s1, names[0]);
    assert Levels(s1, ls, 1) == Run(Passed, t);
    assert ls[1] != names[0];
    assert ls[1] !in t.children[names[0]];
    assert Levels(s1, ls, 2).o == Outside(ls[1]);
    if |names| > 2 {
      LevelsStopped(s1, ls, 2, |names|);
    }
  }

  /** Once a level raises, the later levels change nothing. */
  lemma {:induction false} LevelsStopped<K>(s0: Level<K>, ls: seq<K>, m: nat, n: nat)
    requires LevelOk(s0) && 1 <= m <= n <= |ls|
    requires !Levels(s0, ls, m).o.Passed?
    ensures Levels(s0, ls, n) == Levels(s0, ls, m)
    decreases n - m
  {
    if m < n {
      LevelsStopped(s0, ls, m, n - 1);
    }
  }

  /** Levels 0..i-1 are collections of the file. */
  predicate LevelsIn<K>(children: map<K, seq<K>>, ls: seq<K>, i: nat)
    requires i <= |ls|
  {
    forall k | 0 <= k < i :: ls[k] in children
  }

  /** Level k is a child of level k-1. */
  predicate Linked<K>(children: map<K, seq<K>>, ls: seq<K>, k: nat)
    requires 0 < k < |ls|
  {
    ls[k - 1] in children && ls[k] in children[ls[k - 1]]
  }

  predicate LinkedUpTo<K>(children: map<K, seq<K>>, ls: seq<K>, i: nat)
    requires i <= |ls|
  {
    forall k | 0 < k < i :: Linked(children, ls, k)
  }

  /** A level that is a child of the level above extends the chain. */
  lemma LevelStep<K>(ls: seq<K>, i: nat, children: map<K, seq<K>>, level: K)
    requires 0 < i < |ls| && level == ls[i]
    requires LevelsIn(children, ls, i) && LinkedUpTo(children, ls, i)
    requires level in children && level in children[ls[i - 1]]
    ensures LevelsIn(children, ls, i + 1) && LinkedUpTo(children, ls, i + 1)
  {
    assert Linked(children, ls, i);
  }

  /** Creating the collection for level i under level i-1 keeps the links
      between the earlier levels. */
  lemma LevelsKept<K>(ls: seq<K>, i: nat, before: map<K, seq<K>>,
                      after: map<K, seq<K>>, current: K, level: K)
    requires 0 < i < |ls| && level == ls[i] && level !in before
    requires current == ls[i - 1] && current in before
    requires after == before[current := before[current] + [level]][level := []]
    requires LevelsIn(before, ls, i) && LinkedUpTo(before, ls, i)
    ensures LevelsIn(after, ls, i) && LinkedUpTo(after, ls, i)
    ensures level in after && level in after[current]
  {
    forall k | 0 < k < i
      ensures Linked(after, ls, k)
    {
      assert Linked(before, ls, k);
      var p := ls[k - 1];
      assert p != level;
      if p == current {
        assert after[p] == before[p] + [level];
      }
    }
  }
}
