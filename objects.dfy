/** Blender objects as a value tree (object.py). An object has a name, a type
    string ("MESH", "EMPTY", ...), its three visibility flags, its mesh data
    and its children. */
module Objects {
  import opened Wrappers
  import opened Vectors

  datatype Flags = Flags(hidden: bool, hideRender: bool, hideViewport: bool)

  /** Membership of one vertex in one vertex group (`xVex.groups`). */
  datatype GroupElement = GroupElement(group: nat, weight: real)

  datatype Vertex = Vertex(co: Vec3, groups: seq<GroupElement>)

  datatype VertexGroup = VertexGroup(name: string, index: nat)

  /** Mesh data; `polygons` lists each polygon's vertex indices. */
  datatype Mesh = Mesh(vertices: seq<Vertex>, polygons: seq<seq<nat>>, groups: seq<VertexGroup>)

  datatype Obj = Obj(name: string, kind: string, flags: Flags, mesh: Mesh, children: seq<Obj>)

  predicate IsMesh(o: Obj) { o.kind == "MESH" }

  // ---------------------------------------------------------------------
  // Reference definitions of the traversals

  /** All objects of the subtree in pre-order, root first. */
  function Subtree(o: Obj): seq<Obj>
    decreases o, 1
  {
    [o] + SubtreeOfAll(o.children)
  }

  function SubtreeOfAll(cs: seq<Obj>): seq<Obj>
    decreases cs, 0
  {
    if |cs| == 0 then [] else Subtree(cs[0]) + SubtreeOfAll(cs[1..])
  }

  function Names(os: seq<Obj>): (r: seq<string>)
    ensures |r| == |os| && forall k | 0 <= k < |os| :: r[k] == os[k].name
  {
    if |os| == 0 then [] else [os[0].name] + Names(os[1..])
  }

  function MeshesOf(os: seq<Obj>): seq<Obj> {
    if |os| == 0 then []
    else (if IsMesh(os[0]) then [os[0]] else []) + MeshesOf(os[1..])
  }

  lemma NamesAppend(a: seq<Obj>, b: seq<Obj>)
    ensures Names(a + b) == Names(a) + Names(b)
  {
  }

  lemma {:induction false} MeshesOfAppend(a: seq<Obj>, b: seq<Obj>)
    ensures MeshesOf(a + b) == MeshesOf(a) + MeshesOf(b)
  {
    if |a| == 0 {
      assert a + b == b;
    } else {
      var h := if IsMesh(a[0]) then [a[0]] else [];
      assert (a + b)[0] == a[0];
      assert (a + b)[1..] == a[1..] + b;
      assert MeshesOf(a + b) == h + MeshesOf(a[1..] + b);
      MeshesOfAppend(a[1..], b);
      assert MeshesOf(a) == h + MeshesOf(a[1..]);
    }
  }

  lemma SubtreeOfAllAppend(cs: seq<Obj>, c: Obj)
    ensures SubtreeOfAll(cs + [c]) == SubtreeOfAll(cs) + Subtree(c)
  {
    if |cs| == 0 {
      assert [c][1..] == [];
    } else {
      assert (cs + [c])[1..] == cs[1..] + [c];
    }
  }

  // ---------------------------------------------------------------------
  // Listings

  /** `GetObjectChildrenNames`: the names of the direct children, or with
      `recursive` those of all descendants in pre-order (the root excluded). */
  method GetObjectChildrenNames(o: Obj, recursive: bool) returns (names: seq<string>)
    ensures !recursive ==> names == Names(o.children)
    ensures recursive ==> names == Names(SubtreeOfAll(o.children))
    decreases o
  {
    names := [];
    var i := 0;
    while i < |o.children|
      invariant 0 <= i <= |o.children|
      invariant !recursive ==> names == Names(o.children[..i])
      invariant recursive ==> names == Names(SubtreeOfAll(o.children[..i]))
    {
      var child := o.children[i];
      ChildNamesStep(o.children, i);
      names := names + [child.name];
      if recursive {
        var sub := GetObjectChildrenNames(child, true);
        names := names + sub;
      }
      i := i + 1;
    }
    assert o.children[..i] == o.children;
  }

  /** Extending the listed prefix of `cs` by child i adds its name, or in
      the recursive listing its name followed by its descendants' names. */
  lemma ChildNamesStep(cs: seq<Obj>, i: nat)
    requires i < |cs|
    ensures Names(cs[..i + 1]) == Names(cs[..i]) + [cs[i].name]
    ensures Names(SubtreeOfAll(cs[..i + 1])) == Names(SubtreeOfAll(cs[..i])) + [cs[i].name] + Names(SubtreeOfAll(cs[i].children))
  {
    assert cs[..i + 1] == cs[..i] + [cs[i]];
    NamesAppend(cs[..i], [cs[i]]);
    SubtreeOfAllAppend(cs[..i], cs[i]);
    NamesAppend(SubtreeOfAll(cs[..i]), Subtree(cs[i]));
    NamesAppend([cs[i]], SubtreeOfAll(cs[i].children));
  }

  /** The descendants' names are the subtree's names without the root. */
  lemma {:induction false} DescendantNamesAreSubtreeTail(o: Obj)
    ensures Names(SubtreeOfAll(o.children)) == Names(Subtree(o))[1..]
  {
    NamesAppend([o], SubtreeOfAll(o.children));
  }

  /** `GetMeshObjectHierarchy`: the MESH objects of the subtree, root
      included, in pre-order. */
  method GetMeshObjectHierarchy(o: Obj) returns (meshes: seq<Obj>)
    ensures meshes == MeshesOf(Subtree(o))
    ensures forall m | m in meshes :: IsMesh(m)
    decreases o
  {
    meshes := if IsMesh(o) then [o] else [];
    assert meshes == MeshesOf([o]);
    var i := 0;
    while i < |o.children|
      invariant 0 <= i <= |o.children|
      invariant meshes == MeshesOf([o] + SubtreeOfAll(o.children[..i]))
    {
      var sub := GetMeshObjectHierarchy(o.children[i]);
      MeshesStep(o, i);
      meshes := meshes + sub;
      i := i + 1;
    }
    assert o.children[..i] == o.children;
    MeshesOfAllMesh(Subtree(o));
  }

  /** Listing one more child appends the meshes of its subtree. */
  lemma MeshesStep(o: Obj, i: nat)
    requires i < |o.children|
    ensures MeshesOf([o] + SubtreeOfAll(o.children[..i + 1])) ==
            MeshesOf([o] + SubtreeOfAll(o.children[..i])) + MeshesOf(Subtree(o.children[i]))
  {
    assert o.children[..i + 1] == o.children[..i] + [o.children[i]];
    SubtreeOfAllAppend(o.children[..i], o.children[i]);
    assert [o] + SubtreeOfAll(o.children[..i + 1]) == ([o] + SubtreeOfAll(o.children[..i])) + Subtree(o.children[i]);
    MeshesOfAppend([o] + SubtreeOfAll(o.children[..i]), Subtree(o.children[i]));
  }

  lemma {:induction false} MeshesOfAllMesh(os: seq<Obj>)
    ensures forall m | m in MeshesOf(os) :: IsMesh(m)
  {
    if |os| > 0 {
      MeshesOfAllMesh(os[1..]);
    }
  }

  /** Removing `names` one after the other from the object table; `None`
      as soon as a name is not (or no longer) present. */
  function RemoveAll(objects: map<string, Obj>, names: seq<string>): Option<map<string, Obj>> {
    if |names| == 0 then Some(objects)
    else if names[0] !in objects then None
    else RemoveAll(objects - {names[0]}, names[1..])
  }

  /** Sequential removal succeeds exactly when the names are distinct and all
      present, and then removes exactly those names. */
  lemma {:induction false} RemoveAllRemovesExactly(objects: map<string, Obj>, names: seq<string>)
    ensures RemoveAll(objects, names).Some? <==>
            (forall k | 0 <= k < |names| :: names[k] in objects) &&
            (forall j, k | 0 <= j < k < |names| :: names[j] != names[k])
    ensures RemoveAll(objects, names).Some? ==> RemoveAll(objects, names).value == objects - set n | n in names
  {
    if |names| > 0 {
      RemoveAllRemovesExactly(objects - {names[0]}, names[1..]);
      assert forall k | 1 <= k < |names| :: names[k] == names[1..][k - 1];
      if RemoveAll(objects, names).Some? {
        assert (objects - {names[0]}) - (set n | n in names[1..]) == objects - set n | n in names;
      }
    }
  }

  /** `RemoveObjectHierarchy` over the object table of the blend data: the
      root and its descendants are removed one by one. A name that is not
      (or no longer) present stops the removal with an error, after the
      earlier removals. */
  method RemoveObjectHierarchy(objects: map<string, Obj>, root: Obj) returns (remaining: map<string, Obj>, ok: bool)
    ensures ok <==> RemoveAll(objects, Names(Subtree(root))).Some?
    ensures ok ==> remaining == RemoveAll(objects, Names(Subtree(root))).value
  {
    var names := GetObjectChildrenNames(root, true);
    DescendantNamesAreSubtreeTail(root);
    names := [root.name] + names;
    assert names == Names(Subtree(root));
    remaining := objects;
    var i := 0;
    while i < |names|
      invariant 0 <= i <= |names|
      invariant RemoveAll(objects, names) == RemoveAll(remaining, names[i..])
    {
      if names[i] !in remaining {
        return remaining, false;
      }
      assert names[i..][1..] == names[i + 1..];
      remaining := remaining - {names[i]};
      i := i + 1;
    }
    return remaining, true;
  }

  // ---------------------------------------------------------------------
  // Visibility

  /** The flags after `Hide`: each flag is set only when a boolean was passed
      for it. */
  function HideFlags(f: Flags, hideFlag: Option<bool>, renderFlag: Option<bool>, viewportFlag: Option<bool>): (g: Flags)
    ensures g.hidden == (if hideFlag.Some? then hideFlag.value else f.hidden)
    ensures g.hideRender == (if renderFlag.Some? then renderFlag.value else f.hideRender)
    ensures g.hideViewport == (if viewportFlag.Some? then viewportFlag.value else f.hideViewport)
  {
    Flags(if hideFlag.Some? then hideFlag.value else f.hidden,
          if renderFlag.Some? then renderFlag.value else f.hideRender,
          if viewportFlag.Some? then viewportFlag.value else f.hideViewport)
  }

  /** `Hide`: the object's flags, and with `recursive` those of all its
      descendants (the recursive calls use the default `bRecursive=True`). */
  function Hide(o: Obj, hideFlag: Option<bool>, renderFlag: Option<bool>, viewportFlag: Option<bool>, recursive: bool): (h: Obj)
    ensures h.name == o.name && h.kind == o.kind && h.mesh == o.mesh && |h.children| == |o.children|
    ensures h.flags == HideFlags(o.flags, hideFlag, renderFlag, viewportFlag)
    ensures !recursive ==> h.children == o.children
    decreases o
  {
    o.(flags := HideFlags(o.flags, hideFlag, renderFlag, viewportFlag),
       children := (if recursive then HideAll(o.children, hideFlag, renderFlag, viewportFlag) else o.children))
  }

  function HideAll(cs: seq<Obj>, hideFlag: Option<bool>, renderFlag: Option<bool>, viewportFlag: Option<bool>): (r: seq<Obj>)
    ensures |r| == |cs|
    ensures forall k | 0 <= k < |cs| :: r[k].name == cs[k].name && r[k].flags == HideFlags(cs[k].flags, hideFlag, renderFlag, viewportFlag)
    decreases cs
  {
    if |cs| == 0 then [] else [Hide(cs[0], hideFlag, renderFlag, viewportFlag, true)] + HideAll(cs[1..], hideFlag, renderFlag, viewportFlag)
  }

  /** Name and flags of each object, the part of an object `Hide` touches. */
  function Records(os: seq<Obj>): (r: seq<(string, Flags)>)
    ensures |r| == |os|
  {
    if |os| == 0 then [] else [(os[0].name, os[0].flags)] + Records(os[1..])
  }

  function HideRecords(rs: seq<(string, Flags)>, hideFlag: Option<bool>, renderFlag: Option<bool>, viewportFlag: Option<bool>): (r: seq<(string, Flags)>)
    ensures |r| == |rs|
    ensures forall k | 0 <= k < |rs| :: r[k] == (rs[k].0, HideFlags(rs[k].1, hideFlag, renderFlag, viewportFlag))
  {
    if |rs| == 0 then [] else [(rs[0].0, HideFlags(rs[0].1, hideFlag, renderFlag, viewportFlag))] + HideRecords(rs[1..], hideFlag, renderFlag, viewportFlag)
  }

  lemma {:induction false} RecordsAppend(a: seq<Obj>, b: seq<Obj>)
    ensures Records(a + b) == Records(a) + Records(b)
  {
    if |a| == 0 {
      assert a + b == b;
    } else {
      assert (a + b)[1..] == a[1..] + b;
      RecordsAppend(a[1..], b);
    }
  }

  lemma HideRecordsAppend(a: seq<(string, Flags)>, b: seq<(string, Flags)>, hideFlag: Option<bool>, renderFlag: Option<bool>, viewportFlag: Option<bool>)
    ensures HideRecords(a + b, hideFlag, renderFlag, viewportFlag) == HideRecords(a, hideFlag, renderFlag, viewportFlag) + HideRecords(b, hideFlag, renderFlag, viewportFlag)
  {
  }

  /** A recursive `Hide` updates the flags of every object of the subtree
      exactly as `HideFlags` says, keeps every name, and keeps the pre-order. */
  lemma {:induction false} HideRecursiveUpdatesSubtree(o: Obj, hideFlag: Option<bool>, renderFlag: Option<bool>, viewportFlag: Option<bool>)
    ensures Records(Subtree(Hide(o, hideFlag, renderFlag, viewportFlag, true))) == HideRecords(Records(Subtree(o)), hideFlag, renderFlag, viewportFlag)
    decreases o, 1
  {
    var h := Hide(o, hideFlag, renderFlag, viewportFlag, true);
    HideAllUpdatesSubtrees(o.children, hideFlag, renderFlag, viewportFlag);
    RecordsAppend([h], SubtreeOfAll(h.children));
    RecordsAppend([o], SubtreeOfAll(o.children));
  }

  lemma {:induction false} HideAllUpdatesSubtrees(cs: seq<Obj>, hideFlag: Option<bool>, renderFlag: Option<bool>, viewportFlag: Option<bool>)
    ensures Records(SubtreeOfAll(HideAll(cs, hideFlag, renderFlag, viewportFlag))) == HideRecords(Records(SubtreeOfAll(cs)), hideFlag, renderFlag, viewportFlag)
    decreases cs, 0
  {
    if |cs| > 0 {
      var hs := HideAll(cs, hideFlag, renderFlag, viewportFlag);
      assert hs[0] == Hide(cs[0], hideFlag, renderFlag, viewportFlag, true);
      assert hs[1..] == HideAll(cs[1..], hideFlag, renderFlag, viewportFlag);
      var front, rest := Records(Subtree(cs[0])), Records(SubtreeOfAll(cs[1..]));
      HideRecursiveUpdatesSubtree(cs[0], hideFlag, renderFlag, viewportFlag);
      HideAllUpdatesSubtrees(cs[1..], hideFlag, renderFlag, viewportFlag);
      assert SubtreeOfAll(hs) == Subtree(hs[0]) + SubtreeOfAll(hs[1..]);
      RecordsAppend(Subtree(hs[0]), SubtreeOfAll(hs[1..]));
      RecordsAppend(Subtree(cs[0]), SubtreeOfAll(cs[1..]));
      HideRecordsAppend(front, rest, hideFlag, renderFlag, viewportFlag);
    }
  }

  /** Without recursion only the object itself changes. */
  lemma HideNonRecursiveKeepsChildren(o: Obj, hideFlag: Option<bool>, renderFlag: Option<bool>, viewportFlag: Option<bool>)
    ensures Hide(o, hideFlag, renderFlag, viewportFlag, false).children == o.children
    ensures Hide(o, hideFlag, renderFlag, viewportFlag, false).flags == HideFlags(o.flags, hideFlag, renderFlag, viewportFlag)
  {
  }

  // ---------------------------------------------------------------------
  // Mesh access

  datatype Frame = WORLD | LOCAL | ID

  function FrameOf(s: string): Option<Frame> {
    if s == "WORLD" then Some(WORLD) else if s == "LOCAL" then Some(LOCAL) else if s == "ID" then Some(ID) else None
  }

  /** `GetMeshVex`: the vertex coordinates of a mesh object, mapped by the
      frame's transform (`toFrame`, the host's matrix) unless the frame is
      "ID". Non-mesh objects and unknown frames are errors. */
  function GetMeshVex(o: Obj, frame: string, toFrame: Vec3 -> Vec3): (r: Result<seq<Vec3>>)
    ensures r.Ok? <==> IsMesh(o) && FrameOf(frame).Some?
    ensures r.Ok? ==> |r.value| == |o.mesh.vertices|
    ensures r.Ok? && frame == "ID" ==> forall i | 0 <= i < |r.value| :: r.value[i] == o.mesh.vertices[i].co
    ensures r.Ok? && frame != "ID" ==> forall i | 0 <= i < |r.value| :: r.value[i] == toFrame(o.mesh.vertices[i].co)
  {
    if !IsMesh(o) then Err("Object '" + o.name + "' is not a mesh object")
    else if FrameOf(frame).None? then Err("Frame parameter must be one of WORLD, LOCAL, ID, but has value '" + frame + "'.")
    else if frame == "ID" then Ok(seq(|o.mesh.vertices|, i requires 0 <= i < |o.mesh.vertices| => o.mesh.vertices[i].co))
    else Ok(seq(|o.mesh.vertices|, i requires 0 <= i < |o.mesh.vertices| => toFrame(o.mesh.vertices[i].co)))
  }

  /** The vertex group of that name (`vertex_groups.get`). */
  function FindGroup(gs: seq<VertexGroup>, name: string): (r: Option<VertexGroup>)
    ensures r.Some? ==> r.value in gs && r.value.name == name
    ensures r.None? ==> forall g | g in gs :: g.name != name
  {
    if |gs| == 0 then None else if gs[0].name == name then Some(gs[0]) else FindGroup(gs[1..], name)
  }

  /** The weight the vertex has in group `index`: the last matching
      membership entry wins, 0.0 when there is none. */
  function WeightIn(es: seq<GroupElement>, index: nat): real {
    if |es| == 0 then 0.0
    else if es[|es| - 1].group == index then es[|es| - 1].weight
    else WeightIn(es[..|es| - 1], index)
  }

  /** The vertex weights `GetVertexWeights` promises: one per vertex; all
      1.0 without a group; an error for a named group that does not exist;
      otherwise each vertex's weight in that group, 0.0 for non-members. */
  function VertexWeights(o: Obj, group: Option<string>): (r: Result<seq<real>>)
    ensures group.None? ==> r.Ok? && forall i | 0 <= i < |r.value| :: r.value[i] == 1.0
    ensures group.Some? ==> (r.Ok? <==> FindGroup(o.mesh.groups, group.value).Some?)
    ensures r.Ok? ==> |r.value| == |o.mesh.vertices|
  {
    var n := |o.mesh.vertices|;
    if group.None? then Ok(seq(n, _ => 1.0))
    else match FindGroup(o.mesh.groups, group.value)
      case None => Err("Vertex group '" + group.value + "' does not exist in object '" + o.name + "'")
      case Some(g) => Ok(seq(n, i requires 0 <= i < n => WeightIn(o.mesh.vertices[i].groups, g.index)))
  }

  /** `GetVertexWeights`: the nested loop over vertices and their group
      entries, where a later entry for the group overwrites an earlier one. */
  method GetVertexWeights(o: Obj, group: Option<string>) returns (r: Result<seq<real>>)
    ensures r == VertexWeights(o, group)
  {
    var n := |o.mesh.vertices|;
    if group.None? {
      return Ok(seq(n, _ => 1.0));
    }
    var w := seq(n, _ => 0.0);
    var g := FindGroup(o.mesh.groups, group.value);
    if g.None? {
      return Err("Vertex group '" + group.value + "' does not exist in object '" + o.name + "'");
    }
    var index := g.value.index;
    for i := 0 to n
      invariant |w| == n
      invariant forall j | 0 <= j < i :: w[j] == WeightIn(o.mesh.vertices[j].groups, index)
      invariant forall j | i <= j < n :: w[j] == 0.0
    {
      var es := o.mesh.vertices[i].groups;
      for e := 0 to |es|
        invariant |w| == n
        invariant forall j | 0 <= j < i :: w[j] == WeightIn(o.mesh.vertices[j].groups, index)
        invariant forall j | i < j < n :: w[j] == 0.0
        invariant w[i] == WeightIn(es[..e], index)
      {
        assert es[..e + 1][..e] == es[..e];
        if es[e].group == index {
          w := w[i := es[e].weight];
        }
      }
      assert es[..|es|] == es;
    }
    assert w == seq(n, i requires 0 <= i < n => WeightIn(o.mesh.vertices[i].groups, index));
    return Ok(w);
  }

  /** A vertex that belongs to the group with exactly one membership entry
      gets that entry's weight; one with no entry for it gets 0.0. */
  lemma {:induction false} WeightInSingleEntry(es: seq<GroupElement>, index: nat, k: nat)
    requires k < |es| && es[k].group == index
    requires forall j | 0 <= j < |es| && j != k :: es[j].group != index
    ensures WeightIn(es, index) == es[k].weight
  {
    if k < |es| - 1 {
      WeightInSingleEntry(es[..|es| - 1], index, k);
    }
  }

  lemma {:induction false} WeightInNoEntry(es: seq<GroupElement>, index: nat)
    requires forall j | 0 <= j < |es| :: es[j].group != index
    ensures WeightIn(es, index) == 0.0
  {
    if |es| > 0 {
      WeightInNoEntry(es[..|es| - 1], index);
    }
  }

  // ---------------------------------------------------------------------
  // Snapping to a target mesh

  datatype DeltaMode = CLOSEST | ABOVE | BELOW

  function ModeOf(s: string): Option<DeltaMode> {
    if s == "CLOSEST" then Some(CLOSEST) else if s == "ABOVE" then Some(ABOVE) else if s == "BELOW" then Some(BELOW) else None
  }

  /** The start values of the min/max accumulation. */
  const DistMinStart: real := 100000000000000000000.0
  const DistMaxStart: real := -100000000000000000000.0

  function Min(a: real, b: real): real { if a <= b then a else b }
  function Max(a: real, b: real): real { if a >= b then a else b }

  /** Smallest first and largest second entry of the per-object ray results,
      starting from the source's +/-1e20. */
  function RangeOf(dists: seq<(real, real)>): (r: (real, real))
    ensures r.0 <= DistMinStart && r.1 >= DistMaxStart
    ensures forall k | 0 <= k < |dists| :: r.0 <= dists[k].0 && r.1 >= dists[k].1
    ensures r.0 == DistMinStart || exists k | 0 <= k < |dists| :: r.0 == dists[k].0
    ensures r.1 == DistMaxStart || exists k | 0 <= k < |dists| :: r.1 == dists[k].1
  {
    if |dists| == 0 then (DistMinStart, DistMaxStart)
    else
      var r := RangeOf(dists[..|dists| - 1]);
      (Min(r.0, dists[|dists| - 1].0), Max(r.1, dists[|dists| - 1].1))
  }

  /** The distance factor `GetObjectDeltaToMesh` as written multiplies the
      direction by: CLOSEST takes the smaller-magnitude value when min and max
      straddle zero (a tie goes to max), max when max < 0 and min when
      min > 0; when neither holds (min or max exactly 0) the source reaches
      `return vDelta` with `vDelta` never assigned, an error here. */
  function SelectDeltaAsWritten(mode: DeltaMode, dMin: real, dMax: real): (r: Result<real>)
    ensures mode == ABOVE ==> r == Ok(dMin)
    ensures mode == BELOW ==> r == Ok(dMax)
    ensures mode == CLOSEST ==> (r.Err? <==> dMin <= 0.0 <= dMax && (dMin == 0.0 || dMax == 0.0))
    ensures mode == CLOSEST && r.Ok? ==> r.value == dMin || r.value == dMax
  {
    match mode
    case ABOVE => Ok(dMin)
    case BELOW => Ok(dMax)
    case CLOSEST =>
      if dMin < 0.0 && dMax > 0.0 then (if Abs(dMin) < dMax then Ok(dMin) else Ok(dMax))
      else if dMax < 0.0 then Ok(dMax)
      else if dMin > 0.0 then Ok(dMin)
      else Err("local variable 'vDelta' referenced before assignment")
  }

  /** CLOSEST as evidently intended: whichever of min and max is closer to
      zero, including the touching case where one of them is 0. */
  function SelectDelta(mode: DeltaMode, dMin: real, dMax: real): (r: real)
    ensures mode == ABOVE ==> r == dMin
    ensures mode == BELOW ==> r == dMax
    ensures mode == CLOSEST ==> (r == dMin || r == dMax) && Abs(r) <= Abs(dMin) && Abs(r) <= Abs(dMax)
  {
    match mode
    case ABOVE => dMin
    case BELOW => dMax
    case CLOSEST => if Abs(dMin) < Abs(dMax) then dMin else dMax
  }

  /** Where the source reaches a value, it is the intended one, in
      particular the smaller-magnitude one. */
  lemma SelectDeltaAgrees(mode: DeltaMode, dMin: real, dMax: real)
    requires dMin <= dMax
    requires SelectDeltaAsWritten(mode, dMin, dMax).Ok?
    ensures SelectDeltaAsWritten(mode, dMin, dMax).value == SelectDelta(mode, dMin, dMax)
  {
  }

  /** When every ray misses, the range stays at its starting values, and
      there too the code as written makes the intended choice. */
  lemma SelectDeltaAgreesAllMiss(mode: DeltaMode)
    ensures SelectDeltaAsWritten(mode, DistMinStart, DistMaxStart) == Ok(SelectDelta(mode, DistMinStart, DistMaxStart))
  {
  }

  /** Without min <= max the two choices can differ: CLOSEST picks max as
      written and min as intended for min 1, max -5. */
  lemma SelectDeltaDisagreesUnordered()
    ensures SelectDeltaAsWritten(CLOSEST, 1.0, -5.0) == Ok(-5.0)
    ensures SelectDelta(CLOSEST, 1.0, -5.0) == 1.0
  {
  }

  /** The source fails for an object resting on the target (min = 0). */
  lemma SelectDeltaAsWrittenFailsWhenTouching()
    ensures SelectDeltaAsWritten(CLOSEST, 0.0, 1.0).Err?
    ensures SelectDelta(CLOSEST, 0.0, 1.0) == 0.0
  {
  }

  /** `GetObjectDeltaToMesh` after the ray casts: `dists` holds each mesh
      object's (min, max) signed distance along `dir`. Unknown modes are an
      error; the delta is the direction scaled by the selected distance. */
  method GetObjectDeltaToMesh(mode: string, dists: seq<(real, real)>, dir: Vec3) returns (r: Result<Vec3>)
    ensures ModeOf(mode).None? ==> r.Err?
    ensures ModeOf(mode).Some? ==> r == Ok(Scale(SelectDelta(ModeOf(mode).value, RangeOf(dists).0, RangeOf(dists).1), dir))
  {
    var m := ModeOf(mode);
    if m.None? {
      return Err("sMode must be one of 'CLOSEST', 'ABOVE' or 'BELOW'");
    }
    var dMin, dMax := DistMinStart, DistMaxStart;
    for k := 0 to |dists|
      invariant (dMin, dMax) == RangeOf(dists[..k])
    {
      assert dists[..k + 1][..k] == dists[..k];
      dMin := Min(dMin, dists[k].0);
      dMax := Max(dMax, dists[k].1);
    }
    assert dists[..|dists|] == dists;
    return Ok(Scale(SelectDelta(m.value, dMin, dMax), dir));
  }

  // ---------------------------------------------------------------------
  // Import

  /** A keyword argument that is a list, absent (None) or some other value;
      only a list is applied. */
  datatype ListArg = NoArg | ListOf(items: seq<real>) | OtherArg

  /** What `ImportObjectObj` sets on the imported object. */
  datatype ImportSettings = ImportSettings(location: Option<Vec3>, rotation: Option<Vec3>)

  /** The location and rotation checks of `ImportObjectObj`: a list that does
      not have three entries is an error; a non-list value is ignored. */
  function ImportObjectObj(location: ListArg, rotation: ListArg): (r: Result<ImportSettings>)
    ensures r.Ok? <==> (location.ListOf? ==> |location.items| == 3) && (rotation.ListOf? ==> |rotation.items| == 3)
    ensures r.Ok? ==> (r.value.location.Some? <==> location.ListOf?) && (r.value.rotation.Some? <==> rotation.ListOf?)
    ensures r.Ok? && location.ListOf? ==> r.value.location.value == Vec3(location.items[0], location.items[1], location.items[2])
    ensures r.Ok? && rotation.ListOf? ==> r.value.rotation.value == Vec3(rotation.items[0], rotation.items[1], rotation.items[2])
  {
    if location.ListOf? && |location.items| != 3 then Err("Invalid location for object")
    else if rotation.ListOf? && |rotation.items| != 3 then Err("Invalid rotation for object")
    else
      var loc := if location.ListOf? then Some(Vec3(location.items[0], location.items[1], location.items[2])) else None;
      var rot := if rotation.ListOf? then Some(Vec3(rotation.items[0], rotation.items[1], rotation.items[2])) else None;
      Ok(ImportSettings(loc, rot))
  }
}
