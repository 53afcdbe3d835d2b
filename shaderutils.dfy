// Shader node helpers: connecting a node input with a value or a socket,
// providing the interface sockets and the group input/output nodes of a
// node group, and replacing every node of one type by a node of another.

module ShaderUtils {
  import opened Wrappers
  import opened Strings
  import opened NodeTree

  // ---------------------------------------------------------------------
  // Connecting a node input

  /** What `_ConnectWithSocket` is given: nothing, a float, a tuple, or the
      output `socket` of the node named `node`. */
  datatype Src = NoSrc | RealSrc(r: real) | TupleSrc(t: seq<real>) | SocketSrc(node: string, socket: nat)

  /** Input `j` of node `k` of `t` with a new default value. */
  function WithInputDefault(t: Tree, k: nat, j: nat, v: Value): Tree
    requires k < |t.nodes| && j < |t.nodes[k].ins|
  {
    var n := t.nodes[k];
    t.(nodes := t.nodes[k := n.(ins := n.ins[j := n.ins[j].(default := Some(v))])])
  }

  /** `_ConnectWithSocket` for input `j` of node `k`: nothing for no source,
      the default value for a float or a tuple (raising when the socket has
      no default or one of another kind), and one new link otherwise. */
  function Connect(t: Tree, k: nat, j: nat, src: Src): (r: Result<Tree>)
    requires k < |t.nodes| && j < |t.nodes[k].ins|
    ensures src.NoSrc? ==> r == Ok(t)
    ensures src.SocketSrc? ==>
      && r.Ok? && r.value.nodes == t.nodes
      && r.value.links == t.links + [Link(src.node, src.socket, t.nodes[k].name, j)]
    ensures (src.RealSrc? || src.TupleSrc?) ==>
      var v := if src.RealSrc? then Real(src.r) else Tuple(src.t);
      var d := t.nodes[k].ins[j].default;
      && (r.Ok? <==> d.Some? && Accepts(d.value, v))
      && (r.Ok? ==>
            && r.value.links == t.links && |r.value.nodes| == |t.nodes|
            && |r.value.nodes[k].ins| == |t.nodes[k].ins|
            && r.value.nodes[k].ins[j].default == Some(v)
            && r.value.nodes[k].(ins := t.nodes[k].ins) == t.nodes[k]
            && (forall i | 0 <= i < |t.nodes| && i != k :: r.value.nodes[i] == t.nodes[i])
            && (forall i | 0 <= i < |t.nodes[k].ins| && i != j :: r.value.nodes[k].ins[i] == t.nodes[k].ins[i]))
  {
    match src
    case NoSrc => Ok(t)
    case SocketSrc(node, socket) => Ok(t.(links := t.links + [Link(node, socket, t.nodes[k].name, j)]))
    case RealSrc(x) => SetInputDefault(t, k, j, Real(x))
    case TupleSrc(x) => SetInputDefault(t, k, j, Tuple(x))
  }

  /** `default_value = v` on input `j` of node `k`. */
  function SetInputDefault(t: Tree, k: nat, j: nat, v: Value): Result<Tree>
    requires k < |t.nodes| && j < |t.nodes[k].ins|
  {
    var d := t.nodes[k].ins[j].default;
    if d.None? then Err("socket has no attribute 'default_value'")
    else if !Accepts(d.value, v) then Err("default value of the wrong type")
    else Ok(WithInputDefault(t, k, j, v))
  }

  // ---------------------------------------------------------------------
  // Interface sockets of a node group

  /** The socket named `name`, created with the type's initial default when
      there is none yet. An unknown socket type raises. */
  function Declare(sockets: seq<Socket>, socketTypes: map<string, Option<Value>>, name: string, typeName: string)
    : (r: Result<seq<Socket>>)
    ensures r.Err? <==> FindSocket(sockets, name).None? && typeName !in socketTypes
    ensures r.Ok? ==> FindSocket(r.value, name).Some?
    ensures FindSocket(sockets, name).Some? ==> r == Ok(sockets)
    ensures r.Ok? && FindSocket(sockets, name).None? ==>
      r.value == sockets + [Socket(name, typeName, socketTypes[typeName])]
  {
    if FindSocket(sockets, name).Some? then Ok(sockets)
    else if typeName !in socketTypes then Err("Socket type '" + typeName + "' undefined")
    else
      var r := sockets + [Socket(name, typeName, socketTypes[typeName])];
      assert SocketNames(r) == SocketNames(sockets) + [name];
      Ok(r)
  }

  /** Setting the default of the socket named `name` when it has one; a
      value of another kind raises. */
  function SetDefault(sockets: seq<Socket>, name: string, value: Value): (r: (seq<Socket>, Outcome))
    requires FindSocket(sockets, name).Some?
    ensures SocketNames(r.0) == SocketNames(sockets)
    ensures var i := FindSocket(sockets, name).value; var s := sockets[i];
      && (s.default.None? ==> r == (sockets, Pass))
      && (s.default.Some? && Accepts(s.default.value, value) ==>
            r == (sockets[i := s.(default := Some(value))], Pass))
      && (s.default.Some? && !Accepts(s.default.value, value) ==> r.0 == sockets && r.1.Fail?)
  {
    var i := FindSocket(sockets, name).value;
    var s := sockets[i];
    if s.default.None? then (sockets, Pass)
    else if Accepts(s.default.value, value) then
      var r := sockets[i := s.(default := Some(value))];
      assert SocketNames(r) == SocketNames(sockets);
      (r, Pass)
    else (sockets, Fail("Error setting default value of '" + name + "'"))
  }

  /** One entry of a socket declaration: name, socket type name and, for
      inputs, the default value (None when a list entry has no third
      element), or an element that is not a socket description. */
  datatype Entry = Provide(name: string, typeName: string, value: Option<Value>) | Invalid

  /** An element of a socket collection object. */
  datatype Element = Info(name: string, typeName: string, value: Value) | NotInfo

  /** What `ProvideNodeTreeInputs`/`Outputs` accept: a list of
      `[name, type, value]` entries, a socket collection object, or other
      data. */
  datatype SocketData = SocketList(items: seq<Entry>) | SocketCollection(elems: seq<Element>) | OtherData

  /** The entries processed in order; other data raises before any. */
  function Entries(data: SocketData): (r: Result<seq<Entry>>)
    ensures r.Err? <==> data.OtherData?
    ensures data.SocketList? ==> r == Ok(data.items)
    ensures data.SocketCollection? ==> |r.value| == |data.elems| && forall i | 0 <= i < |data.elems| ::
      (data.elems[i].NotInfo? <==> r.value[i].Invalid?)
      && (data.elems[i].Info? ==> r.value[i] == Provide(data.elems[i].name, data.elems[i].typeName, Some(data.elems[i].value)))
  {
    match data
    case SocketList(items) => Ok(items)
    case SocketCollection(elems) =>
      Ok(seq(|elems|, i requires 0 <= i < |elems| =>
        match elems[i] case Info(n, tn, v) => Provide(n, tn, Some(v)) case NotInfo => Invalid))
    case OtherData => Err("Invalid input type of element 'xData'")
  }

  /** `_ProvideNodeTreeInputSocket` (`isInput`, setting the default) and
      `_ProvideNodeTreeOutputSocket` for one entry, on the sockets of that
      side of the tree. */
  function ProvideOne(sockets: seq<Socket>, socketTypes: map<string, Option<Value>>, e: Entry, isInput: bool)
    : (r: (seq<Socket>, Outcome))
    ensures e.Invalid? ==> r == (sockets, Fail("CNodeSocketCollection object contains element of invalid type"))
    ensures e.Provide? && isInput && e.value.None? ==> r == (sockets, Fail("list index out of range"))
    ensures SocketNames(sockets) <= SocketNames(r.0)
    ensures e.Provide? && e.name in SocketNames(sockets) ==> SocketNames(r.0) == SocketNames(sockets)
    ensures r.1.Pass? ==> e.Provide? && e.name in SocketNames(r.0)
  {
    match e
    case Invalid => (sockets, Fail("CNodeSocketCollection object contains element of invalid type"))
    case Provide(name, typeName, value) =>
      if isInput && value.None? then (sockets, Fail("list index out of range"))
      else match Declare(sockets, socketTypes, name, typeName)
        case Err(msg) => (sockets, Fail(msg))
        case Ok(declared) =>
          assert SocketNames(sockets) <= SocketNames(declared) by {
            if FindSocket(sockets, name).None? {
              assert SocketNames(declared) == SocketNames(sockets) + [name];
            }
          }
          if !isInput then (declared, Pass)
          else
            var set_ := SetDefault(declared, name, value.value);
            FindSocketNames(declared, set_.0, name);
            set_
  }

  /** A provided input socket holds the declared default, unless it is a
      socket without a default value. */
  lemma ProvideOneDefault(sockets: seq<Socket>, socketTypes: map<string, Option<Value>>, e: Entry)
    requires ProvideOne(sockets, socketTypes, e, true).1.Pass?
    ensures var r := ProvideOne(sockets, socketTypes, e, true).0; var s := r[FindSocket(r, e.name).value];
      s.default.None? || s.default == e.value
  {
    var declared := Declare(sockets, socketTypes, e.name, e.typeName).value;
    var set_ := SetDefault(declared, e.name, e.value.value);
    FindSocketNames(declared, set_.0, e.name);
  }

  /** The lookup by name only depends on the names. */
  lemma {:induction false} FindSocketNames(a: seq<Socket>, b: seq<Socket>, name: string)
    requires SocketNames(a) == SocketNames(b)
    ensures FindSocket(a, name) == FindSocket(b, name)
  {
    if |a| > 0 {
      assert a[0].name == SocketNames(a)[0] == b[0].name;
      assert SocketNames(a[1..]) == SocketNames(a)[1..] == SocketNames(b)[1..] == SocketNames(b[1..]);
      FindSocketNames(a[1..], b[1..], name);
    }
  }

  /** The entries one after the other, stopping at the first that raises;
      the sockets then keep what the earlier entries did. */
  function ProvideAll(sockets: seq<Socket>, socketTypes: map<string, Option<Value>>, es: seq<Entry>, isInput: bool)
    : (r: (seq<Socket>, Outcome))
    decreases |es|
  {
    if |es| == 0 then (sockets, Pass)
    else
      var before := ProvideAll(sockets, socketTypes, es[..|es| - 1], isInput);
      if before.1.Fail? then before else ProvideOne(before.0, socketTypes, es[|es| - 1], isInput)
  }

  /** One more entry: the run so far, then that entry unless the run raised. */
  lemma ProvideAllStep(sockets: seq<Socket>, socketTypes: map<string, Option<Value>>, es: seq<Entry>, i: nat, isInput: bool)
    requires i < |es|
    ensures var before := ProvideAll(sockets, socketTypes, es[..i], isInput);
      ProvideAll(sockets, socketTypes, es[..i + 1], isInput) ==
        if before.1.Fail? then before else ProvideOne(before.0, socketTypes, es[i], isInput)
  {
    assert es[..i + 1][..i] == es[..i];
  }

  /** Once an entry raises, the later entries are not processed. */
  lemma {:induction false} ProvideAllStops(sockets: seq<Socket>, socketTypes: map<string, Option<Value>>, es: seq<Entry>,
                                           i: nat, isInput: bool)
    requires i <= |es|
    requires ProvideAll(sockets, socketTypes, es[..i], isInput).1.Fail?
    ensures ProvideAll(sockets, socketTypes, es, isInput) == ProvideAll(sockets, socketTypes, es[..i], isInput)
    decreases |es| - i
  {
    if i < |es| {
      ProvideAllStep(sockets, socketTypes, es, i, isInput);
      ProvideAllStops(sockets, socketTypes, es, i + 1, isInput);
    } else {
      assert es[..i] == es;
    }
  }

  /** Every socket entry of `es` names one of `names`. */
  predicate AllPresent(names: seq<string>, es: seq<Entry>) {
    forall i | 0 <= i < |es| && es[i].Provide? :: es[i].name in names
  }

  lemma PrefixedIn(a: seq<string>, b: seq<string>, x: string)
    requires a <= b && x in a
    ensures x in b
  {
    var i :| 0 <= i < |a| && a[i] == x;
    assert b[i] == x;
  }

  /** After a run that raised nothing, every entry has its socket. */
  lemma {:induction false} ProvideAllCovers(sockets: seq<Socket>, socketTypes: map<string, Option<Value>>, es: seq<Entry>,
                                            isInput: bool)
    requires ProvideAll(sockets, socketTypes, es, isInput).1.Pass?
    ensures AllPresent(SocketNames(ProvideAll(sockets, socketTypes, es, isInput).0), es)
    decreases |es|
  {
    if |es| > 0 {
      var m := |es| - 1;
      var before := ProvideAll(sockets, socketTypes, es[..m], isInput);
      var after := ProvideOne(before.0, socketTypes, es[m], isInput);
      assert before.1.Pass? && ProvideAll(sockets, socketTypes, es, isInput) == after;
      ProvideAllCovers(sockets, socketTypes, es[..m], isInput);
      var a, b := SocketNames(before.0), SocketNames(after.0);
      forall i | 0 <= i < m && es[i].Provide?
        ensures es[i].name in b
      {
        assert es[..m][i] == es[i];
        PrefixedIn(a, b, es[i].name);
      }
    }
  }

  /** When every entry already has its socket, a run adds no socket: the
      socket names stay as they are. */
  lemma {:induction false} ProvideAllKeepsNames(sockets: seq<Socket>, socketTypes: map<string, Option<Value>>,
                                                es: seq<Entry>, isInput: bool)
    requires AllPresent(SocketNames(sockets), es)
    ensures SocketNames(ProvideAll(sockets, socketTypes, es, isInput).0) == SocketNames(sockets)
    decreases |es|
  {
    if |es| > 0 {
      var m := |es| - 1;
      AllPresentPrefix(SocketNames(sockets), es, m);
      ProvideAllKeepsNames(sockets, socketTypes, es[..m], isInput);
      var before := ProvideAll(sockets, socketTypes, es[..m], isInput);
      if before.1.Pass? {
        ProvideOneKeepsNames(before.0, socketTypes, es[m], isInput);
        assert ProvideAll(sockets, socketTypes, es, isInput) == ProvideOne(before.0, socketTypes, es[m], isInput);
      }
    }
  }

  lemma AllPresentPrefix(names: seq<string>, es: seq<Entry>, m: nat)
    requires m <= |es| && AllPresent(names, es)
    ensures AllPresent(names, es[..m])
  {
    forall i | 0 <= i < m && es[..m][i].Provide?
      ensures es[..m][i].name in names
    {
      assert es[..m][i] == es[i];
    }
  }

  lemma ProvideOneKeepsNames(sockets: seq<Socket>, socketTypes: map<string, Option<Value>>, e: Entry, isInput: bool)
    requires e.Provide? ==> e.name in SocketNames(sockets)
    ensures SocketNames(ProvideOne(sockets, socketTypes, e, isInput).0) == SocketNames(sockets)
  {
  }

  /** The sockets of one side of a tree. */
  function Side(t: Tree, isInput: bool): seq<Socket> {
    if isInput then t.inputs else t.outputs
  }

  function WithSide(t: Tree, isInput: bool, sockets: seq<Socket>): (r: Tree)
    ensures Side(r, isInput) == sockets && Side(r, !isInput) == Side(t, !isInput)
    ensures r.nodes == t.nodes && r.links == t.links
  {
    if isInput then t.(inputs := sockets) else t.(outputs := sockets)
  }

  /** `nodes.get(name)`, else `nodes.new(typeName)`: the node that is
      provided, as an index into the new node list. */
  function ProvideNode(t: Tree, kinds: map<string, NodeKind>, typeName: string, name: string): (r: Result<(Tree, nat)>)
    ensures FindNode(t.nodes, name).Some? ==> r == Ok((t, FindNode(t.nodes, name).value))
    ensures FindNode(t.nodes, name).None? ==> (r.Ok? <==> typeName in kinds)
    ensures r.Ok? ==> r.value.1 < |r.value.0.nodes| && r.value.0.(nodes := t.nodes) == t
    ensures r.Ok? && FindNode(t.nodes, name).None? ==>
      && r.value.0 == AddNode(t, kinds, typeName).value
      && r.value.1 == |t.nodes|
  {
    match FindNode(t.nodes, name)
    case Some(i) => Ok((t, i))
    case None =>
      var t' :- AddNode(t, kinds, typeName);
      Ok((t', |t.nodes|))
  }

  /** What `ProvideNodeTreeInputs` (`isInput`) and `ProvideNodeTreeOutputs`
      do to a tree, and the group input or output node they return. Only
      the sockets of that side and the nodes change. */
  function ProvideSockets(t: Tree, kinds: map<string, NodeKind>, socketTypes: map<string, Option<Value>>,
                          data: SocketData, isInput: bool): (r: (Tree, Result<nat>))
    ensures data.OtherData? ==> r == (t, Err("Invalid input type of element 'xData'"))
    ensures r.1.Ok? ==> r.1.value < |r.0.nodes|
    ensures r.0.links == t.links && Side(r.0, !isInput) == Side(t, !isInput)
  {
    match Entries(data)
    case Err(msg) => (t, Err(msg))
    case Ok(es) =>
      var run := ProvideAll(Side(t, isInput), socketTypes, es, isInput);
      var t1 := WithSide(t, isInput, run.0);
      if run.1.Fail? then (t1, Err(run.1.msg))
      else
        var typeName := if isInput then "NodeGroupInput" else "NodeGroupOutput";
        var name := if isInput then "Group Input" else "Group Output";
        var p := ProvideNode(t1, kinds, typeName, name);
        if p.Err? then (t1, Err(p.msg)) else (p.value.0, Ok(p.value.1))
  }

  /** The registry names the group input and output nodes as the host does. */
  predicate GroupNodeKinds(kinds: map<string, NodeKind>) {
    && ("NodeGroupInput" in kinds ==> kinds["NodeGroupInput"].baseName == "Group Input")
    && ("NodeGroupOutput" in kinds ==> kinds["NodeGroupOutput"].baseName == "Group Output")
  }

  /** After a call that raised nothing, the group node is there and every
      declared socket has been provided. */
  lemma ProvideSocketsProvides(t: Tree, kinds: map<string, NodeKind>, socketTypes: map<string, Option<Value>>,
                               data: SocketData, isInput: bool)
    requires GroupNodeKinds(kinds)
    requires ProvideSockets(t, kinds, socketTypes, data, isInput).1.Ok?
    ensures Entries(data).Ok?
    ensures var t1 := ProvideSockets(t, kinds, socketTypes, data, isInput).0;
      && FindNode(t1.nodes, if isInput then "Group Input" else "Group Output").Some?
      && AllPresent(SocketNames(Side(t1, isInput)), Entries(data).value)
  {
    var es := Entries(data).value;
    var run := ProvideAll(Side(t, isInput), socketTypes, es, isInput);
    ProvideAllCovers(Side(t, isInput), socketTypes, es, isInput);
    var ta := WithSide(t, isInput, run.0);
    var name := if isInput then "Group Input" else "Group Output";
    var typeName := if isInput then "NodeGroupInput" else "NodeGroupOutput";
    var t1 := ProvideNode(ta, kinds, typeName, name).value.0;
    assert ProvideSockets(t, kinds, socketTypes, data, isInput).0 == t1;
    if FindNode(ta.nodes, name).None? {
      var k := kinds[typeName];
      assert t1.nodes[|ta.nodes|].name == NewNodeName(ta.nodes, k.baseName) == name;
      assert name in NodeNames(t1.nodes);
    }
    assert Side(t1, isInput) == run.0;
  }

  /** On a tree that already has the group node and every declared socket,
      a call adds no socket and leaves the node list as it is. */
  lemma ProvideSocketsNoop(t: Tree, kinds: map<string, NodeKind>, socketTypes: map<string, Option<Value>>,
                           data: SocketData, isInput: bool)
    requires Entries(data).Ok?
    requires FindNode(t.nodes, if isInput then "Group Input" else "Group Output").Some?
    requires AllPresent(SocketNames(Side(t, isInput)), Entries(data).value)
    ensures var t2 := ProvideSockets(t, kinds, socketTypes, data, isInput).0;
      SocketNames(Side(t2, isInput)) == SocketNames(Side(t, isInput)) && t2.nodes == t.nodes
  {
    var es := Entries(data).value;
    ProvideAllKeepsNames(Side(t, isInput), socketTypes, es, isInput);
    var run := ProvideAll(Side(t, isInput), socketTypes, es, isInput);
    var tb := WithSide(t, isInput, run.0);
    assert ProvideSockets(t, kinds, socketTypes, data, isInput).0 == tb;
  }

  /** A second call with the same data adds no socket, reuses the group
      node and leaves the node list as it is. */
  lemma ProvideSocketsIdempotent(t: Tree, kinds: map<string, NodeKind>, socketTypes: map<string, Option<Value>>,
                                 data: SocketData, isInput: bool)
    requires GroupNodeKinds(kinds)
    requires ProvideSockets(t, kinds, socketTypes, data, isInput).1.Ok?
    ensures var t1 := ProvideSockets(t, kinds, socketTypes, data, isInput).0;
      var t2 := ProvideSockets(t1, kinds, socketTypes, data, isInput).0;
      && SocketNames(Side(t2, isInput)) == SocketNames(Side(t1, isInput))
      && t2.nodes == t1.nodes
  {
    ProvideSocketsProvides(t, kinds, socketTypes, data, isInput);
    ProvideSocketsNoop(ProvideSockets(t, kinds, socketTypes, data, isInput).0, kinds, socketTypes, data, isInput);
  }

  /** With a list of entries, the sockets of that side are what the
      entries make of the old ones, and the call raises exactly when an
      entry does or the group node has to be made of an unknown type. */
  lemma ProvideSocketsSide(t: Tree, kinds: map<string, NodeKind>, socketTypes: map<string, Option<Value>>,
                           data: SocketData, isInput: bool)
    requires data.SocketList?
    ensures var r := ProvideSockets(t, kinds, socketTypes, data, isInput);
      var run := ProvideAll(Side(t, isInput), socketTypes, data.items, isInput);
      && Side(r.0, isInput) == run.0
      && (r.1.Ok? <==> run.1.Pass? && (FindNode(t.nodes, if isInput then "Group Input" else "Group Output").Some?
                                        || (if isInput then "NodeGroupInput" else "NodeGroupOutput") in kinds))
  {
  }

  /** On a tree without the group node, a call that raised nothing appends
      it, of the registered kind and under its own name, as the last node,
      and returns it. */
  lemma ProvideSocketsAppends(t: Tree, kinds: map<string, NodeKind>, socketTypes: map<string, Option<Value>>,
                              data: SocketData, isInput: bool)
    requires GroupNodeKinds(kinds)
    requires FindNode(t.nodes, if isInput then "Group Input" else "Group Output").None?
    requires ProvideSockets(t, kinds, socketTypes, data, isInput).1.Ok?
    ensures var r := ProvideSockets(t, kinds, socketTypes, data, isInput);
      var typeName := if isInput then "NodeGroupInput" else "NodeGroupOutput";
      && typeName in kinds && r.1.value == |t.nodes|
      && |r.0.nodes| == |t.nodes| + 1 && r.0.nodes[..|t.nodes|] == t.nodes
      && r.0.nodes[|t.nodes|].name == (if isInput then "Group Input" else "Group Output")
      && r.0.nodes[|t.nodes|].typeId == kinds[typeName].typeId
  {
    var es := Entries(data).value;
    var run := ProvideAll(Side(t, isInput), socketTypes, es, isInput);
    var ta := WithSide(t, isInput, run.0);
    var name := if isInput then "Group Input" else "Group Output";
    var typeName := if isInput then "NodeGroupInput" else "NodeGroupOutput";
    var t1 := AddNode(ta, kinds, typeName).value;
    assert ProvideSockets(t, kinds, socketTypes, data, isInput).0 == t1;
    assert t1.nodes[|t.nodes|].name == NewNodeName(ta.nodes, kinds[typeName].baseName) == name;
    assert t1.nodes[..|t.nodes|] == t.nodes;
  }

  /** Entries that each declare a new socket, under names that are all
      different, of a known type whose initial default accepts the entry's
      value; input entries carry a value. */
  predicate FreshEntries(sockets: seq<Socket>, socketTypes: map<string, Option<Value>>, es: seq<Entry>, isInput: bool) {
    && (forall i | 0 <= i < |es| :: FreshEntry(sockets, socketTypes, es[i], isInput))
    && (forall i, j | 0 <= i < j < |es| :: es[i].name != es[j].name)
  }

  predicate FreshEntry(sockets: seq<Socket>, socketTypes: map<string, Option<Value>>, e: Entry, isInput: bool) {
    && e.Provide? && e.name !in SocketNames(sockets) && e.typeName in socketTypes
    && (isInput ==> e.value.Some?)
    && (e.value.Some? && socketTypes[e.typeName].Some? ==> Accepts(socketTypes[e.typeName].value, e.value.value))
  }

  function EntryNames(es: seq<Entry>): (r: seq<string>)
    requires forall i | 0 <= i < |es| :: es[i].Provide?
    ensures |r| == |es| && forall i | 0 <= i < |es| :: r[i] == es[i].name
  {
    seq(|es|, i requires 0 <= i < |es| => es[i].name)
  }

  /** Fresh entries, with or without defaults, are all provided: the
      sockets are the old ones followed by one per entry, in order. */
  lemma {:induction false} ProvideAllFresh(sockets: seq<Socket>, socketTypes: map<string, Option<Value>>,
                                           es: seq<Entry>, isInput: bool)
    requires FreshEntries(sockets, socketTypes, es, isInput)
    ensures ProvideAll(sockets, socketTypes, es, isInput).1.Pass?
    ensures SocketNames(ProvideAll(sockets, socketTypes, es, isInput).0) == SocketNames(sockets) + EntryNames(es)
    decreases |es|
  {
    if |es| > 0 {
      var m := |es| - 1;
      FreshPrefix(sockets, socketTypes, es, m, isInput);
      ProvideAllFresh(sockets, socketTypes, es[..m], isInput);
      var before := ProvideAll(sockets, socketTypes, es[..m], isInput);
      FreshLast(sockets, socketTypes, es, isInput);
      ProvideOneFresh(before.0, socketTypes, es[m], isInput);
      EntryNamesSnoc(es);
      var after := ProvideAll(sockets, socketTypes, es, isInput);
      assert after == ProvideOne(before.0, socketTypes, es[m], isInput);
      var a, b, c := SocketNames(sockets), EntryNames(es[..m]), [es[m].name];
      assert SocketNames(after.0) == (a + b) + c;
      assert (a + b) + c == a + (b + c);
    }
  }

  lemma EntryNamesSnoc(es: seq<Entry>)
    requires |es| > 0 && forall i | 0 <= i < |es| :: es[i].Provide?
    ensures EntryNames(es[..|es| - 1]) + [es[|es| - 1].name] == EntryNames(es)
  {
  }

  lemma FreshPrefix(sockets: seq<Socket>, socketTypes: map<string, Option<Value>>, es: seq<Entry>, m: nat, isInput: bool)
    requires FreshEntries(sockets, socketTypes, es, isInput) && m <= |es|
    ensures FreshEntries(sockets, socketTypes, es[..m], isInput)
  {
    assert forall i | 0 <= i < m :: es[..m][i] == es[i];
  }

  /** The last fresh entry's name is neither an old socket's nor an earlier
      entry's. */
  lemma FreshLast(sockets: seq<Socket>, socketTypes: map<string, Option<Value>>, es: seq<Entry>, isInput: bool)
    requires FreshEntries(sockets, socketTypes, es, isInput) && |es| > 0
    ensures es[|es| - 1].name !in SocketNames(sockets) + EntryNames(es[..|es| - 1])
  {
    var m := |es| - 1;
    var x := es[m].name;
    var a := SocketNames(sockets);
    var b := EntryNames(es[..m]);
    assert FreshEntry(sockets, socketTypes, es[m], isInput);
    assert forall i | 0 <= i < |b| :: b[i] != x by {
      forall i | 0 <= i < |b| ensures b[i] != x {
        assert b[i] == es[i].name;
      }
    }
    assert forall i | 0 <= i < |a + b| :: (a + b)[i] != x by {
      forall i | 0 <= i < |a + b| ensures (a + b)[i] != x {
        if i >= |a| { assert (a + b)[i] == b[i - |a|]; }
      }
    }
  }

  /** One entry for a new socket adds that socket and raises nothing. */
  lemma ProvideOneFresh(sockets: seq<Socket>, socketTypes: map<string, Option<Value>>, e: Entry, isInput: bool)
    requires FreshEntry(sockets, socketTypes, e, isInput)
    ensures ProvideOne(sockets, socketTypes, e, isInput).1.Pass?
    ensures SocketNames(ProvideOne(sockets, socketTypes, e, isInput).0) == SocketNames(sockets) + [e.name]
  {
    assert FindSocket(sockets, e.name).None?;
    var declared := sockets + [Socket(e.name, e.typeName, socketTypes[e.typeName])];
    assert Declare(sockets, socketTypes, e.name, e.typeName) == Ok(declared);
    assert SocketNames(declared) == SocketNames(sockets) + [e.name];
    if isInput {
      var set_ := SetDefault(declared, e.name, e.value.value);
      var i := FindSocket(declared, e.name).value;
      assert i == |sockets| by {
        assert SocketNames(declared)[i] == e.name;
        assert forall k | 0 <= k < |sockets| :: SocketNames(declared)[k] == SocketNames(sockets)[k];
      }
    }
  }

  /** `ProvideNodeTreeInputs` on the tree `ref`: provides every declared
      input socket and returns the group input node. */
  method ProvideNodeTreeInputs(data: CBlendData, ref: TreeRef, xData: SocketData,
                               kinds: map<string, NodeKind>, socketTypes: map<string, Option<Value>>)
    returns (r: Result<nat>)
    requires ref in data.trees
    modifies data
    ensures data.trees == old(data.trees)[ref := ProvideSockets(old(data.trees[ref]), kinds, socketTypes, xData, true).0]
    ensures r == ProvideSockets(old(data.trees[ref]), kinds, socketTypes, xData, true).1
    ensures data.materials == old(data.materials)
  {
    r := ProvideTree(data, ref, xData, kinds, socketTypes, true);
  }

  /** `ProvideNodeTreeOutputs` on the tree `ref`: provides every declared
      output socket and returns the group output node. */
  method ProvideNodeTreeOutputs(data: CBlendData, ref: TreeRef, xData: SocketData,
                                kinds: map<string, NodeKind>, socketTypes: map<string, Option<Value>>)
    returns (r: Result<nat>)
    requires ref in data.trees
    modifies data
    ensures data.trees == old(data.trees)[ref := ProvideSockets(old(data.trees[ref]), kinds, socketTypes, xData, false).0]
    ensures r == ProvideSockets(old(data.trees[ref]), kinds, socketTypes, xData, false).1
    ensures data.materials == old(data.materials)
  {
    r := ProvideTree(data, ref, xData, kinds, socketTypes, false);
  }

  /** The loop both share: each entry in turn, then the group node. */
  method ProvideTree(data: CBlendData, ref: TreeRef, xData: SocketData,
                     kinds: map<string, NodeKind>, socketTypes: map<string, Option<Value>>, isInput: bool)
    returns (r: Result<nat>)
    requires ref in data.trees
    modifies data
    ensures data.trees == old(data.trees)[ref := ProvideSockets(old(data.trees[ref]), kinds, socketTypes, xData, isInput).0]
    ensures r == ProvideSockets(old(data.trees[ref]), kinds, socketTypes, xData, isInput).1
    ensures data.materials == old(data.materials)
  {
    var t0 := data.trees[ref];
    var entries := Entries(xData);
    if entries.Err? {
      return Err(entries.msg);
    }
    var sockets, o := RunEntries(Side(t0, isInput), socketTypes, entries.value, isInput);
    if o.Fail? {
      data.trees := data.trees[ref := WithSide(t0, isInput, sockets)];
      return Err(o.msg);
    }
    var t := WithSide(t0, isInput, sockets);
    var typeName := if isInput then "NodeGroupInput" else "NodeGroupOutput";
    var name := if isInput then "Group Input" else "Group Output";
    var p := ProvideNode(t, kinds, typeName, name);
    if p.Err? {
      data.trees := data.trees[ref := t];
      return Err(p.msg);
    }
    data.trees := data.trees[ref := p.value.0];
    r := Ok(p.value.1);
  }

  /** The loop over the entries of `ProvideNodeTreeInputs` and
      `ProvideNodeTreeOutputs`: each entry in turn, leaving at the first
      that raises. */
  method RunEntries(sockets0: seq<Socket>, socketTypes: map<string, Option<Value>>, es: seq<Entry>, isInput: bool)
    returns (sockets: seq<Socket>, o: Outcome)
    ensures (sockets, o) == ProvideAll(sockets0, socketTypes, es, isInput)
  {
    sockets := sockets0;
    for i := 0 to |es|
      invariant ProvideAll(sockets0, socketTypes, es[..i], isInput) == (sockets, Pass)
    {
      ProvideAllStep(sockets0, socketTypes, es, i, isInput);
      var step := ProvideOne(sockets, socketTypes, es[i], isInput);
      sockets, o := step.0, step.1;
      if o.Fail? {
        ProvideAllStops(sockets0, socketTypes, es, i + 1, isInput);
        return;
      }
    }
    assert es[..|es|] == es;
    o := Pass;
  }
}
