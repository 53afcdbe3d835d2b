/** The animation-handler registry (anim/util.py): a module-global map
    from handler id to handler data, mirrored by Blender's
    `frame_change_pre` handler list. Handlers and finalizers are foreign
    callables; they are named by `Fn` values, and whether a call returns
    normally is a parameter. */
module Anim {
  import opened Wrappers
  import opened Strings

  /** The identity of a foreign callable (Python compares functions by identity). */
  type Fn = nat

  /** The handler dictionary `_dicH`: its "handler" and "finalizer" entries. */
  datatype HandlerData = HandlerData(handler: Option<Fn>, finalizer: Option<Fn>)

  /** The animation dictionary `_dicAnim`: its "sDTI" and "sType" entries. */
  datatype AnimDict = AnimDict(sDTI: Option<string>, sType: Option<string>)

  /** `list.remove(x)`: drops the first occurrence, `None` for `ValueError`. */
  function RemoveFirst(s: seq<Fn>, x: Fn): (r: Option<seq<Fn>>)
    ensures r.Some? <==> x in s
    ensures r.Some? ==> multiset(r.value) == multiset(s) - multiset{x} && |r.value| == |s| - 1
  {
    if |s| == 0 then None
    else
      assert s == [s[0]] + s[1..];
      if s[0] == x then Some(s[1..])
      else match RemoveFirst(s[1..], x)
        case None => None
        case Some(t) => Some([s[0]] + t)
  }

  /** `_dicAnim.get("sDTI", _dicAnim.get("sType"))`, formatted. */
  function AnimType(a: AnimDict): string {
    if a.sDTI.Some? then a.sDTI.value else if a.sType.Some? then a.sType.value else "None"
  }

  /** The handler id of an object animation. */
  function HandlerId(obj: string, a: AnimDict): (id: string)
    ensures |id| == |obj| + 1 + |AnimType(a)| && StartsWith(id, obj) && id[|obj|] == '/' && id[|obj| + 1..] == AnimType(a)
  {
    obj + "/" + AnimType(a)
  }

  /** The ids in `m` whose entry has handler `h`. */
  function Users<K>(m: map<K, HandlerData>, h: Fn): nat {
    |set id | id in m && m[id].handler == Some(h)|
  }

  lemma UsersRemove<K>(m: map<K, HandlerData>, id: K, h: Fn)
    requires id in m
    ensures Users(m - {id}, h) == Users(m, h) - (if m[id].handler == Some(h) then 1 else 0)
  {
    var s := set k | k in m && m[k].handler == Some(h);
    var t := set k | k in m - {id} && (m - {id})[k].handler == Some(h);
    assert t == s - {id};
  }

  lemma UsersPut<K>(m: map<K, HandlerData>, id: K, d: HandlerData, h: Fn)
    ensures Users(m[id := d], h) <= Users(m, h) + (if d.handler == Some(h) then 1 else 0)
  {
    var s := set k | k in m && m[k].handler == Some(h);
    var m2 := m[id := d];
    var t := set k | k in m2 && m2[k].handler == Some(h);
    if d.handler == Some(h) {
      assert t <= s + {id};
      SubsetCard(t, s + {id});
    } else {
      assert t <= s;
      SubsetCard(t, s);
    }
  }

  lemma SubsetCard<T>(a: set<T>, b: set<T>)
    requires a <= b
    ensures |a| <= |b|
  {
    assert b == a + (b - a);
  }

  /** A registered handler has at least one user. */
  lemma InUsers<K>(m: map<K, HandlerData>, id: K)
    requires id in m && m[id].handler.Some?
    ensures Users(m, m[id].handler.value) >= 1
  {
    var h := m[id].handler.value;
    SubsetCard({id}, set k | k in m && m[k].handler == Some(h));
  }

  /** Whether removing the entry gets past its finalizer. */
  predicate FinalizerOk(d: HandlerData, finalizes: Fn -> bool) {
    d.finalizer.None? || finalizes(d.finalizer.value)
  }

  /** The state the registry functions change: `dicHandler` and
      `bpy.app.handlers.frame_change_pre`. */
  datatype Registry<K> = Registry(handlers: map<K, HandlerData>, list: seq<Fn>)

  /** Every registered handler still has its own copy in the handler list. */
  ghost predicate Clean<K>(r: Registry<K>) {
    forall h: Fn :: Users(r.handlers, h) <= multiset(r.list)[h]
  }

  /** The handlers of the entries `ids` of `m`, one copy per entry. */
  function HandlersOf<K>(m: map<K, HandlerData>, ids: seq<K>): multiset<Fn> {
    if |ids| == 0 then multiset{}
    else
      var id := ids[|ids| - 1];
      HandlersOf(m, ids[..|ids| - 1]) +
        if id in m && m[id].handler.Some? then multiset{m[id].handler.value} else multiset{}
  }

  predicate Distinct<K(==)>(s: seq<K>) {
    forall i, j | 0 <= i < j < |s| :: s[i] != s[j]
  }

  /** `RemoveAnimHandler` on a state: an unknown id is ignored; otherwise
      the handler leaves the list, the finalizer runs and the entry is
      deleted, and an exception stops the steps after it. */
  function RemoveStep<K>(r: Registry<K>, id: K, finalizes: Fn -> bool): (t: Registry<K>)
    ensures t.handlers.Keys <= r.handlers.Keys
    ensures forall k | k in t.handlers :: t.handlers[k] == r.handlers[k]
    ensures forall k | k in r.handlers && k != id :: k in t.handlers
    ensures multiset(t.list) <= multiset(r.list)
    ensures id !in r.handlers ==> t == r
    ensures id in r.handlers && r.handlers[id].handler.Some? && r.handlers[id].handler.value !in r.list ==> t == r
  {
    if id !in r.handlers then r
    else
      var d := r.handlers[id];
      var left := if d.handler.Some? then RemoveFirst(r.list, d.handler.value) else Some(r.list);
      if left.None? then r
      else if !FinalizerOk(d, finalizes) then r.(list := left.value)
      else Registry(r.handlers - {id}, left.value)
  }

  /** From a clean registry, removing a registered id whose finalizer
      returns deletes just that entry, takes one copy of its handler off
      the list, and leaves the registry clean. */
  lemma RemoveStepClean<K>(r: Registry<K>, id: K, finalizes: Fn -> bool)
    requires Clean(r) && id in r.handlers && FinalizerOk(r.handlers[id], finalizes)
    ensures var t := RemoveStep(r, id, finalizes);
      && t.handlers == r.handlers - {id} && Clean(t)
      && multiset(t.list) == multiset(r.list) - HandlersOf(r.handlers, [id])
  {
    var d := r.handlers[id];
    var gone := if d.handler.Some? then multiset{d.handler.value} else multiset{};
    assert HandlersOf(r.handlers, [id]) == HandlersOf(r.handlers, []) + gone;
    var l: seq<Fn>;
    if d.handler.Some? {
      InUsers(r.handlers, id);
      assert multiset(r.list)[d.handler.value] >= 1;
      l := RemoveFirst(r.list, d.handler.value).value;
    } else {
      l := r.list;
    }
    assert multiset(l) == multiset(r.list) - gone;
    var t := Registry(r.handlers - {id}, l);
    assert RemoveStep(r, id, finalizes) == t;
    CleanRemove(r, t, id);
  }

  lemma CleanRemove<K>(r: Registry<K>, t: Registry<K>, id: K)
    requires Clean(r) && id in r.handlers && t.handlers == r.handlers - {id}
    requires multiset(t.list) == multiset(r.list) - if r.handlers[id].handler.Some? then multiset{r.handlers[id].handler.value} else multiset{}
    ensures Clean(t)
  {
    forall g: Fn
      ensures Users(t.handlers, g) <= multiset(t.list)[g]
    {
      UsersRemove(r.handlers, id, g);
    }
  }

  /** The loop over `ids`: `RemoveStep` for each, in order. */
  function RemoveAll<K>(r: Registry<K>, ids: seq<K>, finalizes: Fn -> bool): (t: Registry<K>)
    ensures t.handlers.Keys <= r.handlers.Keys
    ensures forall k | k in t.handlers :: t.handlers[k] == r.handlers[k]
    ensures forall k | k in r.handlers && k !in ids :: k in t.handlers
    ensures multiset(t.list) <= multiset(r.list)
  {
    if |ids| == 0 then r
    else RemoveStep(RemoveAll(r, ids[..|ids| - 1], finalizes), ids[|ids| - 1], finalizes)
  }

  /** Removing registered ids whose finalizers all return, from a clean
      registry, deletes exactly those entries and takes exactly their
      handlers off the list, one copy each. */
  lemma {:induction false} RemoveAllClean<K>(r: Registry<K>, ids: seq<K>, finalizes: Fn -> bool)
    requires Clean(r) && Distinct(ids)
    requires forall k | k in ids :: k in r.handlers && FinalizerOk(r.handlers[k], finalizes)
    ensures var t := RemoveAll(r, ids, finalizes);
      && (forall k | k in ids :: k !in t.handlers)
      && multiset(t.list) == multiset(r.list) - HandlersOf(r.handlers, ids)
      && Clean(t)
  {
    if |ids| > 0 {
      var init, id := ids[..|ids| - 1], ids[|ids| - 1];
      assert Distinct(init);
      RemoveAllClean(r, init, finalizes);
      var p := RemoveAll(r, init, finalizes);
      assert id !in init;
      assert p.handlers[id] == r.handlers[id];
      RemoveStepClean(p, id, finalizes);
      SameEntryHandlers(p.handlers, r.handlers, id);
      HandlersOfLast(r.handlers, ids);
      MinusMinus(multiset(r.list), HandlersOf(r.handlers, init), HandlersOf(r.handlers, [id]));
      assert forall k | k in ids :: k in init || k == id;
    }
  }

  lemma HandlersOfLast<K>(m: map<K, HandlerData>, ids: seq<K>)
    requires |ids| > 0
    ensures HandlersOf(m, ids) == HandlersOf(m, ids[..|ids| - 1]) + HandlersOf(m, [ids[|ids| - 1]])
  {
    var id := ids[|ids| - 1];
    assert HandlersOf(m, [id]) == HandlersOf(m, []) +
      if id in m && m[id].handler.Some? then multiset{m[id].handler.value} else multiset{};
  }

  lemma SameEntryHandlers<K>(m: map<K, HandlerData>, n: map<K, HandlerData>, id: K)
    requires id in m && id in n && m[id] == n[id]
    ensures HandlersOf(m, [id]) == HandlersOf(n, [id])
  {
    assert HandlersOf(m, [id]) == HandlersOf(m, []) +
      if m[id].handler.Some? then multiset{m[id].handler.value} else multiset{};
    assert HandlersOf(n, [id]) == HandlersOf(n, []) +
      if n[id].handler.Some? then multiset{n[id].handler.value} else multiset{};
  }

  lemma MinusMinus(a: multiset<Fn>, b: multiset<Fn>, c: multiset<Fn>)
    ensures a - b - c == a - (b + c)
  {
    forall x: Fn
      ensures (a - b - c)[x] == (a - (b + c))[x]
    {
    }
  }

  /** Removing every id of a clean registry whose finalizers all return
      takes exactly the registered handlers off the list. */
  lemma AllRemoved<K>(r: Registry<K>, keys: seq<K>, finalizes: Fn -> bool)
    requires Distinct(keys) && forall k :: k in keys <==> k in r.handlers
    ensures Clean(r) && (forall k | k in r.handlers :: FinalizerOk(r.handlers[k], finalizes)) ==>
              multiset(RemoveAll(r, keys, finalizes).list) == multiset(r.list) - HandlersOf(r.handlers, keys)
  {
    if Clean(r) && (forall k | k in r.handlers :: FinalizerOk(r.handlers[k], finalizes)) {
      RemoveAllClean(r, keys, finalizes);
    }
  }

  /** An empty registry is clean whatever the list holds. */
  lemma CleanEmpty<K>(m: map<K, HandlerData>, l: seq<Fn>)
    requires m == map[]
    ensures Clean(Registry(m, l))
  {
    forall h: Fn
      ensures Users(m, h) <= multiset(l)[h]
    {
      assert (set id | id in m && m[id].handler == Some(h)) == {};
    }
  }

  /** The ids of `keys` that start with `prefix`, in order. */
  function Prefixed(keys: seq<string>, prefix: string): (r: seq<string>)
    ensures forall k | k in r :: k in keys && StartsWith(k, prefix)
    ensures forall k | k in keys && StartsWith(k, prefix) :: k in r
  {
    if |keys| == 0 then []
    else
      var init, k := keys[..|keys| - 1], keys[|keys| - 1];
      assert forall x | x in keys :: x in init || x == k;
      Prefixed(init, prefix) + if StartsWith(k, prefix) then [k] else []
  }

  /** Filtering distinct ids keeps them distinct. */
  lemma {:induction false} PrefixedDistinct(keys: seq<string>, prefix: string)
    requires Distinct(keys)
    ensures Distinct(Prefixed(keys, prefix))
  {
    if |keys| > 0 {
      var init := keys[..|keys| - 1];
      assert Distinct(init);
      PrefixedDistinct(init, prefix);
      assert keys[|keys| - 1] !in init;
    }
  }

  class CAnimHandlers {
    /** `dicHandler`. */
    var dicHandler: map<string, HandlerData>
    /** `bpy.app.handlers.frame_change_pre`. */
    var frameChangePre: seq<Fn>

    /** Every registered handler still has its own copy in the handler list. */
    ghost predicate Valid()
      reads this
    {
      Clean(Registry(dicHandler, frameChangePre))
    }

    /** The ids of `dicHandler`, listed once each; `list(dicHandler.keys())`
        gives them in insertion order, which the map does not record. */
    ghost predicate KeyList(keys: seq<string>)
      reads this
    {
      Distinct(keys) && forall k :: k in keys <==> k in dicHandler
    }

    constructor ()
      ensures dicHandler == map[] && frameChangePre == [] && Valid()
    {
      dicHandler := map[];
      frameChangePre := [];
    }

    /** `RegisterAnimHandler`: a missing dictionary raises unwrapped, a
        missing "handler" raises wrapped before any change; otherwise the
        entry is stored (overwriting one of the same id, whose handler stays
        in the list), the handler appended, and then run; an exception from
        that run is wrapped, with the registration already made. */
    method RegisterAnimHandler(id: string, d: Option<HandlerData>, runs: Fn -> bool) returns (r: Outcome)
      modifies this
      ensures d.None? ==> r == Fail("No handler data given")
      ensures d.Some? && d.value.handler.None? ==> r == Fail("Error registering animation handler '" + id + "'")
      ensures d.None? || d.value.handler.None? ==>
                dicHandler == old(dicHandler) && frameChangePre == old(frameChangePre)
      ensures d.Some? && d.value.handler.Some? ==>
                && dicHandler == old(dicHandler)[id := d.value]
                && frameChangePre == old(frameChangePre) + [d.value.handler.value]
                && (r.Pass? <==> runs(d.value.handler.value))
                && (r.Fail? ==> r.msg == "Error registering animation handler '" + id + "'")
      ensures old(Valid()) ==> Valid()
    {
      if d.None? {
        return Fail("No handler data given");
      }
      var h := d.value.handler;
      if h.None? {
        return Fail("Error registering animation handler '" + id + "'");
      }
      ghost var m0, l0 := dicHandler, frameChangePre;
      dicHandler := dicHandler[id := d.value];
      frameChangePre := frameChangePre + [h.value];
      forall g: Fn
        ensures old(Valid()) ==> Users(dicHandler, g) <= multiset(frameChangePre)[g]
      {
        UsersPut(m0, id, d.value, g);
      }
      if !runs(h.value) {
        return Fail("Error registering animation handler '" + id + "'");
      }
      r := Pass;
    }

    /** `RemoveAnimHandler`: an unknown id is ignored; otherwise the handler
        leaves the list, the finalizer runs and the entry is deleted. An
        exception on the way is swallowed, stopping the steps after it. */
    method RemoveAnimHandler(id: string, finalizes: Fn -> bool)
      modifies this
      ensures Registry(dicHandler, frameChangePre) == RemoveStep(Registry(old(dicHandler), old(frameChangePre)), id, finalizes)
    {
      if id !in dicHandler {
        return;
      }
      var d := dicHandler[id];
      if d.handler.Some? {
        var left := RemoveFirst(frameChangePre, d.handler.value);
        if left.None? {
          // ValueError from `remove`, printed and swallowed
          return;
        }
        frameChangePre := left.value;
      }
      if !FinalizerOk(d, finalizes) {
        return;
      }
      dicHandler := dicHandler - {id};
    }

    /** `ClearAnim`: every entry is removed in the order of `keys`, then the
        map is reset. */
    method ClearAnim(keys: seq<string>, finalizes: Fn -> bool)
      requires KeyList(keys)
      modifies this
      ensures dicHandler == map[] && Valid()
      ensures frameChangePre == RemoveAll(Registry(old(dicHandler), old(frameChangePre)), keys, finalizes).list
      ensures old(Valid()) && (forall k | k in old(dicHandler) :: FinalizerOk(old(dicHandler)[k], finalizes)) ==>
                multiset(frameChangePre) == multiset(old(frameChangePre)) - HandlersOf(old(dicHandler), keys)
    {
      ghost var r0 := Registry(dicHandler, frameChangePre);
      for i := 0 to |keys|
        invariant Registry(dicHandler, frameChangePre) == RemoveAll(r0, keys[..i], finalizes)
      {
        RemoveAllNext(r0, keys, i, finalizes);
        RemoveAnimHandler(keys[i], finalizes);
      }
      assert keys[..|keys|] == keys;
      AllRemoved(r0, keys, finalizes);
      dicHandler := map[];
      CleanEmpty(dicHandler, frameChangePre);
    }

    /** `RegisterAnimObject`: the handler data comes from the factory, the
        id is the object name and the animation type, joined by '/'. */
    method RegisterAnimObject(obj: string, a: AnimDict, factory: (string, AnimDict) -> Option<HandlerData>,
                              runs: Fn -> bool) returns (r: Outcome)
      modifies this
      ensures var d := factory(obj, a);
              d.Some? && d.value.handler.Some? ==>
                && dicHandler == old(dicHandler)[HandlerId(obj, a) := d.value]
                && frameChangePre == old(frameChangePre) + [d.value.handler.value]
                && (r.Pass? <==> runs(d.value.handler.value))
      ensures var d := factory(obj, a);
              d.None? || d.value.handler.None? ==>
                r.Fail? && dicHandler == old(dicHandler) && frameChangePre == old(frameChangePre)
      ensures old(Valid()) ==> Valid()
    {
      r := RegisterAnimHandler(HandlerId(obj, a), factory(obj, a), runs);
    }

    /** `RemoveAnimObject`: without an animation dictionary every id with
        `prefix` as a plain string prefix is removed, in the order of
        `keys`; with one, only that animation's id. */
    method RemoveAnimObject(keys: seq<string>, obj: string, a: Option<AnimDict>, finalizes: Fn -> bool)
      requires KeyList(keys)
      modifies this
      ensures a.None? ==>
                Registry(dicHandler, frameChangePre) ==
                RemoveAll(Registry(old(dicHandler), old(frameChangePre)), Prefixed(keys, obj), finalizes)
      ensures a.Some? ==>
                Registry(dicHandler, frameChangePre) ==
                RemoveStep(Registry(old(dicHandler), old(frameChangePre)), HandlerId(obj, a.value), finalizes)
      ensures a.None? && old(Valid()) &&
              (forall k | k in old(dicHandler) && StartsWith(k, obj) :: FinalizerOk(old(dicHandler)[k], finalizes)) ==>
                Valid() && forall k | k in dicHandler :: !StartsWith(k, obj)
    {
      if a.None? {
        RemoveWithPrefix(keys, obj, finalizes);
      } else {
        RemoveAnimHandler(HandlerId(obj, a.value), finalizes);
      }
    }

    /** `RemoveAnimObject` without an animation dictionary as evidently
        intended: only the ids of `obj` itself, whose text before the '/'
        is the object name. */
    method RemoveAnimObjectOwn(keys: seq<string>, obj: string, finalizes: Fn -> bool)
      requires KeyList(keys) && '/' !in obj
      modifies this
      ensures Registry(dicHandler, frameChangePre) ==
                RemoveAll(Registry(old(dicHandler), old(frameChangePre)), Prefixed(keys, obj + "/"), finalizes)
      ensures forall other: string, a: AnimDict |
                '/' !in other && other != obj && HandlerId(other, a) in old(dicHandler) ::
                HandlerId(other, a) in dicHandler
      ensures old(Valid()) &&
              (forall k | k in old(dicHandler) && StartsWith(k, obj + "/") :: FinalizerOk(old(dicHandler)[k], finalizes)) ==>
                Valid() && forall a: AnimDict :: HandlerId(obj, a) !in dicHandler
    {
      RemoveWithPrefix(keys, obj + "/", finalizes);
      forall other: string, a: AnimDict | '/' !in other && other != obj
        ensures !StartsWith(HandlerId(other, a), obj + "/")
      {
        SeparatorPrefixExact(obj, other, a);
      }
      forall a: AnimDict
        ensures StartsWith(HandlerId(obj, a), obj + "/")
      {
        SeparatorPrefixExact(obj, obj, a);
      }
    }

    /** The loop of `RemoveAnimObject` over a snapshot of the ids: each id
        with the prefix is removed in turn. */
    method RemoveWithPrefix(keys: seq<string>, prefix: string, finalizes: Fn -> bool)
      requires KeyList(keys)
      modifies this
      ensures Registry(dicHandler, frameChangePre) ==
                RemoveAll(Registry(old(dicHandler), old(frameChangePre)), Prefixed(keys, prefix), finalizes)
      ensures forall k | k in old(dicHandler) && !StartsWith(k, prefix) :: k in dicHandler
      ensures old(Valid()) &&
              (forall k | k in old(dicHandler) && StartsWith(k, prefix) :: FinalizerOk(old(dicHandler)[k], finalizes)) ==>
                Valid() && forall k | k in dicHandler :: !StartsWith(k, prefix)
    {
      ghost var r0 := Registry(dicHandler, frameChangePre);
      for i := 0 to |keys|
        invariant Registry(dicHandler, frameChangePre) == RemoveAll(r0, Prefixed(keys[..i], prefix), finalizes)
      {
        PrefixedNext(keys, i, prefix, r0, finalizes);
        if StartsWith(keys[i], prefix) {
          RemoveAnimHandler(keys[i], finalizes);
        }
      }
      assert keys[..|keys|] == keys;
      PrefixRemoved(r0, keys, prefix, finalizes);
    }
  }

  /** One more id of the snapshot: removed in turn when it has the prefix. */
  lemma PrefixedNext(keys: seq<string>, i: nat, prefix: string, r0: Registry<string>, finalizes: Fn -> bool)
    requires i < |keys|
    ensures var ps := Prefixed(keys[..i], prefix);
      RemoveAll(r0, Prefixed(keys[..i + 1], prefix), finalizes) ==
        if StartsWith(keys[i], prefix) then RemoveStep(RemoveAll(r0, ps, finalizes), keys[i], finalizes)
        else RemoveAll(r0, ps, finalizes)
  {
    var ps := Prefixed(keys[..i], prefix);
    PrefixedSnoc(keys, i, prefix);
    if StartsWith(keys[i], prefix) {
      RemoveAllSnoc(r0, ps, keys[i], finalizes);
    } else {
      assert ps + [] == ps;
    }
  }

  lemma PrefixedSnoc(keys: seq<string>, i: nat, prefix: string)
    requires i < |keys|
    ensures Prefixed(keys[..i + 1], prefix) == Prefixed(keys[..i], prefix) + if StartsWith(keys[i], prefix) then [keys[i]] else []
  {
    assert keys[..i + 1][..i] == keys[..i];
  }

  /** Removing one more id of a snapshot is one more removal step. */
  lemma RemoveAllNext<K>(r: Registry<K>, keys: seq<K>, i: nat, finalizes: Fn -> bool)
    requires i < |keys|
    ensures RemoveAll(r, keys[..i + 1], finalizes) == RemoveStep(RemoveAll(r, keys[..i], finalizes), keys[i], finalizes)
  {
    assert keys[..i + 1][..i] == keys[..i];
  }

  lemma RemoveAllSnoc<K>(r: Registry<K>, ids: seq<K>, id: K, finalizes: Fn -> bool)
    ensures RemoveAll(r, ids + [id], finalizes) == RemoveStep(RemoveAll(r, ids, finalizes), id, finalizes)
  {
    assert (ids + [id])[..|ids|] == ids;
  }

  /** What removing the prefixed ids of a snapshot of the registry leaves. */
  lemma PrefixRemoved(r0: Registry<string>, keys: seq<string>, prefix: string, finalizes: Fn -> bool)
    requires Distinct(keys) && forall k :: k in keys <==> k in r0.handlers
    ensures var t := RemoveAll(r0, Prefixed(keys, prefix), finalizes);
      && (forall k | k in r0.handlers && !StartsWith(k, prefix) :: k in t.handlers)
      && (Clean(r0) && (forall k | k in r0.handlers && StartsWith(k, prefix) :: FinalizerOk(r0.handlers[k], finalizes)) ==>
            Clean(t) && forall k | k in t.handlers :: !StartsWith(k, prefix))
  {
    var ps := Prefixed(keys, prefix);
    if Clean(r0) && (forall k | k in r0.handlers && StartsWith(k, prefix) :: FinalizerOk(r0.handlers[k], finalizes)) {
      PrefixedDistinct(keys, prefix);
      RemoveAllClean(r0, ps, finalizes);
    }
  }

  /** The plain prefix reaches other objects: clearing "Cube" also removes
      the animations of "Cube.001". */
  lemma PrefixReachesOtherObjects(a: AnimDict)
    ensures StartsWith(HandlerId("Cube.001", a), "Cube")
  {
  }

  /** With the separator made part of the prefix, and object names free of
      '/', an id matches exactly the object it was registered for. */
  lemma SeparatorPrefixExact(obj: string, other: string, a: AnimDict)
    requires '/' !in obj && '/' !in other
    ensures StartsWith(HandlerId(other, a), obj + "/") <==> other == obj
  {
    var id := HandlerId(other, a);
    var p := obj + "/";
    if |other| > |obj| {
      assert id[|obj|] == other[|obj|] && other[|obj|] in other;
      assert p[|obj|] == '/';
    } else if |other| < |obj| {
      assert id[|other|] == '/' && obj[|other|] in obj;
      assert p[|other|] == obj[|other|];
    } else if StartsWith(id, p) {
      assert other == id[..|obj|];
    }
  }
}
