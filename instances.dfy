/** The instance container of cls_instances.py: a dictionary from instance
    name to instance, kept in insertion order, and the random duplication
    of its elements into a new container. */
module Instances {
  import opened Wrappers
  import opened Strings

  /** An instance: a single object, or a whole collection (with the object
      types it was built for). Bounding boxes and host objects are not part
      of the value. */
  datatype Inst = ObjectInstance(name: string) | CollectionInstance(name: string, types: Option<seq<string>>)

  predicate Distinct(s: seq<string>) {
    forall i, j | 0 <= i < j < |s| :: s[i] != s[j]
  }

  /** `CInstances`: `_dicElement` as a map plus its key order. */
  class CInstances {
    var name: string
    var keys: seq<string>
    var elements: map<string, Inst>

    ghost predicate Valid()
      reads this
    {
      && Distinct(keys)
      && (forall k | k in elements :: k in keys)
      && (forall i | 0 <= i < |keys| :: keys[i] in elements)
    }

    constructor (sName: Option<string>)
      ensures Valid() && keys == [] && elements == map[]
      ensures name == if sName.Some? then sName.value else "Instances"
    {
      name := if sName.Some? then sName.value else "Instances";
      keys, elements := [], map[];
    }

    /** `len(instances)`: the number of entries, one per name. */
    function Len(): (n: nat)
      reads this
      requires Valid()
      ensures n == |keys|
    {
      KeysCount(keys, elements);
      |elements|
    }

    /** `instances[key]`: the entry, or None for a missing key. */
    function Get(key: string): (r: Option<Inst>)
      reads this
      requires Valid()
      ensures r.Some? <==> key in keys
      ensures r.Some? ==> r.value == elements[key]
    {
      if key in elements then Some(elements[key]) else None
    }

    /** `lNames`: the keys in insertion order, each naming an entry once. */
    function Names(): (r: seq<string>)
      reads this
      requires Valid()
      ensures Distinct(r) && |r| == Len()
      ensures forall i | 0 <= i < |r| :: r[i] in elements
      ensures forall k | k in elements :: k in r
    {
      keys
    }

    /** `self._dicElement[key] = inst`: overwriting keeps the key's place,
        a new key goes to the end. */
    method Put(key: string, inst: Inst)
      requires Valid()
      modifies this
      ensures Valid() && name == old(name)
      ensures elements == old(elements)[key := inst]
      ensures keys == if key in old(elements) then old(keys) else old(keys) + [key]
    {
      if key !in elements {
        keys := keys + [key];
      }
      elements := elements[key := inst];
    }

    /** `AddElement`: insert or overwrite under the instance's own name. */
    method AddElement(inst: Inst)
      requires Valid()
      modifies this
      ensures Valid() && name == old(name)
      ensures elements == old(elements)[inst.name := inst]
      ensures keys == if inst.name in old(elements) then old(keys) else old(keys) + [inst.name]
    {
      Put(inst.name, inst);
    }

    /** `AddCollection`: insert or overwrite a collection instance under
        the collection's name. */
    method AddCollection(collectionName: string, types: Option<seq<string>>)
      requires Valid()
      modifies this
      ensures Valid() && name == old(name)
      ensures elements == old(elements)[collectionName := CollectionInstance(collectionName, types)]
      ensures keys == if collectionName in old(elements) then old(keys) else old(keys) + [collectionName]
    {
      Put(collectionName, CollectionInstance(collectionName, types));
    }

    /** `AddObject`: an entry for the object is created only when its name
        is not present yet. The entry is built from `_sName` alone, so a call
        with only `_objX` fails for a new name; building it also fails when
        the scene has no object of that name. */
    method AddObject(sName: Option<string>, objName: Option<string>, scene: set<string>) returns (r: Outcome)
      requires Valid()
      modifies this
      ensures Valid() && name == old(name)
      ensures sName.None? && objName.None? ==> r.Fail?
      ensures r.Fail? ==> elements == old(elements) && keys == old(keys)
      ensures r.Pass? ==> EntryName(sName, objName) in elements
      ensures (sName.Some? || objName.Some?) && EntryName(sName, objName) in old(elements) ==>
                r.Pass? && elements == old(elements) && keys == old(keys)
      ensures sName.None? && objName.Some? && objName.value !in old(elements) ==> r.Fail?
      ensures sName.Some? && sName.value !in old(elements) ==>
                (r.Pass? <==> sName.value in scene) &&
                (r.Pass? ==> elements == old(elements)[sName.value := ObjectInstance(sName.value)] &&
                             keys == old(keys) + [sName.value])
    {
      if sName.None? && objName.None? {
        return Fail("An object name or an object have to be given for initialization");
      }
      var key := EntryName(sName, objName);
      if key in elements {
        return Pass;
      }
      if sName.None? {
        return Fail("An object name or an object have to be given for initialization");
      }
      if sName.value !in scene {
        return Fail("Object '" + sName.value + "' not available");
      }
      Put(key, ObjectInstance(key));
      r := Pass;
    }

    /** `CreateRandomInstances`: a parent collection under the first free
        name, `_iInstanceCount` element indices chosen without immediate
        repeats, and a new container holding one copy of the chosen element
        per index (`copyName(key, i)` is the name the host gives the i-th
        copy, made of the element filed under key). */
    method CreateRandomInstances(count: int, base: string, existing: set<string>, draws: seq<nat>,
                                 copyName: (string, nat) -> string)
      returns (r: Result<CInstances>, parent: string, sel: seq<nat>, ghost tries: nat)
      requires Valid()
      ensures count <= 0 ==> r.Err?
      ensures r.Ok? ==> parent == Numbered(base, " ", tries) && parent !in existing
      ensures r.Ok? ==> forall j | 0 <= j < tries :: Numbered(base, " ", j) in existing
      ensures r.Ok? ==> |sel| == count && (forall i | 0 <= i < |sel| :: sel[i] < |keys|)
      ensures r.Ok? && |keys| > 1 ==> NoRepeats(sel)
      ensures r.Ok? ==> fresh(r.value) && r.value.Valid() && r.value.name == base
      ensures r.Ok? ==> forall i | 0 <= i < |sel| :: CopyNames(keys, sel, copyName)[i] in r.value.elements
      ensures r.Ok? ==> forall k | k in r.value.elements :: k in CopyNames(keys, sel, copyName)
      ensures r.Ok? ==> forall i | 0 <= i < |sel| && LastCopy(CopyNames(keys, sel, copyName), i, |sel|) ::
        r.value.elements[CopyNames(keys, sel, copyName)[i]]
          == CopyAs(elements[keys[sel[i]]], CopyNames(keys, sel, copyName)[i])
    {
      sel, parent, tries := [], base, 0;
      if count <= 0 {
        return Err("Invalid instance count '" + IntToString(count) + "'"), parent, sel, tries;
      }
      parent, tries := FreeName(base, " ", existing);
      var chosen, used := SelectIndices(count, |keys|, draws);
      if chosen.Err? {
        return Err(chosen.msg), parent, sel, tries;
      }
      sel := chosen.value;
      var res := AddCopies(base, keys, elements, sel, copyName);
      r := Ok(res);
    }
  }

  /** The loop `for iElIdx in lSelIdx`: a fresh container named `base`
      holding one copy per selected index. */
  method AddCopies(base: string, keys: seq<string>, elements: map<string, Inst>, sel: seq<nat>,
                   copyName: (string, nat) -> string) returns (res: CInstances)
    requires forall i | 0 <= i < |keys| :: keys[i] in elements
    requires forall i | 0 <= i < |sel| :: sel[i] < |keys|
    ensures fresh(res) && res.Valid() && res.name == base
    ensures forall i | 0 <= i < |sel| :: CopyNames(keys, sel, copyName)[i] in res.elements
    ensures forall k | k in res.elements :: k in CopyNames(keys, sel, copyName)
    ensures forall i | 0 <= i < |sel| && LastCopy(CopyNames(keys, sel, copyName), i, |sel|) ::
      res.elements[CopyNames(keys, sel, copyName)[i]]
        == CopyAs(elements[keys[sel[i]]], CopyNames(keys, sel, copyName)[i])
  {
    var copies := CopyNames(keys, sel, copyName);
    ghost var made := seq(|sel|, j requires 0 <= j < |sel| => CopyAs(elements[keys[sel[j]]], copies[j]));
    res := new CInstances(Some(base));
    FiledNone(copies, made, res.elements);
    for i := 0 to |sel|
      invariant fresh(res) && res.Valid() && res.name == base
      invariant Filed(copies, made, res.elements, i)
    {
      var key := keys[sel[i]];
      FiledStep(copies, made, res.elements, i);
      res.AddElement(CopyAs(elements[key], copies[i]));
    }
    FiledAll(copies, made, res.elements);
  }

  /** Copy j is the last of the first n copies with its name, so the entry
      under that name is copy j: a later copy of the same name overwrites
      it. */
  predicate LastCopy<K(==)>(copies: seq<K>, j: nat, n: nat)
    requires j < n <= |copies|
  {
    forall l | j < l < n :: copies[l] != copies[j]
  }

  /** When the host names every copy differently, every copy is the last
      of its name, so the container holds each selected element's copy. */
  lemma DistinctCopiesLast(copies: seq<string>)
    requires Distinct(copies)
    ensures forall j | 0 <= j < |copies| :: LastCopy(copies, j, |copies|)
  {
  }

  /** After filing the first i copies, value `made[j]` under name
      `copies[j]`: every name filed so far is a key, there is no other key,
      and each last copy of a name is its entry. */
  ghost predicate Filed<K, V>(copies: seq<K>, made: seq<V>, m: map<K, V>, i: nat)
    requires |made| == |copies| && i <= |copies|
  {
    && (forall j | 0 <= j < i :: copies[j] in m)
    && (forall k | k in m :: k in copies[..i])
    && (forall j | 0 <= j < i && LastCopy(copies, j, i) :: m[copies[j]] == made[j])
  }

  lemma FiledNone<K, V>(copies: seq<K>, made: seq<V>, m: map<K, V>)
    requires |made| == |copies| && m == map[]
    ensures Filed(copies, made, m, 0)
  {
  }

  /** Filing one more copy overwrites the entry of its name. */
  lemma FiledStep<K, V>(copies: seq<K>, made: seq<V>, m: map<K, V>, i: nat)
    requires |made| == |copies| && i < |copies|
    requires Filed(copies, made, m, i)
    ensures Filed(copies, made, m[copies[i] := made[i]], i + 1)
  {
    assert copies[..i + 1] == copies[..i] + [copies[i]];
    forall j | 0 <= j < i + 1 && LastCopy(copies, j, i + 1)
      ensures m[copies[i] := made[i]][copies[j]] == made[j]
    {
      if j < i {
        assert copies[i] != copies[j];
        assert LastCopy(copies, j, i);
      }
    }
  }

  /** Once every copy is filed, the keys are exactly the copies' names. */
  lemma FiledAll<K, V>(copies: seq<K>, made: seq<V>, m: map<K, V>)
    requires |made| == |copies| && Filed(copies, made, m, |copies|)
    ensures forall j | 0 <= j < |copies| :: copies[j] in m
    ensures forall k | k in m :: k in copies
    ensures forall j | 0 <= j < |copies| && LastCopy(copies, j, |copies|) :: m[copies[j]] == made[j]
  {
    assert copies[..|copies|] == copies;
  }

  /** The names of the copies, in selection order. */
  function CopyNames(keys: seq<string>, sel: seq<nat>, copyName: (string, nat) -> string): (r: seq<string>)
    requires forall i | 0 <= i < |sel| :: sel[i] < |keys|
    ensures |r| == |sel| && forall i | 0 <= i < |sel| :: r[i] == copyName(keys[sel[i]], i)
  {
    seq(|sel|, i requires 0 <= i < |sel| => copyName(keys[sel[i]], i))
  }

  /** `xInst.Copy(...)`: the same kind of instance under the copy's name. */
  function CopyAs(inst: Inst, newName: string): (c: Inst)
    ensures c.name == newName && c.ObjectInstance? == inst.ObjectInstance?
  {
    match inst
    case ObjectInstance(_) => ObjectInstance(newName)
    case CollectionInstance(_, types) => CollectionInstance(newName, types)
  }

  /** The name `AddObject` files an object under: `_sName`, else the
      object's name. */
  function EntryName(sName: Option<string>, objName: Option<string>): string
    requires sName.Some? || objName.Some?
  {
    if sName.Some? then sName.value else objName.value
  }

  lemma {:induction false} DistinctSeqCard(keys: seq<string>)
    requires Distinct(keys)
    ensures |set k | k in keys| == |keys|
  {
    if |keys| > 0 {
      var last := keys[|keys| - 1];
      var init := keys[..|keys| - 1];
      assert Distinct(init);
      DistinctSeqCard(init);
      assert (set k | k in keys) == (set k | k in init) + {last};
      assert last !in init;
    }
  }

  lemma KeysCount(keys: seq<string>, elements: map<string, Inst>)
    requires Distinct(keys)
    requires forall k | k in elements :: k in keys
    requires forall i | 0 <= i < |keys| :: keys[i] in elements
    ensures |elements| == |keys|
  {
    DistinctSeqCard(keys);
    assert elements.Keys == set k | k in keys;
  }

  // ---------------------------------------------------------------------
  // CreateRandomInstances

  /** The k-th name tried for the new parent collection: `_sName`, then
      `"_sName 1"`, `"_sName 2"`, ... */

  /** No two consecutive entries are equal. */
  predicate NoRepeats(sel: seq<nat>) {
    forall i | 0 < i < |sel| :: sel[i] != sel[i - 1]
  }

  /** Draw t of `random.randrange(0, iElCnt)`: `draws[t]` reduced into range. */
  function DrawIndex(draws: seq<nat>, t: nat, elCnt: nat): (r: nat)
    requires t < |draws| && elCnt > 0
    ensures r < elCnt
  {
    draws[t] % elCnt
  }

  /** The selection of `lSelIdx`: a first draw, then for each further
      instance draws until one differs from the previous choice (any draw
      when there is a single element). The host's unbounded `while True`
      reads from the finite draw sequence; running out of draws is an
      error. */
  method SelectIndices(count: nat, elCnt: nat, draws: seq<nat>) returns (r: Result<seq<nat>>, used: nat)
    requires count > 0
    ensures used <= |draws|
    ensures elCnt == 0 ==> r.Err?
    ensures r.Ok? ==> |r.value| == count && forall i | 0 <= i < count :: r.value[i] < elCnt
    ensures r.Ok? && elCnt > 1 ==> NoRepeats(r.value)
    ensures r.Ok? ==> |draws| > 0 && r.value[0] == DrawIndex(draws, 0, elCnt)
    ensures elCnt == 1 && count <= |draws| ==> r.Ok? && used == count
  {
    if elCnt == 0 {
      return Err("empty range for randrange()"), 0;
    }
    if |draws| == 0 {
      return Err("random draws exhausted"), 0;
    }
    var sel: seq<nat> := [DrawIndex(draws, 0, elCnt)];
    used := 1;
    for i := 0 to count - 1
      invariant |sel| == i + 1 && used <= |draws| && used >= |sel|
      invariant elCnt == 1 ==> used == |sel|
      invariant forall j | 0 <= j < |sel| :: sel[j] < elCnt
      invariant elCnt > 1 ==> NoRepeats(sel)
      invariant sel[0] == DrawIndex(draws, 0, elCnt)
    {
      var found := false;
      var idx: nat := 0;
      while !found
        invariant used <= |draws| && idx < elCnt
        invariant found ==> (idx != sel[i] || elCnt == 1)
        invariant used >= |sel| + (if found then 1 else 0)
        invariant elCnt == 1 ==> used == |sel| + (if found then 1 else 0)
        decreases |draws| - used, if found then 0 else 1
      {
        if used == |draws| {
          return Err("random draws exhausted"), used;
        }
        idx := DrawIndex(draws, used, elCnt);
        used := used + 1;
        found := idx != sel[i] || elCnt == 1;
      }
      sel := sel + [idx];
    }
    r := Ok(sel);
  }
}
