/** The rigid-body parameter mirror `CRigidBodyObjectPars`
    (cls_rigidbody_object_pars.py): enum-valued settings with
    case-insensitive string views, plain physical settings, and the 20
    collision collections as a boolean list with an index-list view. */
module RigidBody {
  import opened Wrappers
  import opened Strings

  datatype BodyType = Active | Passive
  datatype CollisionShape = ConvexHull | Mesh | Sphere
  datatype MeshSource = Base | Deform | Final

  /** `_iCollisionCollectionCount`. */
  const CollectionCount: nat := 20

  /** A Python value handed to a setter that expects a list. */
  datatype ListArg<T> = AList(items: seq<T>) | NotAList

  /** A list element handed to the `lCollisionCollections` setter. */
  datatype Element = BoolValue(b: bool) | NotBool

  // ---------------------------------------------------------------------
  // String views of the enums

  function TypeName(e: BodyType): string {
    match e
    case Active => "ACTIVE"
    case Passive => "PASSIVE"
  }

  function ShapeName(e: CollisionShape): string {
    match e
    case ConvexHull => "CONVEX_HULL"
    case Mesh => "MESH"
    case Sphere => "SPHERE"
  }

  function SourceName(e: MeshSource): string {
    match e
    case Base => "BASE"
    case Deform => "DEFORM"
    case Final => "FINAL"
  }

  /** The branch chain of the `sType` setter, on the upper-cased input. */
  function ParseType(s: string): (r: Option<BodyType>)
    ensures forall e: BodyType :: r == Some(e) <==> TypeName(e) == Upper(s)
  {
    var u := Upper(s);
    if u == "ACTIVE" then Some(Active)
    else if u == "PASSIVE" then Some(Passive)
    else None
  }

  function ParseShape(s: string): (r: Option<CollisionShape>)
    ensures forall e: CollisionShape :: r == Some(e) <==> ShapeName(e) == Upper(s)
  {
    var u := Upper(s);
    if u == "CONVEX_HULL" then Some(ConvexHull)
    else if u == "MESH" then Some(Mesh)
    else if u == "SPHERE" then Some(Sphere)
    else None
  }

  function ParseSource(s: string): (r: Option<MeshSource>)
    ensures forall e: MeshSource :: r == Some(e) <==> SourceName(e) == Upper(s)
  {
    var u := Upper(s);
    if u == "BASE" then Some(Base)
    else if u == "DEFORM" then Some(Deform)
    else if u == "FINAL" then Some(Final)
    else None
  }

  /** Reading a value back and writing it, in upper or lower case, gives
      the same enum. */
  lemma TypeRoundTrip(e: BodyType)
    ensures ParseType(TypeName(e)) == Some(e)
    ensures ParseType(Lower(TypeName(e))) == Some(e)
  {
    UpperOfLower(TypeName(e));
    assert Upper(TypeName(e)) == TypeName(e);
  }

  lemma ShapeRoundTrip(e: CollisionShape)
    ensures ParseShape(ShapeName(e)) == Some(e)
    ensures ParseShape(Lower(ShapeName(e))) == Some(e)
  {
    UpperOfLower(ShapeName(e));
    assert Upper(ShapeName(e)) == ShapeName(e);
  }

  lemma SourceRoundTrip(e: MeshSource)
    ensures ParseSource(SourceName(e)) == Some(e)
    ensures ParseSource(Lower(SourceName(e))) == Some(e)
  {
    UpperOfLower(SourceName(e));
    assert Upper(SourceName(e)) == SourceName(e);
  }

  // ---------------------------------------------------------------------
  // Collision collections as values

  /** `[i for i, x in enumerate(l) if x is True]`. */
  function TrueIndices(s: seq<bool>): (r: seq<nat>)
    ensures forall k | 0 <= k < |r| :: r[k] < |s| && s[r[k]]
    decreases |s|
  {
    if |s| == 0 then []
    else TrueIndices(s[..|s| - 1]) + (if s[|s| - 1] then [|s| - 1] else [])
  }

  predicate StrictlyIncreasing(r: seq<nat>) {
    forall j, k | 0 <= j < k < |r| :: r[j] < r[k]
  }

  /** The index view lists exactly the enabled collections, in increasing order. */
  lemma {:induction false} TrueIndicesExact(s: seq<bool>)
    ensures StrictlyIncreasing(TrueIndices(s))
    ensures forall i | 0 <= i < |s| :: s[i] <==> i in TrueIndices(s)
    decreases |s|
  {
    if |s| > 0 {
      var p := s[..|s| - 1];
      TrueIndicesExact(p);
      assert forall i | 0 <= i < |p| :: s[i] == p[i];
    }
  }

  /** `[x in lValue for x in range(20)]`. */
  function Membership(values: seq<int>): (r: seq<bool>)
    ensures |r| == CollectionCount
    ensures forall i | 0 <= i < CollectionCount :: r[i] <==> i in values
  {
    seq(CollectionCount, i requires 0 <= i < CollectionCount => i in values)
  }

  /** Setting the index view and reading it back gives the distinct input
      values below 20, sorted. */
  lemma IndicesRoundTrip(values: seq<int>)
    ensures StrictlyIncreasing(TrueIndices(Membership(values)))
    ensures forall i: int :: i in TrueIndices(Membership(values)) <==> 0 <= i < CollectionCount && i in values
  {
    TrueIndicesExact(Membership(values));
  }

  /** The default list: only collection 0 enabled. */
  function DefaultCollections(): (r: seq<bool>)
    ensures |r| == CollectionCount
  {
    seq(CollectionCount, i requires 0 <= i < CollectionCount => i == 0)
  }

  lemma {:induction false} NoneTrue(s: seq<bool>)
    requires forall j | 0 <= j < |s| :: !s[j]
    ensures TrueIndices(s) == []
    decreases |s|
  {
    if |s| > 0 {
      NoneTrue(s[..|s| - 1]);
    }
  }

  /** A list with exactly one enabled collection has that one as its index view. */
  lemma {:induction false} OnlyTrue(s: seq<bool>, i: nat)
    requires i < |s| && forall j | 0 <= j < |s| :: s[j] <==> j == i
    ensures TrueIndices(s) == [i]
    decreases |s|
  {
    var p := s[..|s| - 1];
    if i == |s| - 1 {
      NoneTrue(p);
    } else {
      OnlyTrue(p, i);
    }
  }

  lemma DefaultIndices()
    ensures TrueIndices(DefaultCollections()) == [0]
  {
    OnlyTrue(DefaultCollections(), 0);
  }

  /** The index of the first non-boolean element, or the length. */
  function FirstNonBool(items: seq<Element>): (f: nat)
    ensures f <= |items|
    ensures forall k | 0 <= k < f :: items[k].BoolValue?
    ensures f < |items| ==> items[f].NotBool?
    decreases |items|
  {
    if |items| == 0 then 0
    else if items[0].NotBool? then 0
    else 1 + FirstNonBool(items[1..])
  }

  /** Past a prefix of booleans, the first non-boolean is where the next
      element is not one. */
  lemma {:induction false} FirstNonBoolFrom(items: seq<Element>, i: nat)
    requires i <= |items| && forall k | 0 <= k < i :: items[k].BoolValue?
    ensures FirstNonBool(items) >= i
    ensures (i == |items| || items[i].NotBool?) ==> FirstNonBool(items) == i
    decreases i
  {
    if i > 0 {
      FirstNonBoolFrom(items[1..], i - 1);
    }
  }

  /** How many entries the `lCollisionCollections` setter writes before it
      stops: it writes up to the first non-boolean and at most 20. */
  function WrittenCount(items: seq<Element>): (w: nat)
    ensures w <= CollectionCount && w <= |items|
  {
    if FirstNonBool(items) < CollectionCount then FirstNonBool(items) else CollectionCount
  }

  /** The setter's outcome: the element check comes before the index write,
      so a 21st element that is not a boolean is reported as such. */
  function CollectionsOutcome(items: seq<Element>): (r: Outcome)
    ensures r.Pass? <==> |items| <= CollectionCount && forall k | 0 <= k < |items| :: items[k].BoolValue?
  {
    var f := FirstNonBool(items);
    if f < |items| && f <= CollectionCount then
      Fail("Value at index '" + NatToString(f) + "' in collision collection list is not a boolean")
    else if |items| > CollectionCount then
      Fail("list assignment index out of range")
    else Pass
  }

  /** The collection flags after the setter: the written prefix takes the
      given values, the rest keeps the old ones. */
  function Overwritten(old_: seq<bool>, items: seq<Element>): (r: seq<bool>)
    requires |old_| == CollectionCount
    ensures |r| == CollectionCount
    ensures forall k | 0 <= k < CollectionCount ::
              r[k] == if k < WrittenCount(items) then items[k].b else old_[k]
  {
    var w := WrittenCount(items);
    seq(CollectionCount, k requires 0 <= k < CollectionCount => if k < w then items[k].b else old_[k])
  }

  /** The loop of the `lCollisionCollections` setter on the flag array. */
  method WriteCollections(a: array<bool>, items: seq<Element>) returns (r: Outcome)
    requires a.Length == CollectionCount
    modifies a
    ensures r == CollectionsOutcome(items) && a[..] == Overwritten(old(a[..]), items)
  {
    ghost var before := a[..];
    var i := 0;
    while i < |items|
      invariant 0 <= i <= |items| && i <= CollectionCount
      invariant forall k | 0 <= k < i :: items[k].BoolValue?
      invariant forall k | 0 <= k < CollectionCount :: a[k] == if k < i then items[k].b else before[k]
    {
      FirstNonBoolFrom(items, i);
      if items[i].NotBool? {
        assert a[..] == Overwritten(before, items);
        return Fail("Value at index '" + NatToString(i) + "' in collision collection list is not a boolean");
      }
      if i >= a.Length {
        assert a[..] == Overwritten(before, items);
        return Fail("list assignment index out of range");
      }
      a[i] := items[i].b;
      i := i + 1;
    }
    FirstNonBoolFrom(items, i);
    assert a[..] == Overwritten(before, items);
    r := Pass;
  }

  // ---------------------------------------------------------------------
  // The object

  class CRigidBodyObjectPars {
    var eType: BodyType
    var eCollisionShape: CollisionShape
    var eMeshSource: MeshSource
    var fMass: real
    var bEnabled: bool
    var bKinematic: bool
    var bUseDeform: bool
    var fFriction: real
    var fRestitution: real
    var bUseMargin: bool
    var fCollisionMargin: real
    var fLinearDamping: real
    var fAngularDamping: real
    /** `_lCollisionCollections`. */
    var collections: array<bool>

    ghost predicate Valid()
      reads this
    {
      collections.Length == CollectionCount
    }

    /** The settings no collection or enum setter touches. */
    function Plain(): (real, bool, bool, bool, real, real, bool, real, real, real)
      reads this
    {
      (fMass, bEnabled, bKinematic, bUseDeform, fFriction, fRestitution, bUseMargin,
       fCollisionMargin, fLinearDamping, fAngularDamping)
    }

    /** The defaults of `__init__` without an object to read from. */
    constructor ()
      ensures Valid() && fresh(collections)
      ensures eType == Active && eCollisionShape == ConvexHull && eMeshSource == Deform
      ensures Plain() == (1.0, true, false, false, 0.5, 0.0, false, 0.04, 0.04, 0.1)
      ensures collections[..] == DefaultCollections()
    {
      eType := Active;
      fMass := 1.0;
      bEnabled := true;
      bKinematic := false;
      eCollisionShape := ConvexHull;
      eMeshSource := Deform;
      bUseDeform := false;
      fFriction := 0.5;
      fRestitution := 0.0;
      bUseMargin := false;
      fCollisionMargin := 0.04;
      fLinearDamping := 0.04;
      fAngularDamping := 0.1;
      collections := new bool[CollectionCount](i => i == 0);
    }

    /** The `sType` getter. */
    function SType(): (s: string)
      reads this
      ensures ParseType(s) == Some(eType)
    {
      TypeRoundTrip(eType);
      TypeName(eType)
    }

    function SCollisionShape(): (s: string)
      reads this
      ensures ParseShape(s) == Some(eCollisionShape)
    {
      ShapeRoundTrip(eCollisionShape);
      ShapeName(eCollisionShape)
    }

    function SMeshSource(): (s: string)
      reads this
      ensures ParseSource(s) == Some(eMeshSource)
    {
      SourceRoundTrip(eMeshSource);
      SourceName(eMeshSource)
    }

    /** The `sType` setter: an unsupported name raises and leaves the type as it was. */
    method SetType(s: string) returns (r: Outcome)
      modifies this
      ensures r.Pass? <==> ParseType(s).Some?
      ensures r.Pass? ==> eType == ParseType(s).value && SType() == Upper(s)
      ensures r.Fail? ==> eType == old(eType) && r.msg == "Unsupported rigid body type '" + Upper(s) + "'"
      ensures eCollisionShape == old(eCollisionShape) && eMeshSource == old(eMeshSource)
      ensures Plain() == old(Plain()) && collections == old(collections)
    {
      var p := ParseType(s);
      if p.None? {
        return Fail("Unsupported rigid body type '" + Upper(s) + "'");
      }
      eType := p.value;
      r := Pass;
    }

    method SetCollisionShape(s: string) returns (r: Outcome)
      modifies this
      ensures r.Pass? <==> ParseShape(s).Some?
      ensures r.Pass? ==> eCollisionShape == ParseShape(s).value && SCollisionShape() == Upper(s)
      ensures r.Fail? ==> eCollisionShape == old(eCollisionShape) && r.msg == "Unsupported collision shape '" + Upper(s) + "'"
      ensures eType == old(eType) && eMeshSource == old(eMeshSource)
      ensures Plain() == old(Plain()) && collections == old(collections)
    {
      var p := ParseShape(s);
      if p.None? {
        return Fail("Unsupported collision shape '" + Upper(s) + "'");
      }
      eCollisionShape := p.value;
      r := Pass;
    }

    method SetMeshSource(s: string) returns (r: Outcome)
      modifies this
      ensures r.Pass? <==> ParseSource(s).Some?
      ensures r.Pass? ==> eMeshSource == ParseSource(s).value && SMeshSource() == Upper(s)
      ensures r.Fail? ==> eMeshSource == old(eMeshSource) && r.msg == "Unsupported mesh source '" + Upper(s) + "'"
      ensures eType == old(eType) && eCollisionShape == old(eCollisionShape)
      ensures Plain() == old(Plain()) && collections == old(collections)
    {
      var p := ParseSource(s);
      if p.None? {
        return Fail("Unsupported mesh source '" + Upper(s) + "'");
      }
      eMeshSource := p.value;
      r := Pass;
    }

    /** The `lCollisionCollections` getter: a copy, so changing the
        returned list leaves the object alone. */
    method GetCollisionCollections() returns (r: array<bool>)
      requires Valid()
      ensures fresh(r) && r[..] == collections[..]
    {
      r := new bool[collections.Length](i requires 0 <= i < collections.Length reads this, collections => collections[i]);
    }

    /** The `lCollisionCollectionIndices` getter. */
    function CollisionCollectionIndices(): (r: seq<nat>)
      reads this, collections
      ensures forall k | 0 <= k < |r| :: r[k] < collections.Length && collections[r[k]]
    {
      TrueIndices(collections[..])
    }

    /** The `lCollisionCollections` setter: writes element by element,
        raising at the first non-boolean or at index 20, with the entries
        before that already written. */
    method SetCollisionCollections(arg: ListArg<Element>) returns (r: Outcome)
      requires Valid()
      modifies collections
      ensures arg.NotAList? ==> r == Fail("Given collsion collection value is not a list") && collections[..] == old(collections[..])
      ensures arg.AList? ==> r == CollectionsOutcome(arg.items) && collections[..] == Overwritten(old(collections[..]), arg.items)
    {
      if arg.NotAList? {
        return Fail("Given collsion collection value is not a list");
      }
      r := WriteCollections(collections, arg.items);
    }

    /** The `lCollisionCollectionIndices` setter. */
    method SetCollisionCollectionIndices(arg: ListArg<int>) returns (r: Outcome)
      requires Valid()
      modifies collections
      ensures arg.NotAList? ==> r == Fail("Given collision collection value is not a list") && collections[..] == old(collections[..])
      ensures arg.AList? ==> r.Pass? && collections[..] == Membership(arg.items)
    {
      if arg.NotAList? {
        return Fail("Given collision collection value is not a list");
      }
      for x := 0 to CollectionCount
        invariant forall k | 0 <= k < x :: collections[k] == (k in arg.items)
      {
        collections[x] := x in arg.items;
      }
      r := Pass;
    }
  }
}
