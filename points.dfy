/** Random placement of points and instances on the surfaces of mesh objects
    (points.py): the argument checks, the accept/reject loop over candidate
    polygons (or over a bounded number of attempts in the uniform variant),
    and the mapping of accepted positions to instance offsets. */
module Points {
  import opened Wrappers
  import opened Vectors
  import BoundBox
  import Objects
  import Polygons

  /** `xInstanceOrigin` as passed: a string, a list, None or something else. */
  datatype OriginArg = OriginString(s: string) | OriginList(rel: seq<real>) | OriginNone | OriginOther

  /** A checked instance origin: the instance's own origin ("ORIG") or the
      point of its bounding box given relative to the box (`GetDelta`). */
  datatype Origin = ObjectOrigin | BoxPoint(rel: seq<real>)

  /** One element of an instance container: its name, bounding box
      (`xBoundBox`) and origin (`vOrigin`). */
  datatype Placed = Placed(name: string, box: BoundBox.Box, origin: Vec3)

  /** The keyword arguments of `GetRndPointsOnSurface`. `maxDist` None is
      `math.inf`; `hasCamWorld` says whether `matCamWorld` is given; the FoV
      and its border are pairs (degrees); `lCamDistRange` only enters the
      camera test `fovOK` of the oracles. */
  datatype Args = Args(targets: seq<string>, groups: Option<seq<Option<string>>>,
                       pntCnt: Option<int>, minDist: real, maxDist: Option<real>,
                       minAngleSepDeg: real, useFov: bool, fovBorderDeg: (real, real),
                       hasCamWorld: bool, camFovDeg: Option<(real, real)>, maxTrials: int,
                       instances: Option<seq<Placed>>, useBoundBox: bool, origin: OriginArg,
                       obstacles: Option<seq<BoundBox.Box>>)

  /** What the sampling loop works with once the arguments are checked. */
  datatype Config = Config(n: nat, hasDist: bool, minDist: real, maxDist: Option<real>,
                           hasAngle: bool, sepRad: real, useFov: bool, useBoundBox: bool,
                           maxTrials: int, instances: Option<seq<Placed>>, origin: Origin,
                           obstacles: Option<seq<BoundBox.Box>>)

  /** The host computations the loop consults: the random draws (draw t of
      `random.choice` as an index into a list of n items, of
      `random.uniform(0, b)` with bound b, the per-vertex draws of
      `GetRandomPosOnPoly` and of the simplex sampler), the areas of the
      polygons, the camera FoV and distance-range test, the horizontal view
      direction in camera space and `Vector.angle`. */
  datatype Oracles = Oracles(choice: (nat, nat) -> nat, uniform: (nat, real) -> real, jitter: nat -> (nat -> real),
                             simplex: nat -> (nat -> real), areaOf: (nat, nat) -> real,
                             fovOK: Vec3 -> bool, horizDir: Vec3 -> Vec3, angle: (Vec3, Vec3) -> real)

  /** The accepted positions per point index, the moved boxes of the
      accepted instances and the view directions of the accepted points. */
  datatype Placement = Placement(pnts: map<nat, Option<Vec3>>, boxes: map<nat, BoundBox.Box>, dirs: seq<Vec3>)

  /** The result: keyed by point index, or by instance name with each value
      the offset from the instance's origin. */
  datatype Out = ByIndex(points: map<nat, Option<Vec3>>) | ByName(offsets: map<string, Option<Vec3>>)

  const PI: real := 3.141592653589793

  function Radians(deg: real): real { deg * PI / 180.0 }

  predicate DistinctNames(ps: seq<Placed>) {
    forall j, k | 0 <= j < k < |ps| :: ps[j].name != ps[k].name
  }

  predicate ConfigValid(c: Config) {
    && (c.useBoundBox ==> c.instances.Some?)
    && (c.origin.BoxPoint? ==> |c.origin.rel| == 3)
    && (c.instances.Some? ==> DistinctNames(c.instances.value))
  }

  // ---------------------------------------------------------------------
  // Argument checks

  function OriginOf(a: OriginArg): (r: Result<Origin>)
    ensures r.Ok? <==> (a.OriginString? && a.s == "ORIG") || (a.OriginList? && |a.rel| == 3)
    ensures r.Ok? && a.OriginString? ==> r.value == ObjectOrigin
    ensures r.Ok? && a.OriginList? ==> r.value == BoxPoint(a.rel)
  {
    match a
    case OriginString(s) =>
      if s != "ORIG" then Err("Instance origin string must be 'ORIG', but '" + s + "' was given") else Ok(ObjectOrigin)
    case OriginList(rel) =>
      if |rel| != 3 then Err("Instance origin list must be of length three") else Ok(BoxPoint(rel))
    case _ => Err("Invalid instance origin argument")
  }

  predicate HasDistConstraint(a: Args) { a.minDist > 0.0000001 || a.maxDist.Some? }

  predicate HasAngleConstraint(a: Args) { a.minAngleSepDeg > 0.000001 }

  /** The checks before the polygon table is built: a point count or
      instances, instances for bounding boxes, and a valid origin (so the
      default None is always refused). */
  function Configure(a: Args): (r: Result<Config>)
    requires a.instances.Some? ==> DistinctNames(a.instances.value)
    ensures r.Err? <==> (a.pntCnt.None? && a.instances.None?) || (a.useBoundBox && a.instances.None?) || OriginOf(a.origin).Err?
    ensures r.Ok? ==> ConfigValid(r.value)
    ensures r.Ok? && a.pntCnt.Some? ==> r.value.n == (if a.pntCnt.value < 0 then 0 else a.pntCnt.value)
    ensures r.Ok? && a.pntCnt.None? ==> r.value.n == |a.instances.value|
    ensures r.Ok? ==> r.value.instances == a.instances && r.value.useBoundBox == a.useBoundBox && r.value.obstacles == a.obstacles
  {
    if a.pntCnt.None? && a.instances.None? then Err("Neither point count nor list of objects is given")
    else if a.useBoundBox && a.instances.None? then Err("If 'bUseBoundBox' is true, need to specify list of objects")
    else
      var cnt := if a.pntCnt.Some? then a.pntCnt.value else |a.instances.value|;
      match OriginOf(a.origin)
      case Err(m) => Err(m)
      case Ok(org) =>
        Ok(Config(if cnt < 0 then 0 else cnt, HasDistConstraint(a), a.minDist, a.maxDist,
                  HasAngleConstraint(a), Radians(Abs(a.minAngleSepDeg)), a.useFov, a.useBoundBox,
                  a.maxTrials, a.instances, org, a.obstacles))
  }

  /** The camera checks after the table is built. The FoV entries are read
      whenever an angle or FoV constraint is active, so an angle constraint
      without a FoV fails as well (subscripting None). */
  function CheckCamera(a: Args): (r: Outcome)
    ensures !HasAngleConstraint(a) && !a.useFov ==> r.Pass?
    ensures (HasAngleConstraint(a) || a.useFov) && !a.hasCamWorld ==> r.Fail?
    ensures (HasAngleConstraint(a) || a.useFov) && a.camFovDeg.None? ==> r.Fail?
    ensures (HasAngleConstraint(a) || a.useFov) && a.camFovDeg.Some? && a.hasCamWorld ==>
              (r.Pass? <==> Abs(a.camFovDeg.value.0) / 2.0 - a.fovBorderDeg.0 > 0.1 &&
                            Abs(a.camFovDeg.value.1) / 2.0 - a.fovBorderDeg.1 > 0.1)
  {
    if !(HasAngleConstraint(a) || a.useFov) then Pass
    else if !a.hasCamWorld then Fail("No camera world matrix given")
    else if a.useFov && a.camFovDeg.None? then Fail("No horizontal camera field of view given")
    else if a.camFovDeg.None? then Fail("'NoneType' object is not subscriptable")
    else if Abs(a.camFovDeg.value.0) / 2.0 - a.fovBorderDeg.0 <= 0.1 then Fail("Horizontal camera FoV border is too large")
    else if Abs(a.camFovDeg.value.1) / 2.0 - a.fovBorderDeg.1 <= 0.1 then Fail("Vertical camera FoV border is too large")
    else Pass
  }

  /** The vertex group for target k: entry k of the list when there is one. */
  function GroupFor(groups: Option<seq<Option<string>>>, k: nat): Option<string> {
    if groups.Some? && k < |groups.value| then groups.value[k] else None
  }

  /** The loop adding every target object to a fresh polygon table; the
      first failing `AddFromObject` ends it. */
  method BuildTable(targets: seq<string>, groups: Option<seq<Option<string>>>,
                    scene: map<string, Objects.Obj>, worldOf: string -> (Vec3 -> Vec3))
    returns (polys: Polygons.CPolygons, r: Outcome)
    requires forall n | n in scene :: Polygons.MeshWellFormed(scene[n].mesh)
    ensures fresh(polys) && polys.Valid() && polys.distribution.None?
    ensures r.Pass? ==> MeshesIn(scene, targets)
  {
    polys := new Polygons.CPolygons();
    for k := 0 to |targets|
      invariant fresh(polys) && polys.Valid() && polys.distribution.None?
      invariant MeshesIn(scene, targets[..k])
    {
      var added := polys.AddFromObject(targets[k], GroupFor(groups, k), scene, worldOf(targets[k]));
      if added.Err? {
        return polys, Fail(added.msg);
      }
      MeshesInStep(scene, targets, k);
    }
    assert targets[..|targets|] == targets;
    r := Pass;
  }

  /** Every name in ts names a mesh object of the scene. */
  predicate MeshesIn(scene: map<string, Objects.Obj>, ts: seq<string>) {
    forall k | 0 <= k < |ts| :: ts[k] in scene && Objects.IsMesh(scene[ts[k]])
  }

  lemma MeshesInStep(scene: map<string, Objects.Obj>, ts: seq<string>, k: nat)
    requires k < |ts| && MeshesIn(scene, ts[..k]) && ts[k] in scene && Objects.IsMesh(scene[ts[k]])
    ensures MeshesIn(scene, ts[..k + 1])
  {
    assert forall j | 0 <= j < k :: ts[..k + 1][j] == ts[..k][j];
  }

  // ---------------------------------------------------------------------
  // The tests on one candidate position

  /** `fMinDist <= |p - q| <= fMaxDist`, compared on squares. */
  predicate WithinDistance(p: Vec3, q: Vec3, minD: real, maxD: Option<real>) {
    var d2 := LengthSq(Sub(p, q));
    && (minD <= 0.0 || d2 >= minD * minD)
    && (maxD.None? || (maxD.value >= 0.0 && d2 <= maxD.value * maxD.value))
  }

  /** `bDistOK`: within range of every accepted earlier point. */
  predicate DistanceOK(c: Config, p: Vec3, pnts: map<nat, Option<Vec3>>) {
    forall j | j in pnts && pnts[j].Some? :: WithinDistance(p, pnts[j].value, c.minDist, c.maxDist)
  }

  /** `bAngleOK`: the horizontal view direction is far enough from every
      earlier accepted one. */
  predicate AngleOK(c: Config, o: Oracles, p: Vec3, dirs: seq<Vec3>) {
    forall k | 0 <= k < |dirs| :: o.angle(o.horizDir(p), dirs[k]) >= c.sepRad
  }

  predicate ClearOf(b: BoundBox.Box, boxes: map<nat, BoundBox.Box>) {
    forall j | j in boxes :: !BoundBox.MayIntersect(b, boxes[j])
  }

  predicate ClearOfAll(b: BoundBox.Box, obs: seq<BoundBox.Box>) {
    forall k | 0 <= k < |obs| :: !BoundBox.MayIntersect(b, obs[k])
  }

  /** The shift that brings instance `e` to position p: its box point `rel`
      (`p - GetDelta(rel) - centre`) or its origin (`p - vOrigin`). */
  function PlacementDelta(org: Origin, e: Placed, p: Vec3): Vec3
    requires org.BoxPoint? ==> |org.rel| == 3
  {
    match org
    case BoxPoint(rel) => Sub(Sub(p, BoundBox.DeltaOf(e.box, rel)), e.box.center)
    case ObjectOrigin => Sub(p, e.origin)
  }

  /** A copy of the box of the instance for point i, moved to p; point
      indices past the instance list are an index error. */
  function PlacedBox(c: Config, i: nat, p: Vec3): (r: Result<BoundBox.Box>)
    requires ConfigValid(c) && c.instances.Some?
    ensures r.Ok? <==> i < |c.instances.value|
  {
    if i >= |c.instances.value| then Err("list index out of range")
    else
      var e := c.instances.value[i];
      Ok(BoundBox.Moved(e.box, PlacementDelta(c.origin, e, p)))
  }

  /** The decision for candidate position p of point i, in the order of
      the tests: no constraint at all accepts; an acceptable FoV accepts the
      first point when there are no obstacles (`len(xObstacles)` fails on
      None); otherwise distance, angle, FoV and the box tests must all pass,
      and iterating over missing obstacles fails. */
  function Evaluate(c: Config, o: Oracles, i: nat, p: Vec3, st: Placement): (r: Result<bool>)
    requires ConfigValid(c)
    ensures !c.hasDist && !c.hasAngle && !c.useFov && !c.useBoundBox ==> r == Ok(true)
    ensures c.useFov && !o.fovOK(p) ==> r != Ok(true)
    ensures r.Err? ==> c.obstacles.None? || (c.useBoundBox && i >= |c.instances.value|)
  {
    var fovOK := !c.useFov || o.fovOK(p);
    if !c.hasDist && !c.hasAngle && !c.useFov && !c.useBoundBox then Ok(true)
    else if c.useFov && fovOK && c.obstacles.None? then Err("object of type 'NoneType' has no len()")
    else if c.useFov && fovOK && |c.obstacles.value| == 0 && |st.pnts| == 0 then Ok(true)
    else
      var distOK := !c.hasDist || DistanceOK(c, p, st.pnts);
      var angleOK := !c.hasAngle || AngleOK(c, o, p, st.dirs);
      if !c.useBoundBox then Ok(distOK && angleOK && fovOK)
      else match PlacedBox(c, i, p)
        case Err(m) => Err(m)
        case Ok(b) =>
          if !ClearOf(b, st.boxes) then Ok(false)
          else if c.obstacles.None? then Err("'NoneType' object is not iterable")
          else Ok(distOK && angleOK && fovOK && ClearOfAll(b, c.obstacles.value))
  }

  /** An accepted position meets every active constraint against the
      points and boxes accepted before it. */
  lemma AcceptedMeetsConstraints(c: Config, o: Oracles, i: nat, p: Vec3, st: Placement)
    requires ConfigValid(c) && Evaluate(c, o, i, p, st) == Ok(true)
    requires |st.pnts| == 0 ==> st.boxes == map[] && st.dirs == []
    ensures c.hasDist ==> DistanceOK(c, p, st.pnts)
    ensures c.hasAngle ==> AngleOK(c, o, p, st.dirs)
    ensures c.useFov ==> o.fovOK(p)
    ensures c.useBoundBox ==> c.obstacles.Some? && (PlacedBox(c, i, p).Ok? ==>
              ClearOf(PlacedBox(c, i, p).value, st.boxes) && ClearOfAll(PlacedBox(c, i, p).value, c.obstacles.value))
  {
    var fovOK := !c.useFov || o.fovOK(p);
    if c.useFov && fovOK && c.obstacles.Some? && |c.obstacles.value| == 0 && |st.pnts| == 0 {
      assert st.pnts == map[];
    }
  }

  // ---------------------------------------------------------------------
  // Recording an outcome

  /** What the loop records for point i: the position or None, and for an
      accepted one its moved box (when boxes are used) and view direction
      (when angles are constrained). */
  function Record(c: Config, o: Oracles, i: nat, pos: Option<Vec3>, st: Placement): (r: Result<Placement>)
    requires ConfigValid(c)
    ensures r.Ok? ==> r.value.pnts == st.pnts[i := pos]
  {
    if pos.None? then Ok(st.(pnts := st.pnts[i := None]))
    else
      var p := pos.value;
      var dirs := if c.hasAngle then st.dirs + [o.horizDir(p)] else st.dirs;
      if !c.useBoundBox then Ok(Placement(st.pnts[i := pos], st.boxes, dirs))
      else match PlacedBox(c, i, p)
        case Err(m) => Err(m)
        case Ok(b) => Ok(Placement(st.pnts[i := pos], st.boxes[i := b], dirs))
  }

  /** One entry per point index below i; view directions only when angles
      are constrained, at most one per point. */
  ghost predicate KeysOK(c: Config, i: nat, st: Placement) {
    && (forall j: nat :: j in st.pnts <==> j < i)
    && |st.dirs| <= |st.pnts| && (!c.hasAngle ==> st.dirs == [])
  }

  /** A box exactly for each accepted instance, moved to its position, the
      boxes pairwise apart and each clear of the obstacles. */
  predicate BoxesOK(c: Config, st: Placement)
    requires ConfigValid(c)
  {
    && (forall j | j in st.boxes :: j in st.pnts && st.pnts[j].Some? && c.instances.Some? &&
                                   PlacedBox(c, j, st.pnts[j].value) == Ok(st.boxes[j]))
    && (c.useBoundBox ==> forall j | j in st.pnts && st.pnts[j].Some? :: j in st.boxes)
    && BoxesApart(st.boxes)
    && (st.boxes != map[] ==> c.obstacles.Some? && BoxesClear(st.boxes, c.obstacles.value))
  }

  predicate BoxesApart(boxes: map<nat, BoundBox.Box>) {
    forall j, k | j in boxes && k in boxes && j < k :: !BoundBox.MayIntersect(boxes[k], boxes[j])
  }

  predicate BoxesClear(boxes: map<nat, BoundBox.Box>, obs: seq<BoundBox.Box>) {
    forall j | j in boxes :: ClearOfAll(boxes[j], obs)
  }

  lemma BoxesApartStep(boxes: map<nat, BoundBox.Box>, i: nat, b: BoundBox.Box)
    requires BoxesApart(boxes) && (forall j | j in boxes :: j < i) && ClearOf(b, boxes)
    ensures BoxesApart(boxes[i := b])
  {
    var boxes' := boxes[i := b];
    forall j, k | j in boxes' && k in boxes' && j < k ensures !BoundBox.MayIntersect(boxes'[k], boxes'[j]) {
      if k == i {
        assert !BoundBox.MayIntersect(b, boxes[j]);
      } else {
        assert k in boxes && k < i && boxes'[k] == boxes[k] && boxes'[j] == boxes[j];
      }
    }
  }

  lemma BoxesClearStep(boxes: map<nat, BoundBox.Box>, obs: seq<BoundBox.Box>, i: nat, b: BoundBox.Box)
    requires BoxesClear(boxes, obs) && ClearOfAll(b, obs)
    ensures BoxesClear(boxes[i := b], obs)
  {
  }

  /** Every pair of accepted points within the distance range. */
  predicate DistancesOK(c: Config, st: Placement) {
    c.hasDist ==> forall j, k | j in st.pnts && k in st.pnts && j < k && st.pnts[j].Some? && st.pnts[k].Some? ::
                    WithinDistance(st.pnts[k].value, st.pnts[j].value, c.minDist, c.maxDist)
  }

  /** Every pair of recorded view directions separated by the minimum angle,
      and every accepted point inside the FoV. */
  predicate ViewsOK(c: Config, o: Oracles, st: Placement) {
    && (c.hasAngle ==> forall a, b | 0 <= a < b < |st.dirs| :: o.angle(st.dirs[b], st.dirs[a]) >= c.sepRad)
    && (c.useFov ==> forall j | j in st.pnts && st.pnts[j].Some? :: o.fovOK(st.pnts[j].value))
  }

  /** What holds after the first i points have been decided. */
  ghost predicate PlacementOK(c: Config, o: Oracles, i: nat, st: Placement)
    requires ConfigValid(c)
  {
    KeysOK(c, i, st) && BoxesOK(c, st) && DistancesOK(c, st) && ViewsOK(c, o, st)
  }

  lemma EmptyPlacementOK(c: Config, o: Oracles)
    requires ConfigValid(c)
    ensures PlacementOK(c, o, 0, Placement(map[], map[], []))
  {
  }

  /** Recording a missing position for point i keeps the invariant. */
  lemma RecordNoneKeepsOK(c: Config, o: Oracles, i: nat, st: Placement)
    requires ConfigValid(c) && PlacementOK(c, o, i, st)
    ensures Record(c, o, i, None, st).Ok? && PlacementOK(c, o, i + 1, Record(c, o, i, None, st).value)
  {
    assert i !in st.pnts;
    var st' := st.(pnts := st.pnts[i := None]);
    assert Record(c, o, i, None, st) == Ok(st');
    assert KeysOK(c, i + 1, st');
    NoneBoxesStep(c, i, st, st');
    NoneDistancesStep(c, i, st, st');
    NoneViewsStep(c, o, i, st, st');
  }

  lemma NoneViewsStep(c: Config, o: Oracles, i: nat, st: Placement, st': Placement)
    requires ViewsOK(c, o, st) && i !in st.pnts
    requires st' == st.(pnts := st.pnts[i := None])
    ensures ViewsOK(c, o, st')
  {
  }

  lemma NoneBoxesStep(c: Config, i: nat, st: Placement, st': Placement)
    requires ConfigValid(c) && BoxesOK(c, st) && i !in st.pnts
    requires st' == st.(pnts := st.pnts[i := None])
    ensures BoxesOK(c, st')
  {
    forall j | j in st'.boxes ensures j in st'.pnts && st'.pnts[j].Some? && st'.pnts[j] == st.pnts[j] {
      assert j in st.pnts;
    }
  }

  lemma NoneDistancesStep(c: Config, i: nat, st: Placement, st': Placement)
    requires DistancesOK(c, st) && i !in st.pnts
    requires st' == st.(pnts := st.pnts[i := None])
    ensures DistancesOK(c, st')
  {
  }

  /** Recording an accepted position for point i keeps the invariant. */
  lemma RecordSomeKeepsOK(c: Config, o: Oracles, i: nat, p: Vec3, st: Placement)
    requires ConfigValid(c) && PlacementOK(c, o, i, st)
    requires Evaluate(c, o, i, p, st) == Ok(true)
    requires Record(c, o, i, Some(p), st).Ok?
    ensures PlacementOK(c, o, i + 1, Record(c, o, i, Some(p), st).value)
  {
    var st' := Record(c, o, i, Some(p), st).value;
    assert i !in st.pnts;
    if |st.pnts| == 0 {
      assert st.pnts == map[];
      assert st.boxes.Keys == {};
    }
    AcceptedMeetsConstraints(c, o, i, p, st);
    KeysStep(c, o, i, p, st, st');
    BoxesStep(c, i, p, st, st');
    DistancesStep(c, i, p, st, st');
    ViewsStep(c, o, i, p, st, st');
  }

  lemma KeysStep(c: Config, o: Oracles, i: nat, p: Vec3, st: Placement, st': Placement)
    requires ConfigValid(c) && KeysOK(c, i, st) && Record(c, o, i, Some(p), st) == Ok(st')
    ensures KeysOK(c, i + 1, st')
  {
    assert i !in st.pnts;
  }

  lemma BoxesStep(c: Config, i: nat, p: Vec3, st: Placement, st': Placement)
    requires ConfigValid(c) && BoxesOK(c, st) && (forall j: nat :: j in st.pnts ==> j < i)
    requires st'.pnts == st.pnts[i := Some(p)]
    requires !c.useBoundBox ==> st'.boxes == st.boxes
    requires c.useBoundBox ==> PlacedBox(c, i, p).Ok? && st'.boxes == st.boxes[i := PlacedBox(c, i, p).value]
    requires c.useBoundBox ==> c.obstacles.Some? && ClearOf(PlacedBox(c, i, p).value, st.boxes) &&
                               ClearOfAll(PlacedBox(c, i, p).value, c.obstacles.value)
    ensures BoxesOK(c, st')
  {
    if c.useBoundBox {
      var b := PlacedBox(c, i, p).value;
      forall j | j in st'.boxes
        ensures j in st'.pnts && st'.pnts[j].Some? && PlacedBox(c, j, st'.pnts[j].value) == Ok(st'.boxes[j])
      {
        if j != i { assert st'.pnts[j] == st.pnts[j] && st'.boxes[j] == st.boxes[j]; }
      }
      BoxesApartStep(st.boxes, i, b);
      BoxesClearStep(st.boxes, c.obstacles.value, i, b);
    } else {
      forall j | j in st'.boxes
        ensures j in st'.pnts && st'.pnts[j].Some? && PlacedBox(c, j, st'.pnts[j].value) == Ok(st'.boxes[j])
      {
        assert j in st.pnts && st'.pnts[j] == st.pnts[j];
      }
    }
  }

  lemma DistancesStep(c: Config, i: nat, p: Vec3, st: Placement, st': Placement)
    requires DistancesOK(c, st) && (forall j: nat :: j in st.pnts ==> j < i)
    requires st'.pnts == st.pnts[i := Some(p)]
    requires c.hasDist ==> DistanceOK(c, p, st.pnts)
    ensures DistancesOK(c, st')
  {
  }

  lemma ViewsStep(c: Config, o: Oracles, i: nat, p: Vec3, st: Placement, st': Placement)
    requires ConfigValid(c) && ViewsOK(c, o, st) && i !in st.pnts && Record(c, o, i, Some(p), st) == Ok(st')
    requires c.hasAngle ==> AngleOK(c, o, p, st.dirs)
    requires c.useFov ==> o.fovOK(p)
    ensures ViewsOK(c, o, st')
  {
    if c.hasAngle {
      assert st'.dirs == st.dirs + [o.horizDir(p)];
      forall a, b | 0 <= a < b < |st'.dirs| ensures o.angle(st'.dirs[b], st'.dirs[a]) >= c.sepRad {
        if b == |st.dirs| {
          assert st'.dirs[b] == o.horizDir(p) && st'.dirs[a] == st.dirs[a];
        } else {
          assert st'.dirs[b] == st.dirs[b] && st'.dirs[a] == st.dirs[a];
        }
      }
    }
  }

  // ---------------------------------------------------------------------
  // Candidate polygons

  /** The candidate list: distinct polygon indices below the total. */
  predicate CandidatesIn(cand: seq<nat>, total: nat) {
    && (forall k | 0 <= k < |cand| :: cand[k] < total)
    && (forall j, k | 0 <= j < k < |cand| :: cand[j] != cand[k])
  }

  function Range(n: nat): (r: seq<nat>)
    ensures |r| == n && forall k | 0 <= k < n :: r[k] == k
  {
    seq(n, k requires 0 <= k < n => k)
  }

  /** `lCandidates.remove(iPlyIdx)` for the candidate at position k: the
      list is distinct, so the first occurrence is the one at k. */
  function RemoveAt(s: seq<nat>, k: nat): (r: seq<nat>)
    requires k < |s|
    ensures |r| == |s| - 1
    ensures forall j | 0 <= j < |r| :: r[j] == (if j < k then s[j] else s[j + 1])
  {
    s[..k] + s[k + 1..]
  }

  /** Removing a candidate keeps the list a set of candidates, without it. */
  lemma RemoveKeepsCandidates(cand: seq<nat>, total: nat, k: nat)
    requires CandidatesIn(cand, total) && k < |cand|
    ensures CandidatesIn(RemoveAt(cand, k), total) && cand[k] !in RemoveAt(cand, k)
    ensures forall x | x in RemoveAt(cand, k) :: x in cand
  {
    var r := RemoveAt(cand, k);
    forall j | 0 <= j < |r| ensures r[j] != cand[k] {
      if j < k { assert r[j] == cand[j]; } else { assert r[j] == cand[j + 1]; }
    }
  }
  /** p is the jittered position on some polygon of the table. */
  ghost predicate OnSurface(objects: seq<Polygons.ObjectData>, accum: seq<nat>, total: nat, o: Oracles, p: Vec3)
    requires Polygons.AllDataValid(objects)
  {
    exists ply: nat, t: nat | ply < total :: Polygons.JitterOn(objects, accum, ply, o.jitter(t), Some(p))
  }

  /** p is the simplex-weighted position on some polygon of the table. */
  ghost predicate OnSurfaceUniformly(objects: seq<Polygons.ObjectData>, accum: seq<nat>, total: nat, o: Oracles, p: Vec3)
    requires Polygons.AllDataValid(objects)
  {
    exists ply: nat, t: nat | ply < total :: Polygons.SimplexOn(objects, accum, ply, o.simplex(t), Some(p))
  }

  /** Draw t of `random.choice` over n items picks one of them. */
  ghost predicate ChoiceInRange(o: Oracles) {
    forall t: nat, n: nat | 0 < n :: o.choice(t, n) < n
  }

  /** The `for iTest in range(iMaxTrials)` loop: draw a candidate and a
      uniform number in [0, `fMaxWeight`] until the number falls below the
      candidate's mean weight w, keeping the last candidate when every trial
      fails. */
  method ChoosePolygon(c: Config, polys: Polygons.CPolygons, o: Oracles, cand: seq<nat>, t0: nat)
    returns (k: nat, t: nat, w: real)
    requires polys.Valid() && CandidatesIn(cand, polys.totalPolyCount) && |cand| > 0 && c.maxTrials > 0
    requires ChoiceInRange(o)
    ensures t0 < t <= t0 + c.maxTrials && k == o.choice(t - 1, |cand|)
    ensures Polygons.WeightOn(polys.objects, polys.accum, cand[k], w)
    ensures t < t0 + c.maxTrials ==> o.uniform(t - 1, polys.maxWeight) < w
  {
    var accepted;
    k, w, accepted := DrawCandidate(polys, o, cand, t0);
    t := t0 + 1;
    while t < t0 + c.maxTrials && !accepted
      invariant t0 < t <= t0 + c.maxTrials && k < |cand| && k == o.choice(t - 1, |cand|)
      invariant Polygons.WeightOn(polys.objects, polys.accum, cand[k], w)
      invariant accepted ==> o.uniform(t - 1, polys.maxWeight) < w
    {
      k, w, accepted := DrawCandidate(polys, o, cand, t);
      t := t + 1;
    }
  }

  /** One trial, with draws number t: a candidate, its mean weight, and
      whether the uniform number falls below that weight. */
  method DrawCandidate(polys: Polygons.CPolygons, o: Oracles, cand: seq<nat>, t: nat)
    returns (k: nat, w: real, accepted: bool)
    requires polys.Valid() && CandidatesIn(cand, polys.totalPolyCount) && |cand| > 0
    requires ChoiceInRange(o)
    ensures k == o.choice(t, |cand|) && k < |cand|
    ensures Polygons.WeightOn(polys.objects, polys.accum, cand[k], w)
    ensures accepted <==> o.uniform(t, polys.maxWeight) < w
  {
    k := o.choice(t, |cand|);
    var wk := polys.GetPolyWeight(cand[k]);
    w := wk.value;
    accepted := o.uniform(t, polys.maxWeight) < w;
  }

  /** Candidate p for point i passes every test. */
  ghost predicate Accepts(c: Config, o: Oracles, i: nat, p: Vec3, st: Placement)
    requires ConfigValid(c)
  {
    Evaluate(c, o, i, p, st) == Ok(true)
  }

  /** Place a point p on candidate ply (draws `o.jitter(t)`) and test it. */
  method TryPolygon(c: Config, polys: Polygons.CPolygons, o: Oracles, i: nat, st: Placement, ply: nat, t: nat)
    returns (r: Result<bool>, p: Vec3)
    requires ConfigValid(c) && polys.Valid() && ply < polys.totalPolyCount
    ensures r.Ok? ==> Polygons.JitterOn(polys.objects, polys.accum, ply, o.jitter(t), Some(p))
    ensures r.Ok? ==> (r.value <==> Accepts(c, o, i, p, st))
  {
    p := Zero;
    var pos := polys.GetRandomPosOnPoly(ply, o.jitter(t));
    if pos.value.None? {
      return Err("position on polygon is not a number"), p;
    }
    p := pos.value.value;
    r := Evaluate(c, o, i, p, st);
  }

  /** The `while len(lPlyIdx) > 0` loop for point i: choose a candidate,
      try it, and drop it from the candidate list for good when its position
      is rejected. `t` counts the draws used and `rejected` the rejected
      candidates, each of which leaves the list; an accepted position lies
      on polygon `ply`, placed with draw `draw`. */
  method FindPosition(c: Config, polys: Polygons.CPolygons, o: Oracles, i: nat, st: Placement,
                      cand0: seq<nat>, t0: nat)
    returns (r: Result<Option<Vec3>>, cand: seq<nat>, t: nat, ply: nat, draw: nat, rejected: nat)
    requires ConfigValid(c) && polys.Valid() && CandidatesIn(cand0, polys.totalPolyCount) && ChoiceInRange(o)
    ensures CandidatesIn(cand, polys.totalPolyCount) && |cand| + rejected == |cand0| && t >= t0
    ensures forall x | x in cand :: x in cand0
    ensures r.Ok? && r.value.Some? ==> Accepts(c, o, i, r.value.value, st)
    ensures r.Ok? && r.value.Some? ==>
              ply < polys.totalPolyCount && Polygons.JitterOn(polys.objects, polys.accum, ply, o.jitter(draw), r.value)
    ensures r.Ok? && r.value.None? ==> cand == []
    ensures c.maxTrials <= 0 && |cand0| > 0 ==> r.Err?
  {
    cand, t, ply, draw, rejected := cand0, t0, 0, 0, 0;
    while |cand| > 0
      invariant CandidatesIn(cand, polys.totalPolyCount) && |cand| + rejected == |cand0| && t >= t0
      invariant forall x | x in cand :: x in cand0
      invariant c.maxTrials <= 0 ==> cand == cand0
      decreases |cand|
    {
      if c.maxTrials <= 0 {
        return Err("local variable 'iPlyIdx' referenced before assignment"), cand, t, ply, draw, rejected;
      }
      var k, w;
      k, t, w := ChoosePolygon(c, polys, o, cand, t);
      ply := cand[k];
      var accepted, p := TryPolygon(c, polys, o, i, st, ply, t);
      draw, t := t, t + 1;
      ghost var onPoly := accepted.Ok? ==> Polygons.JitterOn(polys.objects, polys.accum, ply, o.jitter(draw), Some(p));
      assert onPoly;
      if accepted.Err? {
        return Err(accepted.msg), cand, t, ply, draw, rejected;
      }
      if accepted.value {
        return Ok(Some(p)), cand, t, ply, draw, rejected;
      }
      RemoveKeepsCandidates(cand, polys.totalPolyCount, k);
      cand, rejected := RemoveAt(cand, k), rejected + 1;
    }
    r := Ok(None);
  }
  /** Every accepted point lies on the surface (weighted sampling). */
  ghost predicate AllOnSurface(objects: seq<Polygons.ObjectData>, accum: seq<nat>, total: nat, o: Oracles,
                               pnts: map<nat, Option<Vec3>>)
  {
    && Polygons.AllDataValid(objects)
    && forall j | j in pnts && pnts[j].Some? :: OnSurface(objects, accum, total, o, pnts[j].value)
  }

  /** Every accepted point lies on the surface (uniform sampling). */
  ghost predicate AllOnSurfaceUniformly(objects: seq<Polygons.ObjectData>, accum: seq<nat>, total: nat, o: Oracles,
                                        pnts: map<nat, Option<Vec3>>)
  {
    && Polygons.AllDataValid(objects)
    && forall j | j in pnts && pnts[j].Some? :: OnSurfaceUniformly(objects, accum, total, o, pnts[j].value)
  }

  lemma OnSurfaceStep(objects: seq<Polygons.ObjectData>, accum: seq<nat>, total: nat, o: Oracles,
                      pnts: map<nat, Option<Vec3>>, i: nat, pos: Option<Vec3>, ply: nat, draw: nat)
    requires AllOnSurface(objects, accum, total, o, pnts)
    requires pos.Some? ==> ply < total && Polygons.JitterOn(objects, accum, ply, o.jitter(draw), pos)
    ensures AllOnSurface(objects, accum, total, o, pnts[i := pos])
  {
    if pos.Some? {
      assert OnSurface(objects, accum, total, o, pos.value);
    }
  }

  lemma OnSurfaceUniformlyStep(objects: seq<Polygons.ObjectData>, accum: seq<nat>, total: nat, o: Oracles,
                               pnts: map<nat, Option<Vec3>>, i: nat, pos: Option<Vec3>, ply: nat, draw: nat)
    requires AllOnSurfaceUniformly(objects, accum, total, o, pnts)
    requires pos.Some? ==> ply < total && Polygons.SimplexOn(objects, accum, ply, o.simplex(draw), pos)
    ensures AllOnSurfaceUniformly(objects, accum, total, o, pnts[i := pos])
  {
    if pos.Some? {
      assert OnSurfaceUniformly(objects, accum, total, o, pos.value);
    }
  }

  /** Recording the outcome of point i, found or not, keeps the invariant. */
  lemma RecordKeepsOK(c: Config, o: Oracles, i: nat, pos: Option<Vec3>, st: Placement)
    requires ConfigValid(c) && PlacementOK(c, o, i, st)
    requires pos.Some? ==> Accepts(c, o, i, pos.value, st)
    requires Record(c, o, i, pos, st).Ok?
    ensures PlacementOK(c, o, i + 1, Record(c, o, i, pos, st).value)
  {
    if pos.Some? {
      RecordSomeKeepsOK(c, o, i, pos.value, st);
    } else {
      RecordNoneKeepsOK(c, o, i, st);
    }
  }

  /** Records the outcome of point i in the placement (`dicPnts[iPntIdx] = ...`
      together with the box and view-direction bookkeeping). */
  method Commit(c: Config, o: Oracles, i: nat, pos: Option<Vec3>, st: Placement) returns (r: Result<Placement>)
    requires ConfigValid(c) && PlacementOK(c, o, i, st)
    requires pos.Some? ==> Accepts(c, o, i, pos.value, st)
    ensures r.Ok? ==> r.value.pnts == st.pnts[i := pos] && PlacementOK(c, o, i + 1, r.value)
  {
    r := Record(c, o, i, pos, st);
    if r.Ok? {
      RecordKeepsOK(c, o, i, pos, st);
    }
  }

  lemma RangeIsCandidates(n: nat)
    ensures CandidatesIn(Range(n), n)
  {
  }

  /** One pass of the point loop of `GetRndPointsOnSurface`: find a
      position for point i on the remaining candidates and record it. */
  method PlacePoint(c: Config, polys: Polygons.CPolygons, o: Oracles, i: nat, st: Placement,
                    cand0: seq<nat>, t0: nat)
    returns (r: Result<Placement>, cand: seq<nat>, t: nat, rejected: nat)
    requires ConfigValid(c) && polys.Valid() && ChoiceInRange(o)
    requires CandidatesIn(cand0, polys.totalPolyCount) && PlacementOK(c, o, i, st)
    requires AllOnSurface(polys.objects, polys.accum, polys.totalPolyCount, o, st.pnts)
    ensures CandidatesIn(cand, polys.totalPolyCount) && |cand| + rejected == |cand0|
    ensures r.Ok? ==> i in r.value.pnts && r.value.pnts == st.pnts[i := r.value.pnts[i]]
    ensures r.Ok? ==> PlacementOK(c, o, i + 1, r.value)
    ensures r.Ok? ==> AllOnSurface(polys.objects, polys.accum, polys.totalPolyCount, o, r.value.pnts)
    ensures r.Ok? && r.value.pnts[i].None? ==> cand == []
    ensures c.maxTrials <= 0 && |cand0| > 0 ==> r.Err?
  {
    var res, ply, draw;
    res, cand, t, ply, draw, rejected := FindPosition(c, polys, o, i, st, cand0, t0);
    if res.Err? {
      return Err(res.msg), cand, t, rejected;
    }
    r := Commit(c, o, i, res.value, st);
    if r.Ok? {
      OnSurfaceStep(polys.objects, polys.accum, polys.totalPolyCount, o, st.pnts, i, res.value, ply, draw);
    }
  }

  /** The `for iPntIdx in range(iPntCnt)` loop of `GetRndPointsOnSurface`:
      decide every point in turn. `rejections` sums the candidates the
      points reject; every rejected candidate leaves the list the points
      share, so at most `iTotalPolyCount` rejections happen in total. */
  method SampleWeighted(c: Config, polys: Polygons.CPolygons, o: Oracles) returns (r: Result<Placement>, rejections: nat)
    requires ConfigValid(c) && polys.Valid() && ChoiceInRange(o)
    ensures r.Ok? ==> PlacementOK(c, o, c.n, r.value)
    ensures r.Ok? ==> AllOnSurface(polys.objects, polys.accum, polys.totalPolyCount, o, r.value.pnts)
    ensures rejections <= polys.totalPolyCount
    ensures c.maxTrials <= 0 && c.n > 0 && polys.totalPolyCount > 0 ==> r.Err?
  {
    var total := polys.totalPolyCount;
    var st := Placement(map[], map[], []);
    EmptyPlacementOK(c, o);
    var cand := Range(total);
    RangeIsCandidates(total);
    var t := 0;
    var i := 0;
    rejections := 0;
    while i < c.n
      invariant 0 <= i <= c.n && PlacementOK(c, o, i, st)
      invariant CandidatesIn(cand, total) && |cand| + rejections == total
      invariant AllOnSurface(polys.objects, polys.accum, total, o, st.pnts)
      invariant i == 0 ==> |cand| == total
      invariant c.maxTrials <= 0 && total > 0 ==> i == 0
    {
      var next, rejectedHere;
      next, cand, t, rejectedHere := PlacePoint(c, polys, o, i, st, cand, t);
      rejections := rejections + rejectedHere;
      if next.Err? {
        return Err(next.msg), rejections;
      }
      st, i := next.value, i + 1;
    }
    r := Ok(st);
  }

  // ---------------------------------------------------------------------
  // Uniform sampling by weight and area

  /** The distribution after one more sampling call: computed on first use,
      then kept. */
  function DistributionAfter(polys: Polygons.CPolygons, old_: Option<Polygons.Dist>, areaOf: (nat, nat) -> real): Option<Polygons.Dist>
    reads polys
    requires Polygons.AllDataValid(polys.objects)
  {
    if old_.Some? then old_ else Polygons.DistributionFor(polys.objects, areaOf)
  }

  /** One draw of the uniform sampler: `mathutils.Vector(xPolys.SampleUniformlyByWeightAndArea())`. */
  method DrawUniform(polys: Polygons.CPolygons, o: Oracles, t: nat) returns (r: Result<Vec3>, ply: nat)
    requires polys.Valid()
    modifies polys
    ensures polys.Valid()
    ensures polys.objects == old(polys.objects) && polys.index == old(polys.index) && polys.accum == old(polys.accum)
    ensures polys.totalPolyCount == old(polys.totalPolyCount) && polys.maxWeight == old(polys.maxWeight)
    ensures polys.distribution == DistributionAfter(polys, old(polys.distribution), o.areaOf)
    ensures r.Ok? ==> ply < polys.totalPolyCount && Polygons.SimplexOn(polys.objects, polys.accum, ply, o.simplex(t), Some(r.value))
  {
    var pos;
    pos, ply := polys.SampleUniformlyByWeightAndArea(o.areaOf, o.uniform(t, 1.0), o.simplex(t));
    if pos.Err? {
      return Err(pos.msg), ply;
    }
    if pos.value.None? {
      return Err("position on polygon is not a number"), ply;
    }
    r := Ok(pos.value.value);
  }

  /** One attempt of the uniform sampler: sample a position on the surface
      and test it against the constraints. */
  method TryUniform(c: Config, polys: Polygons.CPolygons, o: Oracles, i: nat, st: Placement, t: nat)
    returns (r: Result<bool>, p: Vec3, ply: nat)
    requires ConfigValid(c) && polys.Valid()
    modifies polys
    ensures polys.Valid()
    ensures polys.objects == old(polys.objects) && polys.index == old(polys.index) && polys.accum == old(polys.accum)
    ensures polys.totalPolyCount == old(polys.totalPolyCount) && polys.maxWeight == old(polys.maxWeight)
    ensures polys.distribution == DistributionAfter(polys, old(polys.distribution), o.areaOf)
    ensures r.Ok? ==> ply < polys.totalPolyCount && Polygons.SimplexOn(polys.objects, polys.accum, ply, o.simplex(t), Some(p))
    ensures r.Ok? ==> (r.value <==> Accepts(c, o, i, p, st))
  {
    p := Zero;
    var pos;
    pos, ply := DrawUniform(polys, o, t);
    if pos.Err? {
      return Err(pos.msg), p, ply;
    }
    p := pos.value;
    r := Evaluate(c, o, i, p, st);
  }

  /** The `while iAttempt < iMaxTrials` loop of `GetRndPointsOnSurfaceUniformly`
      for point i: at most `iMaxTrials` independent attempts, no candidate
      bookkeeping; an accepted position was placed with draw `draw`. */
  method FindPositionUniform(c: Config, polys: Polygons.CPolygons, o: Oracles, i: nat, st: Placement, t0: nat)
    returns (r: Result<Option<Vec3>>, t: nat, ply: nat, draw: nat)
    requires ConfigValid(c) && polys.Valid()
    modifies polys
    ensures polys.Valid()
    ensures polys.objects == old(polys.objects) && polys.index == old(polys.index) && polys.accum == old(polys.accum)
    ensures polys.totalPolyCount == old(polys.totalPolyCount) && polys.maxWeight == old(polys.maxWeight)
    ensures old(polys.distribution).Some? ==> polys.distribution == old(polys.distribution)
    ensures polys.distribution == old(polys.distribution) ||
            polys.distribution == Polygons.DistributionFor(polys.objects, o.areaOf)
    ensures t0 <= t && (c.maxTrials <= 0 ==> t == t0) && (c.maxTrials > 0 ==> t <= t0 + c.maxTrials)
    ensures r.Ok? && r.value.Some? ==> Accepts(c, o, i, r.value.value, st)
    ensures r.Ok? && r.value.Some? ==>
              ply < polys.totalPolyCount && Polygons.SimplexOn(polys.objects, polys.accum, ply, o.simplex(draw), r.value)
    ensures r.Ok? && r.value.None? ==> t == t0 + (if c.maxTrials > 0 then c.maxTrials else 0)
  {
    t, ply, draw := t0, 0, 0;
    while t < t0 + c.maxTrials
      invariant polys.Valid()
      invariant polys.objects == old(polys.objects) && polys.index == old(polys.index) && polys.accum == old(polys.accum)
      invariant polys.totalPolyCount == old(polys.totalPolyCount) && polys.maxWeight == old(polys.maxWeight)
      invariant old(polys.distribution).Some? ==> polys.distribution == old(polys.distribution)
      invariant polys.distribution == old(polys.distribution) ||
                polys.distribution == Polygons.DistributionFor(polys.objects, o.areaOf)
      invariant t0 <= t && (c.maxTrials <= 0 ==> t == t0) && (c.maxTrials > 0 ==> t <= t0 + c.maxTrials)
      decreases t0 + c.maxTrials - t
    {
      var ok, p, picked := TryUniform(c, polys, o, i, st, t);
      draw, t := t, t + 1;
      if ok.Err? {
        return Err(ok.msg), t, ply, draw;
      }
      if ok.value {
        ghost var onPoly := Polygons.SimplexOn(polys.objects, polys.accum, picked, o.simplex(draw), Some(p));
        assert onPoly;
        return Ok(Some(p)), t, picked, draw;
      }
    }
    r := Ok(None);
  }

  /** One pass of the point loop of `GetRndPointsOnSurfaceUniformly`. */
  method PlacePointUniform(c: Config, polys: Polygons.CPolygons, o: Oracles, i: nat, st: Placement, t0: nat)
    returns (r: Result<Placement>, t: nat)
    requires ConfigValid(c) && polys.Valid() && PlacementOK(c, o, i, st)
    requires AllOnSurfaceUniformly(polys.objects, polys.accum, polys.totalPolyCount, o, st.pnts)
    modifies polys
    ensures polys.Valid()
    ensures polys.objects == old(polys.objects) && polys.index == old(polys.index) && polys.accum == old(polys.accum)
    ensures polys.totalPolyCount == old(polys.totalPolyCount) && polys.maxWeight == old(polys.maxWeight)
    ensures old(polys.distribution).Some? ==> polys.distribution == old(polys.distribution)
    ensures polys.distribution == old(polys.distribution) ||
            polys.distribution == Polygons.DistributionFor(polys.objects, o.areaOf)
    ensures r.Ok? ==> i in r.value.pnts && r.value.pnts == st.pnts[i := r.value.pnts[i]]
    ensures r.Ok? ==> PlacementOK(c, o, i + 1, r.value)
    ensures r.Ok? ==> AllOnSurfaceUniformly(polys.objects, polys.accum, polys.totalPolyCount, o, r.value.pnts)
    ensures r.Ok? && r.value.pnts[i].None? ==> t == t0 + (if c.maxTrials > 0 then c.maxTrials else 0)
  {
    var res, ply, draw;
    res, t, ply, draw := FindPositionUniform(c, polys, o, i, st, t0);
    if res.Err? {
      return Err(res.msg), t;
    }
    r := Commit(c, o, i, res.value, st);
    if r.Ok? {
      OnSurfaceUniformlyStep(polys.objects, polys.accum, polys.totalPolyCount, o, st.pnts, i, res.value, ply, draw);
    }
  }

  /** The point loop of `GetRndPointsOnSurfaceUniformly`. */
  method SampleUniform(c: Config, polys: Polygons.CPolygons, o: Oracles) returns (r: Result<Placement>)
    requires ConfigValid(c) && polys.Valid()
    modifies polys
    ensures polys.Valid()
    ensures polys.objects == old(polys.objects) && polys.accum == old(polys.accum)
    ensures polys.totalPolyCount == old(polys.totalPolyCount)
    ensures r.Ok? ==> PlacementOK(c, o, c.n, r.value)
    ensures r.Ok? ==> AllOnSurfaceUniformly(polys.objects, polys.accum, polys.totalPolyCount, o, r.value.pnts)
  {
    var st := Placement(map[], map[], []);
    EmptyPlacementOK(c, o);
    var t := 0;
    var i := 0;
    while i < c.n
      invariant 0 <= i <= c.n && polys.Valid() && PlacementOK(c, o, i, st)
      invariant polys.objects == old(polys.objects) && polys.accum == old(polys.accum)
      invariant polys.totalPolyCount == old(polys.totalPolyCount)
      invariant AllOnSurfaceUniformly(polys.objects, polys.accum, polys.totalPolyCount, o, st.pnts)
    {
      var next;
      next, t := PlacePointUniform(c, polys, o, i, st, t);
      if next.Err? {
        return Err(next.msg);
      }
      st, i := next.value, i + 1;
    }
    r := Ok(st);
  }

  // ---------------------------------------------------------------------
  // Result per instance name

  /** The reference point of an instance: a point of its bounding box or
      its own origin. */
  function InstanceOrigin(org: Origin, e: Placed): Vec3
    requires org.BoxPoint? ==> |org.rel| == 3
  {
    match org
    case BoxPoint(rel) => Add(e.box.center, BoundBox.DeltaOf(e.box, rel))
    case ObjectOrigin => e.origin
  }

  /** The offset reported for an instance: how far its reference point has
      to move to reach the accepted position. */
  function Offset(org: Origin, e: Placed, pos: Option<Vec3>): Option<Vec3>
    requires org.BoxPoint? ==> |org.rel| == 3
  {
    if pos.None? then None else Some(Sub(pos.value, InstanceOrigin(org, e)))
  }

  /** The reported offset is the shift the box test applied, and that shift
      carries the instance's reference point, measured on the moved box,
      exactly onto the point. */
  lemma OffsetIsPlacementShift(org: Origin, e: Placed, p: Vec3)
    requires org.BoxPoint? ==> |org.rel| == 3
    ensures Offset(org, e, Some(p)) == Some(PlacementDelta(org, e, p))
    ensures InstanceOrigin(org, BoundBoxMovedBy(e, PlacementDelta(org, e, p))) == p
  {
    var d := PlacementDelta(org, e, p);
    var m := BoundBoxMovedBy(e, d);
    match org
    case BoxPoint(rel) =>
      assert BoundBox.DeltaOf(m.box, rel) == BoundBox.DeltaOf(e.box, rel);
    case ObjectOrigin =>
  }

  /** The hypothetical translation of an instance as a whole, box and
      origin by d, that `OffsetIsPlacementShift` reasons about; the
      sampler itself moves only a copy of the box. */
  function BoundBoxMovedBy(e: Placed, d: Vec3): Placed
  {
    e.(box := BoundBox.Moved(e.box, d), origin := Add(e.origin, d))
  }

  /** The name-keyed result: one entry per point index below n, under the
      name of that instance, holding its offset or None; no other keys. */
  predicate OffsetsMatch(c: Config, pnts: map<nat, Option<Vec3>>, n: nat, out: map<string, Option<Vec3>>)
    requires ConfigValid(c) && c.instances.Some? && n <= |c.instances.value|
    requires forall j | 0 <= j < n :: j in pnts
  {
    var inst := c.instances.value;
    && (forall j | 0 <= j < n :: inst[j].name in out && out[inst[j].name] == Offset(c.origin, inst[j], pnts[j]))
    && (forall name | name in out :: exists j | 0 <= j < n :: inst[j].name == name)
  }

  /** The `for iIdx, vPnt in dicPnts.items()` loop that re-keys the result
      by instance name; a point index past the instance list is an index
      error. */
  method ToInstanceOffsets(c: Config, pnts: map<nat, Option<Vec3>>, n: nat) returns (r: Result<map<string, Option<Vec3>>>)
    requires ConfigValid(c) && c.instances.Some?
    requires forall j | 0 <= j < n :: j in pnts
    ensures r.Ok? <==> n <= |c.instances.value|
    ensures r.Ok? ==> OffsetsMatch(c, pnts, n, r.value)
  {
    var inst := c.instances.value;
    var out: map<string, Option<Vec3>> := map[];
    var i := 0;
    while i < n
      invariant 0 <= i <= n && i <= |inst|
      invariant forall j | 0 <= j < i :: inst[j].name in out && out[inst[j].name] == Offset(c.origin, inst[j], pnts[j])
      invariant forall name | name in out :: exists j | 0 <= j < i :: inst[j].name == name
    {
      if i >= |inst| {
        return Err("list index out of range");
      }
      out := out[inst[i].name := Offset(c.origin, inst[i], pnts[i])];
      i := i + 1;
    }
    r := Ok(out);
  }

  // ---------------------------------------------------------------------
  // Entry points

  /** `GetRndPointsOnSurface`: check the arguments, build the polygon table
      of the targets, check the camera arguments, place the points by
      weighted rejection sampling and report them by index, or by instance
      name when instances are given. `placed` is the placement the result
      was read from. */
  method GetRndPointsOnSurface(a: Args, scene: map<string, Objects.Obj>, worldOf: string -> (Vec3 -> Vec3), o: Oracles)
    returns (r: Result<Out>, ghost placed: Placement)
    requires forall n | n in scene :: Polygons.MeshWellFormed(scene[n].mesh)
    requires a.instances.Some? ==> DistinctNames(a.instances.value)
    requires ChoiceInRange(o)
    ensures r.Ok? ==> Configure(a).Ok? && CheckCamera(a).Pass? && MeshesIn(scene, a.targets)
    ensures r.Ok? ==> PlacementOK(Configure(a).value, o, Configure(a).value.n, placed)
    ensures r.Ok? ==> (r.value.ByName? <==> a.instances.Some?)
    ensures r.Ok? && r.value.ByIndex? ==> r.value.points == placed.pnts
    ensures r.Ok? && r.value.ByName? ==>
              Configure(a).value.n <= |a.instances.value| &&
              OffsetsMatch(Configure(a).value, placed.pnts, Configure(a).value.n, r.value.offsets)
  {
    placed := Placement(map[], map[], []);
    var conf := Configure(a);
    if conf.Err? {
      return Err(conf.msg), placed;
    }
    var c := conf.value;
    var polys, built := BuildTable(a.targets, a.groups, scene, worldOf);
    if built.Fail? {
      return Err(built.msg), placed;
    }
    var cam := CheckCamera(a);
    if cam.Fail? {
      return Err(cam.msg), placed;
    }
    var res, rejections := SampleWeighted(c, polys, o);
    if res.Err? {
      return Err(res.msg), placed;
    }
    placed := res.value;
    r := Report(c, o, res.value);
  }

  /** `GetRndPointsOnSurfaceUniformly`: as `GetRndPointsOnSurface`, with
      positions drawn by the area-and-weight distribution of the table. */
  method GetRndPointsOnSurfaceUniformly(a: Args, scene: map<string, Objects.Obj>, worldOf: string -> (Vec3 -> Vec3), o: Oracles)
    returns (r: Result<Out>, ghost placed: Placement)
    requires forall n | n in scene :: Polygons.MeshWellFormed(scene[n].mesh)
    requires a.instances.Some? ==> DistinctNames(a.instances.value)
    ensures r.Ok? ==> Configure(a).Ok? && CheckCamera(a).Pass? && MeshesIn(scene, a.targets)
    ensures r.Ok? ==> PlacementOK(Configure(a).value, o, Configure(a).value.n, placed)
    ensures r.Ok? ==> (r.value.ByName? <==> a.instances.Some?)
    ensures r.Ok? && r.value.ByIndex? ==> r.value.points == placed.pnts
    ensures r.Ok? && r.value.ByName? ==>
              Configure(a).value.n <= |a.instances.value| &&
              OffsetsMatch(Configure(a).value, placed.pnts, Configure(a).value.n, r.value.offsets)
  {
    placed := Placement(map[], map[], []);
    var conf := Configure(a);
    if conf.Err? {
      return Err(conf.msg), placed;
    }
    var c := conf.value;
    var polys, built := BuildTable(a.targets, a.groups, scene, worldOf);
    if built.Fail? {
      return Err(built.msg), placed;
    }
    var cam := CheckCamera(a);
    if cam.Fail? {
      return Err(cam.msg), placed;
    }
    var res := SampleUniform(c, polys, o);
    if res.Err? {
      return Err(res.msg), placed;
    }
    placed := res.value;
    r := Report(c, o, res.value);
  }

  /** The result of both entry points: the index-keyed points, or with
      instances the offsets keyed by instance name. */
  method Report(c: Config, o: Oracles, st: Placement) returns (r: Result<Out>)
    requires ConfigValid(c) && PlacementOK(c, o, c.n, st)
    ensures r.Ok? ==> (r.value.ByName? <==> c.instances.Some?)
    ensures r.Ok? && r.value.ByIndex? ==> r.value.points == st.pnts
    ensures r.Ok? && r.value.ByName? ==> c.n <= |c.instances.value| && OffsetsMatch(c, st.pnts, c.n, r.value.offsets)
    ensures c.instances.Some? ==> (r.Ok? <==> c.n <= |c.instances.value|)
    ensures c.instances.None? ==> r.Ok?
  {
    if c.instances.None? {
      return Ok(ByIndex(st.pnts));
    }
    assert forall j | 0 <= j < c.n :: j in st.pnts;
    var offsets := ToInstanceOffsets(c, st.pnts, c.n);
    if offsets.Err? {
      return Err(offsets.msg);
    }
    r := Ok(ByName(offsets.value));
  }
}
