/** Oriented bounding boxes (cls_boundbox.py). A box is a centre, eight
    corners, an orthonormal frame (rows ax, ay, az), the size along each frame
    axis, the half sizes and the radius of the enclosing sphere. The SVD that
    finds the frame is not modelled; `EvalBoundingBox` takes its result. */
module BoundBox {
  import opened Wrappers
  import opened Vectors

  datatype Box = Box(center: Vec3, corners: seq<Vec3>, ax: Vec3, ay: Vec3, az: Vec3,
                     size: Vec3, half: Vec3, radius: real)
  {
    /** Frame axis `i`, `_lBase[i]`. */
    function Base(i: nat): Vec3
      requires i < 3
    {
      if i == 0 then ax else if i == 1 then ay else az
    }

    /** The relations `_EvalBoundingBox` establishes between the size and the
        derived fields: half = size / 2 and radius = sqrt(sum size_i^2 / 4). */
    ghost predicate Consistent() {
      && (forall i | 0 <= i < 3 :: At(half, i) == At(size, i) / 2.0)
      && radius >= 0.0 && radius * radius == RadiusSq(size)
    }
  }

  function RadiusSq(size: Vec3): real {
    size.x * size.x / 4.0 + size.y * size.y / 4.0 + size.z * size.z / 4.0
  }

  /** Row vector times the matrix whose rows are t0, t1, t2 (`v @ mWorldT`). */
  function RowTimes(v: Vec3, t0: Vec3, t1: Vec3, t2: Vec3): Vec3 {
    Add(Add(Scale(v.x, t0), Scale(v.y, t1)), Scale(v.z, t2))
  }

  ghost predicate Orthonormal(t0: Vec3, t1: Vec3, t2: Vec3) {
    && Dot(t0, t0) == 1.0 && Dot(t1, t1) == 1.0 && Dot(t2, t2) == 1.0
    && Dot(t0, t1) == 0.0 && Dot(t0, t2) == 0.0 && Dot(t1, t2) == 0.0
  }

  /** `_EvalBoundingBox` from the point where the SVD has produced the frame
      (rows t0, t1, t2) and the extents aMin/aMax of the rotated vertices;
      `root` is the square root of the radius squared, supplied by the caller. */
  function EvalBoundingBox(aMin: Vec3, aMax: Vec3, t0: Vec3, t1: Vec3, t2: Vec3, root: real): (b: Box)
    requires root >= 0.0 && root * root == RadiusSq(Sub(aMax, aMin))
    ensures b.Consistent() && |b.corners| == 8
    ensures b.size == Sub(aMax, aMin) && b.ax == t0 && b.ay == t1 && b.az == t2
  {
    var size := Sub(aMax, aMin);
    var lo, hi := aMin, aMax;
    Box(RowTimes(Add(aMin, Scale(0.5, size)), t0, t1, t2),
        [RowTimes(Vec3(lo.x, lo.y, lo.z), t0, t1, t2), RowTimes(Vec3(lo.x, lo.y, hi.z), t0, t1, t2),
         RowTimes(Vec3(lo.x, hi.y, hi.z), t0, t1, t2), RowTimes(Vec3(lo.x, hi.y, lo.z), t0, t1, t2),
         RowTimes(Vec3(hi.x, lo.y, lo.z), t0, t1, t2), RowTimes(Vec3(hi.x, lo.y, hi.z), t0, t1, t2),
         RowTimes(Vec3(hi.x, hi.y, hi.z), t0, t1, t2), RowTimes(Vec3(hi.x, hi.y, lo.z), t0, t1, t2)],
        t0, t1, t2, size, Vec3(size.x / 2.0, size.y / 2.0, size.z / 2.0), root)
  }

  /** `__init__` dispatch: exactly one of an object or an object list must be
      given; the result is the list of objects the box is built from. */
  function InitObjectList(objX: Option<string>, lObjects: Option<seq<string>>): (r: Result<seq<string>>)
    ensures r.Ok? <==> (objX.Some? != lObjects.Some?)
    ensures r.Ok? && objX.Some? ==> r.value == [objX.value]
    ensures r.Ok? && lObjects.Some? ==> r.value == lObjects.value
  {
    if objX.None? && lObjects.Some? then Ok(lObjects.value)
    else if objX.Some? && lObjects.None? then Ok([objX.value])
    else Err("Invalid initialization of bounding box instance")
  }

  /** The box after `Move(d)`: centre and corners shifted, all else kept. */
  function Moved(b: Box, d: Vec3): (m: Box)
    ensures m.center == Add(b.center, d) && |m.corners| == |b.corners|
    ensures forall k | 0 <= k < |b.corners| :: m.corners[k] == Add(b.corners[k], d)
    ensures m.ax == b.ax && m.ay == b.ay && m.az == b.az
    ensures m.size == b.size && m.half == b.half && m.radius == b.radius
  {
    b.(center := Add(b.center, d), corners := seq(|b.corners|, k requires 0 <= k < |b.corners| => Add(b.corners[k], d)))
  }

  /** `GetDelta`: sum of rel_i * size_i * base_i; the relative position must
      have three entries. */
  function DeltaOf(b: Box, rel: seq<real>): Vec3
    requires |rel| == 3
  {
    RowTimes(Vec3(rel[0] * b.size.x, rel[1] * b.size.y, rel[2] * b.size.z), b.ax, b.ay, b.az)
  }

  /** Over an orthonormal frame, the delta measured along axis i is the
      relative position i times the box's size along i. */
  lemma DeltaAlongAxis(b: Box, rel: seq<real>, i: nat)
    requires |rel| == 3 && i < 3 && Orthonormal(b.ax, b.ay, b.az)
    ensures Dot(DeltaOf(b, rel), b.Base(i)) == rel[i] * At(b.size, i)
  {
    var v := Vec3(rel[0] * b.size.x, rel[1] * b.size.y, rel[2] * b.size.z);
    RowTimesDot(v, b.ax, b.ay, b.az, i);
    assert [b.ax, b.ay, b.az][i] == b.Base(i);
    if i == 0 {
      assert At(v, 0) == rel[0] * At(b.size, 0);
    } else if i == 1 {
      assert At(v, 1) == rel[1] * At(b.size, 1);
    } else {
      assert At(v, 2) == rel[2] * At(b.size, 2);
    }
  }

  /** The point test shared by `IsAnyPointInside` and `AllPointsInside`. */
  predicate PointInside(b: Box, p: Vec3, border: real) {
    forall i | 0 <= i < 3 :: Abs(Dot(Sub(p, b.center), b.Base(i))) <= At(b.half, i) + border
  }

  predicate AnyInside(b: Box, pts: seq<Vec3>, border: real) {
    exists k | 0 <= k < |pts| :: PointInside(b, pts[k], border)
  }

  predicate AllInside(b: Box, pts: seq<Vec3>, border: real) {
    forall k | 0 <= k < |pts| :: PointInside(b, pts[k], border)
  }

  /** Every point lies beyond the upper (or every point beyond the lower)
      face of the slab along frame axis i. */
  predicate BeyondSlab(b: Box, pts: seq<Vec3>, i: nat)
    requires i < 3
  {
    || (forall k | 0 <= k < |pts| :: Dot(Sub(pts[k], b.center), b.Base(i)) > At(b.half, i))
    || (forall k | 0 <= k < |pts| :: Dot(Sub(pts[k], b.center), b.Base(i)) < -At(b.half, i))
  }

  /** `AllPointsToOneSideOfBoundBox`. */
  predicate OneSide(b: Box, pts: seq<Vec3>) {
    exists i | 0 <= i < 3 :: BeyondSlab(b, pts, i)
  }

  /** The enclosing spheres are apart: |cA - cB| > rA + rB, compared on
      squares (a length is never negative). */
  predicate SpheresApart(a: Box, b: Box) {
    var s := a.radius + b.radius;
    s < 0.0 || LengthSq(Sub(a.center, b.center)) > s * s
  }

  /** `TestIntersect`: the boxes may intersect unless the spheres are apart
      or one box's corners all lie beyond one face slab of the other. */
  predicate MayIntersect(a: Box, b: Box) {
    !SpheresApart(a, b) && !OneSide(a, b.corners) && !OneSide(b, a.corners)
  }

  /** `A.IsInside(B)`: every corner of A is inside B. */
  predicate BoxInside(a: Box, b: Box, border: real) {
    AllInside(b, a.corners, border)
  }

  /** `A.IsOutside(B)`: no corner of A is inside B. */
  predicate BoxOutside(a: Box, b: Box, border: real) {
    !AnyInside(b, a.corners, border)
  }

  datatype Relation = INSIDE | OUTSIDE | INTERSECT

  /** A vertex within half size plus border of the centre on every axis. */
  predicate WithinAll(b: Box, v: Vec3, border: real) {
    && Abs(Dot(Sub(v, b.center), b.ax)) <= b.half.x + border
    && Abs(Dot(Sub(v, b.center), b.ay)) <= b.half.y + border
    && Abs(Dot(Sub(v, b.center), b.az)) <= b.half.z + border
  }

  /** Largest |(v - c) . u| over a non-empty vertex list (`np.max` of the
      absolute local coordinates along one axis). */
  function MaxAbsProj(verts: seq<Vec3>, c: Vec3, u: Vec3): (m: real)
    requires |verts| > 0
    ensures forall k | 0 <= k < |verts| :: Abs(Dot(Sub(verts[k], c), u)) <= m
    ensures exists k | 0 <= k < |verts| :: Abs(Dot(Sub(verts[k], c), u)) == m
  {
    var here := Abs(Dot(Sub(verts[0], c), u));
    if |verts| == 1 then here
    else
      var rest := MaxAbsProj(verts[1..], c, u);
      assert forall k | 1 <= k < |verts| :: verts[k] == verts[1..][k - 1];
      if here >= rest then here else rest
  }

  /** `EvalObjectRelation`: the object's world-space vertices `verts` are
      INSIDE when on every axis their largest distance is within half size
      plus border, OUTSIDE when on every axis it exceeds it, else INTERSECT.
      Only mesh objects are accepted; an empty vertex array makes `np.max`
      raise. */
  function EvalObjectRelation(b: Box, isMesh: bool, verts: seq<Vec3>, border: real): (r: Result<Relation>)
    ensures r.Err? <==> !isMesh || |verts| == 0
    ensures r == Ok(INSIDE) <==>
              isMesh && |verts| > 0 && forall k | 0 <= k < |verts| :: WithinAll(b, verts[k], border)
    ensures r == Ok(OUTSIDE) <==>
              isMesh && |verts| > 0 &&
              (exists k | 0 <= k < |verts| :: Abs(Dot(Sub(verts[k], b.center), b.ax)) > b.half.x + border) &&
              (exists k | 0 <= k < |verts| :: Abs(Dot(Sub(verts[k], b.center), b.ay)) > b.half.y + border) &&
              (exists k | 0 <= k < |verts| :: Abs(Dot(Sub(verts[k], b.center), b.az)) > b.half.z + border)
  {
    if !isMesh then Err("Testing object inside bounding box only implemented for mesh objects")
    else if |verts| == 0 then Err("zero-size array to reduction operation maximum")
    else
      var d0 := MaxAbsProj(verts, b.center, b.ax);
      var d1 := MaxAbsProj(verts, b.center, b.ay);
      var d2 := MaxAbsProj(verts, b.center, b.az);
      var in0, in1, in2 := d0 <= b.half.x + border, d1 <= b.half.y + border, d2 <= b.half.z + border;
      if in0 && in1 && in2 then Ok(INSIDE)
      else if !in0 && !in1 && !in2 then Ok(OUTSIDE)
      else Ok(INTERSECT)
  }

  // ---------------------------------------------------------------------
  // Properties

  /** The intersection test does not depend on the order of its arguments. */
  lemma TestIntersectSymmetric(a: Box, b: Box)
    ensures MayIntersect(a, b) == MayIntersect(b, a)
  {
    assert Sub(a.center, b.center) == Scale(-1.0, Sub(b.center, a.center));
  }

  /** The classification is INSIDE exactly when every vertex passes the point
      test of `AllPointsInside`. */
  lemma RelationInsideIffAllInside(b: Box, verts: seq<Vec3>, border: real)
    requires |verts| > 0
    ensures EvalObjectRelation(b, true, verts, border) == Ok(INSIDE) <==> AllInside(b, verts, border)
  {
    var d0 := MaxAbsProj(verts, b.center, b.ax);
    var d1 := MaxAbsProj(verts, b.center, b.ay);
    var d2 := MaxAbsProj(verts, b.center, b.az);
    if AllInside(b, verts, border) {
      var k0 :| 0 <= k0 < |verts| && Abs(Dot(Sub(verts[k0], b.center), b.ax)) == d0;
      var k1 :| 0 <= k1 < |verts| && Abs(Dot(Sub(verts[k1], b.center), b.ay)) == d1;
      var k2 :| 0 <= k2 < |verts| && Abs(Dot(Sub(verts[k2], b.center), b.az)) == d2;
      assert PointInside(b, verts[k0], border) && PointInside(b, verts[k1], border) && PointInside(b, verts[k2], border);
      assert b.Base(0) == b.ax && b.Base(1) == b.ay && b.Base(2) == b.az;
    }
  }

  /** The classification is OUTSIDE exactly when, along every axis, some
      vertex lies beyond half size plus border. */
  lemma RelationOutsideIffEveryAxisExceeded(b: Box, verts: seq<Vec3>, border: real)
    requires |verts| > 0
    ensures EvalObjectRelation(b, true, verts, border) == Ok(OUTSIDE) <==>
            forall i | 0 <= i < 3 :: exists k | 0 <= k < |verts| ::
              Abs(Dot(Sub(verts[k], b.center), b.Base(i))) > At(b.half, i) + border
  {
    var d0 := MaxAbsProj(verts, b.center, b.ax);
    var d1 := MaxAbsProj(verts, b.center, b.ay);
    var d2 := MaxAbsProj(verts, b.center, b.az);
    var k0 :| 0 <= k0 < |verts| && Abs(Dot(Sub(verts[k0], b.center), b.ax)) == d0;
    var k1 :| 0 <= k1 < |verts| && Abs(Dot(Sub(verts[k1], b.center), b.ay)) == d1;
    var k2 :| 0 <= k2 < |verts| && Abs(Dot(Sub(verts[k2], b.center), b.az)) == d2;
    assert b.Base(0) == b.ax && b.Base(1) == b.ay && b.Base(2) == b.az;
  }

  /** Moving a point set and a box by the same delta keeps every point's local
      coordinates, so the point test is translation invariant. */
  lemma PointInsideMoved(b: Box, p: Vec3, d: Vec3, border: real)
    ensures PointInside(Moved(b, d), Add(p, d), border) == PointInside(b, p, border)
  {
    assert Sub(Add(p, d), Moved(b, d).center) == Sub(p, b.center);
  }

  /** Moving both boxes by the same delta does not change `TestIntersect`. */
  lemma TestIntersectMoved(a: Box, b: Box, d: Vec3)
    ensures MayIntersect(Moved(a, d), Moved(b, d)) == MayIntersect(a, b)
  {
    var ma, mb := Moved(a, d), Moved(b, d);
    assert Sub(ma.center, mb.center) == Sub(a.center, b.center);
    OneSideMoved(a, b.corners, d);
    OneSideMoved(b, a.corners, d);
  }

  lemma OneSideMoved(a: Box, pts: seq<Vec3>, d: Vec3)
    ensures OneSide(Moved(a, d), Moved(Box(Zero, pts, Zero, Zero, Zero, Zero, Zero, 0.0), d).corners) == OneSide(a, pts)
  {
    var ma := Moved(a, d);
    var mp := Moved(Box(Zero, pts, Zero, Zero, Zero, Zero, Zero, 0.0), d).corners;
    assert forall k | 0 <= k < |pts| :: Sub(mp[k], ma.center) == Sub(pts[k], a.center);
    assert ma.Base(0) == a.Base(0) && ma.Base(1) == a.Base(1) && ma.Base(2) == a.Base(2);
    forall i | 0 <= i < 3 ensures BeyondSlab(ma, mp, i) == BeyondSlab(a, pts, i) {
    }
  }

  /** A box built by `EvalBoundingBox` from an orthonormal frame with
      aMin <= aMax contains its own eight corners. */
  lemma EvaluatedBoxContainsCorners(aMin: Vec3, aMax: Vec3, t0: Vec3, t1: Vec3, t2: Vec3, root: real)
    requires root >= 0.0 && root * root == RadiusSq(Sub(aMax, aMin))
    requires aMin.x <= aMax.x && aMin.y <= aMax.y && aMin.z <= aMax.z
    requires Orthonormal(t0, t1, t2)
    ensures BoxInside(EvalBoundingBox(aMin, aMax, t0, t1, t2, root), EvalBoundingBox(aMin, aMax, t0, t1, t2, root), 0.0)
  {
    var b := EvalBoundingBox(aMin, aMax, t0, t1, t2, root);
    var mid := Add(aMin, Scale(0.5, Sub(aMax, aMin)));
    forall k | 0 <= k < 8 ensures PointInside(b, b.corners[k], 0.0) {
      var v := CornerLocal(aMin, aMax, k);
      assert b.corners[k] == RowTimes(v, t0, t1, t2);
      RowTimesSub(v, mid, t0, t1, t2);
      forall i | 0 <= i < 3 ensures Abs(Dot(Sub(b.corners[k], b.center), b.Base(i))) <= At(b.half, i) {
        RowTimesDot(Sub(v, mid), t0, t1, t2, i);
      }
    }
  }

  /** Corner k of `EvalBoundingBox` in frame coordinates. */
  function CornerLocal(lo: Vec3, hi: Vec3, k: nat): Vec3
    requires k < 8
  {
    [Vec3(lo.x, lo.y, lo.z), Vec3(lo.x, lo.y, hi.z), Vec3(lo.x, hi.y, hi.z), Vec3(lo.x, hi.y, lo.z),
     Vec3(hi.x, lo.y, lo.z), Vec3(hi.x, lo.y, hi.z), Vec3(hi.x, hi.y, hi.z), Vec3(hi.x, hi.y, lo.z)][k]
  }

  lemma RowTimesSub(v: Vec3, w: Vec3, t0: Vec3, t1: Vec3, t2: Vec3)
    ensures Sub(RowTimes(v, t0, t1, t2), RowTimes(w, t0, t1, t2)) == RowTimes(Sub(v, w), t0, t1, t2)
  {
    var a0, a1, a2 := Scale(v.x, t0), Scale(v.y, t1), Scale(v.z, t2);
    var b0, b1, b2 := Scale(w.x, t0), Scale(w.y, t1), Scale(w.z, t2);
    SubAdd(Add(a0, a1), a2, Add(b0, b1), b2);
    SubAdd(a0, a1, b0, b1);
    ScaleSub(v.x, w.x, t0);
    ScaleSub(v.y, w.y, t1);
    ScaleSub(v.z, w.z, t2);
  }

  lemma SubAdd(p: Vec3, q: Vec3, r: Vec3, s: Vec3)
    ensures Sub(Add(p, q), Add(r, s)) == Add(Sub(p, r), Sub(q, s))
  {
  }

  lemma ScaleSub(a: real, b: real, t: Vec3)
    ensures Sub(Scale(a, t), Scale(b, t)) == Scale(a - b, t)
  {
    assert (a - b) * t.x == a * t.x - b * t.x;
    assert (a - b) * t.y == a * t.y - b * t.y;
    assert (a - b) * t.z == a * t.z - b * t.z;
  }

  lemma RowTimesDot(v: Vec3, t0: Vec3, t1: Vec3, t2: Vec3, i: nat)
    requires i < 3 && Orthonormal(t0, t1, t2)
    ensures Dot(RowTimes(v, t0, t1, t2), [t0, t1, t2][i]) == At(v, i)
  {
    var u := [t0, t1, t2][i];
    DotScale(v.x, t0, u);
    DotScale(v.y, t1, u);
    DotScale(v.z, t2, u);
    DotAdd(Scale(v.x, t0), Scale(v.y, t1), u);
    DotAdd(Add(Scale(v.x, t0), Scale(v.y, t1)), Scale(v.z, t2), u);
    assert Dot(RowTimes(v, t0, t1, t2), u) == v.x * Dot(t0, u) + v.y * Dot(t1, u) + v.z * Dot(t2, u);
    if i == 0 {
      assert Dot(t1, u) == Dot(t0, t1) && Dot(t2, u) == Dot(t0, t2);
    } else if i == 1 {
      assert Dot(t0, u) == Dot(t0, t1) && Dot(t2, u) == Dot(t1, t2);
    } else {
      assert Dot(t0, u) == Dot(t0, t2) && Dot(t1, u) == Dot(t1, t2);
    }
  }

  lemma DotScale(s: real, a: Vec3, u: Vec3)
    ensures Dot(Scale(s, a), u) == s * Dot(a, u)
  {
    assert (s * a.x) * u.x == s * (a.x * u.x);
    assert (s * a.y) * u.y == s * (a.y * u.y);
    assert (s * a.z) * u.z == s * (a.z * u.z);
  }

  lemma DotAdd(a: Vec3, b: Vec3, u: Vec3)
    ensures Dot(Add(a, b), u) == Dot(a, u) + Dot(b, u)
  {
    assert (a.x + b.x) * u.x == a.x * u.x + b.x * u.x;
    assert (a.y + b.y) * u.y == a.y * u.y + b.y * u.y;
    assert (a.z + b.z) * u.z == a.z * u.z + b.z * u.z;
  }

  // ---------------------------------------------------------------------
  // The box object

  /** `CBoundingBox`: the fields of one box; `Move` shifts the centre and the
      corner vectors in place. */
  class CBoundingBox {
    var center: Vec3
    var corners: seq<Vec3>
    var ax: Vec3
    var ay: Vec3
    var az: Vec3
    var size: Vec3
    var half: Vec3
    var radius: real

    /** The box's current field values. */
    function Value(): Box
      reads this
    {
      Box(center, corners, ax, ay, az, size, half, radius)
    }

    /** A box object holding the fields `_EvalBoundingBox` computed. */
    constructor FromBox(b: Box)
      ensures Value() == b
    {
      center, corners, ax, ay, az := b.center, b.corners, b.ax, b.ay, b.az;
      size, half, radius := b.size, b.half, b.radius;
    }

    /** `Move`: add `d` to the centre and to every corner. */
    method Move(d: Vec3)
      modifies this
      ensures Value() == Moved(old(Value()), d)
    {
      center := Add(center, d);
      var i := 0;
      while i < |corners|
        invariant 0 <= i <= |corners| == |old(corners)|
        invariant forall k | 0 <= k < i :: corners[k] == Add(old(corners)[k], d)
        invariant forall k | i <= k < |corners| :: corners[k] == old(corners)[k]
        invariant center == Add(old(center), d)
        invariant ax == old(ax) && ay == old(ay) && az == old(az)
        invariant size == old(size) && half == old(half) && radius == old(radius)
      {
        corners := corners[i := Add(corners[i], d)];
        i := i + 1;
      }
    }

    /** `GetDelta`: the offset sum of rel_i * size_i * base_i; the relative
        position must have exactly three entries. */
    method GetDelta(rel: seq<real>) returns (r: Result<Vec3>)
      ensures r.Ok? <==> |rel| == 3
      ensures r.Ok? ==> r.value == DeltaOf(Value(), rel)
    {
      if |rel| != 3 {
        return Err("Relative position must be list of three floats");
      }
      var b := Value();
      var delta := Zero;
      var i := 0;
      while i < 3
        invariant 0 <= i <= 3 && delta == PartialDelta(b, rel, i)
      {
        delta := Add(delta, Scale(rel[i] * At(b.size, i), b.Base(i)));
        i := i + 1;
      }
      PartialDeltaFull(b, rel);
      r := Ok(delta);
    }

    /** `IsAnyPointInside`: some point passes the point test. */
    method IsAnyPointInside(pts: seq<Vec3>, border: real) returns (inside: bool)
      ensures inside == AnyInside(Value(), pts, border)
    {
      inside := false;
      var k := 0;
      while k < |pts|
        invariant 0 <= k <= |pts|
        invariant forall j | 0 <= j < k :: !PointInside(Value(), pts[j], border)
      {
        if PointInside(Value(), pts[k], border) {
          inside := true;
          break;
        }
        k := k + 1;
      }
    }

    /** `AllPointsInside`: every point passes the point test. */
    method AllPointsInside(pts: seq<Vec3>, border: real) returns (inside: bool)
      ensures inside == AllInside(Value(), pts, border)
    {
      inside := true;
      var k := 0;
      while k < |pts|
        invariant 0 <= k <= |pts|
        invariant forall j | 0 <= j < k :: PointInside(Value(), pts[j], border)
      {
        if !PointInside(Value(), pts[k], border) {
          inside := false;
          break;
        }
        k := k + 1;
      }
    }

    /** `AllPointsToOneSideOfBoundBox`: along some frame axis all points lie
        beyond the same face of the box. */
    method AllPointsToOneSideOfBoundBox(pts: seq<Vec3>) returns (outside: bool)
      ensures outside == OneSide(Value(), pts)
    {
      outside := false;
      var i := 0;
      while i < 3
        invariant 0 <= i <= 3
        invariant forall j | 0 <= j < i :: !BeyondSlab(Value(), pts, j)
      {
        if BeyondSlab(Value(), pts, i) {
          outside := true;
          break;
        }
        i := i + 1;
      }
    }

    /** `TestIntersect`: false when the enclosing spheres are apart or the
        corners of one box lie beyond one face slab of the other. */
    static method TestIntersect(a: CBoundingBox, b: CBoundingBox) returns (r: bool)
      ensures r == MayIntersect(a.Value(), b.Value())
    {
      var s := a.radius + b.radius;
      if s < 0.0 || LengthSq(Sub(a.center, b.center)) > s * s {
        return false;
      }
      var sideA := a.AllPointsToOneSideOfBoundBox(b.corners);
      if sideA {
        return false;
      }
      var sideB := b.AllPointsToOneSideOfBoundBox(a.corners);
      if sideB {
        return false;
      }
      return true;
    }

    /** `Intersects`. */
    method Intersects(other: CBoundingBox) returns (r: bool)
      ensures r == MayIntersect(Value(), other.Value())
    {
      r := TestIntersect(this, other);
    }

    /** `IsInside`: all of this box's corners are inside `other`. */
    method IsInside(other: CBoundingBox, border: real) returns (r: bool)
      ensures r == BoxInside(Value(), other.Value(), border)
    {
      r := other.AllPointsInside(corners, border);
    }

    /** `IsOutside`: none of this box's corners is inside `other`. */
    method IsOutside(other: CBoundingBox, border: real) returns (r: bool)
      ensures r == BoxOutside(Value(), other.Value(), border)
    {
      var any := other.IsAnyPointInside(corners, border);
      r := !any;
    }
  }

  /** Sum of the first `n` terms of `DeltaOf`. */
  function PartialDelta(b: Box, rel: seq<real>, n: nat): Vec3
    requires n <= 3 && |rel| == 3
  {
    if n == 0 then Zero
    else Add(PartialDelta(b, rel, n - 1), Scale(rel[n - 1] * At(b.size, n - 1), b.Base(n - 1)))
  }

  lemma PartialDeltaFull(b: Box, rel: seq<real>)
    requires |rel| == 3
    ensures PartialDelta(b, rel, 3) == DeltaOf(b, rel)
  {
    var t0, t1, t2 := Scale(rel[0] * b.size.x, b.ax), Scale(rel[1] * b.size.y, b.ay), Scale(rel[2] * b.size.z, b.az);
    assert PartialDelta(b, rel, 1) == t0;
    assert PartialDelta(b, rel, 2) == Add(t0, t1);
    assert PartialDelta(b, rel, 3) == Add(Add(t0, t1), t2);
  }
}
