/** The polygon table behind surface sampling (cls_polygons.py): per object
    the kept polygons and vertex weights, the running polygon counts that map
    an absolute polygon index to (object, local index), and the cumulative
    distribution used for area-weighted sampling. */
module Polygons {
  import opened Wrappers
  import opened Vectors
  import Objects
  import Strings

  /** `CObjectData`. */
  datatype ObjectData = ObjectData(name: string, weights: seq<real>, polys: seq<seq<nat>>, vex: seq<Vec3>, maxWeight: real)

  // ---------------------------------------------------------------------
  // Running counts

  function Counts(objects: seq<ObjectData>): (c: seq<nat>)
    ensures |c| == |objects| && forall k | 0 <= k < |objects| :: c[k] == |objects[k].polys|
  {
    seq(|objects|, k requires 0 <= k < |objects| => |objects[k].polys|)
  }

  /** `_lAccumPolyCount` as `_Update` builds it: 0 followed by the running
      totals of the counts. */
  function PrefixSums(c: seq<nat>): (r: seq<nat>)
    ensures |r| == |c| + 1 && r[0] == 0
  {
    if |c| == 0 then [0]
    else
      var p := PrefixSums(c[..|c| - 1]);
      p + [p[|c| - 1] + c[|c| - 1]]
  }

  /** Entry k + 1 of the running counts is entry k plus count k. */
  lemma {:induction false} PrefixSumsStep(c: seq<nat>, k: nat)
    requires k < |c|
    ensures PrefixSums(c)[k + 1] == PrefixSums(c)[k] + c[k]
  {
    if k < |c| - 1 {
      PrefixSumsStep(c[..|c| - 1], k);
    }
  }

  function Sum(c: seq<nat>): nat {
    if |c| == 0 then 0 else Sum(c[..|c| - 1]) + c[|c| - 1]
  }

  /** The last running count is the total. */
  lemma {:induction false} PrefixSumsLastIsSum(c: seq<nat>)
    ensures PrefixSums(c)[|c|] == Sum(c)
  {
    if |c| > 0 {
      PrefixSumsLastIsSum(c[..|c| - 1]);
    }
  }

  lemma {:induction false} PrefixSumsMonotone(c: seq<nat>, j: nat, k: nat)
    requires j <= k <= |c|
    ensures PrefixSums(c)[j] <= PrefixSums(c)[k]
    decreases k - j
  {
    if j < k {
      PrefixSumsMonotone(c, j, k - 1);
      PrefixSumsStep(c, k - 1);
    }
  }

  /** Only one slot of the running counts holds a given index. */
  lemma LocateUnique(c: seq<nat>, i: int, k: nat, k': nat)
    requires k < |c| && PrefixSums(c)[k] <= i < PrefixSums(c)[k + 1]
    requires k' < |c| && PrefixSums(c)[k'] <= i < PrefixSums(c)[k' + 1]
    ensures k' == k
  {
    if k' < k {
      PrefixSumsMonotone(c, k' + 1, k);
    } else if k < k' {
      PrefixSumsMonotone(c, k + 1, k');
    }
  }

  // ---------------------------------------------------------------------
  // Vertex weights of one polygon

  predicate IndicesIn(p: seq<nat>, n: nat) {
    forall k | 0 <= k < |p| :: p[k] < n
  }

  /** Sum of the weights of the polygon's vertices (`sum(lW)`). */
  function SumAt(w: seq<real>, p: seq<nat>): real
    requires IndicesIn(p, |w|)
  {
    if |p| == 0 then 0.0 else SumAt(w, p[..|p| - 1]) + w[p[|p| - 1]]
  }

  /** Largest weight of the polygon's vertices (`max(lW)`). */
  function MaxAt(w: seq<real>, p: seq<nat>): (m: real)
    requires |p| > 0 && IndicesIn(p, |w|)
    ensures forall k | 0 <= k < |p| :: w[p[k]] <= m
    ensures exists k | 0 <= k < |p| :: w[p[k]] == m
  {
    if |p| == 1 then w[p[0]]
    else
      var m := MaxAt(w, p[..|p| - 1]);
      assert forall k | 0 <= k < |p| - 1 :: p[..|p| - 1][k] == p[k];
      if w[p[|p| - 1]] > m then w[p[|p| - 1]] else m
  }

  /** `GetPolyWeight`: the mean vertex weight. */
  function MeanWeight(w: seq<real>, p: seq<nat>): real
    requires |p| > 0 && IndicesIn(p, |w|)
  {
    SumAt(w, p) / (|p| as real)
  }

  lemma MeanPositive(w: seq<real>, p: seq<nat>)
    requires PolyValid(w, p)
    ensures MeanWeight(w, p) > 0.0
  {
  }

  /** The polygons `AddFromObject` keeps: those whose weight sum is positive,
      in mesh order. */
  function Kept(w: seq<real>, ps: seq<seq<nat>>): (r: seq<seq<nat>>)
    requires forall j | 0 <= j < |ps| :: IndicesIn(ps[j], |w|)
    ensures forall i | 0 <= i < |r| :: r[i] in ps && IndicesIn(r[i], |w|) && SumAt(w, r[i]) > 0.0
    ensures forall j | 0 <= j < |ps| && SumAt(w, ps[j]) > 0.0 :: ps[j] in r
    ensures |r| <= |ps|
  {
    if |ps| == 0 then []
    else
      var n := |ps| - 1;
      var front := Kept(w, ps[..n]);
      assert forall j | 0 <= j < n :: ps[..n][j] == ps[j];
      assert forall q | q in ps[..n] :: q in ps;
      if SumAt(w, ps[n]) > 0.0 then front + [ps[n]] else front
  }

  /** Over non-empty polygons, every kept polygon is valid for storage. */
  lemma {:induction false} KeptValid(w: seq<real>, ps: seq<seq<nat>>)
    requires forall j | 0 <= j < |ps| :: |ps[j]| > 0 && IndicesIn(ps[j], |w|)
    ensures forall i | 0 <= i < |Kept(w, ps)| :: PolyValid(w, Kept(w, ps)[i])
  {
    if |ps| > 0 {
      var n := |ps| - 1;
      assert forall j | 0 <= j < n :: ps[..n][j] == ps[j];
      KeptValid(w, ps[..n]);
    }
  }

  /** The object's maximum weight: the largest vertex weight over ALL its
      polygons (kept or not), never below the start value 0.0. */
  function ObjMaxWeight(w: seq<real>, ps: seq<seq<nat>>): (m: real)
    requires forall j | 0 <= j < |ps| :: |ps[j]| > 0 && IndicesIn(ps[j], |w|)
    ensures m >= 0.0
    ensures forall j, k | 0 <= j < |ps| && 0 <= k < |ps[j]| && ps[j][k] < |w| :: w[ps[j][k]] <= m
  {
    if |ps| == 0 then 0.0
    else
      var n := |ps| - 1;
      assert forall j | 0 <= j < n :: ps[..n][j] == ps[j];
      var m := ObjMaxWeight(w, ps[..n]);
      var f := MaxAt(w, ps[n]);
      if f > m then f else m
  }

  // ---------------------------------------------------------------------
  // Sampling by area and weight

  /** `_aDistribution`: the running sums of the terms (area times mean
      weight) divided by the last one. When that is 0 every entry is 0/0, a
      NaN, against which every comparison fails. */
  datatype Dist = Finite(values: seq<real>) | AllNaN(len: nat) {
    function Length(): nat { if Finite? then |values| else len }
  }

  function RunningSums(t: seq<real>): (r: seq<real>)
    ensures |r| == |t|
    ensures |t| > 0 ==> r[0] == t[0]
  {
    if |t| == 0 then []
    else
      var p := RunningSums(t[..|t| - 1]);
      if |p| == 0 then [t[0]] else p + [p[|p| - 1] + t[|t| - 1]]
  }

  /** Entry k of the running sums is entry k - 1 plus term k. */
  lemma {:induction false} RunningSumsStep(t: seq<real>, k: nat)
    requires 0 < k < |t|
    ensures RunningSums(t)[k] == RunningSums(t)[k - 1] + t[k]
  {
    if k < |t| - 1 {
      RunningSumsStep(t[..|t| - 1], k);
    }
  }

  /** `np.cumsum(terms) / cumsum[-1]`; indexing `[-1]` of an empty array is
      an error. */
  function Distribution(t: seq<real>): (r: Result<Dist>)
    ensures r.Ok? <==> |t| > 0
    ensures r.Ok? ==> r.value.Length() == |t|
  {
    if |t| == 0 then Err("index -1 is out of bounds for axis 0 with size 0")
    else
      var c := RunningSums(t);
      var last := c[|t| - 1];
      if last == 0.0 then Ok(AllNaN(|t|))
      else Ok(Finite(seq(|t|, i requires 0 <= i < |t| => c[i] / last)))
  }

  /** `np.argmax(u < dist)`: the first index whose entry exceeds `u`, and 0
      when there is none (argmax of an all-false array). */
  function SampleIndex(d: Dist, u: real): (r: nat)
    ensures d.Length() > 0 ==> r < d.Length()
    ensures d.Finite? && (exists i | 0 <= i < |d.values| :: u < d.values[i]) ==>
              u < d.values[r] && forall j | 0 <= j < r :: !(u < d.values[j])
    ensures d.AllNaN? ==> r == 0
  {
    if d.AllNaN? then 0 else FirstAbove(d.values, u, 0)
  }

  function FirstAbove(v: seq<real>, u: real, from: nat): (r: nat)
    requires from <= |v|
    ensures |v| > 0 ==> r < |v|
    ensures (exists i | from <= i < |v| :: u < v[i]) ==> from <= r && u < v[r] && forall j | from <= j < r :: !(u < v[j])
    ensures !(exists i | from <= i < |v| :: u < v[i]) ==> r == 0
    decreases |v| - from
  {
    if from == |v| then 0
    else if u < v[from] then from
    else FirstAbove(v, u, from + 1)
  }

  /** For non-negative terms with a positive total and a draw 0 <= u < 1,
      the sampled index `r` is the one whose slice of the running sum holds
      u * total, so a polygon whose term is 0 is never chosen. */
  lemma {:induction false} SampleHitsPositiveTerm(t: seq<real>, u: real)
    requires |t| > 0 && forall k | 0 <= k < |t| :: t[k] >= 0.0
    requires RunningSums(t)[|t| - 1] > 0.0
    requires 0.0 <= u < 1.0
    ensures Distribution(t).Ok? && Distribution(t).value.Finite?
    ensures t[SampleIndex(Distribution(t).value, u)] > 0.0
  {
    var c := RunningSums(t);
    var last := c[|t| - 1];
    var d := Distribution(t).value;
    assert d.values[|t| - 1] == 1.0;
    var r := SampleIndex(d, u);
    assert u < d.values[r];
    if r == 0 {
      assert d.values[0] == t[0] / last;
      assert t[0] > 0.0;
    } else {
      assert !(u < d.values[r - 1]);
      RunningSumsStep(t, r);
      assert c[r - 1] / last <= u < c[r] / last;
      DivMonotone(c[r - 1], c[r], last);
    }
  }

  lemma DivMonotone(a: real, b: real, q: real)
    requires q > 0.0 && a / q < b / q
    ensures a < b
  {
  }

  // ---------------------------------------------------------------------
  // Uniform barycentric weights

  predicate SortedReals(s: seq<real>) {
    forall i, j | 0 <= i < j < |s| :: s[i] <= s[j]
  }

  function Insert(x: real, s: seq<real>): (r: seq<real>)
    requires SortedReals(s)
    ensures |r| == |s| + 1
    ensures SortedReals(r) && multiset(r) == multiset(s) + multiset{x}
  {
    if |s| == 0 then [x]
    else if x <= s[0] then [x] + s
    else
      assert s == [s[0]] + s[1..];
      var t := Insert(x, s[1..]);
      InsertBelowHead(x, s, t);
      [s[0]] + t
  }

  /** Every element of `t` (a permutation of s[1..] plus x > s[0]) is at
      least s[0]. */
  lemma InsertBelowHead(x: real, s: seq<real>, t: seq<real>)
    requires |s| > 0 && SortedReals(s) && s[0] < x
    requires multiset(t) == multiset(s[1..]) + multiset{x}
    ensures forall k | 0 <= k < |t| :: s[0] <= t[k]
  {
    forall k | 0 <= k < |t| ensures s[0] <= t[k] {
      assert t[k] in multiset(t);
      if t[k] != x {
        assert t[k] in multiset(s[1..]);
        var j :| 0 <= j < |s[1..]| && s[1..][j] == t[k];
        assert s[j + 1] == t[k];
      }
    }
  }

  /** `np.sort`. */
  function Sort(s: seq<real>): (r: seq<real>)
    ensures |r| == |s|
    ensures SortedReals(r) && multiset(r) == multiset(s)
  {
    if |s| == 0 then []
    else
      assert s == s[..|s| - 1] + [s[|s| - 1]];
      Insert(s[|s| - 1], Sort(s[..|s| - 1]))
  }

  /** `aProbs`: the gaps between consecutive entries of [0] + cuts + [1]. */
  function Gaps(cuts: seq<real>): (g: seq<real>)
    ensures |g| == |cuts| + 1
  {
    var b := [0.0] + cuts + [1.0];
    seq(|cuts| + 1, i requires 0 <= i <= |cuts| => b[i + 1] - b[i])
  }

  function SumReals(s: seq<real>): real {
    if |s| == 0 then 0.0 else SumReals(s[..|s| - 1]) + s[|s| - 1]
  }

  /** The uniform simplex weights for a polygon of n vertices: the gaps
      between 0, the n - 1 sorted draws and 1. */
  function SimplexWeights(draws: nat -> real, n: nat): (g: seq<real>)
    requires n > 0
    ensures |g| == n
  {
    Gaps(Sort(seq(n - 1, k requires 0 <= k < n - 1 => draws(k))))
  }

  lemma {:induction false} GapsTelescope(b: seq<real>, m: nat)
    requires 1 <= m <= |b|
    ensures SumReals(seq(m - 1, i requires 0 <= i < m - 1 => b[i + 1] - b[i])) == b[m - 1] - b[0]
  {
    if m > 1 {
      var s := seq(m - 1, i requires 0 <= i < m - 1 => b[i + 1] - b[i]);
      GapsTelescope(b, m - 1);
      assert s[..m - 2] == seq(m - 2, i requires 0 <= i < m - 2 => b[i + 1] - b[i]);
      assert SumReals(s) == SumReals(s[..m - 2]) + s[m - 2];
    }
  }

  /** For draws in [0, 1] the simplex weights are non-negative and sum to 1. */
  lemma SimplexWeightsAreBarycentric(draws: nat -> real, n: nat)
    requires n > 0
    requires forall k :: 0.0 <= draws(k) <= 1.0
    ensures forall i | 0 <= i < n :: SimplexWeights(draws, n)[i] >= 0.0
    ensures SumReals(SimplexWeights(draws, n)) == 1.0
  {
    var d := seq(n - 1, k requires 0 <= k < n - 1 => draws(k));
    var cuts := Sort(d);
    SortedStaysInUnit(d, cuts);
    GapsNonNegative(cuts);
    GapsSumToOne(cuts);
  }

  lemma SortedStaysInUnit(d: seq<real>, cuts: seq<real>)
    requires forall k | 0 <= k < |d| :: 0.0 <= d[k] <= 1.0
    requires multiset(cuts) == multiset(d)
    ensures forall k | 0 <= k < |cuts| :: 0.0 <= cuts[k] <= 1.0
  {
    forall k | 0 <= k < |cuts| ensures 0.0 <= cuts[k] <= 1.0 {
      assert cuts[k] in multiset(cuts);
      assert cuts[k] in d;
    }
  }

  lemma GapsNonNegative(cuts: seq<real>)
    requires SortedReals(cuts) && forall k | 0 <= k < |cuts| :: 0.0 <= cuts[k] <= 1.0
    ensures forall i | 0 <= i < |Gaps(cuts)| :: Gaps(cuts)[i] >= 0.0
  {
    var b := [0.0] + cuts + [1.0];
    forall i | 0 <= i <= |cuts| ensures b[i + 1] - b[i] >= 0.0 {
      if 0 < i < |cuts| {
        assert b[i] == cuts[i - 1] && b[i + 1] == cuts[i];
      } else if i == 0 && |cuts| > 0 {
        assert b[1] == cuts[0];
      } else if i == |cuts| && |cuts| > 0 {
        assert b[i] == cuts[i - 1];
      }
    }
  }

  lemma GapsSumToOne(cuts: seq<real>)
    ensures SumReals(Gaps(cuts)) == 1.0
  {
    var b := [0.0] + cuts + [1.0];
    GapsTelescope(b, |cuts| + 2);
    assert Gaps(cuts) == seq(|cuts| + 1, i requires 0 <= i < |cuts| + 1 => b[i + 1] - b[i]);
  }

  /** Sum of per-vertex coefficient times position. */
  function WeightedSum(vs: seq<Vec3>, c: seq<real>): Vec3
    requires |vs| == |c|
  {
    if |vs| == 0 then Zero else Add(WeightedSum(vs[..|vs| - 1], c[..|c| - 1]), Scale(c[|c| - 1], vs[|vs| - 1]))
  }

  /** Position `sum(v_i * p_i * w_i) / sum(p_i * w_i)`; `None` stands for the
      NaN position of a zero denominator. */
  function BarycentricPosition(vs: seq<Vec3>, c: seq<real>): Option<Vec3>
    requires |vs| == |c|
  {
    var s := SumReals(c);
    if s == 0.0 then None else Some(Scale(1.0 / s, WeightedSum(vs, c)))
  }

  lemma {:induction false} WeightedSumOfEqual(vs: seq<Vec3>, c: seq<real>, v: Vec3)
    requires |vs| == |c| && forall i | 0 <= i < |vs| :: vs[i] == v
    ensures WeightedSum(vs, c) == Scale(SumReals(c), v)
  {
    if |vs| > 0 {
      var n := |vs| - 1;
      WeightedSumOfEqual(vs[..n], c[..n], v);
      assert SumReals(c) == SumReals(c[..n]) + c[n];
      ScaleDistributes(SumReals(c[..n]), c[n], v);
    }
  }

  lemma ScaleDistributes(a: real, b: real, v: Vec3)
    ensures Scale(a + b, v) == Add(Scale(a, v), Scale(b, v))
  {
  }

  /** A degenerate polygon whose vertices all coincide yields that vertex. */
  lemma BarycentricOfEqualVertices(vs: seq<Vec3>, c: seq<real>, v: Vec3)
    requires |vs| == |c| && forall i | 0 <= i < |vs| :: vs[i] == v
    requires SumReals(c) != 0.0
    ensures BarycentricPosition(vs, c) == Some(v)
  {
    var t := SumReals(c);
    WeightedSumOfEqual(vs, c, v);
    InverseScale(t, v.x);
    InverseScale(t, v.y);
    InverseScale(t, v.z);
    assert Scale(1.0 / t, Scale(t, v)) == v;
  }

  lemma InverseScale(t: real, x: real)
    requires t != 0.0
    ensures (1.0 / t) * (t * x) == x
  {
  }

  // ---------------------------------------------------------------------
  // The table

  predicate IndexMatches(objects: seq<ObjectData>, index: map<string, nat>) {
    && (forall n | n in index :: index[n] < |objects| && objects[index[n]].name == n)
    && (forall k | 0 <= k < |objects| :: objects[k].name in index && index[objects[k].name] == k)
  }

  /** What every stored object satisfies: at least one polygon, and every
      polygon non-empty, over valid vertex indices, with a positive weight sum. */
  predicate DataValid(d: ObjectData) {
    && |d.polys| > 0 && |d.vex| == |d.weights|
    && forall j | 0 <= j < |d.polys| :: PolyValid(d.weights, d.polys[j])
  }

  predicate PolyValid(w: seq<real>, p: seq<nat>) {
    |p| > 0 && IndicesIn(p, |w|) && SumAt(w, p) > 0.0
  }

  /** A mesh as Blender delivers it: polygons are non-empty and index
      existing vertices. */
  predicate MeshWellFormed(m: Objects.Mesh) {
    forall j | 0 <= j < |m.polygons| :: |m.polygons[j]| > 0 && IndicesIn(m.polygons[j], |m.vertices|)
  }

  /** The per-polygon sampling terms in table order: area (given by the
      caller, `areaOf(object, polygon)`) times mean weight. */
  function Terms(objects: seq<ObjectData>, areaOf: (nat, nat) -> real): (t: seq<real>)
    requires forall k | 0 <= k < |objects| :: DataValid(objects[k])
    ensures |t| == Sum(Counts(objects))
  {
    if |objects| == 0 then []
    else
      var n := |objects| - 1;
      var d := objects[n];
      assert DataValid(d);
      assert forall p | 0 <= p < |d.polys| :: PolyValid(d.weights, d.polys[p]);
      assert Counts(objects)[..n] == Counts(objects[..n]);
      Terms(objects[..n], areaOf) + seq(|d.polys|, p requires 0 <= p < |d.polys| => areaOf(n, p) * MeanWeight(d.weights, d.polys[p]))
  }

  /** The running counts agree with the objects (`_Update` is only called
      once an object exists, so an empty table has no entries at all). */
  predicate AccumValid(objects: seq<ObjectData>, accum: seq<nat>, total: nat) {
    && (|objects| == 0 ==> accum == [] && total == 0)
    && (|objects| > 0 ==> accum == PrefixSums(Counts(objects)) && total == accum[|objects|])
  }

  /** The distribution of a table, None when it cannot be computed. */
  function DistributionFor(objects: seq<ObjectData>, areaOf: (nat, nat) -> real): Option<Dist>
    requires AllDataValid(objects)
  {
    match Distribution(Terms(objects, areaOf))
    case Ok(d) => Some(d)
    case Err(_) => None
  }

  /** The distribution has one entry per stored polygon. */
  lemma DistributionFits(objects: seq<ObjectData>, index: map<string, nat>, accum: seq<nat>, total: nat,
                         areaOf: (nat, nat) -> real)
    requires TableValid(objects, index, accum, total)
    ensures Distribution(Terms(objects, areaOf)).Ok? ==> Distribution(Terms(objects, areaOf)).value.Length() == total
  {
    if |objects| > 0 {
      PrefixSumsLastIsSum(Counts(objects));
    }
  }

  predicate AllDataValid(objects: seq<ObjectData>) {
    forall k | 0 <= k < |objects| :: DataValid(objects[k])
  }

  lemma IndexAppend(objects: seq<ObjectData>, index: map<string, nat>, d: ObjectData)
    requires IndexMatches(objects, index) && d.name !in index
    ensures IndexMatches(objects + [d], index[d.name := |objects|])
  {
  }

  /** Appending an object adds its polygon count to the total. */
  lemma {:induction false} TotalAppend(objects: seq<ObjectData>, accum: seq<nat>, total: nat, d: ObjectData)
    requires AccumValid(objects, accum, total)
    ensures PrefixSums(Counts(objects + [d]))[|objects| + 1] == total + |d.polys|
  {
    var c := Counts(objects + [d]);
    assert c[..|objects|] == Counts(objects);
    if |objects| == 0 {
      assert PrefixSums(c)[0] == 0;
    }
  }

  /** The stored objects, their name index and the running counts agree. */
  predicate TableValid(objects: seq<ObjectData>, index: map<string, nat>, accum: seq<nat>, total: nat) {
    AccumValid(objects, accum, total) && IndexMatches(objects, index) && AllDataValid(objects)
  }

  /** Appending a valid object under a fresh name keeps the index, the data
      and the cached distribution valid once the counts are recomputed. */
  lemma AppendKeepsValid(objects: seq<ObjectData>, index: map<string, nat>, accum: seq<nat>, total: nat,
                         distribution: Option<Dist>, d: ObjectData)
    requires AccumValid(objects, accum, total) && IndexMatches(objects, index) && AllDataValid(objects)
    requires distribution.Some? ==> 0 < distribution.value.Length() <= total
    requires DataValid(d) && d.name !in index
    ensures IndexMatches(objects + [d], index[d.name := |objects|]) && AllDataValid(objects + [d])
    ensures distribution.Some? ==> distribution.value.Length() <= PrefixSums(Counts(objects + [d]))[|objects| + 1]
  {
    TotalAppend(objects, accum, total, d);
    IndexAppend(objects, index, d);
  }

  function OutOfRange(i: int): string {
    "Polynomial index '" + Strings.IntToString(i) + "' out of range"
  }

  /** `CPolygons`. */
  class CPolygons {
    var objects: seq<ObjectData>
    var index: map<string, nat>
    var totalPolyCount: nat
    var accum: seq<nat>
    var maxWeight: real
    var distribution: Option<Dist>

    ghost predicate Valid()
      reads this
    {
      && TableValid(objects, index, accum, totalPolyCount)
      && (distribution.Some? ==> 0 < distribution.value.Length() <= totalPolyCount)
    }

    constructor ()
      ensures Valid() && objects == [] && index == map[] && maxWeight == 0.0 && distribution == None
    {
      objects, index, totalPolyCount, accum, maxWeight, distribution := [], map[], 0, [], 0.0, None;
    }

    /** `_Update`: recompute the running counts and the total. */
    method Update()
      modifies this
      ensures accum == PrefixSums(Counts(objects)) && totalPolyCount == accum[|objects|]
      ensures objects == old(objects) && index == old(index)
      ensures maxWeight == old(maxWeight) && distribution == old(distribution)
    {
      totalPolyCount := 0;
      accum := [0];
      ghost var c := Counts(objects);
      for k := 0 to |objects|
        invariant objects == old(objects) && index == old(index)
        invariant maxWeight == old(maxWeight) && distribution == old(distribution)
        invariant accum == PrefixSums(c[..k]) && totalPolyCount == accum[k]
      {
        assert c[..k + 1][..k] == c[..k];
        totalPolyCount := totalPolyCount + |objects[k].polys|;
        accum := accum + [totalPolyCount];
      }
      assert c[..|objects|] == c;
    }

    /** `_GetObjectPolyIdx`: the local index and object k of absolute polygon
        index i, with accum[k] <= i < accum[k + 1]; an error for a negative
        index or one at or beyond the total. */
    method GetObjectPolyIdx(i: int) returns (r: Result<(nat, nat)>)
      requires Valid()
      ensures r.Ok? <==> 0 <= i < totalPolyCount
      ensures r.Ok? ==> r.value.1 < |objects| && accum[r.value.1] <= i < accum[r.value.1 + 1]
      ensures r.Ok? ==> r.value.0 == i - accum[r.value.1] && r.value.0 < |objects[r.value.1].polys|
      ensures r.Err? ==> r.msg == OutOfRange(i)
    {
      if i < 0 {
        return Err(OutOfRange(i));
      }
      var k := 1;
      while k < |accum|
        invariant 1 <= k && (|objects| > 0 ==> k <= |accum|)
        invariant |objects| > 0 ==> forall j | 1 <= j < k :: accum[j] <= i
      {
        if i < accum[k] {
          assert k == 1 || accum[k - 1] <= i;
          PrefixSumsStep(Counts(objects), k - 1);
          PrefixSumsMonotone(Counts(objects), k, |objects|);
          return Ok((i - accum[k - 1], k - 1));
        }
        k := k + 1;
      }
      if |objects| > 0 {
        assert accum[|objects|] <= i;
      }
      return Err(OutOfRange(i));
    }

    /** `GetPolyVertices`: the vertex positions of the indexed polygon, in
        the polygon's vertex order. */
    method GetPolyVertices(i: int) returns (r: Result<seq<Vec3>>)
      requires Valid()
      ensures r.Ok? <==> 0 <= i < totalPolyCount
      ensures r.Err? ==> r.msg == OutOfRange(i)
      ensures r.Ok? ==> forall k: nat {:trigger InSlot(objects, accum, i, k)} | k < |objects| && InSlot(objects, accum, i, k) ::
                          var d, p := objects[k], objects[k].polys[i - accum[k]];
                          |r.value| == |p| && forall j | 0 <= j < |p| :: p[j] < |d.vex| && r.value[j] == d.vex[p[j]]
    {
      var loc := GetObjectPolyIdx(i);
      if loc.Err? {
        return Err(loc.msg);
      }
      var (local, k) := loc.value;
      assert InSlot(objects, accum, i, k);
      SlotUnique(objects, accum, totalPolyCount, i, k);
      assert DataValid(objects[k]) && PolyValid(objects[k].weights, objects[k].polys[local]);
      return Ok(PolyVertices(objects[k], local));
    }

    /** `GetPolyWeight`: the mean vertex weight of the indexed polygon, which
        is positive since only polygons with a positive weight sum are kept. */
    method GetPolyWeight(i: int) returns (r: Result<real>)
      requires Valid()
      ensures r.Ok? <==> 0 <= i < totalPolyCount
      ensures r.Err? ==> r.msg == OutOfRange(i)
      ensures r.Ok? ==> r.value > 0.0
      ensures r.Ok? ==> WeightOn(objects, accum, i, r.value)
    {
      var loc := GetObjectPolyIdx(i);
      if loc.Err? {
        return Err(loc.msg);
      }
      var (local, k) := loc.value;
      assert InSlot(objects, accum, i, k);
      WeightOnSlot(objects, accum, totalPolyCount, i, k);
      assert DataValid(objects[k]) && PolyValid(objects[k].weights, objects[k].polys[local]);
      MeanPositive(objects[k].weights, objects[k].polys[local]);
      return Ok(PolyWeight(objects[k], local));
    }

    /** `GetRandomPosOnPoly`: the position on the indexed polygon with the
        vertex weights scaled by the draws `draws` (`random.uniform(0.01, 1.0)`
        per vertex). */
    method GetRandomPosOnPoly(i: int, draws: nat -> real) returns (r: Result<Option<Vec3>>)
      requires Valid()
      ensures r.Ok? <==> 0 <= i < totalPolyCount
      ensures r.Err? ==> r.msg == OutOfRange(i)
      ensures r.Ok? ==> JitterOn(objects, accum, i, draws, r.value)
    {
      var loc := GetObjectPolyIdx(i);
      if loc.Err? {
        return Err(loc.msg);
      }
      var (local, k) := loc.value;
      assert InSlot(objects, accum, i, k);
      JitterOnSlot(objects, accum, totalPolyCount, i, k, draws);
      return Ok(JitteredPosition(objects[k], local, draws));
    }

    /** `GetRandomPosOnPolyUniformlySimplex`: the position on the indexed
        polygon with uniform simplex weights from `draws` (`np.random.uniform`)
        times the vertex weights. */
    method GetRandomPosOnPolyUniformlySimplex(i: int, draws: nat -> real) returns (r: Result<Option<Vec3>>)
      requires Valid()
      ensures r.Ok? <==> 0 <= i < totalPolyCount
      ensures r.Err? ==> r.msg == OutOfRange(i)
      ensures r.Ok? ==> SimplexOn(objects, accum, i, draws, r.value)
    {
      var loc := GetObjectPolyIdx(i);
      if loc.Err? {
        return Err(loc.msg);
      }
      var (local, k) := loc.value;
      assert InSlot(objects, accum, i, k);
      SimplexOnSlot(objects, accum, totalPolyCount, i, k, draws);
      return Ok(SimplexPosition(objects[k], local, draws));
    }

    /** `AddFromObject` over the scene's object table `scene`
        (`bpy.data.objects`); `toWorld` is the object's world matrix. */
    method AddFromObject(name: string, group: Option<string>, scene: map<string, Objects.Obj>, toWorld: Vec3 -> Vec3)
      returns (r: Result<bool>)
      requires Valid()
      requires name in scene ==> MeshWellFormed(scene[name].mesh)
      modifies this
      ensures Valid() && distribution == old(distribution)
      ensures r.Err? <==> (name in old(index) || name !in scene || !Objects.IsMesh(scene[name]) ||
                           Objects.VertexWeights(scene[name], group).Err?)
      ensures r != Ok(true) ==> objects == old(objects) && index == old(index) && maxWeight == old(maxWeight)
      ensures r.Ok? ==> AddedAsSpecified(old(objects), old(index), old(maxWeight), objects, index, maxWeight,
                                         name, scene[name], Objects.VertexWeights(scene[name], group).value, toWorld, r.value)
    {
      if name in index {
        return Err("Object '" + name + "' has already been added");
      }
      if name !in scene {
        return Err("Object '" + name + "' not found");
      }
      var o := scene[name];
      if !Objects.IsMesh(o) {
        return Err("Object '" + name + "' is not a mesh object");
      }
      assert Objects.FrameOf("WORLD") == Some(Objects.WORLD);
      var vex := Objects.GetMeshVex(o, "WORLD", toWorld).value;
      var wr := Objects.GetVertexWeights(o, group);
      if wr.Err? {
        return Err(wr.msg);
      }
      var w := wr.value;
      var kept, objMax := KeepPolygons(w, o.mesh.polygons);
      var data := ObjectData(name, w, kept, vex, objMax);
      assert data == NewData(name, o, w, toWorld);
      if |kept| == 0 {
        return Ok(false);
      }
      Append(data, Objects.Max(maxWeight, objMax));
      return Ok(true);
    }

    /** The tail of `AddFromObject`: store the object, record its index,
        set the maximum weight and recompute the running counts. */
    method Append(data: ObjectData, newMax: real)
      requires Valid() && DataValid(data) && data.name !in index
      modifies this
      ensures Valid()
      ensures objects == old(objects) + [data] && index == old(index)[data.name := |old(objects)|]
      ensures maxWeight == newMax && distribution == old(distribution)
    {
      AppendKeepsValid(objects, index, accum, totalPolyCount, distribution, data);
      maxWeight := newMax;
      index := index[data.name := |objects|];
      objects := objects + [data];
      Update();
    }

    /** `SampleUniformlyByWeightAndArea`: compute the distribution once (areas
        given by the caller), then pick the polygon whose slice holds the draw
        `u` and place a point on it. The cached distribution is not reset when
        objects are added later. */
    method SampleUniformlyByWeightAndArea(areaOf: (nat, nat) -> real, u: real, draws: nat -> real)
      returns (r: Result<Option<Vec3>>, picked: nat)
      requires Valid()
      modifies this
      ensures Valid()
      ensures objects == old(objects) && index == old(index) && maxWeight == old(maxWeight)
      ensures accum == old(accum) && totalPolyCount == old(totalPolyCount)
      ensures distribution == if old(distribution).Some? then old(distribution) else DistributionFor(objects, areaOf)
      ensures r.Err? <==> distribution.None?
      ensures r.Ok? ==> picked == SampleIndex(distribution.value, u) && picked < totalPolyCount
      ensures r.Ok? ==> SimplexOn(objects, accum, picked, draws, r.value)
    {
      picked := 0;
      if distribution.None? {
        var made := CalcWeightAndAreaDistribution(areaOf);
        if made.Fail? {
          return Err(made.msg), 0;
        }
      }
      r, picked := SampleFromDistribution(u, draws);
    }

    /** The pick and the placement once the distribution exists. */
    method SampleFromDistribution(u: real, draws: nat -> real) returns (r: Result<Option<Vec3>>, picked: nat)
      requires Valid() && distribution.Some?
      ensures r.Ok? && picked == SampleIndex(distribution.value, u) && picked < totalPolyCount
      ensures SimplexOn(objects, accum, picked, draws, r.value)
    {
      picked := SampleIndex(distribution.value, u);
      r := GetRandomPosOnPolyUniformlySimplex(picked, draws);
    }

    /** `_CalcWeightAndAreaDistribution`: store the normalised running sums of
        the weight-times-area terms. */
    method CalcWeightAndAreaDistribution(areaOf: (nat, nat) -> real) returns (r: Outcome)
      requires Valid()
      modifies this
      ensures Valid()
      ensures objects == old(objects) && index == old(index) && maxWeight == old(maxWeight)
      ensures accum == old(accum) && totalPolyCount == old(totalPolyCount)
      ensures r.Pass? <==> DistributionFor(objects, areaOf).Some?
      ensures distribution == if r.Pass? then DistributionFor(objects, areaOf) else old(distribution)
    {
      var dr := Distribution(Terms(objects, areaOf));
      if dr.Err? {
        return Fail(dr.msg);
      }
      DistributionFits(objects, index, accum, totalPolyCount, areaOf);
      SetDistribution(dr.value);
      r := Pass;
    }

    /** Store a distribution with one entry per polygon. */
    method SetDistribution(d: Dist)
      requires Valid() && 0 < d.Length() <= totalPolyCount
      modifies this
      ensures Valid() && distribution == Some(d)
      ensures objects == old(objects) && index == old(index) && maxWeight == old(maxWeight)
      ensures accum == old(accum) && totalPolyCount == old(totalPolyCount)
    {
      distribution := Some(d);
    }
  }

  /** Object k's polygons hold absolute index i. */
  predicate InSlot(objects: seq<ObjectData>, accum: seq<nat>, i: int, k: nat) {
    && k < |objects| && |accum| == |objects| + 1
    && accum[k] <= i < accum[k + 1] && i - accum[k] < |objects[k].polys|
  }

  /** At most one object's slot holds a given index. */
  lemma SlotUnique(objects: seq<ObjectData>, accum: seq<nat>, total: nat, i: int, k: nat)
    requires AccumValid(objects, accum, total) && InSlot(objects, accum, i, k)
    ensures forall k' | InSlot(objects, accum, i, k') :: k' == k
  {
    forall k' | InSlot(objects, accum, i, k') ensures k' == k {
      LocateUnique(Counts(objects), i, k, k');
    }
  }

  /** Mean weight of local polygon `local` of a stored object. */
  function PolyWeight(d: ObjectData, local: nat): real
    requires DataValid(d) && local < |d.polys|
  {
    MeanWeight(d.weights, d.polys[local])
  }

  /** The vertex positions of local polygon `local`. */
  function PolyVertices(d: ObjectData, local: nat): (vs: seq<Vec3>)
    requires DataValid(d) && local < |d.polys|
    ensures |vs| == |d.polys[local]|
  {
    var p := d.polys[local];
    assert PolyValid(d.weights, p);
    seq(|p|, j requires 0 <= j < |p| => d.vex[p[j]])
  }

  /** The position `GetRandomPosOnPoly` computes on local polygon `local`. */
  function JitteredPosition(d: ObjectData, local: nat, draws: nat -> real): Option<Vec3>
    requires DataValid(d) && local < |d.polys|
  {
    var p := d.polys[local];
    assert PolyValid(d.weights, p);
    BarycentricPosition(PolyVertices(d, local), JitterCoefficients(draws, d.weights, p))
  }

  /** The coefficients w_i * u_i of `GetRandomPosOnPoly`. */
  function JitterCoefficients(draws: nat -> real, w: seq<real>, p: seq<nat>): (c: seq<real>)
    requires IndicesIn(p, |w|)
    ensures |c| == |p|
  {
    seq(|p|, j requires 0 <= j < |p| => w[p[j]] * draws(j))
  }

  /** With draws of at least 0.01 and non-negative weights, the jittered
      coefficients sum to at least 0.01 times the polygon's weight sum. */
  lemma {:induction false} JitterSumBound(draws: nat -> real, w: seq<real>, p: seq<nat>)
    requires IndicesIn(p, |w|) && forall j | 0 <= j < |p| :: w[p[j]] >= 0.0
    requires forall j: nat :: draws(j) >= 0.01
    ensures SumReals(JitterCoefficients(draws, w, p)) >= 0.01 * SumAt(w, p)
  {
    if |p| > 0 {
      var n := |p| - 1;
      var c := JitterCoefficients(draws, w, p);
      assert IndicesIn(p[..n], |w|);
      JitterSumBound(draws, w, p[..n]);
      var c' := JitterCoefficients(draws, w, p[..n]);
      assert |c[..n]| == |c'| && forall j | 0 <= j < n :: c[..n][j] == c'[j];
      assert c[..n] == c';
      assert SumReals(c) == SumReals(c[..n]) + c[n];
      assert c[n] == w[p[n]] * draws(n) >= 0.01 * w[p[n]];
    }
  }

  /** For non-negative vertex weights and draws in [0.01, 1], the jittered
      position is never the NaN of a zero denominator. */
  lemma JitteredPositionDefined(d: ObjectData, local: nat, draws: nat -> real)
    requires DataValid(d) && local < |d.polys|
    requires forall v | 0 <= v < |d.weights| :: d.weights[v] >= 0.0
    requires forall j: nat :: draws(j) >= 0.01
    ensures JitteredPosition(d, local, draws).Some?
  {
    var p := d.polys[local];
    assert PolyValid(d.weights, p);
    JitterSumBound(draws, d.weights, p);
  }

  /** `pos` is the jittered position on the polygon with absolute index i. */
  predicate JitterOn(objects: seq<ObjectData>, accum: seq<nat>, i: int, draws: nat -> real, pos: Option<Vec3>)
    requires AllDataValid(objects)
  {
    forall k: nat {:trigger InSlot(objects, accum, i, k)} | k < |objects| && InSlot(objects, accum, i, k) :: pos == JitteredPosition(objects[k], i - accum[k], draws)
  }

  /** w is the mean weight of the polygon with absolute index i. */
  predicate WeightOn(objects: seq<ObjectData>, accum: seq<nat>, i: int, w: real)
    requires AllDataValid(objects)
  {
    forall k: nat {:trigger InSlot(objects, accum, i, k)} | k < |objects| && InSlot(objects, accum, i, k) :: w == PolyWeight(objects[k], i - accum[k])
  }

  /** The slot holding i determines the mean weight. */
  lemma WeightOnSlot(objects: seq<ObjectData>, accum: seq<nat>, total: nat, i: int, k: nat)
    requires AccumValid(objects, accum, total) && AllDataValid(objects) && InSlot(objects, accum, i, k)
    ensures WeightOn(objects, accum, i, PolyWeight(objects[k], i - accum[k]))
  {
    SlotUnique(objects, accum, total, i, k);
  }

  /** The slot holding i determines the jittered position. */
  lemma JitterOnSlot(objects: seq<ObjectData>, accum: seq<nat>, total: nat, i: int, k: nat, draws: nat -> real)
    requires AccumValid(objects, accum, total) && AllDataValid(objects) && InSlot(objects, accum, i, k)
    ensures JitterOn(objects, accum, i, draws, JitteredPosition(objects[k], i - accum[k], draws))
  {
    SlotUnique(objects, accum, total, i, k);
  }

  /** The slot holding i determines the simplex-weighted position. */
  lemma SimplexOnSlot(objects: seq<ObjectData>, accum: seq<nat>, total: nat, i: int, k: nat, draws: nat -> real)
    requires AccumValid(objects, accum, total) && AllDataValid(objects) && InSlot(objects, accum, i, k)
    ensures SimplexOn(objects, accum, i, draws, SimplexPosition(objects[k], i - accum[k], draws))
  {
    SlotUnique(objects, accum, total, i, k);
  }

  /** `pos` is the simplex-weighted position on the polygon with absolute
      index i. */
  predicate SimplexOn(objects: seq<ObjectData>, accum: seq<nat>, i: int, draws: nat -> real, pos: Option<Vec3>)
    requires AllDataValid(objects)
  {
    forall k: nat {:trigger InSlot(objects, accum, i, k)} | k < |objects| && InSlot(objects, accum, i, k) :: pos == SimplexPosition(objects[k], i - accum[k], draws)
  }

  /** The simplex-weighted position on local polygon `local`. */
  function SimplexPosition(d: ObjectData, local: nat, draws: nat -> real): Option<Vec3>
    requires DataValid(d) && local < |d.polys|
  {
    var p := d.polys[local];
    assert PolyValid(d.weights, p);
    BarycentricPosition(PolyVertices(d, local), SimplexCoefficients(draws, d.weights, p))
  }

  /** The loop of `AddFromObject` over the mesh polygons: the polygons with a
      positive weight sum, and the largest vertex weight seen. */
  method KeepPolygons(w: seq<real>, polys: seq<seq<nat>>) returns (kept: seq<seq<nat>>, objMax: real)
    requires forall j | 0 <= j < |polys| :: |polys[j]| > 0 && IndicesIn(polys[j], |w|)
    ensures kept == Kept(w, polys) && objMax == ObjMaxWeight(w, polys)
  {
    kept := [];
    objMax := 0.0;
    for j := 0 to |polys|
      invariant kept == Kept(w, polys[..j]) && objMax == ObjMaxWeight(w, polys[..j])
    {
      assert polys[..j + 1][..j] == polys[..j];
      var f := MaxAt(w, polys[j]);
      objMax := if f > objMax then f else objMax;
      if SumAt(w, polys[j]) > 0.0 {
        kept := kept + [polys[j]];
      }
    }
    assert polys[..|polys|] == polys;
  }

  /** The state after a successful `AddFromObject`: with no polygon of
      positive weight sum it reports false; otherwise the object is appended
      with its kept polygons, its index recorded, and the global maximum
      weight raised to the object's. */
  ghost predicate AddedAsSpecified(objects0: seq<ObjectData>, index0: map<string, nat>, max0: real,
                                   objects: seq<ObjectData>, index: map<string, nat>, maxW: real,
                                   name: string, o: Objects.Obj, w: seq<real>, toWorld: Vec3 -> Vec3, added: bool)
    requires Objects.IsMesh(o) && MeshWellFormed(o.mesh) && |w| == |o.mesh.vertices|
  {
    var d := NewData(name, o, w, toWorld);
    && (added <==> |d.polys| > 0)
    && (added ==> objects == objects0 + [d] && index == index0[name := |objects0|])
    && (added ==> maxW == Objects.Max(max0, d.maxWeight))
  }

  /** The record `AddFromObject` builds for a mesh object with vertex
      weights `w`: world-space vertices, the polygons with a positive weight
      sum and the largest vertex weight; it can be stored whenever it keeps
      a polygon. */
  function NewData(name: string, o: Objects.Obj, w: seq<real>, toWorld: Vec3 -> Vec3): (d: ObjectData)
    requires Objects.IsMesh(o) && MeshWellFormed(o.mesh) && |w| == |o.mesh.vertices|
    ensures d.name == name && d.weights == w && |d.vex| == |w|
    ensures forall i | 0 <= i < |d.vex| :: d.vex[i] == toWorld(o.mesh.vertices[i].co)
    ensures |d.polys| > 0 ==> DataValid(d)
  {
    assert Objects.FrameOf("WORLD") == Some(Objects.WORLD);
    KeptValid(w, o.mesh.polygons);
    ObjectData(name, w, Kept(w, o.mesh.polygons), Objects.GetMeshVex(o, "WORLD", toWorld).value, ObjMaxWeight(w, o.mesh.polygons))
  }

  /** The coefficients p_i * w_i of `GetRandomPosOnPolyUniformlySimplex`. */
  function SimplexCoefficients(draws: nat -> real, w: seq<real>, p: seq<nat>): (c: seq<real>)
    requires |p| > 0 && IndicesIn(p, |w|)
    ensures |c| == |p|
  {
    var g := SimplexWeights(draws, |p|);
    seq(|p|, j requires 0 <= j < |p| => g[j] * w[p[j]])
  }
}
