/** The helpers of tools.py: a random colour for row titles, and the
    spreading of the objects of a collection's child collections over a
    grid whose rows are the child collections and whose columns and levels
    hold each row's objects. */
module Tools {
  import opened Wrappers
  import opened Vectors
  import opened Strings
  import Collection
  import Objects

  // ---------------------------------------------------------------------
  // GetRandomColor

  /** `round(v, 3)`: to the nearest multiple of 0.001, a half rounding up. */
  function Round3(v: real): real {
    (v * 1000.0 + 0.5).Floor as real / 1000.0
  }

  /** `max` of a three-element list. */
  function Max3(c: seq<real>): (m: real)
    requires |c| == 3
    ensures m in c && forall i | 0 <= i < 3 :: c[i] <= m
  {
    if c[0] >= c[1] && c[0] >= c[2] then c[0] else if c[1] >= c[2] then c[1] else c[2]
  }

  const ZeroDivisionError := "float division by zero"

  /** `GetRandomColor` on its three draws of `random.uniform(0.0, 1.0)`:
      each draw divided by the largest, rounded to three decimals. */
  function RandomColor(draws: seq<real>): (r: Result<seq<real>>)
    requires |draws| == 3
    ensures r.Err? <==> Max3(draws) == 0.0
    ensures r.Ok? ==> |r.value| == 3
  {
    var m := Max3(draws);
    if m == 0.0 then Err(ZeroDivisionError)
    else Ok([Round3(draws[0] / m), Round3(draws[1] / m), Round3(draws[2] / m)])
  }

  /** Rounding keeps the unit interval and its upper end. */
  lemma Round3Range(v: real)
    requires 0.0 <= v <= 1.0
    ensures 0.0 <= Round3(v) <= 1.0
    ensures v == 1.0 ==> Round3(v) == 1.0
  {
    var f := (v * 1000.0 + 0.5).Floor;
    assert 0 <= f <= 1000;
    assert v == 1.0 ==> f == 1000;
  }

  /** Rounding keeps the order of its arguments. */
  lemma Round3Monotone(a: real, b: real)
    requires a <= b
    ensures Round3(a) <= Round3(b)
  {
    var fa, fb := (a * 1000.0 + 0.5).Floor, (b * 1000.0 + 0.5).Floor;
    assert fa <= fb;
  }

  /** Dividing by a positive number keeps the order, and a part of `m`
      divided by `m` is in [0, 1]. */
  lemma DivideBounds(a: real, b: real, m: real)
    requires 0.0 <= a <= b <= m && m > 0.0
    ensures 0.0 <= a / m <= b / m <= 1.0
    ensures b == m ==> b / m == 1.0
  {
    var x, y := a / m, b / m;
    assert x * m == a && y * m == b;
  }

  /** A draw divided by the largest and rounded is in [0, 1], 1 for the
      largest, and not above that of a larger draw. */
  lemma ColorComponent(a: real, b: real, m: real)
    requires 0.0 <= a <= b <= m && m > 0.0
    ensures 0.0 <= Round3(a / m) <= Round3(b / m) <= 1.0
    ensures b == m ==> Round3(b / m) == 1.0
  {
    DivideBounds(a, b, m);
    Round3Monotone(a / m, b / m);
    Round3Range(a / m);
    Round3Range(b / m);
  }

  /** With draws in [0, 1], the colour raises exactly when all three are
      0; otherwise its components are in [0, 1] in the order of the draws,
      and the component of the largest draw is 1. */
  lemma RandomColorProperties(draws: seq<real>)
    requires |draws| == 3 && forall i | 0 <= i < 3 :: 0.0 <= draws[i] <= 1.0
    ensures RandomColor(draws).Err? <==> forall i | 0 <= i < 3 :: draws[i] == 0.0
    ensures RandomColor(draws).Ok? ==> var c := RandomColor(draws).value;
      && (forall i | 0 <= i < 3 :: 0.0 <= c[i] <= 1.0)
      && (forall i, j | 0 <= i < 3 && 0 <= j < 3 && draws[i] <= draws[j] :: c[i] <= c[j])
      && (forall i | 0 <= i < 3 && draws[i] == Max3(draws) :: c[i] == 1.0)
  {
    var m := Max3(draws);
    if m != 0.0 {
      var c := RandomColor(draws).value;
      forall i, j | 0 <= i < 3 && 0 <= j < 3 && draws[i] <= draws[j]
        ensures 0.0 <= c[i] <= c[j] <= 1.0 && (draws[j] == m ==> c[j] == 1.0)
      {
        assert c[i] == Round3(draws[i] / m) && c[j] == Round3(draws[j] / m);
        ColorComponent(draws[i], draws[j], m);
      }
    }
  }

  // ---------------------------------------------------------------------
  // The arguments of SpreadObjectsIn2D

  /** `_lDirList`: not a list (then the default directions apply), or a
      list of entries. */
  datatype DirArg = DirsNotAList | DirList(entries: seq<Objects.ListArg>)

  const DirError := "List of directions must contain three lists of three floats each: {_lDir}"
  const OffsetError := "Offset is not a list of three floats: "
  const IndexError := "list index out of range"

  function MissingTop(top: string): string {
    "Collection '" + top + "' does not exist"
  }

  /** The row, column and level directions of the source's defaults. */
  const DefaultDirs := [Vec3(1.0, 0.0, 0.0), Vec3(1.0, 1.0, 0.0), Vec3(0.0, 0.0, 1.0)]

  predicate IsTriple(a: Objects.ListArg) {
    a.ListOf? && |a.items| == 3
  }

  function ToVec(items: seq<real>): Vec3
    requires |items| == 3
  {
    Vec3(items[0], items[1], items[2])
  }

  /** The directions `SpreadObjectsIn2D` works with, before normalisation:
      the defaults unless a list is given, which must hold three lists of
      three numbers. */
  function Directions(d: DirArg): (r: Result<seq<Vec3>>)
    ensures r.Err? <==> d.DirList? && (|d.entries| != 3 || exists i | 0 <= i < 3 :: !IsTriple(d.entries[i]))
    ensures r.Err? ==> r.msg == DirError
    ensures d.DirsNotAList? ==> r == Ok(DefaultDirs)
    ensures r.Ok? ==> |r.value| == 3
    ensures r.Ok? && d.DirList? ==> forall i | 0 <= i < 3 :: r.value[i] == ToVec(d.entries[i].items)
  {
    match d
    case DirsNotAList => Ok(DefaultDirs)
    case DirList(es) =>
      if |es| != 3 || !(IsTriple(es[0]) && IsTriple(es[1]) && IsTriple(es[2])) then Err(DirError)
      else Ok([ToVec(es[0].items), ToVec(es[1].items), ToVec(es[2].items)])
  }

  /** The loop over `_lDirList`, replacing the defaults one by one and
      raising at the first entry that is not three numbers. */
  method ReadDirections(d: DirArg) returns (r: Result<seq<Vec3>>)
    ensures r == Directions(d)
  {
    if d.DirsNotAList? {
      return Ok(DefaultDirs);
    }
    if |d.entries| != 3 {
      return Err(DirError);
    }
    var dirs := DefaultDirs;
    for i := 0 to 3
      invariant |dirs| == 3
      invariant forall k | 0 <= k < i :: IsTriple(d.entries[k]) && dirs[k] == ToVec(d.entries[k].items)
    {
      if !IsTriple(d.entries[i]) {
        return Err(DirError);
      }
      dirs := dirs[i := ToVec(d.entries[i].items)];
    }
    assert dirs == [ToVec(d.entries[0].items), ToVec(d.entries[1].items), ToVec(d.entries[2].items)];
    return Ok(dirs);
  }

  /** `[v.normalized() for v in lvDir]`, with the host's normalisation. */
  function Normalized(dirs: seq<Vec3>, unit: Vec3 -> Vec3): (r: seq<Vec3>)
    ensures |r| == |dirs| && forall i | 0 <= i < |dirs| :: r[i] == unit(dirs[i])
  {
    seq(|dirs|, i requires 0 <= i < |dirs| => unit(dirs[i]))
  }

  /** The grid origin: `_lOffset` when it is a list, which must then hold
      three numbers, otherwise the zero vector. */
  function Origin(offset: Objects.ListArg): (r: Result<Vec3>)
    ensures r.Err? <==> offset.ListOf? && |offset.items| != 3
    ensures r.Err? ==> r.msg == OffsetError
    ensures r.Ok? ==> r.value == if offset.ListOf? then ToVec(offset.items) else Zero
  {
    match offset
    case ListOf(items) => if |items| != 3 then Err(OffsetError) else Ok(ToVec(items))
    case _ => Ok(Zero)
  }

  // ---------------------------------------------------------------------
  // Measuring the rows

  /** Each row's objects: the recursive listing of the row collection. */
  function RowLists(rows: seq<Collection.Cln>): (r: seq<seq<string>>)
    ensures |r| == |rows| && forall i | 0 <= i < |rows| :: r[i] == Collection.Listing(rows[i], false, true, None)
  {
    seq(|rows|, i requires 0 <= i < |rows| => Collection.Listing(rows[i], false, true, None))
  }

  /** All rows' objects, row after row. */
  function Flatten(lists: seq<seq<string>>): seq<string> {
    if |lists| == 0 then [] else Flatten(lists[..|lists| - 1]) + lists[|lists| - 1]
  }

  /** The longest row. */
  function MaxCount(lists: seq<seq<string>>): (m: nat)
    ensures forall i | 0 <= i < |lists| :: |lists[i]| <= m
    ensures |lists| > 0 ==> exists i | 0 <= i < |lists| :: |lists[i]| == m
    ensures |lists| == 0 ==> m == 0
  {
    if |lists| == 0 then 0
    else
      var p := MaxCount(lists[..|lists| - 1]);
      assert forall i | 0 <= i < |lists| - 1 :: lists[..|lists| - 1][i] == lists[i];
      if p >= |lists[|lists| - 1]| then p else |lists[|lists| - 1]|
  }

  /** `[v.dot(vDir) for v in boxObj.lCorners]`. */
  function Projections(cs: seq<Vec3>, d: Vec3): (r: seq<real>)
    ensures |r| == |cs|
  {
    seq(|cs|, k requires 0 <= k < |cs| => Dot(cs[k], d))
  }

  /** `max` of a non-empty list. */
  function MaxOf(xs: seq<real>): (m: real)
    requires |xs| > 0
    ensures forall k | 0 <= k < |xs| :: xs[k] <= m
    ensures m in xs
  {
    if |xs| == 1 then xs[0]
    else
      var rest := MaxOf(xs[1..]);
      assert forall k | 1 <= k < |xs| :: xs[1..][k - 1] == xs[k];
      if xs[0] >= rest then xs[0] else rest
  }

  /** `min` of a non-empty list. */
  function MinOf(xs: seq<real>): (m: real)
    requires |xs| > 0
    ensures forall k | 0 <= k < |xs| :: m <= xs[k]
    ensures m in xs
  {
    if |xs| == 1 then xs[0]
    else
      var rest := MinOf(xs[1..]);
      assert forall k | 1 <= k < |xs| :: xs[1..][k - 1] == xs[k];
      if xs[0] <= rest then xs[0] else rest
  }

  /** The extent of a bounding box along one direction. */
  function Extent(cs: seq<Vec3>, d: Vec3): (e: real)
    requires |cs| > 0
    ensures e >= 0.0
  {
    var ps := Projections(cs, d);
    MaxOf(ps) - MinOf(ps)
  }

  /** An object's size along the three directions. */
  function Size(cs: seq<Vec3>, dirs: seq<Vec3>): (r: seq<real>)
    requires |cs| > 0 && |dirs| == 3
    ensures |r| == 3
  {
    [Extent(cs, dirs[0]), Extent(cs, dirs[1]), Extent(cs, dirs[2])]
  }

  /** The loop of `SpreadObjectsIn2D` that measures one object along each
      direction. */
  method ObjectSize(cs: seq<Vec3>, dirs: seq<Vec3>) returns (size: seq<real>)
    requires |cs| > 0 && |dirs| == 3
    ensures size == Size(cs, dirs)
  {
    size := [];
    for i := 0 to 3
      invariant |size| == i && forall k | 0 <= k < i :: size[k] == Extent(cs, dirs[k])
    {
      var ps := Projections(cs, dirs[i]);
      size := size + [MaxOf(ps) - MinOf(ps)];
    }
  }

  /** Each of a stretch of sizes has three components. */
  predicate Triples(ss: seq<seq<real>>) {
    forall k | 0 <= k < |ss| :: |ss[k]| == 3
  }

  /** The sizes of the listed objects, in order. */
  function Sizes(names: seq<string>, corners: string -> seq<Vec3>, dirs: seq<Vec3>): (ss: seq<seq<real>>)
    requires |dirs| == 3 && forall n :: |corners(n)| > 0
    ensures |ss| == |names| && Triples(ss)
  {
    seq(|names|, k requires 0 <= k < |names| => Size(corners(names[k]), dirs))
  }

  lemma SizesConcat(a: seq<string>, b: seq<string>, corners: string -> seq<Vec3>, dirs: seq<Vec3>)
    requires |dirs| == 3 && forall n :: |corners(n)| > 0
    ensures Sizes(a + b, corners, dirs) == Sizes(a, corners, dirs) + Sizes(b, corners, dirs)
  {
  }

  /** The componentwise maximum of two sizes. */
  function Widen(a: seq<real>, b: seq<real>): (r: seq<real>)
    requires |a| == 3 && |b| == 3
    ensures |r| == 3
  {
    [if a[0] >= b[0] then a[0] else b[0], if a[1] >= b[1] then a[1] else b[1], if a[2] >= b[2] then a[2] else b[2]]
  }

  /** The running maximum of component `i` over the sizes, from `acc`. */
  function Largest(acc: real, ss: seq<seq<real>>, i: nat): (r: real)
    requires Triples(ss) && i < 3
    ensures acc <= r
    ensures forall k | 0 <= k < |ss| :: ss[k][i] <= r
    ensures r == acc || exists k | 0 <= k < |ss| :: r == ss[k][i]
  {
    if |ss| == 0 then acc
    else
      var last := |ss| - 1;
      var p := Largest(acc, ss[..last], i);
      assert forall k | 0 <= k < last :: ss[..last][k] == ss[k];
      if p >= ss[last][i] then p else ss[last][i]
  }

  /** The running maximum size, from `acc`. */
  function Widened(acc: seq<real>, ss: seq<seq<real>>): (r: seq<real>)
    requires |acc| == 3 && Triples(ss)
    ensures |r| == 3
  {
    [Largest(acc[0], ss, 0), Largest(acc[1], ss, 1), Largest(acc[2], ss, 2)]
  }

  const NoSize := [0.0, 0.0, 0.0]

  /** The largest size along each direction, 0 for none: it bounds every
      size, is not negative, and along each direction is 0 or one of the
      sizes. */
  function MaxSize(ss: seq<seq<real>>): (m: seq<real>)
    requires Triples(ss)
    ensures |m| == 3
    ensures forall i | 0 <= i < 3 :: m[i] >= 0.0
    ensures forall k, i | 0 <= k < |ss| && 0 <= i < 3 :: ss[k][i] <= m[i]
    ensures forall i | 0 <= i < 3 :: m[i] == 0.0 || exists k | 0 <= k < |ss| :: m[i] == ss[k][i]
  {
    Widened(NoSize, ss)
  }

  /** The running maximum over two stretches of sizes is the running
      maximum over the second, started from that over the first. */
  lemma {:induction false} LargestConcat(acc: real, a: seq<seq<real>>, b: seq<seq<real>>, i: nat)
    requires Triples(a) && Triples(b) && i < 3
    ensures Triples(a + b)
    ensures Largest(acc, a + b, i) == Largest(Largest(acc, a, i), b, i)
    decreases |b|
  {
    if |b| == 0 {
      assert a + b == a;
    } else {
      var last := |b| - 1;
      assert (a + b)[..|a + b| - 1] == a + b[..last];
      assert (a + b)[|a + b| - 1] == b[last];
      LargestConcat(acc, a, b[..last], i);
    }
  }

  /** One more size widens the running maximum by it. */
  lemma WidenedSnoc(acc: seq<real>, ss: seq<seq<real>>, s: seq<real>)
    requires |acc| == 3 && Triples(ss) && |s| == 3
    ensures Triples(ss + [s])
    ensures Widened(acc, ss + [s]) == Widen(Widened(acc, ss), s)
  {
    assert (ss + [s])[..|ss|] == ss;
  }

  /** The inner loop over one row's objects, widening the running
      maximum by each object's size. */
  method MeasureRow(names: seq<string>, corners: string -> seq<Vec3>, dirs: seq<Vec3>, start: seq<real>)
    returns (m: seq<real>)
    requires |start| == 3 && |dirs| == 3 && forall n :: |corners(n)| > 0
    ensures m == Widened(start, Sizes(names, corners, dirs))
  {
    ghost var ss := Sizes(names, corners, dirs);
    m := start;
    assert ss[..0] == [];
    for j := 0 to |names|
      invariant m == Widened(start, ss[..j])
    {
      assert ss[..j + 1] == ss[..j] + [ss[j]];
      WidenedSnoc(start, ss[..j], ss[j]);
      var size := ObjectSize(corners(names[j]), dirs);
      m := Widen(m, size);
    }
    assert ss[..|names|] == ss;
  }

  /** Widening over a row after the rows before it is widening over all
      of them. */
  lemma WidenedConcat(a: seq<seq<real>>, b: seq<seq<real>>)
    requires Triples(a) && Triples(b)
    ensures Triples(a + b)
    ensures MaxSize(a + b) == Widened(MaxSize(a), b)
  {
    LargestConcat(0.0, a, b, 0);
    LargestConcat(0.0, a, b, 1);
    LargestConcat(0.0, a, b, 2);
  }

  /** The largest size over the rows so far and one more row. */
  lemma MeasureStep(lists: seq<seq<string>>, objs: seq<string>, corners: string -> seq<Vec3>, dirs: seq<Vec3>)
    requires |dirs| == 3 && forall n :: |corners(n)| > 0
    ensures MaxSize(Sizes(Flatten(lists + [objs]), corners, dirs))
         == Widened(MaxSize(Sizes(Flatten(lists), corners, dirs)), Sizes(objs, corners, dirs))
  {
    assert (lists + [objs])[..|lists|] == lists;
    SizesConcat(Flatten(lists), objs, corners, dirs);
    WidenedConcat(Sizes(Flatten(lists), corners, dirs), Sizes(objs, corners, dirs));
  }

  /** The listings and the longest row after one more row. */
  lemma RowStep(rows: seq<Collection.Cln>, i: nat, lists: seq<seq<string>>, objs: seq<string>)
    requires i < |rows| && lists == RowLists(rows)[..i]
    requires objs == Collection.Listing(rows[i], false, true, None)
    ensures RowLists(rows)[..i + 1] == lists + [objs]
    ensures MaxCount(lists + [objs]) == if MaxCount(lists) >= |objs| then MaxCount(lists) else |objs|
  {
    assert (lists + [objs])[..|lists|] == lists;
  }

  /** The first loop of `SpreadObjectsIn2D`: the rows' listings, the
      longest row and the largest object size along each direction. */
  method MeasureRows(rows: seq<Collection.Cln>, corners: string -> seq<Vec3>, dirs: seq<Vec3>)
    returns (lists: seq<seq<string>>, maxCount: nat, maxSize: seq<real>)
    requires |dirs| == 3 && forall n :: |corners(n)| > 0
    ensures lists == RowLists(rows)
    ensures maxCount == MaxCount(lists)
    ensures maxSize == MaxSize(Sizes(Flatten(lists), corners, dirs))
  {
    lists, maxCount, maxSize := [], 0, NoSize;
    for i := 0 to |rows|
      invariant lists == RowLists(rows)[..i]
      invariant maxCount == MaxCount(lists)
      invariant maxSize == MaxSize(Sizes(Flatten(lists), corners, dirs))
    {
      var objs := Collection.GetCollectionObjects(rows[i], false, true, None);
      RowStep(rows, i, lists, objs);
      var next := lists + [objs];
      maxCount := if maxCount >= |objs| then maxCount else |objs|;
      MeasureStep(lists, objs, corners, dirs);
      maxSize := MeasureRow(objs, corners, dirs, maxSize);
      lists := next;
    }
  }

  // ---------------------------------------------------------------------
  // The grid

  /** `lfDelta`: the distance between neighbouring cells along each
      direction, the largest size enlarged by the relative gap. */
  function Spacing(rel: seq<real>, maxSize: seq<real>): (r: seq<real>)
    requires |rel| >= 3 && |maxSize| == 3
    ensures |r| == 3
    ensures forall i | 0 <= i < 3 && rel[i] >= 0.0 && maxSize[i] >= 0.0 :: maxSize[i] <= r[i]
    ensures forall i | 0 <= i < 3 && rel[i] == 0.0 :: r[i] == maxSize[i]
  {
    EnlargedAll(rel, maxSize);
    seq(3, i requires 0 <= i < 3 => (1.0 + rel[i]) * maxSize[i])
  }

  lemma EnlargedAll(rel: seq<real>, m: seq<real>)
    requires |rel| >= 3 && |m| == 3
    ensures forall i | 0 <= i < 3 && rel[i] >= 0.0 && m[i] >= 0.0 :: m[i] <= (1.0 + rel[i]) * m[i]
  {
    forall i | 0 <= i < 3 && rel[i] >= 0.0 && m[i] >= 0.0 ensures m[i] <= (1.0 + rel[i]) * m[i] {
      Enlarged(rel[i], m[i], m[i]);
    }
  }

  lemma Enlarged(rel: real, m: real, s: real)
    requires rel >= 0.0 && 0.0 <= m && s <= m
    ensures s <= (1.0 + rel) * m
  {
    assert (1.0 + rel) * m == m + rel * m;
    assert rel * m >= 0.0;
  }

  /** With gaps that are not negative, neighbouring cells are at least as
      far apart as any size, along each direction. */
  lemma SpacingCovers(rel: seq<real>, ss: seq<seq<real>>)
    requires |rel| >= 3 && Triples(ss)
    requires forall i | 0 <= i < 3 :: rel[i] >= 0.0
    ensures var s := Spacing(rel, MaxSize(ss));
      forall k, i | 0 <= k < |ss| && 0 <= i < 3 :: ss[k][i] <= s[i]
  {
    Covers(rel, MaxSize(ss), ss);
  }

  /** Enlarging a bound that is not negative keeps it a bound. */
  lemma Covers(rel: seq<real>, m: seq<real>, ss: seq<seq<real>>)
    requires |rel| >= 3 && |m| == 3 && Triples(ss)
    requires forall i | 0 <= i < 3 :: rel[i] >= 0.0 && m[i] >= 0.0
    requires forall k, i | 0 <= k < |ss| && 0 <= i < 3 :: ss[k][i] <= m[i]
    ensures forall k, i | 0 <= k < |ss| && 0 <= i < 3 :: ss[k][i] <= Spacing(rel, m)[i]
  {
    forall k, i | 0 <= k < |ss| && 0 <= i < 3 ensures ss[k][i] <= Spacing(rel, m)[i] {
      Enlarged(rel[i], m[i], ss[k][i]);
    }
  }

  /** Hence no listed object is larger than the spacing of the grid. */
  lemma ObjectsFitCells(rel: seq<real>, names: seq<string>, corners: string -> seq<Vec3>, dirs: seq<Vec3>, k: nat)
    requires |rel| >= 3 && |dirs| == 3 && forall n :: |corners(n)| > 0
    requires forall i | 0 <= i < 3 :: rel[i] >= 0.0
    requires k < |names|
    ensures var s := Spacing(rel, MaxSize(Sizes(names, corners, dirs)));
      forall i | 0 <= i < 3 :: Size(corners(names[k]), dirs)[i] <= s[i]
  {
    var ss := Sizes(names, corners, dirs);
    SpacingCovers(rel, ss);
    assert ss[k] == Size(corners(names[k]), dirs);
  }

  /** `iMaxColCnt`: the given count when positive, else the longest
      row. */
  function ColumnCount(maxColCnt: Option<int>, maxCount: nat): nat {
    if maxColCnt.None? || maxColCnt.value <= 0 then maxCount else maxColCnt.value
  }

  /** The rows' objects, what the grid is built from, and where its
      cells are. */
  datatype Grid = Grid(rowNames: seq<string>, lists: seq<seq<string>>, dirs: seq<Vec3>,
                       spacing: seq<real>, origin: Vec3, columns: nat)

  predicate GridOk(g: Grid) {
    && |g.rowNames| == |g.lists| && |g.dirs| == 3 && |g.spacing| == 3
    && (g.columns > 0 || forall i | 0 <= i < |g.lists| :: |g.lists[i]| == 0)
  }

  /** The column count is positive whenever some row has an object, so
      the cell computation never divides by zero; without a positive
      given count every row fits in one level. */
  lemma ColumnCountFits(maxColCnt: Option<int>, lists: seq<seq<string>>)
    ensures var c := ColumnCount(maxColCnt, MaxCount(lists));
      && (forall i | 0 <= i < |lists| && |lists[i]| > 0 :: c > 0)
      && (maxColCnt.None? || maxColCnt.value <= 0 ==> forall i | 0 <= i < |lists| :: |lists[i]| <= c)
  {
  }

  /** The cell of the `k`-th object of a row: column `k mod C` and level
      `k div C`. Different objects of a row get different cells, and the
      column is below `C`. */
  lemma CellsDistinct(k: nat, j: nat, c: nat)
    requires c > 0
    ensures k % c < c
    ensures k < c ==> k / c == 0 && k % c == k
    ensures k % c == j % c && k / c == j / c ==> k == j
  {
    assert k == (k / c) * c + k % c;
    assert j == (j / c) * c + j % c;
  }

  /** The offset of the centre of the `t`-th cell along direction `i`:
      `(t + 0.5)` spacings along it. */
  function Step(g: Grid, i: nat, t: nat): Vec3
    requires GridOk(g) && i < 3
  {
    Scale((t as real + 0.5) * g.spacing[i], g.dirs[i])
  }

  /** The centre of row `r`: the first row half a row spacing from the
      origin along the row direction, each further row one spacing beyond
      the one before. */
  function RowPos(g: Grid, r: nat): (p: Vec3)
    requires GridOk(g)
    ensures r == 0 ==> p == Add(g.origin, Scale(0.5 * g.spacing[0], g.dirs[0]))
    ensures r > 0 ==> p == Add(Add(g.origin, Step(g, 0, r - 1)), Scale(g.spacing[0], g.dirs[0]))
  {
    StepPrev(g, 0, r);
    Add(g.origin, Step(g, 0, r))
  }

  /** The centre of the cell at column `col` and level `z` of a row: the
      first cell half a spacing from the row centre along the column and the
      level directions (`NeighbourColumns` and `NeighbourLevels` put each
      further column or level one spacing beyond). */
  function CellPos(g: Grid, rowPos: Vec3, col: nat, z: nat): (p: Vec3)
    requires GridOk(g)
    ensures col == 0 && z == 0 ==>
      p == Add(Add(rowPos, Scale(0.5 * g.spacing[1], g.dirs[1])), Scale(0.5 * g.spacing[2], g.dirs[2]))
  {
    Add(Add(rowPos, Step(g, 1, col)), Step(g, 2, z))
  }

  /** Where the `k`-th object of row `r` goes: the first C objects fill
      the columns of level 0 in order, and every later object sits in the
      column of the object C places before it, one level above it. */
  function Position(g: Grid, r: nat, k: nat): (p: Vec3)
    requires GridOk(g) && g.columns > 0
    ensures k < g.columns ==> p == CellPos(g, RowPos(g, r), k, 0)
    ensures k >= g.columns ==>
      var j := k - g.columns;
      p == CellPos(g, RowPos(g, r), j % g.columns, j / g.columns + 1)
  {
    CellsDistinct(k, k, g.columns);
    WrapCell(k, g.columns);
    CellPos(g, RowPos(g, r), k % g.columns, k / g.columns)
  }

  /** The cell one spacing before: the same offset less one spacing. */
  lemma StepPrev(g: Grid, i: nat, t: nat)
    requires GridOk(g) && i < 3
    ensures t == 0 ==> Step(g, i, t) == Scale(0.5 * g.spacing[i], g.dirs[i])
    ensures t > 0 ==> Step(g, i, t) == Add(Step(g, i, t - 1), Scale(g.spacing[i], g.dirs[i]))
  {
    if t > 0 {
      StepNext(g, i, t - 1);
    }
  }

  /** Object k and object k - C share a column, one level apart. */
  lemma WrapCell(k: nat, c: nat)
    requires c > 0
    ensures k >= c ==> (k - c) % c == k % c && (k - c) / c + 1 == k / c
  {
    if k >= c {
      var q, m := k / c, k % c;
      assert k == q * c + m && 0 <= m < c;
      assert k - c == (q - 1) * c + m;
      LemmaDivMod(k - c, c, q - 1, m);
    }
  }

  /** The quotient and remainder are unique. */
  lemma LemmaDivMod(n: int, c: int, q: int, m: int)
    requires c > 0 && 0 <= m < c && n == q * c + m
    ensures n / c == q && n % c == m
  {
    var q', m' := n / c, n % c;
    assert n == q' * c + m' && 0 <= m' < c;
    assert (q - q') * c == m' - m;
    if q > q' {
      MulAtLeast(q - q', c);
    } else if q < q' {
      MulAtLeast(q' - q, c);
    }
  }

  lemma MulAtLeast(a: int, c: int)
    requires a >= 1 && c > 0
    ensures a * c >= c
  {
  }

  /** The next cell along a direction is one spacing further along it. */
  lemma StepNext(g: Grid, i: nat, t: nat)
    requires GridOk(g) && i < 3
    ensures Step(g, i, t + 1) == Add(Step(g, i, t), Scale(g.spacing[i], g.dirs[i]))
  {
    var a, s, v := t as real + 0.5, g.spacing[i], g.dirs[i];
    assert (t + 1) as real + 0.5 == a + 1.0;
    assert (a + 1.0) * s == a * s + s;
    assert ((a + 1.0) * s) * v.x == (a * s) * v.x + s * v.x;
    assert ((a + 1.0) * s) * v.y == (a * s) * v.y + s * v.y;
    assert ((a + 1.0) * s) * v.z == (a * s) * v.z + s * v.z;
  }

  /** Neighbouring rows are one row spacing apart along the row
      direction. */
  lemma NeighbourRows(g: Grid, r: nat)
    requires GridOk(g)
    ensures RowPos(g, r + 1) == Add(RowPos(g, r), Scale(g.spacing[0], g.dirs[0]))
  {
    StepNext(g, 0, r);
  }

  /** Neighbouring columns are one column spacing apart along the column
      direction. */
  lemma NeighbourColumns(g: Grid, rowPos: Vec3, col: nat, z: nat)
    requires GridOk(g)
    ensures CellPos(g, rowPos, col + 1, z) == Add(CellPos(g, rowPos, col, z), Scale(g.spacing[1], g.dirs[1]))
  {
    StepNext(g, 1, col);
  }

  /** Neighbouring levels are one level spacing apart along the level
      direction. */
  lemma NeighbourLevels(g: Grid, rowPos: Vec3, col: nat, z: nat)
    requires GridOk(g)
    ensures CellPos(g, rowPos, col, z + 1) == Add(CellPos(g, rowPos, col, z), Scale(g.spacing[2], g.dirs[2]))
  {
    StepNext(g, 2, z);
  }

  /** The grid of `SpreadObjectsIn2D`, or the error it raises: a missing
      top collection, bad directions, a too short `_lfRelDelta`, or a bad
      offset, in that order. */
  function Plan(collections: map<string, Collection.Cln>, top: string, offset: Objects.ListArg,
                relDelta: seq<real>, dirList: DirArg, maxColCnt: Option<int>,
                corners: string -> seq<Vec3>, unit: Vec3 -> Vec3): (r: Result<Grid>)
    requires forall n :: |corners(n)| > 0
    ensures r.Ok? ==> GridOk(r.value)
  {
    if top !in collections then Err(MissingTop(top))
    else
      var d := Directions(dirList);
      if d.Err? then Err(d.msg)
      else
        var dirs := Normalized(d.value, unit);
        var rows := collections[top].children;
        var lists := RowLists(rows);
        if |relDelta| < 3 then Err(IndexError)
        else
          var origin := Origin(offset);
          if origin.Err? then Err(origin.msg)
          else
            ColumnCountFits(maxColCnt, lists);
            Ok(Grid(Collection.ChildNames(rows), lists, dirs,
                    Spacing(relDelta, MaxSize(Sizes(Flatten(lists), corners, dirs))), origin.value,
                    ColumnCount(maxColCnt, MaxCount(lists))))
  }

  /** The call raises exactly in the four cases the source checks, with
      their messages; otherwise the grid holds the rows in order with their
      recursive listings and the directions, normalised. */
  lemma PlanErrors(collections: map<string, Collection.Cln>, top: string, offset: Objects.ListArg,
                   relDelta: seq<real>, dirList: DirArg, maxColCnt: Option<int>,
                   corners: string -> seq<Vec3>, unit: Vec3 -> Vec3)
    requires forall n :: |corners(n)| > 0
    ensures var r := Plan(collections, top, offset, relDelta, dirList, maxColCnt, corners, unit);
      && (r.Err? <==> top !in collections || Directions(dirList).Err? || |relDelta| < 3 || Origin(offset).Err?)
      && (top !in collections ==> r == Err(MissingTop(top)))
      && (top in collections && Directions(dirList).Err? ==> r == Err(DirError))
      && (r.Ok? ==> && r.value.rowNames == Collection.ChildNames(collections[top].children)
                    && r.value.lists == RowLists(collections[top].children)
                    && r.value.dirs == Normalized(Directions(dirList).value, unit))
  {
  }

  // ---------------------------------------------------------------------
  // Placing the objects

  /** One write of an object's location. */
  datatype Placement = Placement(name: string, location: Vec3)

  /** A row title text object: its name, text, collection and location. */
  datatype Title = Title(name: string, text: string, collection: string, location: Vec3)

  /** The locations after the writes, in order. */
  function Apply(locs: map<string, Vec3>, ps: seq<Placement>): map<string, Vec3> {
    if |ps| == 0 then locs else Apply(locs, ps[..|ps| - 1])[ps[|ps| - 1].name := ps[|ps| - 1].location]
  }

  /** The writes of a row: each object to its location. */
  function Zip(names: seq<string>, locations: seq<Vec3>): (ps: seq<Placement>)
    requires |names| == |locations|
    ensures |ps| == |names| && forall k | 0 <= k < |names| :: ps[k] == Placement(names[k], locations[k])
  {
    seq(|names|, k requires 0 <= k < |names| => Placement(names[k], locations[k]))
  }

  /** One location for each listed object. */
  predicate Shaped(lists: seq<seq<string>>, locations: seq<seq<Vec3>>) {
    |locations| == |lists| && forall r | 0 <= r < |lists| :: |locations[r]| == |lists[r]|
  }

  /** The writes of the first `n` rows, row after row. */
  function PlacementsOf(lists: seq<seq<string>>, locations: seq<seq<Vec3>>, n: nat): seq<Placement>
    requires Shaped(lists, locations) && n <= |lists|
  {
    if n == 0 then [] else PlacementsOf(lists, locations, n - 1) + Zip(lists[n - 1], locations[n - 1])
  }

  /** The cell centres of row `r`, one per object. */
  function RowLocations(g: Grid, r: nat): (ls: seq<Vec3>)
    requires GridOk(g) && r < |g.lists|
    ensures |ls| == |g.lists[r]|
  {
    if g.columns == 0 then [] else seq(|g.lists[r]|, k requires 0 <= k < |g.lists[r]| => Position(g, r, k))
  }

  /** The cell centres of every row. */
  function Locations(g: Grid): (ls: seq<seq<Vec3>>)
    requires GridOk(g)
    ensures Shaped(g.lists, ls) && forall r | 0 <= r < |g.lists| :: ls[r] == RowLocations(g, r)
  {
    seq(|g.lists|, r requires 0 <= r < |g.lists| => RowLocations(g, r))
  }

  /** The `k`-th location of row `r` is the centre of the object's cell. */
  lemma LocationIsCell(g: Grid, r: nat, k: nat)
    requires GridOk(g) && r < |g.lists| && k < |g.lists[r]|
    ensures g.columns > 0 && Locations(g)[r][k] == Position(g, r, k)
  {
  }

  /** The writes of the second loop. */
  function Placements(g: Grid): seq<Placement>
    requires GridOk(g)
  {
    PlacementsOf(g.lists, Locations(g), |g.lists|)
  }

  /** `f"Title.Row.{(iRowIdx+1):03d}"`: the prefix, then the row number
      counted from one in decimal, zero-filled to three digits and never
      longer than it needs to be. */
  function TitleName(r: nat): (t: string)
    ensures |t| >= 13 && t[..10] == "Title.Row."
    ensures AllDigits(t[10..]) && DigitsValue(t[10..]) == r + 1
    ensures |t| > 13 ==> t[10] != '0'
  {
    var digits := NatToString(r + 1);
    var fill := if |digits| >= 3 then 0 else 3 - |digits|;
    NatToStringRoundTrip(r + 1);
    PaddedValue(fill, digits);
    var t := "Title.Row." + (seq(fill, _ => '0') + digits);
    assert t[10..] == seq(fill, _ => '0') + digits;
    t
  }

  /** The row title: the text after the first ';', or the whole name. */
  function RowTitle(name: string): (t: string)
    ensures ';' !in name ==> t == name
    ensures ';' in name ==> exists i | 0 <= i < |name| :: name[i] == ';' && ';' !in name[..i] && t == name[i + 1..]
  {
    match IndexOf(name, ';')
    case None => name
    case Some(i) => name[i + 1..]
  }

  /** The title object of row `r`, in the row's collection at the row's
      centre. */
  function TitleAt(g: Grid, r: nat): Title
    requires GridOk(g) && r < |g.rowNames|
  {
    Title(TitleName(r), RowTitle(g.rowNames[r]), g.rowNames[r], RowPos(g, r))
  }

  /** The title objects of the rows. */
  function Titles(g: Grid): (ts: seq<Title>)
    requires GridOk(g)
    ensures |ts| == |g.rowNames| && forall r | 0 <= r < |ts| :: ts[r] == TitleAt(g, r)
  {
    TitlesOf(g, |g.rowNames|)
  }

  /** The title objects of the first `n` rows, row after row. */
  function TitlesOf(g: Grid, n: nat): (ts: seq<Title>)
    requires GridOk(g) && n <= |g.rowNames|
    ensures |ts| == n && forall r | 0 <= r < n :: ts[r] == TitleAt(g, r)
  {
    if n == 0 then [] else TitlesOf(g, n - 1) + [TitleAt(g, n - 1)]
  }

  /** What `SpreadObjectsIn2D` leaves: the objects' locations, the row
      titles made, and whether it raised. */
  function Spread(locs: map<string, Vec3>, titles: seq<Title>, collections: map<string, Collection.Cln>,
                  top: string, offset: Objects.ListArg, relDelta: seq<real>, dirList: DirArg,
                  maxColCnt: Option<int>, showTitles: bool, corners: string -> seq<Vec3>, unit: Vec3 -> Vec3)
    : (r: (map<string, Vec3>, seq<Title>, Outcome))
    requires forall n :: |corners(n)| > 0
    ensures r.2.Fail? ==> r.0 == locs && r.1 == titles
  {
    match Plan(collections, top, offset, relDelta, dirList, maxColCnt, corners, unit)
    case Err(msg) => (locs, titles, Fail(msg))
    case Ok(g) => (Apply(locs, Placements(g)), titles + (if showTitles then Titles(g) else []), Pass)
  }

  lemma {:induction false} ApplyConcat(locs: map<string, Vec3>, a: seq<Placement>, b: seq<Placement>)
    ensures Apply(locs, a + b) == Apply(Apply(locs, a), b)
    decreases |b|
  {
    if |b| == 0 {
      assert a + b == a;
    } else {
      assert (a + b)[..|a + b| - 1] == a + b[..|b| - 1];
      assert (a + b)[|a + b| - 1] == b[|b| - 1];
      ApplyConcat(locs, a, b[..|b| - 1]);
    }
  }

  /** A name written by none of the writes keeps what it had. */
  lemma {:induction false} ApplyUntouched(locs: map<string, Vec3>, ps: seq<Placement>, name: string)
    requires forall j | 0 <= j < |ps| :: ps[j].name != name
    ensures name in Apply(locs, ps) <==> name in locs
    ensures name in locs ==> Apply(locs, ps)[name] == locs[name]
  {
    if |ps| > 0 {
      ApplyUntouched(locs, ps[..|ps| - 1], name);
    }
  }

  /** A name gets the location of its last write. */
  lemma {:induction false} ApplyLast(locs: map<string, Vec3>, ps: seq<Placement>, i: nat)
    requires i < |ps| && forall j | i < j < |ps| :: ps[j].name != ps[i].name
    ensures ps[i].name in Apply(locs, ps) && Apply(locs, ps)[ps[i].name] == ps[i].location
  {
    if i < |ps| - 1 {
      ApplyLast(locs, ps[..|ps| - 1], i);
    }
  }

  /** The writes follow the listings: the `k`-th object of row `r` is
      written after all earlier rows' objects, with its location. */
  lemma {:induction false} PlacementAt(lists: seq<seq<string>>, locations: seq<seq<Vec3>>, n: nat, r: nat, k: nat)
    requires Shaped(lists, locations) && r < n <= |lists| && k < |lists[r]|
    ensures |Flatten(lists[..r])| + k < |PlacementsOf(lists, locations, n)|
    ensures PlacementsOf(lists, locations, n)[|Flatten(lists[..r])| + k] == Placement(lists[r][k], locations[r][k])
    decreases n
  {
    PlacementNames(lists, locations, n - 1);
    if r < n - 1 {
      PlacementAt(lists, locations, n - 1, r, k);
    }
  }

  /** The writes name the listed objects, in listing order. */
  lemma {:induction false} PlacementNames(lists: seq<seq<string>>, locations: seq<seq<Vec3>>, n: nat)
    requires Shaped(lists, locations) && n <= |lists|
    ensures |PlacementsOf(lists, locations, n)| == |Flatten(lists[..n])|
    ensures forall j | 0 <= j < |Flatten(lists[..n])| :: PlacementsOf(lists, locations, n)[j].name == Flatten(lists[..n])[j]
    decreases n
  {
    if n > 0 {
      assert lists[..n][..n - 1] == lists[..n - 1];
      PlacementNames(lists, locations, n - 1);
    }
  }

  /** When the listed objects are all different, each ends up at the
      location given for it, and no object outside the listing moves. */
  lemma PlacedOnce(locs: map<string, Vec3>, lists: seq<seq<string>>, locations: seq<seq<Vec3>>,
                   r: nat, k: nat, other: string)
    requires Shaped(lists, locations) && r < |lists| && k < |lists[r]|
    requires forall i, j | 0 <= i < j < |Flatten(lists)| :: Flatten(lists)[i] != Flatten(lists)[j]
    requires other !in Flatten(lists)
    ensures lists[r][k] in Apply(locs, PlacementsOf(lists, locations, |lists|))
    ensures Apply(locs, PlacementsOf(lists, locations, |lists|))[lists[r][k]] == locations[r][k]
    ensures other in Apply(locs, PlacementsOf(lists, locations, |lists|)) <==> other in locs
    ensures other in locs ==> Apply(locs, PlacementsOf(lists, locations, |lists|))[other] == locs[other]
  {
    var ps := PlacementsOf(lists, locations, |lists|);
    assert lists[..|lists|] == lists;
    PlacementNames(lists, locations, |lists|);
    PlacementAt(lists, locations, |lists|, r, k);
    ApplyLast(locs, ps, |Flatten(lists[..r])| + k);
    ApplyUntouched(locs, ps, other);
  }

  /** When the listed objects are all different, each ends up at its
      cell's centre, and no object outside the listing moves. */
  lemma SpreadPlaces(locs: map<string, Vec3>, g: Grid, r: nat, k: nat, other: string)
    requires GridOk(g) && r < |g.lists| && k < |g.lists[r]|
    requires forall i, j | 0 <= i < j < |Flatten(g.lists)| :: Flatten(g.lists)[i] != Flatten(g.lists)[j]
    requires other !in Flatten(g.lists)
    ensures g.columns > 0
    ensures g.lists[r][k] in Apply(locs, Placements(g))
    ensures Apply(locs, Placements(g))[g.lists[r][k]] == Position(g, r, k)
    ensures other in Apply(locs, Placements(g)) <==> other in locs
    ensures other in locs ==> Apply(locs, Placements(g))[other] == locs[other]
  {
    PlacedOnce(locs, g.lists, Locations(g), r, k, other);
    LocationIsCell(g, r, k);
  }

  // ---------------------------------------------------------------------
  // The host's objects

  /** The objects' locations, by name, and the title objects made. */
  class CSceneObjects {
    var locations: map<string, Vec3>
    var titles: seq<Title>

    constructor (locations: map<string, Vec3>)
      ensures this.locations == locations && titles == []
    {
      this.locations := locations;
      titles := [];
    }
  }

  /** One more object of row `r` written, at the centre of its cell in
      column `col` and level `z`. */
  lemma PlaceStep(m0: map<string, Vec3>, m: map<string, Vec3>, g: Grid, r: nat, k: nat, col: nat, z: nat)
    requires GridOk(g) && r < |g.lists| && k < |g.lists[r]|
    requires m == Apply(m0, Zip(g.lists[r], Locations(g)[r])[..k])
    requires g.columns > 0 ==> col == k % g.columns && z == k / g.columns
    ensures g.columns > 0
    ensures m[g.lists[r][k] := CellPos(g, RowPos(g, r), col, z)] == Apply(m0, Zip(g.lists[r], Locations(g)[r])[..k + 1])
  {
    var ps := Zip(g.lists[r], Locations(g)[r]);
    assert ps[..k + 1][..k] == ps[..k];
    LocationIsCell(g, r, k);
  }

  /** One pass of the inner loop: the `k`-th object of row `r` moved to
      the centre of its cell, column `k mod C` and level `k div C`,
      extending what the earlier passes did from `m0`. */
  method PlaceObject(scene: CSceneObjects, g: Grid, r: nat, k: nat, ghost m0: map<string, Vec3>)
    requires GridOk(g) && r < |g.lists| && k < |g.lists[r]|
    requires scene.locations == Apply(m0, Zip(g.lists[r], Locations(g)[r])[..k])
    modifies scene
    ensures scene.locations == Apply(m0, Zip(g.lists[r], Locations(g)[r])[..k + 1])
    ensures scene.titles == old(scene.titles)
  {
    var col := k % g.columns;
    var z := k / g.columns;
    PlaceStep(m0, scene.locations, g, r, k, col, z);
    scene.locations := scene.locations[g.lists[r][k] := CellPos(g, RowPos(g, r), col, z)];
  }

  /** The inner loop of the second pass: each object of row `r` moved to
      its cell. */
  method PlaceRow(scene: CSceneObjects, g: Grid, r: nat)
    requires GridOk(g) && r < |g.lists|
    modifies scene
    ensures scene.locations == Apply(old(scene.locations), Zip(g.lists[r], Locations(g)[r]))
    ensures scene.titles == old(scene.titles)
  {
    var names := g.lists[r];
    ghost var ps := Zip(names, Locations(g)[r]);
    for k := 0 to |names|
      invariant scene.titles == old(scene.titles)
      invariant scene.locations == Apply(old(scene.locations), ps[..k])
    {
      PlaceObject(scene, g, r, k, old(scene.locations));
    }
    assert ps[..|names|] == ps;
  }

  /** The writes of one more row come after those of the rows before. */
  lemma PlacementsSnoc(locs: map<string, Vec3>, lists: seq<seq<string>>, locations: seq<seq<Vec3>>, r: nat)
    requires Shaped(lists, locations) && r < |lists|
    ensures Apply(locs, PlacementsOf(lists, locations, r + 1))
         == Apply(Apply(locs, PlacementsOf(lists, locations, r)), Zip(lists[r], locations[r]))
  {
    ApplyConcat(locs, PlacementsOf(lists, locations, r), Zip(lists[r], locations[r]));
  }

  /** The title object of row `r`, added after those of the rows before. */
  method AddTitle(scene: CSceneObjects, g: Grid, r: nat, ghost t0: seq<Title>)
    requires GridOk(g) && r < |g.rowNames|
    requires scene.titles == t0 + TitlesOf(g, r)
    modifies scene
    ensures scene.titles == t0 + TitlesOf(g, r + 1)
    ensures scene.locations == old(scene.locations)
  {
    AppendAssoc(t0, TitlesOf(g, r), TitleAt(g, r));
    scene.titles := scene.titles + [TitleAt(g, r)];
  }

  lemma AppendAssoc<T>(a: seq<T>, b: seq<T>, x: T)
    ensures (a + b) + [x] == a + (b + [x])
  {
  }

  /** One pass of the second loop: the row's title when asked for, then
      its objects, extending what the earlier passes did from `m0` and
      `t0`. */
  method PlaceRowWithTitle(scene: CSceneObjects, g: Grid, r: nat, showTitles: bool,
                           ghost m0: map<string, Vec3>, ghost t0: seq<Title>)
    requires GridOk(g) && r < |g.lists|
    requires scene.locations == Apply(m0, PlacementsOf(g.lists, Locations(g), r))
    requires scene.titles == t0 + (if showTitles then TitlesOf(g, r) else [])
    modifies scene
    ensures scene.locations == Apply(m0, PlacementsOf(g.lists, Locations(g), r + 1))
    ensures scene.titles == t0 + (if showTitles then TitlesOf(g, r + 1) else [])
  {
    PlacementsSnoc(m0, g.lists, Locations(g), r);
    if showTitles {
      AddTitle(scene, g, r, t0);
    }
    PlaceRow(scene, g, r);
  }

  /** The second loop: each row's title, when asked for, then its
      objects. */
  method PlaceRows(scene: CSceneObjects, g: Grid, showTitles: bool)
    requires GridOk(g)
    modifies scene
    ensures scene.locations == Apply(old(scene.locations), Placements(g))
    ensures scene.titles == old(scene.titles) + (if showTitles then Titles(g) else [])
  {
    for r := 0 to |g.lists|
      invariant scene.locations == Apply(old(scene.locations), PlacementsOf(g.lists, Locations(g), r))
      invariant scene.titles == old(scene.titles) + (if showTitles then TitlesOf(g, r) else [])
    {
      PlaceRowWithTitle(scene, g, r, showTitles, old(scene.locations), old(scene.titles));
    }
  }

  /** `SpreadObjectsIn2D`: the checks, the measuring loop, the grid and
      the placing loop. */
  method SpreadObjectsIn2D(scene: CSceneObjects, collections: map<string, Collection.Cln>, top: string,
                           offset: Objects.ListArg, relDelta: seq<real>, dirList: DirArg,
                           maxColCnt: Option<int>, showTitles: bool,
                           corners: string -> seq<Vec3>, unit: Vec3 -> Vec3) returns (o: Outcome)
    requires forall n :: |corners(n)| > 0
    modifies scene
    ensures (scene.locations, scene.titles, o)
         == Spread(old(scene.locations), old(scene.titles), collections, top, offset, relDelta, dirList,
                   maxColCnt, showTitles, corners, unit)
  {
    if top !in collections {
      return Fail(MissingTop(top));
    }
    var d := ReadDirections(dirList);
    if d.Err? {
      return Fail(d.msg);
    }
    var dirs := Normalized(d.value, unit);
    var rows := collections[top].children;
    var lists, maxCount, maxSize := MeasureRows(rows, corners, dirs);
    if |relDelta| < 3 {
      return Fail(IndexError);
    }
    var spacing := Spacing(relDelta, maxSize);
    var origin := Origin(offset);
    if origin.Err? {
      return Fail(origin.msg);
    }
    ColumnCountFits(maxColCnt, lists);
    var g := Grid(Collection.ChildNames(rows), lists, dirs, spacing, origin.value, ColumnCount(maxColCnt, maxCount));
    PlaceRows(scene, g, showTitles);
    return Pass;
  }
}
