/** The index builder behind `CreateSurf` and `CreateSurf2`
    (mesh/surf.py): a grid of points becomes a row-major vertex list
    and one quad per grid cell; the two-sided surface joins two such
    grids and closes the four sides with extra quads. */
module Surf {
  import opened Wrappers
  import opened Vectors

  /** A quad face, four vertex indices in winding order. */
  datatype Face = Face(a: int, b: int, c: int, d: int)

  /** The dictionary returned by `CreateVexFaceLists`. */
  datatype Lists = Lists(rowCnt: nat, colCnt: nat, vex: seq<Vec3>, faces: seq<Face>)

  /** Vertex and face lists handed to `mesh.from_pydata`, plus the object location. */
  datatype Mesh = Mesh(vex: seq<Vec3>, faces: seq<Face>, location: Vec3)

  // ---------------------------------------------------------------------
  // Integer facts about row-major indexing

  lemma RowMajorDivMod(r: int, c: int, w: int)
    requires r >= 0 && 0 <= c < w
    ensures (r * w + c) / w == r && (r * w + c) % w == c
  {
    var k := r * w + c;
    var q := k / w;
    assert (q - r) * w == c - k % w;
    MulBelowOne(q - r, w);
    MulBelowOne(r - q, w);
  }

  lemma MulBelowOne(x: int, w: int)
    requires w > 0 && x * w < w
    ensures x < 1
  {
    if x >= 1 {
      MulMono(1, x, w);
    }
  }

  lemma DivBelow(k: int, w: int, m: int)
    requires 0 <= k < m * w && w > 0
    ensures 0 <= k / w < m
  {
  }

  lemma MulMono(a: int, b: int, w: int)
    requires a <= b && w >= 0
    ensures a * w <= b * w
  {
  }

  lemma RowMajorBelow(r: int, c: int, w: int, m: int)
    requires 0 <= r < m && 0 <= c < w
    ensures 0 <= r * w + c < m * w
  {
    assert r * w <= (m - 1) * w;
  }

  // ---------------------------------------------------------------------
  // CreateVexFaceLists

  /** Number of cells along a side of `n` points: `range(n - 1)`. */
  function Cells(n: nat): nat { if n == 0 then 0 else n - 1 }

  /** Every row reaches at least as far as the first, so every
      `_lGrid[iRow][iCol]` the comprehension reads exists. */
  predicate WellFormed(grid: seq<seq<Vec3>>) {
    |grid| > 0 && forall r | 0 <= r < |grid| :: |grid[r]| >= |grid[0]|
  }

  /** The vertex a grid point `(r, c)` becomes, numbered row by row. */
  function Idx(r: int, c: int, cols: int): int { r * cols + c }

  /** The face of grid cell `(r, c)` on a grid with `cols` columns. */
  function CellFace(r: int, c: int, cols: int, normUp: bool): Face {
    if normUp then
      Face(r * cols + c, r * cols + c + 1, (r + 1) * cols + c + 1, (r + 1) * cols + c)
    else
      Face(r * cols + c, (r + 1) * cols + c, (r + 1) * cols + c + 1, r * cols + c + 1)
  }

  function GridVertex(grid: seq<seq<Vec3>>, scale: real, k: nat): Vec3
    requires WellFormed(grid) && k < |grid| * |grid[0]|
  {
    var cols := |grid[0]|;
    DivBelow(k, cols, |grid|);
    Scale(scale, grid[k / cols][k % cols])
  }

  function GridFace(rows: nat, cols: nat, normUp: bool, k: nat): Face
    requires cols > 1 && k < (rows - 1) * (cols - 1)
  {
    CellFace(k / (cols - 1), k % (cols - 1), cols, normUp)
  }

  /** `CreateVexFaceLists`: an empty grid or a row shorter than the first
      raises `IndexError`. */
  function CreateVexFaceLists(grid: seq<seq<Vec3>>, scale: real, normUp: bool): (r: Result<Lists>)
    ensures r.Ok? <==> WellFormed(grid)
    ensures r.Ok? ==>
              && r.value.rowCnt == |grid| && r.value.colCnt == |grid[0]|
              && |r.value.vex| == r.value.rowCnt * r.value.colCnt
              && |r.value.faces| == (r.value.rowCnt - 1) * Cells(r.value.colCnt)
  {
    if !WellFormed(grid) then Err("list index out of range")
    else
      Ok(Lists(|grid|, |grid[0]|, GridVex(grid, scale), GridFaces(|grid|, |grid[0]|, normUp)))
  }

  /** The vertex comprehension. */
  function GridVex(grid: seq<seq<Vec3>>, scale: real): (vex: seq<Vec3>)
    requires WellFormed(grid)
    ensures |vex| == |grid| * |grid[0]|
  {
    var n := |grid| * |grid[0]|;
    seq(n, k requires 0 <= k < n => GridVertex(grid, scale, k))
  }

  /** The face comprehension. */
  function GridFaces(rows: nat, cols: nat, normUp: bool): (faces: seq<Face>)
    requires rows > 0
    ensures |faces| == (rows - 1) * Cells(cols)
  {
    if cols <= 1 then []
    else
      var n := (rows - 1) * (cols - 1);
      ProductNat(rows - 1, cols - 1);
      assert Cells(cols) == cols - 1;
      seq(n, k requires 0 <= k < n => GridFace(rows, cols, normUp, k))
  }

  lemma ProductNat(a: nat, b: nat)
    ensures a * b >= 0
  {
  }

  /** Row-major vertex order: vertex `r * cols + c` is grid point `(r, c)`, scaled. */
  lemma VexRowMajor(grid: seq<seq<Vec3>>, scale: real, normUp: bool, r: nat, c: nat)
    requires WellFormed(grid) && r < |grid| && c < |grid[0]|
    ensures Idx(r, c, |grid[0]|) < |CreateVexFaceLists(grid, scale, normUp).value.vex|
    ensures CreateVexFaceLists(grid, scale, normUp).value.vex[Idx(r, c, |grid[0]|)] == Scale(scale, grid[r][c])
  {
    var cols := |grid[0]|;
    RowMajorBelow(r, c, cols, |grid|);
    RowMajorDivMod(r, c, cols);
  }

  /** One face per grid cell in row-major order, made of the cell's four
      corners: counter-clockwise seen from above with `bNormUp`, clockwise otherwise. */
  lemma FacePerCell(grid: seq<seq<Vec3>>, scale: real, normUp: bool, r: nat, c: nat)
    requires WellFormed(grid) && r + 1 < |grid| && c + 1 < |grid[0]|
    ensures Idx(r, c, |grid[0]| - 1) < |CreateVexFaceLists(grid, scale, normUp).value.faces|
    ensures var cols := |grid[0]|;
            CreateVexFaceLists(grid, scale, normUp).value.faces[Idx(r, c, cols - 1)] ==
            if normUp then Face(Idx(r, c, cols), Idx(r, c + 1, cols), Idx(r + 1, c + 1, cols), Idx(r + 1, c, cols))
            else Face(Idx(r, c, cols), Idx(r + 1, c, cols), Idx(r + 1, c + 1, cols), Idx(r, c + 1, cols))
  {
    var cols := |grid[0]|;
    RowMajorBelow(r, c, cols - 1, |grid| - 1);
    RowMajorDivMod(r, c, cols - 1);
  }

  predicate FaceIn(f: Face, n: int) {
    0 <= f.a < n && 0 <= f.b < n && 0 <= f.c < n && 0 <= f.d < n
  }

  lemma CellFaceIn(r: int, c: int, rows: int, cols: int, normUp: bool)
    requires 0 <= r < rows - 1 && 0 <= c < cols - 1
    ensures FaceIn(CellFace(r, c, cols, normUp), rows * cols)
  {
    RowMajorBelow(r + 1, c + 1, cols, rows);
    RowMajorBelow(r, c, cols, rows);
  }

  /** Every face index names a vertex of the grid. */
  lemma FaceIndicesInRange(grid: seq<seq<Vec3>>, scale: real, normUp: bool)
    requires WellFormed(grid)
    ensures var l := CreateVexFaceLists(grid, scale, normUp).value;
            AllIn(l.faces, |l.vex|)
  {
    var l := CreateVexFaceLists(grid, scale, normUp).value;
    var rows, cols := |grid|, |grid[0]|;
    forall k | 0 <= k < |l.faces|
      ensures FaceIn(l.faces[k], |l.vex|)
    {
      DivBelow(k, cols - 1, rows - 1);
      CellFaceIn(k / (cols - 1), k % (cols - 1), rows, cols, normUp);
    }
  }

  /** The same corners in the opposite winding. */
  function Rewound(f: Face): Face { Face(f.a, f.d, f.c, f.b) }

  /** The two `bNormUp` settings give the same vertices and, face by face,
      the same corners in reversed winding. */
  lemma WindingReversed(grid: seq<seq<Vec3>>, scale: real)
    requires WellFormed(grid)
    ensures var up := CreateVexFaceLists(grid, scale, true).value;
            var down := CreateVexFaceLists(grid, scale, false).value;
            up.vex == down.vex && |up.faces| == |down.faces| &&
            forall k | 0 <= k < |up.faces| :: down.faces[k] == Rewound(up.faces[k])
  {
  }

  // ---------------------------------------------------------------------
  // CreateSurf2

  function Shifted(f: Face, n: int): Face { Face(f.a + n, f.b + n, f.c + n, f.d + n) }

  /** The four rings of side quads joining the borders of the two grids;
      they are laid out on the first grid's rows and columns. With `n1`
      vertices in the first grid: its first row to the second grid's first
      row, ... */
  function TopSide(rows: nat, cols: nat, n1: int): (r: seq<Face>)
    ensures |r| == Cells(cols)
  {
    seq(Cells(cols), c requires 0 <= c < Cells(cols) => Face(n1 + c, n1 + c + 1, c + 1, c))
  }

  /** ... the last rows, starting at vertex `(rows - 1) * cols`, ... */
  function BottomSide(rows: nat, cols: nat, n1: int): (r: seq<Face>)
    ensures |r| == Cells(cols)
  {
    var off := (rows - 1) * cols;
    seq(Cells(cols), c requires 0 <= c < Cells(cols) => Face(off + c, off + c + 1, off + n1 + c + 1, off + n1 + c))
  }

  /** ... the first columns ... */
  function LeftSide(rows: nat, cols: nat, n1: int): (r: seq<Face>)
    ensures |r| == Cells(rows)
  {
    seq(Cells(rows), r requires 0 <= r < Cells(rows) => Face(r * cols, (r + 1) * cols, n1 + (r + 1) * cols, n1 + r * cols))
  }

  /** ... and the last columns, starting at vertex `cols - 1`. */
  function RightSide(rows: nat, cols: nat, n1: int): (r: seq<Face>)
    ensures |r| == Cells(rows)
  {
    var off := cols - 1;
    seq(Cells(rows), r requires 0 <= r < Cells(rows) =>
          Face(off + n1 + r * cols, off + n1 + (r + 1) * cols, off + (r + 1) * cols, off + r * cols))
  }

  function SideFaces(rows: nat, cols: nat): (r: seq<Face>)
    ensures |r| == 2 * Cells(cols) + 2 * Cells(rows)
  {
    var n1 := rows * cols;
    TopSide(rows, cols, n1) + BottomSide(rows, cols, n1) + LeftSide(rows, cols, n1) + RightSide(rows, cols, n1)
  }

  predicate AllIn(fs: seq<Face>, n: int) {
    forall k | 0 <= k < |fs| :: FaceIn(fs[k], n)
  }

  lemma AllInConcat(a: seq<Face>, b: seq<Face>, n: int)
    requires AllIn(a, n) && AllIn(b, n)
    ensures AllIn(a + b, n)
  {
    assert forall k | |a| <= k < |a + b| :: (a + b)[k] == b[k - |a|];
  }

  /** Rows and columns of the first grid as offsets below `n1 = rows * cols`. */
  lemma GridOffsets(rows: nat, cols: nat, n1: int)
    requires rows > 0 && cols > 0 && n1 == rows * cols
    ensures (rows - 1) * cols == n1 - cols
    ensures forall r | 0 <= r < rows :: 0 <= r * cols <= n1 - cols
  {
    forall r | 0 <= r < rows
      ensures 0 <= r * cols <= n1 - cols
    {
      MulMono(r, rows - 1, cols);
    }
  }

  lemma SideFacesIn(rows: nat, cols: nat)
    requires rows > 0 && cols > 0
    ensures AllIn(SideFaces(rows, cols), 2 * (rows * cols))
  {
    var n1 := rows * cols;
    GridOffsets(rows, cols, n1);
    var top, bottom := TopSide(rows, cols, n1), BottomSide(rows, cols, n1);
    var left, right := LeftSide(rows, cols, n1), RightSide(rows, cols, n1);
    forall r | 0 <= r < |left|
      ensures FaceIn(left[r], 2 * n1) && FaceIn(right[r], 2 * n1)
    {
      assert 0 <= r * cols <= n1 - cols && 0 <= (r + 1) * cols <= n1 - cols;
    }
    AllInConcat(top, bottom, 2 * n1);
    AllInConcat(top + bottom, left, 2 * n1);
    AllInConcat(top + bottom + left, right, 2 * n1);
  }

  /** `CreateSurf2` up to the host calls: the scale is meters per unit
      over the scene's `scale_length`, the first grid faces up, the
      second faces down with its indices shifted past the first grid's
      vertices, then the side faces. */
  function CreateSurf2(grid1: seq<seq<Vec3>>, grid2: seq<seq<Vec3>>, location: Vec3,
                       meterPerUnit: real, scaleLength: real): (r: Result<Mesh>)
    ensures r.Ok? <==> scaleLength != 0.0 && WellFormed(grid1) && WellFormed(grid2)
    ensures r.Ok? ==> r.value.location == Scale(meterPerUnit / scaleLength, location)
  {
    if scaleLength == 0.0 then Err("float division by zero")
    else
      var scale := meterPerUnit / scaleLength;
      var s1 :- CreateVexFaceLists(grid1, scale, true);
      var s2 :- CreateVexFaceLists(grid2, scale, false);
      var n1 := |s1.vex|;
      var faces2 := seq(|s2.faces|, k requires 0 <= k < |s2.faces| => Shifted(s2.faces[k], n1));
      Ok(Mesh(s1.vex + s2.vex, s1.faces + faces2 + SideFaces(s1.rowCnt, s1.colCnt), Scale(scale, location)))
  }

  /** The joined mesh: both vertex lists in order, the first grid's faces
      unchanged, the second grid's faces shifted by the first grid's vertex
      count, then 2(cols₁−1) + 2(rows₁−1) side faces. */
  lemma Surf2Layout(grid1: seq<seq<Vec3>>, grid2: seq<seq<Vec3>>, location: Vec3, meterPerUnit: real, scaleLength: real)
    requires CreateSurf2(grid1, grid2, location, meterPerUnit, scaleLength).Ok?
    ensures var m := CreateSurf2(grid1, grid2, location, meterPerUnit, scaleLength).value;
            var scale := meterPerUnit / scaleLength;
            var s1 := CreateVexFaceLists(grid1, scale, true).value;
            var s2 := CreateVexFaceLists(grid2, scale, false).value;
            && m.vex == s1.vex + s2.vex
            && |m.faces| == |s1.faces| + |s2.faces| + 2 * Cells(|grid1[0]|) + 2 * (|grid1| - 1)
            && m.faces[..|s1.faces|] == s1.faces
            && forall k | 0 <= k < |s2.faces| ::
                 && m.faces[|s1.faces| + k].a == s2.faces[k].a + |s1.vex|
                 && m.faces[|s1.faces| + k].b == s2.faces[k].b + |s1.vex|
                 && m.faces[|s1.faces| + k].c == s2.faces[k].c + |s1.vex|
                 && m.faces[|s1.faces| + k].d == s2.faces[k].d + |s1.vex|
  {
  }

  /** For two grids of the same shape with at least one column, every face
      index of the joined mesh names one of its vertices. */
  lemma Surf2IndicesInRange(grid1: seq<seq<Vec3>>, grid2: seq<seq<Vec3>>, location: Vec3, meterPerUnit: real, scaleLength: real)
    requires CreateSurf2(grid1, grid2, location, meterPerUnit, scaleLength).Ok?
    requires |grid2| == |grid1| && |grid2[0]| == |grid1[0]| > 0
    ensures var m := CreateSurf2(grid1, grid2, location, meterPerUnit, scaleLength).value;
            AllIn(m.faces, |m.vex|)
  {
    var m := CreateSurf2(grid1, grid2, location, meterPerUnit, scaleLength).value;
    var scale := meterPerUnit / scaleLength;
    var s1 := CreateVexFaceLists(grid1, scale, true).value;
    var s2 := CreateVexFaceLists(grid2, scale, false).value;
    var n1 := |s1.vex|;
    var n := |m.vex|;
    assert n == 2 * n1;
    FaceIndicesInRange(grid1, scale, true);
    FaceIndicesInRange(grid2, scale, false);
    assert AllIn(s1.faces, n);
    var faces2 := seq(|s2.faces|, k requires 0 <= k < |s2.faces| => Shifted(s2.faces[k], n1));
    assert AllIn(faces2, n) by {
      forall k | 0 <= k < |faces2|
        ensures FaceIn(faces2[k], n)
      {
        assert FaceIn(s2.faces[k], n1);
      }
    }
    SideFacesIn(|grid1|, |grid1[0]|);
    AllInConcat(s1.faces, faces2, n);
    AllInConcat(s1.faces + faces2, SideFaces(s1.rowCnt, s1.colCnt), n);
  }
}
