/** The triangle mesh over a rectangular grid of `nx` by `ny` cells, each cut along a diagonal. */
module GridMesh {

  // ----- numbering

  lemma Quotient(w: int, y: int, x: int)
    requires 0 <= x < w && 0 <= y
    ensures (y * w + x) / w == y && (y * w + x) % w == x
  {
    var v := y * w + x;
    Remainder(w, y, x, v / w, v % w);
  }

  lemma Remainder(w: int, y: int, x: int, q: int, r: int)
    requires 0 <= x < w && 0 <= r < w && y * w + x == q * w + r
    ensures y == q && x == r
  {
    if y > q { Apart(w, y, q); }
    if y < q { Apart(w, q, y); }
  }

  lemma Apart(w: int, y: int, q: int)
    requires y > q && w >= 0
    ensures y * w >= q * w + w
  {
    var d := y - q - 1;
    assert (q + 1 + d) * w == q * w + w + d * w;
  }

  lemma InGrid(w: nat, h: nat, y: nat, x: nat)
    requires x < w && y < h
    ensures 0 <= y * w + x < h * w
    ensures y * w + w == (y + 1) * w <= h * w
  {
    Apart(w, h, y);
  }

  lemma CellInGrid(nx: nat, ny: nat, c: nat)
    requires nx >= 1 && c < nx * ny
    ensures 0 <= c % nx < nx && 0 <= c / nx < ny && c == c / nx * nx + c % nx
  {
  }

  // ----- triangles

  /** A grid point by column and row. */
  datatype Spot = Spot(x: int, y: int)

  function Number(nx: nat, s: Spot): int { s.y * (nx + 1) + s.x }

  predicate OnGrid(nx: nat, ny: nat, s: Spot) { 0 <= s.x <= nx && 0 <= s.y <= ny }

  function Column(nx: nat, k: nat): int requires nx >= 1 { k / 2 % nx }
  function Row(nx: nat, k: nat): int requires nx >= 1 { k / 2 / nx }

  /** The corners of triangle `k`; its cell's upper left corner is at `Column`, `Row`. */
  function Corner(nx: nat, k: nat, i: nat): Spot
    requires nx >= 1 && i < 3
  {
    var x, y := Column(nx, k), Row(nx, k);
    if k % 2 == 0 then (if i == 0 then Spot(x, y) else if i == 1 then Spot(x, y + 1) else Spot(x + 1, y + 1))
    else if i == 0 then Spot(x + 1, y + 1) else if i == 1 then Spot(x + 1, y) else Spot(x, y)
  }

  function Point(nx: nat, k: nat, i: nat): int
    requires nx >= 1 && i < 3
  {
    Number(nx, Corner(nx, k, i))
  }

  /** Three times a point number, the triangle's normal number, and a texture number. */
  function Face(nx: nat, k: nat): seq<int>
    requires nx >= 1
  {
    var a, b, c := Point(nx, k, 0), Point(nx, k, 1), Point(nx, k, 2);
    [a, k, a, b, k, b, c, k, c]
  }

  predicate FacesOk(nx: nat, faces: seq<int>, n: nat)
    requires nx >= 1
  {
    forall k :: 0 <= k < n ==> 9 * k + 9 <= |faces| && faces[9 * k..9 * k + 9] == Face(nx, k)
  }

  lemma CellOf(nx: nat, ny: nat, k: nat)
    requires nx >= 1 && k < 2 * (nx * ny)
    ensures 0 <= Column(nx, k) < nx && 0 <= Row(nx, k) < ny
  {
    CellInGrid(nx, ny, k / 2);
  }

  // ----- the surface is an oriented manifold

  function Next(i: nat): nat requires i < 3 { if i == 2 then 0 else i + 1 }

  /** Side `i` of triangle `k`, from point number to point number, as the face array has it. */
  function Edge(faces: seq<int>, k: nat, i: nat): (int, int)
    requires 9 * k + 9 <= |faces| && i < 3
  {
    (faces[9 * k + 3 * i], faces[9 * k + 3 * Next(i)])
  }

  lemma EdgeOk(nx: nat, faces: seq<int>, n: nat, k: nat, i: nat)
    requires nx >= 1 && FacesOk(nx, faces, n) && k < n && i < 3
    ensures 9 * k + 9 <= |faces| && Edge(faces, k, i) == (Point(nx, k, i), Point(nx, k, Next(i)))
  {
    hide Point;
    var f := faces[9 * k..9 * k + 9];
    assert f == Face(nx, k);
    assert f[3 * i] == faces[9 * k + 3 * i] && f[3 * Next(i)] == faces[9 * k + 3 * Next(i)];
  }

  lemma CornersOnGrid(nx: nat, ny: nat, k: nat, i: nat)
    requires nx >= 1 && k < 2 * (nx * ny) && i < 3
    ensures OnGrid(nx, ny, Corner(nx, k, i))
  {
    CellInGrid(nx, ny, k / 2);
  }

  lemma SameNumber(nx: nat, a: Spot, b: Spot)
    requires 0 <= a.x <= nx && 0 <= b.x <= nx && 0 <= a.y && 0 <= b.y
    ensures Number(nx, a) == Number(nx, b) <==> a == b
  {
    if Number(nx, a) == Number(nx, b) { Remainder(nx + 1, a.y, a.x, b.y, b.x); }
  }

  lemma SameTriangle(nx: nat, k: nat, l: nat)
    requires nx >= 1 && Column(nx, k) == Column(nx, l) && Row(nx, k) == Row(nx, l) && k % 2 == l % 2
    ensures k == l
  {
    assert k / 2 == Row(nx, k) * nx + Column(nx, k);
    assert l / 2 == Row(nx, l) * nx + Column(nx, l);
  }

  /** Where a side starts and where it leads tells which side of which triangle it is. */
  lemma SideDetermines(nx: nat, k: nat, i: nat, l: nat, j: nat)
    requires nx >= 1 && i < 3 && j < 3
    requires Corner(nx, k, i) == Corner(nx, l, j) && Corner(nx, k, Next(i)) == Corner(nx, l, Next(j))
    ensures k == l && i == j
  {
    hide Column, Row;
    assert k % 2 == l % 2 && i == j && Column(nx, k) == Column(nx, l) && Row(nx, k) == Row(nx, l);
    SameTriangle(nx, k, l);
  }

  /** Every directed edge occurs at most once in the mesh. */
  lemma EdgesOnce(nx: nat, ny: nat, faces: seq<int>, k: nat, i: nat, l: nat, j: nat)
    requires nx >= 1 && FacesOk(nx, faces, 2 * (nx * ny)) && k < 2 * (nx * ny) && l < 2 * (nx * ny) && i < 3 && j < 3
    ensures 9 * k + 9 <= |faces| && 9 * l + 9 <= |faces|
    ensures Edge(faces, k, i) == Edge(faces, l, j) <==> k == l && i == j
  {
    hide Edge, FacesOk, Corner, Number;
    EdgeOk(nx, faces, 2 * (nx * ny), k, i);
    EdgeOk(nx, faces, 2 * (nx * ny), l, j);
    if Edge(faces, k, i) == Edge(faces, l, j) {
      CornersOnGrid(nx, ny, k, i);
      CornersOnGrid(nx, ny, k, Next(i));
      CornersOnGrid(nx, ny, l, j);
      CornersOnGrid(nx, ny, l, Next(j));
      SameNumber(nx, Corner(nx, k, i), Corner(nx, l, j));
      SameNumber(nx, Corner(nx, k, Next(i)), Corner(nx, l, Next(j)));
      SideDetermines(nx, k, i, l, j);
    }
  }

  /** Both point numbers are on the same side of the rectangle. */
  predicate OnBorder(nx: nat, ny: nat, u: int, v: int) {
    var w := nx + 1;
    || (u % w == 0 && v % w == 0) || (u % w == nx && v % w == nx)
    || (u / w == 0 && v / w == 0) || (u / w == ny && v / w == ny)
  }

  predicate BorderSpots(nx: nat, ny: nat, a: Spot, b: Spot) {
    || (a.x == 0 && b.x == 0) || (a.x == nx && b.x == nx)
    || (a.y == 0 && b.y == 0) || (a.y == ny && b.y == ny)
  }

  lemma BorderNumbers(nx: nat, ny: nat, a: Spot, b: Spot)
    requires OnGrid(nx, ny, a) && OnGrid(nx, ny, b)
    ensures OnBorder(nx, ny, Number(nx, a), Number(nx, b)) <==> BorderSpots(nx, ny, a, b)
  {
    Quotient(nx + 1, a.y, a.x);
    Quotient(nx + 1, b.y, b.x);
  }

  /** The triangle of a cell. */
  function TriangleAt(nx: nat, x: int, y: int, second: bool): int { 2 * (y * nx + x) + if second then 1 else 0 }

  lemma TriangleFound(nx: nat, ny: nat, x: int, y: int, second: bool)
    requires 0 <= x < nx && 0 <= y < ny
    ensures var k := TriangleAt(nx, x, y, second);
      0 <= k < 2 * (nx * ny) && Column(nx, k) == x && Row(nx, k) == y && (k % 2 == 1 <==> second)
  {
    var k := TriangleAt(nx, x, y, second);
    InGrid(nx, ny, y, x);
    assert k / 2 == y * nx + x && (k % 2 == 1 <==> second);
    Quotient(nx, y, x);
  }

  /** The triangle on the other side of an edge that is not on the border, and which of its sides it is. */
  function Across(nx: nat, k: nat, i: nat): (int, nat)
    requires nx >= 1 && i < 3
  {
    var x, y := Column(nx, k), Row(nx, k);
    if k % 2 == 0 then
      (if i == 0 then (TriangleAt(nx, x - 1, y, true), 0)
       else if i == 1 then (TriangleAt(nx, x, y + 1, true), 1) else (TriangleAt(nx, x, y, true), 2))
    else if i == 0 then (TriangleAt(nx, x + 1, y, false), 0)
    else if i == 1 then (TriangleAt(nx, x, y - 1, false), 1) else (TriangleAt(nx, x, y, false), 2)
  }

  lemma AcrossReverses(nx: nat, ny: nat, k: nat, i: nat)
    requires nx >= 1 && k < 2 * (nx * ny) && i < 3
    requires !BorderSpots(nx, ny, Corner(nx, k, i), Corner(nx, k, Next(i)))
    ensures var (l, j) := Across(nx, k, i);
      && 0 <= l < 2 * (nx * ny) && j < 3
      && Corner(nx, l, j) == Corner(nx, k, Next(i)) && Corner(nx, l, Next(j)) == Corner(nx, k, i)
  {
    hide Column, Row, TriangleAt;
    var x, y := Column(nx, k), Row(nx, k);
    CellOf(nx, ny, k);
    if k % 2 == 0 {
      if i == 0 { TriangleFound(nx, ny, x - 1, y, true); }
      else if i == 1 { TriangleFound(nx, ny, x, y + 1, true); }
      else { TriangleFound(nx, ny, x, y, true); }
    } else {
      if i == 0 { TriangleFound(nx, ny, x + 1, y, false); }
      else if i == 1 { TriangleFound(nx, ny, x, y - 1, false); }
      else { TriangleFound(nx, ny, x, y, false); }
    }
  }

  /** A side on the border has no counterpart: it would be in a cell outside the grid. */
  lemma BorderHasNoReverse(nx: nat, ny: nat, k: nat, i: nat, l: nat, j: nat)
    requires nx >= 1 && k < 2 * (nx * ny) && l < 2 * (nx * ny) && i < 3 && j < 3
    requires Corner(nx, l, j) == Corner(nx, k, Next(i)) && Corner(nx, l, Next(j)) == Corner(nx, k, i)
    ensures !BorderSpots(nx, ny, Corner(nx, k, i), Corner(nx, k, Next(i)))
  {
    hide Column, Row;
    CellOf(nx, ny, k);
    CellOf(nx, ny, l);
  }

  ghost predicate Occurs(faces: seq<int>, n: nat, u: int, v: int)
    requires 9 * n <= |faces|
  {
    exists k: nat, i: nat :: k < n && i < 3 && Edge(faces, k, i) == (u, v)
  }

  /** The reverse of an edge occurs if and only if the edge is not on the border of the grid. */
  lemma ReverseOccurs(nx: nat, ny: nat, faces: seq<int>, k: nat, i: nat)
    requires nx >= 1 && FacesOk(nx, faces, 2 * (nx * ny)) && 9 * (2 * (nx * ny)) <= |faces|
    requires k < 2 * (nx * ny) && i < 3
    ensures var (u, v) := Edge(faces, k, i);
      Occurs(faces, 2 * (nx * ny), v, u) <==> !OnBorder(nx, ny, u, v)
  {
    hide Edge, FacesOk, Corner, Number, OnBorder, BorderSpots, Across;
    var n := 2 * (nx * ny);
    var (u, v) := Edge(faces, k, i);
    EdgeOk(nx, faces, n, k, i);
    CornersOnGrid(nx, ny, k, i);
    CornersOnGrid(nx, ny, k, Next(i));
    BorderNumbers(nx, ny, Corner(nx, k, i), Corner(nx, k, Next(i)));
    if !BorderSpots(nx, ny, Corner(nx, k, i), Corner(nx, k, Next(i))) {
      AcrossReverses(nx, ny, k, i);
      var (l, j) := Across(nx, k, i);
      EdgeOk(nx, faces, n, l, j);
      assert Edge(faces, l, j) == (v, u);
    }
    if Occurs(faces, n, v, u) {
      var l: nat, j: nat :| l < n && j < 3 && Edge(faces, l, j) == (v, u);
      EdgeOk(nx, faces, n, l, j);
      CornersOnGrid(nx, ny, l, j);
      CornersOnGrid(nx, ny, l, Next(j));
      SameNumber(nx, Corner(nx, l, j), Corner(nx, k, Next(i)));
      SameNumber(nx, Corner(nx, l, Next(j)), Corner(nx, k, i));
      BorderHasNoReverse(nx, ny, k, i, l, j);
    }
  }
}
