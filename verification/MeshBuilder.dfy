/** Building the mesh into arrays, and refreshing it in place when the height function has changed. */
module MeshBuilder {
  import opened GridMesh

  datatype Vec = Vec(x: real, y: real, z: real)

  const MIN := -10.0
  const MAX := 10.0

  /** The height over a place of the plane, and the normal of three points. */
  datatype Surface = Surface(height: (real, real) -> real, normal: (Vec, Vec, Vec) -> Vec)

  function Fraction(i: int, n: nat): real requires n >= 1 { i as real / n as real }
  function Place(t: real): real { (1.0 - t) * MIN + t * MAX }

  /** The grid point with a number. */
  function Vertex(nx: nat, ny: nat, scale: real, f: Surface, v: nat): Vec
    requires nx >= 1 && ny >= 1
  {
    var fx, fy := Place(Fraction(v % (nx + 1), nx)), Place(Fraction(v / (nx + 1), ny));
    Vec(fx * scale, fy * scale, f.height(fx, fy) * scale)
  }

  function At(a: seq<real>, i: nat): Vec
    requires 3 * i + 3 <= |a|
  {
    Vec(a[3 * i], a[3 * i + 1], a[3 * i + 2])
  }

  predicate PointsOk(nx: nat, ny: nat, scale: real, f: Surface, points: seq<real>, n: nat)
    requires nx >= 1 && ny >= 1
  {
    3 * n <= |points| && forall v :: 0 <= v < n ==> At(points, v) == Vertex(nx, ny, scale, f, v)
  }

  predicate TexCoordsOk(nx: nat, ny: nat, tex: seq<real>, n: nat)
    requires nx >= 1 && ny >= 1
  {
    2 * n <= |tex| && forall v :: 0 <= v < n ==>
      tex[2 * v..2 * v + 2] == [Fraction(v % (nx + 1), nx), Fraction(v / (nx + 1), ny)]
  }

  function FlatNormal(nx: nat, ny: nat, scale: real, f: Surface, k: nat): Vec
    requires nx >= 1 && ny >= 1 && k < 2 * (nx * ny)
  {
    CornerNumbers(nx, ny, k);
    f.normal(Vertex(nx, ny, scale, f, Point(nx, k, 0)), Vertex(nx, ny, scale, f, Point(nx, k, 1)),
      Vertex(nx, ny, scale, f, Point(nx, k, 2)))
  }

  predicate NormalsOk(nx: nat, ny: nat, scale: real, f: Surface, normals: seq<real>, n: nat)
    requires nx >= 1 && ny >= 1 && n <= 2 * (nx * ny)
  {
    3 * n <= |normals| && forall k :: 0 <= k < n ==> At(normals, k) == FlatNormal(nx, ny, scale, f, k)
  }

  function Vertices(nx: nat, ny: nat): nat { (ny + 1) * (nx + 1) }

  lemma CornerNumbers(nx: nat, ny: nat, k: nat)
    requires nx >= 1 && k < 2 * (nx * ny)
    ensures forall i :: 0 <= i < 3 ==> 0 <= Point(nx, k, i) < Vertices(nx, ny)
  {
    hide Corner;
    forall i | 0 <= i < 3 ensures 0 <= Point(nx, k, i) < Vertices(nx, ny) {
      CornersOnGrid(nx, ny, k, i);
      var s := Corner(nx, k, i);
      InGrid(nx + 1, ny + 1, s.y, s.x);
    }
  }

  // ----- one entry more

  /** `t` is `s` with `entry` written over it at `i`. */
  ghost predicate Written<T>(s: seq<T>, t: seq<T>, i: nat, entry: seq<T>) {
    i + |entry| <= |s| && t == s[..i] + entry + s[i + |entry|..]
  }

  lemma MorePoints(nx: nat, ny: nat, scale: real, f: Surface, s: seq<real>, t: seq<real>, n: nat, p: Vec)
    requires nx >= 1 && ny >= 1 && PointsOk(nx, ny, scale, f, s, n)
    requires Written(s, t, 3 * n, [p.x, p.y, p.z]) && p == Vertex(nx, ny, scale, f, n)
    ensures PointsOk(nx, ny, scale, f, t, n + 1)
  {
    hide Vertex;
    forall v | 0 <= v < n + 1 ensures At(t, v) == Vertex(nx, ny, scale, f, v) {
      if v < n { assert At(t, v) == At(s, v); }
    }
  }

  lemma MoreNormals(nx: nat, ny: nat, scale: real, f: Surface, s: seq<real>, t: seq<real>, n: nat, p: Vec)
    requires nx >= 1 && ny >= 1 && n < 2 * (nx * ny) && NormalsOk(nx, ny, scale, f, s, n)
    requires Written(s, t, 3 * n, [p.x, p.y, p.z]) && p == FlatNormal(nx, ny, scale, f, n)
    ensures NormalsOk(nx, ny, scale, f, t, n + 1)
  {
    hide FlatNormal;
    forall k | 0 <= k < n + 1 ensures At(t, k) == FlatNormal(nx, ny, scale, f, k) {
      if k < n { assert At(t, k) == At(s, k); }
    }
  }

  lemma MoreTexCoords(nx: nat, ny: nat, s: seq<real>, t: seq<real>, n: nat, dx: real, dy: real)
    requires nx >= 1 && ny >= 1 && TexCoordsOk(nx, ny, s, n)
    requires Written(s, t, 2 * n, [dx, dy]) && dx == Fraction(n % (nx + 1), nx) && dy == Fraction(n / (nx + 1), ny)
    ensures TexCoordsOk(nx, ny, t, n + 1)
  {
    hide Fraction;
    forall v | 0 <= v < n + 1 ensures t[2 * v..2 * v + 2] == [Fraction(v % (nx + 1), nx), Fraction(v / (nx + 1), ny)] {
      if v < n { assert t[2 * v..2 * v + 2] == s[2 * v..2 * v + 2]; }
    }
  }

  lemma MoreFaces(nx: nat, s: seq<int>, t: seq<int>, n: nat)
    requires nx >= 1 && FacesOk(nx, s, n) && Written(s, t, 9 * n, Face(nx, n))
    ensures FacesOk(nx, t, n + 1)
  {
    hide Point;
    forall k | 0 <= k < n + 1 ensures 9 * k + 9 <= |t| && t[9 * k..9 * k + 9] == Face(nx, k) {
      if k < n { assert t[9 * k..9 * k + 9] == s[9 * k..9 * k + 9]; }
    }
  }

  method PutVec(a: array<real>, i: nat, p: Vec)
    requires 3 * i + 3 <= a.Length
    modifies a
    ensures Written(old(a[..]), a[..], 3 * i, [p.x, p.y, p.z])
  {
    a[3 * i], a[3 * i + 1], a[3 * i + 2] := p.x, p.y, p.z;
  }

  method PutTexCoord(tex: array<real>, v: nat, dx: real, dy: real)
    requires 2 * v + 2 <= tex.Length
    modifies tex
    ensures Written(old(tex[..]), tex[..], 2 * v, [dx, dy])
  {
    tex[2 * v], tex[2 * v + 1] := dx, dy;
  }

  lemma WrittenOn<T>(s: seq<T>, t: seq<T>, u: seq<T>, i: nat, a: seq<T>, b: seq<T>)
    requires Written(s, t, i, a) && Written(t, u, i + |a|, b)
    ensures Written(s, u, i, a + b)
  {
    assert t[..i + |a|] == s[..i] + a;
    assert t[i + |a| + |b|..] == s[i + |a| + |b|..];
    assert s[..i] + a + b + s[i + |a| + |b|..] == s[..i] + (a + b) + s[i + |a| + |b|..];
  }

  method PutCorner(faces: array<int>, n: nat, p: int, k: int)
    requires n + 3 <= faces.Length
    modifies faces
    ensures Written(old(faces[..]), faces[..], n, [p, k, p])
  {
    faces[n], faces[n + 1], faces[n + 2] := p, k, p;
  }

  method PutFace(faces: array<int>, k: nat, a: int, b: int, c: int)
    requires 9 * k + 9 <= faces.Length
    modifies faces
    ensures Written(old(faces[..]), faces[..], 9 * k, [a, k, a, b, k, b, c, k, c])
  {
    hide Written;
    var n := 9 * k;
    ghost var s0 := faces[..];
    PutCorner(faces, n, a, k);
    ghost var s1 := faces[..];
    PutCorner(faces, n + 3, b, k);
    ghost var s2 := faces[..];
    PutCorner(faces, n + 6, c, k);
    ThreeCorners(s0, s1, s2, faces[..], n, k, a, b, c);
  }

  lemma ThreeCorners(s0: seq<int>, s1: seq<int>, s2: seq<int>, s3: seq<int>, n: nat, k: int, a: int, b: int, c: int)
    requires Written(s0, s1, n, [a, k, a]) && Written(s1, s2, n + 3, [b, k, b]) && Written(s2, s3, n + 6, [c, k, c])
    ensures Written(s0, s3, n, [a, k, a, b, k, b, c, k, c])
  {
    hide Written;
    var one, two, three := [a, k, a], [b, k, b], [c, k, c];
    assert |one| == 3 && |one + two| == 6;
    WrittenOn(s0, s1, s2, n, one, two);
    WrittenOn(s0, s2, s3, n, one + two, three);
    assert one + two + three == [a, k, a, b, k, b, c, k, c];
  }

  // ----- whole arrays

  /** The points, row by row. */
  method FillPoints(nx: nat, ny: nat, scale: real, f: Surface, points: array<real>)
    requires nx >= 1 && ny >= 1 && points.Length == 3 * Vertices(nx, ny)
    modifies points
    ensures PointsOk(nx, ny, scale, f, points[..], Vertices(nx, ny))
  {
    hide Place, Fraction, PointsOk, Written;
    var w := nx + 1;
    assert PointsOk(nx, ny, scale, f, points[..], 0) by { NoPoints(nx, ny, scale, f, points[..]); }
    for y := 0 to ny + 1
      invariant 0 <= y * w <= Vertices(nx, ny)
      invariant PointsOk(nx, ny, scale, f, points[..], y * w)
    {
      var fy := Place(Fraction(y, ny));
      InGrid(w, ny + 1, y, 0);
      for x := 0 to w
        invariant PointsOk(nx, ny, scale, f, points[..], y * w + x)
      {
        var fx := Place(Fraction(x, nx));
        InGrid(w, ny + 1, y, x);
        Quotient(w, y, x);
        ghost var was, p := points[..], Vec(fx * scale, fy * scale, f.height(fx, fy) * scale);
        PutVec(points, y * w + x, Vec(fx * scale, fy * scale, f.height(fx, fy) * scale));
        MorePoints(nx, ny, scale, f, was, points[..], y * w + x, p);
      }
    }
  }

  lemma NoPoints(nx: nat, ny: nat, scale: real, f: Surface, points: seq<real>)
    requires nx >= 1 && ny >= 1
    ensures PointsOk(nx, ny, scale, f, points, 0) && TexCoordsOk(nx, ny, points, 0)
        && NormalsOk(nx, ny, scale, f, points, 0)
  {
  }

  /** One row of points and texture coordinates. */
  method FillRow(nx: nat, ny: nat, scale: real, f: Surface, points: array<real>, tex: array<real>, y: nat)
    requires nx >= 1 && ny >= 1 && points != tex && y <= ny
    requires points.Length == 3 * Vertices(nx, ny) && tex.Length == 2 * Vertices(nx, ny)
    requires PointsOk(nx, ny, scale, f, points[..], y * (nx + 1)) && TexCoordsOk(nx, ny, tex[..], y * (nx + 1))
    modifies points, tex
    ensures PointsOk(nx, ny, scale, f, points[..], y * (nx + 1) + (nx + 1))
    ensures TexCoordsOk(nx, ny, tex[..], y * (nx + 1) + (nx + 1))
  {
    hide Place, Fraction, PointsOk, TexCoordsOk, Written;
    var first, dy := y * (nx + 1), Fraction(y, ny);
    var fy := Place(dy);
    for x := 0 to nx + 1
      invariant PointsOk(nx, ny, scale, f, points[..], first + x) && TexCoordsOk(nx, ny, tex[..], first + x)
    {
      var dx := Fraction(x, nx);
      var fx := Place(dx);
      InGrid(nx + 1, ny + 1, y, x);
      Quotient(nx + 1, y, x);
      ghost var was, wasTex := points[..], tex[..];
      var p := Vec(fx * scale, fy * scale, f.height(fx, fy) * scale);
      PutVec(points, first + x, p);
      MorePoints(nx, ny, scale, f, was, points[..], first + x, p);
      PutTexCoord(tex, first + x, dx, dy);
      MoreTexCoords(nx, ny, wasTex, tex[..], first + x, dx, dy);
    }
  }

  /** Points and texture coordinates together, as the builder makes them. */
  method FillVertices(nx: nat, ny: nat, scale: real, f: Surface, points: array<real>, tex: array<real>)
    requires nx >= 1 && ny >= 1 && points != tex
    requires points.Length == 3 * Vertices(nx, ny) && tex.Length == 2 * Vertices(nx, ny)
    modifies points, tex
    ensures PointsOk(nx, ny, scale, f, points[..], Vertices(nx, ny)) && TexCoordsOk(nx, ny, tex[..], Vertices(nx, ny))
  {
    hide PointsOk, TexCoordsOk;
    NoPoints(nx, ny, scale, f, points[..]);
    NoPoints(nx, ny, scale, f, tex[..]);
    for y := 0 to ny + 1
      invariant 0 <= y * (nx + 1)
      invariant PointsOk(nx, ny, scale, f, points[..], y * (nx + 1)) && TexCoordsOk(nx, ny, tex[..], y * (nx + 1))
    {
      InGrid(nx + 1, ny + 1, y, 0);
      FillRow(nx, ny, scale, f, points, tex, y);
    }
  }

  /** The corners of a cell, as the builder counts them. */
  lemma CellCorners(nx: nat, ny: nat, x: nat, y: nat)
    requires x < nx && y < ny
    ensures var k, p := 2 * (y * nx + x), y * (nx + 1) + x;
      && k + 1 < 2 * (nx * ny)
      && Point(nx, k, 0) == p && Point(nx, k, 1) == p + (nx + 1) && Point(nx, k, 2) == p + (nx + 1) + 1
      && Point(nx, k + 1, 0) == p + (nx + 1) + 1 && Point(nx, k + 1, 1) == p + 1 && Point(nx, k + 1, 2) == p
  {
    hide Column, Row;
    TriangleFound(nx, ny, x, y, false);
    TriangleFound(nx, ny, x, y, true);
    assert (y + 1) * (nx + 1) == y * (nx + 1) + (nx + 1);
  }

  /** The three corners of a triangle, read from the point array. */
  method ComputeNormal(nx: nat, ny: nat, scale: real, f: Surface, points: array<real>, a: nat, b: nat, c: nat)
      returns (n: Vec)
    requires nx >= 1 && ny >= 1 && PointsOk(nx, ny, scale, f, points[..], Vertices(nx, ny))
    requires a < Vertices(nx, ny) && b < Vertices(nx, ny) && c < Vertices(nx, ny)
    ensures n == f.normal(Vertex(nx, ny, scale, f, a), Vertex(nx, ny, scale, f, b), Vertex(nx, ny, scale, f, c))
  {
    hide Vertex, Vertices;
    assert At(points[..], a) == Vertex(nx, ny, scale, f, a) && At(points[..], b) == Vertex(nx, ny, scale, f, b)
      && At(points[..], c) == Vertex(nx, ny, scale, f, c);
    n := f.normal(Vec(points[3 * a], points[3 * a + 1], points[3 * a + 2]),
                  Vec(points[3 * b], points[3 * b + 1], points[3 * b + 2]),
                  Vec(points[3 * c], points[3 * c + 1], points[3 * c + 2]));
  }

  /** One triangle: its normal, then its face. */
  method PutTriangle(nx: nat, ny: nat, scale: real, f: Surface, points: array<real>, normals: array<real>,
      faces: array<int>,
      k: nat, a: nat, b: nat, c: nat)
    requires nx >= 1 && ny >= 1 && k < 2 * (nx * ny) && points != normals
    requires a == Point(nx, k, 0) && b == Point(nx, k, 1) && c == Point(nx, k, 2)
    requires normals.Length == 3 * (2 * (nx * ny)) && faces.Length == 9 * (2 * (nx * ny))
    requires PointsOk(nx, ny, scale, f, points[..], Vertices(nx, ny))
    requires NormalsOk(nx, ny, scale, f, normals[..], k) && FacesOk(nx, faces[..], k)
    modifies normals, faces
    ensures NormalsOk(nx, ny, scale, f, normals[..], k + 1) && FacesOk(nx, faces[..], k + 1)
  {
    hide PointsOk, NormalsOk, FacesOk, Point, Vertex, Written, Vertices;
    CornerNumbers(nx, ny, k);
    var n := ComputeNormal(nx, ny, scale, f, points, a, b, c);
    ghost var was, wasFaces := normals[..], faces[..];
    PutVec(normals, k, n);
    MoreNormals(nx, ny, scale, f, was, normals[..], k, n);
    PutFace(faces, k, a, b, c);
    MoreFaces(nx, wasFaces, faces[..], k);
  }

  /** The two triangles of each cell in a row. */
  method FillFaceRow(nx: nat, ny: nat, scale: real, f: Surface, points: array<real>, normals: array<real>,
      faces: array<int>, y: nat, count: nat) returns (normalCount: nat)
    requires nx >= 1 && y < ny && points != normals && count == 2 * (y * nx)
    requires normals.Length == 3 * (2 * (nx * ny)) && faces.Length == 9 * (2 * (nx * ny)) && count <= 2 * (nx * ny)
    requires PointsOk(nx, ny, scale, f, points[..], Vertices(nx, ny))
    requires NormalsOk(nx, ny, scale, f, normals[..], count) && FacesOk(nx, faces[..], count)
    modifies normals, faces
    ensures normalCount == 2 * (y * nx + nx) <= 2 * (nx * ny)
    ensures NormalsOk(nx, ny, scale, f, normals[..], normalCount) && FacesOk(nx, faces[..], normalCount)
  {
    hide PointsOk, NormalsOk, FacesOk, Point, Vertices;
    normalCount := count;
    for x := 0 to nx
      invariant normalCount == 2 * (y * nx + x) <= 2 * (nx * ny)
      invariant NormalsOk(nx, ny, scale, f, normals[..], normalCount) && FacesOk(nx, faces[..], normalCount)
    {
      CellCorners(nx, ny, x, y);
      var p00 := y * (nx + 1) + x;
      var p01, p10 := p00 + 1, p00 + (nx + 1);
      var p11 := p10 + 1;
      PutTriangle(nx, ny, scale, f, points, normals, faces, normalCount, p00, p10, p11);
      normalCount := normalCount + 1;
      PutTriangle(nx, ny, scale, f, points, normals, faces, normalCount, p11, p01, p00);
      normalCount := normalCount + 1;
    }
  }

  /** Faces and normals, cell by cell. */
  method FillFaces(nx: nat, ny: nat, scale: real, f: Surface, points: array<real>, normals: array<real>,
      faces: array<int>)
    requires nx >= 1 && ny >= 1 && points != normals
    requires normals.Length == 3 * (2 * (nx * ny)) && faces.Length == 9 * (2 * (nx * ny))
    requires PointsOk(nx, ny, scale, f, points[..], Vertices(nx, ny))
    modifies normals, faces
    ensures NormalsOk(nx, ny, scale, f, normals[..], 2 * (nx * ny)) && FacesOk(nx, faces[..], 2 * (nx * ny))
  {
    hide PointsOk, NormalsOk, FacesOk, Vertices;
    NoPoints(nx, ny, scale, f, normals[..]);
    NoFaces(nx, faces[..]);
    var normalCount := 0;
    for y := 0 to ny
      invariant 0 <= y * nx <= nx * ny && normalCount == 2 * (y * nx)
      invariant NormalsOk(nx, ny, scale, f, normals[..], normalCount) && FacesOk(nx, faces[..], normalCount)
    {
      InGrid(nx, ny, y, 0);
      normalCount := FillFaceRow(nx, ny, scale, f, points, normals, faces, y, normalCount);
    }
  }

  lemma NoFaces(nx: nat, faces: seq<int>)
    requires nx >= 1
    ensures FacesOk(nx, faces, 0)
  {
  }

  // ----- what the arrays hold, written out

  lemma PlaceIs(i: int, n: nat)
    requires n >= 1
    ensures Place(Fraction(i, n)) == (-10.0 * (n - i) as real + 10.0 * i as real) / n as real
  {
    var t, m := Fraction(i, n), n as real;
    assert t * m == i as real;
    assert Place(t) * m == -10.0 * (m - t * m) + 10.0 * (t * m);
  }

  /** Grid point (x, y): `x` of `nx` steps from -10 to 10 and `y` of `ny`, and the height over that place, all
      scaled. */
  ghost predicate PointPlaced(nx: nat, ny: nat, scale: real, f: Surface, points: seq<real>, x: nat, y: nat)
    requires nx >= 1 && ny >= 1
  {
    var i := y * (nx + 1) + x;
    var fx := (-10.0 * (nx - x) as real + 10.0 * x as real) / nx as real;
    var fy := (-10.0 * (ny - y) as real + 10.0 * y as real) / ny as real;
    && 0 <= 3 * i && 3 * i + 3 <= |points|
    && points[3 * i] == fx * scale && points[3 * i + 1] == fy * scale && points[3 * i + 2] == f.height(fx, fy) * scale
  }

  /** Its texture coordinates. */
  predicate TexturePlaced(nx: nat, ny: nat, tex: seq<real>, x: nat, y: nat) {
    var i := y * (nx + 1) + x;
    && 0 <= 2 * i && 2 * i + 2 <= |tex|
    && tex[2 * i] * nx as real == x as real && tex[2 * i + 1] * ny as real == y as real
  }

  /** The nine entries of a face: three times point, normal and texture coordinate. */
  predicate FaceIs(faces: seq<int>, k: nat, a: int, b: int, c: int) {
    9 * k + 9 <= |faces| && faces[9 * k..9 * k + 9] == [a, k, a, b, k, b, c, k, c]
  }

  ghost predicate NormalIs(f: Surface, points: seq<real>, normals: seq<real>, k: nat, a: int, b: int, c: int) {
    && 3 * k + 3 <= |normals| && 0 <= a && 3 * a + 3 <= |points| && 0 <= b && 3 * b + 3 <= |points|
    && 0 <= c && 3 * c + 3 <= |points|
    && At(normals, k) == f.normal(At(points, a), At(points, b), At(points, c))
  }

  /** The two triangles of cell (x, y), with the normals of their corners as the point array has them. */
  ghost predicate CellPlaced(nx: nat, f: Surface, points: seq<real>, normals: seq<real>, faces: seq<int>, x: nat,
                             y: nat) {
    var k, p := 2 * (y * nx + x), y * (nx + 1) + x;
    && 0 <= k
    && FaceIs(faces, k, p, p + nx + 1, p + nx + 2) && FaceIs(faces, k + 1, p + nx + 2, p + 1, p)
    && NormalIs(f, points, normals, k, p, p + nx + 1, p + nx + 2)
    && NormalIs(f, points, normals, k + 1, p + nx + 2, p + 1, p)
  }

  lemma VertexPlaced(nx: nat, ny: nat, scale: real, f: Surface, x: nat, y: nat)
    requires nx >= 1 && ny >= 1 && x <= nx && y <= ny
    ensures var fx := (-10.0 * (nx - x) as real + 10.0 * x as real) / nx as real;
      var fy := (-10.0 * (ny - y) as real + 10.0 * y as real) / ny as real;
      && 0 <= y * (nx + 1) + x < Vertices(nx, ny)
      && Vertex(nx, ny, scale, f, y * (nx + 1) + x) == Vec(fx * scale, fy * scale, f.height(fx, fy) * scale)
  {
    hide Place, Fraction;
    InGrid(nx + 1, ny + 1, y, x);
    Quotient(nx + 1, y, x);
    PlaceIs(x, nx);
    PlaceIs(y, ny);
  }

  lemma PointsPlaced(nx: nat, ny: nat, scale: real, f: Surface, points: seq<real>, x: nat, y: nat)
    requires nx >= 1 && ny >= 1 && x <= nx && y <= ny && PointsOk(nx, ny, scale, f, points, Vertices(nx, ny))
    ensures PointPlaced(nx, ny, scale, f, points, x, y)
  {
    hide Vertex, Vertices;
    VertexPlaced(nx, ny, scale, f, x, y);
    var i := y * (nx + 1) + x;
    assert At(points, i) == Vertex(nx, ny, scale, f, i);
  }

  lemma TextureAt(nx: nat, ny: nat, tex: seq<real>, n: nat, i: nat)
    requires nx >= 1 && ny >= 1 && i < n && TexCoordsOk(nx, ny, tex, n)
    ensures 2 * i + 2 <= |tex|
    ensures tex[2 * i] == Fraction(i % (nx + 1), nx) && tex[2 * i + 1] == Fraction(i / (nx + 1), ny)
  {
    hide Fraction;
    var pair := tex[2 * i..2 * i + 2];
    assert pair == [Fraction(i % (nx + 1), nx), Fraction(i / (nx + 1), ny)];
    assert tex[2 * i] == pair[0] && tex[2 * i + 1] == pair[1];
  }

  lemma FractionTimes(i: int, n: nat)
    requires n >= 1
    ensures Fraction(i, n) * n as real == i as real
  {
  }

  lemma TexturesPlaced(nx: nat, ny: nat, tex: seq<real>, x: nat, y: nat)
    requires nx >= 1 && ny >= 1 && x <= nx && y <= ny && TexCoordsOk(nx, ny, tex, Vertices(nx, ny))
    ensures TexturePlaced(nx, ny, tex, x, y)
  {
    hide Fraction, TexCoordsOk;
    InGrid(nx + 1, ny + 1, y, x);
    TextureAt(nx, ny, tex, Vertices(nx, ny), y * (nx + 1) + x);
    Quotient(nx + 1, y, x);
    FractionTimes(x, nx);
    FractionTimes(y, ny);
  }

  lemma CellsPlaced(nx: nat, ny: nat, scale: real, f: Surface, points: seq<real>, normals: seq<real>, faces: seq<int>,
                    x: nat, y: nat)
    requires nx >= 1 && ny >= 1 && x < nx && y < ny
    requires PointsOk(nx, ny, scale, f, points, Vertices(nx, ny))
    requires NormalsOk(nx, ny, scale, f, normals, 2 * (nx * ny)) && FacesOk(nx, faces, 2 * (nx * ny))
    ensures CellPlaced(nx, f, points, normals, faces, x, y)
  {
    hide Point, PointsOk, NormalsOk, FacesOk, Vertices, FaceIs, NormalIs;
    CellCorners(nx, ny, x, y);
    TrianglePlaced(nx, ny, scale, f, points, normals, faces, 2 * (y * nx + x));
    TrianglePlaced(nx, ny, scale, f, points, normals, faces, 2 * (y * nx + x) + 1);
  }

  lemma TrianglePlaced(nx: nat, ny: nat, scale: real, f: Surface, points: seq<real>, normals: seq<real>,
                       faces: seq<int>, k: nat)
    requires nx >= 1 && ny >= 1 && k < 2 * (nx * ny) && PointsOk(nx, ny, scale, f, points, Vertices(nx, ny))
    requires NormalsOk(nx, ny, scale, f, normals, 2 * (nx * ny)) && FacesOk(nx, faces, 2 * (nx * ny))
    ensures FaceIs(faces, k, Point(nx, k, 0), Point(nx, k, 1), Point(nx, k, 2))
    ensures NormalIs(f, points, normals, k, Point(nx, k, 0), Point(nx, k, 1), Point(nx, k, 2))
  {
    hide Point, Vertex, Vertices;
    CornerNumbers(nx, ny, k);
    assert At(normals, k) == FlatNormal(nx, ny, scale, f, k);
    assert forall i :: 0 <= i < 3 ==> At(points, Point(nx, k, i)) == Vertex(nx, ny, scale, f, Point(nx, k, i));
  }

  // ----- the mesh

  class Mesh {
    const points: array<real>
    const texCoords: array<real>
    const normals: array<real>
    const faces: array<int>

    ghost predicate Shaped(nx: nat, ny: nat) {
      && points != texCoords && points != normals && texCoords != normals
      && points.Length == 3 * Vertices(nx, ny) && texCoords.Length == 2 * Vertices(nx, ny)
      && normals.Length == 3 * (2 * (nx * ny)) && faces.Length == 9 * (2 * (nx * ny))
    }

    /** The arrays hold the mesh of the surface. */
    ghost predicate Holds(nx: nat, ny: nat, scale: real, f: Surface)
      requires nx >= 1 && ny >= 1
      reads points, texCoords, normals, faces
    {
      && Shaped(nx, ny)
      && PointsOk(nx, ny, scale, f, points[..], Vertices(nx, ny))
        && TexCoordsOk(nx, ny, texCoords[..], Vertices(nx, ny))
      && NormalsOk(nx, ny, scale, f, normals[..], 2 * (nx * ny)) && FacesOk(nx, faces[..], 2 * (nx * ny))
    }

    /** The same, written out for every grid point and every cell. */
    ghost predicate Drawn(nx: nat, ny: nat, scale: real, f: Surface)
      requires nx >= 1 && ny >= 1
      reads points, texCoords, normals, faces
    {
      && (forall x: nat, y: nat :: x <= nx && y <= ny ==>
            PointPlaced(nx, ny, scale, f, points[..], x, y) && TexturePlaced(nx, ny, texCoords[..], x, y))
      && (forall x: nat, y: nat :: x < nx && y < ny ==>
            CellPlaced(nx, f, points[..], normals[..], faces[..], x, y))
    }

    lemma HoldsDrawn(nx: nat, ny: nat, scale: real, f: Surface)
      requires nx >= 1 && ny >= 1 && Holds(nx, ny, scale, f)
      ensures Drawn(nx, ny, scale, f)
    {
      hide PointsOk, TexCoordsOk, NormalsOk, FacesOk, Vertices, PointPlaced, TexturePlaced, CellPlaced;
      forall x: nat, y: nat | x <= nx && y <= ny
        ensures PointPlaced(nx, ny, scale, f, points[..], x, y) && TexturePlaced(nx, ny, texCoords[..], x, y)
      {
        PointsPlaced(nx, ny, scale, f, points[..], x, y);
        TexturesPlaced(nx, ny, texCoords[..], x, y);
      }
      forall x: nat, y: nat | x < nx && y < ny
        ensures CellPlaced(nx, f, points[..], normals[..], faces[..], x, y)
      {
        CellsPlaced(nx, ny, scale, f, points[..], normals[..], faces[..], x, y);
      }
    }

    constructor Build(nx: nat, ny: nat, scale: real, f: Surface)
      requires nx >= 1 && ny >= 1
      ensures Holds(nx, ny, scale, f) && Drawn(nx, ny, scale, f)
      ensures fresh(points) && fresh(texCoords) && fresh(normals) && fresh(faces)
    {
      points := new real[3 * Vertices(nx, ny)];
      texCoords := new real[2 * Vertices(nx, ny)];
      normals := new real[3 * (2 * (nx * ny))];
      faces := new int[9 * (2 * (nx * ny))];
      new;
      hide PointsOk, TexCoordsOk, NormalsOk, FacesOk, Vertices, Drawn;
      FillVertices(nx, ny, scale, f, points, texCoords);
      FillFaces(nx, ny, scale, f, points, normals, faces);
      HoldsDrawn(nx, ny, scale, f);
    }

    /** `computeMesh`: new points for another height function, then new normals from the faces that are there. */
    method Compute(nx: nat, ny: nat, scale: real, f: Surface)
      requires nx >= 1 && ny >= 1 && Shaped(nx, ny)
      requires FacesOk(nx, faces[..], 2 * (nx * ny)) && TexCoordsOk(nx, ny, texCoords[..], Vertices(nx, ny))
      modifies points, normals
      ensures Holds(nx, ny, scale, f) && Drawn(nx, ny, scale, f)
    {
      hide PointsOk, TexCoordsOk, NormalsOk, FacesOk, Vertices, Point, Drawn;
      FillPoints(nx, ny, scale, f, points);
      NoPoints(nx, ny, scale, f, normals[..]);
      var k := 0;
      while k < 2 * (nx * ny)
        invariant 0 <= k <= 2 * (nx * ny)
        invariant PointsOk(nx, ny, scale, f, points[..], Vertices(nx, ny))
            && NormalsOk(nx, ny, scale, f, normals[..], k)
      {
        FaceEntries(nx, faces[..], 2 * (nx * ny), k);
        CornerNumbers(nx, ny, k);
        var index := 9 * k;
        var n := ComputeNormal(nx, ny, scale, f, points, faces[index], faces[index + 3], faces[index + 6]);
        assert faces[index + 1] == faces[index + 4] && faces[index + 1] == faces[index + 7];
        ghost var was := normals[..];
        PutVec(normals, faces[index + 1], n);
        MoreNormals(nx, ny, scale, f, was, normals[..], k, n);
        k := k + 1;
      }
      HoldsDrawn(nx, ny, scale, f);
    }
  }

  /** A mesh built for one surface and refreshed for another, beside one built for the other at once. */
  method RefreshAndRebuild(nx: nat, ny: nat, scale: real, before: Surface, now: Surface)
      returns (refreshed: Mesh, rebuilt: Mesh)
    requires nx >= 1 && ny >= 1
    ensures refreshed.points[..] == rebuilt.points[..] && refreshed.normals[..] == rebuilt.normals[..]
    ensures refreshed.texCoords[..] == rebuilt.texCoords[..] && refreshed.faces[..] == rebuilt.faces[..]
    ensures refreshed.Holds(nx, ny, scale, now) && refreshed.Drawn(nx, ny, scale, now)
  {
    hide PointsOk, TexCoordsOk, NormalsOk, FacesOk, Vertices, PointPlaced, TexturePlaced, CellPlaced;
    refreshed := new Mesh.Build(nx, ny, scale, before);
    refreshed.Compute(nx, ny, scale, now);
    rebuilt := new Mesh.Build(nx, ny, scale, now);
    OneMesh(nx, ny, scale, now, refreshed, rebuilt);
  }

  lemma FaceEntries(nx: nat, faces: seq<int>, n: nat, k: nat)
    requires nx >= 1 && FacesOk(nx, faces, n) && k < n
    ensures 9 * k + 9 <= |faces|
    ensures faces[9 * k] == Point(nx, k, 0) && faces[9 * k + 3] == Point(nx, k, 1)
        && faces[9 * k + 6] == Point(nx, k, 2)
    ensures faces[9 * k + 1] == faces[9 * k + 4] == faces[9 * k + 7] == k
  {
    hide Point;
    var b := faces[9 * k..9 * k + 9];
    assert b == Face(nx, k);
    assert faces[9 * k] == b[0] && faces[9 * k + 3] == b[3] && faces[9 * k + 6] == b[6];
    assert faces[9 * k + 1] == b[1] && faces[9 * k + 4] == b[4] && faces[9 * k + 7] == b[7];
  }

  lemma SameVectors(s: seq<real>, t: seq<real>, n: nat)
    requires |s| == |t| == 3 * n && forall i :: 0 <= i < n ==> At(s, i) == At(t, i)
    ensures s == t
  {
    forall j | 0 <= j < 3 * n ensures s[j] == t[j] {
      assert At(s, j / 3) == At(t, j / 3);
      assert j == 3 * (j / 3) || j == 3 * (j / 3) + 1 || j == 3 * (j / 3) + 2;
    }
  }

  lemma SamePairs(s: seq<real>, t: seq<real>, n: nat)
    requires |s| == |t| == 2 * n && forall i :: 0 <= i < n ==> s[2 * i..2 * i + 2] == t[2 * i..2 * i + 2]
    ensures s == t
  {
    forall j | 0 <= j < 2 * n ensures s[j] == t[j] {
      var i := j / 2;
      assert s[2 * i..2 * i + 2][j - 2 * i] == t[2 * i..2 * i + 2][j - 2 * i];
    }
  }

  lemma SameFaces(s: seq<int>, t: seq<int>, n: nat)
    requires |s| == |t| == 9 * n && forall i :: 0 <= i < n ==> s[9 * i..9 * i + 9] == t[9 * i..9 * i + 9]
    ensures s == t
  {
    forall j | 0 <= j < 9 * n ensures s[j] == t[j] {
      var i := j / 9;
      assert s[9 * i..9 * i + 9][j - 9 * i] == t[9 * i..9 * i + 9][j - 9 * i];
    }
  }

  lemma OneTopology(nx: nat, ny: nat, scale: real, f: Surface, refreshed: Mesh, rebuilt: Mesh)
    requires nx >= 1 && ny >= 1 && refreshed.Holds(nx, ny, scale, f) && rebuilt.Holds(nx, ny, scale, f)
    ensures refreshed.texCoords[..] == rebuilt.texCoords[..] && refreshed.faces[..] == rebuilt.faces[..]
  {
    hide PointsOk, NormalsOk, Vertices, Face, Fraction;
    SamePairs(refreshed.texCoords[..], rebuilt.texCoords[..], Vertices(nx, ny));
    SameFaces(refreshed.faces[..], rebuilt.faces[..], 2 * (nx * ny));
  }

  /** There is only one way to hold a surface. */
  lemma OneMesh(nx: nat, ny: nat, scale: real, f: Surface, refreshed: Mesh, rebuilt: Mesh)
    requires nx >= 1 && ny >= 1 && refreshed.Holds(nx, ny, scale, f) && rebuilt.Holds(nx, ny, scale, f)
    ensures refreshed.points[..] == rebuilt.points[..] && refreshed.normals[..] == rebuilt.normals[..]
    ensures refreshed.texCoords[..] == rebuilt.texCoords[..] && refreshed.faces[..] == rebuilt.faces[..]
  {
    hide Vertex, FlatNormal, Vertices, At, TexCoordsOk, FacesOk;
    OneTopology(nx, ny, scale, f, refreshed, rebuilt);
    forall i | 0 <= i < Vertices(nx, ny) ensures At(refreshed.points[..], i) == At(rebuilt.points[..], i) {
      assert At(refreshed.points[..], i) == Vertex(nx, ny, scale, f, i);
    }
    SameVectors(refreshed.points[..], rebuilt.points[..], Vertices(nx, ny));
    forall k | 0 <= k < 2 * (nx * ny) ensures At(refreshed.normals[..], k) == At(rebuilt.normals[..], k) {
      assert At(refreshed.normals[..], k) == FlatNormal(nx, ny, scale, f, k);
    }
    SameVectors(refreshed.normals[..], rebuilt.normals[..], 2 * (nx * ny));
  }
}
