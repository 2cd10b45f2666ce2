/** The terrain collider (`TerrainCollider`): its triangles, the fixed
    32 × 32 uniform grid over their XZ extent, and the downward ray query
    that tests only the triangles filed under the origin's cell with the
    Möller–Trumbore intersection test. */
module Terrain {
  import opened Base
  import opened Geometry
  import Obj

  const Cols: int := 32
  const Rows: int := 32

  /** The parallel-ray threshold and the minimum accepted distance. */
  const Epsilon: real := 0.00001

  /** A ray with an origin and a direction (`CustomRay`). */
  datatype Ray = Ray(origin: Vec3, direction: Vec3)

  /** The uniform grid: its lower XZ corner, the cell edge, and per cell
      (row-major, `r * 32 + c`) the indices of the triangles filed there. */
  datatype Grid = Grid(frame: Frame, cells: seq<seq<nat>>)

  /** Where the grid sits: its lower XZ corner and its cell edge. */
  datatype Frame = Frame(minX: real, minZ: real, cellSize: real)

  datatype Collider = Collider(triangles: seq<Triangle>, grid: Grid)

  // ---------------------------------------------------------------------
  // Fallback floor

  /** `extractTriangles`: two triangles at the box's lowest height that
      together cover its XZ rectangle, each with the box's XZ bounds. */
  function FallbackFloor(b: Box): (ts: seq<Triangle>)
    ensures |ts| == 2
    ensures forall k :: 0 <= k < 2 ==>
              ts[k].v0.y == b.min.y && ts[k].v1.y == b.min.y && ts[k].v2.y == b.min.y &&
              ts[k].minX == b.min.x && ts[k].maxX == b.max.x && ts[k].minZ == b.min.z && ts[k].maxZ == b.max.z
  {
    var y := b.min.y;
    var lo := Vec3(b.min.x, y, b.min.z);
    var far := Vec3(b.max.x, y, b.max.z);
    [Triangle(lo, Vec3(b.max.x, y, b.min.z), far, b.min.x, b.max.x, b.min.z, b.max.z),
     Triangle(lo, far, Vec3(b.min.x, y, b.max.z), b.min.x, b.max.x, b.min.z, b.max.z)]
  }

  /** The XZ position with barycentric coordinates (u, v) in a triangle
      lies at (px, pz), with (u, v) inside the triangle. */
  predicate AtBarycentric(t: Triangle, px: real, pz: real, u: real, v: real)
  {
    0.0 <= u && 0.0 <= v && u + v <= 1.0 &&
    px == t.v0.x + u * (t.v1.x - t.v0.x) + v * (t.v2.x - t.v0.x) &&
    pz == t.v0.z + u * (t.v1.z - t.v0.z) + v * (t.v2.z - t.v0.z)
  }

  /** The two fallback triangles share the diagonal from the minimum corner
      to the maximum corner and sit on opposite sides of it, so every point
      of the box's XZ rectangle lies in one of them. */
  lemma FallbackCovers(b: Box, px: real, pz: real)
    requires b.min.x < b.max.x && b.min.z < b.max.z
    requires b.min.x <= px <= b.max.x && b.min.z <= pz <= b.max.z
    ensures exists u, v :: AtBarycentric(FallbackFloor(b)[0], px, pz, u, v) || AtBarycentric(FallbackFloor(b)[1], px, pz, u, v)
  {
    var w := b.max.x - b.min.x;
    var d := b.max.z - b.min.z;
    var a := (px - b.min.x) / w;
    var c := (pz - b.min.z) / d;
    DivUnit(px - b.min.x, w);
    DivUnit(pz - b.min.z, d);
    assert a * w == px - b.min.x && c * d == pz - b.min.z;
    var ts := FallbackFloor(b);
    if c <= a {
      // first triangle: v0 = min, v1 = (max.x, min.z), v2 = max
      var u, v := a - c, c;
      assert u * w + v * w == a * w;
      assert AtBarycentric(ts[0], px, pz, u, v);
    } else {
      // second triangle: v0 = min, v1 = max, v2 = (min.x, max.z)
      var u, v := a, c - a;
      assert u * d + v * d == c * d;
      assert AtBarycentric(ts[1], px, pz, u, v);
    }
  }

  // ---------------------------------------------------------------------
  // Grid

  /** The XZ extent of all triangles, folded from `FLT_MAX` / `-FLT_MAX`
      as the grid builder does. */
  function Extent(ts: seq<Triangle>): (e: (real, real, real, real))
    ensures forall k :: 0 <= k < |ts| ==> e.0 <= ts[k].minX && ts[k].maxX <= e.1 && e.2 <= ts[k].minZ && ts[k].maxZ <= e.3
    ensures e.0 <= FltMax && -FltMax <= e.1 && e.2 <= FltMax && -FltMax <= e.3
    ensures e.0 == FltMax || exists k :: 0 <= k < |ts| && e.0 == ts[k].minX
    ensures e.1 == -FltMax || exists k :: 0 <= k < |ts| && e.1 == ts[k].maxX
    ensures e.2 == FltMax || exists k :: 0 <= k < |ts| && e.2 == ts[k].minZ
    ensures e.3 == -FltMax || exists k :: 0 <= k < |ts| && e.3 == ts[k].maxZ
    decreases |ts|
  {
    if |ts| == 0 then (FltMax, -FltMax, FltMax, -FltMax)
    else
      var e := Extent(ts[..|ts| - 1]);
      var t := ts[|ts| - 1];
      var r := (Min(e.0, t.minX), Max(e.1, t.maxX), Min(e.2, t.minZ), Max(e.3, t.maxZ));
      assert forall k :: 0 <= k < |ts| - 1 ==> ts[..|ts| - 1][k] == ts[k];
      r
  }

  /** The cell edge: the larger of the two extents over 32, plus 0.1. */
  function CellSize(ts: seq<Triangle>): (cs: real)
    ensures |ts| > 0 && AllXZOrdered(ts) ==> cs >= 0.1
  {
    var e := Extent(ts);
    assert |ts| > 0 && AllXZOrdered(ts) ==> e.0 <= ts[0].minX <= ts[0].maxX <= e.1 && e.2 <= ts[0].minZ <= ts[0].maxZ <= e.3;
    Max((e.1 - e.0) / Cols as real, (e.3 - e.2) / Rows as real) + 0.1
  }

  predicate AllXZOrdered(ts: seq<Triangle>)
  {
    forall k :: 0 <= k < |ts| ==> XZOrdered(ts[k])
  }

  /** With ordered triangles the extent is ordered, so the cell edge is at
      least 0.1 and the whole extent fits in fewer than 32 cells. */
  lemma CellSizePositive(ts: seq<Triangle>)
    requires |ts| > 0 && AllXZOrdered(ts)
    ensures CellSize(ts) >= 0.1
    ensures var e := Extent(ts);
            e.0 <= e.1 && e.2 <= e.3 &&
            e.1 - e.0 < 32.0 * CellSize(ts) && e.3 - e.2 < 32.0 * CellSize(ts)
  {
    var e := Extent(ts);
    assert e.0 <= ts[0].minX <= ts[0].maxX <= e.1;
    assert e.2 <= ts[0].minZ <= ts[0].maxZ <= e.3;
  }

  /** The column (or row) a coordinate falls in: the truncating cast of its
      offset from the grid corner in cells. */
  function CellOf(p: real, origin: real, cs: real): int
    requires cs != 0.0
  {
    Trunc((p - origin) / cs)
  }

  /** The clamped column and row ranges a triangle is filed under. */
  function Span(t: Triangle, f: Frame): (s: (int, int, int, int))
    requires f.cellSize != 0.0
    ensures 0 <= s.0 && s.1 <= Cols - 1 && 0 <= s.2 && s.3 <= Rows - 1
    ensures var lo, hi := CellOf(t.minX, f.minX, f.cellSize), CellOf(t.maxX, f.minX, f.cellSize);
            lo <= s.0 && (s.0 == 0 || s.0 == lo) && s.1 <= hi && (s.1 == Cols - 1 || s.1 == hi)
    ensures var lo, hi := CellOf(t.minZ, f.minZ, f.cellSize), CellOf(t.maxZ, f.minZ, f.cellSize);
            lo <= s.2 && (s.2 == 0 || s.2 == lo) && s.3 <= hi && (s.3 == Rows - 1 || s.3 == hi)
  {
    (IMax(0, CellOf(t.minX, f.minX, f.cellSize)), IMin(Cols - 1, CellOf(t.maxX, f.minX, f.cellSize)),
     IMax(0, CellOf(t.minZ, f.minZ, f.cellSize)), IMin(Rows - 1, CellOf(t.maxZ, f.minZ, f.cellSize)))
  }

  /** Whether the cell at (row, col) lies in the triangle's span. */
  predicate Covers(t: Triangle, f: Frame, row: int, col: int)
    requires f.cellSize != 0.0
  {
    var s := Span(t, f);
    s.2 <= row <= s.3 && s.0 <= col <= s.1
  }

  /** One pass of the builder's outer loop: triangle `i` is appended to
      every cell of its span. */
  function File(cells: seq<seq<nat>>, f: Frame, t: Triangle, i: nat): (r: seq<seq<nat>>)
    requires f.cellSize != 0.0
    ensures |r| == |cells|
    ensures forall k :: 0 <= k < |cells| ==>
              r[k] == (if Covers(t, f, k / Cols, k % Cols) then cells[k] + [i] else cells[k])
  {
    seq(|cells|, k requires 0 <= k < |cells| => if Covers(t, f, k / Cols, k % Cols) then cells[k] + [i] else cells[k])
  }

  /** The cells after filing the first `n` triangles: each cell lists, in
      increasing order, exactly the triangles among them whose span covers it. */
  function FileAll(ts: seq<Triangle>, f: Frame, n: nat): (cells: seq<seq<nat>>)
    requires n <= |ts| && f.cellSize != 0.0
    ensures |cells| == Cols * Rows
    ensures forall k, i: nat :: 0 <= k < |cells| ==> (i in cells[k] <==> i < n && Covers(ts[i], f, k / Cols, k % Cols))
    ensures forall k, a :: 0 <= k < |cells| && 0 <= a < |cells[k]| ==> cells[k][a] < n
    ensures forall k, a, b :: 0 <= k < |cells| && 0 <= a < b < |cells[k]| ==> cells[k][a] < cells[k][b]
    decreases n
  {
    if n == 0 then seq(Cols * Rows, _ => [])
    else
      var prev := FileAll(ts, f, n - 1);
      FileExtends(ts, f, n, prev);
      File(prev, f, ts[n - 1], n - 1)
  }

  /** Filing triangle n − 1 into cells that hold the first n − 1 as
      promised gives cells that hold the first n as promised. */
  lemma FileExtends(ts: seq<Triangle>, f: Frame, n: nat, prev: seq<seq<nat>>)
    requires 0 < n <= |ts| && f.cellSize != 0.0
    requires forall k, i: nat :: 0 <= k < |prev| ==> (i in prev[k] <==> i < n - 1 && Covers(ts[i], f, k / Cols, k % Cols))
    requires forall k, a :: 0 <= k < |prev| && 0 <= a < |prev[k]| ==> prev[k][a] < n - 1
    requires forall k, a, b :: 0 <= k < |prev| && 0 <= a < b < |prev[k]| ==> prev[k][a] < prev[k][b]
    ensures var cells := File(prev, f, ts[n - 1], n - 1);
            (forall k, i: nat :: 0 <= k < |cells| ==> (i in cells[k] <==> i < n && Covers(ts[i], f, k / Cols, k % Cols))) &&
            (forall k, a :: 0 <= k < |cells| && 0 <= a < |cells[k]| ==> cells[k][a] < n) &&
            (forall k, a, b :: 0 <= k < |cells| && 0 <= a < b < |cells[k]| ==> cells[k][a] < cells[k][b])
  {
  }

  /** The frame `buildGrid` chooses: the extent's lower corner and `CellSize`. */
  function FrameOf(ts: seq<Triangle>): Frame
  {
    var e := Extent(ts);
    Frame(e.0, e.2, CellSize(ts))
  }

  /** `buildGrid`: a 32 × 32 array of cells over `FrameOf(ts)`, each listing
      (in increasing order) the triangles whose span covers it. Nothing is
      built without triangles. The cell edge is non-zero whenever the
      triangles' bounds are ordered; an inverted fallback box is the one way
      to reach zero, which the source divides by. */
  function BuildGrid(ts: seq<Triangle>): (g: Grid)
    requires |ts| > 0 ==> CellSize(ts) != 0.0
    ensures |ts| == 0 ==> g.cells == []
    ensures |ts| > 0 ==>
              g.frame == FrameOf(ts) && |g.cells| == Cols * Rows &&
              (forall k, i: nat :: 0 <= k < Cols * Rows ==> (i in g.cells[k] <==> i < |ts| && Covers(ts[i], g.frame, k / Cols, k % Cols))) &&
              (forall k, a :: 0 <= k < Cols * Rows && 0 <= a < |g.cells[k]| ==> g.cells[k][a] < |ts|)
  {
    if |ts| == 0 then Grid(Frame(0.0, 0.0, 0.0), [])
    else
      var f := FrameOf(ts);
      Grid(f, FileAll(ts, f, |ts|))
  }

  /** Grid completeness, first half: with ordered bounds every triangle's
      span is non-empty, so every triangle is filed in at least one cell. */
  lemma EveryTriangleFiled(ts: seq<Triangle>, i: nat)
    requires i < |ts| && AllXZOrdered(ts)
    ensures var g := BuildGrid(ts);
            exists k :: 0 <= k < Cols * Rows && i in g.cells[k]
  {
    CellSizePositive(ts);
    var s := SpanNonEmpty(ts, i);
    FiledInCell(ts, i, s.2, s.0);
  }

  /** With ordered bounds a triangle's span holds its own first cell; the
      span is returned. */
  lemma SpanNonEmpty(ts: seq<Triangle>, i: nat) returns (s: (int, int, int, int))
    requires i < |ts| && AllXZOrdered(ts)
    ensures CellSize(ts) > 0.0 && s == Span(ts[i], FrameOf(ts))
    ensures 0 <= s.2 < Rows && 0 <= s.0 < Cols && Covers(ts[i], FrameOf(ts), s.2, s.0)
    ensures 0 <= s.0 <= s.1 < Cols && 0 <= s.2 <= s.3 < Rows
  {
    CellSizePositive(ts);
    var t := ts[i];
    var e := Extent(ts);
    var f := FrameOf(ts);
    AxisCell(t.minX, t.minX, t.maxX, f.minX, e.1, f.cellSize);
    AxisCell(t.minZ, t.minZ, t.maxZ, f.minZ, e.3, f.cellSize);
    s := Span(t, f);
  }

  /** A triangle whose span covers the cell at (row, col) is listed there. */
  lemma FiledInCell(ts: seq<Triangle>, i: nat, row: int, col: int)
    requires i < |ts| && CellSize(ts) != 0.0
    requires 0 <= row < Rows && 0 <= col < Cols && Covers(ts[i], FrameOf(ts), row, col)
    ensures 0 <= row * Cols + col < Cols * Rows && i in BuildGrid(ts).cells[row * Cols + col]
  {
    CellIndex(row, col);
  }

  /** Row-major cell indices: the index of (row, col) gives back its row
      and column. */
  lemma CellIndex(row: int, col: int)
    requires 0 <= row < Rows && 0 <= col < Cols
    ensures var k := row * Cols + col;
            0 <= k < Cols * Rows && k / Cols == row && k % Cols == col
  {
  }

  /** On one axis: the start cell is at most the end cell and below 32. */
  lemma SpanStartsInGrid(lo: real, hi: real, gmin: real, gmax: real, cs: real)
    requires gmin <= lo <= hi <= gmax && gmax - gmin < 32.0 * cs && cs > 0.0
    ensures 0 <= Trunc((lo - gmin) / cs) <= Trunc((hi - gmin) / cs)
    ensures Trunc((lo - gmin) / cs) <= 31
  {
    var a := (lo - gmin) / cs;
    var b := (hi - gmin) / cs;
    assert a * cs == lo - gmin && b * cs == hi - gmin;
    MulPos(a, b, cs);
    if b < a {
      MulPos(b, a, cs);
    }
    ScaledBounds(lo - gmin, cs, a, 32.0, 32.0);
    assert lo - gmin < 32.0 * cs;
    assert 0.0 <= a < 32.0;
    TruncMonotoneNonNeg(a, b);
  }

  /** Grid completeness, second half: a ray origin inside the grid and
      inside a triangle's XZ bounds finds that triangle in its own cell. */
  lemma OriginCellHoldsTriangle(ts: seq<Triangle>, i: nat, ox: real, oz: real)
    requires i < |ts| && AllXZOrdered(ts)
    requires ts[i].minX <= ox <= ts[i].maxX && ts[i].minZ <= oz <= ts[i].maxZ
    ensures var g := BuildGrid(ts);
            var c := CellOf(ox, g.frame.minX, g.frame.cellSize);
            var r := CellOf(oz, g.frame.minZ, g.frame.cellSize);
            0 <= c < Cols && 0 <= r < Rows && i in g.cells[r * Cols + c]
  {
    CellSizePositive(ts);
    OriginInSpan(ts, i, ox, oz);
    var f := FrameOf(ts);
    FiledInCell(ts, i, CellOf(oz, f.minZ, f.cellSize), CellOf(ox, f.minX, f.cellSize));
  }

  /** The cell of a point inside a triangle's XZ bounds lies in the grid
      and in the triangle's span. */
  lemma OriginInSpan(ts: seq<Triangle>, i: nat, ox: real, oz: real)
    requires i < |ts| && AllXZOrdered(ts)
    requires ts[i].minX <= ox <= ts[i].maxX && ts[i].minZ <= oz <= ts[i].maxZ
    ensures CellSize(ts) > 0.0
    ensures var f := FrameOf(ts);
            var c, r := CellOf(ox, f.minX, f.cellSize), CellOf(oz, f.minZ, f.cellSize);
            0 <= c < Cols && 0 <= r < Rows && Covers(ts[i], f, r, c)
  {
    CellSizePositive(ts);
    var t := ts[i];
    var e := Extent(ts);
    var f := FrameOf(ts);
    AxisCell(t.minX, ox, t.maxX, f.minX, e.1, f.cellSize);
    AxisCell(t.minZ, oz, t.maxZ, f.minZ, e.3, f.cellSize);
  }

  /** On one axis: the cell of a point between a triangle's bounds lies
      in the grid and between the triangle's clamped start and end cells. */
  lemma AxisCell(lo: real, p: real, hi: real, gmin: real, gmax: real, cs: real)
    requires gmin <= lo <= p <= hi <= gmax && gmax - gmin < 32.0 * cs && cs > 0.0
    ensures var c := CellOf(p, gmin, cs);
            0 <= c < Cols && IMax(0, CellOf(lo, gmin, cs)) <= c <= IMin(Cols - 1, CellOf(hi, gmin, cs))
  {
    SpanStartsInGrid(lo, p, gmin, gmax, cs);
    SpanStartsInGrid(p, hi, gmin, gmax, cs);
  }

  // ---------------------------------------------------------------------
  // Möller–Trumbore

  /** The quantities of the Möller–Trumbore test: the determinant `a` and
      the numerators of u, v and t before division by `a`. */
  datatype Solve = Solve(a: real, un: real, vn: real, tn: real)

  function MtSolve(ray: Ray, t: Triangle): Solve
  {
    var e1 := Sub(t.v1, t.v0);
    var e2 := Sub(t.v2, t.v0);
    var h := Cross(ray.direction, e2);
    var s := Sub(ray.origin, t.v0);
    var q := Cross(s, e1);
    Solve(Dot(e1, h), Dot(s, h), Dot(ray.direction, q), Dot(e2, q))
  }

  /** The tests of `intersectTriangle`, read on exact quotients: the
      determinant is not near zero, u lies in [0, 1], v is non-negative,
      u + v is at most 1, and t is beyond epsilon. */
  predicate Passes(m: Solve)
  {
    Abs(m.a) >= Epsilon &&
    var u, v := m.un / m.a, m.vn / m.a;
    0.0 <= u <= 1.0 && 0.0 <= v && u + v <= 1.0 && m.tn / m.a > Epsilon
  }

  /** `intersectTriangle`: the ray parameter of the hit, if accepted. */
  function IntersectTriangle(ray: Ray, tri: Triangle): (r: Option<real>)
    ensures r.Some? <==> Passes(MtSolve(ray, tri))
    ensures r.Some? ==> r.value > Epsilon
    ensures r.Some? ==>
              var m := MtSolve(ray, tri);
              Abs(m.a) >= Epsilon &&
              var u, v := m.un / m.a, m.vn / m.a;
              0.0 <= u <= 1.0 && 0.0 <= v && u + v <= 1.0 && r.value == m.tn / m.a
  {
    Accept(MtSolve(ray, tri))
  }

  /** The tests of `intersectTriangle` on the determinant and numerators:
      a near-zero determinant (parallel ray) fails; then u, v and t are
      the numerators times 1 / a, and u outside [0, 1], v < 0, u + v > 1
      or t ≤ epsilon fail. */
  function Accept(m: Solve): (r: Option<real>)
    ensures r.Some? <==> Passes(m)
    ensures r.Some? ==> r.value > Epsilon
    ensures r.Some? ==>
              Abs(m.a) >= Epsilon &&
              var u, v := m.un / m.a, m.vn / m.a;
              0.0 <= u <= 1.0 && 0.0 <= v && u + v <= 1.0 && r.value == m.tn / m.a
  {
    if -Epsilon < m.a < Epsilon then None
    else
      var f := 1.0 / m.a;
      InverseTimes(m.a, m.un);
      InverseTimes(m.a, m.vn);
      InverseTimes(m.a, m.tn);
      var u := f * m.un;
      if u < 0.0 || u > 1.0 then None
      else
        var v := f * m.vn;
        if v < 0.0 || u + v > 1.0 then None
        else
          var t := f * m.tn;
          if t > Epsilon then Some(t) else None
  }

  lemma InverseTimes(a: real, x: real)
    requires a != 0.0
    ensures (1.0 / a) * x == x / a
  {
  }

  /** Cramer's rule for the system `a · s = un · e1 + vn · e2 − tn · d`,
      coordinate by coordinate. */
  predicate Cramer(m: Solve, s: Vec3, e1: Vec3, e2: Vec3, d: Vec3)
  {
    m.a * s.x == m.un * e1.x + m.vn * e2.x - m.tn * d.x &&
    m.a * s.y == m.un * e1.y + m.vn * e2.y - m.tn * d.y &&
    m.a * s.z == m.un * e1.z + m.vn * e2.z - m.tn * d.z
  }

  /** The algebra behind Möller–Trumbore: with `s = origin − v0`, the
      determinant and numerators of the test solve the system of
      `Cramer`. */
  lemma CramerIdentity(ray: Ray, tri: Triangle)
    ensures Cramer(MtSolve(ray, tri), Sub(ray.origin, tri.v0), Sub(tri.v1, tri.v0), Sub(tri.v2, tri.v0), ray.direction)
  {
    CramerVectors(Sub(ray.origin, tri.v0), Sub(tri.v1, tri.v0), Sub(tri.v2, tri.v0), ray.direction, MtSolve(ray, tri));
  }

  /** Cramer's rule on the vectors of the test, for the determinant and
      numerators as `MtSolve` forms them (`h = d × e2`, `q = s × e1`). */
  lemma CramerVectors(s: Vec3, e1: Vec3, e2: Vec3, d: Vec3, m: Solve)
    requires m == Solve(Dot(e1, Cross(d, e2)), Dot(s, Cross(d, e2)), Dot(d, Cross(s, e1)), Dot(e2, Cross(s, e1)))
    ensures Cramer(m, s, e1, e2, d)
  {
    CramerCoordinates(s.x, s.y, s.z, e1.x, e1.y, e1.z, e2.x, e2.y, e2.z, d.x, d.y, d.z, m.a, m.un, m.vn, m.tn);
  }

  /** Cramer's rule on scalar coordinates. */
  lemma CramerCoordinates(sx: real, sy: real, sz: real, ax: real, ay: real, az: real,
                          px: real, py: real, pz: real, dx: real, dy: real, dz: real,
                          a: real, un: real, vn: real, tn: real)
    requires a == ax * (dy * pz - dz * py) + ay * (dz * px - dx * pz) + az * (dx * py - dy * px)
    requires un == sx * (dy * pz - dz * py) + sy * (dz * px - dx * pz) + sz * (dx * py - dy * px)
    requires vn == dx * (sy * az - sz * ay) + dy * (sz * ax - sx * az) + dz * (sx * ay - sy * ax)
    requires tn == px * (sy * az - sz * ay) + py * (sz * ax - sx * az) + pz * (sx * ay - sy * ax)
    ensures a * sx == un * ax + vn * px - tn * dx
    ensures a * sy == un * ay + vn * py - tn * dy
    ensures a * sz == un * az + vn * pz - tn * dz
  {
  }

  /** An accepted hit is a point of the triangle: origin + t · direction
      equals v0 + u · e1 + v · e2 with u, v ≥ 0 and u + v ≤ 1. */
  lemma HitIsOnTriangle(ray: Ray, tri: Triangle)
    requires IntersectTriangle(ray, tri).Some?
    ensures var t := IntersectTriangle(ray, tri).value;
            var m := MtSolve(ray, tri);
            var u, v := m.un / m.a, m.vn / m.a;
            var e1, e2 := Sub(tri.v1, tri.v0), Sub(tri.v2, tri.v0);
            0.0 <= u && 0.0 <= v && u + v <= 1.0 &&
            Add(ray.origin, Scale(ray.direction, t)) == Add(tri.v0, Add(Scale(e1, u), Scale(e2, v)))
  {
    var m := MtSolve(ray, tri);
    var t := IntersectTriangle(ray, tri).value;
    assert m.a != 0.0 && t == m.tn / m.a;
    CramerIdentity(ray, tri);
    VecCombine(ray.origin, tri.v0, Sub(ray.origin, tri.v0), ray.direction, Sub(tri.v1, tri.v0), Sub(tri.v2, tri.v0), m);
    assert Add(ray.origin, Scale(ray.direction, t)) == Add(ray.origin, Scale(ray.direction, m.tn / m.a));
  }

  /** The three coordinates of the identity together, divided by a ≠ 0. */
  lemma VecCombine(o: Vec3, v0: Vec3, s: Vec3, d: Vec3, e1: Vec3, e2: Vec3, m: Solve)
    requires m.a != 0.0 && s == Sub(o, v0) && Cramer(m, s, e1, e2, d)
    ensures Add(o, Scale(d, m.tn / m.a)) == Add(v0, Add(Scale(e1, m.un / m.a), Scale(e2, m.vn / m.a)))
  {
    OneCoordinate(o.x, v0.x, s.x, d.x, e1.x, e2.x, m);
    OneCoordinate(o.y, v0.y, s.y, d.y, e1.y, e2.y, m);
    OneCoordinate(o.z, v0.z, s.z, d.z, e1.z, e2.z, m);
    SameSum(o, v0, d, e1, e2, m.tn / m.a, m.un / m.a, m.vn / m.a);
  }

  /** Two points given as origin plus offsets agree when every coordinate
      does. */
  lemma SameSum(o: Vec3, v0: Vec3, d: Vec3, e1: Vec3, e2: Vec3, t: real, u: real, v: real)
    requires o.x + d.x * t == v0.x + (e1.x * u + e2.x * v)
    requires o.y + d.y * t == v0.y + (e1.y * u + e2.y * v)
    requires o.z + d.z * t == v0.z + (e1.z * u + e2.z * v)
    ensures Add(o, Scale(d, t)) == Add(v0, Add(Scale(e1, u), Scale(e2, v)))
  {
    var p, q, r := Scale(d, t), Scale(e1, u), Scale(e2, v);
    assert p.x == d.x * t && q.x == e1.x * u && r.x == e2.x * v;
    assert p.y == d.y * t && q.y == e1.y * u && r.y == e2.y * v;
    assert p.z == d.z * t && q.z == e1.z * u && r.z == e2.z * v;
    SameOffsets(o, v0, p, q, r);
  }

  lemma SameOffsets(o: Vec3, v0: Vec3, p: Vec3, q: Vec3, r: Vec3)
    requires o.x + p.x == v0.x + (q.x + r.x)
    requires o.y + p.y == v0.y + (q.y + r.y)
    requires o.z + p.z == v0.z + (q.z + r.z)
    ensures Add(o, p) == Add(v0, Add(q, r))
  {
  }

  /** One coordinate of the identity, divided through by a ≠ 0. */
  lemma OneCoordinate(o: real, v0: real, s: real, d: real, e1: real, e2: real, m: Solve)
    requires m.a != 0.0 && s == o - v0 && m.a * s == m.un * e1 + m.vn * e2 - m.tn * d
    ensures o + d * (m.tn / m.a) == v0 + (e1 * (m.un / m.a) + e2 * (m.vn / m.a))
  {
    DivideIdentity(m.a, s, m.un, e1, m.vn, e2, m.tn, d);
  }

  /** One coordinate of the identity, divided through by a ≠ 0. */
  lemma DivideIdentity(a: real, s: real, un: real, e1: real, vn: real, e2: real, tn: real, d: real)
    requires a != 0.0 && a * s == un * e1 + vn * e2 - tn * d
    ensures s + d * (tn / a) == e1 * (un / a) + e2 * (vn / a)
  {
    var u, v, t := un / a, vn / a, tn / a;
    assert un == u * a && vn == v * a && tn == t * a;
    assert a * s == a * (u * e1 + v * e2 - t * d);
    CancelFactor(a, s, u * e1 + v * e2 - t * d);
  }

  lemma CancelFactor(a: real, x: real, y: real)
    requires a != 0.0 && a * x == a * y
    ensures x == y
  {
    assert a * (x - y) == 0.0;
  }

  // ---------------------------------------------------------------------
  // Ray query

  /** Whether an origin passes the per-triangle XZ bound filter. */
  predicate InXZBounds(o: Vec3, t: Triangle)
  {
    !(o.x < t.minX || o.x > t.maxX || o.z < t.minZ || o.z > t.maxZ)
  }

  /** The cell the ray origin falls in, or `None` outside the 32 × 32 grid
      (or with no triangles at all). */
  function OriginCell(c: Collider, o: Vec3): (k: Option<nat>)
    requires c.grid.frame.cellSize != 0.0
    requires |c.triangles| > 0 ==> |c.grid.cells| == Cols * Rows
    ensures k.Some? ==> k.value < |c.grid.cells|
  {
    if |c.triangles| == 0 then None
    else
      var col := CellOf(o.x, c.grid.frame.minX, c.grid.frame.cellSize);
      var row := CellOf(o.z, c.grid.frame.minZ, c.grid.frame.cellSize);
      if col < 0 || col >= Cols || row < 0 || row >= Rows then None
      else Some(row * Cols + col)
  }

  /** A triangle index of the cell that passes the filter and is hit. */
  predicate Candidate(c: Collider, idx: nat, o: Ray)
  {
    idx < |c.triangles| && InXZBounds(o.origin, c.triangles[idx]) && IntersectTriangle(o, c.triangles[idx]).Some?
  }

  /** A collider whose cells only list indices of its triangles. */
  predicate WellIndexed(c: Collider)
  {
    c.grid.frame.cellSize != 0.0 &&
    (|c.triangles| > 0 ==> |c.grid.cells| == Cols * Rows) &&
    forall k, a :: 0 <= k < |c.grid.cells| && 0 <= a < |c.grid.cells[k]| ==> c.grid.cells[k][a] < |c.triangles|
  }

  /** What a ray query may answer: nothing outside the grid; in the origin
      cell, `Some(d)` for the closest accepted distance among the cell's
      triangles (one with a positive distance below `FLT_MAX`), and `None`
      only when no listed triangle is accepted below `FLT_MAX`. */
  predicate Answers(c: Collider, ray: Ray, hit: Option<real>)
  {
    WellIndexed(c) &&
    (OriginCell(c, ray.origin).None? ==> hit.None?) &&
    (OriginCell(c, ray.origin).Some? ==>
       var cell := c.grid.cells[OriginCell(c, ray.origin).value];
       (hit.Some? ==>
          (exists a :: 0 <= a < |cell| && Candidate(c, cell[a], ray) &&
             IntersectTriangle(ray, c.triangles[cell[a]]).value == hit.value) &&
          0.0 < hit.value < FltMax &&
          forall a :: 0 <= a < |cell| && Candidate(c, cell[a], ray) ==>
            hit.value <= IntersectTriangle(ray, c.triangles[cell[a]]).value) &&
       (hit.None? ==>
          forall a :: 0 <= a < |cell| && Candidate(c, cell[a], ray) ==>
            IntersectTriangle(ray, c.triangles[cell[a]]).value >= FltMax))
  }

  /** `rayIntersects`: `None` means false with `hitDist` untouched;
      `Some(d)` is the closest accepted distance among the origin cell's
      triangles (those with a positive distance below `FLT_MAX`). */
  method RayIntersects(c: Collider, ray: Ray) returns (hit: Option<real>)
    requires WellIndexed(c)
    ensures Answers(c, ray, hit)
  {
    var k := OriginCell(c, ray.origin);
    if k.None? {
      return None;
    }
    var cell := c.grid.cells[k.value];
    var closest := FltMax;
    var found := false;
    var a := 0;
    while a < |cell|
      invariant 0 <= a <= |cell|
      invariant 0.0 < closest <= FltMax
      invariant found ==> closest < FltMax
      invariant found ==> exists b :: 0 <= b < a && Candidate(c, cell[b], ray) &&
                            IntersectTriangle(ray, c.triangles[cell[b]]).value == closest
      invariant !found ==> closest == FltMax
      invariant forall b :: 0 <= b < a && Candidate(c, cell[b], ray) ==>
                  closest <= IntersectTriangle(ray, c.triangles[cell[b]]).value
    {
      var tri := c.triangles[cell[a]];
      if InXZBounds(ray.origin, tri) {
        var t := IntersectTriangle(ray, tri);
        if t.Some? && t.value < closest && t.value > 0.0 {
          closest := t.value;
          found := true;
        }
      }
      a := a + 1;
    }
    hit := if found then Some(closest) else None;
  }

  /** The query on a built grid misses nothing: when the ray origin lies
      within a triangle's XZ bounds and the triangle is accepted below
      `FLT_MAX`, every answer of `RayIntersects` is a hit, no farther than
      that triangle. */
  lemma QueryFindsCoveringTriangle(ts: seq<Triangle>, i: nat, ray: Ray, hit: Option<real>)
    requires i < |ts| && AllXZOrdered(ts)
    requires InXZBounds(ray.origin, ts[i])
    requires IntersectTriangle(ray, ts[i]).Some? && IntersectTriangle(ray, ts[i]).value < FltMax
    requires Answers(Collider(ts, BuildGrid(ts)), ray, hit)
    ensures hit.Some? && hit.value <= IntersectTriangle(ray, ts[i]).value
  {
    var k := BuiltOriginCell(ts, i, ray.origin);
    ListedAnswerIsHit(Collider(ts, BuildGrid(ts)), ray, i, hit, k);
  }

  /** On a built grid, a point within a triangle's XZ bounds has an origin
      cell, and that cell lists the triangle. */
  lemma BuiltOriginCell(ts: seq<Triangle>, i: nat, o: Vec3) returns (k: nat)
    requires i < |ts| && AllXZOrdered(ts) && InXZBounds(o, ts[i])
    ensures BuildGrid(ts).frame.cellSize != 0.0 && |BuildGrid(ts).cells| == Cols * Rows
    ensures OriginCell(Collider(ts, BuildGrid(ts)), o) == Some(k) && i in BuildGrid(ts).cells[k]
  {
    CellSizePositive(ts);
    OriginInSpan(ts, i, o.x, o.z);
    var f := FrameOf(ts);
    var col := CellOf(o.x, f.minX, f.cellSize);
    var row := CellOf(o.z, f.minZ, f.cellSize);
    FiledInCell(ts, i, row, col);
    k := row * Cols + col;
    OriginCellAt(Collider(ts, BuildGrid(ts)), o, row, col);
  }

  /** The origin cell of a point whose column and row lie in the grid is
      the cell at that row and column. */
  lemma OriginCellAt(c: Collider, o: Vec3, row: int, col: int)
    requires c.grid.frame.cellSize != 0.0 && |c.triangles| > 0 && |c.grid.cells| == Cols * Rows
    requires col == CellOf(o.x, c.grid.frame.minX, c.grid.frame.cellSize) && 0 <= col < Cols
    requires row == CellOf(o.z, c.grid.frame.minZ, c.grid.frame.cellSize) && 0 <= row < Rows
    ensures OriginCell(c, o) == Some(row * Cols + col)
  {
  }

  /** On any collider: a triangle listed in the origin's cell and accepted
      below `FLT_MAX` makes every answer a hit no farther than it. */
  lemma ListedAnswerIsHit(c: Collider, ray: Ray, i: nat, hit: Option<real>, k: nat)
    requires Answers(c, ray, hit) && OriginCell(c, ray.origin) == Some(k)
    requires i in c.grid.cells[k] && InXZBounds(ray.origin, c.triangles[i])
    requires IntersectTriangle(ray, c.triangles[i]).Some? && IntersectTriangle(ray, c.triangles[i]).value < FltMax
    ensures hit.Some? && hit.value <= IntersectTriangle(ray, c.triangles[i]).value
  {
    var a := PositionOf(c.grid.cells[k], i);
    assert Candidate(c, c.grid.cells[k][a], ray);
  }

  /** Where a listed index sits in its cell. */
  lemma PositionOf(cell: seq<nat>, i: nat) returns (a: nat)
    requires i in cell
    ensures a < |cell| && cell[a] == i
  {
    a :| a < |cell| && cell[a] == i;
  }

  /** Origins less than one cell from the grid corner on both axes, even
      just before it, truncate to cell (0, 0), and that cell is queried. */
  lemma NearEdgeMapsToCellZero(c: Collider, o: Vec3)
    requires WellIndexed(c) && |c.triangles| > 0 && c.grid.frame.cellSize > 0.0
    requires -c.grid.frame.cellSize < o.x - c.grid.frame.minX < c.grid.frame.cellSize
    requires -c.grid.frame.cellSize < o.z - c.grid.frame.minZ < c.grid.frame.cellSize
    ensures CellOf(o.x, c.grid.frame.minX, c.grid.frame.cellSize) == 0
    ensures CellOf(o.z, c.grid.frame.minZ, c.grid.frame.cellSize) == 0
    ensures OriginCell(c, o) == Some(0)
  {
    EdgeCell(o.x, c.grid.frame.minX, c.grid.frame.cellSize);
    EdgeCell(o.z, c.grid.frame.minZ, c.grid.frame.cellSize);
  }

  /** On one axis: within one cell of the corner, either side, is cell 0. */
  lemma EdgeCell(p: real, origin: real, cs: real)
    requires cs > 0.0 && -cs < p - origin < cs
    ensures CellOf(p, origin, cs) == 0
  {
    var z := (p - origin) / cs;
    assert z * cs == p - origin;
    ScaledBounds(p - origin, cs, z, 1.0, -1.0);
    TruncNearZero(z);
  }

  // ---------------------------------------------------------------------
  // Initialisation

  /** `init`: no terrain model fails (`false`, here `None`); otherwise the
      OBJ triangles when a path was given and reading found some, else the
      fallback floor of the model's box; then the grid. The file contents
      stand for what the path names, and the model for its box. */
  function Init(objContent: Option<string>, model: Option<Box>, scale: real, pos: Vec3): (c: Option<Collider>)
    requires model.Some? ==> model.value.min.x <= model.value.max.x && model.value.min.z <= model.value.max.z
    ensures c.None? <==> model.None?
    ensures c.Some? ==> |c.value.triangles| > 0 && AllXZOrdered(c.value.triangles)
    ensures c.Some? ==> c.value.grid == BuildGrid(c.value.triangles)
    ensures c.Some? && objContent.None? ==> c.value.triangles == FallbackFloor(model.value)
    ensures c.Some? && objContent.Some? ==>
              var loaded := Obj.LoadFromObj(objContent.value, scale, pos);
              c.value.triangles == if loaded.0 then loaded.1 else FallbackFloor(model.value)
  {
    if model.None? then None
    else
      var loaded := if objContent.Some? then Obj.LoadFromObj(objContent.value, scale, pos) else (false, []);
      var ts := if loaded.0 && loaded.1 != [] then loaded.1 else FallbackFloor(model.value);
      CellSizePositive(ts);
      Some(Collider(ts, BuildGrid(ts)))
  }

  /** A collider built by `Init` has cells that only name its triangles. */
  lemma InitWellIndexed(objContent: Option<string>, model: Option<Box>, scale: real, pos: Vec3)
    requires model.Some? ==> model.value.min.x <= model.value.max.x && model.value.min.z <= model.value.max.z
    ensures Init(objContent, model, scale, pos).Some? ==> WellIndexed(Init(objContent, model, scale, pos).value)
  {
    if model.Some? {
      var c := Init(objContent, model, scale, pos).value;
      CellSizePositive(c.triangles);
    }
  }
}
