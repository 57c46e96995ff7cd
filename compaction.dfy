/** Greedy compaction of a maze occupancy grid into axis-aligned wall
    rectangles (greedyMerge in World.cpp), and the collision boxes built
    from those rectangles.  A grid cell holding 1 is a wall; any other
    value is open floor. */
module Compaction {

  /** Dimensions of every shipped maze: 35 rows (z) of 7 columns (x). */
  const MAP_W: int := 7
  const MAP_H: int := 35

  /** World size of one grid cell, and the height of every wall box. */
  const CELL: real := 2.7
  const WALL_H: real := 8.0

  /** A rectangle of grid cells: columns x .. x+w-1, rows z .. z+l-1. */
  datatype Rect = Rect(x: int, z: int, w: int, l: int)

  /** An axis-aligned collision box in world units. */
  datatype Box = Box(minX: real, minY: real, minZ: real, maxX: real, maxY: real, maxZ: real)

  predicate InRect(r: Rect, z: int, x: int)
  {
    r.x <= x < r.x + r.w && r.z <= z < r.z + r.l
  }

  /** Some rectangle of `rs` contains cell (z, x). */
  ghost predicate Covered(rs: seq<Rect>, z: int, x: int)
  {
    exists k :: 0 <= k < |rs| && InRect(rs[k], z, x)
  }

  predicate InGrid(g: array2<int>, z: int, x: int)
  {
    0 <= z < g.Length0 && 0 <= x < g.Length1
  }

  predicate IsWall(g: array2<int>, z: int, x: int)
    reads g
  {
    InGrid(g, z, x) && g[z, x] == 1
  }

  /** A non-empty rectangle that lies inside the grid. */
  predicate Inside(g: array2<int>, r: Rect)
  {
    1 <= r.w && 1 <= r.l && 0 <= r.x && r.x + r.w <= g.Length1 && 0 <= r.z && r.z + r.l <= g.Length0
  }

  ghost predicate AllWall(g: array2<int>, r: Rect)
    reads g
  {
    Inside(g, r) && forall z, x :: InRect(r, z, x) ==> IsWall(g, z, x)
  }

  predicate Disjoint(a: Rect, b: Rect)
  {
    a.x + a.w <= b.x || b.x + b.w <= a.x || a.z + a.l <= b.z || b.z + b.l <= a.z
  }

  /** The origin of `a` comes before the origin of `b` in row-major order. */
  predicate Precedes(a: Rect, b: Rect)
  {
    a.z < b.z || (a.z == b.z && a.x < b.x)
  }

  predicate OriginBefore(r: Rect, z: int, x: int)
  {
    r.z < z || (r.z == z && r.x < x)
  }

  /** A wall cell that no rectangle of `rs` covers yet. */
  ghost predicate Free(g: array2<int>, rs: seq<Rect>, z: int, x: int)
    reads g
  {
    IsWall(g, z, x) && !Covered(rs, z, x)
  }

  /** The cell just right of rectangle k's top row is outside the grid, open,
      or already covered by an earlier rectangle. */
  ghost predicate WidthMaximal(g: array2<int>, rs: seq<Rect>, k: int)
    requires 0 <= k < |rs|
    reads g
  {
    !Free(g, rs[..k], rs[k].z, rs[k].x + rs[k].w)
  }

  /** Some cell of the row just below rectangle k, within its columns, is
      outside the grid, open, or already covered by an earlier rectangle. */
  ghost predicate LengthMaximal(g: array2<int>, rs: seq<Rect>, k: int)
    requires 0 <= k < |rs|
    reads g
  {
    RowBlocked(g, rs[..k], rs[k].z + rs[k].l, rs[k].x, rs[k].w)
  }

  /** Some cell of row `row`, columns x .. x+w-1, is not Free. */
  ghost predicate RowBlocked(g: array2<int>, rs: seq<Rect>, row: int, x: int, w: int)
    reads g
  {
    exists i :: x <= i < x + w && !Free(g, rs, row, i)
  }

  ghost predicate Maximal(g: array2<int>, rs: seq<Rect>, k: int)
    requires 0 <= k < |rs|
    reads g
  {
    WidthMaximal(g, rs, k) && LengthMaximal(g, rs, k)
  }

  /** Every rectangle is inside the grid and made of wall cells, is maximal
      as the greedy scan grows it, and the rectangles are disjoint, in
      row-major order of their origins, and cover every wall cell. */
  ghost predicate IsCompaction(g: array2<int>, rs: seq<Rect>)
    reads g
  {
    && (forall k :: 0 <= k < |rs| ==> AllWall(g, rs[k]) && Maximal(g, rs, k))
    && (forall j, k :: 0 <= j < k < |rs| ==> Disjoint(rs[j], rs[k]) && Precedes(rs[j], rs[k]))
    && (forall z, x :: IsWall(g, z, x) ==> Covered(rs, z, x))
  }

  // ---------------------------------------------------------------------
  // Invariant of the scan, stated on the rectangles emitted so far
  // ---------------------------------------------------------------------

  /** Rectangles emitted before the scan reached cell (z, x). */
  ghost predicate ScannedTo(g: array2<int>, rs: seq<Rect>, z: int, x: int)
    reads g
  {
    && (forall k :: 0 <= k < |rs| ==> AllWall(g, rs[k]) && Maximal(g, rs, k) && OriginBefore(rs[k], z, x))
    && (forall j, k :: 0 <= j < k < |rs| ==> Disjoint(rs[j], rs[k]) && Precedes(rs[j], rs[k]))
    && (forall zz, xx :: IsWall(g, zz, xx) && (zz < z || (zz == z && xx < x)) ==> Covered(rs, zz, xx))
  }

  /** The used mask marks exactly the cells the rectangles cover. */
  ghost predicate Mirrors(g: array2<int>, used: array2<bool>, rs: seq<Rect>)
    reads used
  {
    && used.Length0 == g.Length0 && used.Length1 == g.Length1
    && forall z, x :: 0 <= z < used.Length0 && 0 <= x < used.Length1 ==> (used[z, x] <==> Covered(rs, z, x))
  }

  /** Wall cell, inside the grid, not yet marked in `used`. */
  predicate Open(g: array2<int>, used: array2<bool>, z: int, x: int)
    requires used.Length0 == g.Length0 && used.Length1 == g.Length1
    reads g, used
  {
    InGrid(g, z, x) && g[z, x] == 1 && !used[z, x]
  }

  /** Some cell of row `row`, columns x .. x+w-1, is outside the grid, open
      or used. */
  predicate RowHasClosed(g: array2<int>, used: array2<bool>, row: int, x: int, w: int)
    requires used.Length0 == g.Length0 && used.Length1 == g.Length1
    reads g, used
  {
    exists i :: x <= i < x + w && !Open(g, used, row, i)
  }

  /** Cells x .. x+n-1 of row `row` are all Open. */
  predicate RowOpenTo(g: array2<int>, used: array2<bool>, row: int, x: int, n: int)
    requires used.Length0 == g.Length0 && used.Length1 == g.Length1
    reads g, used
  {
    forall j :: x <= j < x + n ==> Open(g, used, row, j)
  }

  lemma CoveredAppend(rs: seq<Rect>, r: Rect, z: int, x: int)
    ensures Covered(rs + [r], z, x) <==> Covered(rs, z, x) || InRect(r, z, x)
  {
    if Covered(rs + [r], z, x) {
      var k :| 0 <= k < |rs| + 1 && InRect((rs + [r])[k], z, x);
      if k < |rs| {
        assert InRect(rs[k], z, x);
      }
    }
    if Covered(rs, z, x) {
      var k :| 0 <= k < |rs| && InRect(rs[k], z, x);
      assert (rs + [r])[k] == rs[k];
    }
    if InRect(r, z, x) {
      assert (rs + [r])[|rs|] == r;
    }
  }

  /** Two rectangles that are not disjoint share a cell. */
  lemma OverlapWitness(a: Rect, b: Rect)
    requires 1 <= a.w && 1 <= a.l && 1 <= b.w && 1 <= b.l
    ensures var z, x := if a.z < b.z then b.z else a.z, if a.x < b.x then b.x else a.x;
            !Disjoint(a, b) ==> InRect(a, z, x) && InRect(b, z, x)
  {
  }

  /** Appending a rectangle grown by the scan at (z, x) keeps the invariant,
      one scan position further. */
  lemma {:induction false} ScanStep(g: array2<int>, rs: seq<Rect>, r: Rect, z: int, x: int)
    requires ScannedTo(g, rs, z, x)
    requires r.x == x && r.z == z && Inside(g, r)
    requires forall zz, xx :: InRect(r, zz, xx) ==> Free(g, rs, zz, xx)
    requires !Free(g, rs, z, x + r.w)
    requires RowBlocked(g, rs, z + r.l, x, r.w)
    ensures ScannedTo(g, rs + [r], z, x + 1)
  {
    var rs' := rs + [r];
    assert rs'[..|rs|] == rs;
    forall k | 0 <= k < |rs'|
      ensures AllWall(g, rs'[k]) && Maximal(g, rs', k) && OriginBefore(rs'[k], z, x + 1)
    {
      assert rs'[..k] == if k < |rs| then rs[..k] else rs;
      if k < |rs| {
        assert rs'[k] == rs[k];
        assert Maximal(g, rs, k);
      } else {
        assert rs'[k] == r;
      }
    }
    forall j, k | 0 <= j < k < |rs'|
      ensures Disjoint(rs'[j], rs'[k]) && Precedes(rs'[j], rs'[k])
    {
      if k == |rs| {
        assert rs'[k] == r && rs'[j] == rs[j];
        assert AllWall(g, rs[j]);
        OverlapWitness(rs[j], r);
        ghost var cz, cx := if rs[j].z < r.z then r.z else rs[j].z, if rs[j].x < r.x then r.x else rs[j].x;
        assert InRect(rs[j], cz, cx) ==> Covered(rs, cz, cx);
      }
    }
    forall zz, xx | IsWall(g, zz, xx) && (zz < z || (zz == z && xx < x + 1))
      ensures Covered(rs', zz, xx)
    {
      CoveredAppend(rs, r, zz, xx);
    }
  }

  // ---------------------------------------------------------------------
  // The scan itself
  // ---------------------------------------------------------------------

  /** Width of the rectangle started at (z, x): grows right while the next
      cell is a wall not yet used. */
  method GrowWidth(g: array2<int>, used: array2<bool>, z: int, x: int) returns (w: int)
    requires used.Length0 == g.Length0 && used.Length1 == g.Length1
    requires Open(g, used, z, x)
    ensures 1 <= w && x + w <= g.Length1
    ensures forall i :: x <= i < x + w ==> Open(g, used, z, i)
    ensures !Open(g, used, z, x + w)
  {
    w := 1;
    while x + w < g.Length1 && g[z, x + w] == 1 && !used[z, x + w]
      invariant 1 <= w && x + w <= g.Length1
      invariant forall i :: x <= i < x + w ==> Open(g, used, z, i)
    {
      w := w + 1;
    }
  }

  /** Length of the rectangle of width w started at (z, x): grows down while
      every cell of the next row, across the width, is a wall not yet used. */
  method GrowLength(g: array2<int>, used: array2<bool>, z: int, x: int, w: int) returns (l: int)
    requires used.Length0 == g.Length0 && used.Length1 == g.Length1
    requires 0 <= z < g.Length0 && 0 <= x && 1 <= w && x + w <= g.Length1
    ensures 1 <= l && z + l <= g.Length0
    ensures forall zz, i :: z < zz < z + l && x <= i < x + w ==> Open(g, used, zz, i)
    ensures RowHasClosed(g, used, z + l, x, w)
  {
    l := 1;
    var expand := true;
    while z + l < g.Length0 && expand
      invariant 1 <= l && z + l <= g.Length0
      invariant forall zz, i :: z < zz < z + l && x <= i < x + w ==> Open(g, used, zz, i)
      invariant !expand ==> RowHasClosed(g, used, z + l, x, w)
      decreases g.Length0 - l, expand
    {
      var i := 0;
      while i < w
        invariant 0 <= i <= w && expand
        invariant RowOpenTo(g, used, z + l, x, i)
      {
        if g[z + l, x + i] != 1 || used[z + l, x + i] {
          assert !Open(g, used, z + l, x + i);
          expand := false;
          break;
        }
        i := i + 1;
      }
      if expand {
        l := l + 1;
      }
    }
    if expand {
      assert !Open(g, used, z + l, x);
    }
  }

  /** Marks every cell of `r` as used. */
  method MarkUsed(used: array2<bool>, r: Rect)
    requires 0 <= r.x && 0 <= r.z && 0 <= r.w && 0 <= r.l
    requires r.x + r.w <= used.Length1 && r.z + r.l <= used.Length0
    modifies used
    ensures forall z, x :: 0 <= z < used.Length0 && 0 <= x < used.Length1 ==>
              used[z, x] == (old(used[z, x]) || InRect(r, z, x))
  {
    for dz := 0 to r.l
      invariant forall z, x :: 0 <= z < used.Length0 && 0 <= x < used.Length1 ==>
                  used[z, x] == (old(used[z, x]) || (r.x <= x < r.x + r.w && r.z <= z < r.z + dz))
    {
      for dx := 0 to r.w
        invariant forall z, x :: 0 <= z < used.Length0 && 0 <= x < used.Length1 ==>
                    used[z, x] == (old(used[z, x]) || (r.x <= x < r.x + r.w && r.z <= z < r.z + dz)
                                   || (z == r.z + dz && r.x <= x < r.x + dx))
      {
        used[r.z + dz, r.x + dx] := true;
      }
    }
  }

  /** The scan at a wall cell not yet used: grow a rectangle right, then
      down, mark its cells used and append it. */
  method EmitRect(g: array2<int>, used: array2<bool>, rs: seq<Rect>, z: int, x: int) returns (rs': seq<Rect>)
    requires Mirrors(g, used, rs) && ScannedTo(g, rs, z, x)
    requires Open(g, used, z, x)
    modifies used
    ensures Mirrors(g, used, rs') && ScannedTo(g, rs', z, x + 1)
    ensures |rs'| == |rs| + 1 && rs'[..|rs|] == rs
  {
    var w := GrowWidth(g, used, z, x);
    var l := GrowLength(g, used, z, x, w);
    var r := Rect(x, z, w, l);
    GrownRectStep(g, used, rs, r);
    MarkUsed(used, r);
    forall zz, xx | 0 <= zz < used.Length0 && 0 <= xx < used.Length1
      ensures used[zz, xx] <==> Covered(rs + [r], zz, xx)
    {
      CoveredAppend(rs, r, zz, xx);
    }
    rs' := rs + [r];
    assert rs'[..|rs|] == rs;
  }

  /** The rectangle GrowWidth and GrowLength grow at (r.z, r.x) is free,
      width- and length-maximal, so appending it advances the scan. */
  lemma GrownRectStep(g: array2<int>, used: array2<bool>, rs: seq<Rect>, r: Rect)
    requires Mirrors(g, used, rs) && ScannedTo(g, rs, r.z, r.x)
    requires 0 <= r.z && 0 <= r.x && 1 <= r.w && 1 <= r.l && r.x + r.w <= g.Length1 && r.z + r.l <= g.Length0
    requires forall i :: r.x <= i < r.x + r.w ==> Open(g, used, r.z, i)
    requires !Open(g, used, r.z, r.x + r.w)
    requires forall zz, i :: r.z < zz < r.z + r.l && r.x <= i < r.x + r.w ==> Open(g, used, zz, i)
    requires RowHasClosed(g, used, r.z + r.l, r.x, r.w)
    ensures ScannedTo(g, rs + [r], r.z, r.x + 1)
  {
    forall zz, xx | InRect(r, zz, xx) ensures Free(g, rs, zz, xx) {
      assert Open(g, used, zz, xx);
    }
    assert !Free(g, rs, r.z, r.x + r.w) by {
      assert !Open(g, used, r.z, r.x + r.w);
    }
    ghost var i :| r.x <= i < r.x + r.w && !Open(g, used, r.z + r.l, i);
    assert !Free(g, rs, r.z + r.l, i);
    ScanStep(g, rs, r, r.z, r.x);
  }

  /** The scan passes over an open or already used cell. */
  lemma SkipCell(g: array2<int>, used: array2<bool>, rs: seq<Rect>, z: int, x: int)
    requires Mirrors(g, used, rs) && ScannedTo(g, rs, z, x)
    requires InGrid(g, z, x) && !Open(g, used, z, x)
    ensures ScannedTo(g, rs, z, x + 1)
  {
    forall zz, xx | IsWall(g, zz, xx) && (zz < z || (zz == z && xx < x + 1))
      ensures Covered(rs, zz, xx)
    {
    }
  }

  lemma NextRow(g: array2<int>, rs: seq<Rect>, z: int)
    requires ScannedTo(g, rs, z, g.Length1)
    ensures ScannedTo(g, rs, z + 1, 0)
  {
  }

  lemma ScanDone(g: array2<int>, rs: seq<Rect>)
    requires ScannedTo(g, rs, g.Length0, 0)
    ensures IsCompaction(g, rs)
  {
  }

  /** The rectangle-emitting part of greedyMerge: a row-major scan that grows
      one maximal rectangle from every wall cell not yet covered. */
  method ScanRects(g: array2<int>) returns (rs: seq<Rect>)
    ensures IsCompaction(g, rs)
  {
    var used := new bool[g.Length0, g.Length1]((_, _) => false);
    rs := [];
    for z := 0 to g.Length0
      invariant Mirrors(g, used, rs) && ScannedTo(g, rs, z, 0)
    {
      for x := 0 to g.Length1
        invariant Mirrors(g, used, rs) && ScannedTo(g, rs, z, x)
      {
        if g[z, x] != 1 || used[z, x] {
          SkipCell(g, used, rs, z, x);
        } else {
          rs := EmitRect(g, used, rs, z, x);
        }
      }
      NextRow(g, rs, z);
    }
    ScanDone(g, rs);
  }

  // ---------------------------------------------------------------------
  // Collision boxes
  // ---------------------------------------------------------------------

  /** The collision box of a rectangle: its cells scaled by CELL, from the
      floor up to the wall height. */
  function BoxOf(r: Rect): Box
  {
    Box(r.x as real * CELL, 0.0, r.z as real * CELL,
        (r.x + r.w) as real * CELL, WALL_H, (r.z + r.l) as real * CELL)
  }

  /** Box `b` covers the whole floor square of grid cell (z, x). */
  predicate CoversCell(b: Box, z: int, x: int)
  {
    b.minX <= x as real * CELL && (x + 1) as real * CELL <= b.maxX &&
    b.minZ <= z as real * CELL && (z + 1) as real * CELL <= b.maxZ
  }

  /** The wall-list rebuild of greedyMerge: one box per rectangle, in order. */
  method BuildWalls(rs: seq<Rect>) returns (walls: seq<Box>)
    ensures |walls| == |rs|
    ensures forall k :: 0 <= k < |rs| ==> walls[k] == BoxOf(rs[k])
  {
    walls := [];
    for k := 0 to |rs|
      invariant |walls| == k
      invariant forall j :: 0 <= j < k ==> walls[j] == BoxOf(rs[j])
    {
      walls := walls + [BoxOf(rs[k])];
    }
  }

  lemma BoxCoversCellIffInRect(r: Rect, z: int, x: int)
    ensures CoversCell(BoxOf(r), z, x) <==> InRect(r, z, x)
  {
  }

  /** The floor squares covered by the wall boxes of a compaction are exactly
      the wall cells of the grid, and no square is covered by two boxes. */
  lemma {:induction false} WallBoxesMatchGrid(g: array2<int>, rs: seq<Rect>, walls: seq<Box>, z: int, x: int)
    requires IsCompaction(g, rs)
    requires |walls| == |rs| && forall k :: 0 <= k < |rs| ==> walls[k] == BoxOf(rs[k])
    requires InGrid(g, z, x)
    ensures (exists k :: 0 <= k < |walls| && CoversCell(walls[k], z, x)) <==> g[z, x] == 1
    ensures forall j, k :: 0 <= j < k < |walls| ==> !(CoversCell(walls[j], z, x) && CoversCell(walls[k], z, x))
  {
    if g[z, x] == 1 {
      assert Covered(rs, z, x);
      var k :| 0 <= k < |rs| && InRect(rs[k], z, x);
      BoxCoversCellIffInRect(rs[k], z, x);
    }
    if exists k :: 0 <= k < |walls| && CoversCell(walls[k], z, x) {
      var k :| 0 <= k < |walls| && CoversCell(walls[k], z, x);
      BoxCoversCellIffInRect(rs[k], z, x);
      assert AllWall(g, rs[k]);
      assert IsWall(g, z, x);
    }
    forall j, k | 0 <= j < k < |walls|
      ensures !(CoversCell(walls[j], z, x) && CoversCell(walls[k], z, x))
    {
      BoxCoversCellIffInRect(rs[j], z, x);
      BoxCoversCellIffInRect(rs[k], z, x);
    }
  }

  /** A compaction covers exactly the wall cells, each by one rectangle. */
  lemma {:induction false} CompactionIsExactCover(g: array2<int>, rs: seq<Rect>, z: int, x: int)
    requires IsCompaction(g, rs)
    ensures Covered(rs, z, x) <==> IsWall(g, z, x)
    ensures forall j, k :: 0 <= j < k < |rs| && InRect(rs[j], z, x) ==> !InRect(rs[k], z, x)
  {
    if Covered(rs, z, x) {
      var k :| 0 <= k < |rs| && InRect(rs[k], z, x);
      assert AllWall(g, rs[k]);
    }
  }
}
