/**
 * The playing field: `height` rows of `width` optional colours
 * (src/core/board.py; the same class is repeated in src/tetris_main.py).
 * The grid is a list of rows that `PlacePiece` writes cell by cell and
 * `ClearLines` compacts by removing rows and inserting empty ones at the top.
 */
module Boards {
  import opened Wrappers
  import opened Shapes
  import opened Pieces

  type Cell = Option<Color>
  type Row = seq<Cell>
  type Grid = seq<Row>

  /** `h` rows of `w` cells each. */
  predicate WellFormed(g: Grid, w: nat, h: nat)
  {
    |g| == h && forall i :: 0 <= i < |g| ==> |g[i]| == w
  }

  function EmptyRow(w: nat): (row: Row)
    ensures |row| == w && forall j :: 0 <= j < w ==> row[j] == None
  {
    seq(w, _ => None)
  }

  /** `n` empty rows of width `w`. */
  function EmptyRows(n: nat, w: nat): (g: Grid)
    ensures WellFormed(g, w, n)
    ensures forall i, j :: 0 <= i < n && 0 <= j < w ==> g[i][j] == None
  {
    seq(n, _ => EmptyRow(w))
  }

  /** Why the block of a piece landing on board cell (cx, cy) is refused: off the
      left or right edge, below the floor, or on an occupied visible cell. A cell
      above row 0 is checked only against the side walls. */
  predicate Blocked(g: Grid, w: nat, h: nat, cx: int, cy: int)
    requires WellFormed(g, w, h)
  {
    cx < 0 || cx >= w || cy >= h || (cy >= 0 && g[cy][cx] != None)
  }

  /** A shape with its top-left corner at (x, y) fits when none of its
      blocks is blocked. */
  predicate Fits(g: Grid, w: nat, h: nat, s: Shape, x: int, y: int)
    requires WellFormed(g, w, h) && IsShape(s)
  {
    forall r, c :: 0 <= r < |s| && 0 <= c < |s[0]| && s[r][c] ==> !Blocked(g, w, h, x + c, y + r)
  }

  /** Board cell (i, j) is covered by a block of the shape placed at (x, y). */
  predicate Covers(s: Shape, x: int, y: int, i: int, j: int)
  {
    0 <= i - y < |s| && 0 <= j - x < |s[i - y]| && s[i - y][j - x]
  }

  /** The grid after writing colour `col` into every visible cell the shape covers. */
  function Stamp(g: Grid, s: Shape, x: int, y: int, col: Color): (g': Grid)
    ensures |g'| == |g| && forall i :: 0 <= i < |g| ==> |g'[i]| == |g[i]|
  {
    seq(|g|, i requires 0 <= i < |g| =>
      seq(|g[i]|, j requires 0 <= j < |g[i]| => if Covers(s, x, y, i, j) then Some(col) else g[i][j]))
  }

  /** Placing at a valid position colours every block of the shape that lies
      on a visible row, each of those cells is on the board, and every cell
      the shape does not cover keeps its content. */
  lemma StampWritesShape(g: Grid, w: nat, h: nat, s: Shape, x: int, y: int, col: Color)
    requires WellFormed(g, w, h) && IsShape(s) && Fits(g, w, h, s, x, y)
    ensures WellFormed(Stamp(g, s, x, y, col), w, h)
    ensures forall r, c :: 0 <= r < |s| && 0 <= c < |s[0]| && s[r][c] && y + r >= 0 ==>
              0 <= x + c < w && y + r < h && g[y + r][x + c] == None &&
              Stamp(g, s, x, y, col)[y + r][x + c] == Some(col)
    ensures forall i, j :: 0 <= i < h && 0 <= j < w && !Covers(s, x, y, i, j) ==>
              Stamp(g, s, x, y, col)[i][j] == g[i][j]
  {
    var g' := Stamp(g, s, x, y, col);
    forall r, c | 0 <= r < |s| && 0 <= c < |s[0]| && s[r][c] && y + r >= 0
      ensures 0 <= x + c < w && y + r < h && g[y + r][x + c] == None && g'[y + r][x + c] == Some(col)
    {
      assert !Blocked(g, w, h, x + c, y + r);
      assert Covers(s, x, y, y + r, x + c);
    }
  }

  /** Every cell of the row is occupied. */
  predicate IsFull(row: Row)
  {
    forall j :: 0 <= j < |row| ==> row[j] != None
  }

  /** The rows that are not full, in their original order. */
  function Kept(g: Grid): (k: Grid)
    ensures |k| <= |g|
    ensures forall i :: 0 <= i < |k| ==> !IsFull(k[i]) && k[i] in g
  {
    if g == [] then []
    else if IsFull(g[0]) then Kept(g[1..])
    else [g[0]] + Kept(g[1..])
  }

  /** The number of full rows. */
  function FullCount(g: Grid): (n: nat)
    ensures n + |Kept(g)| == |g|
  {
    if g == [] then 0
    else (if IsFull(g[0]) then 1 else 0) + FullCount(g[1..])
  }

  /** The grid that row compaction produces: one empty row on top for every
      full row removed, then the other rows in their original order. */
  function Compacted(g: Grid, w: nat): (g': Grid)
  {
    EmptyRows(FullCount(g), w) + Kept(g)
  }

  /** Compaction keeps the dimensions and leaves no full row behind. */
  lemma CompactedShape(g: Grid, w: nat, h: nat)
    requires WellFormed(g, w, h) && w > 0
    ensures WellFormed(Compacted(g, w), w, h)
    ensures forall i :: 0 <= i < h ==> !IsFull(Compacted(g, w)[i])
  {
    var n := FullCount(g);
    var g' := Compacted(g, w);
    forall i | 0 <= i < h ensures |g'[i]| == w && !IsFull(g'[i]) {
      if i < n {
        assert g'[i] == EmptyRow(w);
        assert g'[i][0] == None;
      } else {
        assert g'[i] == Kept(g)[i - n];
        KeptRowsKeepWidth(g, w, h, i - n);
      }
    }
  }

  lemma KeptRowsKeepWidth(g: Grid, w: nat, h: nat, i: nat)
    requires WellFormed(g, w, h) && i < |Kept(g)|
    ensures |Kept(g)[i]| == w
  {
    assert Kept(g)[i] in g;
  }

  /** Without full rows, compaction changes nothing. */
  lemma {:induction false} NoFullRowsKeepsGrid(g: Grid, w: nat)
    requires forall i :: 0 <= i < |g| ==> !IsFull(g[i])
    ensures FullCount(g) == 0 && Kept(g) == g && Compacted(g, w) == g
  {
    if g != [] {
      NoFullRowsKeepsGrid(g[1..], w);
    }
  }

  /** Rows below every full row are untouched: compaction only moves rows down. */
  lemma {:induction false} KeptOfAppend(a: Grid, b: Grid)
    ensures Kept(a + b) == Kept(a) + Kept(b)
    ensures FullCount(a + b) == FullCount(a) + FullCount(b)
  {
    if a != [] {
      assert (a + b)[1..] == a[1..] + b;
      KeptOfAppend(a[1..], b);
    } else {
      assert a + b == b;
    }
  }

  /** Filling only the bottom row and clearing removes exactly that row and
      shifts every other row down by one under a new empty top row. */
  lemma ClearBottomRow(g: Grid, w: nat, h: nat)
    requires WellFormed(g, w, h) && h > 0 && IsFull(g[h - 1])
    requires forall i :: 0 <= i < h - 1 ==> !IsFull(g[i])
    ensures FullCount(g) == 1
    ensures Compacted(g, w) == [EmptyRow(w)] + g[..h - 1]
  {
    assert g == g[..h - 1] + [g[h - 1]];
    KeptOfAppend(g[..h - 1], [g[h - 1]]);
    NoFullRowsKeepsGrid(g[..h - 1], w);
    assert [g[h - 1]][1..] == [];
    assert EmptyRows(1, w) == [EmptyRow(w)];
  }

  /** Clearing a second time finds nothing to clear. */
  lemma ClearIdempotent(g: Grid, w: nat, h: nat)
    requires WellFormed(g, w, h) && w > 0
    ensures FullCount(Compacted(g, w)) == 0
    ensures Compacted(Compacted(g, w), w) == Compacted(g, w)
  {
    CompactedShape(g, w, h);
    NoFullRowsKeepsGrid(Compacted(g, w), w);
  }

  /** The state of the bottom-up scan of `ClearLines` over the original grid
      `g0`: `n` empty rows, the `p` rows not yet examined, then the surviving
      rows of the examined part, of which `n` were full. */
  ghost predicate ClearScan(grid: Grid, g0: Grid, n: nat, p: nat, w: nat)
  {
    p <= |g0| && n == FullCount(g0[p..]) && grid == EmptyRows(n, w) + g0[..p] + Kept(g0[p..])
  }

  /** A scan with every original row examined has produced the compacted grid. */
  lemma ScanDone(grid: Grid, g0: Grid, n: nat, p: nat, w: nat, h: nat)
    requires WellFormed(g0, w, h) && ScanAt(grid, g0, n, p, -1, w, h)
    ensures n == FullCount(g0) && grid == Compacted(g0, w) && WellFormed(grid, w, h)
  {
    assert g0[..0] == [] && g0[0..] == g0;
    assert grid == EmptyRows(n, w) + [] + Kept(g0);
    ScanWellFormed(grid, g0, n, 0, w, h);
  }

  /** The row the scan looks at is the next unexamined original row. */
  lemma ScannedRow(grid: Grid, g0: Grid, n: nat, p: nat, w: nat)
    requires ClearScan(grid, g0, n, p, w) && p > 0
    ensures grid[n + p - 1] == g0[p - 1]
  {
  }

  /** Removing the scanned row `row` when it is full, and putting an empty
      row on top, is one more cleared row and one row fewer to examine. */
  lemma ClearStepFull(grid: Grid, g0: Grid, n: nat, p: nat, row: int, w: nat, h: nat)
    requires ClearScan(grid, g0, n, p, w) && p > 0 && row == n + p - 1 && IsFull(grid[row])
    requires WellFormed(g0, w, h)
    ensures ClearScan([EmptyRow(w)] + grid[..row] + grid[row + 1..], g0, n + 1, p - 1, w)
  {
    ScannedRow(grid, g0, n, p, w);
    var tail := g0[p - 1..];
    assert tail[1..] == g0[p..];
    assert grid[..row] == EmptyRows(n, w) + g0[..p - 1];
    assert grid[row + 1..] == Kept(g0[p..]);
    assert [EmptyRow(w)] + EmptyRows(n, w) == EmptyRows(n + 1, w);
  }

  /** A row the scan reaches is either the next unexamined original row or
      one of the empty rows on top, which is never full. */
  lemma ScanReaches(grid: Grid, g0: Grid, n: nat, p: nat, row: int, w: nat)
    requires ClearScan(grid, g0, n, p, w) && w > 0 && 0 <= row < |grid|
    requires row + 1 == n + p || (p == 0 && row + 1 <= n)
    ensures IsFull(grid[row]) ==> p > 0 && row + 1 == n + p
  {
    if !(p > 0 && row + 1 == n + p) {
      assert grid[row] == EmptyRow(w);
      assert grid[row][0] == None;
    }
  }

  /** The state of the bottom-up scan of `ClearLines` at row `row`: `n` rows
      removed so far, the original rows from `p` down examined. */
  ghost predicate ScanAt(grid: Grid, g0: Grid, n: nat, p: nat, row: int, w: nat, h: nat)
  {
    p <= h && -1 <= row < h && (row + 1 == n + p || (p == 0 && row + 1 <= n)) &&
    ClearScan(grid, g0, n, p, w)
  }

  /** The scan's next row is inside the grid; when it is full it is the next
      unexamined original row, since the empty rows on top are never full. */
  lemma ScanRow(grid: Grid, g0: Grid, n: nat, p: nat, row: int, w: nat, h: nat)
    requires w > 0 && WellFormed(g0, w, h) && ScanAt(grid, g0, n, p, row, w, h) && row >= 0
    ensures row < |grid|
    ensures IsFull(grid[row]) ==> p > 0 && row + 1 == n + p
  {
    ScanReaches(grid, g0, n, p, row, w);
  }

  /** Removing a full row keeps the scan's state, at the same index. */
  lemma ScanRemove(grid: Grid, g0: Grid, n: nat, p: nat, row: int, w: nat, h: nat)
    requires w > 0 && WellFormed(g0, w, h) && ScanAt(grid, g0, n, p, row, w, h) && p > 0 && row + 1 == n + p && IsFull(grid[row])
    ensures ScanAt([EmptyRow(w)] + grid[..row] + grid[row + 1..], g0, n + 1, p - 1, row, w, h)
  {
    ClearStepFull(grid, g0, n, p, row, w, h);
  }

  /** Passing over the next unexamined original row, which is not full. */
  lemma ScanKeep(grid: Grid, g0: Grid, n: nat, p: nat, row: int, w: nat, h: nat)
    requires w > 0 && WellFormed(g0, w, h) && ScanAt(grid, g0, n, p, row, w, h) && p > 0 && row + 1 == n + p && !IsFull(grid[row])
    ensures ScanAt(grid, g0, n, p - 1, row - 1, w, h)
  {
    ScannedRow(grid, g0, n, p, w);
    ClearStepKeep(grid, g0, n, p, w);
  }

  /** Removing the full row `row` and putting an empty row on top keeps the
      height and leaves one full row fewer. */
  lemma RemovedRowCount(g: Grid, row: int, w: nat)
    requires w > 0 && 0 <= row < |g| && IsFull(g[row])
    ensures |[EmptyRow(w)] + g[..row] + g[row + 1..]| == |g|
    ensures FullCount([EmptyRow(w)] + g[..row] + g[row + 1..]) == FullCount(g) - 1
  {
    var e := EmptyRow(w);
    assert e[0] == None;
    assert g == g[..row] + ([g[row]] + g[row + 1..]);
    KeptOfAppend(g[..row], [g[row]] + g[row + 1..]);
    KeptOfAppend([g[row]], g[row + 1..]);
    KeptOfAppend([e], g[..row] + g[row + 1..]);
    KeptOfAppend(g[..row], g[row + 1..]);
    assert [e] + g[..row] + g[row + 1..] == [e] + (g[..row] + g[row + 1..]);
    assert [g[row]][1..] == [] && [e][1..] == [];
  }

  /** The bottom-up scan of `ClearLines` from row `row` upwards, as a value:
      the grid it leaves and the number of rows it removes. A full row is
      removed and the same index examined again; any other row is passed. */
  ghost function Swept(g: Grid, row: int, w: nat): (r: (Grid, nat))
    requires w > 0 && -1 <= row < |g|
    decreases row + 1 + FullCount(g)
  {
    if row < 0 then (g, 0)
    else if IsFull(g[row]) then
      RemovedRowCount(g, row, w);
      var r := Swept([EmptyRow(w)] + g[..row] + g[row + 1..], row, w);
      (r.0, r.1 + 1)
    else
      Swept(g, row - 1, w)
  }

  lemma ScanLength(grid: Grid, g0: Grid, n: nat, p: nat, w: nat)
    requires ClearScan(grid, g0, n, p, w)
    ensures |grid| == |g0|
  {
  }

  /** From any state of the scan, the rest of it produces the compacted
      grid and removes the full rows not yet removed. */
  lemma {:induction false} ScanSweeps(g: Grid, g0: Grid, n: nat, p: nat, row: int, w: nat, h: nat)
    requires w > 0 && WellFormed(g0, w, h) && ScanAt(g, g0, n, p, row, w, h)
    ensures |g| == h
    ensures Swept(g, row, w).0 == Compacted(g0, w) && n + Swept(g, row, w).1 == FullCount(g0)
    decreases row + 1 + p
  {
    ScanLength(g, g0, n, p, w);
    if row < 0 {
      ScanDone(g, g0, n, p, w, h);
    } else {
      ScanRow(g, g0, n, p, row, w, h);
      if IsFull(g[row]) {
        ScanRemove(g, g0, n, p, row, w, h);
        ScanSweeps([EmptyRow(w)] + g[..row] + g[row + 1..], g0, n + 1, p - 1, row, w, h);
      } else if p > 0 && row + 1 == n + p {
        ScanKeep(g, g0, n, p, row, w, h);
        ScanSweeps(g, g0, n, p - 1, row - 1, w, h);
      } else {
        ScanSweeps(g, g0, n, p, row - 1, w, h);
      }
    }
  }

  /** The whole scan, started at the bottom row, compacts the grid. */
  lemma SweptCompacts(g: Grid, w: nat, h: nat)
    requires w > 0 && WellFormed(g, w, h)
    ensures Swept(g, h - 1, w).0 == Compacted(g, w) && Swept(g, h - 1, w).1 == FullCount(g)
  {
    assert g[..h] == g && g[h..] == [];
    assert EmptyRows(0, w) == [];
    ScanSweeps(g, g, 0, h, h - 1, w, h);
  }

  lemma ClearStepKeep(grid: Grid, g0: Grid, n: nat, p: nat, w: nat)
    requires ClearScan(grid, g0, n, p, w) && p > 0 && !IsFull(g0[p - 1])
    ensures ClearScan(grid, g0, n, p - 1, w)
  {
    var tail := g0[p - 1..];
    assert tail[1..] == g0[p..];
    assert g0[..p] == g0[..p - 1] + [g0[p - 1]];
  }

  lemma ScanWellFormed(grid: Grid, g0: Grid, n: nat, p: nat, w: nat, h: nat)
    requires ClearScan(grid, g0, n, p, w) && WellFormed(g0, w, h)
    ensures WellFormed(grid, w, h)
  {
    var k := Kept(g0[p..]);
    forall i | 0 <= i < |grid| ensures |grid[i]| == w {
      if n + p <= i {
        assert grid[i] == k[i - n - p];
        assert k[i - n - p] in g0[p..];
      }
    }
  }

  /** Board cell (i, j) of the row holds a block. */
  predicate RowOccupied(row: Row)
  {
    exists j :: 0 <= j < |row| && row[j] != None
  }

  class Board {
    const width: nat
    const height: nat
    var grid: Grid

    ghost predicate Valid()
      reads this
    {
      WellFormed(grid, width, height)
    }

    /** A fresh board has `height` rows of `width` empty cells. */
    constructor (w: nat, h: nat)
      ensures Valid() && width == w && height == h
      ensures grid == EmptyRows(h, w)
    {
      width, height := w, h;
      grid := EmptyRows(h, w);
    }

    /** Whether the piece fits with its top-left corner at (x, y). */
    method IsValidPosition(piece: Piece, x: int, y: int) returns (ok: bool)
      requires Valid() && IsShape(piece.shape)
      ensures ok == Fits(grid, width, height, piece.shape, x, y)
    {
      var s := piece.shape;
      var row := 0;
      while row < |s|
        invariant 0 <= row <= |s|
        invariant forall r, c :: 0 <= r < row && 0 <= c < |s[0]| && s[r][c] ==>
                    !Blocked(grid, width, height, x + c, y + r)
      {
        var col := 0;
        while col < |s[0]|
          invariant 0 <= col <= |s[0]|
          invariant forall r, c :: 0 <= r < row && 0 <= c < |s[0]| && s[r][c] ==>
                      !Blocked(grid, width, height, x + c, y + r)
          invariant forall c :: 0 <= c < col && s[row][c] ==>
                      !Blocked(grid, width, height, x + c, y + row)
        {
          if s[row][col] {
            var cx, cy := x + col, y + row;
            if cx < 0 || cx >= width || cy >= height {
              return false;
            }
            if cy >= 0 && grid[cy][cx] != None {
              return false;
            }
          }
          col := col + 1;
        }
        row := row + 1;
      }
      return true;
    }

    /** Writes the piece into the grid when it fits; otherwise changes nothing. */
    method PlacePiece(piece: Piece, x: int, y: int) returns (ok: bool)
      requires Valid() && IsShape(piece.shape)
      modifies this`grid
      ensures Valid()
      ensures ok == Fits(old(grid), width, height, piece.shape, x, y)
      ensures ok ==> grid == Stamp(old(grid), piece.shape, x, y, piece.color)
      ensures !ok ==> grid == old(grid)
    {
      ok := IsValidPosition(piece, x, y);
      if !ok {
        return;
      }
      ghost var g0 := grid;
      var s := piece.shape;
      var row := 0;
      while row < |s|
        invariant 0 <= row <= |s|
        invariant WellFormed(grid, width, height)
        invariant forall i, j :: 0 <= i < height && 0 <= j < width ==>
                    grid[i][j] == if Covers(s, x, y, i, j) && i - y < row then Some(piece.color) else g0[i][j]
      {
        var col := 0;
        while col < |s[0]|
          invariant 0 <= col <= |s[0]|
          invariant WellFormed(grid, width, height)
          invariant forall i, j :: 0 <= i < height && 0 <= j < width ==>
                      grid[i][j] == if Covers(s, x, y, i, j) && (i - y < row || (i - y == row && j - x < col))
                                    then Some(piece.color) else g0[i][j]
        {
          if s[row][col] {
            var cx, cy := x + col, y + row;
            assert !Blocked(g0, width, height, cx, cy);
            if cy >= 0 {
              grid := grid[cy := grid[cy][cx := Some(piece.color)]];
            }
          }
          col := col + 1;
        }
        row := row + 1;
      }
      forall i | 0 <= i < height ensures grid[i] == Stamp(g0, s, x, y, piece.color)[i] {
      }
    }

    /** Removes every full row, inserting an empty row on top for each, and
        returns how many were removed. The scan runs from the bottom row up
        and re-examines the same index after a removal. */
    method ClearLines() returns (n: nat)
      requires Valid() && width > 0
      modifies this`grid
      ensures Valid()
      ensures n == FullCount(old(grid))
      ensures grid == Compacted(old(grid), width)
    {
      ghost var g0 := grid;
      var g := grid;
      n := 0;
      var row: int := height - 1;
      SweptCompacts(g0, width, height);
      while row >= 0
        invariant -1 <= row < |g|
        invariant Swept(g, row, width).0 == Compacted(g0, width)
        invariant n + Swept(g, row, width).1 == FullCount(g0)
        decreases row + 1 + FullCount(g)
      {
        if IsFull(g[row]) {
          RemovedRowCount(g, row, width);
          g := [EmptyRow(width)] + g[..row] + g[row + 1..];
          n := n + 1;
        } else {
          row := row - 1;
        }
      }
      CompactedShape(g0, width, height);
      grid := g;
    }

    /** The game is over when the top row holds a block. */
    function IsGameOver(): (over: bool)
      reads this
      requires Valid() && height > 0
      ensures over <==> RowOccupied(grid[0])
    {
      grid[0] != EmptyRow(width)
    }
  }
}
