/** The rectangle clear_region works on: corners normalised, then clamped
    to the grid (src/main.rs:297-308). */
module Regions {
  import opened Limits

  /** Inclusive corners: columns `x1..x2`, rows `y1..y2`. */
  datatype Rect = Rect(x1: int, y1: int, x2: int, y2: int) {
    predicate HasRow(y: int) {
      y1 <= y <= y2
    }

    predicate Covers(y: int, x: int) {
      HasRow(y) && x1 <= x <= x2
    }
  }

  function Min(a: int, b: int): int {
    if a <= b then a else b
  }

  function Max(a: int, b: int): int {
    if a <= b then b else a
  }

  /** The region `clear_region(x1, y1, x2, y2)` touches on a `row` x `col` grid. */
  function Region(row: int, col: int, x1: int, y1: int, x2: int, y2: int): (r: Rect)
    requires row >= 1 && col >= 1
    ensures 0 <= r.x1 <= r.x2 < col && 0 <= r.y1 <= r.y2 < row
    ensures r.y1 == Limit(Min(y1, y2), 0, row - 1) && r.y2 == Limit(Max(y1, y2), 0, row - 1)
    ensures r.x1 == Limit(Min(x1, x2), 0, col - 1) && r.x2 == Limit(Max(x1, x2), 0, col - 1)
  {
    var (a1, a2) := if x1 > x2 then (x2, x1) else (x1, x2);
    var (b1, b2) := if y1 > y2 then (y2, y1) else (y1, y2);
    LimitMonotone(a1, a2, 0, col - 1);
    LimitMonotone(b1, b2, 0, row - 1);
    Rect(Limit(a1, 0, col - 1), Limit(b1, 0, row - 1), Limit(a2, 0, col - 1), Limit(b2, 0, row - 1))
  }

  /** The corners may be given in any order. */
  lemma RegionSymmetric(row: int, col: int, x1: int, y1: int, x2: int, y2: int)
    requires row >= 1 && col >= 1
    ensures Region(row, col, x1, y1, x2, y2) == Region(row, col, x2, y2, x1, y1)
    ensures Region(row, col, x1, y1, x2, y2) == Region(row, col, x2, y1, x1, y2)
  {
  }

  /** When the rectangle meets the grid, the region covers exactly the grid
      cells inside the rectangle. */
  lemma RegionExact(row: int, col: int, x1: int, y1: int, x2: int, y2: int, y: int, x: int)
    requires row >= 1 && col >= 1
    requires Min(y1, y2) < row && 0 <= Max(y1, y2)
    requires Min(x1, x2) < col && 0 <= Max(x1, x2)
    requires 0 <= y < row && 0 <= x < col
    ensures Region(row, col, x1, y1, x2, y2).Covers(y, x)
        <==> Min(y1, y2) <= y <= Max(y1, y2) && Min(x1, x2) <= x <= Max(x1, x2)
  {
  }

  /** A rectangle entirely above the grid collapses onto row 0, and one
      entirely below it onto the last row: some row is always touched. */
  lemma RegionOutsideRows(row: int, col: int, x1: int, y1: int, x2: int, y2: int)
    requires row >= 1 && col >= 1
    ensures Max(y1, y2) < 0 ==> Region(row, col, x1, y1, x2, y2).y1 == Region(row, col, x1, y1, x2, y2).y2 == 0
    ensures row <= Min(y1, y2) ==> Region(row, col, x1, y1, x2, y2).y1 == Region(row, col, x1, y1, x2, y2).y2 == row - 1
  {
  }
}
