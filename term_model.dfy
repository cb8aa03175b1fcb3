/** The terminal screen state as a value, and the specification of the
    operations `Term::new`, `Term::clear_region` and `Term::reset`
    (src/main.rs:194-206, 268-339). The class `Terminal.Term` is proved
    against these functions. */
module TermModel {
  import opened Glyphs
  import opened Limits
  import opened Regions

  /** `g` is a `row` x `col` grid of cells. */
  predicate IsGrid(g: seq<seq<Glyph>>, row: int, col: int) {
    |g| == row && forall y :: 0 <= y < row ==> |g[y]| == col
  }

  /** The fields of `Term`: geometry, primary and alternate screen, dirty
      rows, cursor, scroll region, mode bits, escape state and tab stops. */
  datatype TermState = TermState(
    row: int, col: int,
    line: seq<seq<Glyph>>, alt: seq<seq<Glyph>>,
    dirty: seq<bool>,
    c: TCursor,
    top: int, bot: int,
    mode: int, esc: int,
    tabs: seq<bool>)
  {
    /** The grids are `row` x `col`, `dirty` has a flag per row, `tabs` one per column. */
    predicate Valid() {
      row >= 1 && col >= 1 &&
      IsGrid(line, row, col) && IsGrid(alt, row, col) &&
      |dirty| == row && |tabs| == col
    }
  }

  /** Blanks the cells of `g` that `r` covers. */
  function ClearCells(g: seq<seq<Glyph>>, r: Rect): seq<seq<Glyph>> {
    seq(|g|, y requires 0 <= y < |g| =>
      seq(|g[y]|, x requires 0 <= x < |g[y]| =>
        if r.Covers(y, x) then Blank(g[y][x]) else g[y][x]))
  }

  /** Marks the rows of `r` dirty. */
  function MarkRows(d: seq<bool>, r: Rect): seq<bool> {
    seq(|d|, y requires 0 <= y < |d| => r.HasRow(y) || d[y])
  }

  /** `clear_region(x1, y1, x2, y2)`: `x` are columns, `y` are rows. */
  function ClearRegion(t: TermState, x1: int, y1: int, x2: int, y2: int): (u: TermState)
    requires t.Valid()
    ensures u.Valid()
  {
    var r := Region(t.row, t.col, x1, y1, x2, y2);
    t.(line := ClearCells(t.line, r), dirty := MarkRows(t.dirty, r))
  }

  /** Column `k` is one of the stops the reset loop sets: `k == i * TABSPACES`
      for some `1 <= i < col / TABSPACES`. */
  predicate TabStop(k: int, col: int) {
    k % TABSPACES == 0 && 1 <= k / TABSPACES < col / TABSPACES
  }

  /** Sets the default tab stops and keeps every other flag. */
  function SetTabStops(tabs: seq<bool>, col: int): seq<bool> {
    seq(|tabs|, k requires 0 <= k < |tabs| => TabStop(k, col) || tabs[k])
  }

  /** The state before the final clear of `reset`. */
  function ResetFields(t: TermState): (u: TermState)
    requires t.Valid()
    ensures u.Valid()
  {
    t.(tabs := SetTabStops(t.tabs, t.col), top := 0, bot := t.row - 1, mode := MODE_WRAP)
  }

  /** `reset` as written: the clear passes the row bound as `x2` and the
      column bound as `y2`. The cursor it builds is never stored. */
  function Reset(t: TermState): (u: TermState)
    requires t.Valid()
    ensures u.Valid()
  {
    ClearRegion(ResetFields(t), 0, 0, t.row - 1, t.col - 1)
  }

  /** `reset` with the clear's arguments in the order of its signature. */
  function ResetCorrected(t: TermState): (u: TermState)
    requires t.Valid()
    ensures u.Valid()
  {
    ClearRegion(ResetFields(t), 0, 0, t.col - 1, t.row - 1)
  }

  /** `Term::new`: the default 24 x 80 geometry, every other field at its default. */
  function New(): (t: TermState)
    ensures t.Valid() && t.row == 24 && t.col == 80
  {
    TermState(24, 80,
      seq(24, _ => seq(80, _ => DEFAULT_GLYPH)), seq(24, _ => seq(80, _ => DEFAULT_GLYPH)),
      seq(24, _ => false), DEFAULT_CURSOR, 0, 0, 0, 0, seq(80, _ => false))
  }

  // ---------------------------------------------------------------- clear_region

  /** Every row between the clamped, normalised row bounds is marked dirty,
      and no other row's flag changes, whatever the arguments. */
  lemma ClearRegionDirty(t: TermState, x1: int, y1: int, x2: int, y2: int, y: int)
    requires t.Valid() && 0 <= y < t.row
    ensures Limit(Min(y1, y2), 0, t.row - 1) <= y <= Limit(Max(y1, y2), 0, t.row - 1)
        ==> ClearRegion(t, x1, y1, x2, y2).dirty[y]
    ensures !(Limit(Min(y1, y2), 0, t.row - 1) <= y <= Limit(Max(y1, y2), 0, t.row - 1))
        ==> ClearRegion(t, x1, y1, x2, y2).dirty[y] == t.dirty[y]
  {
  }

  /** A cell in the clamped, normalised rectangle gets state 0 and keeps its
      character, attributes and colours; any other cell is unchanged. */
  lemma ClearRegionCell(t: TermState, x1: int, y1: int, x2: int, y2: int, y: int, x: int)
    requires t.Valid() && 0 <= y < t.row && 0 <= x < t.col
    ensures var g, h := t.line[y][x], ClearRegion(t, x1, y1, x2, y2).line[y][x];
      if Limit(Min(y1, y2), 0, t.row - 1) <= y <= Limit(Max(y1, y2), 0, t.row - 1)
        && Limit(Min(x1, x2), 0, t.col - 1) <= x <= Limit(Max(x1, x2), 0, t.col - 1)
      then h.state == 0 && h.c == g.c && h.mode == g.mode && h.fg == g.fg && h.bg == g.bg
      else h == g
  {
  }

  /** Only the primary grid and the dirty flags change. */
  lemma ClearRegionFrame(t: TermState, x1: int, y1: int, x2: int, y2: int)
    requires t.Valid()
    ensures var u := ClearRegion(t, x1, y1, x2, y2);
      u.row == t.row && u.col == t.col && u.alt == t.alt && u.c == t.c &&
      u.top == t.top && u.bot == t.bot && u.mode == t.mode && u.esc == t.esc &&
      u.tabs == t.tabs && IsGrid(u.line, t.row, t.col) && |u.dirty| == t.row
  {
  }

  /** The corners may be given in either order. */
  lemma ClearRegionSymmetric(t: TermState, x1: int, y1: int, x2: int, y2: int)
    requires t.Valid()
    ensures ClearRegion(t, x1, y1, x2, y2) == ClearRegion(t, x2, y2, x1, y1)
    ensures ClearRegion(t, x1, y1, x2, y2) == ClearRegion(t, x2, y1, x1, y2)
  {
    RegionSymmetric(t.row, t.col, x1, y1, x2, y2);
  }

  lemma ClearCellsIdempotent(g: seq<seq<Glyph>>, r: Rect)
    ensures ClearCells(ClearCells(g, r), r) == ClearCells(g, r)
  {
    var h := ClearCells(g, r);
    forall y | 0 <= y < |g| ensures ClearCells(h, r)[y] == h[y] {
      assert |ClearCells(h, r)[y]| == |h[y]|;
    }
  }

  /** Clearing a region twice is the same as clearing it once. */
  lemma ClearRegionIdempotent(t: TermState, x1: int, y1: int, x2: int, y2: int)
    requires t.Valid()
    ensures ClearRegion(ClearRegion(t, x1, y1, x2, y2), x1, y1, x2, y2) == ClearRegion(t, x1, y1, x2, y2)
  {
    var r := Region(t.row, t.col, x1, y1, x2, y2);
    ClearCellsIdempotent(t.line, r);
  }

  lemma ClearCellsCommute(g: seq<seq<Glyph>>, r: Rect, s: Rect)
    ensures ClearCells(ClearCells(g, r), s) == ClearCells(ClearCells(g, s), r)
  {
    var a, b := ClearCells(ClearCells(g, r), s), ClearCells(ClearCells(g, s), r);
    forall y | 0 <= y < |g| ensures a[y] == b[y] {
      assert |a[y]| == |b[y]|;
    }
  }

  /** Two clears give the same state in either order. */
  lemma ClearRegionCommute(t: TermState, x1: int, y1: int, x2: int, y2: int, x3: int, y3: int, x4: int, y4: int)
    requires t.Valid()
    ensures ClearRegion(ClearRegion(t, x1, y1, x2, y2), x3, y3, x4, y4)
         == ClearRegion(ClearRegion(t, x3, y3, x4, y4), x1, y1, x2, y2)
  {
    ClearCellsCommute(t.line, Region(t.row, t.col, x1, y1, x2, y2), Region(t.row, t.col, x3, y3, x4, y4));
  }

  // ---------------------------------------------------------------- reset

  /** The scroll region becomes the full screen and the mode becomes wrap;
      grid geometry, alternate screen, cursor and escape state are kept. */
  lemma ResetScrollAndMode(t: TermState)
    requires t.Valid()
    ensures var u := Reset(t);
      u.top == 0 && u.bot == t.row - 1 && u.mode == MODE_WRAP &&
      u.row == t.row && u.col == t.col && u.alt == t.alt && u.c == t.c && u.esc == t.esc
  {
  }

  /** Column `i * TABSPACES` is a tab stop for every `1 <= i < col / TABSPACES`. */
  lemma ResetTabAt(t: TermState, i: int)
    requires t.Valid() && 1 <= i < t.col / TABSPACES
    ensures 0 < i * TABSPACES < t.col && Reset(t).tabs[i * TABSPACES]
  {
    assert TabStop(i * TABSPACES, t.col);
  }

  /** Every other column keeps its old flag: reset sets stops but clears none. */
  lemma ResetTabsElsewhere(t: TermState, k: int)
    requires t.Valid() && 0 <= k < t.col
    requires k % TABSPACES != 0 || k < TABSPACES || k >= TABSPACES * (t.col / TABSPACES)
    ensures Reset(t).tabs[k] == t.tabs[k]
  {
    assert !TabStop(k, t.col);
  }

  /** Reset blanks exactly the top-left `min(row, col)` square, because the
      column bound is passed where a row bound is expected and vice versa. */
  lemma ResetCell(t: TermState, y: int, x: int)
    requires t.Valid() && 0 <= y < t.row && 0 <= x < t.col
    ensures Reset(t).line[y][x]
         == if y < Min(t.row, t.col) && x < Min(t.row, t.col) then Blank(t.line[y][x]) else t.line[y][x]
  {
  }

  /** The rows of that square are marked dirty, and no others. */
  lemma ResetDirty(t: TermState, y: int)
    requires t.Valid() && 0 <= y < t.row
    ensures Reset(t).dirty[y] == (y < Min(t.row, t.col) || t.dirty[y])
  {
  }

  lemma SetTabStopsIdempotent(tabs: seq<bool>, col: int)
    ensures SetTabStops(SetTabStops(tabs, col), col) == SetTabStops(tabs, col)
  {
  }

  /** Resetting twice is the same as resetting once. */
  lemma ResetIdempotent(t: TermState)
    requires t.Valid()
    ensures Reset(Reset(t)) == Reset(t)
  {
    var f := ResetFields(t);
    var r := Region(t.row, t.col, 0, 0, t.row - 1, t.col - 1);
    SetTabStopsIdempotent(t.tabs, t.col);
    ClearCellsIdempotent(f.line, r);
    ClearRegionIdempotent(f, 0, 0, t.row - 1, t.col - 1);
  }

  /** On the default 24 x 80 screen a set cell in column 24 or beyond
      survives reset. */
  lemma ResetKeepsRightColumns(t: TermState, y: int, x: int)
    requires t.Valid() && t.row == 24 && t.col == 80
    requires 0 <= y < 24 && 24 <= x < 80 && t.line[y][x].state == GLYPH_SET
    ensures Reset(t).line[y][x].state == GLYPH_SET
  {
    ResetCell(t, y, x);
  }

  /** With the arguments in signature order every cell is blanked and every
      row is marked dirty. */
  lemma ResetCorrectedClearsAll(t: TermState, y: int, x: int)
    requires t.Valid() && 0 <= y < t.row && 0 <= x < t.col
    ensures ResetCorrected(t).line[y][x] == Blank(t.line[y][x])
    ensures ResetCorrected(t).dirty[y]
  {
  }

  // ---------------------------------------------------------------- new, then reset

  /** `Term::new()` followed by `reset()`: the full screen is the scroll
      region, every row is dirty, every cell is the default blank cell, and
      the tab stops are exactly columns 8, 16, ..., 72. */
  lemma NewThenReset(y: int, x: int)
    requires 0 <= y < 24 && 0 <= x < 80
    ensures var u := Reset(New());
      u.top == 0 && u.bot == 23 && u.mode == MODE_WRAP &&
      u.dirty[y] && u.line[y][x] == DEFAULT_GLYPH &&
      u.tabs[x] == (x % 8 == 0 && 8 <= x <= 72)
  {
    ResetDirty(New(), y);
    ResetCell(New(), y, x);
  }

  /** On the freshly created screen every cell is already blank, so the
      swapped clear of `reset` gives the same state as the corrected one. */
  lemma NewThenResetAgrees()
    ensures Reset(New()) == ResetCorrected(New())
  {
    var f := ResetFields(New());
    var r1 := Region(24, 80, 0, 0, 23, 79);
    var r2 := Region(24, 80, 0, 0, 79, 23);
    var a, b := ClearCells(f.line, r1), ClearCells(f.line, r2);
    forall y | 0 <= y < 24 ensures a[y] == b[y] {
      assert |a[y]| == |b[y]| == 80;
      forall x | 0 <= x < 80 ensures a[y][x] == b[y][x] {
        assert f.line[y][x] == DEFAULT_GLYPH;
      }
    }
    assert a == b;
    assert MarkRows(f.dirty, r1) == MarkRows(f.dirty, r2);
  }
}
