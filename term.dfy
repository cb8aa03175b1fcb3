/** The `Term` struct and the methods that update it in place:
    `new`, `clear_region` and `reset` (src/main.rs:194-206, 268-339). */
module Terminal {
  import opened Glyphs
  import opened Limits
  import opened Regions
  import TermModel

  /** The rows of `a` as a value. */
  ghost function Grid(a: array2<Glyph>): seq<seq<Glyph>>
    reads a
  {
    seq(a.Length0, y requires 0 <= y < a.Length0 reads a =>
      seq(a.Length1, x requires 0 <= x < a.Length1 reads a => a[y, x]))
  }

  /** `Grid(a)` is the one value with `a`'s dimensions and cells. */
  lemma GridEquals(a: array2<Glyph>, g: seq<seq<Glyph>>)
    requires |g| == a.Length0
    requires forall y :: 0 <= y < |g| ==> |g[y]| == a.Length1
    requires forall y, x :: 0 <= y < a.Length0 && 0 <= x < a.Length1 ==> g[y][x] == a[y, x]
    ensures Grid(a) == g
  {
    forall y | 0 <= y < |g| ensures Grid(a)[y] == g[y] {
      assert |Grid(a)[y]| == |g[y]|;
    }
  }

  class Term {
    var row: int
    var col: int
    /** Primary screen, `row` x `col`. */
    var line: array2<Glyph>
    /** Alternate screen, `row` x `col`. */
    var alt: array2<Glyph>
    /** One flag per row. */
    var dirty: array<bool>
    var c: TCursor
    var top: int
    var bot: int
    var mode: int
    var esc: int
    /** One flag per column. */
    var tabs: array<bool>

    /** Geometry agrees with the buffers, and distinct buffers do not alias. */
    ghost predicate Valid()
      reads this
    {
      row >= 1 && col >= 1 &&
      line.Length0 == row && line.Length1 == col &&
      alt.Length0 == row && alt.Length1 == col &&
      dirty.Length == row && tabs.Length == col &&
      line != alt && dirty != tabs
    }

    /** The abstract value of the object. */
    ghost function State(): (s: TermModel.TermState)
      reads this, line, alt, dirty, tabs
      requires Valid()
      ensures s.Valid()
    {
      TermModel.TermState(row, col, Grid(line), Grid(alt), dirty[..], c, top, bot, mode, esc, tabs[..])
    }

    /** `Term::new()`: 24 rows of 80 default cells, no dirty row, no tab stop. */
    constructor ()
      ensures Valid() && State() == TermModel.New()
      ensures fresh(line) && fresh(alt) && fresh(dirty) && fresh(tabs)
    {
      row, col := 24, 80;
      line := new Glyph[24, 80]((y, x) => DEFAULT_GLYPH);
      alt := new Glyph[24, 80]((y, x) => DEFAULT_GLYPH);
      dirty := new bool[24](y => false);
      tabs := new bool[80](x => false);
      c := DEFAULT_CURSOR;
      top, bot, mode, esc := 0, 0, 0, 0;
      new;
      GridEquals(line, seq(24, _ => seq(80, _ => DEFAULT_GLYPH)));
      GridEquals(alt, seq(24, _ => seq(80, _ => DEFAULT_GLYPH)));
      assert dirty[..] == seq(24, _ => false);
      assert tabs[..] == seq(80, _ => false);
    }

    /** `clear_region(x1, y1, x2, y2)`: `x` are columns, `y` are rows. */
    method ClearRegion(x1: int, y1: int, x2: int, y2: int)
      requires Valid()
      modifies line, dirty
      ensures Valid()
      ensures State() == TermModel.ClearRegion(old(State()), x1, y1, x2, y2)
    {
      var a1, b1, a2, b2 := x1, y1, x2, y2;
      if a1 > a2 {
        a1, a2 := a2, a1;
      }
      if b1 > b2 {
        b1, b2 := b2, b1;
      }
      a1 := Limit(a1, 0, col - 1);
      a2 := Limit(a2, 0, col - 1);
      b1 := Limit(b1, 0, row - 1);
      b2 := Limit(b2, 0, row - 1);
      ghost var r := Region(row, col, x1, y1, x2, y2);
      assert r == Rect(a1, b1, a2, b2);

      var y := b1;
      while y <= b2
        invariant b1 <= y <= b2 + 1
        invariant forall j, i :: 0 <= j < row && 0 <= i < col ==>
          line[j, i] == if b1 <= j < y && a1 <= i <= a2 then Blank(old(line[j, i])) else old(line[j, i])
        invariant forall j :: 0 <= j < row ==> dirty[j] == (b1 <= j < y || old(dirty[j]))
      {
        dirty[y] := true;
        var x := a1;
        while x <= a2
          invariant a1 <= x <= a2 + 1
          invariant forall j, i :: 0 <= j < row && 0 <= i < col ==>
            line[j, i] == if (b1 <= j < y && a1 <= i <= a2) || (j == y && a1 <= i < x)
                          then Blank(old(line[j, i])) else old(line[j, i])
          invariant forall j :: 0 <= j < row ==> dirty[j] == (b1 <= j <= y || old(dirty[j]))
        {
          line[y, x] := line[y, x].(state := 0);
          x := x + 1;
        }
        y := y + 1;
      }
      ghost var g0 := old(Grid(line));
      GridEquals(line, TermModel.ClearCells(g0, r));
      assert dirty[..] == TermModel.MarkRows(old(dirty[..]), r);
    }

    /** `reset()`: default tab stops, full-screen scroll region, wrap mode,
        then the clear as the source calls it (row and column bounds swapped). */
    method Reset()
      requires Valid()
      modifies this, line, dirty, tabs
      ensures Valid()
      ensures line == old(line) && alt == old(alt) && dirty == old(dirty) && tabs == old(tabs)
      ensures State() == TermModel.Reset(old(State()))
    {
      var glyph := Glyph(DEFAULT_GLYPH.c, ATTR_NULL, DEFAULTFG, DEFAULTBG, 0);
      // The source builds this cursor and drops it; `c` is left as it was.
      var cursor := TCursor(glyph, 0, 0, CURSOR_DEFAULT);

      var i := 1;
      while i < col / TABSPACES
        modifies tabs
        invariant 1 <= i && (col / TABSPACES >= 1 ==> i <= col / TABSPACES)
        invariant forall k :: 0 <= k < col ==>
          tabs[k] == ((k % TABSPACES == 0 && 1 <= k / TABSPACES < i) || old(tabs[k]))
      {
        tabs[i * TABSPACES] := true;
        i := i + 1;
      }
      assert tabs[..] == TermModel.SetTabStops(old(tabs[..]), col);

      top := 0;
      bot := row - 1;
      mode := MODE_WRAP;
      assert State() == TermModel.ResetFields(old(State()));

      ClearRegion(0, 0, row - 1, col - 1);
    }
  }
}
