# st-rs terminal screen model in Dafny

This project models the screen part of st-rs, an early Rust port of the st
terminal emulator. A `Term` holds a `row` x `col` grid of `Glyph` cells
(primary and alternate screen), a dirty flag per row, a tab-stop flag per
column, the scroll region `top`/`bot`, mode bits, the cursor and the escape
state. The model covers the clamping helper `limit`, `Term::new`,
`Term::clear_region`, `Term::reset` and the 256-colour table built by
`init_colormap`.

Files (one module each):

- `glyphs.dfy` (`Glyphs`): the `Glyph` and `TCursor` records and the constants the operations use (`TABSPACES`, `MODE_WRAP`, `DEFAULTFG`, ...).
- `limits.dfy` (`Limits`): `limit`.
- `regions.dfy` (`Regions`): the rectangle `clear_region` works on, with its corners normalised and clamped.
- `term_model.dfy` (`TermModel`): the terminal state as a value, and `New`, `ClearRegion` and `Reset` as functions on it, with the lemmas about them.
- `term.dfy` (`Terminal`): the `Term` class with the `array2` grids and the `array<bool>` flag vectors. Its constructor and its `ClearRegion` and `Reset` methods update the object in place. Each method is proved to leave `State()` equal to the matching `TermModel` function applied to the old state.
- `colormap.dfy` (`Colormap`): `init_colormap` as a method over an array of colours, proved against `PaletteEntry`, a definition that reads the colour off the entry's index.

Where this repository's code differs from current versions of the st
terminal it ports, the model follows the code. Current st's `tclearregion`
resets each cleared cell to the cursor's background attribute. This code only
resets each cell's `state` to 0, so the model does only that. Current st's
`treset` clears every tab flag before it sets the default stops. This code sets
the stops but never clears the other flags, and the model keeps that.

Integers are unbounded. The geometry arithmetic (`row - 1`, `i * 8`) stays far
below any machine-width limit. The colour levels do not. The largest cube level
is 0xFFFF, exactly the 16-bit maximum. The largest grey level is 0xEEEE. Every
nonzero level would overflow an 8-bit channel, and the 16 fixed `COLORMAP`
entries in the same file use components 0..255, which suggests 8-bit channels.
The model assumes 16-bit components: it keeps the computed levels and proves
that they fit in 16 bits. Under that reading, the source's comment that these
are the same colours as xterm holds. `Colormap.PaletteIsXterm` proves that each
entry 16..255 is xterm's 8-bit colour widened to 16 bits, each component
multiplied by 0x101.

## Model

| member | source | states |
|---|---|---|
| `Limits.Limit` | src/main.rs:256-266 | With `a <= b` the result lies in `[a, b]`. A value already in `[a, b]` is returned unchanged. A value that is moved goes to the nearer bound: down only to `b`, up only to `a`. |
| `Limits.LimitIdempotent` | src/main.rs:256-266 | Clamping a clamped value again changes nothing. |
| `Limits.LimitMonotone` | src/main.rs:256-266 | Clamping preserves `<=`, so corners that are in order before clamping are in order after it. |
| `Regions.Region` | src/main.rs:297-308 | The swapped and clamped corners lie inside the grid and are ordered. The row bounds are `limit(min(y1,y2), 0, row-1)` and `limit(max(y1,y2), 0, row-1)`, and the column bounds are the same over `col`. |
| `Regions.RegionSymmetric` | src/main.rs:298-303 | The region is the same whichever corner comes first, and also when only the x coordinates are swapped. |
| `Regions.RegionExact` | src/main.rs:298-308 | When the rectangle meets the grid, a grid cell is covered exactly when it lies inside the unclamped rectangle (both directions). |
| `Regions.RegionOutsideRows` | src/main.rs:305-308 | A rectangle entirely above the grid collapses onto row 0, and one entirely below it collapses onto the last row. |
| `TermModel.ClearRegion` | src/main.rs:297-317 | Clearing keeps the state well formed: grid dimensions and vector lengths are kept. |
| `TermModel.ClearRegionDirty` | src/main.rs:298-311 | For any integer arguments, every row between the clamped, normalised row bounds is dirty afterwards. Every other row keeps its flag. |
| `TermModel.ClearRegionCell` | src/main.rs:305-315 | Each cell in the clamped, normalised rectangle gets `state == 0` and keeps `c`, `mode`, `fg` and `bg`. Each cell outside it is unchanged. |
| `TermModel.ClearRegionFrame` | src/main.rs:297-317 | Geometry, alternate screen, cursor, `top`, `bot`, `mode`, `esc` and `tabs` are unchanged. |
| `TermModel.ClearRegionSymmetric` | src/main.rs:298-303 | `clear_region(x1,y1,x2,y2)` gives the same state as `clear_region(x2,y2,x1,y1)` and as `clear_region(x2,y1,x1,y2)`. |
| `TermModel.ClearRegionIdempotent` | src/main.rs:297-317 | Clearing the same region twice gives the same state as clearing it once. |
| `TermModel.ClearRegionCommute` | src/main.rs:297-317 | Two clears give the same state in either order. |
| `TermModel.ResetFields` | src/main.rs:285-291 | The field updates of reset keep the state well formed. |
| `TermModel.Reset` | src/main.rs:270-295 | Reset as written keeps the state well formed. |
| `TermModel.ResetCorrected` | src/main.rs:293-297 | Reset with the clear's arguments in signature order keeps the state well formed. |
| `TermModel.New` | src/main.rs:321-339 | The initial state is well formed with the default geometry of 24 rows and 80 columns. |
| `TermModel.ResetScrollAndMode` | src/main.rs:278-293 | After reset, `top == 0`, `bot == row-1` and `mode == MODE_WRAP`. Geometry, alternate screen, escape state and the cursor are unchanged: the cursor reset builds is never stored. |
| `TermModel.ResetTabAt` | src/main.rs:285-287 | For every `1 <= i < col/8`, column `i*8` is inside the tab vector and is a stop after reset. |
| `TermModel.ResetTabsElsewhere` | src/main.rs:285-287 | Every column that is not such a multiple of 8 keeps its old flag. |
| `TermModel.ResetCell` | src/main.rs:293 | Reset blanks exactly the cells of the top-left `min(row,col)` square, because of the swapped clear arguments. Every other cell is unchanged. |
| `TermModel.ResetDirty` | src/main.rs:293 | After reset, a row is dirty exactly when it lies in that square or was dirty before. |
| `TermModel.ResetIdempotent` | src/main.rs:270-295 | Resetting twice gives the same state as resetting once. |
| `TermModel.ResetKeepsRightColumns` | src/main.rs:293 | On a 24 x 80 screen, a set cell in any column from 24 to 79 is still set after reset. |
| `TermModel.ResetCorrectedClearsAll` | src/main.rs:293-297 | With the corrected argument order, every cell is blanked and every row is dirty. |
| `TermModel.NewThenReset` | src/main.rs:321-339 | `new` followed by `reset` gives: the full screen as the scroll region, wrap mode, every row dirty, every cell the default blank cell, and tab stops at exactly columns 8, 16, ..., 72. |
| `TermModel.NewThenResetAgrees` | src/main.rs:321-339 | On the freshly created screen, reset as written and corrected reset give the same state. |
| `Terminal.Term.constructor` | src/main.rs:321-339 | The object is valid, its buffers are fresh, and its state equals `TermModel.New()`. |
| `Terminal.Term.ClearRegion` | src/main.rs:297-317 | The nested loops update only `line` and `dirty`, in place, and leave the state equal to `TermModel.ClearRegion` of the old state. |
| `Terminal.Term.Reset` | src/main.rs:270-295 | The tab loop, the field assignments and the clear write into the existing buffers: `line`, `alt`, `dirty` and `tabs` are the same arrays afterwards. They leave the state equal to `TermModel.Reset` of the old state. |
| `Colormap.CubeLevel` | src/main.rs:463-465 | A cube component is 0 exactly when its channel index is 0. For indices 0..5 it lies in `[0, 0xFFFF]`. |
| `Colormap.GreyLevel` | src/main.rs:473 | For steps 0..23 a grey level lies in `[0x0808, 0xEEEE]`. |
| `Colormap.CubeEntry` | src/main.rs:455-467 | Cube entry `(r,g,b)` is written at index `16 + 36r + 6g + b`, which lies in 16..231, and holds the three channel levels. |
| `Colormap.CubeIndexInjective` | src/main.rs:457-467 | No two channel triples write the same entry. |
| `Colormap.GreyEntry` | src/main.rs:472-476 | Grey step `r` is written at entry `232 + r`, which lies in 232..255, as three equal components. |
| `Colormap.PaletteBounds` | src/main.rs:463-474 | Every component of entries 16..255 lies in `[0, 0xFFFF]`. The maximum cube level is `0xFFFF` and the maximum grey level is `0xEEEE`. |
| `Colormap.CubeLevelIncreasing` | src/main.rs:463-465 | Cube levels strictly increase with the channel index. |
| `Colormap.GreyLevelIncreasing` | src/main.rs:473 | Grey levels strictly increase with the step. |
| `Colormap.SameAsXterm` | src/main.rs:456-474 | Each cube level is 0x101 times xterm's 8-bit level (0, 0x5f, 0x87, 0xaf, 0xd7, 0xff). Each grey level is 0x101 times xterm's grey `8 + 10r`. |
| `Colormap.PaletteIsXterm` | src/main.rs:456-476 | Every entry 16..255 equals xterm's 256-colour entry of the same index, with each component widened from 8 to 16 bits. The xterm entry is defined independently by `XtermEntry`. |
| `Colormap.InitColormap` | src/main.rs:451-477 | On a table of at least 256 entries, every write is in bounds. Entry `i` becomes `PaletteEntry(i)` for 16 <= i < 256. Every other entry, including 0..15, is unchanged. |

## Findings

| source | as written | input that shows it | evidently intended | confidence | as-written member | corrected member |
|---|---|---|---|---|---|---|
| src/main.rs:293 | `reset` calls `clear_region(0, 0, self.row-1, self.col-1)`, but the signature is `(x1, y1, x2, y2)`, with columns first | a 24 x 80 terminal whose cell at row 0, column 30 is set: after reset that cell is still set, because only the 24 x 24 top-left square is cleared | `clear_region(0, 0, self.col-1, self.row-1)`, which blanks the whole screen | high; not executed | `TermModel.ResetKeepsRightColumns` | `TermModel.ResetCorrectedClearsAll` |

`Terminal.Term.Reset` and `TermModel.Reset` keep the behaviour as written, so
the model stays faithful to the code. `TermModel.NewThenResetAgrees` shows
that the two versions agree on the only path the program takes (`new` then
`reset` in `main`), because every cell of a new screen is already blank.

## Left out

- `tty_new` (pseudo-terminal creation, fork/exec, descriptor duplication, `select` and the read loop) is operating-system process and I/O plumbing. This includes its swapped `Winsize` rows and columns.
- `sdl_new`, `init_drawing_context`, the `DC` and `Window` structs and the 16-entry `COLORMAP` are left out. They are calls into the SDL and TTF libraries, which are not part of this repository. `init_colormap` gets its colour vector as an array parameter instead of through `dc`, and entries 0..15 are left as they are, as in the source.
- The escape-sequence structures (`EscapeState`, `CSIEscape`, `STREscape`) are declarations only. There is no parsing code to model.
- The commented-out key table, `main` and the undefined `run()` are left out. The `new`-then-`reset` sequence of `main` is stated by `TermModel.NewThenReset`.
- `Term::new` creates its vectors with capacity but length 0. On `main`'s path the first out-of-range write is then `self.tabs[i*TABSPACES] = 1` in `reset`, before any clear. The model gives `line` and `alt` `row` x `col` default cells, `dirty` `row` flags and `tabs` `col` flags, their intended lengths.
- `reset` takes `&self` yet assigns fields, and its tab loop bound names an unqualified `col`. Both `reset` (`self.tabs[..] = 1`) and `clear_region` (`self.dirty[y] = 1`) store the integer `1` into boolean vectors. The model reads these as a mutable receiver, `self.col` and `true`.
- `Colormap.InitColormap`: the component width of `sdl::Color` is fixed by the SDL library, which is not part of this repository. The model assumes 16-bit components. It keeps the computed integer levels without truncation and proves that they fit in 16 bits. It does not model the truncation that 8-bit channels would apply.
- `Glyphs.Glyph`: the type does not enforce the `UTF_SIZ` (4-byte) length of `c`. The default cell has `UTF_SIZ` zero bytes, and nothing in the model changes `c`.
