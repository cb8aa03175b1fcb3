/** Cell and cursor records of the screen model, with the constants the
    screen operations use (src/main.rs:23-53, 93-121, 153, 162-175). */
module Glyphs {

  /** An unsigned 8-bit value (Rust `u8`). */
  type Byte = x: int | 0 <= x < 0x100

  /** An unsigned 16-bit value (Rust `u16`). */
  type U16 = x: int | 0 <= x < 0x1_0000

  /** Width of the UTF-8 buffer of a cell. */
  const UTF_SIZ: nat := 4

  /** Distance between two default tab stops. */
  const TABSPACES: nat := 8

  const DEFAULTFG: U16 := 7
  const DEFAULTBG: U16 := 0

  /** `GlyphAttribute::ATTR_NULL`: no attribute bit set. */
  const ATTR_NULL: nat := 0

  /** `GlyphState::GLYPH_SET`: the cell holds a character; a state of 0 is a blank cell. */
  const GLYPH_SET: Byte := 1

  /** `CursorState::CURSOR_DEFAULT`. */
  const CURSOR_DEFAULT: int := 0

  /** `TermMode::MODE_WRAP`, the only mode bit the screen operations set. */
  const MODE_WRAP: int := 1

  /** One character cell: UTF-8 bytes, attribute mask, colours and its state bits. */
  datatype Glyph = Glyph(c: seq<Byte>, mode: nat, fg: U16, bg: U16, state: Byte)

  /** The cursor: pending attribute, position and state bits. */
  datatype TCursor = TCursor(attr: Glyph, x: int, y: int, state: int)

  /** The all-zero cell that `Default::default()` yields. */
  const DEFAULT_GLYPH: Glyph := Glyph(seq(UTF_SIZ, _ => 0), 0, 0, 0, 0)

  /** The all-zero cursor that `Default::default()` yields. */
  const DEFAULT_CURSOR: TCursor := TCursor(DEFAULT_GLYPH, 0, 0, 0)

  /** The cell as clear_region leaves it: only the state is reset. */
  function Blank(g: Glyph): Glyph {
    g.(state := 0)
  }
}
