/** The colour table built by `init_colormap` for entries 16..255: a
    6 x 6 x 6 colour cube and a 24-step grey ramp (src/main.rs:451-477). */
module Colormap {

  /** A colour with unbounded components; the model proves they fit in 16 bits. */
  datatype Rgb = Rgb(r: int, g: int, b: int)

  /** Component value of cube channel index `k`. */
  function CubeLevel(k: int): (v: int)
    ensures (v == 0) <==> (k == 0)
    ensures 0 <= k <= 5 ==> 0 <= v <= 0xFFFF
  {
    if k == 0 then 0 else 0x3737 + 0x2828 * k
  }

  /** Component value of grey step `r`. */
  function GreyLevel(r: int): (v: int)
    ensures 0 <= r < 24 ==> 0x0808 <= v <= 0xEEEE
  {
    0x0808 + 0x0a0a * r
  }

  /** Where the loops write cube entry `(r, g, b)`. */
  function CubeIndex(r: int, g: int, b: int): int {
    16 + 36 * r + 6 * g + b
  }

  /** Entry `i` of the table, read off the index: `i - 16` in base 6 for the
      cube, `i - 232` for the grey ramp. */
  function PaletteEntry(i: int): Rgb
    requires 16 <= i < 256
  {
    if i < 232 then
      var k := i - 16;
      Rgb(CubeLevel(k / 36), CubeLevel(k / 6 % 6), CubeLevel(k % 6))
    else
      var v := GreyLevel(i - 232);
      Rgb(v, v, v)
  }

  /** Cube entry `(r, g, b)` lands in 16..231 and holds the three channel levels. */
  lemma CubeEntry(r: int, g: int, b: int)
    requires 0 <= r < 6 && 0 <= g < 6 && 0 <= b < 6
    ensures 16 <= CubeIndex(r, g, b) < 232
    ensures PaletteEntry(CubeIndex(r, g, b)) == Rgb(CubeLevel(r), CubeLevel(g), CubeLevel(b))
  {
    var k := 36 * r + 6 * g + b;
    assert k / 36 == r;
    assert k / 6 == 6 * r + g;
    assert k / 6 % 6 == g;
    assert k % 6 == b;
  }

  /** Distinct channel triples are written to distinct entries. */
  lemma CubeIndexInjective(r: int, g: int, b: int, r': int, g': int, b': int)
    requires 0 <= r < 6 && 0 <= g < 6 && 0 <= b < 6
    requires 0 <= r' < 6 && 0 <= g' < 6 && 0 <= b' < 6
    requires CubeIndex(r, g, b) == CubeIndex(r', g', b')
    ensures r == r' && g == g' && b == b'
  {
    CubeEntry(r, g, b);
    CubeEntry(r', g', b');
    var k := 36 * r + 6 * g + b;
    assert k / 36 == r && k / 36 == r';
    assert k / 6 % 6 == g && k / 6 % 6 == g';
  }

  /** Grey step `r` lands in 232..255 with three equal components. */
  lemma GreyEntry(r: int)
    requires 0 <= r < 24
    ensures 232 <= 232 + r < 256
    ensures PaletteEntry(232 + r) == Rgb(GreyLevel(r), GreyLevel(r), GreyLevel(r))
  {
  }

  /** Every component of every entry fits in 16 bits; the largest cube level
      is 0xFFFF and the largest grey level is 0xEEEE. */
  lemma PaletteBounds(i: int)
    requires 16 <= i < 256
    ensures var e := PaletteEntry(i);
      0 <= e.r <= 0xFFFF && 0 <= e.g <= 0xFFFF && 0 <= e.b <= 0xFFFF
    ensures CubeLevel(5) == 0xFFFF && GreyLevel(23) == 0xEEEE
  {
  }

  /** A non-zero cube channel index gives a strictly larger level. */
  lemma CubeLevelIncreasing(j: int, k: int)
    requires 0 <= j < k
    ensures CubeLevel(j) < CubeLevel(k)
  {
  }

  /** The grey ramp strictly increases. */
  lemma GreyLevelIncreasing(j: int, k: int)
    requires j < k
    ensures GreyLevel(j) < GreyLevel(k)
  {
  }

  /** xterm's 8-bit level for cube channel index `k` (0, then 55 + 40k). */
  function XtermLevel(k: int): int
    requires 0 <= k < 6
  {
    [0x00, 0x5f, 0x87, 0xaf, 0xd7, 0xff][k]
  }

  /** xterm's 8-bit colour for entry `i`: the 6 x 6 x 6 cube, then the grey
      ramp `8 + 10 * r`. */
  function XtermEntry(i: int): Rgb
    requires 16 <= i < 256
  {
    if i < 232 then
      var k := i - 16;
      Rgb(XtermLevel(k / 36), XtermLevel(k / 6 % 6), XtermLevel(k % 6))
    else
      var v := 8 + 10 * (i - 232);
      Rgb(v, v, v)
  }

  /** Each level is xterm's 8-bit level widened to 16 bits (times 0x101). */
  lemma SameAsXterm(k: int, r: int)
    requires 0 <= k < 6 && 0 <= r < 24
    ensures CubeLevel(k) == 0x101 * XtermLevel(k)
    ensures GreyLevel(r) == 0x101 * (8 + 10 * r)
  {
  }

  /** "Same colors as xterm": every entry 16..255 is xterm's colour with each
      component widened from 8 to 16 bits. */
  lemma PaletteIsXterm(i: int)
    requires 16 <= i < 256
    ensures var e, x := PaletteEntry(i), XtermEntry(i);
      e.r == 0x101 * x.r && e.g == 0x101 * x.g && e.b == 0x101 * x.b
  {
    if i < 232 {
      var k := i - 16;
      SameAsXterm(k / 36, 0);
      SameAsXterm(k / 6 % 6, 0);
      SameAsXterm(k % 6, 0);
    } else {
      SameAsXterm(0, i - 232);
    }
  }

  /** `init_colormap`: writes entries 16..255 and leaves every other entry;
      the counter `i` advances through the cube and then the ramp. */
  method InitColormap(colors: array<Rgb>)
    requires colors.Length >= 256
    modifies colors
    ensures forall j :: 16 <= j < 256 ==> colors[j] == PaletteEntry(j)
    ensures forall j :: 0 <= j < colors.Length && !(16 <= j < 256) ==> colors[j] == old(colors[j])
  {
    var i := 16;
    var r := 0;
    while r < 6
      invariant 0 <= r <= 6 && i == 16 + 36 * r
      invariant forall j :: 16 <= j < i ==> colors[j] == PaletteEntry(j)
      invariant forall j :: 0 <= j < colors.Length && !(16 <= j < i) ==> colors[j] == old(colors[j])
    {
      var g := 0;
      while g < 6
        invariant 0 <= g <= 6 && i == 16 + 36 * r + 6 * g
        invariant forall j :: 16 <= j < i ==> colors[j] == PaletteEntry(j)
        invariant forall j :: 0 <= j < colors.Length && !(16 <= j < i) ==> colors[j] == old(colors[j])
      {
        var b := 0;
        while b < 6
          invariant 0 <= b <= 6 && i == CubeIndex(r, g, b)
          invariant forall j :: 16 <= j < i ==> colors[j] == PaletteEntry(j)
          invariant forall j :: 0 <= j < colors.Length && !(16 <= j < i) ==> colors[j] == old(colors[j])
        {
          CubeEntry(r, g, b);
          colors[i] := Rgb(
            if r == 0 then 0 else 0x3737 + 0x2828 * r,
            if g == 0 then 0 else 0x3737 + 0x2828 * g,
            if b == 0 then 0 else 0x3737 + 0x2828 * b);
          i := i + 1;
          b := b + 1;
        }
        g := g + 1;
      }
      r := r + 1;
    }

    var s := 0;
    while s < 24
      invariant 0 <= s <= 24 && i == 232 + s
      invariant forall j :: 16 <= j < i ==> colors[j] == PaletteEntry(j)
      invariant forall j :: 0 <= j < colors.Length && !(16 <= j < i) ==> colors[j] == old(colors[j])
    {
      var v := 0x0808 + 0x0a0a * s;
      colors[i] := Rgb(v, v, v);
      i := i + 1;
      s := s + 1;
    }
  }
}
