/** The 64x32 monochrome framebuffer with its redraw flag, and the built-in
    hexadecimal font (src/video.rs). Rendering to a window is not modelled;
    only the state the renderer reads and resets is. */
module Video {
  import opened Bytes

  const WIDTH: nat := 64
  const HEIGHT: nat := 32

  /** Bytes per font glyph. */
  const GLYPH_LENGTH: nat := 5

  /** Sixteen 5-byte glyphs for the digits 0 to F, one row per byte, the
      leftmost pixel in the most significant bit. */
  const FONT_SET: seq<Byte> := [
    0xF0, 0x90, 0x90, 0x90, 0xF0, // 0
    0x20, 0x60, 0x20, 0x20, 0x70, // 1
    0xF0, 0x10, 0xF0, 0x80, 0xF0, // 2
    0xF0, 0x10, 0xF0, 0x10, 0xF0, // 3
    0x90, 0x90, 0xF0, 0x10, 0x10, // 4
    0xF0, 0x80, 0xF0, 0x10, 0xF0, // 5
    0xF0, 0x80, 0xF0, 0x90, 0xF0, // 6
    0xF0, 0x10, 0x20, 0x40, 0x40, // 7
    0xF0, 0x90, 0xF0, 0x90, 0xF0, // 8
    0xF0, 0x90, 0xF0, 0x10, 0xF0, // 9
    0xF0, 0x90, 0xF0, 0x90, 0x90, // A
    0xE0, 0x90, 0xE0, 0x90, 0xE0, // B
    0xF0, 0x80, 0x80, 0x80, 0xF0, // C
    0xE0, 0x90, 0x90, 0x90, 0xE0, // D
    0xF0, 0x80, 0xF0, 0x80, 0xF0, // E
    0xF0, 0x80, 0xF0, 0x80, 0x80  // F
  ]

  /** The glyph of hexadecimal digit `d`; the font holds exactly the
      sixteen glyphs. */
  function Glyph(d: Nibble): (g: seq<Byte>)
    ensures |FONT_SET| == 16 * GLYPH_LENGTH
    ensures |g| == GLYPH_LENGTH
    ensures GLYPH_LENGTH * d + GLYPH_LENGTH <= |FONT_SET|
    ensures forall k :: 0 <= k < GLYPH_LENGTH ==> g[k] == FONT_SET[GLYPH_LENGTH * d + k]
  {
    FONT_SET[GLYPH_LENGTH * d .. GLYPH_LENGTH * d + GLYPH_LENGTH]
  }

  type Row = r: seq<bool> | |r| == WIDTH witness seq(64, _ => false)

  /** Pixel rows, top row first; `cells[y][x]` is the pixel in column `x` of row `y`. */
  type Grid = g: seq<Row> | |g| == HEIGHT witness seq(32, _ => seq(64, _ => false))

  /** `update` tells the renderer that the grid may have changed since it last drew. */
  datatype Display = Display(cells: Grid, update: bool)

  /** True when every pixel of `g` is off. */
  predicate Dark(g: Grid) {
    forall y, x :: 0 <= y < HEIGHT && 0 <= x < WIDTH ==> !g[y][x]
  }

  function BlankGrid(): (g: Grid)
    ensures Dark(g)
  {
    seq(HEIGHT, _ => seq(WIDTH, _ => false))
  }

  /** Two grids are equal exactly when they agree on every pixel. */
  lemma GridsEqual(a: Grid, b: Grid)
    requires forall y, x :: 0 <= y < HEIGHT && 0 <= x < WIDTH ==> a[y][x] == b[y][x]
    ensures a == b
  {
    forall y | 0 <= y < HEIGHT
      ensures a[y] == b[y]
    {
      assert forall x :: 0 <= x < WIDTH ==> a[y][x] == b[y][x];
    }
  }

  /** The display of a freshly started machine. */
  function New(): (d: Display)
    ensures Dark(d.cells)
    ensures !d.update
  {
    Display(BlankGrid(), false)
  }

  /** XORs `fill` into the pixel at (`x`, `y`), both wrapped into the grid,
      marks the display for redrawing and reports whether a lit pixel was
      switched off. */
  function Set(d: Display, x: nat, y: nat, fill: bool): (r: (Display, bool))
    ensures var cx, cy := x % WIDTH, y % HEIGHT;
      && r.0.cells[cy][cx] == (d.cells[cy][cx] != fill)
      && r.1 == (fill && d.cells[cy][cx])
      && forall y', x' :: 0 <= y' < HEIGHT && 0 <= x' < WIDTH && (y' != cy || x' != cx) ==>
           r.0.cells[y'][x'] == d.cells[y'][x']
    ensures !fill ==> r.0.cells == d.cells
    ensures r.0.update
  {
    var cx := x % WIDTH;
    var cy := y % HEIGHT;
    var collision := fill && d.cells[cy][cx];
    var row := d.cells[cy][cx := d.cells[cy][cx] != fill];
    assert !fill ==> row == d.cells[cy];
    (Display(d.cells[cy := row], true), collision)
  }

  /** Switches every pixel off and marks the display for redrawing. */
  function Clear(d: Display): (r: Display)
    ensures Dark(r.cells)
    ensures r.update
  {
    Display(BlankGrid(), true)
  }

  /** The state half of drawing the display: the renderer repaints only
      when `update` is set, reports whether it did, and resets the flag. */
  function Present(d: Display): (r: (bool, Display))
    ensures r.0 == d.update
    ensures !r.1.update && r.1.cells == d.cells
  {
    if !d.update then (false, d) else (true, d.(update := false))
  }

  /** Setting the same pixel twice restores the grid; the second call
      collides exactly when the pixel was dark before the first. */
  lemma SetTwice(d: Display, x: nat, y: nat, fill: bool)
    ensures var (d1, _) := Set(d, x, y, fill);
      var (d2, c2) := Set(d1, x, y, fill);
      d2.cells == d.cells && c2 == (fill && !d.cells[y % HEIGHT][x % WIDTH])
  {
    var (d1, _) := Set(d, x, y, fill);
    var (d2, _) := Set(d1, x, y, fill);
    GridsEqual(d2.cells, d.cells);
  }

  /** Clearing is idempotent. */
  lemma ClearTwice(d: Display)
    ensures Clear(Clear(d)) == Clear(d)
  {
  }

  /** After a clear the renderer repaints once, and then not again until
      the next change. */
  lemma ClearPresentsOnce(d: Display)
    ensures var (first, d1) := Present(Clear(d));
      var (second, _) := Present(d1);
      first && !second
  {
  }
}
