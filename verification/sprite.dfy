/** Sprite drawing, the two nested loops of DRW (src/cpu.rs, `op_dxyn`):
    every pixel of every sprite row is XORed into the display with
    `Display::set`, and the collisions are or-ed together. Alongside the
    loops are two descriptions that do not run them: which cells the
    sprite toggles, and whether it lands a lit pixel on a lit cell. */
module Sprite {
  import opened Bytes
  import Video

  /** Whether pixel `xline` of a sprite row is lit, the leftmost pixel being
      the most significant bit. */
  predicate Pixel(pixels: Byte, xline: nat)
    requires xline < 8
  {
    Bit(pixels, 7 - xline)
  }

  /** The display column of pixel `xline` of a row drawn from column `vx`. */
  function Col(vx: nat, xline: nat): nat {
    (vx + xline) % Video.WIDTH
  }

  /** The display row of sprite row `yline` drawn from row `vy`. */
  function Row(vy: nat, yline: nat): nat {
    (vy + yline) % Video.HEIGHT
  }

  /** Whether pixels `xline` to 7 of row `pixels`, drawn from column `vx`
      on row `sy`, toggle cell (`cx`, `cy`) an odd number of times. */
  predicate RowFlips(pixels: Byte, vx: nat, sy: nat, xline: nat, cx: nat, cy: nat)
    requires xline <= 8
    decreases 8 - xline
  {
    if xline == 8 then false
    else
      (Pixel(pixels, xline) && Col(vx, xline) == cx && sy % Video.HEIGHT == cy)
        != RowFlips(pixels, vx, sy, xline + 1, cx, cy)
  }

  /** Whether rows `yline` to `n - 1` of the sprite stored at `ram[i..]`,
      drawn at (`vx`, `vy`), toggle cell (`cx`, `cy`) an odd number of times. */
  predicate Flips(ram: seq<Byte>, i: nat, n: Nibble, vx: nat, vy: nat, yline: nat, cx: nat, cy: nat)
    requires yline <= n && (n == 0 || i + n <= |ram|)
    decreases n - yline
  {
    if yline == n then false
    else RowFlips(ram[i + yline], vx, vy + yline, 0, cx, cy) != Flips(ram, i, n, vx, vy, yline + 1, cx, cy)
  }

  /** Whether one of pixels `xline` to 7 of row `pixels` is lit and lands
      on a lit cell of `cells`. */
  predicate RowCollides(cells: Video.Grid, pixels: Byte, vx: nat, sy: nat, xline: nat)
    requires xline <= 8
    decreases 8 - xline
  {
    && xline < 8
    && ((Pixel(pixels, xline) && cells[sy % Video.HEIGHT][Col(vx, xline)])
        || RowCollides(cells, pixels, vx, sy, xline + 1))
  }

  /** Whether a lit pixel of rows `yline` to `n - 1` of the sprite lands on
      a lit cell of `cells`. */
  predicate Collides(cells: Video.Grid, ram: seq<Byte>, i: nat, n: Nibble, vx: nat, vy: nat, yline: nat)
    requires yline <= n && (n == 0 || i + n <= |ram|)
    decreases n - yline
  {
    && yline < n
    && (RowCollides(cells, ram[i + yline], vx, vy + yline, 0) || Collides(cells, ram, i, n, vx, vy, yline + 1))
  }

  /** Fewer than `HEIGHT` rows apart, two sprite rows land on different
      display rows. */
  lemma RowsApart(vy: nat, a: nat, b: nat)
    requires a < b < a + Video.HEIGHT
    ensures Row(vy, a) != Row(vy, b)
  {
  }

  /** Fewer than `WIDTH` pixels apart, two pixels land on different columns. */
  lemma ColumnsApart(vx: nat, a: nat, b: nat)
    requires a < b < a + Video.WIDTH
    ensures Col(vx, a) != Col(vx, b)
  {
  }

  /** A row toggles nothing outside its own display row. */
  lemma {:induction false} RowFlipsOwnRow(pixels: Byte, vx: nat, sy: nat, xline: nat)
    requires xline <= 8
    ensures forall cx, cy :: cy != sy % Video.HEIGHT ==> !RowFlips(pixels, vx, sy, xline, cx, cy)
    decreases 8 - xline
  {
    if xline < 8 {
      RowFlipsOwnRow(pixels, vx, sy, xline + 1);
    }
  }

  /** Whether a row collides depends only on the cells it visits. */
  lemma {:induction false} RowCollidesFrame(a: Video.Grid, b: Video.Grid, pixels: Byte, vx: nat, sy: nat, xline: nat)
    requires xline <= 8
    requires forall xl :: xline <= xl < 8 ==> a[sy % Video.HEIGHT][Col(vx, xl)] == b[sy % Video.HEIGHT][Col(vx, xl)]
    ensures RowCollides(a, pixels, vx, sy, xline) == RowCollides(b, pixels, vx, sy, xline)
    decreases 8 - xline
  {
    if xline < 8 {
      RowCollidesFrame(a, b, pixels, vx, sy, xline + 1);
    }
  }

  /** Whether a sprite collides depends only on the cells it visits. */
  lemma {:induction false} CollidesFrame(a: Video.Grid, b: Video.Grid, ram: seq<Byte>, i: nat, n: Nibble, vx: nat, vy: nat, yline: nat)
    requires yline <= n && (n == 0 || i + n <= |ram|)
    requires forall yl, xl :: yline <= yl < n && 0 <= xl < 8 ==> a[Row(vy, yl)][Col(vx, xl)] == b[Row(vy, yl)][Col(vx, xl)]
    ensures Collides(a, ram, i, n, vx, vy, yline) == Collides(b, ram, i, n, vx, vy, yline)
    decreases n - yline
  {
    if yline < n {
      assert forall xl :: 0 <= xl < 8 ==> a[Row(vy, yline)][Col(vx, xl)] == b[Row(vy, yline)][Col(vx, xl)];
      RowCollidesFrame(a, b, ram[i + yline], vx, vy + yline, 0);
      CollidesFrame(a, b, ram, i, n, vx, vy, yline + 1);
    }
  }

  /** Setting one pixel of a row leaves the cells of the row's later pixels
      alone, since eight pixels never wrap onto each other. */
  lemma SetKeepsRestOfRow(d: Video.Display, pixels: Byte, vx: nat, sy: nat, xline: nat)
    requires xline < 8
    ensures RowCollides(Video.Set(d, vx + xline, sy, Pixel(pixels, xline)).0.cells, pixels, vx, sy, xline + 1)
         == RowCollides(d.cells, pixels, vx, sy, xline + 1)
  {
    var d' := Video.Set(d, vx + xline, sy, Pixel(pixels, xline)).0;
    forall xl | xline + 1 <= xl < 8
      ensures d'.cells[sy % Video.HEIGHT][Col(vx, xl)] == d.cells[sy % Video.HEIGHT][Col(vx, xl)]
    {
      ColumnsApart(vx, xline, xl);
    }
    RowCollidesFrame(d'.cells, d.cells, pixels, vx, sy, xline + 1);
  }

  /** The inner drawing loop: pixels `xline` to 7 of one sprite row, each
      XORed into the display, collisions or-ed into `vf`. */
  function DrawRow(d: Video.Display, pixels: Byte, vx: nat, sy: nat, xline: nat, vf: bool): (r: (Video.Display, bool))
    requires xline <= 8
    ensures forall cy, cx :: 0 <= cy < Video.HEIGHT && 0 <= cx < Video.WIDTH ==>
      r.0.cells[cy][cx] == (d.cells[cy][cx] != RowFlips(pixels, vx, sy, xline, cx, cy))
    ensures r.1 == (vf || RowCollides(d.cells, pixels, vx, sy, xline))
    ensures r.0.update == (d.update || xline < 8)
    decreases 8 - xline
  {
    if xline == 8 then (d, vf)
    else
      var (d', collision) := Video.Set(d, vx + xline, sy, Pixel(pixels, xline));
      SetKeepsRestOfRow(d, pixels, vx, sy, xline);
      DrawRow(d', pixels, vx, sy, xline + 1, vf || collision)
  }

  /** Drawing a row changes no cell outside its display row. */
  lemma DrawRowKeepsOtherRows(d: Video.Display, pixels: Byte, vx: nat, sy: nat, vf: bool)
    ensures forall cy, cx :: 0 <= cy < Video.HEIGHT && 0 <= cx < Video.WIDTH && cy != sy % Video.HEIGHT ==>
      DrawRow(d, pixels, vx, sy, 0, vf).0.cells[cy][cx] == d.cells[cy][cx]
  {
    RowFlipsOwnRow(pixels, vx, sy, 0);
  }

  /** Cells that agree outside display row `r0` agree on every later row
      of a sprite whose row `yline` lands on `r0`. */
  lemma LaterRowsAgree(a: Video.Grid, b: Video.Grid, ram: seq<Byte>, i: nat, n: Nibble, vx: nat, vy: nat, yline: nat)
    requires yline < n && i + n <= |ram|
    requires forall cy, cx :: 0 <= cy < Video.HEIGHT && 0 <= cx < Video.WIDTH && cy != Row(vy, yline) ==> a[cy][cx] == b[cy][cx]
    ensures Collides(a, ram, i, n, vx, vy, yline + 1) == Collides(b, ram, i, n, vx, vy, yline + 1)
  {
    forall yl, xl | yline + 1 <= yl < n && 0 <= xl < 8
      ensures a[Row(vy, yl)][Col(vx, xl)] == b[Row(vy, yl)][Col(vx, xl)]
    {
      RowsApart(vy, yline, yl);
    }
    CollidesFrame(a, b, ram, i, n, vx, vy, yline + 1);
  }

  /** The outer drawing loop: sprite rows `yline` to `n - 1`. */
  function DrawRows(d: Video.Display, ram: seq<Byte>, i: nat, n: Nibble, vx: nat, vy: nat, yline: nat, vf: bool): (r: (Video.Display, bool))
    requires yline <= n && (n == 0 || i + n <= |ram|)
    ensures forall cy, cx :: 0 <= cy < Video.HEIGHT && 0 <= cx < Video.WIDTH ==>
      r.0.cells[cy][cx] == (d.cells[cy][cx] != Flips(ram, i, n, vx, vy, yline, cx, cy))
    ensures r.1 == (vf || Collides(d.cells, ram, i, n, vx, vy, yline))
    ensures r.0.update == (d.update || yline < n)
    decreases n - yline
  {
    if yline == n then (d, vf)
    else
      var (d', vf') := DrawRow(d, ram[i + yline], vx, vy + yline, 0, vf);
      DrawRowKeepsOtherRows(d, ram[i + yline], vx, vy + yline, vf);
      LaterRowsAgree(d'.cells, d.cells, ram, i, n, vx, vy, yline);
      DrawRows(d', ram, i, n, vx, vy, yline + 1, vf')
  }

  /** A sprite drawn onto a dark display collides with nothing. */
  lemma {:induction false} DarkNeverCollides(cells: Video.Grid, ram: seq<Byte>, i: nat, n: Nibble, vx: nat, vy: nat, yline: nat)
    requires Video.Dark(cells)
    requires yline <= n && (n == 0 || i + n <= |ram|)
    ensures !Collides(cells, ram, i, n, vx, vy, yline)
    decreases n - yline
  {
    if yline < n {
      DarkRowNeverCollides(cells, ram[i + yline], vx, vy + yline, 0);
      DarkNeverCollides(cells, ram, i, n, vx, vy, yline + 1);
    }
  }

  lemma {:induction false} DarkRowNeverCollides(cells: Video.Grid, pixels: Byte, vx: nat, sy: nat, xline: nat)
    requires Video.Dark(cells)
    requires xline <= 8
    ensures !RowCollides(cells, pixels, vx, sy, xline)
    decreases 8 - xline
  {
    if xline < 8 {
      DarkRowNeverCollides(cells, pixels, vx, sy, xline + 1);
    }
  }

  // ---------------------------------------------------------------------
  // Pixel by pixel

  /** Whether pixel `xl` of sprite row `yl` is lit. */
  predicate Lit(ram: seq<Byte>, i: nat, n: Nibble, yl: nat, xl: nat)
    requires n == 0 || i + n <= |ram|
  {
    yl < n && xl < 8 && Pixel(ram[i + yl], xl)
  }

  /** A row collides exactly when one of its lit pixels lands on a lit cell. */
  lemma {:induction false} RowCollidesSome(cells: Video.Grid, pixels: Byte, vx: nat, sy: nat, xline: nat)
    requires xline <= 8
    ensures RowCollides(cells, pixels, vx, sy, xline) <==>
      exists xl :: xline <= xl < 8 && Pixel(pixels, xl) && cells[sy % Video.HEIGHT][Col(vx, xl)]
    decreases 8 - xline
  {
    if xline < 8 {
      RowCollidesSome(cells, pixels, vx, sy, xline + 1);
      if Pixel(pixels, xline) && cells[sy % Video.HEIGHT][Col(vx, xline)] {
        assert xline <= xline < 8;
      }
    }
  }

  /** Whether pixel `xl` of sprite row `yl` is lit and lands on a lit cell
      of `cells`. */
  predicate Hits(cells: Video.Grid, ram: seq<Byte>, i: nat, n: Nibble, vx: nat, vy: nat, yl: nat, xl: nat)
    requires n == 0 || i + n <= |ram|
  {
    Lit(ram, i, n, yl, xl) && cells[Row(vy, yl)][Col(vx, xl)]
  }

  /** A sprite collides exactly when one of its lit pixels lands on a lit
      cell. */
  lemma {:induction false} CollidesSome(cells: Video.Grid, ram: seq<Byte>, i: nat, n: Nibble, vx: nat, vy: nat, yline: nat)
    requires yline <= n && (n == 0 || i + n <= |ram|)
    ensures Collides(cells, ram, i, n, vx, vy, yline) <==>
      exists yl, xl :: yline <= yl && Hits(cells, ram, i, n, vx, vy, yl, xl)
    decreases n - yline
  {
    if yline < n {
      var pixels := ram[i + yline];
      RowCollidesSome(cells, pixels, vx, vy + yline, 0);
      CollidesSome(cells, ram, i, n, vx, vy, yline + 1);
      forall xl | 0 <= xl < 8
        ensures Hits(cells, ram, i, n, vx, vy, yline, xl) == (Pixel(pixels, xl) && cells[(vy + yline) % Video.HEIGHT][Col(vx, xl)])
      {
      }
    }
  }

  /** A row toggles a cell exactly when one of its lit pixels lands on it:
      eight pixels never wrap onto the same column. */
  lemma {:induction false} RowFlipsSome(pixels: Byte, vx: nat, sy: nat, xline: nat, cx: nat, cy: nat)
    requires xline <= 8
    ensures RowFlips(pixels, vx, sy, xline, cx, cy) <==>
      exists xl :: xline <= xl < 8 && Pixel(pixels, xl) && Col(vx, xl) == cx && sy % Video.HEIGHT == cy
    decreases 8 - xline
  {
    if xline < 8 {
      RowFlipsSome(pixels, vx, sy, xline + 1, cx, cy);
      if Col(vx, xline) == cx {
        forall xl | xline < xl < 8
          ensures Col(vx, xl) != cx
        {
          ColumnsApart(vx, xline, xl);
        }
      }
      if Pixel(pixels, xline) && Col(vx, xline) == cx && sy % Video.HEIGHT == cy {
        assert xline <= xline < 8;
      }
    }
  }

  /** Whether pixel `xl` of sprite row `yl` is lit and lands on cell
      (`cx`, `cy`). */
  predicate Lands(ram: seq<Byte>, i: nat, n: Nibble, vx: nat, vy: nat, yl: nat, xl: nat, cx: nat, cy: nat)
    requires n == 0 || i + n <= |ram|
  {
    Lit(ram, i, n, yl, xl) && Col(vx, xl) == cx && Row(vy, yl) == cy
  }

  /** A sprite toggles a cell exactly when one of its lit pixels lands on
      it: at most fifteen rows never wrap onto the same display row. */
  lemma {:induction false} FlipsSome(ram: seq<Byte>, i: nat, n: Nibble, vx: nat, vy: nat, yline: nat, cx: nat, cy: nat)
    requires yline <= n && (n == 0 || i + n <= |ram|)
    ensures Flips(ram, i, n, vx, vy, yline, cx, cy) <==>
      exists yl, xl :: yline <= yl && Lands(ram, i, n, vx, vy, yl, xl, cx, cy)
    decreases n - yline
  {
    if yline < n {
      var pixels := ram[i + yline];
      RowFlipsSome(pixels, vx, vy + yline, 0, cx, cy);
      FlipsSome(ram, i, n, vx, vy, yline + 1, cx, cy);
      forall xl | 0 <= xl < 8
        ensures Lands(ram, i, n, vx, vy, yline, xl, cx, cy) == (Pixel(pixels, xl) && Col(vx, xl) == cx && (vy + yline) % Video.HEIGHT == cy)
      {
      }
      if Row(vy, yline) == cy {
        forall yl, xl | yline < yl
          ensures !Lands(ram, i, n, vx, vy, yl, xl, cx, cy)
        {
          if yl < n {
            RowsApart(vy, yline, yl);
          }
        }
      }
    }
  }

  /** Every lit pixel of a sprite toggles the cell it lands on. */
  lemma LitFlips(ram: seq<Byte>, i: nat, n: Nibble, vx: nat, vy: nat, yl: nat, xl: nat)
    requires n == 0 || i + n <= |ram|
    requires Lit(ram, i, n, yl, xl)
    ensures Flips(ram, i, n, vx, vy, 0, Col(vx, xl), Row(vy, yl))
  {
    FlipsSome(ram, i, n, vx, vy, 0, Col(vx, xl), Row(vy, yl));
    assert Lands(ram, i, n, vx, vy, yl, xl, Col(vx, xl), Row(vy, yl));
  }
}
