/**
 * What `renderScanline` draws, as functions of the frame buffer before the
 * call and of a snapshot of the state it reads. The frame buffer is the
 * 160 x 144 grid of grey levels, row-major.
 *
 * Two details follow the source exactly. The per-line background buffer is
 * written at index `160 - col` (col the column inside the current tile) but
 * read at the sprite's screen x, so the priority test mostly sees whatever the
 * buffer held before the call (`stale`). And the sprite's screen x is a byte:
 * `x + col` wraps modulo 256.
 */
module Render {
  import opened Bytes
  import opened Tiles
  import opened Sprites
  import opened Registers

  const ScreenWidth: nat := 160
  const ScreenHeight: nat := 144
  const ScreenSize: nat := 160 * 144
  /** `uint8_t bgScanline[161]`. */
  const LineBufferSize: nat := 161
  /** The sprite pass visits 40 sprites x 8 columns; step j is column j % 8
      of sprite j / 8. */
  const SpriteStepCount: nat := 320

  datatype Option<T> = None | Some(value: T)

  /** The state the renderer reads. */
  datatype View = View(r: Regs, vram: seq<byte>, tiles: seq<Colour>, bgPal: seq<Colour>,
                       objPal: seq<Colour>, sprites: seq<Sprite>)

  predicate Wf(v: View)
  {
    |v.vram| == VramSize && |v.tiles| == CacheSize && |v.bgPal| == 4 && |v.objPal| == 8 &&
    |v.sprites| == SpriteCount
  }

  /** Grey level of a shade: 0 is white, 3 is black. */
  function Grey(c: Colour): int
  {
    if c == 0 then 255 else if c == 1 then 192 else if c == 2 then 96 else 0
  }

  /** `setPixelColor(x, y, c)`: coordinates off the screen are ignored. */
  function PutPixel(scr: seq<int>, x: int, y: int, c: Colour): (s: seq<int>)
    requires |scr| == ScreenSize
    ensures |s| == ScreenSize
  {
    if x >= ScreenWidth || y >= ScreenHeight || x < 0 || y < 0 then scr
    else scr[y * ScreenWidth + x := Grey(c)]
  }

  // ---- background -------------------------------------------------------------

  predicate BgEnabled(flags: byte)
  {
    Bit(flags, 0) == 1
  }

  predicate SpritesEnabled(flags: byte)
  {
    Bit(flags, 1) == 1
  }

  /** Offset in video RAM of the 32 x 32 tile map the control flags select. */
  function MapBase(flags: byte): int
  {
    if Bit(flags, 3) == 1 then 0x1C00 else 0x1800
  }

  /** Background-map row shown on the current line. */
  function MapY(r: Regs): int
  {
    (r.line + r.scy) % 256
  }

  /** Background-map column shown at screen x. */
  function MapX(r: Regs, x: int): int
  {
    (r.scx + x) % 256
  }

  /** Tile number at map position (tx, ty), moved up by 256 into the second
      tile bank when the signed bank is selected and the byte is below 128. */
  function MapTile(v: View, tx: int, ty: int): (t: int)
    requires Wf(v) && 0 <= tx < 32 && 0 <= ty < 32
    ensures 0 <= t < TileCount
  {
    var n: int := v.vram[MapBase(v.r.flags) + ty * 32 + tx];
    if Bit(v.r.flags, 4) == 0 && n < 128 then n + 256 else n
  }

  /** Colour index of the background at screen x of the current line: the
      pixel at (MapX, MapY) of the 256 x 256 background map. */
  function BgColour(v: View, x: int): Colour
    requires Wf(v)
  {
    var mx := MapX(v.r, x);
    var my := MapY(v.r);
    v.tiles[CacheIndex(MapTile(v, mx / 8, my / 8), my % 8, mx % 8)]
  }

  /** The frame buffer after the first n pixels of the background pass. */
  function BgPass(scr: seq<int>, v: View, n: nat): (s: seq<int>)
    requires Wf(v) && |scr| == ScreenSize
    ensures |s| == ScreenSize
  {
    if n == 0 then scr
    else PutPixel(BgPass(scr, v, n - 1), n - 1, v.r.line, v.bgPal[BgColour(v, n - 1)])
  }

  /** The last of the first n background pixels whose in-tile column is col,
      when the first pixel has in-tile column c0 (negative if there is none). */
  function LastColumnUse(c0: int, n: int, col: int): int
  {
    n - 1 - (c0 + n - 1 - col) % 8
  }

  /** The per-line buffer after n background pixels: pixel i stores its colour
      index at 160 - (its in-tile column), so only entries 153-160 are ever
      written; the others keep what the buffer held. */
  function BgBuffer(v: View, stale: seq<byte>, n: nat): (b: seq<byte>)
    requires Wf(v) && |stale| == LineBufferSize
    ensures |b| == LineBufferSize
  {
    var c0 := v.r.scx % 8;
    seq(LineBufferSize, k requires 0 <= k < LineBufferSize =>
      if k >= 153 && LastColumnUse(c0, n, 160 - k) >= 0
      then BgColour(v, LastColumnUse(c0, n, 160 - k)) as byte
      else stale[k])
  }

  /** The buffer the sprite pass reads. */
  function LineBuffer(v: View, stale: seq<byte>): (b: seq<byte>)
    requires Wf(v) && |stale| == LineBufferSize
    ensures |b| == LineBufferSize
  {
    if BgEnabled(v.r.flags) then BgBuffer(v, stale, ScreenWidth) else stale
  }

  // ---- sprites ----------------------------------------------------------------

  function SpriteHeight(flags: byte): int
  {
    if Bit(flags, 2) == 1 then 16 else 8
  }

  /** The sprite covers the line: y <= line < y + h. */
  predicate OnLine(s: Sprite, line: int, h: int)
  {
    s.y <= line && s.y > line - h
  }

  /** Row of the sprite shown on the line, counted from its top edge, or from
      its bottom edge when it is flipped vertically (flag bit 6). */
  function SpriteRow(s: Sprite, line: int, h: int): (row: int)
    ensures OnLine(s, line, h) ==> 0 <= row < h
    ensures OnLine(s, line, h) && Bit(s.flags, 6) == 1 ==> row == (h - 1) - (line - s.y)
  {
    if Bit(s.flags, 6) == 1 then (h - 1) - (line - s.y) else line - s.y
  }

  /** Screen x of column col of the sprite, mirrored when it is flipped
      horizontally (flag bit 5); a byte, so it wraps modulo 256. */
  function ScreenX(s: Sprite, col: int): int
  {
    (s.x + (if Bit(s.flags, 5) == 1 then 7 - col else col)) % 256
  }

  /** Tile holding sprite row `row`: for 8 x 16 sprites `tile & 0xFE` above
      and `tile | 0x01` below. */
  function RowTile(tile: byte, row: int, h: int): byte
  {
    if h == 16 then (if row < 8 then tile - tile % 2 else tile - tile % 2 + 1) else tile
  }

  /** Row inside that tile. */
  function RowInTile(row: int, h: int): int
  {
    if h == 16 && row >= 8 then row % 8 else row
  }

  /** Colour index of step j of the sprite pass (column j % 8 of sprite j / 8). */
  function StepColourIndex(v: View, j: int): Colour
    requires Wf(v) && 0 <= j < SpriteStepCount
    requires OnLine(v.sprites[j / 8], v.r.line, SpriteHeight(v.r.flags))
  {
    var s := v.sprites[j / 8];
    var h := SpriteHeight(v.r.flags);
    var row := SpriteRow(s, v.r.line, h);
    v.tiles[CacheIndex(RowTile(s.tile, row, h), RowInTile(row, h), j % 8)]
  }

  /** Shade step j draws: its colour index through object palette 0 or 1
      (flag bit 4). */
  function StepShade(v: View, j: int): Colour
    requires Wf(v) && 0 <= j < SpriteStepCount
    requires OnLine(v.sprites[j / 8], v.r.line, SpriteHeight(v.r.flags))
  {
    var s := v.sprites[j / 8];
    v.objPal[(if Bit(s.flags, 4) == 1 then 4 else 0) + StepColourIndex(v, j)]
  }

  /** Step j draws a pixel: the sprite covers the line, the column lands on the
      screen, its colour index is not 0 (transparent), and the sprite lacks
      the priority flag (bit 7) or the buffer entry at that x is 0. */
  predicate Draws(v: View, buf: seq<byte>, j: int)
    requires Wf(v) && |buf| == LineBufferSize && 0 <= j < SpriteStepCount
  {
    var s := v.sprites[j / 8];
    var px := ScreenX(s, j % 8);
    OnLine(s, v.r.line, SpriteHeight(v.r.flags)) && px < ScreenWidth &&
    StepColourIndex(v, j) != 0 && (Bit(s.flags, 7) == 0 || buf[px] == 0)
  }

  predicate DrawsAt(v: View, buf: seq<byte>, j: int, x: int)
    requires Wf(v) && |buf| == LineBufferSize && 0 <= j < SpriteStepCount
  {
    Draws(v, buf, j) && ScreenX(v.sprites[j / 8], j % 8) == x
  }

  /** The frame buffer after the first n steps of the sprite pass. */
  function SpriteSteps(scr: seq<int>, v: View, buf: seq<byte>, n: nat): (s: seq<int>)
    requires Wf(v) && |scr| == ScreenSize && |buf| == LineBufferSize && n <= SpriteStepCount
    ensures |s| == ScreenSize
  {
    if n == 0 then scr
    else
      var prev := SpriteSteps(scr, v, buf, n - 1);
      if Draws(v, buf, n - 1)
      then PutPixel(prev, ScreenX(v.sprites[(n - 1) / 8], (n - 1) % 8), v.r.line, StepShade(v, n - 1))
      else prev
  }

  /** The frame buffer after `renderScanline`, given what it held before and
      what the uninitialised line buffer held. */
  function RenderSpec(scr: seq<int>, v: View, stale: seq<byte>): (s: seq<int>)
    requires Wf(v) && |scr| == ScreenSize && |stale| == LineBufferSize
    ensures |s| == ScreenSize
  {
    var afterBg := if BgEnabled(v.r.flags) then BgPass(scr, v, ScreenWidth) else scr;
    if SpritesEnabled(v.r.flags) then SpriteSteps(afterBg, v, LineBuffer(v, stale), SpriteStepCount)
    else afterBg
  }

  /** The last of the first n sprite steps that draws at screen x, searching
      backwards: the pixel a later step would overwrite an earlier one with. */
  function LastDrawer(v: View, buf: seq<byte>, x: int, n: nat): (o: Option<nat>)
    requires Wf(v) && |buf| == LineBufferSize && n <= SpriteStepCount
    ensures o.Some? ==> o.value < n && DrawsAt(v, buf, o.value, x) &&
                        (forall j :: o.value < j < n ==> !DrawsAt(v, buf, j, x))
    ensures o.None? ==> forall j :: 0 <= j < n ==> !DrawsAt(v, buf, j, x)
  {
    if n == 0 then None
    else if DrawsAt(v, buf, n - 1, x) then Some(n - 1)
    else LastDrawer(v, buf, x, n - 1)
  }

  // ---- properties -------------------------------------------------------------

  /** The background pass paints pixel x of the current line with the palette
      shade of the background-map pixel under it, for the first n pixels, and
      touches nothing else. */
  lemma {:induction false} BgPassCell(scr: seq<int>, v: View, n: nat, k: int)
    requires Wf(v) && |scr| == ScreenSize && n <= ScreenWidth && 0 <= k < ScreenSize
    ensures BgPass(scr, v, n)[k] ==
      if v.r.line < ScreenHeight && v.r.line * ScreenWidth <= k < v.r.line * ScreenWidth + n
      then Grey(v.bgPal[BgColour(v, k - v.r.line * ScreenWidth)])
      else scr[k]
  {
    if n > 0 {
      BgPassCell(scr, v, n - 1, k);
    }
  }

  /** The sprite pass only writes the current line. */
  lemma {:induction false} SpriteStepsOtherRows(scr: seq<int>, v: View, buf: seq<byte>, n: nat, k: int)
    requires Wf(v) && |scr| == ScreenSize && |buf| == LineBufferSize && n <= SpriteStepCount
    requires 0 <= k < ScreenSize && k / ScreenWidth != v.r.line
    ensures SpriteSteps(scr, v, buf, n)[k] == scr[k]
  {
    if n > 0 {
      SpriteStepsOtherRows(scr, v, buf, n - 1, k);
    }
  }

  /** After n sprite steps, pixel x of the current line holds the shade of the
      last step that draws there, or what it held before if none does. */
  lemma {:induction false} SpriteStepsPixel(scr: seq<int>, v: View, buf: seq<byte>, n: nat, x: int)
    requires Wf(v) && |scr| == ScreenSize && |buf| == LineBufferSize && n <= SpriteStepCount
    requires v.r.line < ScreenHeight && 0 <= x < ScreenWidth
    ensures SpriteSteps(scr, v, buf, n)[v.r.line * ScreenWidth + x] ==
      match LastDrawer(v, buf, x, n)
      case None => scr[v.r.line * ScreenWidth + x]
      case Some(j) => Grey(StepShade(v, j))
  {
    if n > 0 {
      SpriteStepsPixel(scr, v, buf, n - 1, x);
    }
  }

  /** `renderScanline` writes only row `line` of the frame buffer, and nothing
      at all when the line is off the screen. */
  lemma RenderOtherRows(scr: seq<int>, v: View, stale: seq<byte>, k: int)
    requires Wf(v) && |scr| == ScreenSize && |stale| == LineBufferSize
    requires 0 <= k < ScreenSize && k / ScreenWidth != v.r.line
    ensures RenderSpec(scr, v, stale)[k] == scr[k]
  {
    var afterBg := if BgEnabled(v.r.flags) then BgPass(scr, v, ScreenWidth) else scr;
    BgPassCell(scr, v, ScreenWidth, k);
    SpriteStepsOtherRows(afterBg, v, LineBuffer(v, stale), SpriteStepCount, k);
  }

  /** Each pixel of the rendered line: the shade of the last sprite step that
      draws there (sprites in ascending index order, so a higher-numbered
      opaque sprite wins); failing that the background shade when the
      background is on; failing that the pixel as it was. */
  lemma RenderedPixel(scr: seq<int>, v: View, stale: seq<byte>, x: int)
    requires Wf(v) && |scr| == ScreenSize && |stale| == LineBufferSize
    requires v.r.line < ScreenHeight && 0 <= x < ScreenWidth
    ensures var o := if SpritesEnabled(v.r.flags)
                     then LastDrawer(v, LineBuffer(v, stale), x, SpriteStepCount) else None;
      RenderSpec(scr, v, stale)[v.r.line * ScreenWidth + x] ==
      match o
      case Some(j) => Grey(StepShade(v, j))
      case None => if BgEnabled(v.r.flags) then Grey(v.bgPal[BgColour(v, x)])
                   else scr[v.r.line * ScreenWidth + x]
  {
    var k := v.r.line * ScreenWidth + x;
    var afterBg := if BgEnabled(v.r.flags) then BgPass(scr, v, ScreenWidth) else scr;
    BgPassCell(scr, v, ScreenWidth, k);
    SpriteStepsPixel(afterBg, v, LineBuffer(v, stale), SpriteStepCount, x);
  }

  /** The last of the first n pixels (n >= 8) with in-tile column d is one of
      the last eight, and its in-tile column is d. */
  lemma LastColumnUseBounds(c0: int, n: int, d: int)
    requires 0 <= c0 < 8 && 0 <= d < 8 && n >= 8
    ensures var x := LastColumnUse(c0, n, d);
      n - 8 <= x < n && (c0 + x) % 8 == d
  {
    var m := (c0 + n - 1 - d) % 8;
    var x := n - 1 - m;
    assert c0 + n - 1 - d == 8 * ((c0 + n - 1 - d) / 8) + m;
    assert c0 + x == 8 * ((c0 + n - 1 - d) / 8) + d;
  }

  /** Adding one more pixel: if its in-tile column is d it becomes the last
      use of d, otherwise the last use of d stays where it was. */
  lemma LastColumnUseStep(c0: int, i: int, d: int)
    requires 0 <= c0 < 8 && 0 <= d < 8 && i >= 0
    ensures (c0 + i) % 8 == d ==> LastColumnUse(c0, i + 1, d) == i
    ensures (c0 + i) % 8 != d ==> LastColumnUse(c0, i + 1, d) == LastColumnUse(c0, i, d)
  {
    var a := c0 + i - d;
    var m := a % 8;
    assert a == 8 * (a / 8) + m;
    if m != 0 {
      assert a - 1 == 8 * (a / 8) + (m - 1);
      assert (a - 1) % 8 == m - 1;
    }
  }

  /** The in-tile column of screen pixel x is (scx + x) % 8. */
  lemma MapColumn(r: Regs, x: int)
    requires x >= 0
    ensures MapX(r, x) % 8 == (r.scx % 8 + x) % 8
  {
    var a := r.scx + x;
    assert a == 256 * (a / 256) + a % 256;
    assert a % 256 == a - 8 * (32 * (a / 256));
    assert r.scx + x == 8 * (r.scx / 8) + (r.scx % 8 + x);
  }

  /** What the sprite priority test reads. Entries 0-152 are never written by
      the background pass: they keep the buffer's previous contents. Entry
      153 + d, when the background is on, holds the colour index of the last
      screen pixel whose in-tile column is 7 - d, one of pixels 152-159. */
  lemma LineBufferContents(v: View, stale: seq<byte>, p: int)
    requires Wf(v) && |stale| == LineBufferSize && 0 <= p < LineBufferSize
    ensures p < 153 || !BgEnabled(v.r.flags) ==> LineBuffer(v, stale)[p] == stale[p]
    ensures p >= 153 && BgEnabled(v.r.flags) ==>
      var x := LastColumnUse(v.r.scx % 8, ScreenWidth, 160 - p);
      152 <= x < ScreenWidth && MapX(v.r, x) % 8 == 160 - p &&
      LineBuffer(v, stale)[p] == BgColour(v, x)
  {
    if p >= 153 && BgEnabled(v.r.flags) {
      var x := LastColumnUse(v.r.scx % 8, ScreenWidth, 160 - p);
      LastColumnUseBounds(v.r.scx % 8, ScreenWidth, 160 - p);
      MapColumn(v.r, x);
    }
  }

  /** Before the first pixel the buffer is as it was. */
  lemma BgBufferEmpty(v: View, stale: seq<byte>)
    requires Wf(v) && |stale| == LineBufferSize
    ensures BgBuffer(v, stale, 0) == stale
  {
    forall k | 0 <= k < LineBufferSize
      ensures BgBuffer(v, stale, 0)[k] == stale[k]
    {
    }
  }

  /** One background step: pixel i, whose in-tile column is (scx + i) % 8,
      stores its colour index at 160 minus that column. */
  lemma BgBufferStep(v: View, stale: seq<byte>, i: nat)
    requires Wf(v) && |stale| == LineBufferSize
    ensures BgBuffer(v, stale, i + 1) ==
      BgBuffer(v, stale, i)[160 - (v.r.scx % 8 + i) % 8 := BgColour(v, i) as byte]
  {
    var c0 := v.r.scx % 8;
    var after := BgBuffer(v, stale, i + 1);
    var expected := BgBuffer(v, stale, i)[160 - (c0 + i) % 8 := BgColour(v, i) as byte];
    forall k | 0 <= k < LineBufferSize
      ensures after[k] == expected[k]
    {
      if k >= 153 {
        LastColumnUseStep(c0, i, 160 - k);
      }
    }
  }

  /** Moving one pixel right: within a tile the in-tile column grows by one;
      past column 7 it restarts at 0 in the next map column, which wraps from
      31 to 0. */
  lemma MapXStep(r: Regs, i: int)
    requires i >= 0
    ensures MapX(r, i) % 8 < 7 ==>
      MapX(r, i + 1) / 8 == MapX(r, i) / 8 && MapX(r, i + 1) % 8 == MapX(r, i) % 8 + 1
    ensures MapX(r, i) % 8 == 7 ==>
      MapX(r, i + 1) / 8 == (MapX(r, i) / 8 + 1) % 32 && MapX(r, i + 1) % 8 == 0
  {
    var a := r.scx + i;
    assert a == 256 * (a / 256) + MapX(r, i);
    if MapX(r, i) < 255 {
      assert a + 1 == 256 * (a / 256) + (MapX(r, i) + 1);
      assert MapX(r, i + 1) == MapX(r, i) + 1;
    } else {
      assert a + 1 == 256 * (a / 256 + 1);
      assert MapX(r, i + 1) == 0;
    }
  }

  /** The renderer's cursor (in-tile column `col`, map column `xoff`) at
      screen pixel i, advanced one pixel the way the background loop does it,
      is the cursor at pixel i + 1. */
  lemma CursorAdvance(r: Regs, i: int, col: int, xoff: int)
    requires i >= 0 && col == MapX(r, i) % 8 && xoff == MapX(r, i) / 8
    ensures col + 1 < 8 ==> col + 1 == MapX(r, i + 1) % 8 && xoff == MapX(r, i + 1) / 8
    ensures col + 1 == 8 ==> 0 == MapX(r, i + 1) % 8 && (xoff + 1) % 32 == MapX(r, i + 1) / 8
  {
    MapXStep(r, i);
  }

  /** The renderer's starting cursor: map row `((line + scy) & 255) >> 3`,
      row inside the tile `(line + scy) & 7`, map column `(scx >> 3) & 31` and
      in-tile column `scx & 7` are those of screen pixel 0. */
  lemma CursorStart(r: Regs)
    ensures MapY(r) / 8 == (r.line + r.scy) % 256 / 8 && 0 <= MapY(r) / 8 < 32
    ensures MapY(r) % 8 == (r.line + r.scy) % 8
    ensures MapX(r, 0) % 8 == r.scx % 8 && MapX(r, 0) / 8 == Shr(r.scx, 3) % 32
  {
    MapRow(r);
    MapStartColumn(r);
  }

  lemma MapStartColumn(r: Regs)
    ensures MapX(r, 0) % 8 == r.scx % 8 && MapX(r, 0) / 8 == Shr(r.scx, 3) % 32
  {
    assert MapX(r, 0) == r.scx;
    assert Shr(r.scx, 3) == r.scx / 8 by {
      ShrAsDiv(r.scx);
    }
  }

  /** The row inside the map tile is `(line + scy) & 7`. */
  lemma MapRow(r: Regs)
    ensures MapY(r) % 8 == (r.line + r.scy) % 8
  {
    var a := r.line + r.scy;
    assert a == 256 * (a / 256) + MapY(r);
    assert MapY(r) == 8 * (a / 8 - 32 * (a / 256)) + a % 8;
  }

  /** A sprite that does not cover the line draws nothing: its eight steps
      leave the frame buffer as it was. */
  lemma {:induction false} SpriteStepsSkip(scr: seq<int>, v: View, buf: seq<byte>, i: int, m: nat)
    requires Wf(v) && |scr| == ScreenSize && |buf| == LineBufferSize
    requires 0 <= i < SpriteCount && m <= 8
    requires !OnLine(v.sprites[i], v.r.line, SpriteHeight(v.r.flags))
    ensures SpriteSteps(scr, v, buf, 8 * i + m) == SpriteSteps(scr, v, buf, 8 * i)
  {
    if m > 0 {
      SpriteStepsSkip(scr, v, buf, i, m - 1);
      assert (8 * i + m - 1) / 8 == i;
    }
  }

  /** The two tiles of an 8 x 16 sprite, `tile & 0xFE` and `tile | 0x01`, hold
      its 16 rows in order: row `row` is row `row % 8` of the upper tile for
      row < 8 and of the lower tile for row >= 8. */
  lemma TallSpriteRows(tile: byte, row: int)
    requires 0 <= row < 16
    ensures RowTile(tile, row, 16) % 2 == (if row < 8 then 0 else 1)
    ensures RowTile(tile, row, 16) / 2 == tile / 2
    ensures 0 <= RowInTile(row, 16) < 8
    ensures 8 * RowTile(tile, row, 16) + RowInTile(row, 16) == 8 * (tile - tile % 2) + row
  {
  }

  /** Horizontal flipping mirrors the sprite: column col of a flipped sprite
      lands where column 7 - col of the same sprite unflipped lands. */
  lemma FlipMirrors(s: Sprite, t: Sprite, col: int)
    requires 0 <= col < 8 && s.x == t.x && Bit(s.flags, 5) == 1 && Bit(t.flags, 5) == 0
    ensures ScreenX(s, col) == ScreenX(t, 7 - col)
  {
  }
}
