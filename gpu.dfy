/**
 * The picture-processing unit as a mutable object: the global `gpu` record
 * with its video RAM, attribute memory, decoded tile cache, sprite table,
 * palettes and the frame buffer, and the operations that update them in
 * place. Each method is proved against the pure functions of the other
 * modules.
 *
 * The CPU globals `stepGPU` touches (the elapsed-cycle count and the
 * interrupt-flag register) are a parameter and a result of `Step`; the
 * memory bus the DMA copy goes through is an array passed to `WriteIOByte`.
 */
module Gpu {
  import opened Bytes
  import opened Tiles
  import opened Sprites
  import opened Timing
  import opened Registers
  import opened Render

  class Gpu {
    var mode: Mode
    var mclock: nat
    var r: Regs
    var hBlankInt: bool
    var vBlankInt: bool
    var oamInt: bool
    var coinInt: bool

    /** Video RAM, 0x8000-0x9FFF on the bus. */
    const vram: array<byte>
    /** Object attribute memory, 0xFE00-0xFE9F on the bus. */
    const oam: array<byte>
    /** Decoded tiles: pixel (row, col) of tile t at CacheIndex(t, row, col). */
    const tileset: array<Colour>
    const sprites: array<Sprite>
    const bgPalette: array<Colour>
    /** Object palettes 0 (entries 0-3) and 1 (entries 4-7). */
    const objPalette: array<Colour>
    /** The frame buffer: grey level of each of the 160 x 144 pixels, row-major. */
    const screen: array<int>

    ghost predicate Valid()
      reads this
    {
      vram.Length == VramSize && oam.Length == OamSize && tileset.Length == CacheSize &&
      sprites.Length == SpriteCount && bgPalette.Length == 4 && objPalette.Length == 8 &&
      screen.Length == ScreenSize &&
      vram != oam && tileset != bgPalette && tileset != objPalette && bgPalette != objPalette &&
      Inv(Clock())
    }

    ghost function Clock(): Timer
      reads this
    {
      Timer(mode, mclock, r.line)
    }

    ghost function Enables(): StatEnables
      reads this
    {
      StatEnables(hBlankInt, vBlankInt, oamInt, coinInt)
    }

    /** What register I/O sees. */
    ghost function Io(): (s: IoState)
      requires Valid()
      reads this, bgPalette, objPalette
      ensures WfIo(s)
    {
      IoState(mode, r, Enables(), bgPalette[..], objPalette[..])
    }

    /** What the renderer reads. */
    ghost function Snapshot(): (v: View)
      requires Valid()
      reads this, vram, tileset, bgPalette, objPalette, sprites
      ensures Wf(v)
    {
      View(r, vram[..], tileset[..], bgPalette[..], objPalette[..], sprites[..])
    }

    /** `initGPU` on the zero-initialised global, before any other call:
        HBLANK at line 0 with the clock at 0; the status flags and both
        scroll registers cleared; zeroed memories, tile cache and frame
        buffer; every sprite at the decode of a zero record. The coincidence
        line, the interrupt enables and the palettes are 0 only because the
        global starts out zeroed, which `Reinit` makes visible. */
    constructor ()
      ensures Valid()
      ensures Clock() == InitialTimer && r == Regs(0, 0, 0, 0, 0) &&
              Enables() == StatEnables(false, false, false, false)
      ensures vram[..] == seq(VramSize, _ => 0) && oam[..] == seq(OamSize, _ => 0)
      ensures tileset[..] == seq(CacheSize, _ => 0)
      ensures sprites[..] == seq(SpriteCount, _ => InitialSprite)
      ensures bgPalette[..] == [0, 0, 0, 0] && objPalette[..] == [0, 0, 0, 0, 0, 0, 0, 0]
      ensures screen[..] == seq(ScreenSize, _ => 0)
      ensures fresh(vram) && fresh(oam) && fresh(tileset) && fresh(sprites) &&
              fresh(bgPalette) && fresh(objPalette) && fresh(screen)
    {
      mode := HBlank;
      mclock := 0;
      r := Regs(0, 0, 0, 0, 0);
      hBlankInt, vBlankInt, oamInt, coinInt := false, false, false, false;
      vram := new byte[VramSize](_ => 0);
      oam := new byte[OamSize](_ => 0);
      tileset := new Colour[CacheSize](_ => 0);
      sprites := new Sprite[SpriteCount](_ => InitialSprite);
      bgPalette := new Colour[4](_ => 0);
      objPalette := new Colour[8](_ => 0);
      screen := new int[ScreenSize](_ => 0);
    }

    /** `initGPU` called again on a state already in use: the same mode,
        clock, line, scroll and flag values and the same cleared memories and
        sprite table as the first call, while the coincidence line, the
        interrupt enables and both palettes keep their values, since
        `initGPU` does not assign them. */
    method Reinit()
      requires Valid()
      modifies this, vram, oam, tileset, sprites, screen
      ensures Valid()
      ensures Clock() == InitialTimer && r == Regs(0, 0, 0, 0, old(r.lineComp)) &&
              Enables() == old(Enables())
      ensures vram[..] == seq(VramSize, _ => 0) && oam[..] == seq(OamSize, _ => 0)
      ensures tileset[..] == seq(CacheSize, _ => 0)
      ensures sprites[..] == seq(SpriteCount, _ => InitialSprite)
      ensures bgPalette[..] == old(bgPalette[..]) && objPalette[..] == old(objPalette[..])
      ensures screen[..] == seq(ScreenSize, _ => 0)
    {
      mode := HBlank;
      mclock := 0;
      r := r.(line := 0, scx := 0, scy := 0, flags := 0);
      InitialTimerInv();
      ClearMemories();
    }

    /** The allocations of `initGPU`: zeroed video RAM, attribute memory, tile
        cache and frame buffer, and the default sprite table. */
    method ClearMemories()
      requires Valid()
      modifies vram, oam, tileset, sprites, screen
      ensures vram[..] == seq(VramSize, _ => 0) && oam[..] == seq(OamSize, _ => 0)
      ensures tileset[..] == seq(CacheSize, _ => 0)
      ensures sprites[..] == seq(SpriteCount, _ => InitialSprite)
      ensures screen[..] == seq(ScreenSize, _ => 0)
      ensures bgPalette[..] == old(bgPalette[..]) && objPalette[..] == old(objPalette[..])
    {
      forall i | 0 <= i < screen.Length {
        screen[i] := 0;
      }
      forall i | 0 <= i < vram.Length {
        vram[i] := 0;
      }
      forall i | 0 <= i < oam.Length {
        oam[i] := 0;
      }
      forall i | 0 <= i < tileset.Length {
        tileset[i] := 0;
      }
      forall i | 0 <= i < sprites.Length {
        sprites[i] := InitialSprite;
      }
    }

    /** `updateTile(b, addr)`: re-decodes the tile row addressed by `addr`
        from the two video-RAM bytes at addr and addr + 1. The byte b is not
        used. */
    method UpdateTile(b: byte, addr: word)
      requires Valid() && addr + 1 < VramSize
      modifies tileset
      ensures tileset[..] == UpdatedCache(old(tileset[..]), vram[..], addr)
    {
      var tile := TileOf(addr);
      var row := RowOf(addr);
      ghost var before := tileset[..];
      ghost var cells := DecodeRow(vram[addr], vram[addr + 1]);
      var col := 0;
      while col < 8
        invariant 0 <= col <= 8
        invariant tileset[..] == WithRow(before, tile, row, cells[..col])
      {
        var k := CacheIndex(tile, row, col);
        tileset[k] := Bit(vram[addr], 7 - col);
        tileset[k] := tileset[k] + 2 * Bit(vram[addr + 1], 7 - col);
        assert tileset[..] == WithRow(before, tile, row, cells[..col + 1]);
        col := col + 1;
      }
      assert cells[..8] == cells;
    }

    /** `gpuBuildSpriteData(b, addr)`: mirrors a write of b to attribute
        memory offset addr into the sprite table. */
    method BuildSpriteData(b: byte, addr: word)
      requires Valid()
      modifies sprites
      ensures sprites[..] == OamWrite(old(sprites[..]), b, addr)
    {
      var spriteNum := addr / 4;
      if spriteNum < SpriteCount {
        match addr % 4
        case 0 => sprites[spriteNum] := sprites[spriteNum].(y := b as int - 16);
        case 1 => sprites[spriteNum] := sprites[spriteNum].(x := b as int - 8);
        case 2 => sprites[spriteNum] := sprites[spriteNum].(tile := b);
        case 3 => sprites[spriteNum] := sprites[spriteNum].(flags := b);
      }
    }

    /** `gpuReadIOByte(addr)`: `IoRead` evaluated over the object's fields.
        The body spells the match out again because `Io()` is ghost; the
        contract ties the two together, so every property proved of `IoRead`
        (status composition, read-after-write, unknown offsets) holds of it. */
    function ReadIOByte(addr: word): (v: byte)
      requires Valid()
      reads this, bgPalette, objPalette
      ensures v == IoRead(Io(), addr)
    {
      match addr
      case 0 => r.flags
      case 1 =>
        ModeBits(mode) + (if r.line == r.lineComp then 0x04 else 0x00) +
        (if hBlankInt then 0x08 else 0x00) + (if vBlankInt then 0x10 else 0x00) +
        (if oamInt then 0x20 else 0x00) + (if coinInt then 0x40 else 0x00)
      case 2 => r.scy
      case 3 => r.scx
      case 4 => r.line
      case 5 => r.lineComp
      case _ => 0
    }

    /** `gpuWriteIOByte(b, addr)`. A write to offset 6 copies 160 bytes over
        the bus from page b to 0xFE00. */
    method WriteIOByte(b: byte, addr: word, bus: array<byte>)
      requires Valid() && bus.Length == 0x1_0000 && bus != vram && bus != oam
      modifies this, bgPalette, objPalette, bus
      ensures Valid()
      ensures Io() == IoWrite(old(Io()), b, addr)
      ensures mclock == old(mclock)
      ensures bus[..] == if addr == 6 then Dma(old(bus[..]), b) else old(bus[..])
    {
      match addr
      case 0 => r := r.(flags := b);
      case 1 =>
        hBlankInt := Bit(b, 3) == 1;
        vBlankInt := Bit(b, 4) == 1;
        oamInt := Bit(b, 5) == 1;
        coinInt := Bit(b, 6) == 1;
      case 2 => r := r.(scy := b);
      case 3 => r := r.(scx := b);
      case 4 => r := r.(line := 0);
      case 5 => r := r.(lineComp := b);
      case 6 => RunDma(b, bus);
      case 7 =>
        LoadPalette(bgPalette, 0, b);
        assert bgPalette[..] == UnpackPalette(b);
      case 8 =>
        LoadPalette(objPalette, 0, b);
        assert objPalette[..] == UnpackPalette(b) + old(objPalette[4..]);
      case 9 =>
        LoadPalette(objPalette, 4, b);
        assert objPalette[..] == old(objPalette[..4]) + UnpackPalette(b);
      case _ =>
    }

    /** The DMA loop of a write to offset 6: bytes `(page << 8) + i` for i in
        0..0x9F are copied one at a time to 0xFE00 + i. */
    method RunDma(page: byte, bus: array<byte>)
      requires bus.Length == 0x1_0000
      modifies bus
      ensures bus[..] == Dma(old(bus[..]), page)
    {
      var i := 0;
      while i <= 0x9F
        invariant 0 <= i <= 0xA0
        invariant forall k :: 0 <= k < 0x1_0000 ==>
          bus[k] == if 0xFE00 <= k < 0xFE00 + i then old(bus[page * 0x100 + (k - 0xFE00)]) else old(bus[k])
        modifies bus
      {
        bus[0xFE00 + i] := bus[page * 0x100 + i];
        i := i + 1;
      }
    }

    /** A palette loop of a write to offset 7, 8 or 9: entries base..base+3
        of `pal` become `(b >> (i * 2)) & 3`, the others are untouched. */
    method LoadPalette(pal: array<Colour>, base: nat, b: byte)
      requires base + 4 <= pal.Length
      modifies pal
      ensures pal[..] == old(pal[..base]) + UnpackPalette(b) + old(pal[base + 4..])
    {
      var i := 0;
      while i < 4
        invariant 0 <= i <= 4
        invariant forall k :: 0 <= k < i ==> pal[base + k] == PaletteEntry(b, k)
        invariant pal[..base] == old(pal[..base]) && pal[base + 4..] == old(pal[base + 4..])
        modifies pal
      {
        pal[base + i] := Shr(b, i * 2) % 4;
        i := i + 1;
      }
      assert pal[..] == pal[..base] + pal[base..base + 4] + pal[base + 4..];
      assert pal[base..base + 4] == UnpackPalette(b);
    }

    /** `setPixelColor(x, y, c)`. */
    method SetPixelColor(x: int, y: int, c: Colour)
      requires screen.Length == ScreenSize
      modifies screen
      ensures screen[..] == PutPixel(old(screen[..]), x, y, c)
    {
      if x >= ScreenWidth || y >= ScreenHeight || x < 0 || y < 0 {
        return;
      }
      screen[y * ScreenWidth + x] := Grey(c);
    }

    /** `renderScanline()`: draws line `r.line` of the frame buffer. `stale`
        is what the uninitialised per-line buffer holds on entry. */
    method RenderScanline(stale: seq<byte>)
      requires Valid() && |stale| == LineBufferSize
      modifies screen
      ensures screen[..] == RenderSpec(old(screen[..]), Snapshot(), stale)
    {
      var bgScanline := new byte[LineBufferSize](k requires 0 <= k < LineBufferSize => stale[k]);
      assert bgScanline[..] == stale;
      if Bit(r.flags, 0) == 1 {
        RenderBackground(bgScanline, stale);
      }
      if Bit(r.flags, 1) == 1 {
        RenderSprites(bgScanline);
      }
    }

    /** The background half of `renderScanline`: walks the 160 pixels of the
        line across the background map, drawing each and recording its colour
        index in the line buffer at 160 - (its in-tile column). */
    method RenderBackground(bgScanline: array<byte>, ghost stale: seq<byte>)
      requires Valid() && bgScanline.Length == LineBufferSize && bgScanline[..] == stale
      requires bgScanline != vram && bgScanline != oam
      modifies screen, bgScanline
      ensures screen[..] == BgPass(old(screen[..]), Snapshot(), ScreenWidth)
      ensures bgScanline[..] == BgBuffer(Snapshot(), stale, ScreenWidth)
    {
      ghost var v := Snapshot();
      var regs := r;
      var yoff := MapBase(regs.flags) + ((regs.line + regs.scy) % 256 / 8) * 32;
      var xoff := Shr(regs.scx, 3) % 32;
      var row := (regs.line + regs.scy) % 8;
      var col := regs.scx % 8;
      CursorStart(regs);
      var tilenr := FetchMapTile(yoff, MapY(regs) / 8, xoff);
      BgBufferEmpty(v, stale);
      var i := 0;
      while i < ScreenWidth
        invariant 0 <= i <= ScreenWidth
        invariant yoff == MapBase(regs.flags) + (MapY(regs) / 8) * 32 && row == MapY(regs) % 8
        invariant col == MapX(regs, i) % 8 && xoff == MapX(regs, i) / 8
        invariant tilenr == MapTile(v, xoff, MapY(regs) / 8)
        invariant screen[..] == BgPass(old(screen[..]), v, i)
        invariant bgScanline[..] == BgBuffer(v, stale, i)
        modifies screen, bgScanline
      {
        ghost var before := screen[..];
        DrawBackgroundPixel(bgScanline, v, i, tilenr, row, col);
        assert screen[..] == PutPixel(before, i, v.r.line, v.bgPal[BgColour(v, i)]);
        BgBufferStep(v, stale, i);
        CursorAdvance(regs, i, col, xoff);
        col := col + 1;
        if col == 8 {
          col := 0;
          xoff := (xoff + 1) % 32;
          tilenr := FetchMapTile(yoff, MapY(regs) / 8, xoff);
        }
        i := i + 1;
      }
    }

    /** The tile number the background loop reads at `vram[yoff + xoff]`,
        moved into the second bank when the signed tile set is selected. */
    method FetchMapTile(yoff: int, ghost ty: int, xoff: int) returns (tilenr: int)
      requires Valid() && 0 <= ty < 32 && 0 <= xoff < 32 && yoff == MapBase(r.flags) + ty * 32
      ensures tilenr == MapTile(Snapshot(), xoff, ty)
    {
      tilenr := vram[yoff + xoff];
      if Bit(r.flags, 4) == 0 && tilenr < 128 {
        tilenr := tilenr + 256;
      }
    }

    /** One pixel of the background loop: the cached colour index at (tilenr,
        row, col) is stored at `bgScanline[160 - col]` and its shade drawn at
        (i, line). With the cursor on screen pixel i, that index is BgColour. */
    method DrawBackgroundPixel(bgScanline: array<byte>, ghost v: View, i: int, tilenr: int, row: int, col: int)
      requires Valid() && v == Snapshot() && bgScanline.Length == LineBufferSize
      requires bgScanline != vram && bgScanline != oam
      requires 0 <= i < ScreenWidth && row == MapY(r) % 8 && col == MapX(r, i) % 8
      requires tilenr == MapTile(v, MapX(r, i) / 8, MapY(r) / 8)
      modifies screen, bgScanline
      ensures screen[..] == PutPixel(old(screen[..]), i, v.r.line, v.bgPal[BgColour(v, i)])
      ensures bgScanline[..] ==
        old(bgScanline[..])[160 - (v.r.scx % 8 + i) % 8 := BgColour(v, i) as byte]
    {
      assert tileset[CacheIndex(tilenr, row, col)] == BgColour(v, i);
      MapColumn(r, i);
      bgScanline[160 - col] := tileset[CacheIndex(tilenr, row, col)];
      var color := bgPalette[tileset[CacheIndex(tilenr, row, col)]];
      SetPixelColor(i, r.line, color);
    }

    /** The sprite half of `renderScanline`: sprites 0 to 39 in order, each
        that covers the line drawing its eight columns. */
    method RenderSprites(bgScanline: array<byte>)
      requires Valid() && bgScanline.Length == LineBufferSize
      requires bgScanline != vram && bgScanline != oam
      modifies screen
      ensures screen[..] == SpriteSteps(old(screen[..]), Snapshot(), bgScanline[..], SpriteStepCount)
    {
      ghost var v := Snapshot();
      var spriteHeight := if Bit(r.flags, 2) == 1 then 16 else 8;
      var i := 0;
      while i < SpriteCount
        invariant 0 <= i <= SpriteCount
        invariant screen[..] == SpriteSteps(old(screen[..]), v, bgScanline[..], 8 * i)
        modifies screen
      {
        var s := sprites[i];
        if s.y <= r.line && s.y > r.line - spriteHeight {
          var row := if Bit(s.flags, 6) == 1 then (spriteHeight - 1) - (r.line - s.y) else r.line - s.y;
          DrawSpriteRow(bgScanline, v, bgScanline[..], i, spriteHeight, row, old(screen[..]));
        } else {
          SpriteStepsSkip(old(screen[..]), v, bgScanline[..], i, 8);
        }
        i := i + 1;
      }
    }

    /** The eight columns of sprite i on the current line (row `row` of the
        sprite), continuing the sprite pass that started from `start`. */
    method DrawSpriteRow(bgScanline: array<byte>, ghost v: View, ghost buf: seq<byte>, i: int,
                         spriteHeight: int, row: int, ghost start: seq<int>)
      requires Valid() && v == Snapshot() && bgScanline.Length == LineBufferSize && |start| == ScreenSize
      requires buf == bgScanline[..]
      requires bgScanline != vram && bgScanline != oam
      requires 0 <= i < SpriteCount && spriteHeight == SpriteHeight(v.r.flags)
      requires OnLine(v.sprites[i], v.r.line, spriteHeight)
      requires row == SpriteRow(v.sprites[i], v.r.line, spriteHeight)
      requires screen[..] == SpriteSteps(start, v, buf, 8 * i)
      modifies screen
      ensures screen[..] == SpriteSteps(start, v, buf, 8 * i + 8)
    {
      var s := sprites[i];
      var col := 0;
      while col < 8
        invariant 0 <= col <= 8
        invariant screen[..] == SpriteSteps(start, v, buf, 8 * i + col)
        modifies screen
      {
        ghost var j := 8 * i + col;
        assert j / 8 == i && j % 8 == col;
        DrawSpritePixel(bgScanline, v, buf, j, s, spriteHeight, row, col);
        col := col + 1;
      }
    }

    /** Column `col` of sprite s on the current line, which is step j of the
        sprite pass: flip, clip, tile and row selection for tall sprites, the
        transparent-colour and priority tests, then the shade from the
        sprite's object palette. */
    method DrawSpritePixel(bgScanline: array<byte>, ghost v: View, ghost buf: seq<byte>, ghost j: int,
                           s: Sprite, spriteHeight: int, row: int, col: int)
      requires Valid() && v == Snapshot() && bgScanline.Length == LineBufferSize && buf == bgScanline[..]
      requires bgScanline != vram && bgScanline != oam
      requires 0 <= j < SpriteStepCount && s == v.sprites[j / 8] && col == j % 8
      requires spriteHeight == SpriteHeight(v.r.flags) && OnLine(s, v.r.line, spriteHeight)
      requires row == SpriteRow(s, v.r.line, spriteHeight)
      modifies screen
      ensures screen[..] == if Draws(v, buf, j)
        then PutPixel(old(screen[..]), ScreenX(s, col), v.r.line, StepShade(v, j))
        else old(screen[..])
    {
      var px := if Bit(s.flags, 5) == 1 then (s.x + (7 - col)) % 256 else (s.x + col) % 256;
      assert px == ScreenX(s, col);
      if px < ScreenWidth {
        var spriteTile := s.tile;
        var spriteRow := row;
        if spriteHeight == 16 {
          if row < 8 {
            spriteTile := s.tile - s.tile % 2;
          } else {
            spriteTile := s.tile - s.tile % 2 + 1;
            spriteRow := row % 8;
          }
        }
        assert spriteTile == RowTile(s.tile, row, spriteHeight);
        assert spriteRow == RowInTile(row, spriteHeight);
        var c := tileset[CacheIndex(spriteTile, spriteRow, col)];
        assert c == StepColourIndex(v, j);
        if c != 0 && (Bit(s.flags, 7) == 0 || bgScanline[px] == 0) {
          var color := objPalette[(if Bit(s.flags, 4) == 1 then 4 else 0) + c];
          assert color == StepShade(v, j);
          SetPixelColor(px, r.line, color);
        }
      }
    }

    /** `stepGPU()`: adds `dc` cycles and makes at most one mode transition,
        rendering a line on entry to HBLANK. `intFlags` is the CPU's
        interrupt-flag register before the call and `flagsOut` after it;
        `frameReady` says the frame was handed to the display. */
    method Step(dc: nat, intFlags: set<Interrupt>, stale: seq<byte>) returns (flagsOut: set<Interrupt>, frameReady: bool)
      requires Valid() && |stale| == LineBufferSize
      modifies this, screen
      ensures Valid()
      ensures var k := StepTimer(old(Clock()), dc, old(Enables()), old(r.lineComp), intFlags);
        Clock() == k.timer && flagsOut == k.intFlags && frameReady == k.frameReady &&
        screen[..] == if k.render then RenderSpec(old(screen[..]), old(Snapshot()), stale) else old(screen[..])
      ensures r == old(r).(line := r.line) && Enables() == old(Enables())
    {
      StepKeepsInv(Clock(), dc, Enables(), r.lineComp, intFlags);
      match mode {
        case HBlank => flagsOut, frameReady := StepHBlank(dc, intFlags);
        case VBlank => flagsOut := StepVBlank(dc, intFlags); frameReady := false;
        case Oam => StepOam(dc, intFlags); flagsOut, frameReady := intFlags, false;
        case Vram => flagsOut := StepVram(dc, intFlags, stale); frameReady := false;
      }
    }

    /** `stepGPU` in HBLANK: at 51 cycles the HBLANK expiry. */
    method StepHBlank(dc: nat, intFlags: set<Interrupt>) returns (flagsOut: set<Interrupt>, frameReady: bool)
      requires mode == HBlank
      modifies this
      ensures var k := StepTimer(old(Clock()), dc, old(Enables()), old(r.lineComp), intFlags);
        Clock() == k.timer && flagsOut == k.intFlags && frameReady == k.frameReady && !k.render
      ensures r == old(r).(line := r.line) && Enables() == old(Enables())
    {
      mclock := mclock + dc;
      flagsOut := intFlags;
      frameReady := false;
      if mclock >= 51 {
        flagsOut, frameReady := EndHBlank(intFlags);
      }
    }

    /** The end of HBLANK: the line advances, the coincidence interrupt is
        raised if enabled and the line now equals the compare line; line 144
        enters VBLANK, raises the V-blank interrupt and hands over the frame,
        any other line enters OAM. */
    method EndHBlank(intFlags: set<Interrupt>) returns (flagsOut: set<Interrupt>, frameReady: bool)
      modifies this
      ensures Tick(Clock(), flagsOut, false, frameReady) ==
        HBlankExpiry(NextLine(old(r.line)), old(Enables()), old(r.lineComp), intFlags)
      ensures r == old(r).(line := r.line) && Enables() == old(Enables())
    {
      flagsOut := intFlags;
      frameReady := false;
      mclock := 0;
      r := r.(line := NextLine(r.line));
      if coinInt && r.line == r.lineComp {
        flagsOut := flagsOut + {LcdStatReq};
      }
      if r.line == 144 {
        mode := VBlank;
        flagsOut := flagsOut + {VBlankReq};
        if vBlankInt {
          flagsOut := flagsOut + {LcdStatReq};
        }
        frameReady := true;
      } else {
        mode := Oam;
        if oamInt {
          flagsOut := flagsOut + {LcdStatReq};
        }
      }
    }

    /** `stepGPU` in VBLANK: at 114 cycles the line advances; past line 153
        it wraps to 0 and OAM begins. */
    method StepVBlank(dc: nat, intFlags: set<Interrupt>) returns (flagsOut: set<Interrupt>)
      requires mode == VBlank
      modifies this
      ensures var k := StepTimer(old(Clock()), dc, old(Enables()), old(r.lineComp), intFlags);
        Clock() == k.timer && flagsOut == k.intFlags && !k.frameReady && !k.render
      ensures r == old(r).(line := r.line) && Enables() == old(Enables())
    {
      mclock := mclock + dc;
      flagsOut := intFlags;
      if mclock >= 114 {
        mclock := 0;
        r := r.(line := NextLine(r.line));
        if r.line > 153 {
          mode := Oam;
          r := r.(line := 0);
          if oamInt {
            flagsOut := flagsOut + {LcdStatReq};
          }
        }
      }
    }

    /** `stepGPU` in OAM: at 20 cycles VRAM begins; no interrupt is raised. */
    method StepOam(dc: nat, ghost intFlags: set<Interrupt>)
      requires mode == Oam
      modifies this
      ensures var k := StepTimer(old(Clock()), dc, old(Enables()), old(r.lineComp), intFlags);
        Clock() == k.timer && k.intFlags == intFlags && !k.frameReady && !k.render
      ensures r == old(r) && Enables() == old(Enables())
    {
      mclock := mclock + dc;
      if mclock >= 20 {
        mclock := 0;
        mode := Vram;
      }
    }

    /** `stepGPU` in VRAM: at 43 cycles HBLANK begins, the line is rendered
        and the LCD-status interrupt is raised if its HBLANK enable is on. */
    method StepVram(dc: nat, intFlags: set<Interrupt>, stale: seq<byte>) returns (flagsOut: set<Interrupt>)
      requires Valid() && mode == Vram && |stale| == LineBufferSize
      modifies this, screen
      ensures var k := StepTimer(old(Clock()), dc, old(Enables()), old(r.lineComp), intFlags);
        Clock() == k.timer && flagsOut == k.intFlags && !k.frameReady &&
        screen[..] == if k.render then RenderSpec(old(screen[..]), old(Snapshot()), stale) else old(screen[..])
      ensures r == old(r) && Enables() == old(Enables())
    {
      mclock := mclock + dc;
      flagsOut := intFlags;
      if mclock >= 43 {
        mclock := 0;
        mode := HBlank;
        RenderScanline(stale);
        if hBlankInt {
          flagsOut := flagsOut + {LcdStatReq};
        }
      }
    }
  }
}
