# Game Boy picture-processing unit, modelled in Dafny

This project models the picture-processing unit (PPU) of a Game Boy emulator, `gpu.c`. The PPU's state is:

- video RAM (0x2000 bytes);
- object attribute memory (0xA0 bytes);
- a decoded cache of 512 tiles of 8 x 8 two-bit colour indices;
- the table of 40 sprite descriptors;
- the background palette and two object palettes;
- the register block (control flags, scroll, current line, line compare);
- four LCD-status interrupt enables;
- the mode scheduler's mode and cycle clock;
- the 160 x 144 frame buffer.

That state is the class `Gpu.Gpu`. Each operation of the source is a method on it, proved against a pure specification in the other modules.

| file | module | contents |
|---|---|---|
| `bytes.dfy` | `Bytes` | `byte`/`word`, right shift and bit test in arithmetic form |
| `tiles.dfy` | `Tiles` | the planar 2-bits-per-pixel row decode, the cache after a row update, the inverse encoding and the round trips |
| `cachemirror.dfy` | `CacheMirror` | the cache that video RAM describes (`DecodeCache`), kept by even-address row updates and left behind by odd-address ones |
| `sprites.dfy` | `Sprites` | sprite descriptors, the table after an attribute-memory write, the table as a mirror of attribute memory |
| `timing.dfy` | `Timing` | the mode scheduler as a function `StepTimer`: thresholds, transitions, interrupt requests, the reachable-state invariant |
| `registers.dfy` | `Registers` | register reads and writes (`IoRead`, `IoWrite`), the status byte, palette packing, the DMA copy (`Dma`) |
| `render.dfy` | `Render` | the scanline renderer as a function `RenderSpec`: background pass, line buffer, sprite pass, and the per-pixel result |
| `gpu.dfy` | `Gpu` | the class with its arrays; a first and a repeated `initGPU`, `UpdateTile`, `BuildSpriteData`, `ReadIOByte`, `WriteIOByte`, `SetPixelColor`, `RenderScanline`, `Step` |

Representation choices:

- **Interrupt flags.** The CPU's interrupt-flag register is the set of interrupt sources whose bit is set (`Timing.Interrupt`). V-blank is bit 0 and LCD status is bit 1. `cpu.intFlags |= INT_LCDSTAT` is `flags + {LcdStatReq}`.
- **CPU globals.** The cycle count `cpu.dc` is a parameter of `Step`. The register is both a parameter and a result of `Step`. The call to `renderFrame()` is the result `frameReady`.
- **Tile cache.** The cache `tileset[tile][row][col]` is one flat array indexed by `tile * 64 + row * 8 + col`.
- **Frame buffer.** It holds the grey level of each pixel, 255, 192, 96 or 0 for colour indices 0 to 3.
- **Constants from the header.** The header `gbemu.h` is not part of this model. Its constants are taken as:
  - modes HBLANK 0, VBLANK 1, OAM 2, VRAM 3;
  - control flag bits: background 0, sprites 1, sprite size 2, tile map 3 (map at 0x1C00 when set, 0x1800 when clear), tile set 4;
  - sprite flag bits: priority 7, y-flip 6, x-flip 5, palette 4;
  - `INT_VBLANK` 0x01 and `INT_LCDSTAT` 0x02;
  - sprite x and y as signed integers wide enough for the biased values;
  - `gpu.mclock` and `cpu.dc` as unbounded naturals, so the sum `mclock + dc` never wraps. After each step `mclock` is 0 or below the mode's threshold (at most 114), so only an elapsed-cycle count near the integer width would make a difference.

The model keeps the source's behaviour where it differs from the obvious design:

- **The scheduler.** On expiry, `mclock` is reset to 0 rather than reduced by the threshold, and one call makes at most one transition. Surplus cycles are lost (`Timing.StepDropsSurplus`).
- **The background line buffer.** `bgScanline` is written at `160 - col` (gpu.c:350) but read at the sprite's `px` (gpu.c:418). The background pass therefore only fills entries 153-160. Every other entry keeps whatever the uninitialised C array held. That content is the parameter `stale` of `RenderScanline` and `Step`, and `Render.LineBufferContents` states what each entry holds.
- **Sprite x.** `px` is a `uint8_t`, so a sprite's screen column wraps modulo 256.
- **Sprite overlap.** The sprite loop runs from entry 0 up to entry 39 and each drawn pixel overwrites the frame buffer. Where sprites overlap, the highest-numbered one that draws a pixel is the one seen (`Render.LastDrawer`, `Render.RenderedPixel`). The obvious design would show the lowest-numbered one; the model follows the loop.
- **Write-only offsets.** Offsets 6-9 (DMA and palettes) read as 0, because the read switch has no case for them.

## Model

| member | source | states |
|---|---|---|
| Gpu.Gpu.constructor | gpu.c:76-107 | the first call on the zero-initialised global: HBLANK, clock 0, line, scroll and flags 0 as assigned; coincidence line, enables and palettes 0 as the global starts out; zeroed memories, tile cache and frame buffer; every sprite at (y -16, x -8, tile 0, flags 0); the reachable-state invariant holds |
| Gpu.Gpu.Reinit | gpu.c:76-107 | a later call: the same assigned registers, memories and sprite table as the first, while the coincidence line, the enables and both palettes keep their values; the invariant holds |
| Gpu.Gpu.ClearMemories | gpu.c:86-106 | video RAM, attribute memory, the tile cache and the frame buffer become all zero and every sprite the default one; the palettes are untouched |
| Gpu.Gpu.UpdateTile | gpu.c:431-444 | the cache afterwards is `UpdatedCache`: the addressed row of the addressed tile is re-decoded from vram[addr] and vram[addr+1], and no other cell changes |
| Tiles.UpdatedCacheCell | gpu.c:434-442 | cell (t, r, c) of the cache after an update is bit 7-c of vram[addr] plus twice bit 7-c of vram[addr+1] when t = (addr>>4)&0x1FF and r = (addr>>1)&7, otherwise the old cell |
| Tiles.UpdatedCacheIdempotent | gpu.c:431-444 | updating the same row twice gives the same cache as once |
| Tiles.SolidRows | gpu.c:439-443 | planes (0xFF,0x00) decode to all 1s, (0x00,0xFF) to all 2s, (0xFF,0xFF) to all 3s, (0,0) to all 0s |
| Tiles.EvenAddressRow | gpu.c:434-435 | for an even address, the (tile, row) it selects stores its low plane exactly at that address |
| CacheMirror.UpdatedCacheMirrors | gpu.c:431-444 | if the cache is the planar decode of video RAM, it still is after a byte is stored at an even address and that row is re-decoded |
| CacheMirror.InitialCacheMirrorsZeroVram | gpu.c:89-98 | the all-zero cache is the decode of all-zero video RAM, so the cache starts out as the decode of video RAM |
| CacheMirror.OddAddressDiverges | gpu.c:434-442 | after an odd-address write the re-decode pairs vram[addr] with vram[addr+1], the next row's low plane: bytes 00 FF 00 at offsets 0-2 give colour 1 across row 0 of tile 0, where the decode of video RAM gives colour 2 |
| Tiles.DecodeEncodeRow | gpu.c:439-443 | every row of eight colour indices is the decode of some pair of plane bytes (decode after encode is the identity) |
| Tiles.EncodeDecodeRow | gpu.c:439-443 | the decode is injective: encoding a decoded row gives back the two plane bytes |
| Gpu.Gpu.BuildSpriteData | gpu.c:446-470 | the sprite table afterwards is `OamWrite` of the old table |
| Sprites.SetFieldReadBack | gpu.c:450-468 | the written field holds the written byte (y and x biased by -16 and -8) and the other three fields are unchanged |
| Sprites.OamWriteFrame | gpu.c:446-470 | only sprite addr>>2 changes, only in field addr&3, and an address of 160 or more changes nothing |
| Sprites.OamWriteMirrors | gpu.c:446-470 | if the table is the decode of attribute memory, it still is after the same byte is stored in both |
| Sprites.OamWriteIdempotent | gpu.c:446-470 | storing the same byte at the same address twice gives the same table as storing it once |
| Sprites.InitialTableMirrorsZeroOam | gpu.c:100-106 | the initial sprite table is the decode of all-zero attribute memory |
| Sprites.ExampleRecord | gpu.c:451-466 | the record (20, 10, 5, 0x80) decodes to y 4, x 2, tile 5, priority bit set |
| Gpu.Gpu.ReadIOByte | gpu.c:129-161 | the byte read is `IoRead` of the object's register state, enables and palettes |
| Registers.StatusFields | gpu.c:136-143 | the status byte's low two bits are the mode, bit 2 is line == lineComp, bits 3-6 are the four enables and bit 7 is clear |
| Registers.ReadAfterWrite | gpu.c:132-197 | reading offset 0, 2, 3 or 5 after writing it returns the written byte |
| Registers.StatusWriteRoundTrip | gpu.c:171-176 | a write to offset 1 changes only the four enables, and the status byte then shows bits 3-6 of the written byte with its low three bits unchanged |
| Registers.LineWriteResets | gpu.c:187-192 | writing offset 4 sets the line to 0 whatever the byte, and changes nothing else |
| Registers.UnknownOffsets | gpu.c:157-160 | offsets 6 and above read as 0, and writes at offsets 10 and above change nothing |
| Registers.WriteKeepsTimerInv | gpu.c:163-227 | no register write changes the mode, and every write keeps the reachable-state invariant |
| Registers.PackUnpackPalette | gpu.c:205-209 | the written byte is the sum of entry i shifted left by 2i |
| Registers.UnpackPackPalette | gpu.c:205-209 | the four 2-bit entries are recovered from their packed byte, which is below 256 |
| Registers.PaletteWrites | gpu.c:205-221 | offset 7 sets the background palette, 8 the first and 9 the second object palette, each entry i to (b >> 2i) & 3, the other object palette unchanged |
| Registers.DmaFromPage80 | gpu.c:199-203 | a DMA from page 0x80 copies 0x8000-0x809F to 0xFE00-0xFE9F in order and leaves every other address alone |
| Gpu.Gpu.WriteIOByte | gpu.c:163-227 | the register state afterwards is `IoWrite` of the old one, the bus is `Dma` of the old bus for offset 6 and unchanged otherwise, the clock is unchanged and the invariant is kept |
| Gpu.Gpu.RunDma | gpu.c:199-203 | the bus afterwards is `Dma(old bus, page)`: bytes (page<<8)+i copied to 0xFE00+i for i in 0..0x9F |
| Gpu.Gpu.LoadPalette | gpu.c:205-221 | the four palette entries at the base become the unpacking of b; the other entries are unchanged |
| Gpu.Gpu.SetPixelColor | gpu.c:229-239 | off-screen coordinates leave the frame buffer unchanged; otherwise only pixel y*160+x changes, to the shade's grey level |
| Gpu.Gpu.RenderScanline | gpu.c:311-429 | the frame buffer afterwards is `RenderSpec` of the old buffer, the state and the line buffer's initial contents |
| Gpu.Gpu.RenderBackground | gpu.c:319-374 | the frame buffer after the 160-pixel loop is `BgPass`, and the line buffer is `BgBuffer` |
| Gpu.Gpu.FetchMapTile | gpu.c:338-345 | the tile number read from the map is the map byte, plus 256 when the signed bank is selected and the byte is below 128 |
| Gpu.Gpu.DrawBackgroundPixel | gpu.c:350-360 | pixel i of the line gets the palette shade of the background-map pixel under it, and the line buffer gets its colour index at 160 minus its in-tile column |
| Render.CursorStart | gpu.c:322-335 | the loop's starting map row, tile row, map column and in-tile column are those of screen pixel 0 |
| Render.CursorAdvance | gpu.c:362-372 | advancing the column, and past column 7 the map column modulo 32, moves the cursor to the next screen pixel |
| Render.BgBufferStep | gpu.c:350 | one background step stores the pixel's colour index at 160 minus its in-tile column and changes no other buffer entry |
| Render.BgPassCell | gpu.c:349-373 | after n background pixels, pixel x < n of the current line holds the palette shade of map pixel ((scx+x)&255, (line+scy)&255), and all other pixels are unchanged |
| Render.LineBufferContents | gpu.c:350 | entries 0-152 of the buffer the sprite pass reads are never written by the background; entry 153+d holds the colour index of the last pixel (one of 152-159) whose in-tile column is 7-d |
| Gpu.Gpu.RenderSprites | gpu.c:376-428 | the frame buffer after the 40-sprite loop is `SpriteSteps` over all 320 sprite steps |
| Gpu.Gpu.DrawSpriteRow | gpu.c:385-426 | drawing the eight columns of a sprite on the line performs the next eight sprite steps |
| Gpu.Gpu.DrawSpritePixel | gpu.c:395-423 | one column writes the sprite shade at its wrapped x exactly when `Draws` holds (on screen, colour not 0, no priority or buffer entry 0), else nothing |
| Render.SpriteRow | gpu.c:385-391 | a sprite covering the line shows a row in 0..h-1, counted from the bottom when y-flipped |
| Render.TallSpriteRows | gpu.c:406-413 | an 8x16 sprite takes rows 0-7 from tile&0xFE and rows 8-15 from tile|1 at row%8 |
| Render.FlipMirrors | gpu.c:395-399 | column c of an x-flipped sprite lands where column 7-c of the same sprite unflipped lands |
| Render.SpriteStepsSkip | gpu.c:385 | a sprite that does not cover the line draws nothing |
| Render.LastDrawer | gpu.c:382-427 | the step found is one that draws at x with no later step drawing there; none found means no step draws there |
| Render.SpriteStepsPixel | gpu.c:382-427 | after the sprite steps, pixel x of the line holds the shade of the last step that draws there, or its old value |
| Render.SpriteStepsOtherRows | gpu.c:376-428 | the sprite pass writes no pixel outside the current line |
| Render.RenderOtherRows | gpu.c:311-429 | rendering a line changes no pixel outside that line |
| Render.RenderedPixel | gpu.c:311-429 | each pixel of the rendered line is the shade of the highest-numbered sprite that draws there; if none does, the background shade when the background is on; otherwise it is unchanged |
| Gpu.Gpu.Step | gpu.c:486-554 | the new timer, interrupt flags and frame event are those of `StepTimer`, the line is rendered exactly when `StepTimer` says so, the other registers and enables are unchanged, and the invariant is kept |
| Gpu.Gpu.StepHBlank | gpu.c:489-518 | in HBLANK the new timer, flags and frame event are those of `StepTimer`, and nothing is rendered |
| Gpu.Gpu.EndHBlank | gpu.c:490-517 | the HBLANK expiry: line+1, coincidence interrupt, then VBLANK with the V-blank interrupt and frame at line 144 or OAM otherwise, as `HBlankExpiry` |
| Gpu.Gpu.StepVBlank | gpu.c:520-534 | in VBLANK the new timer and flags are those of `StepTimer` |
| Gpu.Gpu.StepOam | gpu.c:536-541 | in OAM the new timer is that of `StepTimer`, and no interrupt is requested |
| Gpu.Gpu.StepVram | gpu.c:543-552 | in VRAM the new timer and flags are those of `StepTimer`, and the line is rendered exactly on expiry |
| Timing.InitialTimerInv | gpu.c:79-81 | the initial HBLANK, line 0 state satisfies the invariant |
| Timing.StepClock | gpu.c:487-491 | below the threshold only the clock moves; at or past it the clock is reset to 0 |
| Timing.StepFollowsCycle | gpu.c:486-554 | one expiry makes exactly one transition: OAM to VRAM, VRAM to HBLANK, HBLANK to VBLANK at line 144 and to OAM otherwise, VBLANK to line+1 or to OAM at line 0 after 153 |
| Timing.StepKeepsInv | gpu.c:486-554 | each step keeps "line <= 153, and line <= 143 outside VBLANK" |
| Timing.StepOnlyRaises | gpu.c:495-550 | the interrupt flags only gain requests, and only V-blank and LCD status |
| Timing.StepEvents | gpu.c:500-547 | V-blank is requested and the frame handed over exactly when VBLANK is entered; a line is rendered exactly when HBLANK is entered |
| Timing.StepLcdStat | gpu.c:495-550 | LCD status is requested exactly on entering a mode whose enable is on, or on an HBLANK expiry onto the compare line with the coincidence enable on |
| Timing.StepKeepsOtherSources | gpu.c:486-554 | the timer, serial and joypad requests are untouched |
| Timing.StepDropsSurplus | gpu.c:536-546 | 63 cycles from the start of OAM reach only the start of VRAM, where 20 then 43 cycles reach HBLANK |

## Left out

- `initDisplay`, `renderFrame` and the SDL window, renderer and texture globals are presentation through a foreign library. `renderFrame()` is only the `frameReady` result of `Step`.
- `setDebugPixelColor`, `renderDebugBackground` and `printGPUDebug` are left out: they are debug output. So are the `printf` calls in `gpuWriteIOByte`, which are logging.
- `freeGPU` and the nested `malloc`/`calloc` of `initGPU` are memory management. The model has flat fixed-size arrays with the same initial values.
- The 32-bit ARGB pixel format is left out. The frame buffer holds the grey level that the source packs three times into each pixel.
- The memory bus (`readByte`/`writeByte`) is not part of this model. The DMA copy goes over an abstract 64 KiB array. The bus's routing of writes into `gpuBuildSpriteData` and `updateTile` is not modelled, so the copy into 0xFE00 does not reach `oam` or the sprite table here.
- `gbemu.h` is not part of this model. The constants it defines are the values listed above.
- Gpu.Gpu.UpdateTile: keeps the cache equal to the decode of video RAM only for writes at even addresses (`CacheMirror.UpdatedCacheMirrors`). At an odd address, the high plane of a row, the source decodes vram[addr] as the low plane and vram[addr+1], the next row's low plane, as the high plane (`CacheMirror.OddAddressDiverges`). The caller is not part of this model, so whether it rounds the address down to even is not known here, and the model keeps the source's pairing.
- Gpu.Gpu.UpdateTile: requires addr + 1 < 0x2000. In the source, vram[addr+1] at the last address reads one byte past the array, and whether the caller can pass that address is not visible here.
- Gpu.Gpu.constructor: models the first `initGPU` on the zero-initialised global; a later call is `Gpu.Gpu.Reinit`. `Reinit` clears the existing arrays in place, where the source allocates new zeroed ones and drops the old ones without freeing them.
- Gpu.Gpu.Step: the CPU's interrupt-flag register is a set of sources rather than a byte. The three bits above bit 4 are not represented.
