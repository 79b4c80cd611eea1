/**
 * The graphics register file as the CPU sees it: byte reads and writes at
 * offsets 0-9 of the control block, and the DMA transfer that a write to
 * offset 6 starts.
 */
module Registers {
  import opened Bytes
  import opened Tiles
  import opened Timing

  /** The register block `gpu.r`. */
  datatype Regs = Regs(flags: byte, scx: byte, scy: byte, line: byte, lineComp: byte)

  /** Everything register I/O reads or writes: the mode, the register block,
      the four interrupt enables, the background palette and the two object
      palettes (entries 0-3 and 4-7). */
  datatype IoState = IoState(mode: Mode, r: Regs, en: StatEnables, bgPal: seq<Colour>, objPal: seq<Colour>)

  predicate WfIo(s: IoState)
  {
    |s.bgPal| == 4 && |s.objPal| == 8
  }

  /** The composed LCD status byte read at offset 1. */
  function StatusByte(mode: Mode, r: Regs, en: StatEnables): byte
  {
    ModeBits(mode) +
    (if r.line == r.lineComp then 0x04 else 0x00) +
    (if en.hBlank then 0x08 else 0x00) +
    (if en.vBlank then 0x10 else 0x00) +
    (if en.oam then 0x20 else 0x00) +
    (if en.coin then 0x40 else 0x00)
  }

  /** The enables a write of b to offset 1 sets: bits 3, 4, 5 and 6. */
  function EnablesFrom(b: byte): StatEnables
  {
    StatEnables(Bit(b, 3) == 1, Bit(b, 4) == 1, Bit(b, 5) == 1, Bit(b, 6) == 1)
  }

  /** Palette entry i of a packed palette byte: `(b >> (i * 2)) & 3`. */
  function PaletteEntry(b: byte, i: int): Colour
    requires 0 <= i < 4
  {
    Shr(b, i * 2) % 4
  }

  function UnpackPalette(b: byte): (p: seq<Colour>)
    ensures |p| == 4
  {
    seq(4, i requires 0 <= i < 4 => PaletteEntry(b, i))
  }

  /** The byte whose four 2-bit groups, entry 0 lowest, are the palette. */
  function PackPalette(p: seq<Colour>): int
    requires |p| == 4
  {
    p[0] as int + 4 * (p[1] as int) + 16 * (p[2] as int) + 64 * (p[3] as int)
  }

  /** `gpuReadIOByte(addr)`. */
  function IoRead(s: IoState, addr: word): byte
  {
    match addr
    case 0 => s.r.flags
    case 1 => StatusByte(s.mode, s.r, s.en)
    case 2 => s.r.scy
    case 3 => s.r.scx
    case 4 => s.r.line
    case 5 => s.r.lineComp
    case _ => 0
  }

  /** `gpuWriteIOByte(b, addr)`, apart from the bus traffic of DMA (see Dma). */
  function IoWrite(s: IoState, b: byte, addr: word): (s': IoState)
    requires WfIo(s)
    ensures WfIo(s')
  {
    match addr
    case 0 => s.(r := s.r.(flags := b))
    case 1 => s.(en := EnablesFrom(b))
    case 2 => s.(r := s.r.(scy := b))
    case 3 => s.(r := s.r.(scx := b))
    case 4 => s.(r := s.r.(line := 0))
    case 5 => s.(r := s.r.(lineComp := b))
    case 7 => s.(bgPal := UnpackPalette(b))
    case 8 => s.(objPal := UnpackPalette(b) + s.objPal[4..])
    case 9 => s.(objPal := s.objPal[..4] + UnpackPalette(b))
    case _ => s
  }

  /** The 64 KiB bus after the DMA a write of `page` to offset 6 starts: the
      160 bytes at page << 8 are copied to 0xFE00-0xFE9F, nothing else changes. */
  function Dma(mem: seq<byte>, page: byte): (m: seq<byte>)
    requires |mem| == 0x1_0000
    ensures |m| == 0x1_0000
  {
    seq(0x1_0000, k requires 0 <= k < 0x1_0000 =>
      if 0xFE00 <= k < 0xFEA0 then mem[page * 0x100 + (k - 0xFE00)] else mem[k])
  }

  /** Reading offset 0, 2, 3 or 5 after writing it returns the written byte. */
  lemma ReadAfterWrite(s: IoState, b: byte, addr: word)
    requires WfIo(s) && (addr == 0 || addr == 2 || addr == 3 || addr == 5)
    ensures IoRead(IoWrite(s, b, addr), addr) == b
  {
  }

  /** The status byte decodes back into the mode, the coincidence bit and the
      four enables, and bit 7 is clear. */
  lemma StatusFields(s: IoState)
    ensures var v := IoRead(s, 1);
      v % 4 == ModeBits(s.mode) &&
      v % 8 == ModeBits(s.mode) + (if s.r.line == s.r.lineComp then 4 else 0) &&
      (Bit(v, 2) == 1 <==> s.r.line == s.r.lineComp) &&
      (Bit(v, 3) == 1 <==> s.en.hBlank) &&
      (Bit(v, 4) == 1 <==> s.en.vBlank) &&
      (Bit(v, 5) == 1 <==> s.en.oam) &&
      (Bit(v, 6) == 1 <==> s.en.coin) &&
      v < 0x80
  {
    var v := IoRead(s, 1);
    ShrAsDiv(v);
    DigitsOf(ModeBits(s.mode), if s.r.line == s.r.lineComp then 1 else 0,
      if s.en.hBlank then 1 else 0, if s.en.vBlank then 1 else 0,
      if s.en.oam then 1 else 0, if s.en.coin then 1 else 0);
  }

  /** The digits of m + 4a + 8b + 16c + 32d + 64e, for m < 4 and single bits. */
  lemma DigitsOf(m: int, a: int, b: int, c: int, d: int, e: int)
    requires 0 <= m < 4 && 0 <= a < 2 && 0 <= b < 2 && 0 <= c < 2 && 0 <= d < 2 && 0 <= e < 2
    ensures var v := m + 4 * a + 8 * b + 16 * c + 32 * d + 64 * e;
      v % 4 == m && v % 8 == m + 4 * a && (v / 4) % 2 == a && (v / 8) % 2 == b && (v / 16) % 2 == c &&
      (v / 32) % 2 == d && (v / 64) % 2 == e && v < 0x80
  {
    var v := m + 4 * a + 8 * b + 16 * c + 32 * d + 64 * e;
    assert v == 8 * (b + 2 * c + 4 * d + 8 * e) + (m + 4 * a);
    assert v / 4 == a + 2 * b + 4 * c + 8 * d + 16 * e;
    assert v / 8 == b + 2 * c + 4 * d + 8 * e;
    assert v / 16 == c + 2 * d + 4 * e;
    assert v / 32 == d + 2 * e;
    assert v / 64 == e;
  }

  /** A write to offset 1 changes only the four enables, and reading the
      status back shows bits 3-6 of the written byte in bits 3-6. */
  lemma StatusWriteRoundTrip(s: IoState, b: byte)
    requires WfIo(s)
    ensures IoWrite(s, b, 1) == s.(en := EnablesFrom(b))
    ensures var v := IoRead(IoWrite(s, b, 1), 1);
      v % 8 == IoRead(s, 1) % 8 &&
      Bit(v, 3) == Bit(b, 3) && Bit(v, 4) == Bit(b, 4) && Bit(v, 5) == Bit(b, 5) && Bit(v, 6) == Bit(b, 6)
  {
    var s' := IoWrite(s, b, 1);
    StatusFields(s');
    StatusFields(s);
  }

  /** Writing offset 4 sets the line to 0 whatever byte is written, and
      changes nothing else. */
  lemma LineWriteResets(s: IoState, b: byte)
    requires WfIo(s)
    ensures IoWrite(s, b, 4) == s.(r := s.r.(line := 0))
    ensures IoRead(IoWrite(s, b, 4), 4) == 0
  {
  }

  /** Offsets past 9 read as 0 and ignore writes. Offsets 6-9 are write-only:
      they read as 0 too. */
  lemma UnknownOffsets(s: IoState, b: byte, addr: word)
    requires WfIo(s) && addr >= 6
    ensures IoRead(s, addr) == 0
    ensures addr >= 10 ==> IoWrite(s, b, addr) == s
  {
  }

  /** Register writes keep the scheduler's reachable-state invariant: the only
      change they make to the line is to reset it to 0. */
  lemma WriteKeepsTimerInv(s: IoState, b: byte, addr: word, mclock: nat)
    requires WfIo(s) && Inv(Timer(s.mode, mclock, s.r.line))
    ensures var s' := IoWrite(s, b, addr);
      s'.mode == s.mode && Inv(Timer(s'.mode, mclock, s'.r.line))
  {
  }

  /** Unpacking then packing a palette byte gives the byte back. */
  lemma PackUnpackPalette(b: byte)
    ensures PackPalette(UnpackPalette(b)) == b
  {
    ShrAsDiv(b);
    assert b / 4 / 4 == b / 16 && b / 16 / 4 == b / 64;
    assert b == 4 * (b / 4) + b % 4;
    assert b / 4 == 4 * (b / 16) + (b / 4) % 4;
    assert b / 16 == 4 * (b / 64) + (b / 16) % 4;
    assert (b / 64) % 4 == b / 64;
  }

  /** Packing then unpacking four colour indices gives them back. */
  lemma UnpackPackPalette(p: seq<Colour>)
    requires |p| == 4
    ensures 0 <= PackPalette(p) < 0x100
    ensures UnpackPalette(PackPalette(p)) == p
  {
    var b := PackPalette(p);
    PaletteDigits(p[0], p[1], p[2], p[3]);
    ShrAsDiv(b);
    var u := UnpackPalette(b);
    assert u[0] == p[0] && u[1] == p[1] && u[2] == p[2] && u[3] == p[3];
  }

  /** The base-4 digits of p0 + 4p1 + 16p2 + 64p3. */
  lemma PaletteDigits(p0: int, p1: int, p2: int, p3: int)
    requires 0 <= p0 < 4 && 0 <= p1 < 4 && 0 <= p2 < 4 && 0 <= p3 < 4
    ensures var b := p0 + 4 * p1 + 16 * p2 + 64 * p3;
      0 <= b < 0x100 && b % 4 == p0 && (b / 4) % 4 == p1 && (b / 16) % 4 == p2 && (b / 64) % 4 == p3
  {
    var b := p0 + 4 * p1 + 16 * p2 + 64 * p3;
    assert b == p0 + 4 * (p1 + 4 * p2 + 16 * p3);
    assert b / 4 == p1 + 4 * (p2 + 4 * p3);
    assert b / 16 == p2 + 4 * p3;
    assert b / 64 == p3;
  }

  /** A palette write sets entry i to `(b >> 2i) & 3`: the palette at offset 7,
      the first or second object palette at offsets 8 and 9, the other object
      palette untouched; the written byte is recovered by packing. */
  lemma PaletteWrites(s: IoState, b: byte)
    requires WfIo(s)
    ensures IoWrite(s, b, 7).bgPal == UnpackPalette(b) && PackPalette(UnpackPalette(b)) == b
    ensures IoWrite(s, b, 8).objPal[..4] == UnpackPalette(b) && IoWrite(s, b, 8).objPal[4..] == s.objPal[4..]
    ensures IoWrite(s, b, 9).objPal[4..] == UnpackPalette(b) && IoWrite(s, b, 9).objPal[..4] == s.objPal[..4]
  {
    PackUnpackPalette(b);
  }

  /** DMA from page 0x80 fills 0xFE00-0xFE9F with the bytes at 0x8000-0x809F,
      in order, and leaves every other address alone. */
  lemma DmaFromPage80(mem: seq<byte>)
    requires |mem| == 0x1_0000
    ensures Dma(mem, 0x80)[0xFE00..0xFEA0] == mem[0x8000..0x80A0]
    ensures forall k :: 0 <= k < 0x1_0000 && !(0xFE00 <= k < 0xFEA0) ==> Dma(mem, 0x80)[k] == mem[k]
  {
  }
}
