/**
 * The decoded tile cache: 512 tiles of 8 x 8 colour indices, kept as one flat
 * sequence indexed by `tile * 64 + row * 8 + col`. A tile row is stored in
 * video RAM as two bit planes (2 bits per pixel, planar): the low byte gives
 * bit 0 of each pixel, the high byte bit 1, and the most significant bit of
 * each byte is column 0.
 */
module Tiles {
  import opened Bytes

  /** A 2-bit colour index. */
  type Colour = c: int | 0 <= c < 4

  const TileCount: nat := 512
  const CacheSize: nat := 512 * 64
  const VramSize: nat := 0x2000

  /** Tile addressed by a video RAM offset: `(addr >> 4) & 0x1FF`. */
  function TileOf(addr: nat): int
  {
    (addr / 16) % 512
  }

  /** Row inside that tile: `(addr >> 1) & 0x07`. */
  function RowOf(addr: nat): int
  {
    (addr / 2) % 8
  }

  /** Position of cell (tile, row, col) in the flat cache. */
  function CacheIndex(tile: int, row: int, col: int): int
  {
    tile * 64 + row * 8 + col
  }

  /** The colour index of column col of the row stored as planes (lo, hi). */
  function Pixel(lo: byte, hi: byte, col: int): Colour
    requires 0 <= col < 8
  {
    Bit(lo, 7 - col) + 2 * Bit(hi, 7 - col)
  }

  /** The eight colour indices of the row stored as planes (lo, hi). */
  function DecodeRow(lo: byte, hi: byte): (row: seq<Colour>)
    ensures |row| == 8
  {
    seq(8, c requires 0 <= c < 8 => Pixel(lo, hi, c))
  }

  /** The cache with row `row` of tile `tile` replaced by `cells`. */
  function WithRow(cache: seq<Colour>, tile: int, row: int, cells: seq<Colour>): (r: seq<Colour>)
    requires |cache| == CacheSize && 0 <= tile < TileCount && 0 <= row < 8 && |cells| <= 8
    ensures |r| == CacheSize
  {
    var base := CacheIndex(tile, row, 0);
    seq(CacheSize, k requires 0 <= k < CacheSize =>
      if base <= k < base + |cells| then cells[k - base] else cache[k])
  }

  /** The cache after `updateTile(addr)`: the row of tile TileOf(addr) numbered
      RowOf(addr) is re-decoded from the planes vram[addr] and vram[addr + 1]. */
  function UpdatedCache(cache: seq<Colour>, vram: seq<byte>, addr: nat): (r: seq<Colour>)
    requires |cache| == CacheSize && |vram| == VramSize && addr + 1 < VramSize
    ensures |r| == CacheSize
  {
    WithRow(cache, TileOf(addr), RowOf(addr), DecodeRow(vram[addr], vram[addr + 1]))
  }

  /** The cache row is the decode of the two bytes, and no other cell changes. */
  lemma UpdatedCacheCell(cache: seq<Colour>, vram: seq<byte>, addr: nat, tile: int, row: int, col: int)
    requires |cache| == CacheSize && |vram| == VramSize && addr + 1 < VramSize
    requires 0 <= tile < TileCount && 0 <= row < 8 && 0 <= col < 8
    ensures UpdatedCache(cache, vram, addr)[CacheIndex(tile, row, col)] ==
      if tile == TileOf(addr) && row == RowOf(addr)
      then Bit(vram[addr], 7 - col) + 2 * Bit(vram[addr + 1], 7 - col)
      else cache[CacheIndex(tile, row, col)]
  {
    var base := CacheIndex(TileOf(addr), RowOf(addr), 0);
    var k := CacheIndex(tile, row, col);
    if base <= k < base + 8 {
      assert tile == TileOf(addr) && row == RowOf(addr) && k - base == col;
    }
  }

  /** Re-decoding the same bytes a second time changes nothing. */
  lemma UpdatedCacheIdempotent(cache: seq<Colour>, vram: seq<byte>, addr: nat)
    requires |cache| == CacheSize && |vram| == VramSize && addr + 1 < VramSize
    ensures UpdatedCache(UpdatedCache(cache, vram, addr), vram, addr) == UpdatedCache(cache, vram, addr)
  {
  }

  /** Planes (0xFF, 0x00) give colour 1 everywhere, (0x00, 0xFF) colour 2,
      (0xFF, 0xFF) colour 3 and (0x00, 0x00) colour 0. */
  lemma SolidRows()
    ensures DecodeRow(0xFF, 0x00) == [1, 1, 1, 1, 1, 1, 1, 1]
    ensures DecodeRow(0x00, 0xFF) == [2, 2, 2, 2, 2, 2, 2, 2]
    ensures DecodeRow(0xFF, 0xFF) == [3, 3, 3, 3, 3, 3, 3, 3]
    ensures DecodeRow(0x00, 0x00) == [0, 0, 0, 0, 0, 0, 0, 0]
  {
    forall c | 0 <= c < 8
      ensures Pixel(0xFF, 0x00, c) == 1 && Pixel(0x00, 0xFF, c) == 2
      ensures Pixel(0xFF, 0xFF, c) == 3 && Pixel(0x00, 0x00, c) == 0
    {
      FullAndEmptyBytes(7 - c);
    }
  }

  /** A video RAM write at an even (low-plane) address re-decodes exactly the
      tile row that the byte pair at that address stores. */
  lemma EvenAddressRow(addr: nat)
    requires addr < VramSize && addr % 2 == 0
    ensures 16 * TileOf(addr) + 2 * RowOf(addr) == addr
  {
  }

  // ---- the inverse of the planar decode -------------------------------------

  /** The n low bits of b, most significant first. */
  function Bits(b: nat, n: nat): (s: seq<int>)
    ensures |s| == n && forall i :: 0 <= i < n ==> 0 <= s[i] <= 1
  {
    if n == 0 then [] else Bits(b / 2, n - 1) + [b % 2]
  }

  /** The number whose binary digits, most significant first, are `bits`. */
  function Pack(bits: seq<int>): (v: int)
    requires forall i :: 0 <= i < |bits| ==> 0 <= bits[i] <= 1
    ensures 0 <= v < Pow2(|bits|)
  {
    if bits == [] then 0 else 2 * Pack(bits[..|bits| - 1]) + bits[|bits| - 1]
  }

  lemma {:induction false} BitsAt(b: nat, n: nat, c: nat)
    requires c < n
    ensures Bits(b, n)[c] == Bit(b, n - 1 - c)
  {
    if c == n - 1 {
    } else {
      BitsAt(b / 2, n - 1, c);
    }
  }

  /** Appending a low bit doubles the packed value and adds the bit. */
  lemma PackSnoc(bits: seq<int>, x: int)
    requires forall i :: 0 <= i < |bits| ==> 0 <= bits[i] <= 1
    requires 0 <= x <= 1
    ensures Pack(bits + [x]) == 2 * Pack(bits) + x
  {
    assert (bits + [x])[..|bits|] == bits;
  }

  lemma {:induction false} PackBits(b: nat, n: nat)
    requires b < Pow2(n)
    ensures Pack(Bits(b, n)) == b
  {
    if n > 0 {
      assert b / 2 < Pow2(n - 1);
      PackBits(b / 2, n - 1);
      PackSnoc(Bits(b / 2, n - 1), b % 2);
    }
  }

  lemma {:induction false} BitsPack(bits: seq<int>)
    requires forall i :: 0 <= i < |bits| ==> 0 <= bits[i] <= 1
    ensures Bits(Pack(bits), |bits|) == bits
  {
    if bits != [] {
      var init := bits[..|bits| - 1];
      BitsPack(init);
      assert Pack(bits) / 2 == Pack(init);
      assert bits == init + [bits[|bits| - 1]];
    }
  }

  /** The planes (lo, hi) that store a row of eight colour indices. */
  function EncodeRow(row: seq<Colour>): (planes: (byte, byte))
    requires |row| == 8
  {
    assert Pow2(8) == 256;
    (Pack(seq(8, c requires 0 <= c < 8 => row[c] % 2)),
     Pack(seq(8, c requires 0 <= c < 8 => row[c] / 2)))
  }

  /** Decoding the planes of a row gives the row back. */
  lemma DecodeEncodeRow(row: seq<Colour>)
    requires |row| == 8
    ensures DecodeRow(EncodeRow(row).0, EncodeRow(row).1) == row
  {
    var loBits := seq(8, c requires 0 <= c < 8 => row[c] % 2);
    var hiBits := seq(8, c requires 0 <= c < 8 => row[c] / 2);
    var (lo, hi) := EncodeRow(row);
    BitsPack(loBits);
    BitsPack(hiBits);
    forall c | 0 <= c < 8
      ensures DecodeRow(lo, hi)[c] == row[c]
    {
      BitsAt(lo, 8, c);
      BitsAt(hi, 8, c);
    }
  }

  /** Encoding a decoded row gives the two plane bytes back: the cache row
      loses no information about the video RAM bytes. */
  lemma EncodeDecodeRow(lo: byte, hi: byte)
    ensures EncodeRow(DecodeRow(lo, hi)) == (lo, hi)
  {
    var row := DecodeRow(lo, hi);
    var loBits := seq(8, c requires 0 <= c < 8 => row[c] % 2);
    var hiBits := seq(8, c requires 0 <= c < 8 => row[c] / 2);
    forall c | 0 <= c < 8
      ensures loBits[c] == Bits(lo, 8)[c] && hiBits[c] == Bits(hi, 8)[c]
    {
      BitsAt(lo, 8, c);
      BitsAt(hi, 8, c);
    }
    assert loBits == Bits(lo, 8) && hiBits == Bits(hi, 8);
    assert Pow2(8) == 256;
    PackBits(lo, 8);
    PackBits(hi, 8);
  }
}
