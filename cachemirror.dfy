/**
 * The tile cache as a mirror of video RAM: the cache every cell of which is
 * the planar decode of the byte pair storing its row, and how far the
 * re-decode done after each video RAM write keeps the cache equal to it.
 */
module CacheMirror {
  import opened Bytes
  import opened Tiles

  /** Video RAM offset of the low plane of the row that cache cell k belongs to. */
  function RowAddr(k: int): (a: int)
    requires 0 <= k < CacheSize
    ensures 0 <= a && a + 1 < VramSize && a % 2 == 0
  {
    16 * (k / 64) + 2 * ((k / 8) % 8)
  }

  /** Cache cell k as video RAM describes it: the planar decode of the byte
      pair storing its row. */
  function DecodedCell(vram: seq<byte>, k: int): Colour
    requires |vram| == VramSize && 0 <= k < CacheSize
  {
    Pixel(vram[RowAddr(k)], vram[RowAddr(k) + 1], k % 8)
  }

  /** The cache that video RAM describes. */
  function DecodeCache(vram: seq<byte>): (cache: seq<Colour>)
    requires |vram| == VramSize
    ensures |cache| == CacheSize
  {
    seq(CacheSize, k requires 0 <= k < CacheSize => DecodedCell(vram, k))
  }

  /** Cell k lies in the row that an even address selects exactly when its
      row is stored at that address. */
  lemma RowAddrSelects(k: int, addr: nat)
    requires 0 <= k < CacheSize && addr < VramSize && addr % 2 == 0
    ensures var base := CacheIndex(TileOf(addr), RowOf(addr), 0);
      RowAddr(k) + 1 != addr &&
      (RowAddr(k) == addr <==> base <= k < base + 8) &&
      (base <= k < base + 8 ==> k - base == k % 8)
  {
    var t, r, c := k / 64, (k / 8) % 8, k % 8;
    assert k == 64 * t + 8 * r + c;
    assert RowAddr(k) == 2 * (8 * t + r) && addr == 2 * (addr / 2);
    EvenAddressRow(addr);
    var base := CacheIndex(TileOf(addr), RowOf(addr), 0);
    if RowAddr(k) == addr {
      assert 8 * t + r == 8 * TileOf(addr) + RowOf(addr);
      assert t == TileOf(addr) && r == RowOf(addr);
    }
    if base <= k < base + 8 {
      assert k == 8 * (8 * TileOf(addr) + RowOf(addr)) + (k - base);
      assert k / 8 == 8 * TileOf(addr) + RowOf(addr);
      assert t == TileOf(addr) && r == RowOf(addr);
    }
  }

  /** Cell k of the cache after a row update: the re-decoded pixel inside the
      selected row, the old cell outside it. */
  lemma UpdatedCacheAt(cache: seq<Colour>, vram: seq<byte>, addr: nat, k: int)
    requires |cache| == CacheSize && |vram| == VramSize && addr + 1 < VramSize && 0 <= k < CacheSize
    ensures var base := CacheIndex(TileOf(addr), RowOf(addr), 0);
      UpdatedCache(cache, vram, addr)[k] ==
        if base <= k < base + 8 then Pixel(vram[addr], vram[addr + 1], k - base) else cache[k]
  {
  }

  /** One cell of the mirror property below. */
  lemma MirrorCell(vram: seq<byte>, b: byte, addr: nat, k: int)
    requires |vram| == VramSize && addr < VramSize && addr % 2 == 0 && 0 <= k < CacheSize
    ensures UpdatedCache(DecodeCache(vram), vram[addr := b], addr)[k] == DecodeCache(vram[addr := b])[k]
  {
    var after := vram[addr := b];
    UpdatedCacheAt(DecodeCache(vram), after, addr, k);
    RowAddrSelects(k, addr);
    var a := RowAddr(k);
    var base := CacheIndex(TileOf(addr), RowOf(addr), 0);
    assert DecodeCache(after)[k] == Pixel(after[a], after[a + 1], k % 8);
    if !(base <= k < base + 8) {
      assert DecodeCache(vram)[k] == Pixel(vram[a], vram[a + 1], k % 8);
      assert a != addr && a + 1 != addr;
    }
  }

  /** A write of b at an even (low-plane) address, followed by the re-decode
      of the row it selects, keeps the cache equal to the decode of video RAM. */
  lemma UpdatedCacheMirrors(vram: seq<byte>, b: byte, addr: nat)
    requires |vram| == VramSize && addr < VramSize && addr % 2 == 0
    ensures UpdatedCache(DecodeCache(vram), vram[addr := b], addr) == DecodeCache(vram[addr := b])
  {
    var updated := UpdatedCache(DecodeCache(vram), vram[addr := b], addr);
    var expected := DecodeCache(vram[addr := b]);
    forall k | 0 <= k < CacheSize
      ensures updated[k] == expected[k]
    {
      MirrorCell(vram, b, addr, k);
    }
  }

  /** The all-zero cache `initGPU` allocates is the decode of all-zero video RAM. */
  lemma InitialCacheMirrorsZeroVram()
    ensures DecodeCache(seq(VramSize, _ => 0)) == seq(CacheSize, _ => 0)
  {
    var d := DecodeCache(seq(VramSize, _ => 0));
    forall k | 0 <= k < CacheSize
      ensures d[k] == 0
    {
      FullAndEmptyBytes(7 - k % 8);
    }
  }

  /** A pixel whose only set plane is the low one has colour 1; one whose
      only set plane is the high one has colour 2. */
  lemma SinglePlaneColours(col: int)
    requires 0 <= col < 8
    ensures Pixel(0xFF, 0, col) == 1 && Pixel(0, 0xFF, col) == 2
  {
    FullAndEmptyBytes(7 - col);
  }

  /** Address 1 selects the first row of tile 0. */
  lemma AddressOneRow()
    ensures TileOf(1) == 0 && RowOf(1) == 0
  {
  }

  /** The row an address selects as re-decoded from that address. */
  lemma ReDecodedRow(cache: seq<Colour>, vram: seq<byte>, addr: nat, c: int)
    requires |cache| == CacheSize && |vram| == VramSize && addr + 1 < VramSize && 0 <= c < 8
    ensures UpdatedCache(cache, vram, addr)[CacheIndex(TileOf(addr), RowOf(addr), c)] ==
      Pixel(vram[addr], vram[addr + 1], c)
  {
    UpdatedCacheCell(cache, vram, addr, TileOf(addr), RowOf(addr), c);
  }

  /** The first row of tile 0 as video RAM describes it. */
  lemma DecodedFirstRow(vram: seq<byte>, c: int)
    requires |vram| == VramSize && 0 <= c < 8
    ensures DecodeCache(vram)[c] == Pixel(vram[0], vram[1], c)
  {
    assert RowAddr(c) == 0;
  }

  /** At an odd (high-plane) address the re-decode pairs the written byte
      with the next row's low plane: once 0xFF is stored at offset 1 between
      zero bytes at offsets 0 and 2, the re-decode for address 1 puts colour 1
      in every cell of the first row of tile 0, whatever the cache held, where
      the decode of video RAM has colour 2. */
  lemma OddAddressDiverges(cache: seq<Colour>, vram: seq<byte>, col: int)
    requires |cache| == CacheSize && |vram| == VramSize && 0 <= col < 8
    requires vram[0] == 0 && vram[1] == 0xFF && vram[2] == 0
    ensures UpdatedCache(cache, vram, 1)[CacheIndex(0, 0, col)] == 1
    ensures DecodeCache(vram)[CacheIndex(0, 0, col)] == 2
  {
    ReDecodedRow(cache, vram, 1, col);
    AddressOneRow();
    DecodedFirstRow(vram, col);
    SinglePlaneColours(col);
  }
}
