/**
 * The sprite table: 40 decoded descriptors, one per 4-byte record of object
 * attribute memory (OAM). A record holds y, x, tile index and flags; the
 * descriptor stores y and x in screen space, biased by -16 and -8.
 */
module Sprites {
  import opened Bytes

  /** One decoded sprite descriptor (C `sprite_t`). */
  datatype Sprite = Sprite(y: int, x: int, tile: byte, flags: byte)

  const SpriteCount: nat := 40
  const OamSize: nat := 0xA0

  /** The descriptor `initGPU` gives every sprite: the decode of a zero record. */
  const InitialSprite: Sprite := Sprite(-16, -8, 0, 0)

  /** The descriptor after byte b is written to field `field` of its record. */
  function SetField(s: Sprite, field: int, b: byte): Sprite
    requires 0 <= field < 4
  {
    match field
    case 0 => s.(y := b as int - 16)
    case 1 => s.(x := b as int - 8)
    case 2 => s.(tile := b)
    case _ => s.(flags := b)
  }

  /** The attribute byte that field `field` of a descriptor mirrors. */
  function FieldByte(s: Sprite, field: int): int
    requires 0 <= field < 4
  {
    match field
    case 0 => s.y + 16
    case 1 => s.x + 8
    case 2 => s.tile
    case _ => s.flags
  }

  /** The table after `gpuBuildSpriteData(b, addr)`: sprite addr >> 2, field
      addr & 3, when that sprite exists; otherwise the table as it was. */
  function OamWrite(table: seq<Sprite>, b: byte, addr: word): (r: seq<Sprite>)
    requires |table| == SpriteCount
    ensures |r| == SpriteCount
  {
    if addr / 4 < SpriteCount then table[addr / 4 := SetField(table[addr / 4], addr % 4, b)]
    else table
  }

  /** The descriptor of record i of attribute memory. */
  function DecodeSprite(oam: seq<byte>, i: int): Sprite
    requires |oam| == OamSize && 0 <= i < SpriteCount
  {
    Sprite(oam[4 * i] as int - 16, oam[4 * i + 1] as int - 8, oam[4 * i + 2], oam[4 * i + 3])
  }

  /** The whole table that attribute memory describes. */
  function DecodeTable(oam: seq<byte>): (t: seq<Sprite>)
    requires |oam| == OamSize
    ensures |t| == SpriteCount
  {
    seq(SpriteCount, i requires 0 <= i < SpriteCount => DecodeSprite(oam, i))
  }

  /** Writing a field stores exactly that byte in it and leaves the other three. */
  lemma SetFieldReadBack(s: Sprite, field: int, b: byte, other: int)
    requires 0 <= field < 4 && 0 <= other < 4
    ensures FieldByte(SetField(s, field, b), field) == b
    ensures other != field ==> FieldByte(SetField(s, field, b), other) == FieldByte(s, other)
  {
  }

  /** A write changes one field of one sprite: every other sprite is as it was,
      and an address past the 40 records changes nothing. */
  lemma OamWriteFrame(table: seq<Sprite>, b: byte, addr: word, i: int)
    requires |table| == SpriteCount && 0 <= i < SpriteCount
    ensures i != addr / 4 ==> OamWrite(table, b, addr)[i] == table[i]
    ensures addr >= OamSize ==> OamWrite(table, b, addr) == table
    ensures i == addr / 4 ==> forall f :: 0 <= f < 4 && f != addr % 4 ==>
      FieldByte(OamWrite(table, b, addr)[i], f) == FieldByte(table[i], f)
  {
  }

  /** Storing the same byte at the same address twice gives the same table
      as storing it once. */
  lemma OamWriteIdempotent(table: seq<Sprite>, b: byte, addr: word)
    requires |table| == SpriteCount
    ensures OamWrite(OamWrite(table, b, addr), b, addr) == OamWrite(table, b, addr)
  {
  }

  /** If the table mirrors attribute memory, it still mirrors it after the bus
      stores b at offset addr and routes the write through the table update. */
  lemma OamWriteMirrors(oam: seq<byte>, b: byte, addr: word)
    requires |oam| == OamSize && addr < OamSize
    ensures OamWrite(DecodeTable(oam), b, addr) == DecodeTable(oam[addr := b])
  {
    var before := DecodeTable(oam);
    var after := DecodeTable(oam[addr := b]);
    var written := OamWrite(before, b, addr);
    forall i | 0 <= i < SpriteCount
      ensures written[i] == after[i]
    {
      if i == addr / 4 {
        assert addr == 4 * i + addr % 4;
      }
    }
  }

  /** The descriptors `initGPU` builds are those of all-zero attribute memory. */
  lemma InitialTableMirrorsZeroOam()
    ensures DecodeTable(seq(OamSize, _ => 0)) == seq(SpriteCount, _ => InitialSprite)
  {
  }

  /** The record (y=20, x=10, tile=5, flags=0x80) decodes to y=4, x=2, tile 5,
      with the priority flag (bit 7) set. */
  lemma ExampleRecord(oam: seq<byte>, i: int)
    requires |oam| == OamSize && 0 <= i < SpriteCount
    requires oam[4 * i] == 20 && oam[4 * i + 1] == 10 && oam[4 * i + 2] == 5 && oam[4 * i + 3] == 0x80
    ensures DecodeTable(oam)[i] == Sprite(4, 2, 5, 0x80)
    ensures Bit(DecodeTable(oam)[i].flags, 7) == 1
  {
  }
}
