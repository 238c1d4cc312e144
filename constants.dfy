/**
 * The display-side interpretation of the two bit-field bytes of the header:
 * the expansion-audio flags (byte 0x07B) and the PAL/NTSC flags (byte 0x06C).
 */
module Constants {
  import opened JsSemantics
  import opened Types

  /** One entry of the expansion-chip table: its key, the bit that flags it, and its display name. */
  datatype ChipFlag = ChipFlag(key: string, bit: nat, name: string)

  /** The table in declaration order, which is the order `Object.values` yields it in. */
  const ExpansionChipFlags: seq<ChipFlag> := [
    ChipFlag("VRC6", 0, "VRC6 Audio"),
    ChipFlag("VRC7", 1, "VRC7 Audio"),
    ChipFlag("FDS", 2, "FDS Sound"),
    ChipFlag("MMC5", 3, "MMC5 Audio"),
    ChipFlag("N163", 4, "Namco 163"),
    ChipFlag("SUNSOFT_5B", 5, "Sunsoft 5B (FME-07)")
  ]

  /** Row `i` of the table is flagged by bit `i`, and no two rows share a key, a bit or a name. */
  lemma ExpansionChipFlagsTable()
    ensures |ExpansionChipFlags| == 6
    ensures forall i :: 0 <= i < 6 ==> ExpansionChipFlags[i].bit == i
    ensures forall i, j :: 0 <= i < j < 6 ==>
      ExpansionChipFlags[i].key != ExpansionChipFlags[j].key && ExpansionChipFlags[i].name != ExpansionChipFlags[j].name
  {
    forall i, j | 0 <= i < j < 6
      ensures ExpansionChipFlags[i].key != ExpansionChipFlags[j].key && ExpansionChipFlags[i].name != ExpansionChipFlags[j].name
    {
      var a, b := ExpansionChipFlags[i], ExpansionChipFlags[j];
      assert |a.key| != |b.key| || a.key[0] != b.key[0] || (|a.key| > 3 && a.key[3] != b.key[3]);
      assert |a.name| != |b.name| || a.name[0] != b.name[0] || (|a.name| > 3 && a.name[3] != b.name[3]);
    }
  }

  /** The song index a freshly loaded file starts from (0-based). */
  const DefaultSongIndex: nat := 0

  /** Every test `(x & (1 << i)) !== 0` reads bit `i` of `x`. */
  lemma BitTests(x: nat)
    ensures forall i: nat :: (BitAnd(x, ShiftLeft(1, i)) != 0) == BitSet(x, i)
  {
    forall i: nat
      ensures (BitAnd(x, ShiftLeft(1, i)) != 0) == BitSet(x, i)
    {
      BitTest(x, i);
    }
  }

  /**
   * One entry per table row, in table order: the chip's name, flagged as
   * supported when the row's bit is set in `expansionByte`.
   */
  function GetExpansionChipInfo(expansionByte: byte): (r: seq<ExpansionChipInfo>)
    ensures |r| == 6
    ensures r[0].name == "VRC6 Audio" && r[1].name == "VRC7 Audio" && r[2].name == "FDS Sound"
    ensures r[3].name == "MMC5 Audio" && r[4].name == "Namco 163" && r[5].name == "Sunsoft 5B (FME-07)"
    ensures forall i :: 0 <= i < 6 ==> r[i].supported == BitSet(expansionByte, i)
  {
    BitTests(expansionByte);
    seq(|ExpansionChipFlags|, k requires 0 <= k < |ExpansionChipFlags| =>
      ExpansionChipInfo(
        ExpansionChipFlags[k].name,
        BitAnd(expansionByte, ShiftLeft(1, ExpansionChipFlags[k].bit)) != 0))
  }

  /** Bits 6 and 7 are ignored: bytes that agree on `& 0x3F` get the same chip list. */
  lemma ExpansionChipInfoIgnoresHighBits(x: byte, y: byte)
    requires BitAnd(x, 0x3F) == BitAnd(y, 0x3F)
    ensures GetExpansionChipInfo(x) == GetExpansionChipInfo(y)
  {
    var a, b := GetExpansionChipInfo(x), GetExpansionChipInfo(y);
    forall i | 0 <= i < 6
      ensures a[i] == b[i]
    {
      BitSetLowSix(x, y, i);
    }
  }

  /** The byte 0x05 flags exactly VRC6 Audio and FDS Sound. */
  lemma ExpansionChipInfoExample()
    ensures var r := GetExpansionChipInfo(0x05);
      r[0].supported && !r[1].supported && r[2].supported &&
      !r[3].supported && !r[4].supported && !r[5].supported
  {
  }

  /** The region label: bit 1 selects the dual-region labels, bit 0 the PAL-preferred ones. */
  function GetPalNtscInfoString(palNtscByte: byte): (r: string)
    ensures ("Dual" <= r) == BitSet(palNtscByte, 1)
    ensures (r == "PAL" || r == "Dual (PAL preferred)") == BitSet(palNtscByte, 0)
  {
    BitTest(palNtscByte, 0);
    BitTest(palNtscByte, 1);
    assert ShiftLeft(1, 0) == 0x1 && ShiftLeft(1, 1) == 0x2;
    assert "NTSC"[0] != 'D' && "PAL"[0] != 'D';
    var palPreferred := BitAnd(palNtscByte, 0x1) != 0;
    var isDual := BitAnd(palNtscByte, 0x2) != 0;
    if isDual then
      (if palPreferred then "Dual (PAL preferred)" else "Dual (NTSC preferred)")
    else if palPreferred then "PAL" else "NTSC"
  }

  const PalNtscLabels: seq<string> := ["NTSC", "PAL", "Dual (NTSC preferred)", "Dual (PAL preferred)"]

  /** The label is chosen by the two low bits alone: 0 -> NTSC, 1 -> PAL, 2 and 3 -> the dual labels. */
  lemma PalNtscInfoByLowBits(x: byte)
    ensures GetPalNtscInfoString(x) == PalNtscLabels[x % 4]
  {
    assert BitSet(x, 1) == BitSet(x / 2, 0);
    assert x % 4 == 2 * ((x / 2) % 2) + x % 2;
  }

  /** Bytes that agree on bits 0 and 1 get the same label. */
  lemma PalNtscIgnoresHighBits(x: byte, y: byte)
    requires x % 4 == y % 4
    ensures GetPalNtscInfoString(x) == GetPalNtscInfoString(y)
  {
    PalNtscInfoByLowBits(x);
    PalNtscInfoByLowBits(y);
  }
}
