/**
 * The integer and bit logic of the placeholder MML text built from a
 * decoded header. The text is modelled as the sequence of its parts, each
 * part carrying the values interpolated into it; the fixed boilerplate
 * lines are single opaque parts.
 */
module SimulatedMml {
  import opened Wrappers
  import opened JsSemantics
  import opened Types
  import NsfParser

  /** The expansion chips the `#EXPANSION` line can name, in flag-bit order. */
  datatype MmlChip = Vrc6 | Vrc7 | Fds | Mmc5 | N163 | Sunsoft5B
  {
    /** The flag bit of the expansion byte that selects the chip. */
    function Bit(): nat
    {
      match this
      case Vrc6 => 0
      case Vrc7 => 1
      case Fds => 2
      case Mmc5 => 3
      case N163 => 4
      case Sunsoft5B => 5
    }

    /** The name the builder pushes for the chip. */
    function Name(): string
    {
      match this
      case Vrc6 => "VRC6"
      case Vrc7 => "VRC7"
      case Fds => "FDS"
      case Mmc5 => "MMC5"
      case N163 => "N163"
      case Sunsoft5B => "Sunsoft 5B"
    }
  }

  /** The chip of each flag bit 0 .. 5. */
  const ChipOfBit: seq<MmlChip> := [Vrc6, Vrc7, Fds, Mmc5, N163, Sunsoft5B]

  /** The parts of the generated text, in the order they are appended. */
  datatype MmlPart =
    | TitleLine(title: string, songNumber: int, totalSongs: nat)
    | ArtistLine(artist: string)
    | CopyrightLine(copyright: string)
    | ProgrammerLine
    | ExpansionLine(chips: seq<MmlChip>)
    | HeaderInfo(loadAddress: nat, initAddress: nat, playAddress: nat, ntscSpeed: nat, palSpeed: nat)
    | Definitions
    | PulseOne(tempo: int, octave: int, evenSong: bool)
    | PulseTwo(tempo: int, octave: int, evenSong: bool)
    | Triangle(tempo: int, octave: int)
    | Noise(tempo: int, volume: int, mode: int, period: int)
    | Dpcm(tempo: int)
    | Vrc6Channels(tempo: int, pulseOneOctave: int, pulseTwoOctave: int, sawtoothOctave: int)
    | Footer(songNumber: int)
  {
    /** The channel parts, each of which is written with a tempo. */
    predicate CarriesTempo() {
      PulseOne? || PulseTwo? || Triangle? || Noise? || Dpcm? || Vrc6Channels?
    }
  }

  /** JavaScript's `s || fallback` on strings: the fallback replaces only the empty string. */
  function OrDefault(s: string, fallback: string): (r: string)
    ensures r == s || (s == [] && r == fallback)
    ensures r != [] <== s != [] || fallback != []
  {
    if s == [] then fallback else s
  }

  /** `120 + (songIndex * 12 % 60)`. */
  function Tempo(songIndex: int): (r: int)
    ensures songIndex >= 0 ==> 120 <= r < 180 && r % 12 == 0
    ensures songIndex < 0 ==> 60 < r <= 120
  {
    120 + JsRem(songIndex * 12, 60)
  }

  /** `4 + (songIndex % 3)`. */
  function BaseOctave(songIndex: int): (r: int)
    ensures songIndex >= 0 ==> 4 <= r <= 6
    ensures songIndex < 0 ==> 2 <= r <= 4
  {
    4 + JsRem(songIndex, 3)
  }

  /** The chip of bit `i` when it is set in `x`: one step of the chip list. */
  function FlagChip(x: nat, i: nat): seq<MmlChip>
    requires i < 6
  {
    if BitSet(x, i) then [ChipOfBit[i]] else []
  }

  /** The chips of the set flag bits in `from` .. 5, in bit order. */
  function ChipsFrom(x: nat, from: nat): seq<MmlChip>
    requires from <= 6
    decreases 6 - from
  {
    if from == 6 then [] else FlagChip(x, from) + ChipsFrom(x, from + 1)
  }

  /** Every listed chip's flag bit is set and lies in `from` .. 5, and the list is in strictly increasing bit order. */
  lemma {:induction false} ChipsFromSound(x: nat, from: nat)
    requires from <= 6
    ensures var r := ChipsFrom(x, from);
      (forall c :: c in r ==> from <= c.Bit() < 6 && BitSet(x, c.Bit())) &&
      (forall j, k :: 0 <= j < k < |r| ==> r[j].Bit() < r[k].Bit())
    decreases 6 - from
  {
    if from < 6 {
      ChipsFromSound(x, from + 1);
      var step, rest := FlagChip(x, from), ChipsFrom(x, from + 1);
      assert ChipsFrom(x, from) == step + rest;
      assert ChipOfBit[from].Bit() == from;
    }
  }

  /** Every set flag bit in `from` .. 5 has its chip in the list. */
  lemma {:induction false} ChipsFromComplete(x: nat, from: nat, i: nat)
    requires from <= i < 6 && BitSet(x, i)
    ensures ChipOfBit[i] in ChipsFrom(x, from)
    decreases 6 - from
  {
    if from < i {
      ChipsFromComplete(x, from + 1, i);
    }
  }

  /** The `#EXPANSION` chip list: the chip of each set flag bit 0 .. 5, in bit order. */
  function ExpansionChips(expansionSound: byte): seq<MmlChip>
  {
    ChipsFrom(expansionSound, 0)
  }

  /** A chip is in the list exactly when its flag bit is set. */
  lemma ExpansionChipsContents(expansionSound: byte, c: MmlChip)
    ensures c in ExpansionChips(expansionSound) <==> BitSet(expansionSound, c.Bit())
  {
    assert ChipOfBit[c.Bit()] == c;
    ChipsFromSound(expansionSound, 0);
    if BitSet(expansionSound, c.Bit()) {
      ChipsFromComplete(expansionSound, 0, c.Bit());
    }
  }

  /** The chip list follows bit order and names each chip once. */
  lemma ExpansionChipsOrder(expansionSound: byte, j: nat, k: nat)
    requires j < k < |ExpansionChips(expansionSound)|
    ensures ExpansionChips(expansionSound)[j].Bit() < ExpansionChips(expansionSound)[k].Bit()
    ensures ExpansionChips(expansionSound)[j] != ExpansionChips(expansionSound)[k]
  {
    ChipsFromSound(expansionSound, 0);
  }

  /** The chips of the set flag bits in 0 .. `n` - 1, collected left to right as the builder pushes them. */
  function ChipsUpTo(x: nat, n: nat): seq<MmlChip>
    requires n <= 6
  {
    if n == 0 then [] else ChipsUpTo(x, n - 1) + FlagChip(x, n - 1)
  }

  /** Collecting bits below `n` and then listing bits from `n` gives the whole chip list. */
  lemma {:induction false} ChipsUpToThenFrom(x: nat, n: nat)
    requires n <= 6
    ensures ChipsUpTo(x, n) + ChipsFrom(x, n) == ChipsFrom(x, 0)
  {
    if n > 0 {
      ChipsUpToThenFrom(x, n - 1);
      var before, step, after := ChipsUpTo(x, n - 1), FlagChip(x, n - 1), ChipsFrom(x, n);
      assert ChipsUpTo(x, n) == before + step;
      assert ChipsFrom(x, n - 1) == step + after;
      AppendAssociative(before, step, after);
    }
  }

  lemma AppendAssociative<T>(a: seq<T>, b: seq<T>, c: seq<T>)
    ensures (a + b) + c == a + (b + c)
  {
  }

  /** The chip list is what pushing the six flags in bit order collects. */
  lemma ExpansionChipsCollected(x: byte)
    ensures ChipsUpTo(x, 6) == ExpansionChips(x)
  {
    ChipsUpToThenFrom(x, 6);
    assert ChipsUpTo(x, 6) + [] == ChipsUpTo(x, 6);
  }

  /** The header lines: title, artist, copyright, programmer, the optional `#EXPANSION` line, the header info and definitions. */
  function MmlPreamble(header: NsfHeader, songIndex: int): (r: seq<MmlPart>)
    ensures |r| == if ExpansionChips(header.expansionSound) != [] then 7 else 6
    ensures r[0].TitleLine? && r[0].songNumber == songIndex + 1 && r[3] == ProgrammerLine
    ensures r[|r| - 1] == Definitions
  {
    var chips := ExpansionChips(header.expansionSound);
    [ TitleLine(OrDefault(header.songName, "Untitled"), songIndex + 1, header.totalSongs),
      ArtistLine(OrDefault(header.artistName, "Unknown Artist")),
      CopyrightLine(OrDefault(header.copyrightName, "Unknown Copyright")),
      ProgrammerLine ]
    + (if chips != [] then [ExpansionLine(chips)] else [])
    + [ HeaderInfo(header.loadAddress, header.initAddress, header.playAddress, header.ntscSpeed, header.palSpeed),
        Definitions ]
  }

  /** The channel blocks: pulse 1 and 2, triangle, noise, DPCM, then the VRC6 block when bit 0 is set. */
  function MmlChannels(expansionSound: byte, songIndex: int): (r: seq<MmlPart>)
    ensures |r| == if BitSet(expansionSound, 0) then 6 else 5
    ensures forall k :: 0 <= k < |r| ==> r[k].CarriesTempo() && r[k].tempo == Tempo(songIndex)
  {
    var tempo := Tempo(songIndex);
    var octave := BaseOctave(songIndex);
    var even := JsRem(songIndex, 2) == 0;
    [ PulseOne(tempo, octave, even),
      PulseTwo(tempo, octave - 1, even),
      Triangle(tempo, octave - 2),
      Noise(tempo, 8 + JsRem(songIndex, 5), JsRem(songIndex, 2), JsRem(songIndex, 15) + 1),
      Dpcm(tempo) ]
    + (if BitSet(expansionSound, 0) then [Vrc6Channels(tempo, octave, octave - 1, octave - 2)] else [])
  }

  /** The whole generated text, part by part. */
  function MmlDocument(header: NsfHeader, songIndex: int): (r: seq<MmlPart>)
    ensures |r| == |MmlPreamble(header, songIndex)| + |MmlChannels(header.expansionSound, songIndex)| + 1
    ensures r[0].TitleLine? && r[|r| - 1] == Footer(songIndex + 1)
  {
    MmlPreamble(header, songIndex) + MmlChannels(header.expansionSound, songIndex) + [Footer(songIndex + 1)]
  }

  /** The first block of `generateSimulatedMml`: one mask test per chip flag, appending its name when set. */
  method CollectExpansionChips(x: byte) returns (expansionChips: seq<MmlChip>)
    ensures expansionChips == ExpansionChips(x)
  {
    FlagTests(x);
    expansionChips := [];
    if BitAnd(x, 0x01) != 0 { expansionChips := expansionChips + [Vrc6]; }
    assert expansionChips == ChipsUpTo(x, 1);
    if BitAnd(x, 0x02) != 0 { expansionChips := expansionChips + [Vrc7]; }
    assert expansionChips == ChipsUpTo(x, 2);
    if BitAnd(x, 0x04) != 0 { expansionChips := expansionChips + [Fds]; }
    assert expansionChips == ChipsUpTo(x, 3);
    if BitAnd(x, 0x08) != 0 { expansionChips := expansionChips + [Mmc5]; }
    assert expansionChips == ChipsUpTo(x, 4);
    if BitAnd(x, 0x10) != 0 { expansionChips := expansionChips + [N163]; }
    assert expansionChips == ChipsUpTo(x, 5);
    if BitAnd(x, 0x20) != 0 { expansionChips := expansionChips + [Sunsoft5B]; }
    ExpansionChipsCollected(x);
  }

  /**
   * `generateSimulatedMml`: collects the expansion chips flag by flag, then
   * appends the header lines and the channel blocks part by part.
   */
  method GenerateSimulatedMml(header: NsfHeader, songIndex: int) returns (mml: seq<MmlPart>)
    ensures mml == MmlDocument(header, songIndex)
  {
    var currentSongDisplay := songIndex + 1;
    var expansionChips := CollectExpansionChips(header.expansionSound);
    mml := AppendPreamble(header, currentSongDisplay, expansionChips);
    mml := AppendChannels(mml, header.expansionSound, songIndex);
    mml := mml + [Footer(currentSongDisplay)];
  }

  /** The header lines of `generateSimulatedMml`, the `#EXPANSION` line only for a non-empty chip list. */
  method AppendPreamble(header: NsfHeader, currentSongDisplay: int, expansionChips: seq<MmlChip>) returns (mml: seq<MmlPart>)
    requires expansionChips == ExpansionChips(header.expansionSound)
    ensures mml == MmlPreamble(header, currentSongDisplay - 1)
  {
    mml := [TitleLine(OrDefault(header.songName, "Untitled"), currentSongDisplay, header.totalSongs)];
    mml := mml + [ArtistLine(OrDefault(header.artistName, "Unknown Artist"))];
    mml := mml + [CopyrightLine(OrDefault(header.copyrightName, "Unknown Copyright"))];
    mml := mml + [ProgrammerLine];
    if |expansionChips| > 0 {
      mml := mml + [ExpansionLine(expansionChips)];
    }
    mml := mml + [HeaderInfo(header.loadAddress, header.initAddress, header.playAddress, header.ntscSpeed, header.palSpeed)];
    mml := mml + [Definitions];
  }

  /** The channel blocks of `generateSimulatedMml`, appended to `mml`; the VRC6 block only when bit 0 is set. */
  method AppendChannels(mml0: seq<MmlPart>, expansionSound: byte, songIndex: int) returns (mml: seq<MmlPart>)
    ensures mml == mml0 + MmlChannels(expansionSound, songIndex)
  {
    var tempo := 120 + JsRem(songIndex * 12, 60);
    var baseOctave := 4 + JsRem(songIndex, 3);

    mml := mml0 + [PulseOne(tempo, baseOctave, JsRem(songIndex, 2) == 0)];
    mml := mml + [PulseTwo(tempo, baseOctave - 1, JsRem(songIndex, 2) == 0)];
    mml := mml + [Triangle(tempo, baseOctave - 2)];
    mml := mml + [Noise(tempo, 8 + JsRem(songIndex, 5), JsRem(songIndex, 2), JsRem(songIndex, 15) + 1)];
    mml := mml + [Dpcm(tempo)];

    Vrc6Test(expansionSound);
    if BitAnd(expansionSound, 0x01) != 0 {
      mml := mml + [Vrc6Channels(tempo, baseOctave, baseOctave - 1, baseOctave - 2)];
    }
  }

  /** The VRC6 test `x & 0b1` reads bit 0. */
  lemma Vrc6Test(x: byte)
    ensures (BitAnd(x, 0x01) != 0) == BitSet(x, 0)
  {
    BitTest(x, 0);
    assert ShiftLeft(1, 0) == 0x01;
  }

  /** The builder's six mask tests `x & 0b1`, ..., `x & 0b100000` read bits 0 to 5. */
  lemma FlagTests(x: byte)
    ensures (BitAnd(x, 0x01) != 0) == BitSet(x, 0) && (BitAnd(x, 0x02) != 0) == BitSet(x, 1)
    ensures (BitAnd(x, 0x04) != 0) == BitSet(x, 2) && (BitAnd(x, 0x08) != 0) == BitSet(x, 3)
    ensures (BitAnd(x, 0x10) != 0) == BitSet(x, 4) && (BitAnd(x, 0x20) != 0) == BitSet(x, 5)
  {
    BitTest(x, 0); BitTest(x, 1); BitTest(x, 2);
    BitTest(x, 3); BitTest(x, 4); BitTest(x, 5);
    assert ShiftLeft(1, 0) == 0x01 && ShiftLeft(1, 1) == 0x02 && ShiftLeft(1, 2) == 0x04;
    assert ShiftLeft(1, 3) == 0x08 && ShiftLeft(1, 4) == 0x10 && ShiftLeft(1, 5) == 0x20;
  }

  /** For a non-negative song index the tempo is one of 120, 132, 144, 156, 168 and the octave one of 4, 5, 6. */
  lemma TempoAndOctaveRange(songIndex: int)
    requires songIndex >= 0
    ensures Tempo(songIndex) in {120, 132, 144, 156, 168}
    ensures BaseOctave(songIndex) in {4, 5, 6}
  {
    var r := (songIndex * 12) % 60;
    assert r == 12 * (songIndex % 5);
  }

  /** The tempo repeats every five songs and the octave every three. */
  lemma TempoAndOctavePeriods(songIndex: int)
    requires songIndex >= 0
    ensures Tempo(songIndex + 5) == Tempo(songIndex)
    ensures BaseOctave(songIndex + 3) == BaseOctave(songIndex)
  {
    var a := songIndex * 12;
    assert (songIndex + 5) * 12 == a + 60;
    assert (a + 60) % 60 == a % 60;
    assert (songIndex + 3) % 3 == songIndex % 3;
  }

  /** Every channel part of the document is written with the song's one tempo. */
  lemma DocumentTempo(header: NsfHeader, songIndex: int)
    ensures forall p :: p in MmlDocument(header, songIndex) && p.CarriesTempo() ==> p.tempo == Tempo(songIndex)
  {
    var pre := MmlPreamble(header, songIndex);
    var ch := MmlChannels(header.expansionSound, songIndex);
    var doc := MmlDocument(header, songIndex);
    forall p | p in doc && p.CarriesTempo()
      ensures p.tempo == Tempo(songIndex)
    {
      assert p in pre || p in ch || p == Footer(songIndex + 1);
    }
  }

  /** The title line opens the document and the footer closes it, both with the 1-based song number. */
  lemma DocumentFrame(header: NsfHeader, songIndex: int)
    ensures var doc := MmlDocument(header, songIndex);
      |doc| >= 12 && doc[0].TitleLine? && doc[0].songNumber == songIndex + 1 &&
      doc[|doc| - 1] == Footer(songIndex + 1) && doc[0].totalSongs == header.totalSongs
  {
  }

  /** The chip list is empty exactly when none of the flag bits 0 to 5 is set. */
  lemma ExpansionChipsEmpty(x: byte)
    ensures ExpansionChips(x) != [] <==> exists i :: 0 <= i < 6 && BitSet(x, i)
  {
    var chips := ExpansionChips(x);
    if chips != [] {
      ChipsFromSound(x, 0);
      var c := chips[0];
      assert c in chips;
      var b := c.Bit();
      assert 0 <= b < 6 && BitSet(x, b);
      assert exists i :: 0 <= i < 6 && BitSet(x, i);
      assert ExpansionChips(x) != [];
    } else {
      forall i | 0 <= i < 6
        ensures !BitSet(x, i)
      {
        if BitSet(x, i) {
          ChipsFromComplete(x, 0, i);
        }
      }
    }
  }

  /** The only `#EXPANSION` part of the document is the one the preamble writes for a non-empty chip list. */
  lemma DocumentExpansionParts(header: NsfHeader, songIndex: int)
    ensures var chips := ExpansionChips(header.expansionSound);
      forall p :: p in MmlDocument(header, songIndex) && p.ExpansionLine? ==> p == ExpansionLine(chips) && chips != []
    ensures var chips := ExpansionChips(header.expansionSound);
      chips != [] ==> ExpansionLine(chips) in MmlDocument(header, songIndex)
  {
    var chips := ExpansionChips(header.expansionSound);
    var pre := MmlPreamble(header, songIndex);
    var ch := MmlChannels(header.expansionSound, songIndex);
    var doc := MmlDocument(header, songIndex);
    PreambleExpansionParts(header, songIndex);
    assert doc == pre + (ch + [Footer(songIndex + 1)]);
    assert forall p :: p in doc && p.ExpansionLine? ==> p in pre;
    if chips != [] {
      assert pre[4] in doc;
    }
  }

  /** The preamble's only `#EXPANSION` part is its fifth, written for a non-empty chip list. */
  lemma PreambleExpansionParts(header: NsfHeader, songIndex: int)
    ensures var chips := ExpansionChips(header.expansionSound);
      var pre := MmlPreamble(header, songIndex);
      (forall p :: p in pre && p.ExpansionLine? ==> p == ExpansionLine(chips) && chips != []) &&
      (chips != [] ==> pre[4] == ExpansionLine(chips))
  {
  }

  /** An `#EXPANSION` line is written exactly when a flag among bits 0 to 5 is set, and it lists the chip list. */
  lemma DocumentExpansionLine(header: NsfHeader, songIndex: int)
    ensures (exists p :: p in MmlDocument(header, songIndex) && p.ExpansionLine?) <==>
      (exists i :: 0 <= i < 6 && BitSet(header.expansionSound, i))
    ensures forall p :: p in MmlDocument(header, songIndex) && p.ExpansionLine? ==>
      p.chips == ExpansionChips(header.expansionSound)
  {
    var chips := ExpansionChips(header.expansionSound);
    DocumentExpansionParts(header, songIndex);
    ExpansionChipsEmpty(header.expansionSound);
    if chips != [] {
      assert ExpansionLine(chips).ExpansionLine?;
    }
  }

  /** The VRC6 channel block is written exactly when bit 0 of the expansion byte is set. */
  lemma DocumentVrc6Block(header: NsfHeader, songIndex: int)
    ensures (exists p :: p in MmlDocument(header, songIndex) && p.Vrc6Channels?) <==> BitSet(header.expansionSound, 0)
  {
    var pre := MmlPreamble(header, songIndex);
    var ch := MmlChannels(header.expansionSound, songIndex);
    var doc := MmlDocument(header, songIndex);
    assert forall p :: p in doc ==> p in pre || p in ch || p == Footer(songIndex + 1);
    if BitSet(header.expansionSound, 0) {
      assert ch[5] in doc;
    }
  }

  /** Non-empty text fields are written as they are: the fallbacks are used only for empty fields. */
  lemma DocumentTextLines(header: NsfHeader, songIndex: int)
    requires header.songName != [] && header.artistName != [] && header.copyrightName != []
    ensures var doc := MmlDocument(header, songIndex);
      doc[0] == TitleLine(header.songName, songIndex + 1, header.totalSongs) &&
      doc[1] == ArtistLine(header.artistName) && doc[2] == CopyrightLine(header.copyrightName)
  {
    var pre := MmlPreamble(header, songIndex);
    assert MmlDocument(header, songIndex)[..3] == pre[..3];
  }

  /**
   * For a decoded header the fallbacks `Untitled`, `Unknown Artist` and
   * `Unknown Copyright` never appear: the decoder never yields an empty field.
   */
  lemma ParsedHeaderNeedsNoFallback(buffer: seq<byte>, h: NsfHeader, songIndex: int)
    requires NsfParser.ParseNsfHeader(buffer) == Some(h)
    ensures var doc := MmlDocument(h, songIndex);
      doc[0] == TitleLine(NsfParser.DecodeText(buffer, 0x00E, 32), songIndex + 1, h.totalSongs) &&
      doc[1] == ArtistLine(NsfParser.DecodeText(buffer, 0x026, 32)) &&
      doc[2] == CopyrightLine(NsfParser.DecodeText(buffer, 0x044, 32))
  {
    NsfParser.ParsedTextFields(buffer, h);
    DocumentTextLines(h, songIndex);
  }
}
