# NSF header decoder and simulated MML generator, modelled in Dafny

This project models the core of a browser tool that reads the 128-byte header of an
NSF (NES Sound Format) file and builds a placeholder MML (Music Macro Language) text
from it. The model covers these pieces:

- **The header decoder.** It reads the little-endian 16-bit words and decodes the
  null-terminated text fields. It accepts or rejects the `NESM` 0x1A signature and
  builds the header record.
- **The display helpers.** These are the expansion-chip table, its bit tests, the
  PAL/NTSC label, and the default song index.
- **The integer and bit logic of the MML generator.** This is the chip list, which
  lines appear, the tempo, octave and noise parameters, and the song numbering.
- **Two small rules of the page.** These are the song selected after loading and
  the name of the downloaded file.

The JavaScript built-ins the code depends on are written out in `JsSemantics`:

- `&` and `|` on non-negative integers, as recursive functions on binary digits, and `<<` as multiplication by a power of two;
- the truncating `%`;
- `String.prototype.trim`, with the ECMAScript whitespace and line-terminator set.

The generated MML text is modelled as a sequence of `MmlPart` values. Each part
carries the numbers and strings interpolated into its line. The fixed boilerplate
lines are single parts without arguments.

The field offsets are the ones the code uses, not those of the NSF format:

- artist at 0x026;
- copyright at 0x044;
- NTSC speed at 0x060;
- PAL speed at 0x06A;
- region byte at 0x06C.

As a result the 32-byte text windows overlap one another and overlap the NTSC speed
word. The model reproduces this overlap.

Files:

- `wrappers.dfy`: `Option`.
- `js_semantics.dfy`: the JavaScript built-ins.
- `types.dfy`: the header record and the chip-info record.
- `constants.dfy`: the chip table and the labels.
- `nsf_parser.dfy`: the decoder.
- `simulated_mml.dfy`: the generator.
- `app_rules.dfy`: the page rules.

## Model

| member | source | states |
|---|---|---|
| NsfParser.ReadUint16LE | services/nsfParser.ts:6-8 | `lo OR (hi << 8)` equals `lo + 256 * hi` and is below 2^16 |
| JsSemantics.BitOr | services/nsfParser.ts:7 | `x OR y` lies between `x` and `x + y` |
| JsSemantics.ShiftLeft | services/nsfParser.ts:7 | `x << n` is at least `x` and is zero exactly when `x` is zero |
| JsSemantics.BitSetOfOr | services/nsfParser.ts:7 | bit `i` of `x OR y` is set exactly when it is set in `x` or in `y` |
| JsSemantics.BitOrOfShifted | services/nsfParser.ts:7 | when `lo < 2^n`, `lo OR (hi << n)` is `lo + hi * 2^n` (the OR adds disjoint bits) |
| NsfParser.TextBytes | services/nsfParser.ts:13-15 | the bytes kept are a prefix of the window, contain no zero, and stop exactly at the first zero when there is one |
| NsfParser.Latin1 | services/nsfParser.ts:16 | `String.fromCharCode` per byte: same length, each character's code is the byte |
| NsfParser.DecodeText | services/nsfParser.ts:11-21 | the result is never empty and has no whitespace at either end; it is `N/A` or the trimmed field text (and then not `<?>`), and a trimmed text other than empty or `<?>` is returned as it is |
| NsfParser.DecodeTextCases | services/nsfParser.ts:18-20 | the result is `N/A` for a trimmed text that is empty or `<?>` and the trimmed text otherwise; it equals the trimmed text exactly when that is neither |
| NsfParser.DecodeTextSentinel | services/nsfParser.ts:18-20 | a field that trims to nothing or to `<?>` decodes to `N/A` |
| NsfParser.DecodeTextOfPrefix | services/nsfParser.ts:28 | decoding from the 128-byte view gives the same text as decoding from the whole buffer |
| NsfParser.TextBytesOfSharedPrefix | services/nsfParser.ts:13-16 | the kept bytes depend only on the window up to its first zero |
| NsfParser.DecodeTextIgnoresUnreadByte | services/nsfParser.ts:13-17 | changing a byte outside the bytes the loop examines leaves the decoded text unchanged |
| NsfParser.DecodeNullTerminatedAscii | services/nsfParser.ts:11-21 | the loop with its early break computes exactly `DecodeText` (invariant: the string so far is the Latin-1 text of the bytes read, none of them zero) |
| NsfParser.AtLeastOne | services/nsfParser.ts:39-40 | a song count is at least 1, equals the raw byte when that is non-zero and is 1 for a raw 0 |
| NsfParser.Latin1Nesm | services/nsfParser.ts:30-31 | four bytes spell `NESM` exactly when they are 0x4E 0x45 0x53 0x4D |
| NsfParser.HasNsfSignature | services/nsfParser.ts:30-31 | the five signature bytes hold exactly when the first four bytes read as `NESM` and byte 4 is 0x1A, the source's own test |
| NsfParser.HeaderFields | services/nsfParser.ts:36-53 | the record has the `NESM` 0x1A magic and song counts of at least 1 |
| NsfParser.ParseNsfHeader | services/nsfParser.ts:23-54 | `None` exactly when the buffer is shorter than 128 bytes or lacks the signature; otherwise the magic is fixed and both song counts are at least 1 |
| NsfParser.ParsedHeader | services/nsfParser.ts:28-53 | an accepted buffer has at least 128 bytes and the signature, and its record is built from the first 128 bytes |
| NsfParser.HeaderFieldsRaw | services/nsfParser.ts:36-53 | the byte-copy fields of the record in terms of the 128-byte view |
| NsfParser.HeaderFieldsText | services/nsfParser.ts:44-46 | the text fields of the record are the decoded windows at 0x00E, 0x026 and 0x044 |
| NsfParser.ParsedSongCounts | services/nsfParser.ts:39-40 | song count and starting song are bytes 0x006 and 0x007, with 0 read as 1 |
| NsfParser.ParsedWords | services/nsfParser.ts:41-49 | the three addresses and two speeds are the little-endian words at 0x008, 0x00A, 0x00C, 0x060 and 0x06A |
| NsfParser.ParsedRawFields | services/nsfParser.ts:36-53 | raw bytes are the 128-byte prefix; bankswitch is bytes 0x070..0x077; version, region and expansion are bytes 0x005, 0x06C and 0x07B |
| NsfParser.ParsedTextFields | services/nsfParser.ts:44-46 | the three names are the non-empty decoded 32-byte windows at 0x00E, 0x026 and 0x044 of the input |
| NsfParser.ParseDependsOnlyOnHeader | services/nsfParser.ts:24-28 | buffers sharing their first 128 bytes decode alike |
| NsfParser.DefaultSongIndexIsValid | constants.ts:30 | `DEFAULT_SONG_INDEX` is a valid song index of every decoded header |
| JsSemantics.BitAnd | constants.ts:16 | `x & y` is at most each operand |
| JsSemantics.BitAndSingleBit | constants.ts:16 | `x & (1 << i)` is `2^i` when bit `i` is set and 0 otherwise |
| JsSemantics.BitTest | constants.ts:16 | `(x & (1 << i)) !== 0` holds exactly when bit `i` of `x` is set |
| JsSemantics.BitSetOfAnd | constants.ts:16 | bit `i` of `x & y` is set exactly when it is set in both |
| JsSemantics.BitSetLowSix | constants.ts:4-11 | values with equal `& 0x3F` agree on bits 0 to 5 |
| Constants.ExpansionChipFlagsTable | constants.ts:4-11 | the table has six rows, row `i` flagged by bit `i`, with distinct keys and distinct names |
| Constants.BitTests | constants.ts:16 | every mask test of the table reads the bit it names |
| Constants.GetExpansionChipInfo | constants.ts:13-18 | six entries in table order with the six display names, entry `i` supported exactly when bit `i` is set |
| Constants.ExpansionChipInfoIgnoresHighBits | constants.ts:4-18 | bytes agreeing on bits 0 to 5 give the same chip info |
| Constants.ExpansionChipInfoExample | constants.ts:13-18 | the byte 0x05 flags exactly VRC6 Audio and FDS Sound |
| Constants.GetPalNtscInfoString | constants.ts:20-28 | the label starts with `Dual` exactly when bit 1 is set, and is a PAL-preferred label exactly when bit 0 is set |
| Constants.PalNtscInfoByLowBits | constants.ts:20-28 | the label is NTSC, PAL, Dual (NTSC preferred), Dual (PAL preferred) for `x % 4` = 0, 1, 2, 3 |
| Constants.PalNtscIgnoresHighBits | constants.ts:20-28 | bytes agreeing on bits 0 and 1 get the same label |
| JsSemantics.JsRem | services/nsfParser.ts:100-101 | JavaScript `%`: magnitude below the divisor, sign of the dividend, Euclidean remainder for non-negative dividends |
| JsSemantics.JsRemOdd | services/nsfParser.ts:100-101 | negating the dividend negates the remainder, so a negative dividend gives `-((-a) % b)` |
| JsSemantics.TrimStart | services/nsfParser.ts:18 | drops exactly a whitespace prefix, leaving a suffix that does not start with whitespace |
| JsSemantics.TrimEnd | services/nsfParser.ts:18 | drops exactly a whitespace suffix, leaving a prefix that does not end with whitespace |
| JsSemantics.Trim | services/nsfParser.ts:18 | the result neither starts nor ends with whitespace |
| JsSemantics.TrimIsSlice | services/nsfParser.ts:18 | the trimmed string is a contiguous slice with only whitespace around it |
| JsSemantics.TrimOfTrimmed | services/nsfParser.ts:18 | a string without whitespace at its ends is unchanged |
| JsSemantics.TrimIdempotent | services/nsfParser.ts:18 | trimming twice is trimming once |
| JsSemantics.TrimOfWhitespace | services/nsfParser.ts:18 | whitespace-only text trims to the empty string |
| SimulatedMml.OrDefault | services/nsfParser.ts:71-73 | JavaScript `s OR fallback` on strings keeps a non-empty `s` and otherwise gives the fallback |
| SimulatedMml.Tempo | services/nsfParser.ts:100 | for a non-negative index the tempo is a multiple of 12 in 120 .. 179; for a negative one it lies in 61 .. 120 (truncating `%`) |
| SimulatedMml.BaseOctave | services/nsfParser.ts:101 | for a non-negative index the octave is 4 to 6; for a negative one 2 to 4 |
| SimulatedMml.ChipsFromSound | services/nsfParser.ts:63-69 | every chip in the list has its flag bit set, and the list is in strictly increasing bit order |
| SimulatedMml.ChipsFromComplete | services/nsfParser.ts:63-69 | every set flag bit in range has its chip in the list |
| SimulatedMml.ExpansionChipsContents | services/nsfParser.ts:63-69 | a chip is in the list exactly when its flag bit is set |
| SimulatedMml.ExpansionChipsOrder | services/nsfParser.ts:63-69 | earlier entries have lower flag bits, so no chip is listed twice |
| SimulatedMml.ChipsUpToThenFrom | services/nsfParser.ts:63-69 | the chips pushed for bits below `n`, followed by the chips of bits `n` to 5, make the whole list |
| SimulatedMml.ExpansionChipsCollected | services/nsfParser.ts:63-69 | pushing the six flags in bit order collects exactly the chip list |
| SimulatedMml.ExpansionChipsEmpty | services/nsfParser.ts:63-77 | the list is empty exactly when bits 0 to 5 are all clear |
| SimulatedMml.FlagTests | services/nsfParser.ts:64-69 | the six binary masks test bits 0 to 5 |
| SimulatedMml.Vrc6Test | services/nsfParser.ts:127 | the VRC6 mask tests bit 0 |
| SimulatedMml.MmlPreamble | services/nsfParser.ts:71-98 | the header lines number six, or seven with an `#EXPANSION` line for a non-empty chip list; they open with the title of song `songIndex + 1`, the fourth is the programmer line and the last the definitions |
| SimulatedMml.MmlChannels | services/nsfParser.ts:100-135 | five channel blocks, six when bit 0 is set, each written with the song's tempo |
| SimulatedMml.MmlDocument | services/nsfParser.ts:60-141 | the text is the header lines, the channel blocks and one footer, opening with the title and closing with the footer of song `songIndex + 1` |
| SimulatedMml.CollectExpansionChips | services/nsfParser.ts:63-69 | the six conditional pushes build exactly the chip list |
| SimulatedMml.AppendPreamble | services/nsfParser.ts:71-98 | the appended header lines are the title, artist, copyright and programmer lines, the `#EXPANSION` line only for a non-empty list, then the header info and the definitions |
| SimulatedMml.AppendChannels | services/nsfParser.ts:100-135 | the channel blocks carry the computed tempo, octaves and noise parameters, with the VRC6 block only when bit 0 is set |
| SimulatedMml.GenerateSimulatedMml | services/nsfParser.ts:60-141 | the generated text is the preamble, the channel blocks and the footer with the 1-based song number |
| SimulatedMml.TempoAndOctaveRange | services/nsfParser.ts:100-101 | for a non-negative song index the tempo is 120, 132, 144, 156 or 168 and the octave 4, 5 or 6 |
| SimulatedMml.TempoAndOctavePeriods | services/nsfParser.ts:100-101 | tempo repeats every five songs, octave every three |
| SimulatedMml.DocumentTempo | services/nsfParser.ts:104-133 | every channel part uses the one tempo of the song |
| SimulatedMml.DocumentFrame | services/nsfParser.ts:60-140 | the title opens and the footer closes the text, both with song number `songIndex + 1` |
| SimulatedMml.PreambleExpansionParts | services/nsfParser.ts:71-77 | the preamble holds an `#EXPANSION` part only for a non-empty chip list, as its fifth part, carrying that list |
| SimulatedMml.DocumentExpansionParts | services/nsfParser.ts:75-77 | the only `#EXPANSION` part is the preamble's, present exactly for a non-empty chip list |
| SimulatedMml.DocumentExpansionLine | services/nsfParser.ts:63-77 | an `#EXPANSION` line appears exactly when one of bits 0 to 5 is set, and it carries the chip list |
| SimulatedMml.DocumentVrc6Block | services/nsfParser.ts:127-135 | the VRC6 block appears exactly when bit 0 is set |
| SimulatedMml.DocumentTextLines | services/nsfParser.ts:71-73 | non-empty names are written unchanged |
| SimulatedMml.ParsedHeaderNeedsNoFallback | services/nsfParser.ts:20-73 | for a decoded header, the title, artist and copyright lines carry the decoded fields, never the fallbacks |
| AppRules.InitialSongIndex | App.tsx:154-157 | with at least one song the index is in `0 .. totalSongs - 1`, it is `startingSong - 1` exactly when the starting song is in range, and 0 (the first song) otherwise |
| AppRules.InitialSongIndexInRange | App.tsx:154-157 | for a decoded header the selected song index lies in `0 .. totalSongs - 1`, is `startingSong - 1` exactly when the starting song is in range, and is 0 when the starting song exceeds the song count |
| AppRules.AsciiLower | App.tsx:322 | lower-casing maps a surviving letter or digit to a lower-case letter or the same digit |
| AppRules.SafeSongName | App.tsx:322 | each non-alphanumeric character becomes `_`, letters are lowered, and an empty name becomes `untitled`; the result holds only `a-z`, `0-9` and `_` |
| AppRules.SafeSongNameIdempotent | App.tsx:322 | sanitising a sanitised name changes nothing |
| AppRules.SafeSongNameIgnoresCase | App.tsx:322 | names differing only in ASCII letter case sanitise alike |
| AppRules.DecimalString | App.tsx:323-324 | the decimal rendering is non-empty and all digits, `0` for zero and without a leading zero otherwise |
| AppRules.DecimalStringRoundTrip | App.tsx:323-324 | the decimal rendering reads back as the number |
| AppRules.DownloadFileName | App.tsx:322-324 | the file name is `nsf_`, the sanitised name, `_song`, the 1-based song number in decimal, then `.mml` |

## Left out

- The `console.error` messages of the decoder are side effects. They are not modelled; both failures yield `None`.
- Decoding from an `ArrayBuffer` is modelled on `seq<byte>`. `parseNsfHeader` only ever reads inside the 128-byte view. So `DecodeText` and `ReadUint16LE` require their windows to lie inside the buffer, and JavaScript's `undefined` for out-of-range reads does not arise.
- ReadUint16LE: `<<` is modelled without 32-bit wrap-around, because the operand is a byte shifted by 8 and stays far below 2^31.
- GenerateSimulatedMml: the MML text is a sequence of parts. The fixed boilerplate lines, the hexadecimal formatting of addresses (`toString(16).toUpperCase().padStart(4, '0')`) and the floating-point `toFixed(2)` Hz values are not rendered. The parts carry the raw numbers instead.
- GenerateSimulatedMml: the `#EXPANSION` list holds `MmlChip` values. Each value's `Name()` is the string the builder pushes. The `join(', ')` rendering of the names is not modelled.
- GenerateSimulatedMml: `songIndex` is an `int`. Non-integer JavaScript numbers are not modelled; the page only passes integers.
- The page's React state, the `FileReader` loading, clipboard access, the Blob download and the Web Audio preview (oscillator scheduling with floating-point note timing) are platform glue. They are not part of this model.
- The header display components only format fields. They are not part of this model.
