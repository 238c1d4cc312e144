/**
 * The NSF header decoder: a total function from a byte buffer to either
 * `None` (the file is too short or its signature is wrong) or a decoded
 * `NsfHeader`. Field offsets are those the decoder uses, not those of the
 * published NSF layout: the text windows overlap one another, and the
 * copyright window overlaps the NTSC speed field.
 */
module NsfParser {
  import opened Wrappers
  import opened JsSemantics
  import opened Types
  import opened Constants

  /** Number of bytes the header occupies at the start of the file. */
  const HeaderSize: nat := 128

  /** The `magic` string of every decoded header: `NESM` followed by the character 0x1A. */
  const NsfMagic: string := ['N', 'E', 'S', 'M', 0x1A as char]

  // ---------------------------------------------------------------------------
  // Little-endian integers

  /** `buffer[offset] | (buffer[offset + 1] << 8)`: the unsigned 16-bit little-endian value at `offset`. */
  function ReadUint16LE(buffer: seq<byte>, offset: nat): (r: nat)
    requires offset + 1 < |buffer|
    ensures r == buffer[offset] as int + 256 * (buffer[offset + 1] as int)
    ensures r < 0x1_0000
  {
    BitOrOfShifted(buffer[offset], buffer[offset + 1], 8);
    BitOr(buffer[offset], ShiftLeft(buffer[offset + 1], 8))
  }

  // ---------------------------------------------------------------------------
  // Null-terminated text fields

  /** The bytes of `w` before its first zero byte (all of `w` when it holds none). */
  function TextBytes(w: seq<byte>): (r: seq<byte>)
    ensures r <= w
    ensures forall k :: 0 <= k < |r| ==> r[k] != 0
    ensures |r| < |w| ==> w[|r|] == 0
  {
    if w == [] || w[0] == 0 then [] else [w[0]] + TextBytes(w[1..])
  }

  /** A prefix of `w` free of zeros and ending at a zero or at the end of `w` is `TextBytes(w)`. */
  lemma TextBytesUnique(w: seq<byte>, i: nat)
    requires i <= |w|
    requires forall k :: 0 <= k < i ==> w[k] != 0
    requires i == |w| || w[i] == 0
    ensures TextBytes(w) == w[..i]
  {
  }

  /** `String.fromCharCode` applied byte by byte: each byte becomes the character with that code. */
  function Latin1(bytes: seq<byte>): (s: string)
    ensures |s| == |bytes|
    ensures forall k :: 0 <= k < |s| ==> s[k] as int == bytes[k]
  {
    seq(|bytes|, k requires 0 <= k < |bytes| => bytes[k] as char)
  }

  lemma Latin1Append(bytes: seq<byte>, b: byte)
    ensures Latin1(bytes + [b]) == Latin1(bytes) + [b as char]
  {
  }

  /** The characters before the terminator in the `maxLength`-byte window at `offset`. */
  function FieldText(buffer: seq<byte>, offset: nat, maxLength: nat): string
    requires offset + maxLength <= |buffer|
  {
    Latin1(TextBytes(buffer[offset..offset + maxLength]))
  }

  /** How many bytes of the window the decoder reads: up to and including the first zero, at most `maxLength`. */
  function BytesExamined(buffer: seq<byte>, offset: nat, maxLength: nat): (n: nat)
    requires offset + maxLength <= |buffer|
    ensures n <= maxLength
    ensures forall k :: offset <= k < offset + n - 1 ==> buffer[k] != 0
  {
    var t := |TextBytes(buffer[offset..offset + maxLength])|;
    if t < maxLength then t + 1 else t
  }

  /**
   * The decoded text field: the trimmed characters before the terminator,
   * with an empty result or the placeholder `<?>` replaced by `N/A`.
   */
  function DecodeText(buffer: seq<byte>, offset: nat, maxLength: nat): (r: string)
    requires offset + maxLength <= |buffer|
    ensures r != []
    ensures !IsJsWhitespace(r[0]) && !IsJsWhitespace(r[|r| - 1])
    ensures r == "N/A" || (r == Trim(FieldText(buffer, offset, maxLength)) && r != "<?>")
    ensures var t := Trim(FieldText(buffer, offset, maxLength)); t != [] && t != "<?>" ==> r == t
  {
    var decoded := Trim(FieldText(buffer, offset, maxLength));
    if decoded == "" || decoded == "<?>" then
      assert "N/A"[0] == 'N' && "N/A"[2] == 'A';
      "N/A"
    else decoded
  }

  /** A field whose characters trim to nothing or to `<?>` decodes to the sentinel `N/A`. */
  lemma DecodeTextSentinel(buffer: seq<byte>, offset: nat, maxLength: nat)
    requires offset + maxLength <= |buffer|
    requires var t := Trim(FieldText(buffer, offset, maxLength)); t == [] || t == "<?>"
    ensures DecodeText(buffer, offset, maxLength) == "N/A"
  {
  }

  /** The decoded text is the trimmed field text exactly when that is neither empty nor `<?>`; otherwise it is `N/A`. */
  lemma DecodeTextCases(buffer: seq<byte>, offset: nat, maxLength: nat)
    requires offset + maxLength <= |buffer|
    ensures var t := Trim(FieldText(buffer, offset, maxLength));
      DecodeText(buffer, offset, maxLength) == (if t == [] || t == "<?>" then "N/A" else t)
    ensures var t := Trim(FieldText(buffer, offset, maxLength));
      DecodeText(buffer, offset, maxLength) == t <==> t != [] && t != "<?>"
  {
    var t := Trim(FieldText(buffer, offset, maxLength));
    if t == "<?>" {
      assert "<?>"[0] != "N/A"[0];
    }
  }

  /** Decoding from a prefix that contains the whole window gives the same text. */
  lemma DecodeTextOfPrefix(buffer: seq<byte>, n: nat, offset: nat, maxLength: nat)
    requires offset + maxLength <= n <= |buffer|
    ensures DecodeText(buffer[..n], offset, maxLength) == DecodeText(buffer, offset, maxLength)
  {
    assert buffer[..n][offset..offset + maxLength] == buffer[offset..offset + maxLength];
  }

  /** `TextBytes` depends only on the window up to and including its first zero. */
  lemma {:induction false} TextBytesOfSharedPrefix(w: seq<byte>, v: seq<byte>, n: nat)
    requires n <= |w| && n <= |v| && w[..n] == v[..n]
    requires |TextBytes(w)| < n || n == |w| == |v|
    ensures TextBytes(w) == TextBytes(v)
  {
    if w != [] && w[0] != 0 {
      assert v[0] == w[..n][0];
      assert w[1..][..n - 1] == w[..n][1..] == v[..n][1..] == v[1..][..n - 1];
      TextBytesOfSharedPrefix(w[1..], v[1..], n - 1);
    } else if w != [] {
      assert v[0] == w[..n][0];
    }
  }

  /**
   * Changing a byte the decoder does not read (before the window, after the
   * first zero, or past `offset + maxLength`) leaves the decoded text unchanged.
   */
  lemma DecodeTextIgnoresUnreadByte(buffer: seq<byte>, offset: nat, maxLength: nat, j: nat, v: byte)
    requires offset + maxLength <= |buffer| && j < |buffer|
    requires !(offset <= j < offset + BytesExamined(buffer, offset, maxLength))
    ensures DecodeText(buffer[j := v], offset, maxLength) == DecodeText(buffer, offset, maxLength)
  {
    var n := BytesExamined(buffer, offset, maxLength);
    var w := buffer[offset..offset + maxLength];
    var w' := buffer[j := v][offset..offset + maxLength];
    assert w[..n] == w'[..n];
    TextBytesOfSharedPrefix(w, w', n);
  }

  /**
   * `decodeNullTerminatedAscii`: reads the window byte by byte, stopping at
   * the first zero, then trims and substitutes the sentinel.
   */
  method DecodeNullTerminatedAscii(buffer: seq<byte>, offset: nat, maxLength: nat) returns (s: string)
    requires offset + maxLength <= |buffer|
    ensures s == DecodeText(buffer, offset, maxLength)
  {
    ghost var w := buffer[offset..offset + maxLength];
    var str := "";
    var i := 0;
    while i < maxLength
      invariant i <= maxLength
      invariant str == Latin1(w[..i])
      invariant forall k :: 0 <= k < i ==> w[k] != 0
    {
      var charCode := buffer[offset + i];
      assert charCode == w[i];
      if charCode == 0 {
        break;
      }
      assert w[..i + 1] == w[..i] + [charCode];
      Latin1Append(w[..i], charCode);
      str := str + [charCode as char];
      i := i + 1;
    }
    TextBytesUnique(w, i);
    assert str == FieldText(buffer, offset, maxLength);
    var decoded := Trim(str);
    s := if decoded == "" || decoded == "<?>" then "N/A" else decoded;
  }

  // ---------------------------------------------------------------------------
  // The header

  /** Bytes 0 to 4 are `N`, `E`, `S`, `M` and 0x1A. */
  predicate HasNsfSignature(buffer: seq<byte>)
    requires |buffer| >= 5
    ensures HasNsfSignature(buffer) <==> Latin1(buffer[..4]) == "NESM" && buffer[4] == 0x1A
  {
    Latin1Nesm(buffer[..4]);
    assert buffer[..4] == [0x4E, 0x45, 0x53, 0x4D] <==>
      buffer[0] == 0x4E && buffer[1] == 0x45 && buffer[2] == 0x53 && buffer[3] == 0x4D;
    buffer[0] == 0x4E && buffer[1] == 0x45 && buffer[2] == 0x53 && buffer[3] == 0x4D && buffer[4] == 0x1A
  }

  /** A song count or starting song: a raw zero is read as 1. */
  function AtLeastOne(raw: byte): (r: nat)
    ensures r >= 1 && (raw != 0 ==> r == raw)
    ensures raw == 0 ==> r == 1
  {
    if raw == 0 then 1 else raw
  }

  /** `String.fromCharCode` of four bytes spells `NESM` exactly when the bytes are 0x4E, 0x45, 0x53, 0x4D. */
  lemma Latin1Nesm(v: seq<byte>)
    requires |v| == 4
    ensures Latin1(v) == "NESM" <==> v == [0x4E, 0x45, 0x53, 0x4D]
  {
    var s := Latin1(v);
    if s == "NESM" {
      assert s[0] as int == 0x4E && s[1] as int == 0x45 && s[2] as int == 0x53 && s[3] as int == 0x4D;
    }
  }

  /** The record built from the 128-byte header once its signature has been accepted. */
  function HeaderFields(view: seq<byte>): (h: NsfHeader)
    requires |view| == HeaderSize
    ensures h.magic == NsfMagic
    ensures h.totalSongs >= 1 && h.startingSong >= 1
  {
    NsfHeader(
      magic := NsfMagic,
      version := view[0x005],
      totalSongs := AtLeastOne(view[0x006]),
      startingSong := AtLeastOne(view[0x007]),
      loadAddress := ReadUint16LE(view, 0x008),
      initAddress := ReadUint16LE(view, 0x00A),
      playAddress := ReadUint16LE(view, 0x00C),
      songName := DecodeText(view, 0x00E, 32),
      artistName := DecodeText(view, 0x026, 32),
      copyrightName := DecodeText(view, 0x044, 32),
      ntscSpeed := ReadUint16LE(view, 0x060),
      bankswitchInit := view[0x070..0x070 + 8],
      palSpeed := ReadUint16LE(view, 0x06A),
      palNtscSettings := view[0x06C],
      expansionSound := view[0x07B],
      rawHeaderBytes := view[..HeaderSize])
  }

  /**
   * `parseNsfHeader`: `None` for a buffer shorter than 128 bytes or without
   * the signature; otherwise every field read from the first 128 bytes.
   */
  function ParseNsfHeader(buffer: seq<byte>): (r: Option<NsfHeader>)
    ensures r.None? <==> |buffer| < HeaderSize || !HasNsfSignature(buffer)
    ensures r.Some? ==> r.value.magic == NsfMagic
    ensures r.Some? ==> r.value.totalSongs >= 1 && r.value.startingSong >= 1
  {
    if |buffer| < HeaderSize then None
    else
      var view := buffer[..HeaderSize];
      Latin1Nesm(view[..4]);
      assert view[..4] == [0x4E, 0x45, 0x53, 0x4D] <==>
        buffer[0] == 0x4E && buffer[1] == 0x45 && buffer[2] == 0x53 && buffer[3] == 0x4D;
      if Latin1(view[..4]) != "NESM" || view[4] != 0x1A then None
      else Some(HeaderFields(view))
  }

  /** A decoded header is the record built from the buffer's first 128 bytes. */
  lemma ParsedHeader(buffer: seq<byte>, h: NsfHeader)
    requires ParseNsfHeader(buffer) == Some(h)
    ensures |buffer| >= HeaderSize && HasNsfSignature(buffer)
    ensures h == HeaderFields(buffer[..HeaderSize])
  {
  }

  /** The byte-copy fields of the record, in terms of the 128-byte view. */
  lemma HeaderFieldsRaw(view: seq<byte>)
    requires |view| == HeaderSize
    ensures var h := HeaderFields(view);
      h.rawHeaderBytes == view && h.bankswitchInit == view[0x070..0x078] && h.version == view[0x005] &&
      h.palNtscSettings == view[0x06C] && h.expansionSound == view[0x07B]
  {
  }

  /** The text fields of the record, in terms of the 128-byte view. */
  lemma HeaderFieldsText(view: seq<byte>)
    requires |view| == HeaderSize
    ensures var h := HeaderFields(view);
      h.songName == DecodeText(view, 0x00E, 32) && h.artistName == DecodeText(view, 0x026, 32) &&
      h.copyrightName == DecodeText(view, 0x044, 32)
  {
  }

  lemma SliceOfPrefix(buffer: seq<byte>, n: nat, i: nat, j: nat)
    requires i <= j <= n <= |buffer|
    ensures buffer[..n][i..j] == buffer[i..j]
  {
  }

  /** The song counts equal the raw bytes 0x006 and 0x007 when those are non-zero, and 1 otherwise. */
  lemma ParsedSongCounts(buffer: seq<byte>, h: NsfHeader)
    requires ParseNsfHeader(buffer) == Some(h)
    ensures h.totalSongs == if buffer[0x006] == 0 then 1 else buffer[0x006]
    ensures h.startingSong == if buffer[0x007] == 0 then 1 else buffer[0x007]
  {
    ParsedHeader(buffer, h);
  }

  /** The addresses and speeds are the little-endian 16-bit values at their offsets. */
  lemma ParsedWords(buffer: seq<byte>, h: NsfHeader)
    requires ParseNsfHeader(buffer) == Some(h)
    ensures h.loadAddress == buffer[0x008] as int + 256 * (buffer[0x009] as int) < 0x1_0000
    ensures h.initAddress == buffer[0x00A] as int + 256 * (buffer[0x00B] as int) < 0x1_0000
    ensures h.playAddress == buffer[0x00C] as int + 256 * (buffer[0x00D] as int) < 0x1_0000
    ensures h.ntscSpeed == buffer[0x060] as int + 256 * (buffer[0x061] as int) < 0x1_0000
    ensures h.palSpeed == buffer[0x06A] as int + 256 * (buffer[0x06B] as int) < 0x1_0000
  {
    ParsedHeader(buffer, h);
    var view := buffer[..HeaderSize];
    assert view[0x008] == buffer[0x008] && view[0x009] == buffer[0x009];
    assert view[0x00A] == buffer[0x00A] && view[0x00B] == buffer[0x00B];
    assert view[0x00C] == buffer[0x00C] && view[0x00D] == buffer[0x00D];
    assert view[0x060] == buffer[0x060] && view[0x061] == buffer[0x061];
    assert view[0x06A] == buffer[0x06A] && view[0x06B] == buffer[0x06B];
  }

  /** The raw fields are copies of the input: the 128-byte prefix, bytes 0x070 to 0x077, and bytes 0x005, 0x06C and 0x07B. */
  lemma ParsedRawFields(buffer: seq<byte>, h: NsfHeader)
    requires ParseNsfHeader(buffer) == Some(h)
    ensures h.rawHeaderBytes == buffer[..HeaderSize]
    ensures |h.bankswitchInit| == 8 && h.bankswitchInit == buffer[0x070..0x078]
    ensures h.version == buffer[0x005]
    ensures h.palNtscSettings == buffer[0x06C] && h.expansionSound == buffer[0x07B]
  {
    ParsedHeader(buffer, h);
    HeaderFieldsRaw(buffer[..HeaderSize]);
    SliceOfPrefix(buffer, HeaderSize, 0x070, 0x078);
  }

  /** The three text fields are the decoded 32-byte windows at 0x00E, 0x026 and 0x044, none of them empty. */
  lemma ParsedTextFields(buffer: seq<byte>, h: NsfHeader)
    requires ParseNsfHeader(buffer) == Some(h)
    ensures h.songName == DecodeText(buffer, 0x00E, 32) != []
    ensures h.artistName == DecodeText(buffer, 0x026, 32) != []
    ensures h.copyrightName == DecodeText(buffer, 0x044, 32) != []
  {
    ParsedHeader(buffer, h);
    HeaderFieldsText(buffer[..HeaderSize]);
    DecodeTextOfPrefix(buffer, HeaderSize, 0x00E, 32);
    DecodeTextOfPrefix(buffer, HeaderSize, 0x026, 32);
    DecodeTextOfPrefix(buffer, HeaderSize, 0x044, 32);
  }

  /** Only the first 128 bytes matter: buffers that share them decode alike. */
  lemma ParseDependsOnlyOnHeader(a: seq<byte>, b: seq<byte>)
    requires |a| >= HeaderSize && |b| >= HeaderSize && a[..HeaderSize] == b[..HeaderSize]
    ensures ParseNsfHeader(a) == ParseNsfHeader(b)
  {
    assert a[..5] == a[..HeaderSize][..5] == b[..HeaderSize][..5] == b[..5];
    assert HasNsfSignature(a) == HasNsfSignature(b);
  }

  /** `DEFAULT_SONG_INDEX` is a valid 0-based song index of every decoded header. */
  lemma DefaultSongIndexIsValid(buffer: seq<byte>, h: NsfHeader)
    requires ParseNsfHeader(buffer) == Some(h)
    ensures DefaultSongIndex < h.totalSongs
  {
  }
}
