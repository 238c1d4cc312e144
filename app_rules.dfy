/**
 * The two pieces of arithmetic and text logic the page applies to a decoded
 * header: choosing the song selected after loading, and deriving the name
 * of the downloaded MML file from the song name.
 */
module AppRules {
  import opened Wrappers
  import opened JsSemantics
  import opened Types
  import NsfParser

  /**
   * The 0-based song selected after a file loads: the header's 1-based
   * starting song when it lies in 1 .. totalSongs, otherwise the first song.
   */
  function InitialSongIndex(startingSong: int, totalSongs: int): (r: int)
    ensures totalSongs >= 1 ==> 0 <= r < totalSongs
    ensures totalSongs >= 1 ==> (r + 1 == startingSong <==> 0 < startingSong <= totalSongs)
    ensures !(0 < startingSong <= totalSongs) ==> r == 0
  {
    var startingSongOneBased := if startingSong > 0 && startingSong <= totalSongs then startingSong else 1;
    startingSongOneBased - 1
  }

  /** For every header the decoder accepts, the selected song is a valid index into the song list. */
  lemma InitialSongIndexInRange(buffer: seq<byte>, h: NsfHeader)
    requires NsfParser.ParseNsfHeader(buffer) == Some(h)
    ensures 0 <= InitialSongIndex(h.startingSong, h.totalSongs) < h.totalSongs
    ensures InitialSongIndex(h.startingSong, h.totalSongs) + 1 == h.startingSong <==> h.startingSong <= h.totalSongs
    ensures h.startingSong > h.totalSongs ==> InitialSongIndex(h.startingSong, h.totalSongs) == 0
  {
    NsfParser.ParsedSongCounts(buffer, h);
  }

  predicate IsAsciiAlphanumeric(c: char)
  {
    ('a' <= c <= 'z') || ('A' <= c <= 'Z') || ('0' <= c <= '9')
  }

  /** `toLowerCase` on the characters that survive the replacement (ASCII letters and digits). */
  function AsciiLower(c: char): (r: char)
    requires IsAsciiAlphanumeric(c)
    ensures ('a' <= r <= 'z') || ('0' <= r <= '9')
    ensures 'A' <= c <= 'Z' ==> r as int == c as int + 32
    ensures !('A' <= c <= 'Z') ==> r == c
  {
    if 'A' <= c <= 'Z' then (c as int + 32) as char else c
  }

  /** A character of a sanitised name: a lower-case ASCII letter, a digit or `_`. */
  predicate IsSafeChar(c: char)
  {
    ('a' <= c <= 'z') || ('0' <= c <= '9') || c == '_'
  }

  /**
   * `songName.replace(/[^a-z0-9]/gi, '_').toLowerCase() || 'untitled'`:
   * every character that is not an ASCII letter or digit becomes `_`,
   * letters are lowered, and an empty name becomes `untitled`.
   */
  function SafeSongName(songName: string): (r: string)
    ensures songName == [] ==> r == "untitled"
    ensures songName != [] ==> |r| == |songName|
    ensures songName != [] ==> forall k :: 0 <= k < |r| ==>
      r[k] == (if IsAsciiAlphanumeric(songName[k]) then AsciiLower(songName[k]) else '_')
    ensures forall k :: 0 <= k < |r| ==> IsSafeChar(r[k])
  {
    var replaced := seq(|songName|, k requires 0 <= k < |songName| =>
      if IsAsciiAlphanumeric(songName[k]) then AsciiLower(songName[k]) else '_');
    if replaced == [] then "untitled" else replaced
  }

  /** Sanitising a sanitised name changes nothing. */
  lemma SafeSongNameIdempotent(songName: string)
    ensures SafeSongName(SafeSongName(songName)) == SafeSongName(songName)
  {
    var r := SafeSongName(songName);
    var rr := SafeSongName(r);
    assert |r| > 0;
    forall k | 0 <= k < |r|
      ensures rr[k] == r[k]
    {
      assert IsSafeChar(r[k]);
    }
  }

  /** Names that differ only in the case of ASCII letters give the same file name part. */
  lemma SafeSongNameIgnoresCase(a: string, b: string)
    requires |a| == |b|
    requires forall k :: 0 <= k < |a| ==>
      a[k] == b[k] || ('A' <= a[k] <= 'Z' && b[k] as int == a[k] as int + 32)
    ensures SafeSongName(a) == SafeSongName(b)
  {
    var ra, rb := SafeSongName(a), SafeSongName(b);
    if a != [] {
      forall k | 0 <= k < |a|
        ensures ra[k] == rb[k]
      {
        if a[k] != b[k] {
          assert 'a' <= b[k] <= 'z';
        }
      }
    }
  }

  /** The decimal rendering of a number, as a template literal writes it. */
  function DecimalString(n: nat): (r: string)
    ensures r != []
    ensures forall k :: 0 <= k < |r| ==> '0' <= r[k] <= '9'
    ensures n == 0 ==> r == "0"
    ensures n > 0 ==> r[0] != '0'
  {
    if n < 10 then [('0' as int + n) as char]
    else DecimalString(n / 10) + [('0' as int + n % 10) as char]
  }

  /** The value a string of decimal digits denotes. */
  function DecimalValue(s: string): nat
    requires forall k :: 0 <= k < |s| ==> '0' <= s[k] <= '9'
  {
    if s == [] then 0 else 10 * DecimalValue(s[..|s| - 1]) + (s[|s| - 1] as int - '0' as int)
  }

  /** The decimal rendering reads back as the number. */
  lemma {:induction false} DecimalStringRoundTrip(n: nat)
    ensures DecimalValue(DecimalString(n)) == n
  {
    var s := DecimalString(n);
    if n >= 10 {
      DecimalStringRoundTrip(n / 10);
      assert s[..|s| - 1] == DecimalString(n / 10);
    }
  }

  /** `nsf_${safeSongName}_song${songNumber}.mml` with `songNumber` the 1-based selected song. */
  function DownloadFileName(songName: string, selectedSongIndex: nat): (r: string)
    ensures var safe := SafeSongName(songName);
      var digits := DecimalString(selectedSongIndex + 1);
      |r| == 4 + |safe| + 5 + |digits| + 4 &&
      r[..4] == "nsf_" && r[4..4 + |safe|] == safe &&
      r[4 + |safe|..9 + |safe|] == "_song" &&
      r[9 + |safe|..9 + |safe| + |digits|] == digits &&
      r[|r| - 4..] == ".mml"
  {
    var safe := SafeSongName(songName);
    var digits := DecimalString(selectedSongIndex + 1);
    var r := "nsf_" + safe + "_song" + digits + ".mml";
    assert r[..4] == "nsf_";
    assert r[4..4 + |safe|] == safe;
    assert r[4 + |safe|..9 + |safe|] == "_song";
    assert r[9 + |safe|..9 + |safe| + |digits|] == digits;
    r
  }
}
