/** The records the decoder produces and the display helpers return. */
module Types {
  import opened JsSemantics

  /**
   * A decoded NSF header. Numbers are kept as the integers the decoder
   * computes; `bankswitchInit` and `rawHeaderBytes` are copies of byte
   * ranges of the input.
   */
  datatype NsfHeader = NsfHeader(
    magic: string,
    version: byte,
    totalSongs: nat,
    startingSong: nat,          // 1-based
    loadAddress: nat,
    initAddress: nat,
    playAddress: nat,
    songName: string,
    artistName: string,
    copyrightName: string,
    ntscSpeed: nat,             // microseconds
    bankswitchInit: seq<byte>,  // bytes 0x070 .. 0x077
    palSpeed: nat,              // microseconds
    palNtscSettings: byte,      // raw byte 0x06C
    expansionSound: byte,       // raw byte 0x07B
    rawHeaderBytes: seq<byte>   // the first 128 bytes
  )

  /** One row of the expansion-chip display: a chip name and whether the file flags it. */
  datatype ExpansionChipInfo = ExpansionChipInfo(name: string, supported: bool)
}
