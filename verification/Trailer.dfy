/**
 The 16-byte header and the 104-byte trailer of an archive file, and the rule by which readers
 and appenders alike pick the authoritative trailer.
 */
module Trailer {
  import opened Wrappers
  import opened LittleEndian

  const HEADER_LEN: nat := 16
  const TRAILER_LEN: nat := 104
  const PENDING_AT: nat := 10

  /** "HTMLARC1", version 12, little-endian. */
  const HEADER_START: Bytes := [72, 84, 77, 76, 65, 82, 67, 49, 12, 0]
  /** "HARCFOOT" */
  const TRAILER_MAGIC: Bytes := [72, 65, 82, 67, 70, 79, 79, 84]

  datatype Error = BadHeader | TooSmall | NoTrailerHere | MissingMagic | RegionOverflow | RegionOutside

  // ---- header ----

  function HeaderBytes(): (h: Bytes)
    ensures |h| == HEADER_LEN
  {
    HEADER_START + [0, 0, 0, 0, 0, 0]
  }

  predicate ValidHeader(file: Bytes) {
    |file| >= HEADER_LEN && file[..PENDING_AT] == HEADER_START
  }

  /** The staged trailer offset: six little-endian bytes, zero meaning none. */
  function PendingOffset(file: Bytes): Option<nat> {
    if |file| < HEADER_LEN then None
    else
      var off := Decode(file[PENDING_AT..HEADER_LEN]);
      if off == 0 then None else Some(off)
  }

  /** The marker bytes for an offset; refused past 48 bits. */
  function PendingBytes(off: nat): Option<Bytes> {
    if off >= 0x1_0000_0000_0000 then None else Some(Encode(off, 6))
  }

  // ---- trailer ----

  datatype Region = Region(off: nat, len: nat)

  datatype Trailer = Trailer(docTable: Region, bundleTable: Region, sortIndex: Region, dict: Region, meta: Region,
                             docCount: nat, bundleCount: nat)

  /** The twelve 64-bit numbers of a trailer, in file order. */
  function Fields(t: Trailer): (f: seq<nat>)
    ensures |f| == 12
  {
    [t.docTable.off, t.docTable.len, t.bundleTable.off, t.bundleTable.len, t.sortIndex.off, t.sortIndex.len,
     t.dict.off, t.dict.len, t.meta.off, t.meta.len, t.docCount, t.bundleCount]
  }

  function FromFields(f: seq<nat>): Trailer
    requires |f| == 12
  {
    Trailer(Region(f[0], f[1]), Region(f[2], f[3]), Region(f[4], f[5]), Region(f[6], f[7]), Region(f[8], f[9]), f[10],
        f[11])
  }

  function WriteFields(f: seq<nat>): (b: Bytes)
    ensures |b| == 8 * |f|
  {
    if f == [] then [] else Encode(f[0], 8) + WriteFields(f[1..])
  }

  function ReadFields(b: Bytes, n: nat): (f: seq<nat>)
    requires |b| == 8 * n
    ensures |f| == n
  {
    if n == 0 then [] else [Decode(b[..8])] + ReadFields(b[8..], n - 1)
  }

  function ToBytes(t: Trailer): (b: Bytes)
    ensures |b| == TRAILER_LEN
  {
    WriteFields(Fields(t)) + TRAILER_MAGIC
  }

  /** The first region, from number `i` on, that does not lie between the header and the trailer. */
  function BadRegion(f: seq<nat>, i: nat, trailerOff: nat): Option<Error>
    requires |f| == 12 && i <= 5
    decreases 5 - i
  {
    if i == 5 then None
    else if f[2 * i] + f[2 * i + 1] >= 0x1_0000_0000_0000_0000 then Some(RegionOverflow)
    else if f[2 * i] < HEADER_LEN || f[2 * i] + f[2 * i + 1] > trailerOff then Some(RegionOutside)
    else BadRegion(f, i + 1, trailerOff)
  }

  function DecodeTrailer(tail: Bytes, trailerOff: nat): Result<Trailer, Error>
    requires |tail| == TRAILER_LEN
  {
    if tail[96..] != TRAILER_MAGIC then Err(MissingMagic)
    else
      var f := ReadFields(tail[..96], 12);
      match BadRegion(f, 0, trailerOff)
      case Some(e) => Err(e)
      case None => Ok(FromFields(f))
  }

  lemma {:induction false} FieldsRoundTrip(f: seq<nat>)
    requires forall i :: 0 <= i < |f| ==> f[i] < Power256(8)
    ensures ReadFields(WriteFields(f), |f|) == f
  {
    if f != [] {
      var b := WriteFields(f);
      assert b[..8] == Encode(f[0], 8) && b[8..] == WriteFields(f[1..]);
      DecodeEncode(f[0], 8);
      FieldsRoundTrip(f[1..]);
    }
  }

  lemma {:induction false} FieldBytes(f: seq<nat>, i: nat)
    requires i < |f|
    ensures WriteFields(f)[8 * i..8 * i + 8] == Encode(f[i], 8)
  {
    if i > 0 {
      FieldBytes(f[1..], i - 1);
      var rest := WriteFields(f[1..]);
      assert WriteFields(f)[8 * i..8 * i + 8] == rest[8 * (i - 1)..8 * (i - 1) + 8];
    }
  }

  /** Where each number stands in the 104 bytes. */
  lemma TrailerBytes(t: Trailer)
    ensures var b := ToBytes(t);
            && b[0..8] == Encode(t.docTable.off, 8) && b[8..16] == Encode(t.docTable.len, 8)
            && b[16..24] == Encode(t.bundleTable.off, 8) && b[24..32] == Encode(t.bundleTable.len, 8)
            && b[32..40] == Encode(t.sortIndex.off, 8) && b[40..48] == Encode(t.sortIndex.len, 8)
            && b[48..56] == Encode(t.dict.off, 8) && b[56..64] == Encode(t.dict.len, 8)
            && b[64..72] == Encode(t.meta.off, 8) && b[72..80] == Encode(t.meta.len, 8)
            && b[80..88] == Encode(t.docCount, 8) && b[88..96] == Encode(t.bundleCount, 8)
            && b[96..104] == [72, 65, 82, 67, 70, 79, 79, 84]
  {
    FieldAt(t, 0);
    FieldAt(t, 1);
    FieldAt(t, 2);
    FieldAt(t, 3);
    FieldAt(t, 4);
    FieldAt(t, 5);
    FieldAt(t, 6);
    FieldAt(t, 7);
    FieldAt(t, 8);
    FieldAt(t, 9);
    FieldAt(t, 10);
    FieldAt(t, 11);
  }

  lemma FieldAt(t: Trailer, i: nat)
    requires i < 12
    ensures ToBytes(t)[8 * i..8 * i + 8] == Encode(Fields(t)[i], 8)
  {
    FieldBytes(Fields(t), i);
    assert ToBytes(t)[8 * i..8 * i + 8] == WriteFields(Fields(t))[8 * i..8 * i + 8];
  }

  /** A written trailer reads back as itself exactly where all five regions lie below it. */
  lemma TrailerRoundTrip(t: Trailer, off: nat)
    requires forall i :: 0 <= i < 12 ==> Fields(t)[i] < Power256(8)
    ensures DecodeTrailer(ToBytes(t), off) == Ok(t) <==>
            forall r :: r in [t.docTable, t.bundleTable, t.sortIndex, t.dict, t.meta] ==>
              HEADER_LEN <= r.off && r.off + r.len <= off && r.off + r.len < 0x1_0000_0000_0000_0000
    ensures DecodeTrailer(ToBytes(t), off).Ok? ==> DecodeTrailer(ToBytes(t), off) == Ok(t)
  {
    var b, f := ToBytes(t), Fields(t);
    FieldsRoundTrip(f);
    assert b[..96] == WriteFields(f) && b[96..] == TRAILER_MAGIC;
    assert FromFields(f) == t;
    var rs := [t.docTable, t.bundleTable, t.sortIndex, t.dict, t.meta];
    assert forall i :: 0 <= i < 5 ==> rs[i] == Region(f[2 * i], f[2 * i + 1]);
    BadRegionIff(f, 0, off);
    if BadRegion(f, 0, off) == None {
      forall r | r in rs ensures HEADER_LEN <= r.off && r.off + r.len <= off
          && r.off + r.len < 0x1_0000_0000_0000_0000 {
        var i :| 0 <= i < 5 && rs[i] == r;
        assert RegionFits(f, i, off);
      }
    } else {
      var i :| 0 <= i < 5 && !RegionFits(f, i, off);
      assert rs[i] in rs;
    }
  }

  predicate RegionFits(f: seq<nat>, i: nat, off: nat)
    requires |f| == 12 && i < 5
  {
    HEADER_LEN <= f[2 * i] && f[2 * i] + f[2 * i + 1] <= off && f[2 * i] + f[2 * i + 1] < 0x1_0000_0000_0000_0000
  }

  lemma {:induction false} BadRegionIff(f: seq<nat>, i: nat, off: nat)
    requires |f| == 12 && i <= 5
    ensures BadRegion(f, i, off) == None <==> forall j :: i <= j < 5 ==> RegionFits(f, j, off)
    decreases 5 - i
  {
    if i < 5 {
      BadRegionIff(f, i + 1, off);
      if BadRegion(f, i, off) == None {
        assert RegionFits(f, i, off);
      } else if BadRegion(f, i + 1, off) == None {
        assert !RegionFits(f, i, off);
      }
    }
  }

  // ---- selection ----

  /** A valid tail wins; otherwise the staged offset, if it lies between header and tail. */
  function Select(len: nat, pending: Option<nat>, read: nat -> Result<Trailer, Error>): Result<(Trailer, nat), Error> {
    if len < HEADER_LEN + TRAILER_LEN then Err(TooSmall)
    else
      var tail := len - TRAILER_LEN;
      match read(tail)
      case Ok(t) => Ok((t, tail))
      case Err(e) =>
        if pending.Some? && HEADER_LEN <= pending.value <= tail then
          match read(pending.value)
          case Ok(t) => Ok((t, pending.value))
          case Err(_) => Err(e)
        else Err(e)
  }

  function ReadAt(file: Bytes, off: nat): Result<Trailer, Error> {
    if off < HEADER_LEN || off + TRAILER_LEN > |file| then Err(NoTrailerHere)
    else DecodeTrailer(file[off..off + TRAILER_LEN], off)
  }

  /** How a reader of the mapped file finds its trailer. */
  function ReadFromTail(file: Bytes): Result<Trailer, Error> {
    if !ValidHeader(file) then Err(BadHeader)
    else
      match Select(|file|, PendingOffset(file), (off: nat) => ReadAt(file, off))
      case Ok((t, _)) => Ok(t)
      case Err(e) => Err(e)
  }

  /** Seeking to an offset and reading a whole trailer there. */
  function SeekAndRead(file: Bytes, off: nat): Result<Trailer, Error> {
    if off + TRAILER_LEN > |file| then Err(NoTrailerHere) else DecodeTrailer(file[off..off + TRAILER_LEN], off)
  }

  /** How an appender finds its trailer, reading only the header and the candidates. */
  function ReadFromFile(file: Bytes): Result<(Trailer, nat), Error> {
    if |file| < HEADER_LEN || !ValidHeader(file[..HEADER_LEN]) then Err(BadHeader)
    else Select(|file|, PendingOffset(file[..HEADER_LEN]), (off: nat) => SeekAndRead(file, off))
  }

  lemma SelectDependsOnCandidates(len: nat, pending: Option<nat>, r: nat -> Result<Trailer, Error>,
      s: nat -> Result<Trailer, Error>)
    requires len >= HEADER_LEN + TRAILER_LEN ==> r(len - TRAILER_LEN) == s(len - TRAILER_LEN)
    requires len >= HEADER_LEN + TRAILER_LEN && pending.Some? && HEADER_LEN <= pending.value <= len - TRAILER_LEN
             ==> r(pending.value) == s(pending.value)
    ensures Select(len, pending, r) == Select(len, pending, s)
  {
  }

  /** Readers and appenders pick the same trailer of the same file. */
  lemma ReadersAgree(file: Bytes)
    ensures ReadFromTail(file) == match ReadFromFile(file) { case Ok((t, _)) => Ok(t) case Err(e) => Err(e) }
  {
    if |file| >= HEADER_LEN {
      assert file[..HEADER_LEN][..PENDING_AT] == file[..PENDING_AT];
      assert file[..HEADER_LEN][PENDING_AT..HEADER_LEN] == file[PENDING_AT..HEADER_LEN];
      SelectDependsOnCandidates(|file|, PendingOffset(file), (off: nat) => ReadAt(file, off),
          (off: nat) => SeekAndRead(file, off));
    }
  }
}
