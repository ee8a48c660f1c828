/**
 In-place append as a protocol over file bytes: stage the old trailer's offset in the header,
 truncate, append the new bundles and footer, clear the marker. The process may stop after any
 byte; the next appender starts from whatever is in the file.
 */
module AppendProtocol {
  import opened Wrappers
  import opened LittleEndian
  import opened Trailer

  // ---- what a file says ----

  predicate TrailerAt(file: Bytes, off: nat) {
    HEADER_LEN <= off && off + TRAILER_LEN <= |file| && DecodeTrailer(file[off..off + TRAILER_LEN], off).Ok?
  }

  predicate TailValid(file: Bytes) {
    |file| >= HEADER_LEN + TRAILER_LEN && TrailerAt(file, |file| - TRAILER_LEN)
  }

  /** Where readers and appenders find the authoritative trailer, if they find one. */
  function Selected(file: Bytes): Option<nat> {
    if !ValidHeader(file) || |file| < HEADER_LEN + TRAILER_LEN then None
    else if TailValid(file) then Some(|file| - TRAILER_LEN)
    else match PendingOffset(file)
      case Some(off) => if TrailerAt(file, off) then Some(off) else None
      case None => None
  }

  /** That is the rule both entry points follow. */
  lemma SelectedByReaders(file: Bytes)
    ensures match ReadFromFile(file)
            case Ok((t, off)) => Selected(file) == Some(off) && TrailerAt(file, off)
                && DecodeTrailer(file[off..off + TRAILER_LEN], off) == Ok(t)
            case Err(_) => Selected(file) == None
    ensures ReadFromTail(file) == match ReadFromFile(file) { case Ok((t, _)) => Ok(t) case Err(e) => Err(e) }
  {
    ReadersAgree(file);
    if |file| >= HEADER_LEN {
      assert file[..HEADER_LEN][..PENDING_AT] == file[..PENDING_AT];
      assert file[..HEADER_LEN][PENDING_AT..HEADER_LEN] == file[PENDING_AT..HEADER_LEN];
    }
  }

  /** The archive behind a trailer: everything from the header's end through the trailer. */
  function Archive(file: Bytes, off: nat): Bytes
    requires HEADER_LEN <= off && off + TRAILER_LEN <= |file|
  {
    file[HEADER_LEN..off + TRAILER_LEN]
  }

  // ---- the protocol ----

  datatype Phase =
    | Idle
    | Staging(written: nat)    // marker bytes rewritten so far
    | Appending(written: nat)  // truncated; stream bytes appended so far
    | Clearing(written: nat)   // new tail durable; header bytes rewritten so far

  /** `done` is history: the streams of all committed appends, one after the other. */
  datatype State = State(file: Bytes, phase: Phase, off: nat, stream: Bytes, done: Bytes)

  /**
   What an appender writes after the trailer at `off`: it ends in a valid trailer, and no shorter
   piece of it (8 bytes or more) happens to end in one.
   */
  predicate Clean(file: Bytes, off: nat, stream: Bytes)
    requires off + TRAILER_LEN <= |file|
  {
    var base := file[..off + TRAILER_LEN];
    && TrailerAt(base + stream, off + |stream|)
    && forall k :: 8 <= k < |stream| ==> !TrailerAt(base + stream[..k], off + k)
  }

  predicate Begin(s: State, t: State) {
    && s.phase.Idle? && Selected(s.file).Some? && PendingBytes(Selected(s.file).value).Some?
    && Selected(s.file).value + TRAILER_LEN <= |s.file| && Clean(s.file, Selected(s.file).value, t.stream)
    && t == State(s.file, Staging(0), Selected(s.file).value, t.stream, s.done)
  }

  predicate StageByte(s: State, t: State) {
    && s.phase.Staging? && s.phase.written < 6 && PENDING_AT + s.phase.written < |s.file|
    && t == s.(file := s.file[PENDING_AT + s.phase.written := Encode(s.off, 6)[s.phase.written]],
               phase := Staging(s.phase.written + 1))
  }

  predicate Truncate(s: State, t: State) {
    && s.phase == Staging(6) && s.off + TRAILER_LEN <= |s.file|
    && t == s.(file := s.file[..s.off + TRAILER_LEN], phase := Appending(0))
  }

  predicate AppendByte(s: State, t: State) {
    && s.phase.Appending? && s.phase.written < |s.stream|
    && t == s.(file := s.file + [s.stream[s.phase.written]], phase := Appending(s.phase.written + 1),
               done := if s.phase.written + 1 == |s.stream| then s.done + s.stream else s.done)
  }

  predicate StartClear(s: State, t: State) {
    s.phase == Appending(|s.stream|) && t == s.(phase := Clearing(0))
  }

  predicate ClearByte(s: State, t: State) {
    && s.phase.Clearing? && s.phase.written < HEADER_LEN && s.phase.written < |s.file|
    && t == s.(file := s.file[s.phase.written := HeaderBytes()[s.phase.written]],
       phase := Clearing(s.phase.written + 1))
  }

  predicate Finish(s: State, t: State) {
    s.phase == Clearing(HEADER_LEN) && t == s.(phase := Idle)
  }

  /** The process stops, at any point; the bytes written so far stay. */
  predicate Crash(s: State, t: State) {
    t == s.(phase := Idle)
  }

  predicate Step(s: State, t: State) {
    Begin(s, t) || StageByte(s, t) || Truncate(s, t) || AppendByte(s, t) || StartClear(s, t) || ClearByte(s, t)
        || Finish(s, t) || Crash(s, t)
  }

  // ---- the invariant ----

  predicate StagedIn(file: Bytes, off: nat) {
    |file| >= HEADER_LEN && off < 0x1_0000_0000_0000 && file[PENDING_AT..HEADER_LEN] == Encode(off, 6)
  }

  predicate Inv(s: State) {
    && ValidHeader(s.file) && |s.file| >= HEADER_LEN + TRAILER_LEN
    && match s.phase {
      case Idle => Selected(s.file).Some?
      case Staging(i) =>
        && i <= 6 && s.off < 0x1_0000_0000_0000 && TrailerAt(s.file, s.off) && Clean(s.file, s.off, s.stream)
        && s.file[PENDING_AT..PENDING_AT + i] == Encode(s.off, 6)[..i]
        && (if TailValid(s.file) then s.off == |s.file| - TRAILER_LEN else StagedIn(s.file, s.off))
      case Appending(k) =>
        && k <= |s.stream| && |s.file| == s.off + TRAILER_LEN + k && TrailerAt(s.file, s.off) && StagedIn(s.file, s.off)
        && Clean(s.file, s.off, s.stream) && s.file[s.off + TRAILER_LEN..] == s.stream[..k]
      case Clearing(i) =>
        && i <= HEADER_LEN && |s.file| == s.off + TRAILER_LEN + |s.stream| && TailValid(s.file)
        && s.file[..i] == HeaderBytes()[..i]
    }
  }

  /** The trailer offset every reader finds in a state of the protocol. */
  function Offset(s: State): nat {
    match s.phase
    case Idle => (match Selected(s.file) case Some(off) => off case None => 0)
    case Staging(_) => s.off
    case Appending(k) => if k < |s.stream| then s.off else s.off + |s.stream|
    case Clearing(_) => s.off + |s.stream|
  }

  // ---- bytes ----

  /** A trailer is read from its own bytes only. */
  lemma TrailerFrame(file: Bytes, file': Bytes, off: nat)
    requires off + TRAILER_LEN <= |file| && off + TRAILER_LEN <= |file'|
    requires file'[off..off + TRAILER_LEN] == file[off..off + TRAILER_LEN]
    ensures TrailerAt(file', off) == TrailerAt(file, off)
  {
  }

  lemma SliceAfterHeader(file: Bytes, file': Bytes, from: nat, to: nat)
    requires HEADER_LEN <= from <= to <= |file| && to <= |file'|
    requires forall i :: HEADER_LEN <= i < to ==> file'[i] == file[i]
    ensures file'[from..to] == file[from..to]
  {
  }

  lemma PatchElsewhere<X>(f: seq<X>, pos: nat, x: X, a: nat, b: nat)
    requires pos < |f| && a <= b <= |f| && (pos < a || b <= pos)
    ensures f[pos := x][a..b] == f[a..b]
  {
  }

  lemma PatchThrough<X>(f: seq<X>, pos: nat, x: X, a: nat)
    requires a <= pos < |f|
    ensures f[pos := x][a..pos + 1] == f[a..pos] + [x]
  {
  }

  lemma OneMore<X>(f: seq<X>, x: X, a: nat, b: nat)
    requires a <= b <= |f|
    ensures (f + [x])[a..b] == f[a..b] && (f + [x])[a..] == f[a..] + [x]
  {
  }

  lemma TakeOneMore<X>(f: seq<X>, i: nat)
    requires i < |f|
    ensures f[..i] + [f[i]] == f[..i + 1]
  {
  }

  /** Trailers survive a rewrite of header bytes. */
  lemma TrailersKept(file: Bytes, file': Bytes, off: nat)
    requires HEADER_LEN <= off && off + TRAILER_LEN <= |file| == |file'| && forall i :: HEADER_LEN <= i < |file| ==>
             file'[i] == file[i]
    ensures TrailerAt(file', off) == TrailerAt(file, off) && TailValid(file') == TailValid(file)
  {
    SliceAfterHeader(file, file', off, off + TRAILER_LEN);
    TrailerFrame(file, file', off);
    if |file| >= HEADER_LEN + TRAILER_LEN {
      SliceAfterHeader(file, file', |file| - TRAILER_LEN, |file|);
      TrailerFrame(file, file', |file| - TRAILER_LEN);
    }
  }

  /** A clean stream stays clean when header bytes change or bytes past the trailer are cut. */
  lemma CleanFrame(file: Bytes, file': Bytes, off: nat, stream: Bytes)
    requires HEADER_LEN <= off && off + TRAILER_LEN <= |file| && off + TRAILER_LEN <= |file'|
    requires forall i :: HEADER_LEN <= i < off + TRAILER_LEN ==> file'[i] == file[i]
    ensures Clean(file', off, stream) == Clean(file, off, stream)
  {
    var b, b' := file[..off + TRAILER_LEN], file'[..off + TRAILER_LEN];
    forall k | 0 <= k <= |stream| ensures TrailerAt(b + stream[..k], off + k) == TrailerAt(b' + stream[..k], off + k) {
      var f, f' := b + stream[..k], b' + stream[..k];
      SliceAfterHeader(f, f', off + k, off + k + TRAILER_LEN);
      TrailerFrame(f, f', off + k);
    }
    assert stream[..|stream|] == stream;
  }

  lemma MagicOf(file: Bytes, off: nat)
    requires off + TRAILER_LEN <= |file|
    ensures TrailerAt(file, off) ==> forall j :: 0 <= j < 8 ==> file[off + 96 + j] == TRAILER_MAGIC[j]
  {
    var tail := file[off..off + TRAILER_LEN];
    assert forall j :: 0 <= j < 8 ==> tail[96..][j] == tail[96 + j] == file[off + 96 + j];
  }

  /** "HARCFOOT" overlaps itself nowhere, so 1 to 7 bytes after a trailer never complete another. */
  lemma NoBorder(file: Bytes, off: nat, k: nat)
    requires TrailerAt(file, off) && 1 <= k < 8 && off + TRAILER_LEN + k <= |file|
    ensures !TrailerAt(file, off + k)
  {
    MagicOf(file, off);
    assert file[off + 96 + k] == TRAILER_MAGIC[k] != TRAILER_MAGIC[0];
    MagicOf(file, off + k);
  }

  /**
   Exactly when a half-written append still shows the old archive: the last 104 bytes of what has
   been written so far must not happen to be a trailer.
   */
  lemma OldUntilFalseTail(file: Bytes, off: nat, k: nat)
    requires ValidHeader(file) && TrailerAt(file, off) && StagedIn(file, off) && |file| == off + TRAILER_LEN + k
             && k > 0
    ensures Selected(file) == Some(off) <==> !TrailerAt(file, off + k)
  {
    PendingIsStaged(file, off);
  }

  /** A trailer that names nothing but empty regions right behind the header. */
  function EmptyTrailer(): Trailer {
    var none := Region(HEADER_LEN, 0);
    Trailer(none, none, none, none, none, 0, 0)
  }

  /** A header that stages the trailer at `off`. */
  function StagingHeader(off: nat): (h: Bytes)
    requires off < 0x1_0000_0000_0000
    ensures |h| == HEADER_LEN && ValidHeader(h) && StagedIn(h, off)
  {
    var h := HEADER_START + Encode(off, 6);
    assert h[..PENDING_AT] == HEADER_START && h[PENDING_AT..HEADER_LEN] == Encode(off, 6);
    h
  }

  lemma {:induction false} BigEnough(n: nat)
    requires n > 0
    ensures Power256(n) > 16
    decreases n
  {
    if n > 1 { BigEnough(n - 1); }
  }

  lemma EmptyTrailerReads(off: nat)
    requires HEADER_LEN <= off
    ensures DecodeTrailer(ToBytes(EmptyTrailer()), off) == Ok(EmptyTrailer())
  {
    BigEnough(8);
    TrailerRoundTrip(EmptyTrailer(), off);
  }

  lemma PendingIsStaged(file: Bytes, off: nat)
    requires StagedIn(file, off) && off > 0
    ensures PendingOffset(file) == Some(off)
  {
    assert Power256(6) == 0x1_0000_0000_0000 by {
      assert Power256(1) == 256 && Power256(2) == 65536 && Power256(3) == 0x100_0000 && Power256(4) == 0x1_0000_0000;
    }
    DecodeEncode(off, 6);
  }

  // ---- one step ----

  lemma InvSelects(s: State)
    requires Inv(s)
    ensures Selected(s.file) == Some(Offset(s)) && TrailerAt(s.file, Offset(s))
  {
    var off := Offset(s);
    match s.phase
    case Idle =>
    case Staging(i) =>
      if !TailValid(s.file) { PendingIsStaged(s.file, off); }
    case Appending(k) =>
      AppendingSelects(s);
    case Clearing(i) =>
  }

  /** While appending, the file is the old archive and the bytes of the stream written so far. */
  lemma AppendedSoFar(s: State)
    requires Inv(s) && s.phase.Appending?
    ensures s.file == s.file[..s.off + TRAILER_LEN] + s.stream[..s.phase.written]
    ensures s.phase.written == |s.stream| ==> s.file == s.file[..s.off + TRAILER_LEN] + s.stream
  {
    if s.phase.written == |s.stream| { assert s.stream[..|s.stream|] == s.stream; }
  }

  lemma AppendingSelects(s: State)
    requires Inv(s) && s.phase.Appending?
    ensures Selected(s.file) == Some(Offset(s)) && TrailerAt(s.file, Offset(s))
  {
    TailSoFar(s);
    WrittenSelects(s.file, s.off, |s.stream|, s.phase.written);
  }

  /** With `k` of `n` bytes behind a staged trailer, only the last one making up another trailer counts. */
  lemma WrittenSelects(file: Bytes, off: nat, n: nat, k: nat)
    requires ValidHeader(file) && HEADER_LEN <= off && |file| == off + TRAILER_LEN + k && k <= n
    requires TrailerAt(file, off) && StagedIn(file, off) && (TrailerAt(file, off + k) <==> k == 0 || k == n)
    ensures var at := if k < n then off else off + n; Selected(file) == Some(at) && TrailerAt(file, at)
  {
    if 0 < k < n {
      OldUntilFalseTail(file, off, k);
    } else {
      TailSelects(file, off + k);
    }
  }

  /** What has been written ends in a trailer if it is nothing or all of the stream, and otherwise does not. */
  lemma TailSoFar(s: State)
    requires Inv(s) && s.phase.Appending?
    ensures var k := s.phase.written; TrailerAt(s.file, s.off + k) <==> k == 0 || k == |s.stream|
  {
    var k := s.phase.written;
    AppendedSoFar(s);
    if 0 < k < 8 { NoBorder(s.file, s.off, k); }
  }

  /** A trailer at the very end is the one selected. */
  lemma TailSelects(file: Bytes, off: nat)
    requires ValidHeader(file) && HEADER_LEN <= off && |file| == off + TRAILER_LEN && TrailerAt(file, off)
    ensures Selected(file) == Some(off)
  {
  }

  /** What a step commits: the whole stream if it writes its last byte, nothing otherwise. */
  function Gain(s: State, t: State): Bytes {
    if AppendByte(s, t) && s.phase.written + 1 == |s.stream| then s.stream else []
  }

  predicate OffsetOk(s: State) {
    HEADER_LEN <= Offset(s) && Offset(s) + TRAILER_LEN <= |s.file|
  }

  /** The archive of `t` is the archive of `s` plus what the step committed. */
  predicate Grows(s: State, t: State) {
    && OffsetOk(s) && OffsetOk(t) && t.done == s.done + Gain(s, t)
    && Archive(t.file, Offset(t)) == Archive(s.file, Offset(s)) + Gain(s, t)
  }

  /** A step that keeps the offset and every byte past the header commits nothing. */
  lemma KeepsArchive(s: State, t: State)
    requires OffsetOk(s) && OffsetOk(t) && Offset(t) == Offset(s) && Gain(s, t) == [] && t.done == s.done
    requires forall i :: HEADER_LEN <= i < Offset(s) + TRAILER_LEN ==> t.file[i] == s.file[i]
    ensures Grows(s, t)
  {
    SliceAfterHeader(s.file, t.file, HEADER_LEN, Offset(s) + TRAILER_LEN);
  }

  lemma BeginKeeps(s: State, t: State)
    requires Inv(s) && Begin(s, t)
    ensures Inv(t) && Offset(t) == Offset(s)
  {
    if !TailValid(s.file) {
      EncodeDecode(s.file[PENDING_AT..HEADER_LEN]);
    }
  }

  lemma StageByteKeeps(s: State, t: State)
    requires Inv(s) && StageByte(s, t)
    ensures Inv(t) && Offset(t) == Offset(s)
  {
    var i, enc := s.phase.written, Encode(s.off, 6);
    var pos := PENDING_AT + i;
    PatchElsewhere(s.file, pos, enc[i], 0, PENDING_AT);
    PatchThrough(s.file, pos, enc[i], PENDING_AT);
    TakeOneMore(enc, i);
    TrailersKept(s.file, t.file, s.off);
    CleanFrame(s.file, t.file, s.off, s.stream);
    if !TailValid(s.file) {
      assert s.file[PENDING_AT..HEADER_LEN][i] == enc[i];
      assert t.file == s.file;
    }
  }

  lemma TruncateKeeps(s: State, t: State)
    requires Inv(s) && Truncate(s, t)
    ensures Inv(t) && Offset(t) <= Offset(s) + |s.stream| && (s.stream != [] ==> Offset(t) == Offset(s))
  {
    assert t.file[..PENDING_AT] == s.file[..PENDING_AT];
    assert Encode(s.off, 6)[..6] == Encode(s.off, 6);
    assert t.file[PENDING_AT..HEADER_LEN] == s.file[PENDING_AT..HEADER_LEN];
    SliceAfterHeader(s.file, t.file, s.off, s.off + TRAILER_LEN);
    TrailerFrame(s.file, t.file, s.off);
    CleanFrame(s.file, t.file, s.off, s.stream);
  }

  lemma AppendByteKeeps(s: State, t: State)
    requires Inv(s) && AppendByte(s, t)
    ensures Inv(t)
  {
    var k, x := s.phase.written, s.stream[s.phase.written];
    OneMore(s.file, x, 0, PENDING_AT);
    OneMore(s.file, x, PENDING_AT, HEADER_LEN);
    OneMore(s.file, x, s.off + TRAILER_LEN, |s.file|);
    OneMore(s.file, x, s.off, s.off + TRAILER_LEN);
    TakeOneMore(s.stream, k);
    TrailerFrame(s.file, t.file, s.off);
    CleanFrame(s.file, t.file, s.off, s.stream);
  }

  /** The last byte of a stream completes the stretch it was written to. */
  lemma LastByte(file: Bytes, m: nat, stream: Bytes, file': Bytes)
    requires HEADER_LEN <= m <= |file| && stream != [] && file[m..] == stream[..|stream| - 1]
             && file' == file + [stream[|stream| - 1]]
    ensures file'[HEADER_LEN..] == file[HEADER_LEN..m] + stream
  {
    assert file == file[..m] + file[m..];
    assert stream == stream[..|stream| - 1] + [stream[|stream| - 1]];
  }

  lemma AppendByteGrows(s: State, t: State)
    requires Inv(s) && AppendByte(s, t) && OffsetOk(s) && OffsetOk(t)
    ensures Grows(s, t)
  {
    var k := s.phase.written;
    if k + 1 == |s.stream| {
      LastByte(s.file, s.off + TRAILER_LEN, s.stream, t.file);
    } else {
      KeepsArchive(s, t);
    }
  }

  lemma StartClearKeeps(s: State, t: State)
    requires Inv(s) && StartClear(s, t)
    ensures Inv(t) && Offset(t) == Offset(s)
  {
    assert s.file == s.file[..s.off + TRAILER_LEN] + s.stream;
  }

  lemma ClearByteKeeps(s: State, t: State)
    requires Inv(s) && ClearByte(s, t)
    ensures Inv(t) && Offset(t) == Offset(s)
  {
    var i, x := s.phase.written, HeaderBytes()[s.phase.written];
    if i < PENDING_AT {
      assert x == HEADER_START[i] == s.file[..PENDING_AT][i];
      assert t.file == s.file;
    } else {
      PatchElsewhere(s.file, i, x, 0, PENDING_AT);
    }
    PatchThrough(s.file, i, x, 0);
    TakeOneMore(HeaderBytes(), i);
    TrailersKept(s.file, t.file, |s.file| - TRAILER_LEN);
  }

  /**
   One step, whatever it is: the invariant holds on, and the archive readers see is unchanged
   except that writing the last byte of a stream adds exactly that stream to it.
   */
  lemma StepKeeps(s: State, t: State)
    requires Inv(s) && Step(s, t)
    ensures Inv(t) && Grows(s, t)
  {
    StepKeepsInv(s, t);
    StepGrows(s, t);
  }

  lemma StepKeepsInv(s: State, t: State)
    requires Inv(s) && Step(s, t)
    ensures Inv(t) && (!AppendByte(s, t) ==> Offset(t) == Offset(s))
  {
    if Begin(s, t) { BeginKeeps(s, t); }
    else if StageByte(s, t) { StageByteKeeps(s, t); }
    else if Truncate(s, t) { TruncateKeeps(s, t); }
    else if AppendByte(s, t) { AppendByteKeeps(s, t); }
    else if StartClear(s, t) { StartClearKeeps(s, t); }
    else if ClearByte(s, t) { ClearByteKeeps(s, t); }
    else { StoppedKeeps(s, t); }
  }

  /** Whether an append finishes or the process stops, readers go by the file alone. */
  lemma StoppedKeeps(s: State, t: State)
    requires Inv(s) && (Finish(s, t) || Crash(s, t))
    ensures Inv(t) && Offset(t) == Offset(s)
  {
    InvSelects(s);
  }

  lemma StepGrows(s: State, t: State)
    requires Inv(s) && Inv(t) && Step(s, t) && (!AppendByte(s, t) ==> Offset(t) == Offset(s))
    ensures Grows(s, t)
  {
    InvSelects(s);
    InvSelects(t);
    if AppendByte(s, t) {
      AppendByteGrows(s, t);
    } else {
      KeepsArchive(s, t);
    }
  }

  /** The stream of the append in progress is not yet complete. */
  predicate Pending(s: State) {
    s.phase.Staging? || (s.phase.Appending? && s.phase.written < |s.stream|)
  }

  /** A step begins an append, or goes on with one until its stream is complete, or stops it. */
  lemma StepOutline(s: State, t: State)
    requires Step(s, t)
    ensures Gain(s, t) != [] ==> Pending(s) && Gain(s, t) == s.stream && !Pending(t)
    ensures Begin(s, t) ==> Gain(s, t) == []
    ensures Pending(t) ==> Begin(s, t) || (Pending(s) && t.stream == s.stream && Gain(s, t) == [])
  {
  }

  /** In every state of the protocol readers find the trailer at its offset. */
  lemma ReadersFind(s: State)
    requires Inv(s)
    ensures OffsetOk(s) && ReadFromTail(s.file) == ReadAt(s.file, Offset(s))
  {
    InvSelects(s);
    SelectedByReaders(s.file);
  }

  // ---- whole runs ----

  predicate Run(run: seq<State>) {
    && |run| > 0 && run[0].phase.Idle? && run[0].done == [] && Selected(run[0].file).Some?
    && forall i :: 0 <= i < |run| - 1 ==> StepAt(run, i)
  }

  /** Each state follows on the one before by a step. */
  predicate Chain(run: seq<State>) {
    forall i :: 0 <= i < |run| - 1 ==> StepAt(run, i)
  }

  predicate StepAt(run: seq<State>, i: nat)
    requires i + 1 < |run|
  {
    Step(run[i], run[i + 1])
  }

  /**
   Over any number of appends, each interrupted anywhere: in every state readers and appenders
   find the same trailer, and what lies behind it is the initial archive followed by the streams
   of the appends whose last byte was written, byte for byte.
   */
  lemma {:induction false} ReadersSeeCommitted(run: seq<State>, i: nat)
    requires Run(run) && i < |run|
    ensures OffsetOk(run[i]) && OffsetOk(run[0])
    ensures Archive(run[i].file, Offset(run[i])) == Archive(run[0].file, Offset(run[0])) + run[i].done
    ensures ReadFromFile(run[i].file).Ok? && ReadFromFile(run[i].file).value.1 == Offset(run[i])
    ensures ReadFromTail(run[i].file) == Ok(ReadFromFile(run[i].file).value.0)
  {
    RunArchive(run, i);
    InvSelects(run[i]);
    SelectedByReaders(run[i].file);
  }

  /** In a state of the protocol: the archive behind the trailer that readers find. */
  function Visible(s: State): Option<Bytes> {
    if Inv(s) && OffsetOk(s) then Some(Archive(s.file, Offset(s))) else None
  }

  /** `t` shows the archive of `s` and behind it what has been committed. */
  predicate Follows(s: State, t: State) {
    Visible(s).Some? && Visible(t) == Some(Visible(s).value + t.done)
  }

  lemma {:induction false} RunArchive(run: seq<State>, i: nat)
    requires Run(run) && i < |run|
    ensures Follows(run[0], run[i])
  {
    if i == 0 {
      StartFollows(run[0]);
    } else {
      RunArchive(run, i - 1);
      RunOn(run, i);
    }
  }

  lemma RunOn(run: seq<State>, i: nat)
    requires Run(run) && 0 < i < |run| && Follows(run[0], run[i - 1])
    ensures Follows(run[0], run[i])
  {
    assert StepAt(run, i - 1);
    OneMoreStep(run[0], run[i - 1], run[i]);
  }

  lemma StartFollows(s: State)
    requires s.phase.Idle? && s.done == [] && Selected(s.file).Some?
    ensures Follows(s, s)
  {
    InvSelects(s);
    assert Archive(s.file, Offset(s)) + [] == Archive(s.file, Offset(s));
  }

  lemma OneMoreStep(first: State, s: State, t: State)
    requires Follows(first, s) && Step(s, t)
    ensures Follows(first, t)
  {
    StepKeeps(s, t);
    Associate(Visible(first).value, s.done, Gain(s, t));
  }

  lemma Associate(a: Bytes, b: Bytes, c: Bytes)
    ensures a + b + c == a + (b + c)
  {
  }

  /** An append that runs to its end leaves no marker behind. */
  lemma FinishedIsClean(s: State, t: State)
    requires Inv(s) && Finish(s, t)
    ensures t.file[..HEADER_LEN] == HeaderBytes() && PendingOffset(t.file) == None && TailValid(t.file)
  {
    assert t.file[PENDING_AT..HEADER_LEN] == t.file[..HEADER_LEN][PENDING_AT..] == [0, 0, 0, 0, 0, 0];
    assert Encode(0, 6) == [0, 0, 0, 0, 0, 0] by {
      assert Encode(0, 3) == [0, 0, 0];
    }
    assert Power256(6) > 0;
    DecodeEncode(0, 6);
  }

  // ---- an append that is not interrupted ----

  /** The next thing an appender does. */
  function Next(s: State): State
    requires Inv(s) && !s.phase.Idle?
  {
    match s.phase
    case Staging(i) =>
      if i == 6 then s.(file := s.file[..s.off + TRAILER_LEN], phase := Appending(0))
      else s.(file := s.file[PENDING_AT + i := Encode(s.off, 6)[i]], phase := Staging(i + 1))
    case Appending(k) =>
      if k == |s.stream| then s.(phase := Clearing(0))
      else
        s.(file := s.file + [s.stream[k]], phase := Appending(k + 1),
           done := if k + 1 == |s.stream| then s.done + s.stream else s.done)
    case Clearing(i) =>
      if i == HEADER_LEN then s.(phase := Idle) else s.(file := s.file[i := HeaderBytes()[i]], phase := Clearing(i + 1))
  }

  function StepsLeft(s: State): int {
    match s.phase
    case Idle => 0
    case Clearing(i) => HEADER_LEN - i + 1
    case Appending(k) => HEADER_LEN + 2 + |s.stream| - k
    case Staging(i) => HEADER_LEN + 3 + |s.stream| + 6 - i
  }

  /** What the append has yet to commit. */
  function Uncommitted(s: State): Bytes {
    if s.phase.Staging? || (s.phase.Appending? && s.phase.written < |s.stream|) then s.stream else []
  }

  lemma Chained(s: State, rest: seq<State>)
    requires |rest| > 0 && Chain(rest) && Step(s, rest[0])
    ensures Chain([s] + rest) && ([s] + rest)[0] == s && ([s] + rest)[|rest|] == rest[|rest| - 1]
  {
    forall i | 0 <= i < |rest| ensures StepAt([s] + rest, i) {
      assert i > 0 ==> StepAt(rest, i - 1);
    }
  }

  /** Left alone, an append commits exactly its stream and leaves a clean header behind. */
  lemma {:induction false} Completes(s: State) returns (run: seq<State>)
    requires Inv(s) && !s.phase.Idle?
    ensures |run| > 0 && run[0] == s && Chain(run)
    ensures var t := run[|run| - 1];
            t.phase.Idle? && t.done == s.done + Uncommitted(s) && PendingOffset(t.file) == None && TailValid(t.file)
    ensures OffsetOk(s)
    ensures run[|run| - 1].file == HeaderBytes() + Archive(s.file, Offset(s)) + Uncommitted(s)
    decreases StepsLeft(s)
  {
    var t := Next(s);
    NextIsStep(s);
    NextGains(s);
    StepKeeps(s, t);
    if t.phase.Idle? {
      FinishedIsClean(s, t);
      FinishLeaves(s, t);
      Chained(s, [t]);
      run := [s] + [t];
    } else {
      var rest := Completes(t);
      Chained(s, rest);
      run := [s] + rest;
      LeavesAsWell(s, t, run[|run| - 1].file);
    }
  }

  lemma FinishLeaves(s: State, t: State)
    requires Inv(s) && Finish(s, t)
    ensures OffsetOk(s) && Uncommitted(s) == []
    ensures t.file == HeaderBytes() + Archive(s.file, Offset(s)) + Uncommitted(s)
  {
    assert s.file == s.file[..HEADER_LEN] + s.file[HEADER_LEN..|s.file|] + [];
  }

  /** What is left after a step is what is left before it, the step's own gain included. */
  lemma LeavesAsWell(s: State, t: State, file: Bytes)
    requires Grows(s, t) && Gain(s, t) + Uncommitted(t) == Uncommitted(s)
    requires file == HeaderBytes() + Archive(t.file, Offset(t)) + Uncommitted(t)
    ensures file == HeaderBytes() + Archive(s.file, Offset(s)) + Uncommitted(s)
  {
    var h, a, g, u := HeaderBytes(), Archive(s.file, Offset(s)), Gain(s, t), Uncommitted(t);
    assert h + (a + g) + u == h + a + (g + u);
  }

  lemma NextGains(s: State)
    requires Inv(s) && !s.phase.Idle?
    ensures Gain(s, Next(s)) + Uncommitted(Next(s)) == Uncommitted(s)
  {
  }

  lemma NextIsStep(s: State)
    requires Inv(s) && !s.phase.Idle?
    ensures Step(s, Next(s)) && 0 <= StepsLeft(Next(s)) < StepsLeft(s)
    ensures Next(s).phase.Idle? ==> Finish(s, Next(s))
    ensures Next(s).done + Uncommitted(Next(s)) == s.done + Uncommitted(s)
  {
  }

  /**
   Whatever state an earlier append was stopped in, the next one can start if the trailer found lies
   below 2^48 and its stream is clean; left alone, it adds exactly that stream to the archive.
   */
  lemma Appends(s: State, stream: Bytes) returns (run: seq<State>)
    requires Inv(s) && s.phase.Idle? && Offset(s) < 0x1_0000_0000_0000
    requires Clean(s.file, Offset(s), stream)
    ensures |run| > 0 && run[0] == s && Chain(run)
    ensures var t := run[|run| - 1];
            && t.phase.Idle? && OffsetOk(s) && TailValid(t.file)
            && t.file == HeaderBytes() + Archive(s.file, Offset(s)) + stream
  {
    InvSelects(s);
    var b := State(s.file, Staging(0), Offset(s), stream, s.done);
    assert Begin(s, b);
    BeginKeeps(s, b);
    var rest := Completes(b);
    Chained(s, rest);
    run := [s] + rest;
  }
}
