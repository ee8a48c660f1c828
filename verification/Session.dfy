/**
 An append session as a whole: what the writer produces is what the crash-recovery protocol writes
 to the file byte by byte, and whatever state the file is left in opens as a complete archive.
 */
module Session {
  import opened LittleEndian
  import opened Layout
  import opened Writer
  import R = Reader
  import M = Meta
  import T = Trailer
  import P = AppendProtocol

  /** Nothing stored lies in the header, so the marker bytes there do not matter. */
  lemma HeaderIrrelevant(fmt: Format, file: Bytes, file': Bytes, c: Contents, f: Footer)
    requires FinishedAs(fmt, file, c, f) && |file'| == |file| && file'[T.HEADER_LEN..] == file[T.HEADER_LEN..]
    ensures FinishedAs(fmt, file', c, f)
  {
    forall off: nat, len: nat, what | RegionIs(file, off, len, what) ensures RegionIs(file', off, len, what) {
      SameRegion(file, file', off, len);
    }
    forall b | 0 <= b < |c.bundles| ensures BundleAt(fmt, file', c, b) { assert BundleAt(fmt, file, c, b); }
    forall i | 0 <= i < |c.docs| ensures DocAt(fmt, file', c.docs[i], c.stored[i]) {
      assert DocAt(fmt, file, c.docs[i], c.stored[i]);
    }
    SameRegion(file, file', |file| - T.TRAILER_LEN, T.TRAILER_LEN);
    assert FooterInOrder(file', c, f.trailer);
  }

  lemma SameRegion(file: Bytes, file': Bytes, off: nat, len: nat)
    requires T.HEADER_LEN <= off && off + len <= |file| == |file'| && file'[T.HEADER_LEN..] == file[T.HEADER_LEN..]
    ensures file'[off..off + len] == file[off..off + len]
  {
    forall k | off <= k < off + len ensures file'[k] == file[k] {
      assert file'[T.HEADER_LEN..][k - T.HEADER_LEN] == file[T.HEADER_LEN..][k - T.HEADER_LEN];
    }
  }

  predicate SizesFit(file: Bytes, c: Contents) {
    |file| < 0x1_0000_0000_0000_0000 && |c.docs| < 0x1_0000_0000_0000_0000 && |c.bundles| < 0x1_0000_0000_0000_0000
  }

  /** What a writer adds to a file it was opened on ends in a valid trailer, as the protocol asks. */
  lemma StreamEndsInTrailer(fmt: Format, kept: Bytes, file: Bytes, c: Contents, f: Footer)
    requires T.HEADER_LEN + T.TRAILER_LEN <= |kept| && kept <= file && FinishedAs(fmt, file, c, f) && SizesFit(file, c)
    ensures var stream := file[|kept|..];
            kept + stream == file && P.TrailerAt(kept + stream, |kept| - T.TRAILER_LEN + |stream|)
  {
    TrailerReads(fmt, file, c, f);
  }

  // ---- runs of append sessions ----

  /** A finished archive: what its tables say, and its footer. */
  datatype Version = Version(c: Contents, f: Footer)

  /** `archive`, behind any header, is the finished file of version `v`. */
  ghost predicate Finished(fmt: Format, archive: Bytes, v: Version) {
    var file := T.HeaderBytes() + archive;
    FinishedAs(fmt, file, v.c, v.f) && SizesFit(file, v.c)
        && (v.f.meta.Some? ==> M.TableSound(v.f.meta.value, |v.c.docs|))
  }

  /** `stream` is what a writer resumed on version `v` has added to make version `w`. */
  ghost predicate Resumed(fmt: Format, archive: Bytes, v: Version, stream: Bytes, w: Version) {
    Finished(fmt, archive + stream, w) && v.c.stored <= w.c.stored
  }

  function ArchiveOf(s: P.State): Bytes {
    match P.Visible(s) case Some(archive) => archive case None => []
  }

  /** The version the append in progress in state `i` is to make; `made(k)` is that of the append begun by step `k`. */
  function Brought(run: seq<P.State>, made: nat -> Version, i: nat): Version
    requires i < |run|
  {
    if i == 0 then made(0) else if P.Begin(run[i - 1], run[i]) then made(i) else Brought(run, made, i - 1)
  }

  /** The version on disk in state `i`: it changes only with the last byte of a stream. */
  function Shown(run: seq<P.State>, first: Version, made: nat -> Version, i: nat): Version
    requires i < |run|
  {
    if i == 0 then first
    else if P.Gain(run[i - 1], run[i]) != [] then Brought(run, made, i - 1)
    else Shown(run, first, made, i - 1)
  }

  /** The run starts on a finished archive, and every append in it writes what a writer resumed on it has made. */
  ghost predicate Sessions(fmt: Format, run: seq<P.State>, first: Version, made: nat -> Version) {
    && P.Run(run) && Trusted(fmt) && Finished(fmt, ArchiveOf(run[0]), first)
    && forall i :: 0 < i < |run| ==> BegunWell(fmt, run, first, made, i)
  }

  ghost predicate BegunWell(fmt: Format, run: seq<P.State>, first: Version, made: nat -> Version, i: nat)
    requires 0 < i < |run|
  {
    P.Begin(run[i - 1], run[i]) ==>
      Resumed(fmt, ArchiveOf(run[i - 1]), Shown(run, first, made, i - 1), run[i].stream, made(i))
  }

  /** The archive on disk is version `v`, and a stream still to be completed makes version `w` of it. */
  ghost predicate Carries(fmt: Format, archive: Bytes, pending: bool, stream: Bytes, v: Version, w: Version) {
    Finished(fmt, archive, v) && (pending ==> Resumed(fmt, archive, v, stream, w))
  }

  ghost predicate OnDisk(fmt: Format, s: P.State, v: Version, w: Version) {
    P.Visible(s).Some? && Carries(fmt, ArchiveOf(s), P.Pending(s), s.stream, v, w)
  }

  /** What a step commits is nothing, or the stream that makes the next version. */
  lemma CarriesOn(fmt: Format, archive: Bytes, pending: bool, stream: Bytes, gain: Bytes, begun: bool, pending': bool,
      stream': Bytes, v: Version, w: Version, w': Version)
    requires Carries(fmt, archive, pending, stream, v, w)
    requires gain != [] ==> pending && gain == stream && !pending'
    requires if begun then gain == [] && Resumed(fmt, archive, v, stream', w')
             else w' == w && (pending' ==> pending && stream' == stream && gain == [])
    ensures var v' := if gain != [] then w else v;
            Carries(fmt, archive + gain, pending', stream', v', w') && v.c.stored <= v'.c.stored
  {
    assert archive + [] == archive;
  }

  lemma StepOnDisk(fmt: Format, s: P.State, t: P.State, v: Version, w: Version, w': Version)
    requires OnDisk(fmt, s, v, w) && P.Step(s, t)
    requires if P.Begin(s, t) then Resumed(fmt, ArchiveOf(s), v, t.stream, w') else w' == w
    ensures var v' := if P.Gain(s, t) != [] then w else v;
            OnDisk(fmt, t, v', w') && v.c.stored <= v'.c.stored
  {
    P.StepKeeps(s, t);
    P.StepOutline(s, t);
    CarriesOn(fmt, ArchiveOf(s), P.Pending(s), s.stream, P.Gain(s, t), P.Begin(s, t), P.Pending(t), t.stream, v, w, w');
  }

  lemma {:induction false} RunOnDisk(fmt: Format, run: seq<P.State>, first: Version, made: nat -> Version, i: nat)
      returns (v: Version, w: Version)
    requires Sessions(fmt, run, first, made) && i < |run|
    ensures v == Shown(run, first, made, i) && w == Brought(run, made, i)
    ensures OnDisk(fmt, run[i], v, w) && first.c.stored <= v.c.stored
  {
    if i == 0 {
      v, w := first, made(0);
      StartOnDisk(fmt, run[0], v, w);
    } else {
      v, w := RunOnDisk(fmt, run, first, made, i - 1);
      v, w := NextOnDisk(fmt, run, first, made, i, v, w);
    }
  }

  lemma StartOnDisk(fmt: Format, s: P.State, v: Version, w: Version)
    requires s.phase.Idle? && P.Selected(s.file).Some? && Finished(fmt, ArchiveOf(s), v)
    ensures OnDisk(fmt, s, v, w)
  {
    P.InvSelects(s);
  }

  lemma NextOnDisk(fmt: Format, run: seq<P.State>, first: Version, made: nat -> Version, i: nat, v: Version, w: Version)
      returns (v': Version, w': Version)
    requires Sessions(fmt, run, first, made) && 0 < i < |run|
    requires v == Shown(run, first, made, i - 1) && w == Brought(run, made, i - 1) && OnDisk(fmt, run[i - 1], v, w)
    ensures v' == Shown(run, first, made, i) && w' == Brought(run, made, i)
    ensures OnDisk(fmt, run[i], v', w') && v.c.stored <= v'.c.stored
  {
    assert P.StepAt(run, i - 1) && BegunWell(fmt, run, first, made, i);
    v', w' := Shown(run, first, made, i), Brought(run, made, i);
    StepOnDisk(fmt, run[i - 1], run[i], v, w, w');
  }

  /**
   In every state of every run of appends, each interrupted anywhere, the file opens: as the version
   before the append until the last byte of its stream is written, as the version its writer made
   from then on, and always with all documents the run began with.
   */
  lemma EveryStateOpens(fmt: Format, run: seq<P.State>, first: Version, made: nat -> Version, i: nat)
    requires Sessions(fmt, run, first, made) && i < |run|
    ensures var v := Shown(run, first, made, i);
            && R.Opens(fmt, run[i].file, R.OpenedAs(v.c, v.f)) && ContentsOk(fmt, run[i].file, v.c)
            && first.c.stored <= v.c.stored
    ensures i > 0 ==> Shown(run, first, made, i) in [Shown(run, first, made, i - 1), Brought(run, made, i - 1)]
  {
    var v, w := RunOnDisk(fmt, run, first, made, i);
    StateOpens(fmt, run[i], v);
  }

  lemma StateOpens(fmt: Format, s: P.State, v: Version)
    requires Trusted(fmt) && P.Inv(s) && P.OffsetOk(s) && Finished(fmt, ArchiveOf(s), v)
    ensures R.Opens(fmt, s.file, R.OpenedAs(v.c, v.f)) && ContentsOk(fmt, s.file, v.c)
  {
    P.ReadersFind(s);
    SelectedOpens(fmt, s.file, P.Offset(s), v);
  }

  lemma SelectedOpens(fmt: Format, now: Bytes, at: nat, v: Version)
    requires Trusted(fmt) && T.HEADER_LEN <= at && at + T.TRAILER_LEN <= |now|
    requires T.ReadFromTail(now) == T.ReadAt(now, at) && Finished(fmt, P.Archive(now, at), v)
    ensures R.Opens(fmt, now, R.OpenedAs(v.c, v.f)) && ContentsOk(fmt, now, v.c)
  {
    KeptIsFinished(fmt, now, at, v);
    TrailerReads(fmt, now[..at + T.TRAILER_LEN], v.c, v.f);
    ReadAtPrefix(now, at);
    R.FinishedOpens(fmt, now, at, v.c, v.f);
  }

  /** The file up to its selected trailer is the finished file, but for the header. */
  lemma KeptIsFinished(fmt: Format, now: Bytes, at: nat, v: Version)
    requires T.HEADER_LEN <= at && at + T.TRAILER_LEN <= |now| && Finished(fmt, P.Archive(now, at), v)
    ensures FinishedAs(fmt, now[..at + T.TRAILER_LEN], v.c, v.f) && SizesFit(now[..at + T.TRAILER_LEN], v.c)
  {
    var kept, file := now[..at + T.TRAILER_LEN], T.HeaderBytes() + P.Archive(now, at);
    assert kept[T.HEADER_LEN..] == P.Archive(now, at) == file[T.HEADER_LEN..];
    HeaderIrrelevant(fmt, file, kept, v.c, v.f);
  }

  /** A trailer is read from its own bytes only. */
  lemma ReadAtPrefix(now: Bytes, at: nat)
    requires at + T.TRAILER_LEN <= |now|
    ensures T.ReadAt(now[..at + T.TRAILER_LEN], at) == T.ReadAt(now, at)
  {
    assert now[..at + T.TRAILER_LEN][at..at + T.TRAILER_LEN] == now[at..at + T.TRAILER_LEN];
  }

  /**
   What opening, pushing and finishing leave, as `OpenForAppend` and `Finish` promise it, is a stream
   that makes the next version, with every document there was.
   */
  lemma WriterResumes(fmt: Format, kept: Bytes, file: Bytes, v: Version, w: Version)
    requires T.HEADER_LEN + T.TRAILER_LEN <= |kept| && kept <= file && FinishedAs(fmt, file, w.c, w.f)
             && SizesFit(file, w.c)
    requires v.c.stored <= w.c.stored && (w.f.meta.Some? ==> M.TableSound(w.f.meta.value, |w.c.docs|))
    ensures Resumed(fmt, kept[T.HEADER_LEN..], v, file[|kept|..], w)
  {
    var again := T.HeaderBytes() + (kept[T.HEADER_LEN..] + file[|kept|..]);
    assert file == kept + file[|kept|..];
    assert again[T.HEADER_LEN..] == file[T.HEADER_LEN..];
    HeaderIrrelevant(fmt, file, again, w.c, w.f);
  }
}
