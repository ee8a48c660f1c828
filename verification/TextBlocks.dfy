/**
 A document's text pool cut into blocks at text-node boundaries, compressed block by block, and
 packed with the other documents of its bundle behind three cumulative offset tables.
 */
module TextBlocks {
  import opened Wrappers
  import opened LittleEndian
  import opened Sorting

  /** `k` times the target size of a block, 16 KiB. */
  function Targets(k: nat): nat {
    16384 * k
  }

  const U32: nat := 0x1_0000_0000

  /** What a 32-bit counter makes of `n`. */
  function Wrap(n: nat): (w: nat)
    ensures w < 0x1_0000_0000 && (n < 0x1_0000_0000 <==> w == n)
  {
    n % 0x1_0000_0000
  }

  // ---- cutting ----

  datatype Range = Range(start: nat, end: nat)

  predicate Apart(r: Range, s: Range) {
    r.end <= s.start || s.end <= r.start
  }

  /** Non-empty ranges inside the pool, no two of which overlap. */
  ghost predicate NodeRanges(ranges: seq<Range>, n: nat) {
    && (forall i :: 0 <= i < |ranges| ==> ranges[i].start < ranges[i].end <= n)
    && (forall i, j :: 0 <= i < j < |ranges| ==> Apart(ranges[i], ranges[j]))
  }

  predicate StartsBefore(r: Range, s: Range) {
    r.start <= s.start
  }

  function BlockStart(cuts: seq<nat>, k: nat): nat
    requires k <= |cuts|
  {
    if k == 0 then 0 else cuts[k - 1]
  }

  /** Strictly increasing ends, the last of which is the pool's end. */
  ghost predicate Ends(cuts: seq<nat>, n: nat) {
    && (forall k {:trigger BlockStart(cuts, k)} :: 0 <= k < |cuts| ==> BlockStart(cuts, k) < cuts[k])
    && BlockStart(cuts, |cuts|) == n
  }

  predicate Splits(cut: int, r: Range) {
    r.start < cut < r.end
  }

  ghost predicate SplitsNone(cuts: seq<nat>, ranges: seq<Range>) {
    forall k, i :: 0 <= k < |cuts| && 0 <= i < |ranges| ==> !Splits(cuts[k], ranges[i])
  }

  /** Non-empty ranges inside the pool, each ending before the next begins. */
  ghost predicate InOrder(s: seq<Range>, n: nat) {
    && (forall i :: 0 <= i < |s| ==> s[i].start < s[i].end <= n)
    && (forall i, j :: 0 <= i < j < |s| ==> s[i].end <= s[j].start)
  }

  /** Sorting disjoint non-empty ranges by start leaves each ending before the next begins. */
  lemma SortedRanges(ranges: seq<Range>, n: nat) returns (s: seq<Range>)
    requires NodeRanges(ranges, n)
    ensures s == Sort(StartsBefore, ranges) && multiset(s) == multiset(ranges) && InOrder(s, n)
  {
    s := Sort(StartsBefore, ranges);
    SortIs(StartsBefore, ranges);
    forall i | 0 <= i < |s| ensures s[i].start < s[i].end <= n {
      InBoth(s, ranges, s[i]);
    }
    SortKeepsApart(ranges);
  }

  ghost predicate AllApart(s: seq<Range>) {
    forall i, j :: 0 <= i < j < |s| ==> Apart(s[i], s[j])
  }

  lemma {:induction false} SortKeepsApart(s: seq<Range>)
    requires AllApart(s)
    ensures AllApart(Sort(StartsBefore, s))
  {
    if s != [] {
      SortKeepsApart(s[1..]);
      SortIs(StartsBefore, s[1..]);
      var t := Sort(StartsBefore, s[1..]);
      forall i | 0 <= i < |t| ensures Apart(s[0], t[i]) {
        InBoth(t, s[1..], t[i]);
        var k :| 0 <= k < |s[1..]| && s[1..][k] == t[i];
        assert Apart(s[0], s[k + 1]);
      }
      InsertKeepsApart(s[0], t);
    }
  }

  lemma {:induction false} InsertKeepsApart(x: Range, s: seq<Range>)
    requires AllApart(s) && forall i :: 0 <= i < |s| ==> Apart(x, s[i])
    ensures AllApart(InsertSorted(StartsBefore, x, s))
  {
    if s != [] && !StartsBefore(x, s[0]) {
      InsertKeepsApart(x, s[1..]);
      InsertMembers(StartsBefore, x, s[1..]);
      var t := InsertSorted(StartsBefore, x, s[1..]);
      forall i | 0 <= i < |t| ensures Apart(s[0], t[i]) {
        if t[i] != x {
          var k :| 0 <= k < |s[1..]| && s[1..][k] == t[i];
          assert Apart(s[0], s[k + 1]);
        }
      }
    }
  }

  /** Every block closed so far has reached the target. */
  ghost predicate Full(cuts: seq<nat>, m: nat)
    requires m <= |cuts|
  {
    forall k {:trigger BlockStart(cuts, k)} :: 0 <= k < m ==> cuts[k] - BlockStart(cuts, k) >= 16384
  }

  /** No block reached the target before its end: every range that ends inside it ends short of that. */
  ghost predicate Tight(cuts: seq<nat>, ranges: seq<Range>) {
    forall k, i {:trigger BlockStart(cuts, k), ranges[i]} ::
      0 <= k < |cuts| && 0 <= i < |ranges| && BlockStart(cuts, k) < ranges[i].end < cuts[k] ==>
      ranges[i].end - BlockStart(cuts, k) < 16384
  }

  /** Of the first `m` cuts each is the end of a range. */
  ghost predicate AtEnds(cuts: seq<nat>, ranges: seq<Range>, m: nat)
    requires m <= |cuts|
  {
    forall k :: 0 <= k < m ==> EndOfOne(ranges, cuts[k])
  }

  ghost predicate EndOfOne(ranges: seq<Range>, cut: nat) {
    exists i :: 0 <= i < |ranges| && ranges[i].end == cut
  }

  /** The ranges from `i` on end behind the open block's start, and those before end short of the target. */
  ghost predicate OpenShort(s: seq<Range>, blockStart: nat, i: nat)
    requires i <= |s|
  {
    && (forall j :: 0 <= j < i && blockStart < s[j].end ==> s[j].end - blockStart < 16384)
    && (forall j :: i <= j < |s| ==> blockStart < s[j].end)
  }

  /**
   The blocks tile `n` bytes and split no range; each but the last reaches the target, at the first
   end of a range that does.
   */
  ghost predicate Greedy(cuts: seq<nat>, ranges: seq<Range>, n: nat) {
    var closed := if cuts == [] then 0 else |cuts| - 1;
    && Ends(cuts, n) && SplitsNone(cuts, ranges)
    && Full(cuts, closed) && AtEnds(cuts, ranges, closed) && Tight(cuts, ranges)
  }

  lemma TightAppended(cuts: seq<nat>, s: seq<Range>, cut: nat, i: nat)
    requires Tight(cuts, s) && i <= |s| && OpenShort(s, BlockStart(cuts, |cuts|), i)
    requires forall j :: i <= j < |s| ==> cut <= s[j].end
    ensures Tight(cuts + [cut], s)
  {
    var now := cuts + [cut];
    forall k, j | 0 <= k < |now| && 0 <= j < |s| && BlockStart(now, k) < s[j].end < now[k]
        ensures s[j].end - BlockStart(now, k) < 16384 {
      assert BlockStart(now, k) == BlockStart(cuts, k);
    }
  }

  lemma CutAppended(cuts: seq<nat>, s: seq<Range>, cut: nat)
    requires SplitsNone(cuts, s) && Full(cuts, |cuts|) && BlockStart(cuts, |cuts|) < cut
    requires forall i :: 0 <= i < |s| ==> !Splits(cut, s[i])
    ensures SplitsNone(cuts + [cut], s) && Full(cuts + [cut], |cuts|)
    ensures BlockStart(cuts + [cut], |cuts| + 1) == cut && BlockStart(cuts + [cut], |cuts|) == BlockStart(cuts, |cuts|)
    ensures Ends(cuts + [cut], cut)
  {
    var now := cuts + [cut];
    assert forall k :: 0 <= k < |cuts| ==> BlockStart(now, k) == BlockStart(cuts, k);
  }

  /** Of the ranges in order the first `i` have been looked at. */
  ghost predicate CutSoFar(cuts: seq<nat>, s: seq<Range>, n: nat, i: nat)
    requires i <= |s|
  {
    var blockStart := BlockStart(cuts, |cuts|);
    && blockStart <= n && (i < |s| ==> blockStart <= s[i].start) && OpenShort(s, blockStart, i)
    && Ends(cuts, blockStart) && Targets(|cuts|) <= blockStart && Full(cuts, |cuts|)
    && SplitsNone(cuts, s) && Tight(cuts, s) && AtEnds(cuts, s, |cuts|)
  }

  /** A range that ends short of the target leaves the block open. */
  lemma LeftOpen(cuts: seq<nat>, s: seq<Range>, n: nat, i: nat)
    requires InOrder(s, n) && i < |s| && CutSoFar(cuts, s, n, i) && s[i].end - BlockStart(cuts, |cuts|) < 16384
    ensures CutSoFar(cuts, s, n, i + 1)
  {
  }

  /** One that reaches it closes the block at its end. */
  lemma Closed(cuts: seq<nat>, s: seq<Range>, n: nat, i: nat)
    requires InOrder(s, n) && i < |s| && CutSoFar(cuts, s, n, i) && s[i].end - BlockStart(cuts, |cuts|) >= 16384
    ensures CutSoFar(cuts + [s[i].end], s, n, i + 1)
  {
    var r, now := s[i], cuts + [s[i].end];
    forall j | 0 <= j < |s| ensures !Splits(r.end, s[j]) {
      assert (j < i ==> s[j].end <= r.start) && (i < j ==> r.end <= s[j].start);
    }
    CutAppended(cuts, s, r.end);
    TightAppended(cuts, s, r.end, i);
    assert EndOfOne(s, r.end);
  }

  /** The pool's end closes the last block, unless a range has. */
  lemma AllCut(cuts: seq<nat>, s: seq<Range>, n: nat)
    requires InOrder(s, n) && CutSoFar(cuts, s, n, |s|) && n > 0
    ensures var now := if cuts == [] || cuts[|cuts| - 1] != n then cuts + [n] else cuts;
            && Ends(now, n) && SplitsNone(now, s) && Full(now, |now| - 1) && Tight(now, s) && AtEnds(now, s, |now| - 1)
            && |now| <= (n + 16383) / 16384
  {
    if cuts == [] || cuts[|cuts| - 1] != n {
      assert forall j :: 0 <= j < |s| ==> !Splits(n, s[j]);
      CutAppended(cuts, s, n);
      TightAppended(cuts, s, n, |s|);
    }
  }

  /**
   Greedy cutting: a block is closed at the end of the first range that brings it to the target.
   The blocks tile the pool and split no node's text; each but the last ends where a range does and
   reaches the target there, and none reaches it before. So there are at most pool size over target,
   rounded up.
   */
  method BlockCuts(ranges: seq<Range>, n: nat) returns (cuts: seq<nat>)
    requires NodeRanges(ranges, n) && n < U32
    ensures Greedy(cuts, ranges, n) && |cuts| <= (n + 16383) / 16384
  {
    cuts := [];
    if n == 0 {
      return;
    }
    var sorted := Sort(StartsBefore, ranges);
    ghost var s := SortedRanges(ranges, n);
    var blockStart := 0;
    for i := 0 to |sorted|
      invariant blockStart == BlockStart(cuts, |cuts|) && CutSoFar(cuts, sorted, n, i)
    {
      var r := sorted[i];
      if r.end - blockStart >= Targets(1) {
        Closed(cuts, sorted, n, i);
        cuts := cuts + [r.end];
        blockStart := r.end;
      } else {
        LeftOpen(cuts, sorted, n, i);
      }
    }
    AllCut(cuts, sorted, n);
    if cuts == [] || cuts[|cuts| - 1] != n {
      cuts := cuts + [n];
    }
    NoneSplitEither(cuts, sorted, ranges);
    TightEither(cuts, sorted, ranges, |cuts| - 1);
  }

  lemma NoneSplitEither(cuts: seq<nat>, s: seq<Range>, t: seq<Range>)
    requires SplitsNone(cuts, s) && multiset(s) == multiset(t)
    ensures SplitsNone(cuts, t)
  {
    forall k, j | 0 <= k < |cuts| && 0 <= j < |t| ensures !Splits(cuts[k], t[j]) {
      InBoth(s, t, t[j]);
      var m :| 0 <= m < |s| && s[m] == t[j];
    }
  }

  lemma TightEither(cuts: seq<nat>, s: seq<Range>, t: seq<Range>, m: nat)
    requires Tight(cuts, s) && m <= |cuts| && AtEnds(cuts, s, m) && multiset(s) == multiset(t)
    ensures Tight(cuts, t) && AtEnds(cuts, t, m)
  {
    forall k, i | 0 <= k < |cuts| && 0 <= i < |t| && BlockStart(cuts, k) < t[i].end < cuts[k]
        ensures t[i].end - BlockStart(cuts, k) < 16384 {
      InBoth(s, t, t[i]);
      var j :| 0 <= j < |s| && s[j] == t[i];
    }
    forall k | 0 <= k < m ensures EndOfOne(t, cuts[k]) {
      assert EndOfOne(s, cuts[k]);
      var j :| 0 <= j < |s| && s[j].end == cuts[k];
      InBoth(s, t, s[j]);
      var i :| 0 <= i < |t| && t[i] == s[j];
    }
  }

  // ---- the codec ----

  /** A compressor and what the decoder makes of a frame (`None` where it panics). */
  datatype Codec = Codec(compress: Bytes -> Bytes, inflate: Bytes -> Option<Bytes>)

  ghost predicate Lossless(c: Codec) {
    forall raw: Bytes :: raw != [] ==> c.compress(raw) != [] && c.inflate(c.compress(raw)) == Some(raw)
  }

  function CompressSegment(c: Codec, raw: Bytes): Bytes {
    if raw == [] then [] else c.compress(raw)
  }

  /** An empty frame stands for no bytes; any other must inflate to exactly `rawLen` bytes. */
  function DecodeFrame(c: Codec, frame: Bytes, rawLen: nat): Option<Bytes> {
    if frame == [] then (if rawLen == 0 then Some([]) else None)
    else match c.inflate(frame)
      case Some(out) => if |out| == rawLen then Some(out) else None
      case None => None
  }

  lemma FrameRoundTrip(c: Codec, raw: Bytes)
    requires Lossless(c)
    ensures DecodeFrame(c, CompressSegment(c, raw), |raw|) == Some(raw)
  {
  }

  /** The frame from `f0` to `f1` inflates to the pool's bytes from `r0` to `r1`. */
  ghost predicate FrameOk(c: Codec, pool: Bytes, frames: Bytes, f0: nat, f1: nat, r0: nat, r1: nat) {
    && f0 <= f1 <= |frames| && r0 <= r1 <= |pool|
    && DecodeFrame(c, frames[f0..f1], r1 - r0) == Some(pool[r0..r1])
  }

  ghost predicate BlockOk(c: Codec, pool: Bytes, frames: Bytes, frameEnds: seq<nat>, rawEnds: seq<nat>, b: nat)
    requires b < |frameEnds| && b < |rawEnds|
  {
    FrameOk(c, pool, frames, BlockStart(frameEnds, b), frameEnds[b], BlockStart(rawEnds, b), rawEnds[b])
  }

  /** `frames` with its two tables is a faithful copy of `pool`. */
  ghost predicate Packed(c: Codec, pool: Bytes, frames: Bytes, frameEnds: seq<nat>, rawEnds: seq<nat>) {
    && |frameEnds| == |rawEnds| && Ends(rawEnds, |pool|) && BlockStart(frameEnds, |frameEnds|) == |frames|
    && forall b :: 0 <= b < |rawEnds| ==> BlockOk(c, pool, frames, frameEnds, rawEnds, b)
  }

  /** Frames for the blocks of `pool`; their ends are 32-bit numbers, so they are a copy as long as those suffice. */
  ghost predicate FramesFor(c: Codec, pool: Bytes, frames: Bytes, frameEnds: seq<nat>, rawEnds: seq<nat>) {
    && |frameEnds| == |rawEnds| && Ends(rawEnds, |pool|)
    && (|frames| < U32 <==> Packed(c, pool, frames, frameEnds, rawEnds))
  }

  method CompressPoolBlocks(c: Codec, raw: Bytes, rawEnds: seq<nat>) returns (frames: Bytes, frameEnds: seq<nat>)
    requires Lossless(c) && Ends(rawEnds, |raw|)
    ensures FramesFor(c, raw, frames, frameEnds, rawEnds)
  {
    frames, frameEnds := [], [];
    EndsIncrease(rawEnds, |raw|, |rawEnds|);
    var start := 0;
    for b := 0 to |rawEnds|
      invariant |frameEnds| == b && start == BlockStart(rawEnds, b) && BlockStart(frameEnds, b) == Wrap(|frames|)
      invariant |frames| < U32 ==> forall j :: 0 <= j < b ==> BlockOk(c, raw, frames, frameEnds, rawEnds, j)
    {
      var end := rawEnds[b];
      assert BlockStart(rawEnds, b) < end;
      var frame := CompressSegment(c, raw[start..end]);
      FrameRoundTrip(c, raw[start..end]);
      if |frames + frame| < U32 {
        FrameAppended(c, raw, frames, frameEnds, rawEnds, frame, b);
      }
      frames := frames + frame;
      frameEnds := frameEnds + [Wrap(|frames|)];
      start := end;
    }
  }

  lemma FrameAppended(c: Codec, raw: Bytes, frames: Bytes, frameEnds: seq<nat>, rawEnds: seq<nat>, frame: Bytes, b: nat)
    requires |frameEnds| == b < |rawEnds| && BlockStart(frameEnds, b) == |frames|
    requires BlockStart(rawEnds, b) < rawEnds[b] <= |raw|
    requires DecodeFrame(c, frame, rawEnds[b] - BlockStart(rawEnds, b)) == Some(raw[BlockStart(rawEnds, b)..rawEnds[b]])
    requires forall j :: 0 <= j < b ==> BlockOk(c, raw, frames, frameEnds, rawEnds, j)
    ensures forall j :: 0 <= j <= b ==> BlockOk(c, raw, frames + frame, frameEnds + [|frames + frame|], rawEnds, j)
  {
    var now, ends := frames + frame, frameEnds + [|frames + frame|];
    forall j | 0 <= j <= b ensures BlockOk(c, raw, now, ends, rawEnds, j) {
      if j < b {
        assert BlockOk(c, raw, frames, frameEnds, rawEnds, j);
        assert BlockStart(ends, j) == BlockStart(frameEnds, j);
        assert now[BlockStart(ends, j)..ends[j]] == frames[BlockStart(frameEnds, j)..frameEnds[j]];
      } else {
        assert now[|frames|..|now|] == frame;
      }
    }
  }

  lemma {:induction false} EndsIncrease(cuts: seq<nat>, n: nat, m: nat)
    requires Ends(cuts, n) && m <= |cuts|
    ensures forall k :: 0 <= k < m ==> cuts[k] <= BlockStart(cuts, m)
  {
    if m > 0 {
      EndsIncrease(cuts, n, m - 1);
      assert BlockStart(cuts, m - 1) < cuts[m - 1];
    }
  }
}
