/** The text of every document of a bundle: compressed blocks behind three cumulative tables. */
module BundleStrings {
  import opened Wrappers
  import opened LittleEndian
  import opened TextBlocks

  /** One document's pool and the ranges its text nodes occupy in it. */
  datatype Text = Text(pool: Bytes, nodes: seq<Range>)

  /** A bundle's text block as a value. */
  datatype Tables = Tables(frames: Bytes, offs: seq<nat>, raws: seq<nat>, docs: seq<nat>)

  // ---- what the tables mean ----

  predicate Monotonic(s: seq<nat>) {
    forall k :: 0 < k < |s| ==> s[k - 1] <= s[k]
  }

  lemma {:induction false} MonotonicFar(s: seq<nat>, i: nat, j: nat)
    requires Monotonic(s) && i <= j < |s|
    ensures s[i] <= s[j]
    decreases j
  {
    if i < j { MonotonicFar(s, i, j - 1); }
  }

  function Last(s: seq<nat>): nat
    requires s != []
  {
    s[|s| - 1]
  }

  /** What the reader checks before it trusts the tables. */
  predicate WellTabled(t: Tables) {
    && |t.offs| == |t.raws| && t.offs != [] && t.docs != [] && t.offs[0] == 0 && t.raws[0] == 0 && t.docs[0] == 0
    && Monotonic(t.offs) && Monotonic(t.raws) && Monotonic(t.docs)
    && Last(t.offs) == |t.frames| && Last(t.docs) == |t.offs| - 1
  }

  ghost predicate DocBlockOk(c: Codec, t: Tables, text: Text, b0: nat, b: nat)
    requires b0 <= b && b + 1 < |t.offs| == |t.raws|
  {
    && t.raws[b0] <= t.raws[b] <= t.raws[b + 1]
    && FrameOk(c, text.pool, t.frames, t.offs[b], t.offs[b + 1], t.raws[b] - t.raws[b0], t.raws[b + 1] - t.raws[b0])
  }

  predicate Unsplit(raws: seq<nat>, b0: nat, b: nat, nodes: seq<Range>)
    requires b0 < |raws| && b < |raws|
  {
    forall i :: 0 <= i < |nodes| ==> !Splits(raws[b] as int - raws[b0] as int, nodes[i])
  }

  /** Blocks `b0` up to `b1` hold exactly document `text`, cut between its text nodes. */
  ghost predicate DocOk(c: Codec, t: Tables, text: Text, b0: nat, b1: nat) {
    && |t.offs| == |t.raws| && b0 <= b1 < |t.raws| && t.raws[b1] == t.raws[b0] + |text.pool|
    && (forall b :: b0 <= b < b1 ==> DocBlockOk(c, t, text, b0, b))
    && (forall b :: b0 <= b <= b1 ==> Unsplit(t.raws, b0, b, text.nodes))
  }

  /** The tables pass the reader's checks and hold exactly `texts`. */
  ghost predicate Holds(c: Codec, t: Tables, texts: seq<Text>) {
    && WellTabled(t) && |t.docs| == |texts| + 1
    && forall d :: 0 <= d < |texts| ==> SlotHolds(c, t, texts, d)
  }

  ghost predicate SlotHolds(c: Codec, t: Tables, texts: seq<Text>, d: nat)
    requires d < |texts| && d + 1 < |t.docs|
  {
    DocOk(c, t, texts[d], t.docs[d], t.docs[d + 1])
  }

  // ---- how much fits ----

  function PoolTotal(texts: seq<Text>): nat {
    if texts == [] then 0 else PoolTotal(texts[..|texts| - 1]) + |texts[|texts| - 1].pool|
  }

  /** Frames, blocks and raw text of a bundle stay below 4 GiB each, so the 32-bit tables can number them. */
  predicate Fits(t: Tables, texts: seq<Text>) {
    |t.frames| < U32 && |t.offs| <= U32 && PoolTotal(texts) < U32
  }

  predicate Small(s: seq<nat>) {
    forall k :: 0 <= k < |s| ==> s[k] < U32
  }

  predicate Shaped(t: Tables, texts: seq<Text>) {
    && |t.offs| == |t.raws| && t.offs != [] && |t.docs| == |texts| + 1
    && Small(t.offs) && Small(t.raws) && Small(t.docs)
  }

  lemma {:induction false} RawsAreTotals(c: Codec, t: Tables, texts: seq<Text>, d: nat)
    requires Holds(c, t, texts) && d <= |texts|
    ensures t.docs[d] < |t.raws| && t.raws[t.docs[d]] == PoolTotal(texts[..d])
  {
    if d > 0 {
      RawsAreTotals(c, t, texts, d - 1);
      assert SlotHolds(c, t, texts, d - 1);
      assert texts[..d][..d - 1] == texts[..d - 1];
    }
  }

  /** Tables of 32-bit numbers hold their texts only if everything fits. */
  lemma HoldsOnlyIfFits(c: Codec, t: Tables, texts: seq<Text>)
    requires Shaped(t, texts) && Holds(c, t, texts)
    ensures Fits(t, texts) && Last(t.raws) == PoolTotal(texts)
  {
    RawsAreTotals(c, t, texts, |texts|);
    assert texts[..|texts|] == texts;
    assert Last(t.offs) < U32 && Last(t.raws) < U32 && Last(t.docs) < U32;
  }

  // ---- the store ----

  function Shifted(ends: seq<nat>, base: nat): (r: seq<nat>)
    ensures |r| == |ends| && forall k :: 0 <= k < |r| ==> r[k] == base + ends[k]
  {
    seq(|ends|, k requires 0 <= k < |ends| => base + ends[k])
  }

  function Wrapped(ends: seq<nat>, base: nat): (r: seq<nat>)
    ensures |r| == |ends| && forall k :: 0 <= k < |r| ==> r[k] == Wrap(base + ends[k])
  {
    seq(|ends|, k requires 0 <= k < |ends| => Wrap(base + ends[k]))
  }

  class BundleStrings {
    var frames: Bytes
    var blockOffsets: seq<nat>
    var blockRawOffsets: seq<nat>
    var docBlocks: seq<nat>
    ghost var codec: Codec
    ghost var texts: seq<Text>

    function Value(): Tables
      reads this
    {
      Tables(frames, blockOffsets, blockRawOffsets, docBlocks)
    }

    ghost predicate Valid()
      reads this
    {
      Lossless(codec) && Shaped(Value(), texts) && (Fits(Value(), texts) ==> Holds(codec, Value(), texts))
    }

    constructor (ghost c: Codec)
      requires Lossless(c)
      ensures Valid() && texts == [] && codec == c
    {
      frames, blockOffsets, blockRawOffsets, docBlocks := [], [0], [0], [0];
      codec, texts := c, [];
    }

    /** An empty store serves any codec. */
    ghost method Rebind(c: Codec)
      requires Valid() && texts == [] && Lossless(c)
      modifies this`codec
      ensures Valid() && codec == c
    {
      codec := c;
    }

    /**
     Appends one document's blocks behind the others. The tables are 32-bit numbers that wrap around,
     so afterwards they hold all texts, old and new, if and only if everything fits.
     */
    method PushDocBlocks(newFrames: Bytes, frameEnds: seq<nat>, rawEnds: seq<nat>, ghost t: Text) returns (slot: nat)
      requires Valid() && FramesFor(codec, t.pool, newFrames, frameEnds, rawEnds) && SplitsNone(rawEnds, t.nodes)
      modifies this
      ensures Valid() && texts == old(texts) + [t] && slot == old(|texts|) && codec == old(codec)
      ensures Holds(codec, Value(), texts) <==> Fits(Value(), texts)
    {
      slot := |docBlocks| - 1;
      var frameBase, rawBase := blockOffsets[|blockOffsets| - 1], blockRawOffsets[|blockRawOffsets| - 1];
      ghost var was, wasTexts := Value(), texts;
      frames := frames + newFrames;
      for k := 0 to |frameEnds|
        invariant blockOffsets == was.offs + Wrapped(frameEnds, frameBase)[..k]
        invariant blockRawOffsets == was.raws + Wrapped(rawEnds, rawBase)[..k]
        invariant frames == was.frames + newFrames && docBlocks == was.docs && texts == wasTexts && codec == old(codec)
      {
        blockOffsets := blockOffsets + [Wrap(frameBase + frameEnds[k])];
        blockRawOffsets := blockRawOffsets + [Wrap(rawBase + rawEnds[k])];
      }
      assert Wrapped(frameEnds, frameBase)[..|frameEnds|] == Wrapped(frameEnds, frameBase);
      assert Wrapped(rawEnds, rawBase)[..|frameEnds|] == Wrapped(rawEnds, rawBase);
      docBlocks := docBlocks + [Wrap(docBlocks[|docBlocks| - 1] + |frameEnds|)];
      texts := texts + [t];
      assert Value() == Pushed(was, newFrames, frameEnds, rawEnds);
      PushedHolds(codec, was, wasTexts, newFrames, frameEnds, rawEnds, t);
    }
  }

  /** The tables after a push, in 32-bit numbers. */
  function Pushed(t: Tables, frames: Bytes, frameEnds: seq<nat>, rawEnds: seq<nat>): Tables
    requires t.offs != [] && t.raws != [] && t.docs != []
  {
    Tables(t.frames + frames, t.offs + Wrapped(frameEnds, Last(t.offs)), t.raws + Wrapped(rawEnds, Last(t.raws)),
           t.docs + [Wrap(Last(t.docs) + |frameEnds|)])
  }

  /** The tables after a push, in unbounded numbers. */
  function Extended(t: Tables, frames: Bytes, frameEnds: seq<nat>, rawEnds: seq<nat>): Tables
    requires t.offs != [] && t.raws != [] && t.docs != []
  {
    Tables(t.frames + frames, t.offs + Shifted(frameEnds, Last(t.offs)), t.raws + Shifted(rawEnds, Last(t.raws)),
           t.docs + [Last(t.docs) + |frameEnds|])
  }

  lemma PushedHolds(c: Codec, t: Tables, texts: seq<Text>, frames: Bytes, frameEnds: seq<nat>, rawEnds: seq<nat>,
      text: Text)
    requires Shaped(t, texts) && (Fits(t, texts) ==> Holds(c, t, texts))
    requires FramesFor(c, text.pool, frames, frameEnds, rawEnds) && SplitsNone(rawEnds, text.nodes)
    ensures var now, all := Pushed(t, frames, frameEnds, rawEnds), texts + [text];
            Shaped(now, all) && (Holds(c, now, all) <==> Fits(now, all))
  {
    var now, all := Pushed(t, frames, frameEnds, rawEnds), texts + [text];
    assert all[..|all| - 1] == texts;
    if Fits(now, all) {
      HoldsOnlyIfFits(c, t, texts);
      NothingWraps(c, t, texts, frames, frameEnds, rawEnds, text);
      ExtendedHolds(c, t, texts, frames, frameEnds, rawEnds, text);
    }
    if Holds(c, now, all) {
      HoldsOnlyIfFits(c, now, all);
    }
  }

  lemma NothingWraps(c: Codec, t: Tables, texts: seq<Text>, frames: Bytes, frameEnds: seq<nat>, rawEnds: seq<nat>,
      text: Text)
    requires Shaped(t, texts) && Holds(c, t, texts) && Last(t.raws) == PoolTotal(texts)
    requires Packed(c, text.pool, frames, frameEnds, rawEnds)
    requires |t.frames + frames| < U32 && |t.offs| + |frameEnds| <= U32 && PoolTotal(texts) + |text.pool| < U32
    ensures Pushed(t, frames, frameEnds, rawEnds) == Extended(t, frames, frameEnds, rawEnds)
  {
    EndsIncrease(rawEnds, |text.pool|, |rawEnds|);
    FramesIncrease(c, text.pool, frames, frameEnds, rawEnds, |frameEnds|);
    assert Wrapped(frameEnds, Last(t.offs)) == Shifted(frameEnds, Last(t.offs));
    assert Wrapped(rawEnds, Last(t.raws)) == Shifted(rawEnds, Last(t.raws));
  }

  lemma {:induction false} FramesIncrease(c: Codec, pool: Bytes, frames: Bytes, frameEnds: seq<nat>, rawEnds: seq<nat>,
      m: nat)
    requires Packed(c, pool, frames, frameEnds, rawEnds) && m <= |frameEnds|
    ensures forall k :: 0 <= k < m ==> frameEnds[k] <= BlockStart(frameEnds, m)
  {
    if m > 0 {
      FramesIncrease(c, pool, frames, frameEnds, rawEnds, m - 1);
      assert BlockOk(c, pool, frames, frameEnds, rawEnds, m - 1);
    }
  }

  lemma ExtendedHolds(c: Codec, t: Tables, texts: seq<Text>, frames: Bytes, frameEnds: seq<nat>, rawEnds: seq<nat>,
      text: Text)
    requires Holds(c, t, texts) && Packed(c, text.pool, frames, frameEnds, rawEnds) && SplitsNone(rawEnds, text.nodes)
    ensures Holds(c, Extended(t, frames, frameEnds, rawEnds), texts + [text])
  {
    var now, all := Extended(t, frames, frameEnds, rawEnds), texts + [text];
    TablesExtended(c, t, frames, frameEnds, rawEnds, text);
    forall d | 0 <= d < |all| ensures SlotHolds(c, now, all, d) {
      if d < |texts| {
        assert SlotHolds(c, t, texts, d);
        OldDocKept(c, t, now, texts[d], t.docs[d], t.docs[d + 1]);
      } else {
        NewDocOk(c, t, frames, frameEnds, rawEnds, text);
      }
    }
  }

  lemma OldDocKept(c: Codec, t: Tables, now: Tables, text: Text, b0: nat, b1: nat)
    requires DocOk(c, t, text, b0, b1) && t.frames <= now.frames && t.offs <= now.offs && t.raws <= now.raws
    requires |now.offs| == |now.raws|
    ensures DocOk(c, now, text, b0, b1)
  {
    forall b | b0 <= b < b1 ensures DocBlockOk(c, now, text, b0, b) {
      assert DocBlockOk(c, t, text, b0, b);
      assert now.frames[t.offs[b]..t.offs[b + 1]] == t.frames[t.offs[b]..t.offs[b + 1]];
    }
    forall b | b0 <= b <= b1 ensures Unsplit(now.raws, b0, b, text.nodes) {
      assert Unsplit(t.raws, b0, b, text.nodes);
    }
  }

  lemma NewBlockOk(c: Codec, t: Tables, frames: Bytes, frameEnds: seq<nat>, rawEnds: seq<nat>, text: Text, k: nat)
    requires |t.offs| == |t.raws| > 0 && t.docs != [] && Last(t.offs) == |t.frames| && k < |frameEnds|
    requires Packed(c, text.pool, frames, frameEnds, rawEnds)
    ensures DocBlockOk(c, Extended(t, frames, frameEnds, rawEnds), text, |t.offs| - 1, |t.offs| - 1 + k)
  {
    var now, b, base := Extended(t, frames, frameEnds, rawEnds), |t.offs| - 1 + k, Last(t.raws);
    assert BlockOk(c, text.pool, frames, frameEnds, rawEnds, k);
    assert BlockStart(rawEnds, k) < rawEnds[k];
    assert now.offs[b] == |t.frames| + BlockStart(frameEnds, k) && now.offs[b + 1] == |t.frames| + frameEnds[k];
    assert now.raws[b] == base + BlockStart(rawEnds, k) && now.raws[b + 1] == base + rawEnds[k];
    assert now.raws[|t.offs| - 1] == base;
    assert now.frames[now.offs[b]..now.offs[b + 1]] == frames[BlockStart(frameEnds, k)..frameEnds[k]];
  }

  lemma NewDocOk(c: Codec, t: Tables, frames: Bytes, frameEnds: seq<nat>, rawEnds: seq<nat>, text: Text)
    requires |t.offs| == |t.raws| > 0 && t.docs != [] && Last(t.offs) == |t.frames|
    requires Packed(c, text.pool, frames, frameEnds, rawEnds) && SplitsNone(rawEnds, text.nodes)
    ensures DocOk(c, Extended(t, frames, frameEnds, rawEnds), text, |t.offs| - 1, |t.offs| - 1 + |frameEnds|)
  {
    var now, b0, base := Extended(t, frames, frameEnds, rawEnds), |t.offs| - 1, Last(t.raws);
    forall k | 0 <= k <= |rawEnds|
      ensures now.offs[b0 + k] == |t.frames| + BlockStart(frameEnds, k)
              && now.raws[b0 + k] == base + BlockStart(rawEnds, k) {
    }
    forall b | b0 <= b < b0 + |frameEnds| ensures DocBlockOk(c, now, text, b0, b) {
      NewBlockOk(c, t, frames, frameEnds, rawEnds, text, b - b0);
    }
    forall b | b0 <= b <= b0 + |frameEnds| ensures Unsplit(now.raws, b0, b, text.nodes) {
      assert now.raws[b0 + (b - b0)] == base + BlockStart(rawEnds, b - b0);
    }
  }

  lemma TablesExtended(c: Codec, t: Tables, frames: Bytes, frameEnds: seq<nat>, rawEnds: seq<nat>, text: Text)
    requires WellTabled(t) && Packed(c, text.pool, frames, frameEnds, rawEnds)
    ensures WellTabled(Extended(t, frames, frameEnds, rawEnds))
  {
    var now := Extended(t, frames, frameEnds, rawEnds);
    forall k | 0 < k < |now.offs| ensures now.offs[k - 1] <= now.offs[k] && now.raws[k - 1] <= now.raws[k] {
      if k >= |t.offs| {
        var j := k - |t.offs|;
        assert BlockOk(c, text.pool, frames, frameEnds, rawEnds, j);
        assert now.offs[k - 1] == |t.frames| + BlockStart(frameEnds, j)
               && now.raws[k - 1] == Last(t.raws) + BlockStart(rawEnds, j);
      }
    }
  }

  /** Cutting, compressing and storing one document, as the writer does. */
  method AddDocument(store: BundleStrings, c: Codec, pool: Bytes, nodes: seq<Range>)
    requires store.Valid() && c == store.codec && NodeRanges(nodes, |pool|) && |pool| < U32
    modifies store
    ensures store.Valid() && store.texts == old(store.texts) + [Text(pool, nodes)]
    ensures Holds(c, store.Value(), store.texts) <==> Fits(store.Value(), store.texts)
  {
    var rawEnds := BlockCuts(nodes, |pool|);
    var frames, frameEnds := CompressPoolBlocks(c, pool, rawEnds);
    var slot := store.PushDocBlocks(frames, frameEnds, rawEnds, Text(pool, nodes));
  }

  // ---- reading an archived block ----

  /** The table check of the reader, loop by loop. */
  method Validate(t: Tables) returns (ok: bool)
    ensures ok <==> WellTabled(t)
  {
    if |t.offs| != |t.raws| {
      return false;
    }
    if t.offs == [] || t.docs == [] || t.offs[0] != 0 || t.raws[0] != 0 || t.docs[0] != 0 {
      return false;
    }
    var a := IsMonotonic(t.offs);
    var b := IsMonotonic(t.raws);
    var c := IsMonotonic(t.docs);
    if !a || !b || !c {
      return false;
    }
    return t.offs[|t.offs| - 1] == |t.frames| && t.docs[|t.docs| - 1] == |t.offs| - 1;
  }

  method IsMonotonic(s: seq<nat>) returns (ok: bool)
    ensures ok <==> Monotonic(s)
  {
    var prev := 0;
    for k := 0 to |s|
      invariant forall j :: 0 < j < k ==> s[j - 1] <= s[j]
      invariant prev == if k == 0 then 0 else s[k - 1]
    {
      if s[k] < prev {
        return false;
      }
      prev := s[k];
    }
    return true;
  }

  function Frame(t: Tables, b: nat): Bytes
    requires WellTabled(t) && b + 1 < |t.offs|
  {
    MonotonicFar(t.offs, b + 1, |t.offs| - 1);
    t.frames[t.offs[b]..t.offs[b + 1]]
  }

  /** Blocks `b0` up to `b1` inflated and joined; `None` where the decoder panics. */
  function DecodeRun(c: Codec, t: Tables, b0: nat, b1: nat): Option<Bytes>
    requires WellTabled(t) && b0 <= b1 < |t.offs|
  {
    if b0 == b1 then Some([])
    else match DecodeRun(c, t, b0, b1 - 1)
      case None => None
      case Some(pool) =>
        match DecodeFrame(c, Frame(t, b1 - 1), t.raws[b1] - t.raws[b1 - 1])
          case None => None
          case Some(part) => Some(pool + part)
  }

  /** The blocks of document `slot`. */
  function SlotPool(c: Codec, t: Tables, slot: nat): Option<Bytes>
    requires WellTabled(t) && slot + 1 < |t.docs|
  {
    MonotonicFar(t.docs, slot + 1, |t.docs| - 1);
    DecodeRun(c, t, t.docs[slot], t.docs[slot + 1])
  }

  /** Inflates and joins all blocks of a document. */
  method MaterializeDoc(c: Codec, t: Tables, slot: nat) returns (pool: Option<Bytes>)
    requires WellTabled(t) && slot + 1 < |t.docs|
    ensures pool == SlotPool(c, t, slot)
  {
    MonotonicFar(t.docs, slot + 1, |t.docs| - 1);
    var joined: Bytes := [];
    for b := t.docs[slot] to t.docs[slot + 1]
      invariant DecodeRun(c, t, t.docs[slot], b) == Some(joined)
    {
      var part := DecodeFrame(c, Frame(t, b), t.raws[b + 1] - t.raws[b]);
      if part.None? {
        NoneStays(c, t, t.docs[slot], b + 1, t.docs[slot + 1]);
        return None;
      }
      joined := joined + part.value;
    }
    return Some(joined);
  }

  lemma {:induction false} NoneStays(c: Codec, t: Tables, b0: nat, b: nat, b1: nat)
    requires WellTabled(t) && b0 <= b <= b1 < |t.offs| && DecodeRun(c, t, b0, b).None?
    ensures DecodeRun(c, t, b0, b1).None?
    decreases b1
  {
    if b < b1 { NoneStays(c, t, b0, b, b1 - 1); }
  }

  lemma {:induction false} RunDecodes(c: Codec, t: Tables, text: Text, b0: nat, b1: nat, b: nat)
    requires WellTabled(t) && DocOk(c, t, text, b0, b1) && b0 <= b <= b1
    ensures t.raws[b0] <= t.raws[b] <= t.raws[b0] + |text.pool|
    ensures DecodeRun(c, t, b0, b) == Some(text.pool[..t.raws[b] - t.raws[b0]])
    decreases b
  {
    MonotonicFar(t.raws, b0, b);
    MonotonicFar(t.raws, b, b1);
    if b0 < b {
      RunDecodes(c, t, text, b0, b1, b - 1);
      assert DocBlockOk(c, t, text, b0, b - 1);
      var x, y := t.raws[b - 1] - t.raws[b0], t.raws[b] - t.raws[b0];
      assert text.pool[..y] == text.pool[..x] + text.pool[x..y];
    }
  }

  /** The joined blocks of a document are its original pool. */
  lemma SlotReads(c: Codec, t: Tables, texts: seq<Text>, slot: nat)
    requires Holds(c, t, texts) && slot < |texts|
    ensures SlotPool(c, t, slot) == Some(texts[slot].pool)
  {
    assert SlotHolds(c, t, texts, slot);
    RunDecodes(c, t, texts[slot], t.docs[slot], t.docs[slot + 1], t.docs[slot + 1]);
    assert texts[slot].pool[..|texts[slot].pool|] == texts[slot].pool;
  }

  /** The block that holds offset `at` of a document's pool: the only one, or found by binary search. */
  method LocateBlock(ghost c: Codec, t: Tables, ghost texts: seq<Text>, slot: nat, at: nat) returns (b: nat)
    requires Holds(c, t, texts) && slot < |texts| && at < |texts[slot].pool|
    ensures t.docs[slot] <= b < t.docs[slot + 1] < |t.raws|
    ensures t.raws[b] <= t.raws[t.docs[slot]] + at < t.raws[b + 1]
  {
    assert SlotHolds(c, t, texts, slot);
    var b0, b1 := t.docs[slot], t.docs[slot + 1];
    if b1 - b0 == 1 {
      return b0;
    }
    Sliced(t.raws, b0, b1 + 1);
    ghost var ends := t.raws[b0..b1 + 1];
    var k := PartitionPoint(t.raws[b0..b1 + 1], t.raws[b0] + at);
    assert ends[0] == t.raws[b0] && ends[b1 - b0] == t.raws[b1];
    assert ends[k - 1] == t.raws[b0 + k - 1] && ends[k] == t.raws[b0 + k];
    return b0 + k - 1;
  }

  /**
   Reads one text node by inflating only the block that holds it. The block is found by binary
   search, and the node never straddles two of them.
   */
  method Get(c: Codec, t: Tables, ghost texts: seq<Text>, slot: nat, range: Range) returns (text: Option<Bytes>)
    requires Holds(c, t, texts) && slot < |texts|
    requires range.start == range.end || range in texts[slot].nodes
    requires range.start <= range.end <= |texts[slot].pool|
    ensures text == Some(texts[slot].pool[range.start..range.end])
  {
    if range.start == range.end {
      return Some([]);
    }
    var b := LocateBlock(c, t, texts, slot, range.start);
    assert SlotHolds(c, t, texts, slot);
    var b0 := t.docs[slot];
    var base := t.raws[b0];
    assert DocBlockOk(c, t, texts[slot], b0, b);
    NodeInBlock(t.raws, b0, b, texts[slot].nodes, range);
    var block := DecodeFrame(c, Frame(t, b), t.raws[b + 1] - t.raws[b]);
    if block.None? {
      return None;
    }
    var blockStart := t.raws[b];
    SliceOfSlice(texts[slot].pool, blockStart - base, t.raws[b + 1] - base, range.start, range.end);
    return Some(block.value[base + range.start - blockStart..base + range.end - blockStart]);
  }

  /** A text node that starts in a block ends in it. */
  lemma NodeInBlock(raws: seq<nat>, b0: nat, b: nat, nodes: seq<Range>, range: Range)
    requires b0 < |raws| && b + 1 < |raws| && range in nodes && Unsplit(raws, b0, b + 1, nodes)
    requires raws[b0] + range.start < raws[b + 1]
    ensures raws[b0] + range.end <= raws[b + 1]
  {
    var n :| 0 <= n < |nodes| && nodes[n] == range;
    assert !Splits(raws[b + 1] as int - raws[b0] as int, nodes[n]);
  }

  /** The first index whose entry exceeds `x`, by bisection. */
  method PartitionPoint(s: seq<nat>, x: nat) returns (k: nat)
    requires Monotonic(s)
    ensures k <= |s| && (forall i :: 0 <= i < k ==> s[i] <= x) && (forall i :: k <= i < |s| ==> x < s[i])
  {
    var lo, hi := 0, |s|;
    while lo < hi
      invariant 0 <= lo <= hi <= |s|
      invariant forall i :: 0 <= i < lo ==> s[i] <= x
      invariant forall i :: hi <= i < |s| ==> x < s[i]
    {
      var mid := (lo + hi) / 2;
      if s[mid] <= x {
        forall i | 0 <= i <= mid ensures s[i] <= x { MonotonicFar(s, i, mid); }
        lo := mid + 1;
      } else {
        forall i | mid <= i < |s| ensures x < s[i] { MonotonicFar(s, mid, i); }
        hi := mid;
      }
    }
    k := lo;
  }

  lemma SliceOfSlice<T>(s: seq<T>, from: nat, to: nat, a: nat, b: nat)
    requires from <= a <= b <= to <= |s|
    ensures s[from..to][a - from..b - from] == s[a..b]
  {
    var x, y := s[from..to][a - from..b - from], s[a..b];
    forall k | 0 <= k < |y| ensures x[k] == y[k] {
      assert x[k] == s[from..to][a - from + k] == s[a + k];
    }
  }

  lemma Sliced(s: seq<nat>, from: nat, to: nat)
    requires Monotonic(s) && from <= to <= |s|
    ensures Monotonic(s[from..to])
  {
  }
}
