/**
 Serializers and codecs of the kind the archive's proofs ask for exist: a plain serializer over
 nested lists of numbers, and a codec that stores bytes as they are.
 */
module Witness {
  import opened Wrappers
  import opened LittleEndian
  import opened TextBlocks
  import opened DocTable
  import opened Layout
  import B = BundleStrings
  import M = Meta

  type Numbers = seq<nat>
  type Record = seq<Numbers>

  // ---- records as bytes ----

  /** A number is so many ones; 2, 3 and 4 end a number, a list and a record; 0 pads. */
  function Ones(n: nat): (b: Bytes)
    ensures |b| == n
  {
    seq(n, _ => 1)
  }

  function PutNumbers(s: Numbers): Bytes {
    if s == [] then [] else PutNumbers(s[..|s| - 1]) + Ones(s[|s| - 1]) + [2]
  }

  function PutRecord(r: Record): Bytes {
    if r == [] then [] else PutRecord(r[..|r| - 1]) + PutNumbers(r[|r| - 1]) + [3]
  }

  function PutRecords(rs: seq<Record>): Bytes {
    if rs == [] then [] else PutRecords(rs[..|rs| - 1]) + PutRecord(rs[|rs| - 1]) + [4]
  }

  /** What has been read: the open number, list and record, and the records before. */
  datatype Reading = Reading(number: nat, numbers: Numbers, record: Record, records: seq<Record>)

  function ReadByte(r: Reading, b: byte): Reading {
    match b
    case 1 => r.(number := r.number + 1)
    case 2 => r.(number := 0, numbers := r.numbers + [r.number])
    case 3 => r.(numbers := [], record := r.record + [r.numbers])
    case 4 => r.(record := [], records := r.records + [r.record])
    case _ => r
  }

  function Read(r: Reading, b: Bytes): Reading {
    if b == [] then r else ReadByte(Read(r, b[..|b| - 1]), b[|b| - 1])
  }

  lemma {:induction false} ReadConcat(r: Reading, a: Bytes, b: Bytes)
    ensures Read(r, a + b) == Read(Read(r, a), b)
  {
    if b == [] {
      assert a + b == a;
    } else {
      ReadConcat(r, a, b[..|b| - 1]);
      assert (a + b)[..|a + b| - 1] == a + b[..|b| - 1];
    }
  }

  lemma {:induction false} ReadOnes(r: Reading, n: nat)
    ensures Read(r, Ones(n)) == r.(number := r.number + n)
  {
    if n > 0 {
      ReadOnes(r, n - 1);
      assert Ones(n)[..n - 1] == Ones(n - 1);
    }
  }

  lemma {:induction false} ReadNumbers(r: Reading, s: Numbers)
    requires r.number == 0 && r.numbers == []
    ensures Read(r, PutNumbers(s)) == r.(numbers := s)
  {
    if s != [] {
      var before, n := s[..|s| - 1], s[|s| - 1];
      ReadNumbers(r, before);
      ReadConcat(r, PutNumbers(before), Ones(n));
      ReadOnes(r.(numbers := before), n);
      ReadConcat(r, PutNumbers(before) + Ones(n), [2]);
      assert before + [n] == s;
    }
  }

  lemma {:induction false} ReadRecord(r: Reading, s: Record)
    requires r.number == 0 && r.numbers == [] && r.record == []
    ensures Read(r, PutRecord(s)) == r.(record := s)
  {
    if s != [] {
      var before, last := s[..|s| - 1], s[|s| - 1];
      ReadRecord(r, before);
      ReadConcat(r, PutRecord(before), PutNumbers(last));
      ReadNumbers(r.(record := before), last);
      ReadConcat(r, PutRecord(before) + PutNumbers(last), [3]);
      assert before + [last] == s;
    }
  }

  lemma {:induction false} ReadRecords(s: seq<Record>)
    ensures Read(Reading(0, [], [], []), PutRecords(s)) == Reading(0, [], [], s)
  {
    if s != [] {
      var r, before, last := Reading(0, [], [], []), s[..|s| - 1], s[|s| - 1];
      ReadRecords(before);
      ReadConcat(r, PutRecords(before), PutRecord(last));
      ReadRecord(Reading(0, [], [], before), last);
      ReadConcat(r, PutRecords(before) + PutRecord(last), [4]);
      assert before + [last] == s;
    }
  }

  function Padding(n: nat): (b: Bytes)
    ensures (n + |b|) % 8 == 0
  {
    seq((8 - n % 8) % 8, _ => 0)
  }

  function Put(rs: seq<Record>): Bytes {
    PutRecords(rs) + Padding(|PutRecords(rs)|)
  }

  function Get(b: Bytes): seq<Record> {
    Read(Reading(0, [], [], []), b).records
  }

  lemma {:induction false} ReadZeros(r: Reading, b: Bytes)
    requires forall i :: 0 <= i < |b| ==> b[i] == 0
    ensures Read(r, b) == r
  {
    if b != [] { ReadZeros(r, b[..|b| - 1]); }
  }

  lemma GetPut(rs: seq<Record>)
    ensures Get(Put(rs)) == rs && |Put(rs)| % 8 == 0 && (rs != [] ==> Put(rs) != [])
  {
    ReadRecords(rs);
    ReadConcat(Reading(0, [], [], []), PutRecords(rs), Padding(|PutRecords(rs)|));
    ReadZeros(Reading(0, [], [], rs), Padding(|PutRecords(rs)|));
  }

  // ---- values as records ----

  function OfBytes(b: Bytes): (s: Numbers)
    ensures ToBytes(s) == b
  {
    var s: Numbers := seq(|b|, i requires 0 <= i < |b| => b[i] as nat);
    assert ToBytes(s) == b;
    s
  }

  function ToBytes(s: Numbers): Bytes {
    seq(|s|, i requires 0 <= i < |s| => s[i] % 256)
  }

  function OfChars(k: string): (s: Numbers)
    ensures ToChars(s) == k
  {
    var s: Numbers := seq(|k|, i requires 0 <= i < |k| => k[i] as nat);
    assert ToChars(s) == k;
    s
  }

  function ToChar(n: nat): char {
    if n < 0xD800 || 0xE000 <= n < 0x11_0000 then n as char else ' '
  }

  function ToChars(s: Numbers): string {
    seq(|s|, i requires 0 <= i < |s| => ToChar(s[i]))
  }

  function OfInts(v: seq<int>): (s: Numbers)
    ensures ToInts(s) == v
  {
    var s: Numbers := seq(|v|, i requires 0 <= i < |v| => if v[i] >= 0 then 2 * v[i] else -2 * v[i] - 1);
    assert ToInts(s) == v;
    s
  }

  function ToInt(n: nat): int {
    if n % 2 == 0 then n / 2 else -((n + 1) / 2)
  }

  function ToInts(s: Numbers): seq<int> {
    seq(|s|, i requires 0 <= i < |s| => ToInt(s[i]))
  }

  function OfFloats(v: seq<M.Float>): (s: Numbers)
    ensures ToFloats(s) == v
  {
    var s: Numbers := seq(|v|, i requires 0 <= i < |v| => v[i] as nat);
    assert ToFloats(s) == v;
    s
  }

  function ToFloats(s: Numbers): seq<M.Float> {
    seq(|s|, i requires 0 <= i < |s| => s[i] % 0x1_0000_0000_0000_0000)
  }

  function OfRanges(v: seq<Range>): (s: Numbers)
    ensures ToRanges(s) == v
  {
    if v == [] then [] else
      var s := [v[0].start, v[0].end] + OfRanges(v[1..]);
      assert s[2..] == OfRanges(v[1..]);
      s
  }

  function ToRanges(s: Numbers): seq<Range> {
    if |s| < 2 then [] else [Range(s[0], s[1])] + ToRanges(s[2..])
  }

  /** A list of values, each as one record. */
  function Each<X>(of: X -> Record, xs: seq<X>): (rs: seq<Record>)
    ensures |rs| == |xs| && forall i :: 0 <= i < |rs| ==> rs[i] == of(xs[i])
  {
    seq(|xs|, i requires 0 <= i < |xs| => of(xs[i]))
  }

  /** Values from records that all are one. */
  function All<X>(to: Record -> Option<X>, rs: seq<Record>): Option<seq<X>> {
    if rs == [] then Some([])
    else match (All(to, rs[..|rs| - 1]), to(rs[|rs| - 1]))
      case (Some(xs), Some(x)) => Some(xs + [x])
      case _ => None
  }

  lemma {:induction false} AllEach<X>(of: X -> Record, to: Record -> Option<X>, xs: seq<X>)
    requires forall i :: 0 <= i < |xs| ==> to(of(xs[i])) == Some(xs[i])
    ensures All(to, Each(of, xs)) == Some(xs)
  {
    if xs == [] {
    } else {
      AllEach(of, to, xs[..|xs| - 1]);
      assert Each(of, xs)[..|xs| - 1] == Each(of, xs[..|xs| - 1]);
      assert xs[..|xs| - 1] + [xs[|xs| - 1]] == xs;
    }
  }

  function OfHtml(h: Html): Record {
    [OfChars(h.key), [h.checksum], OfRanges(h.nodes), OfBytes(h.body)]
  }

  function ToHtml(r: Record): Option<Html> {
    if |r| == 4 && |r[1]| == 1 then Some(Html(ToChars(r[0]), r[1][0], ToRanges(r[2]), ToBytes(r[3]))) else None
  }

  function OfDoc(d: DocEntry): Record {
    [OfChars(d.key), [d.keyLen, d.checksum, d.off, d.len]]
  }

  function ToDoc(r: Record): Option<DocEntry> {
    if |r| == 2 && |r[1]| == 4 then Some(DocEntry(ToChars(r[0]), r[1][0], r[1][1], r[1][2], r[1][3])) else None
  }

  function OfBundle(d: BundleDesc): Record {
    [[d.docStart, d.docCount, d.off, d.len]]
  }

  function ToBundle(r: Record): Option<BundleDesc> {
    if |r| == 1 && |r[0]| == 4 then Some(BundleDesc(r[0][0], r[0][1], r[0][2], r[0][3])) else None
  }

  function OfTables(t: B.Tables): Record {
    [OfBytes(t.frames), t.offs, t.raws, t.docs]
  }

  function ToTables(r: Record): Option<B.Tables> {
    if |r| == 4 then Some(B.Tables(ToBytes(r[0]), r[1], r[2], r[3])) else None
  }

  function OfColumn(c: M.Column): Record {
    match c
    case StrColumn(ends, bytes, valid) => [[0], ends, OfBytes(bytes), OfBytes(valid)]
    case IntColumn(ints, valid) => [[1], OfInts(ints), OfBytes(valid)]
    case FloatColumn(floats, valid) => [[2], OfFloats(floats), OfBytes(valid)]
    case BoolColumn(bools, valid) => [[3], OfBytes(bools), OfBytes(valid)]
  }

  function ToColumn(r: Record): Option<M.Column> {
    if |r| == 4 && r[0] == [0] then Some(M.StrColumn(r[1], ToBytes(r[2]), ToBytes(r[3])))
    else if |r| == 3 && r[0] == [1] then Some(M.IntColumn(ToInts(r[1]), ToBytes(r[2])))
    else if |r| == 3 && r[0] == [2] then Some(M.FloatColumn(ToFloats(r[1]), ToBytes(r[2])))
    else if |r| == 3 && r[0] == [3] then Some(M.BoolColumn(ToBytes(r[1]), ToBytes(r[2])))
    else None
  }

  function OfNames(names: seq<string>): (r: Record)
    ensures ToNames(r) == names
  {
    var r: Record := seq(|names|, i requires 0 <= i < |names| => OfChars(names[i]));
    assert ToNames(r) == names;
    r
  }

  function ToNames(r: Record): seq<string> {
    seq(|r|, i requires 0 <= i < |r| => ToChars(r[i]))
  }

  function OfMeta(t: M.Table): seq<Record> {
    [OfNames(t.names), [OfBytes(t.types)]] + Each(OfColumn, t.columns)
  }

  function ToMeta(rs: seq<Record>): Option<M.Table> {
    if |rs| < 2 || |rs[1]| != 1 then None
    else match All(ToColumn, rs[2..])
      case None => None
      case Some(columns) => Some(M.Table(ToNames(rs[0]), ToBytes(rs[1][0]), columns))
  }

  lemma MetaReads(t: M.Table)
    ensures ToMeta(OfMeta(t)) == Some(t)
  {
    AllEach(OfColumn, ToColumn, t.columns);
    assert OfMeta(t)[2..] == Each(OfColumn, t.columns);
  }

  // ---- the witnesses ----

  function One<X>(to: Record -> Option<X>, rs: seq<Record>): Option<X> {
    if |rs| == 1 then to(rs[0]) else None
  }

  function Plain(): Serializer {
    Serializer(
      x => Put([OfHtml(x)]), b => One(ToHtml, Get(b)),
      x => Put(Each(OfDoc, x)), b => All(ToDoc, Get(b)),
      x => Put(Each(OfBundle, x)), b => All(ToBundle, Get(b)),
      x => Put([[x]]), b => One(r => if |r| == 1 then Some(r[0]) else None, Get(b)),
      x => Put([OfTables(x)]), b => One(ToTables, Get(b)),
      x => Put(OfMeta(x)), b => ToMeta(Get(b)))
  }

  /** The serializer contract can be met. */
  lemma PlainIsFaithful()
    ensures Faithful(Plain())
  {
    var s := Plain();
    forall x ensures s.getHtml(s.putHtml(x)) == Some(x) { GetPut([OfHtml(x)]); }
    forall x ensures s.getDocs(s.putDocs(x)) == Some(x) {
      GetPut(Each(OfDoc, x));
      AllEach(OfDoc, ToDoc, x);
    }
    forall x ensures s.getBundles(s.putBundles(x)) == Some(x) {
      GetPut(Each(OfBundle, x));
      AllEach(OfBundle, ToBundle, x);
    }
    forall x ensures s.getSort(s.putSort(x)) == Some(x) { GetPut([[x]]); }
    forall x ensures s.getTables(s.putTables(x)) == Some(x) && |s.putTables(x)| % 8 == 0 { GetPut([OfTables(x)]); }
    forall x ensures s.getMeta(s.putMeta(x)) == Some(x) && s.putMeta(x) != [] {
      GetPut(OfMeta(x));
      MetaReads(x);
    }
  }

  /** Stored bytes. */
  function AsIs(): Codec {
    Codec((raw: Bytes) => raw, (frame: Bytes) => Some(frame))
  }

  lemma AsIsIsLossless()
    ensures Lossless(AsIs())
  {
  }

  /** So can everything the archive is trusted with: stored bytes are a lossless codec for every dictionary. */
  lemma SomeFormatIsTrusted(graphemes: Key -> nat)
    ensures exists fmt: Format :: Trusted(fmt) && fmt.graphemes == graphemes
  {
    var fmt := Format(graphemes, Plain(), _ => AsIs());
    PlainIsFaithful();
    AsIsIsLossless();
    assert Trusted(fmt);
  }
}
