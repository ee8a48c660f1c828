/**
 What a source yields, run by run: of what arrives only what parses is handed on, each document with
 its own row, and of each key only the first is kept.
 */
module Arrivals {
  import opened Wrappers
  import opened TextBlocks
  import opened DocTable
  import opened Layout
  import opened Lists
  import opened FirstWins
  import M = Meta

  /** What a sink receives: a key whose text parses and serializes to a document, or does not. */
  datatype Arrival = Arrival(parsed: Option<Stored>, row: Option<M.Row>)

  ghost predicate ArrivalOk(x: Arrival) {
    x.parsed.Some? ==>
        NodeRanges(x.parsed.value.text.nodes, |x.parsed.value.text.pool|) && |x.parsed.value.text.pool| < U32
  }

  /** A document to be stored, with its row. */
  datatype Item = Item(doc: Stored, row: Option<M.Row>)

  function KeyOf(x: Item): Key { x.doc.key }

  /** The arrivals that parse, with their rows. */
  function Parsed(xs: seq<Arrival>): seq<Item> {
    if xs == [] then []
    else
      var before, last := Parsed(xs[..|xs| - 1]), xs[|xs| - 1];
      match last.parsed
      case Some(doc) => before + [Item(doc, last.row)]
      case None => before
  }

  type Source = seq<seq<Arrival>>

  /** What arrives and parses, run by run. */
  function AllParsed(source: Source): (runs: seq<seq<Item>>)
    ensures |runs| == |source| && forall r :: 0 <= r < |source| ==> runs[r] == Parsed(source[r])
  {
    seq(|source|, r requires 0 <= r < |source| => Parsed(source[r]))
  }

  /** The items the archive keeps: of each key the first, over all runs. */
  function Kept(items: seq<Item>): seq<Item> {
    Fresh(items, KeyOf, {})
  }

  // ---- one run ----

  /** The positions of the arrivals that parse, all of them, in order. */
  ghost predicate ParsesAt(xs: seq<Arrival>, at: seq<nat>) {
    && (forall j, k :: 0 <= j < k < |at| ==> at[j] < at[k])
    && (forall j :: 0 <= j < |at| ==> at[j] < |xs| && xs[at[j]].parsed.Some?)
    && (forall i: nat :: i < |xs| && xs[i].parsed.Some? ==> i in at)
  }

  /** Item `j` is the `j`-th arrival that parses, with its row. */
  lemma {:induction false} ParsedAt(xs: seq<Arrival>) returns (at: seq<nat>)
    ensures ParsesAt(xs, at) && |at| == |Parsed(xs)|
    ensures forall j :: 0 <= j < |at| ==> Parsed(xs)[j] == Item(xs[at[j]].parsed.value, xs[at[j]].row)
  {
    at := [];
    if xs != [] {
      var n := |xs| - 1;
      at := ParsedAt(xs[..n]);
      if xs[n].parsed.Some? { at := at + [n]; }
      assert forall i: nat :: i < n ==> xs[..n][i] == xs[i];
    }
  }

  // ---- all runs ----

  /** An arrival's place: the run and the position in it. */
  datatype Place = Place(run: nat, at: nat)

  predicate Earlier(p: Place, q: Place) {
    p.run < q.run || (p.run == q.run && p.at < q.at)
  }

  predicate Parses(source: Source, p: Place) {
    p.run < |source| && p.at < |source[p.run]| && source[p.run][p.at].parsed.Some?
  }

  function ArrivalAt(source: Source, p: Place): Arrival
    requires p.run < |source| && p.at < |source[p.run]|
  {
    source[p.run][p.at]
  }

  /** What arrived at `p` is stored, or something of the same key that arrived earlier is. */
  ghost predicate Covers(source: Source, docs: seq<Stored>, origin: seq<Place>, p: Place)
    requires |origin| == |docs| && Parses(source, p)
  {
    exists i :: 0 <= i < |docs| && docs[i].key == ArrivalAt(source, p).parsed.value.key
                && (origin[i] == p || Earlier(origin[i], p))
  }

  /** Each document arrived at its place, in the first `n` runs. */
  ghost predicate ArrivedAt(source: Source, n: nat, docs: seq<Stored>, origin: seq<Place>)
    requires n <= |source|
  {
    |origin| == |docs| && forall i :: 0 <= i < |docs| ==>
      origin[i].run < n && Parses(source, origin[i]) && ArrivalAt(source, origin[i]).parsed == Some(docs[i])
  }

  ghost predicate Rising(origin: seq<Place>) {
    forall i, j :: 0 <= i < j < |origin| ==> Earlier(origin[i], origin[j])
  }

  ghost predicate NoKeyTwice(docs: seq<Stored>) {
    forall i, j :: 0 <= i < j < |docs| ==> docs[i].key != docs[j].key
  }

  ghost predicate AllCovered(source: Source, n: nat, docs: seq<Stored>, origin: seq<Place>)
    requires n <= |source| && |origin| == |docs|
  {
    forall p :: Parses(source, p) && p.run < n ==> Covers(source, docs, origin, p)
  }

  /**
   Document by document, where in the first `n` runs it arrived: in the order of arrival, no key
   twice, and of each key that arrives the first.
   */
  ghost predicate ComesFrom(source: Source, n: nat, docs: seq<Stored>, origin: seq<Place>)
    requires n <= |source|
  {
    ArrivedAt(source, n, docs, origin) && Rising(origin) && NoKeyTwice(docs) && AllCovered(source, n, docs, origin)
  }

  /** Each item has the row it arrived with. */
  ghost predicate RowsFrom(source: Source, items: seq<Item>, origin: seq<Place>) {
    |origin| == |items| && forall i :: 0 <= i < |items| ==>
      Parses(source, origin[i]) && items[i].row == ArrivalAt(source, origin[i]).row
  }

  function Docs(items: seq<Item>): (docs: seq<Stored>)
    ensures |docs| == |items| && forall i :: 0 <= i < |items| ==> docs[i] == items[i].doc
  {
    seq(|items|, i requires 0 <= i < |items| => items[i].doc)
  }

  lemma {:induction false} FirstOf(items: seq<Item>, seen: set<Key>, m: nat) returns (h: nat)
    requires m < |items| && KeyOf(items[m]) !in seen
    ensures h <= m && IsFirst(items, KeyOf, seen, h) && KeyOf(items[h]) == KeyOf(items[m])
  {
    h := m;
    if g: nat :| g < m && KeyOf(items[g]) == KeyOf(items[m]) { h := FirstOf(items, seen, g); }
  }

  /** Every key that comes is kept. */
  lemma KeysKept(items: seq<Item>, key: Key) returns (i: nat)
    requires key in Keys(items, KeyOf)
    ensures i < |Kept(items)| && KeyOf(Kept(items)[i]) == key
  {
    var x :| x in items && KeyOf(x) == key;
    var m :| 0 <= m < |items| && items[m] == x;
    var h := FirstOf(items, {}, m);
    var at := FreshIs(items, KeyOf, {});
    i :| 0 <= i < |at| && at[i] == h;
  }

  /** What run `n` adds to what has the keys `seen`, and where it arrived. */
  ghost predicate Adds(source: Source, n: nat, seen: set<Key>, docs: seq<Stored>, places: seq<Place>)
    requires n < |source|
  {
    && ArrivedAt(source, n + 1, docs, places) && Rising(places) && NoKeyTwice(docs)
    && (forall i :: 0 <= i < |docs| ==> places[i].run == n && docs[i].key !in seen)
    && forall p :: Parses(source, p) && p.run == n && ArrivalAt(source, p).parsed.value.key !in seen ==>
         Covers(source, docs, places, p)
  }

  /** Where what a run adds has arrived: at the first of its key, where the key was not seen before. */
  lemma FreshPlaces(source: Source, n: nat, seen: set<Key>)
      returns (at: seq<nat>, first: seq<nat>, places: seq<Place>)
    requires n < |source|
    ensures ParsesAt(source[n], at) && |at| == |Parsed(source[n])| && |places| == |first|
    ensures forall j :: 0 <= j < |at| ==>
            Parsed(source[n])[j] == Item(source[n][at[j]].parsed.value, source[n][at[j]].row)
    ensures forall h :: IsFirst(Parsed(source[n]), KeyOf, seen, h) ==> h in first
    ensures forall i :: 0 <= i < |first| ==>
            first[i] < |at| && places[i] == Place(n, at[first[i]])
    ensures var added := Fresh(Parsed(source[n]), KeyOf, seen);
            && ArrivedAt(source, n + 1, Docs(added), places) && Rising(places) && NoKeyTwice(Docs(added))
            && (forall i :: 0 <= i < |added| ==>
               Docs(added)[i].key !in seen && Docs(added)[i] == Parsed(source[n])[first[i]].doc)
            && RowsFrom(source, added, places)
  {
    at := ParsedAt(source[n]);
    first := FreshIs(Parsed(source[n]), KeyOf, seen);
    places := seq(|first|, i requires 0 <= i < |first| => Place(n, at[first[i]]));
  }

  lemma AddedFrom(source: Source, n: nat, seen: set<Key>) returns (places: seq<Place>)
    requires n < |source|
    ensures var added := Fresh(Parsed(source[n]), KeyOf, seen);
            Adds(source, n, seen, Docs(added), places) && RowsFrom(source, added, places)
  {
    var at, first;
    at, first, places := FreshPlaces(source, n, seen);
    var added := Fresh(Parsed(source[n]), KeyOf, seen);
    forall p | Parses(source, p) && p.run == n && ArrivalAt(source, p).parsed.value.key !in seen
        ensures Covers(source, Docs(added), places, p) {
      var m, h, i := FirstCovers(source, n, seen, at, first, p);
      CoversAt(source, Docs(added), places, p, i);
    }
  }

  /** The first with the key of what arrived at `p`. */
  lemma FirstCovers(source: Source, n: nat, seen: set<Key>, at: seq<nat>, first: seq<nat>, p: Place)
      returns (m: nat, h: nat, i: nat)
    requires n < |source| && ParsesAt(source[n], at) && |at| == |Parsed(source[n])|
    requires forall j :: 0 <= j < |at| ==>
             Parsed(source[n])[j] == Item(source[n][at[j]].parsed.value, source[n][at[j]].row)
    requires forall h :: IsFirst(Parsed(source[n]), KeyOf, seen, h) ==> h in first
    requires Parses(source, p) && p.run == n && ArrivalAt(source, p).parsed.value.key !in seen
    ensures i < |first| && first[i] == h <= m < |at| && at[m] == p.at
    ensures Parsed(source[n])[h].doc.key == ArrivalAt(source, p).parsed.value.key
  {
    m :| 0 <= m < |at| && at[m] == p.at;
    h := FirstOf(Parsed(source[n]), seen, m);
    i :| 0 <= i < |first| && first[i] == h;
  }

  /** The items kept of the first `n` runs. */
  function KeptUpto(source: Source, n: nat): seq<Item>
    requires n <= |source|
  {
    Kept(Flatten(AllParsed(source)[..n]))
  }

  lemma KeptNext(source: Source, n: nat)
    requires n < |source|
    ensures var seen := Keys(Flatten(AllParsed(source)[..n]), KeyOf);
            KeptUpto(source, n + 1) == KeptUpto(source, n) + Fresh(Parsed(source[n]), KeyOf, seen)
  {
    var runs := AllParsed(source);
    RunAdded(runs, n, KeyOf);
    FreshMore(Flatten(runs[..n]), runs[n], KeyOf);
  }

  // ---- what one run adds is one bundle ----

  /** How much the first `b` of the counts come to. */
  function SumUpto(counts: seq<nat>, b: nat): nat
    requires b <= |counts|
  {
    if b == 0 then 0 else SumUpto(counts, b - 1) + counts[b - 1]
  }

  lemma {:induction false} SumPrefix(counts: seq<nat>, more: seq<nat>, b: nat)
    requires b <= |counts|
    ensures SumUpto(counts + more, b) == SumUpto(counts, b)
  {
    if b > 0 { SumPrefix(counts, more, b - 1); }
  }

  /** Stretch `b` of the places, as long as count `b`, is all of run `runs[b]`; later stretches are of later runs. */
  ghost predicate PerRun(counts: seq<nat>, origin: seq<Place>, runs: seq<nat>) {
    && |runs| == |counts| && SumUpto(counts, |counts|) == |origin|
    && (forall b, d :: 0 <= b < d < |runs| ==> runs[b] < runs[d])
    && forall b, i {:trigger runs[b], origin[i]} ::
         0 <= b < |runs| && 0 <= i < |origin| && SumUpto(counts, b) <= i < SumUpto(counts, b) + counts[b] ==>
         origin[i].run == runs[b]
  }

  lemma PerRunNext(counts: seq<nat>, origin: seq<Place>, runs: seq<nat>, more: seq<Place>, n: nat)
      returns (runs': seq<nat>)
    requires PerRun(counts, origin, runs) && (forall b :: 0 <= b < |runs| ==> runs[b] < n)
    requires forall i :: 0 <= i < |more| ==> more[i].run == n
    ensures PerRun(counts + NonZero(|more|), origin + more, runs')
    ensures forall b :: 0 <= b < |runs'| ==> runs'[b] < n + 1
  {
    var counts', origin' := counts + NonZero(|more|), origin + more;
    runs' := runs + if more == [] then [] else [n];
    forall b | 0 <= b <= |counts| ensures SumUpto(counts', b) == SumUpto(counts, b) {
      SumPrefix(counts, NonZero(|more|), b);
    }
    forall b, i | 0 <= b < |runs'| && 0 <= i < |origin'|
        && SumUpto(counts', b) <= i < SumUpto(counts', b) + counts'[b] ensures origin'[i].run == runs'[b] {
      if b < |runs| {
        SumsGrow(counts, b + 1, |counts|);
        assert origin'[i] == origin[i] && runs'[b] == runs[b];
      }
    }
  }

  lemma {:induction false} SumsGrow(counts: seq<nat>, b: nat, d: nat)
    requires b <= d <= |counts|
    ensures SumUpto(counts, b) <= SumUpto(counts, d)
  {
    if b < d { SumsGrow(counts, b, d - 1); }
  }

  /**
   The kept documents of the first `n` runs: where they arrived, with which rows, and how many of each
   run there are, of those that have any.
   */
  lemma {:induction false} KeptFrom(source: Source, n: nat) returns (origin: seq<Place>, runs: seq<nat>)
    requires n <= |source|
    ensures ComesFrom(source, n, Docs(KeptUpto(source, n)), origin)
    ensures RowsFrom(source, KeptUpto(source, n), origin)
    ensures PerRun(Sizes(AllParsed(source)[..n], KeyOf), origin, runs)
    ensures forall b :: 0 <= b < |runs| ==> runs[b] < n
  {
    if n == 0 {
      origin, runs := [], [];
      assert AllParsed(source)[..0] == [];
    } else {
      var was, wasRuns := KeptFrom(source, n - 1);
      var before := Flatten(AllParsed(source)[..n - 1]);
      KeptNext(source, n - 1);
      var added := Fresh(Parsed(source[n - 1]), KeyOf, Keys(before, KeyOf));
      var more := AddedFrom(source, n - 1, Keys(before, KeyOf));
      DocsJoined(Kept(before), added);
      Joined(source, n - 1, before, was, Docs(added), more);
      RowsJoined(source, Kept(before), was, added, more);
      origin := was + more;
      RunAdded(AllParsed(source), n - 1, KeyOf);
      runs := PerRunNext(Sizes(AllParsed(source)[..n - 1], KeyOf), was, wasRuns, more, n - 1);
    }
  }

  lemma DocsJoined(items: seq<Item>, more: seq<Item>)
    ensures Docs(items + more) == Docs(items) + Docs(more)
  {
  }

  lemma RowsJoined(source: Source, items: seq<Item>, origin: seq<Place>, added: seq<Item>, more: seq<Place>)
    requires RowsFrom(source, items, origin) && RowsFrom(source, added, more)
    ensures RowsFrom(source, items + added, origin + more)
  {
  }

  lemma Joined(source: Source, n: nat, before: seq<Item>, origin: seq<Place>, added: seq<Stored>, more: seq<Place>)
    requires n < |source| && ComesFrom(source, n, Docs(Kept(before)), origin)
    requires Adds(source, n, Keys(before, KeyOf), added, more)
    ensures ComesFrom(source, n + 1, Docs(Kept(before)) + added, origin + more)
  {
    KeysOfKept(before);
    OrderJoined(source, n, Docs(Kept(before)), origin, Keys(before, KeyOf), added, more);
    forall p | Parses(source, p) && p.run < n + 1 ensures Covers(source, Docs(Kept(before)) + added, origin + more, p) {
      var kept := Docs(Kept(before));
      if p.run < n {
        CoveredBefore(source, kept, origin, added, more, p);
      } else if ArrivalAt(source, p).parsed.value.key in Keys(before, KeyOf) {
        var i := KeysKept(before, ArrivalAt(source, p).parsed.value.key);
        CoversAt(source, kept + added, origin + more, p, i);
      } else {
        CoveredNow(source, kept, origin, added, more, p);
      }
    }
  }

  lemma OrderJoined(source: Source, n: nat, docs: seq<Stored>, origin: seq<Place>, seen: set<Key>, added: seq<Stored>,
      more: seq<Place>)
    requires n < |source| && ArrivedAt(source, n, docs, origin) && Rising(origin) && NoKeyTwice(docs)
    requires forall i :: 0 <= i < |docs| ==> docs[i].key in seen
    requires ArrivedAt(source, n + 1, added, more) && Rising(more) && NoKeyTwice(added)
             && forall i :: 0 <= i < |added| ==> more[i].run == n && added[i].key !in seen
    ensures ArrivedAt(source, n + 1, docs + added, origin + more) && Rising(origin + more) && NoKeyTwice(docs + added)
  {
  }

  lemma KeysOfKept(items: seq<Item>)
    ensures forall i :: 0 <= i < |Kept(items)| ==> Docs(Kept(items))[i].key in Keys(items, KeyOf)
  {
    var at := FreshIs(items, KeyOf, {});
    forall i | 0 <= i < |Kept(items)| ensures Docs(Kept(items))[i].key in Keys(items, KeyOf) {
      assert items[at[i]] in items;
    }
  }

  lemma CoveredBefore(source: Source, docs: seq<Stored>, origin: seq<Place>, added: seq<Stored>, more: seq<Place>,
      p: Place)
    requires |origin| == |docs| && |more| == |added| && Parses(source, p) && Covers(source, docs, origin, p)
    ensures Covers(source, docs + added, origin + more, p)
  {
    var key := ArrivalAt(source, p).parsed.value.key;
    var i :| 0 <= i < |docs| && docs[i].key == key && (origin[i] == p || Earlier(origin[i], p));
    CoversAt(source, docs + added, origin + more, p, i);
  }

  lemma CoveredNow(source: Source, docs: seq<Stored>, origin: seq<Place>, added: seq<Stored>, more: seq<Place>,
      p: Place)
    requires |origin| == |docs| && |more| == |added| && Parses(source, p) && Covers(source, added, more, p)
    ensures Covers(source, docs + added, origin + more, p)
  {
    var key := ArrivalAt(source, p).parsed.value.key;
    var i :| 0 <= i < |added| && added[i].key == key && (more[i] == p || Earlier(more[i], p));
    CoversAt(source, docs + added, origin + more, p, |docs| + i);
  }

  lemma CoversAt(source: Source, docs: seq<Stored>, origin: seq<Place>, p: Place, i: nat)
    requires |origin| == |docs| && Parses(source, p) && i < |docs|
    requires docs[i].key == ArrivalAt(source, p).parsed.value.key
    requires origin[i] == p || Earlier(origin[i], p)
    ensures Covers(source, docs, origin, p)
  {
  }
}
