/**
 Renumbering a forest by document order: the nodes of the document, and only they, get the
 numbers 0, 1, 2, … in the order they are read.
 */
module Renumber {
  import opened Wrappers
  import opened NodeLayout
  import opened Forest
  import opened ForestEdits
  import opened Links
  import opened Contiguous

  type Table = seq<Option<nat>>

  /** `ix` maps the nodes of `order` to their positions, and every other node to nothing. */
  ghost predicate Numbering(ix: Table, order: Ids) {
    && (forall i :: 0 <= i < |ix| && ix[i].Some? ==> ix[i].value < |order| && order[ix[i].value] == i)
    && (forall k :: 0 <= k < |order| ==> order[k] < |ix| && ix[order[k]] == Some(k))
  }

  function Move(ix: Table, v: Option<nat>): Option<nat>
    requires LinkOk(v, |ix|)
  {
    if v.None? then None else ix[v.value]
  }

  ghost predicate AllNumbered(ix: Table, s: Ids) {
    forall k :: 0 <= k < |s| ==> s[k] < |ix| && ix[s[k]].Some?
  }

  ghost function MoveAll(ix: Table, s: Ids): (t: Ids)
    requires AllNumbered(ix, s)
    ensures |t| == |s| && forall k :: 0 <= k < |s| ==> t[k] == ix[s[k]].value
  {
    seq(|s|, k requires 0 <= k < |s| => ix[s[k]].value)
  }

  lemma MoveAllConcat(ix: Table, s: Ids, t: Ids)
    requires AllNumbered(ix, s) && AllNumbered(ix, t)
    ensures AllNumbered(ix, s + t) && MoveAll(ix, s + t) == MoveAll(ix, s) + MoveAll(ix, t)
  {
  }

  /** The numbering covers the document of `f`, which is rooted at node 0. */
  ghost predicate Covers(f: Forest, ix: Table) {
    Tidy(f) && 0 < |f.kids| == |ix| && f.par[0] == None && Numbering(ix, Pre(f, 0))
  }

  lemma CoveredNode(f: Forest, ix: Table, x: nat)
    requires Covers(f, ix) && x in Pre(f, 0)
    ensures x < |f.kids| && ix[x].Some? && AllNumbered(ix, f.kids[x]) && LinkOk(f.par[x], |ix|)
    ensures forall j :: 0 <= j < |f.kids[x]| ==> f.kids[x][j] in Pre(f, 0)
    ensures x != 0 ==> f.par[x].Some? && ix[f.par[x].value].Some?
  {
    var order := Pre(f, 0);
    var k := IndexOf(order, x);
    InPreUp(f, 0, x);
    forall j | 0 <= j < |f.kids[x]| ensures f.kids[x][j] in order && f.kids[x][j] < |ix| && ix[f.kids[x][j]].Some? {
      InPreDown(f, 0, x, f.kids[x][j]);
      var i := IndexOf(order, f.kids[x][j]);
    }
    if x != 0 {
      var i := IndexOf(order, f.par[x].value);
    }
  }

  ghost function Renumbered(f: Forest, ix: Table): Forest
    requires Covers(f, ix)
  {
    var order := Pre(f, 0);
    Forest(seq(|order|, k requires 0 <= k < |order| => CoveredNode(f, ix, order[k]); Move(ix, f.par[order[k]])),
           seq(|order|, k requires 0 <= k < |order| => CoveredNode(f, ix, order[k]); MoveAll(ix, f.kids[order[k]])),
           seq(|order|, k requires 0 <= k < |order| => CoveredNode(f, ix, order[k]); f.rank[order[k]]),
           f.top)
  }

  lemma RenumberedAt(f: Forest, ix: Table, x: nat)
    requires Covers(f, ix) && x in Pre(f, 0)
    ensures var g := Renumbered(f, ix);
            && x < |ix| && ix[x].Some? && ix[x].value < |g.kids| == |g.par| == |g.rank| && LinkOk(f.par[x], |ix|)
            && AllNumbered(ix, f.kids[x])
            && g.kids[ix[x].value] == MoveAll(ix, f.kids[x]) && g.par[ix[x].value] == Move(ix, f.par[x])
            && g.rank[ix[x].value] == f.rank[x]
  {
    CoveredNode(f, ix, x);
    var k := IndexOf(Pre(f, 0), x);
  }

  lemma RenumberTidy(f: Forest, ix: Table)
    requires Covers(f, ix)
    ensures Tidy(Renumbered(f, ix)) && Renumbered(f, ix).par[0] == None
  {
    var g, order := Renumbered(f, ix), Pre(f, 0);
    assert order[0] == 0;
    RenumberedAt(f, ix, 0);
    forall k | 0 <= k < |order| ensures g.rank[k] <= g.top && NoDup(g.kids[k]) && Kin(g, k, g.kids[k]) {
      var x := order[k];
      RenumberedAt(f, ix, x);
      CoveredNode(f, ix, x);
      assert NoDup(f.kids[x]) && Kin(f, x, f.kids[x]);
      forall j | 0 <= j < |g.kids[k]| ensures ChildOk(g, k, g.kids[k][j]) {
        assert ChildOk(f, x, f.kids[x][j]);
        RenumberedAt(f, ix, f.kids[x][j]);
      }
      forall i, j | 0 <= i < j < |g.kids[k]| ensures g.kids[k][i] != g.kids[k][j] {
        assert order[g.kids[k][i]] == f.kids[x][i] && order[g.kids[k][j]] == f.kids[x][j];
      }
    }
  }

  lemma AllCovered(f: Forest, ix: Table, s: Ids)
    requires Covers(f, ix) && forall n :: n in s ==> n in Pre(f, 0)
    ensures AllNumbered(ix, s)
  {
    forall k | 0 <= k < |s| ensures s[k] < |ix| && ix[s[k]].Some? {
      assert s[k] in s;
      CoveredNode(f, ix, s[k]);
    }
  }

  /** Reading a subtree and renumbering commute. */
  lemma {:induction false} RenumberPre(f: Forest, ix: Table, x: nat)
    requires Covers(f, ix) && x in Pre(f, 0) && x < |f.kids|
    ensures Tidy(Renumbered(f, ix)) && ix[x].Some? && ix[x].value < |Renumbered(f, ix).kids|
    ensures AllNumbered(ix, Pre(f, x)) && Pre(Renumbered(f, ix), ix[x].value) == MoveAll(ix, Pre(f, x))
    decreases f.top - f.rank[x], |f.kids[x]| + 1
  {
    var g := Renumbered(f, ix);
    RenumberTidy(f, ix);
    RenumberedAt(f, ix, x);
    CoveredNode(f, ix, x);
    RenumberPreAll(f, ix, x, f.kids[x]);
    assert Pre(g, ix[x].value) == MoveAll(ix, Pre(f, x));
  }

  lemma {:induction false} RenumberPreAll(f: Forest, ix: Table, p: nat, cs: Ids)
    requires Covers(f, ix) && p in Pre(f, 0) && p < |f.kids| && Kin(f, p, cs) && forall j :: 0 <= j < |cs| ==>
             cs[j] in Pre(f, 0)
    ensures AllNumbered(ix, cs) && AllNumbered(ix, PreAll(f, p, cs))
    ensures Tidy(Renumbered(f, ix)) && ix[p].Some? && ix[p].value < |Renumbered(f, ix).kids|
    ensures Kin(Renumbered(f, ix), ix[p].value, MoveAll(ix, cs))
    ensures PreAll(Renumbered(f, ix), ix[p].value, MoveAll(ix, cs)) == MoveAll(ix, PreAll(f, p, cs))
    decreases f.top - f.rank[p], |cs|
  {
    var g := Renumbered(f, ix);
    RenumberTidy(f, ix);
    RenumberedAt(f, ix, p);
    AllCovered(f, ix, cs);
    var ds := MoveAll(ix, cs);
    forall j | 0 <= j < |ds| ensures ChildOk(g, ix[p].value, ds[j]) {
      assert ChildOk(f, p, cs[j]);
      RenumberedAt(f, ix, cs[j]);
    }
    if cs != [] {
      assert ChildOk(f, p, cs[0]);
      RenumberPre(f, ix, cs[0]);
      RenumberPreAll(f, ix, p, cs[1..]);
      assert ds[1..] == MoveAll(ix, cs[1..]);
      MoveAllConcat(ix, Pre(f, cs[0]), PreAll(f, p, cs[1..]));
    }
  }

  /** The renumbered document is contiguous: its nodes read 0, 1, 2, … with none left over. */
  lemma RenumberContiguous(f: Forest, ix: Table)
    requires Covers(f, ix)
    ensures IsContiguous(Renumbered(f, ix))
  {
    assert Pre(f, 0)[0] == 0;
    RenumberPre(f, ix, 0);
    assert MoveAll(ix, Pre(f, 0)) == Run(0, |Pre(f, 0)|);
  }

  /** Numbering a document that is already contiguous changes nothing. */
  lemma ContiguousNumbering(f: Forest, ix: Table)
    requires Covers(f, ix) && IsContiguous(f)
    ensures forall i :: 0 <= i < |ix| ==> ix[i] == Some(i)
    ensures Renumbered(f, ix) == f
  {
    var g := Renumbered(f, ix);
    var order := Pre(f, 0);
    forall i | 0 <= i < |ix| ensures ix[i] == Some(i) {
      assert order[i] == i && ix[order[i]] == Some(i);
    }
    forall i | 0 <= i < |f.kids| ensures g.kids[i] == f.kids[i] && g.par[i] == f.par[i] && g.rank[i] == f.rank[i] {
      assert order[i] == i;
      RenumberedAt(f, ix, i);
    }
    assert g.kids == f.kids && g.par == f.par && g.rank == f.rank;
  }

  // ---- links ----

  /** Record `k` of `b` carries the links of record `x` of `a`, renumbered. */
  predicate MovedAt(a: Arena, ix: Table, x: nat, b: Arena, k: nat)
    requires x < |a| == |ix| && k < |b| && RecOk(a[x], |a|)
  {
    LinksAre(b[k], Move(ix, a[x].parent), Move(ix, a[x].prev), Move(ix, a[x].next),
             Move(ix, a[x].FirstChild()), Move(ix, a[x].LastChild()))
  }

  ghost predicate Moved(a: Arena, f: Forest, ix: Table, b: Arena)
    requires Linked(a, f) && Covers(f, ix)
  {
    && |b| == |Pre(f, 0)|
    && forall k :: 0 <= k < |b| ==> (MovedReady(a, f, ix, k); MovedAt(a, ix, Pre(f, 0)[k], b, k))
  }

  lemma MovedReady(a: Arena, f: Forest, ix: Table, k: nat)
    requires Linked(a, f) && Covers(f, ix) && k < |Pre(f, 0)|
    ensures Pre(f, 0)[k] < |a| && RecOk(a[Pre(f, 0)[k]], |a|)
  {
    assert Pre(f, 0)[k] in Pre(f, 0);
    CoveredNode(f, ix, Pre(f, 0)[k]);
  }

  /** Copying the live records with renumbered links spells the renumbered forest. */
  lemma RenumberLinked(a: Arena, f: Forest, ix: Table, b: Arena)
    requires Linked(a, f) && Alone(a, f) && Covers(f, ix) && Moved(a, f, ix, b)
    ensures Linked(b, Renumbered(f, ix)) && Alone(b, Renumbered(f, ix))
  {
    var g, order := Renumbered(f, ix), Pre(f, 0);
    RenumberTidy(f, ix);
    forall k | 0 <= k < |b| ensures ListOk(b, k, g.kids[k]) && RecOk(b[k], |b|) && b[k].parent == g.par[k] {
      MovedReady(a, f, ix, k);
      assert order[k] in order && MovedAt(a, ix, order[k], b, k);
      RenumberedAt(f, ix, order[k]);
      RenumberedList(a, f, ix, b, order[k]);
    }
    assert order[0] == 0;
    MovedReady(a, f, ix, 0);
    assert MovedAt(a, ix, 0, b, 0);
  }

  lemma RenumberedList(a: Arena, f: Forest, ix: Table, b: Arena, x: nat)
    requires Linked(a, f) && Covers(f, ix) && Moved(a, f, ix, b) && x in Pre(f, 0) && x < |a|
    ensures ix[x].Some? && ix[x].value < |b| && AllNumbered(ix, f.kids[x])
            && ListOk(b, ix[x].value, MoveAll(ix, f.kids[x]))
  {
    CoveredNode(f, ix, x);
    assert ListOk(a, x, f.kids[x]);
    MovedReady(a, f, ix, ix[x].value);
    assert MovedAt(a, ix, x, b, ix[x].value);
    forall j | 0 <= j < |f.kids[x]| ensures EntryOk(b, MoveAll(ix, f.kids[x]), j) {
      assert EntryOk(a, f.kids[x], j);
      RenumberedEntry(a, f, ix, b, f.kids[x], j);
    }
  }

  lemma RenumberedEntry(a: Arena, f: Forest, ix: Table, b: Arena, ks: Ids, j: nat)
    requires Linked(a, f) && Covers(f, ix) && Moved(a, f, ix, b) && AllNumbered(ix, ks)
    requires j < |ks| && EntryOk(a, ks, j)
    ensures EntryOk(b, MoveAll(ix, ks), j)
  {
    var k := ix[ks[j]].value;
    MovedReady(a, f, ix, k);
    assert MovedAt(a, ix, ks[j], b, k);
  }
}
