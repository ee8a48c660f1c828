/**
 Pre-order contiguity: when node numbers are document order, every subtree is one index range,
 and climbing from a node to the nearest next sibling finds the end of that range.
 */
module Contiguous {
  import opened Wrappers
  import opened Forest
  import opened ForestEdits
  import opened Links
  import opened Nodes

  function Run(from: nat, n: nat): (r: Ids)
    ensures |r| == n && forall k :: 0 <= k < n ==> r[k] == from + k
  {
    seq(n, k => from + k)
  }

  /** True contiguity: reading the document visits the nodes as 0, 1, 2, … with none left over. */
  ghost predicate IsContiguous(f: Forest) {
    Tidy(f) && 0 < |f.kids| && Pre(f, 0) == Run(0, |f.kids|)
  }

  /** One past the last index of the tree at `i`, if its nodes are numbered consecutively. */
  ghost function End(f: Forest, i: nat): nat
    requires Tidy(f) && i < |f.kids|
  {
    i + |Pre(f, i)|
  }

  /** Every subtree of a contiguous document is the index range starting at its root. */
  lemma SubtreeIsRun(f: Forest, i: nat)
    requires IsContiguous(f) && i < |f.kids|
    ensures i in Pre(f, 0) && Pre(f, i) == Run(i, |Pre(f, i)|) && End(f, i) <= |f.kids|
  {
    assert Run(0, |f.kids|)[i] == i;
    var a, b := EditInside(f, f, 0, i);
    var all := Pre(f, 0);
    assert all[|a|] == Pre(f, i)[0] == i;
    forall k | 0 <= k < |Pre(f, i)| ensures Pre(f, i)[k] == i + k {
      assert all[|a| + k] == Pre(f, i)[k];
    }
  }

  /** The tree at `p`, split around its child number `k`. */
  lemma AroundChild(f: Forest, p: nat, k: nat) returns (before: Ids, after: Ids)
    requires Tidy(f) && p < |f.kids| && k < |f.kids[p]|
    ensures ChildOk(f, p, f.kids[p][k]) && Pre(f, p) == [p] + before + Pre(f, f.kids[p][k]) + after
    ensures k == 0 ==> before == []
    ensures k + 1 == |f.kids[p]| ==> after == []
    ensures k + 1 < |f.kids[p]| ==> ChildOk(f, p, f.kids[p][k + 1]) && Pre(f, f.kids[p][k + 1]) <= after
  {
    var ks := f.kids[p];
    var left, c, right := ks[..k], ks[k], ks[k + 1..];
    assert ks == left + [c] + right;
    KinParts(f, p, left, [c], right);
    assert Kin(f, p, ks);
    PreAllAround(f, p, left, c, right);
    before, after := PreAll(f, p, left), PreAll(f, p, right);
    if k + 1 < |ks| { assert right[0] == ks[k + 1]; }
  }

  /** The last child's range ends where its parent's does; any other ends at the next sibling. */
  lemma ChildEnd(f: Forest, p: nat, k: nat)
    requires IsContiguous(f) && p < |f.kids| && k < |f.kids[p]|
    ensures ChildOk(f, p, f.kids[p][k])
    ensures End(f, f.kids[p][k]) == if k + 1 == |f.kids[p]| then End(f, p) else f.kids[p][k + 1]
  {
    var before, after := AroundChild(f, p, k);
    var c := f.kids[p][k];
    SubtreeIsRun(f, p);
    SubtreeIsRun(f, c);
    assert Pre(f, p)[1 + |before|] == Pre(f, c)[0] == c;
    if k + 1 < |f.kids[p]| {
      assert Pre(f, p)[1 + |before| + |Pre(f, c)|] == after[0] == f.kids[p][k + 1];
    }
  }

  /**
   The climb of `subtree_end`: from `index` upwards to the first node with a next sibling. On a
   contiguous document the result bounds exactly the proper descendants of `index`.
   */
  method SubtreeEnd(nodes: Nodes, index: nat) returns (end: nat)
    requires nodes.Rooted() && IsContiguous(nodes.doc) && index < |nodes.recs|
    ensures end == End(nodes.doc, index)
    ensures forall j :: index < j < end <==> (j in Pre(nodes.doc, index) && j != index)
  {
    ghost var f := nodes.doc;
    RangeIsSubtree(f, index);
    var node: Option<nat> := Some(index);
    while node.Some?
      invariant node.Some? ==> node.value < |nodes.recs| && End(f, node.value) == End(f, index)
      invariant node.None? ==> End(f, index) == |nodes.recs|
      decreases if node.Some? then f.rank[node.value] + 1 else 0
    {
      var n := node.value;
      if n != 0 {
        NonRootHangs(f, n);
        Neighbours(nodes.recs, f, n);
        ghost var p := f.par[n].value;
        ChildEnd(f, p, IndexOf(f.kids[p], n));
      }
      var sibling := nodes.NextSiblingIndex(n);
      if sibling.Some? {
        return sibling.value;
      }
      node := nodes.ParentIndex(n);
    }
    return nodes.Len();
  }

  /** The index range of a subtree holds its nodes and no others. */
  lemma RangeIsSubtree(f: Forest, i: nat)
    requires IsContiguous(f) && i < |f.kids|
    ensures forall j :: i < j < End(f, i) <==> (j in Pre(f, i) && j != i)
  {
    SubtreeIsRun(f, i);
    forall j | i < j < End(f, i) ensures j in Pre(f, i) {
      assert Pre(f, i)[j - i] == j;
    }
  }

  lemma NonRootHangs(f: Forest, n: nat)
    requires IsContiguous(f) && 0 < n < |f.kids|
    ensures Attached(f, n)
  {
    assert Run(0, |f.kids|)[n] == n;
    InPreUp(f, 0, n);
  }

  // ---- the debug check ----

  /** The program's own check: every non-root node has a parent that precedes it. */
  predicate ParentPrecedes(par: seq<Option<nat>>) {
    forall i :: 1 <= i < |par| ==> par[i].Some? && par[i].value < i
  }

  lemma ContiguousPassesCheck(f: Forest)
    requires IsContiguous(f)
    ensures ParentPrecedes(f.par)
  {
    forall i | 1 <= i < |f.par| ensures f.par[i].Some? && f.par[i].value < i {
      NonRootHangs(f, i);
      var p := f.par[i].value;
      assert i in Pre(f, p) by {
        assert p in Pre(f, p);
        assert ChildOk(f, p, f.kids[p][IndexOf(f.kids[p], i)]);
        InPreDown(f, p, p, i);
      }
      SubtreeIsRun(f, p);
    }
  }

  /** The check is only necessary: a dropped child list leaves orphans that still name their parent. */
  lemma OrphansPassCheck()
    ensures exists f: Forest :: Tidy(f) && |f.kids| == 2 && IsContiguous(f)
              && ParentPrecedes(ClearKids(f, 0).par) && !IsContiguous(ClearKids(f, 0))
  {
    var g := Forest([None, Some(0)], [[1], []], [0, 1], 1);
    var f := ClearKids(g, 0);
    assert Kin(g, 0, g.kids[0]) && Kin(g, 1, g.kids[1]);
    assert Tidy(g) && Tidy(f);
    assert Pre(g, 1) == [1] + PreAll(g, 1, []);
    assert PreAll(g, 0, [1]) == Pre(g, 1) + PreAll(g, 0, []);
    assert Pre(g, 0) == [0, 1] == Run(0, 2);
    assert Pre(f, 0) == [0] + PreAll(f, 0, []);
    assert |Pre(f, 0)| == 1;
  }

  /** Nor does it help that every node is listed: children in the wrong order pass too. */
  lemma WrongOrderPassesCheck()
    ensures exists f: Forest :: Tidy(f) && 0 < |f.kids| && ParentPrecedes(f.par)
              && (forall i :: 0 < i < |f.kids| ==> Attached(f, i)) && !IsContiguous(f)
  {
    var h := Forest([None, Some(0), Some(0)], [[2, 1], [], []], [0, 1, 1], 1);
    assert Kin(h, 0, h.kids[0]) && Kin(h, 1, h.kids[1]) && Kin(h, 2, h.kids[2]);
    assert Tidy(h);
    assert Pre(h, 2) == [2] + PreAll(h, 2, []);
    assert PreAll(h, 0, [2, 1]) == Pre(h, 2) + PreAll(h, 0, [1]);
    assert Pre(h, 0)[1] == 2;
    assert Run(0, 3)[1] == 1;
    assert h.kids[0][0] == 2 && h.kids[0][1] == 1;
    assert Attached(h, 1) && Attached(h, 2);
  }

  // ---- contiguity, checked link by link ----

  /** Node `c` follows directly on its parent (if first) or on the subtree of its previous sibling. */
  ghost predicate FollowsOn(f: Forest, c: nat)
    requires Tidy(f)
  {
    Attached(f, c) &&
    var ks := f.kids[f.par[c].value];
    var k := IndexOf(ks, c);
    if k == 0 then c == f.par[c].value + 1
    else ks[k - 1] < |f.kids| && c == End(f, ks[k - 1])
  }

  /** Exactly when a blob is contiguous: every node but the root follows on from its left. */
  lemma ContiguousIff(f: Forest)
    requires Tidy(f) && 0 < |f.kids| && f.par[0] == None
    ensures IsContiguous(f) <==> forall c :: 1 <= c < |f.kids| ==> FollowsOn(f, c)
  {
    if IsContiguous(f) {
      forall c | 1 <= c < |f.kids| ensures FollowsOn(f, c) {
        NonRootHangs(f, c);
        var p := f.par[c].value;
        var k := IndexOf(f.kids[p], c);
        var before, after := AroundChild(f, p, k);
        SubtreeIsRun(f, p);
        assert Pre(f, p)[1 + |before|] == Pre(f, c)[0] == c;
        if k > 0 {
          ChildEnd(f, p, k - 1);
          assert ChildOk(f, p, f.kids[p][k - 1]);
        }
      }
    }
    if forall c :: 1 <= c < |f.kids| ==> FollowsOn(f, c) {
      FollowingIsRun(f, 0);
      forall c | 0 <= c < |f.kids| ensures c in Pre(f, 0) { ClimbToRoot(f, c); }
      var s := Pre(f, 0);
      assert |s| <= |f.kids| by {
        if |s| > |f.kids| { assert s[|f.kids|] in s; InPreUp(f, 0, s[|f.kids|]); }
      }
      assert |s| >= |f.kids| by {
        var k := IndexOf(s, |f.kids| - 1);
      }
    }
  }

  lemma {:induction false} FollowingIsRun(f: Forest, i: nat)
    requires Tidy(f) && i < |f.kids| && forall c :: 1 <= c < |f.kids| ==> FollowsOn(f, c)
    requires f.par[0] == None
    ensures Pre(f, i) == Run(i, |Pre(f, i)|)
    decreases f.top - f.rank[i], |f.kids[i]| + 1
  {
    FollowingListIsRun(f, i, |f.kids[i]|);
    assert f.kids[i][..|f.kids[i]|] == f.kids[i];
  }

  lemma {:induction false} FollowingListIsRun(f: Forest, p: nat, k: nat)
    requires Tidy(f) && p < |f.kids| && k <= |f.kids[p]| && forall c :: 1 <= c < |f.kids| ==> FollowsOn(f, c)
    requires f.par[0] == None
    ensures Kin(f, p, f.kids[p][..k]) && PreAll(f, p, f.kids[p][..k]) == Run(p + 1, |PreAll(f, p, f.kids[p][..k])|)
    ensures k > 0 ==>
            ChildOk(f, p, f.kids[p][k - 1]) && End(f, f.kids[p][k - 1]) == p + 1 + |PreAll(f, p, f.kids[p][..k])|
    decreases f.top - f.rank[p], k
  {
    var ks := f.kids[p];
    assert Kin(f, p, ks) && NoDup(ks);
    if k > 0 {
      var c := ks[k - 1];
      assert ChildOk(f, p, c);
      FollowingListIsRun(f, p, k - 1);
      FollowingIsRun(f, c);
      assert ks[..k] == ks[..k - 1] + [c];
      PreAllOne(f, p, c);
      PreAllAppend(f, p, ks[..k - 1], [c]);
      assert FollowsOn(f, c) && IndexOf(ks, c) == k - 1;
    }
  }

  lemma {:induction false} ClimbToRoot(f: Forest, c: nat)
    requires Tidy(f) && c < |f.kids| && forall n :: 1 <= n < |f.kids| ==> FollowsOn(f, n)
    ensures c in Pre(f, 0)
    decreases f.rank[c]
  {
    if c == 0 {
      assert Pre(f, 0)[0] == 0;
    } else {
      assert FollowsOn(f, c);
      var p := f.par[c].value;
      assert ChildOk(f, p, f.kids[p][IndexOf(f.kids[p], c)]);
      ClimbToRoot(f, p);
      InPreDown(f, 0, p, c);
    }
  }
}
