/**
 The five ways an edit changes the abstract forest, what each keeps, and what each does to the
 document read in order.
 */
module ForestEdits {
  import opened Wrappers
  import opened Forest

  ghost function IndexOf(s: Ids, x: nat): (k: nat)
    requires x in s
    ensures k < |s| && s[k] == x
  {
    var k :| 0 <= k < |s| && s[k] == x;
    k
  }

  function Max(a: nat, b: nat): nat {
    if a < b then b else a
  }

  predicate Even(f: Forest) {
    |f.par| == |f.kids| == |f.rank|
  }

  // ---- a new leaf ----

  /** A fresh node becomes child number `k` of `p`. */
  function AddLeaf(f: Forest, p: nat, k: nat): Forest
    requires Even(f) && p < |f.kids| && k <= |f.kids[p]|
  {
    var n := |f.kids|;
    Forest(f.par + [Some(p)], (f.kids + [[]])[p := Insert(f.kids[p], k, n)],
           f.rank + [f.rank[p] + 1], Max(f.top, f.rank[p] + 1))
  }

  lemma AddLeafTidy(f: Forest, p: nat, k: nat)
    requires Tidy(f) && p < |f.kids| && k <= |f.kids[p]|
    ensures Tidy(AddLeaf(f, p, k))
  {
    var g, n := AddLeaf(f, p, k), |f.kids|;
    forall q, j | 0 <= q < |g.kids| && 0 <= j < |g.kids[q]| ensures ChildOk(g, q, g.kids[q][j]) {
      if q == p {
        if j < k { assert ChildOk(f, p, f.kids[p][j]); }
        if j > k { assert ChildOk(f, p, f.kids[p][j - 1]); }
      } else if q < n {
        assert ChildOk(f, q, f.kids[q][j]);
      }
    }
    forall q | 0 <= q < |g.kids| ensures NoDup(g.kids[q]) {
      if q == p {
        forall i, j | 0 <= i < j < |g.kids[p]| ensures g.kids[p][i] != g.kids[p][j] {
          assert i != k && j != k ==> f.kids[p][if i < k then i else i - 1] != f.kids[p][if j < k then j else j - 1];
          assert i != k ==> ChildOk(f, p, f.kids[p][if i < k then i else i - 1]);
          assert j != k ==> ChildOk(f, p, f.kids[p][if j < k then j else j - 1]);
        }
      } else if q < n {
        assert NoDup(f.kids[q]);
      }
    }
  }

  /** The new leaf is read right after `p`'s first `k` subtrees; nothing else moves. */
  lemma AddLeafDocument(f: Forest, p: nat, k: nat, r: nat) returns (a0: Ids, a: Ids, b: Ids)
    requires Tidy(f) && p < |f.kids| && k <= |f.kids[p]| && r < |f.kids| && p in Pre(f, r)
    ensures Tidy(AddLeaf(f, p, k)) && Kin(f, p, f.kids[p][..k]) && Kin(f, p, f.kids[p][k..])
    ensures PreAll(f, p, f.kids[p][k..]) <= b
    ensures Pre(f, r) == a + b && Pre(AddLeaf(f, p, k), r) == a + [|f.kids|] + b
    ensures a == a0 + [p] + PreAll(f, p, f.kids[p][..k])
  {
    AddLeafTidy(f, p, k);
    var g, n, ks := AddLeaf(f, p, k), |f.kids|, f.kids[p];
    assert SameOutside(f, g, r, p) by {
      forall m | m in Pre(f, r) ensures m < n { InPreUp(f, r, m); }
      assert p in Pre(f, p);
    }
    AddLeafLists(f, p, k);
    a0, a, b := EditList(f, g, r, p, ks[..k], [], [n], ks[k..]);
  }

  /** The lists on either side of the new leaf read the same in both forests. */
  lemma AddLeafLists(f: Forest, p: nat, k: nat)
    requires Tidy(f) && p < |f.kids| && k <= |f.kids[p]| && Tidy(AddLeaf(f, p, k))
    ensures var g, n, left, right := AddLeaf(f, p, k), |f.kids|, f.kids[p][..k], f.kids[p][k..];
            && f.kids[p] == left + [] + right && g.kids[p] == left + [n] + right
            && Kin(f, p, left) && Kin(f, p, []) && Kin(f, p, right)
            && Kin(g, p, left) && Kin(g, p, [n]) && Kin(g, p, right)
            && PreAll(g, p, left) == PreAll(f, p, left) && PreAll(g, p, right) == PreAll(f, p, right)
            && PreAll(g, p, [n]) == [n]
  {
    var g, n, ks := AddLeaf(f, p, k), |f.kids|, f.kids[p];
    var left, right := ks[..k], ks[k..];
    assert ks == left + [] + right && g.kids[p] == left + [n] + right;
    KinParts(f, p, left, [], right);
    KinParts(g, p, left, [n], right);
    ListUntouched(f, g, p, left);
    ListUntouched(f, g, p, right);
    PreAllOne(g, p, n);
    assert Pre(g, n) == [n] + PreAll(g, n, []);
  }

  /** Children of `p` kept in place read the same when only `p`'s own list was edited. */
  lemma ListUntouched(f: Forest, g: Forest, p: nat, cs: Ids)
    requires Tidy(f) && Tidy(g) && p < |f.kids| && p < |g.kids|
    requires Kin(f, p, cs) && Kin(g, p, cs)
    requires forall n :: 0 <= n < |f.kids| && n != p && f.rank[p] < f.rank[n] ==> n < |g.kids| && g.kids[n] == f.kids[n]
    ensures PreAll(g, p, cs) == PreAll(f, p, cs)
  {
    forall n | n in PreAll(f, p, cs) ensures n < |f.kids| && n != p && f.rank[p] < f.rank[n] {
      InPreAll(f, p, cs, n);
      var k :| 0 <= k < |cs| && n in Pre(f, cs[k]);
      InPreUp(f, cs[k], n);
    }
    PreAllAgree(f, g, p, cs);
  }

  // ---- cutting a subtree loose ----

  /** `c` leaves its parent's list and forgets its parent; its own subtree stays intact. */
  ghost function Detach(f: Forest, c: nat): Forest
    requires Even(f) && Attached(f, c)
  {
    var p := f.par[c].value;
    f.(par := f.par[c := None], kids := f.kids[p := Cut(f.kids[p], IndexOf(f.kids[p], c))])
  }

  lemma DetachTidy(f: Forest, c: nat)
    requires Tidy(f) && Attached(f, c)
    ensures Tidy(Detach(f, c)) && forall q, j :: 0 <= q < |f.kids| && 0 <= j < |Detach(f, c).kids[q]| ==>
            Detach(f, c).kids[q][j] != c
  {
    var g, p := Detach(f, c), f.par[c].value;
    var k := IndexOf(f.kids[p], c);
    forall q, j | 0 <= q < |g.kids| && 0 <= j < |g.kids[q]| ensures ChildOk(g, q, g.kids[q][j]) && g.kids[q][j] != c {
      var j' := if q == p && j >= k then j + 1 else j;
      assert g.kids[q][j] == f.kids[q][j'];
      assert ChildOk(f, q, f.kids[q][j']);
    }
    forall q | 0 <= q < |g.kids| ensures NoDup(g.kids[q]) {
      assert NoDup(f.kids[q]);
    }
  }

  /** The tree at `c` is unaffected by the cut, and the document loses exactly that stretch. */
  lemma DetachDocument(f: Forest, c: nat, r: nat) returns (a: Ids, b: Ids)
    requires Tidy(f) && Attached(f, c) && r < |f.kids| && f.par[c].value in Pre(f, r)
    ensures Tidy(Detach(f, c)) && Pre(Detach(f, c), c) == Pre(f, c)
    ensures Pre(f, r) == a + Pre(f, c) + b && Pre(Detach(f, c), r) == a + b
  {
    DetachTidy(f, c);
    DetachKeepsTree(f, c);
    var g, p := Detach(f, c), f.par[c].value;
    var k, ks := IndexOf(f.kids[p], c), f.kids[p];
    assert SameOutside(f, g, r, p) by {
      forall m | m in Pre(f, r) ensures m < |f.kids| { InPreUp(f, r, m); }
      assert p in Pre(f, p);
    }
    var left, right := ks[..k], ks[k + 1..];
    assert ks == left + [c] + right && g.kids[p] == left + [] + right;
    KinParts(f, p, left, [c], right);
    KinParts(g, p, left, [], right);
    ListUntouched(f, g, p, left);
    ListUntouched(f, g, p, right);
    var a0;
    a0, a, b := EditList(f, g, r, p, left, [c], [], right);
    PreAllOne(f, p, c);
  }

  lemma DetachKeepsTree(f: Forest, c: nat)
    requires Tidy(f) && Attached(f, c) && Tidy(Detach(f, c))
    ensures Pre(Detach(f, c), c) == Pre(f, c)
  {
    var p := f.par[c].value;
    assert ChildOk(f, p, f.kids[p][IndexOf(f.kids[p], c)]);
    forall n | n in Pre(f, c) ensures n != p && n < |f.kids| {
      InPreUp(f, c, n);
    }
    PreAgree(f, Detach(f, c), c);
  }

  // ---- unwrapping ----

  /** `c`'s children take its place in its parent's list; `c` itself is left empty and loose. */
  ghost function Splice(f: Forest, c: nat): Forest
    requires Even(f) && Attached(f, c)
  {
    var p := f.par[c].value;
    var k, ks := IndexOf(f.kids[p], c), f.kids[p];
    f.(par := seq(|f.par|, i requires 0 <= i < |f.par| =>
                    if i == c then None else if i in f.kids[c] then Some(p) else f.par[i]),
       kids := f.kids[c := []][p := ks[..k] + f.kids[c] + ks[k + 1..]])
  }

  lemma SpliceTidy(f: Forest, c: nat)
    requires Tidy(f) && Attached(f, c)
    ensures Tidy(Splice(f, c))
  {
    var g, p := Splice(f, c), f.par[c].value;
    var k, ks, cs := IndexOf(f.kids[p], c), f.kids[p], f.kids[c];
    assert ChildOk(f, p, ks[k]);
    forall i | 0 <= i < |cs| ensures cs[i] != c { assert ChildOk(f, c, cs[i]); }
    forall q, j | 0 <= q < |g.kids| && 0 <= j < |g.kids[q]| ensures ChildOk(g, q, g.kids[q][j]) {
      if q == p {
        if k <= j < k + |cs| {
          assert ChildOk(f, c, cs[j - k]);
        } else {
          var j' := if j < k then j else j - |cs| + 1;
          assert g.kids[p][j] == ks[j'];
          assert ChildOk(f, p, ks[j']) && NoDup(ks);
        }
      } else {
        assert q != c && ChildOk(f, q, f.kids[q][j]);
        assert f.kids[q][j] != c;
        assert forall i :: 0 <= i < |cs| ==> ChildOk(f, c, cs[i]);
      }
    }
    forall q | 0 <= q < |g.kids| ensures NoDup(g.kids[q]) {
      assert NoDup(f.kids[q]);
      if q == p { SpliceNoDup(f, p, k, c); }
    }
  }

  lemma SpliceNoDup(f: Forest, p: nat, k: nat, c: nat)
    requires Tidy(f) && HangsAt(f, c, p, k)
    ensures NoDup(f.kids[p][..k] + f.kids[c] + f.kids[p][k + 1..])
  {
    var ks, cs := f.kids[p], f.kids[c];
    assert ChildOk(f, p, ks[k]);
    assert NoDup(ks) && NoDup(cs);
    forall n | n in cs ensures n !in ks {
      assert ChildOk(f, c, cs[IndexOf(cs, n)]);
      assert forall i :: 0 <= i < |ks| ==> ChildOk(f, p, ks[i]);
    }
    NoDupAppend(ks[..k], cs);
    NoDupAppend(ks[..k] + cs, ks[k + 1..]);
  }

  /** Unwrapping deletes exactly one entry from the document: `c` itself. */
  lemma SpliceDocument(f: Forest, c: nat, r: nat) returns (a: Ids, b: Ids)
    requires Tidy(f) && Attached(f, c) && r < |f.kids| && f.par[c].value in Pre(f, r)
    ensures Tidy(Splice(f, c))
    ensures Pre(f, r) == a + [c] + b && Pre(Splice(f, c), r) == a + b
  {
    SpliceTidy(f, c);
    var g, p := Splice(f, c), f.par[c].value;
    var cs := f.kids[c];
    SpliceOutside(f, c, r);
    var left, right := SpliceLists(f, c, p);
    var a0, b1;
    a0, a, b1 := EditList(f, g, r, p, left, [c], cs, right);
    var inner := PreAll(f, c, cs);
    b := inner + b1;
    Regroup3(a, [c], inner, b1);
  }

  /** The lists on either side of `c`, and its children, read the same in both forests. */
  lemma SpliceLists(f: Forest, c: nat, p: nat) returns (left: Ids, right: Ids)
    requires Tidy(f) && Attached(f, c) && f.par[c] == Some(p) && p < |f.kids| && Tidy(Splice(f, c))
    ensures var g, cs := Splice(f, c), f.kids[c];
            && f.kids[p] == left + [c] + right && g.kids[p] == left + cs + right
            && Kin(f, p, left) && Kin(f, p, [c]) && Kin(f, p, right) && Kin(f, c, cs)
            && Kin(g, p, left) && Kin(g, p, cs) && Kin(g, p, right)
            && PreAll(g, p, left) == PreAll(f, p, left) && PreAll(g, p, right) == PreAll(f, p, right)
            && PreAll(g, p, cs) == PreAll(f, c, cs) && PreAll(f, p, [c]) == [c] + PreAll(f, c, cs)
  {
    var g, ks, cs := Splice(f, c), f.kids[p], f.kids[c];
    var k := IndexOf(ks, c);
    left, right := ks[..k], ks[k + 1..];
    assert Kin(f, p, ks) && NoDup(ks) && Kin(f, c, cs) && ChildOk(f, p, ks[k]);
    KinParts(f, p, left, [c], right);
    KinParts(g, p, left, cs, right);
    SpliceSiblings(f, c, p, left);
    SpliceSiblings(f, c, p, right);
    SpliceChildren(f, c, p, cs);
    PreAllOne(f, p, c);
  }

  lemma Regroup3(a: Ids, c: Ids, m: Ids, b: Ids)
    ensures a + (c + m) + b == a + c + (m + b) == a + c + m + b
  {
  }

  lemma SpliceOutside(f: Forest, c: nat, r: nat)
    requires Tidy(f) && Attached(f, c) && Tidy(Splice(f, c)) && r < |f.kids|
    ensures SameOutside(f, Splice(f, c), r, f.par[c].value)
  {
    var p := f.par[c].value;
    assert p in Pre(f, p);
    InPreDown(f, p, p, c);
    forall m | m in Pre(f, r) ensures m < |f.kids| { InPreUp(f, r, m); }
  }

  lemma SpliceSiblings(f: Forest, c: nat, p: nat, cs: Ids)
    requires Tidy(f) && Attached(f, c) && f.par[c] == Some(p) && Tidy(Splice(f, c))
    requires Kin(f, p, cs) && Kin(Splice(f, c), p, cs) && c !in cs
    ensures PreAll(Splice(f, c), p, cs) == PreAll(f, p, cs)
  {
    assert ChildOk(f, p, f.kids[p][IndexOf(f.kids[p], c)]);
    forall n | n in PreAll(f, p, cs) ensures n < |f.kids| && n != p && n != c {
      InPreAll(f, p, cs, n);
      var k :| 0 <= k < |cs| && n in Pre(f, cs[k]);
      InPreUp(f, cs[k], n);
      assert cs[k] != c;
      if n == c { assert c in Pre(f, c); SiblingsApart(f, p, cs[k], c, c); }
    }
    PreAllAgree(f, Splice(f, c), p, cs);
  }

  /** The spliced children read the same under their grandparent as they did under `c`. */
  lemma {:induction false} SpliceChildren(f: Forest, c: nat, p: nat, cs: Ids)
    requires Tidy(f) && Attached(f, c) && f.par[c] == Some(p) && Tidy(Splice(f, c))
    requires Kin(f, c, cs) && Kin(Splice(f, c), p, cs)
    ensures PreAll(Splice(f, c), p, cs) == PreAll(f, c, cs)
  {
    if cs != [] {
      var g := Splice(f, c);
      assert ChildOk(f, c, cs[0]) && ChildOk(g, p, cs[0]);
      assert ChildOk(f, p, f.kids[p][IndexOf(f.kids[p], c)]);
      forall n | n in Pre(f, cs[0]) ensures n < |f.kids| && n != p && n != c {
        InPreUp(f, cs[0], n);
      }
      PreAgree(f, g, cs[0]);
      SpliceChildren(f, c, p, cs[1..]);
    }
  }

  // ---- dropping all children ----

  /** `c` drops its list; the former children keep their parent pointer but are listed nowhere. */
  function ClearKids(f: Forest, c: nat): Forest
    requires c < |f.kids|
  {
    f.(kids := f.kids[c := []])
  }

  lemma ClearKidsDocument(f: Forest, c: nat, r: nat) returns (a: Ids, b: Ids)
    requires Tidy(f) && c < |f.kids| && r < |f.kids| && c in Pre(f, r)
    ensures Tidy(ClearKids(f, c))
    ensures Pre(f, r) == a + [c] + PreAll(f, c, f.kids[c]) + b && Pre(ClearKids(f, c), r) == a + [c] + b
  {
    var g := ClearKids(f, c);
    forall q, j | 0 <= q < |g.kids| && 0 <= j < |g.kids[q]| ensures ChildOk(g, q, g.kids[q][j]) {
      assert ChildOk(f, q, f.kids[q][j]);
    }
    assert SameOutside(f, g, r, c) by {
      forall m | m in Pre(f, r) ensures m < |f.kids| { InPreUp(f, r, m); }
      assert c in Pre(f, c);
    }
    a, b := EditInside(f, g, r, c);
    Regroup3(a, [c], PreAll(f, c, f.kids[c]), b);
  }

  // ---- replacement ----

  /** The ranks inside the tree at `x` go up by `d`. */
  ghost function Raise(f: Forest, x: nat, d: nat): Forest
    requires Tidy(f) && x < |f.kids|
  {
    f.(rank := seq(|f.rank|, i requires 0 <= i < |f.rank| => if i in Pre(f, x) then f.rank[i] + d else f.rank[i]),
       top := f.top + d)
  }

  /** `x` (already loose) takes `c`'s place; `c` is left loose. */
  ghost function Swap(f: Forest, c: nat, x: nat): Forest
    requires Even(f) && Attached(f, c) && x < |f.par|
  {
    var p := f.par[c].value;
    var ks: Ids := f.kids[p][IndexOf(f.kids[p], c) := x];
    f.(par := f.par[c := None][x := Some(p)], kids := f.kids[p := ks])
  }

  /** `x` leaves its place and takes `c`'s; `x` must not be `c` or one of its ancestors. */
  ghost function Replace(f: Forest, c: nat, x: nat): Forest
    requires Tidy(f) && Attached(f, c) && Attached(f, x) && c !in Pre(f, x)
  {
    DetachTidy(f, x);
    DetachLeavesAttached(f, c, x);
    var g := Detach(f, x);
    Swap(Raise(g, x, g.rank[g.par[c].value] + 1), c, x)
  }

  lemma DetachLeavesAttached(f: Forest, c: nat, x: nat)
    requires Tidy(f) && Attached(f, c) && Attached(f, x) && c != x
    ensures Attached(Detach(f, x), c) && Detach(f, x).par[c] == f.par[c]
  {
    var p, q := f.par[c].value, f.par[x].value;
    if p == q {
      var k, j := IndexOf(f.kids[p], x), IndexOf(f.kids[p], c);
      assert Detach(f, x).kids[p][if j < k then j else j - 1] == c;
    }
  }

  lemma RaiseTidy(f: Forest, x: nat, d: nat)
    requires Tidy(f) && x < |f.kids|
    requires forall q, j :: 0 <= q < |f.kids| && 0 <= j < |f.kids[q]| ==> f.kids[q][j] != x
    ensures Tidy(Raise(f, x, d))
  {
    var g := Raise(f, x, d);
    forall q, j | 0 <= q < |g.kids| && 0 <= j < |g.kids[q]| ensures ChildOk(g, q, g.kids[q][j]) {
      var n := f.kids[q][j];
      assert ChildOk(f, q, n);
      if n in Pre(f, x) { InPreUp(f, x, n); }
      if q in Pre(f, x) { InPreDown(f, x, q, n); }
    }
  }

  lemma SwapTidy(h: Forest, c: nat, x: nat)
    requires Tidy(h) && Attached(h, c) && x < |h.kids| && h.rank[h.par[c].value] < h.rank[x]
    requires forall q, j :: 0 <= q < |h.kids| && 0 <= j < |h.kids[q]| ==> h.kids[q][j] != x
    ensures Tidy(Swap(h, c, x))
  {
    var s, p := Swap(h, c, x), h.par[c].value;
    var k := IndexOf(h.kids[p], c);
    forall q, j | 0 <= q < |s.kids| && 0 <= j < |s.kids[q]| ensures ChildOk(s, q, s.kids[q][j]) {
      assert Kin(h, q, h.kids[q]) && NoDup(h.kids[q]);
      if q != p || j != k {
        assert s.kids[q][j] == h.kids[q][j];
        assert ChildOk(h, q, h.kids[q][j]);
      }
    }
    forall q | 0 <= q < |s.kids| ensures NoDup(s.kids[q]) {
      assert NoDup(h.kids[q]);
    }
  }

  lemma ReplaceTidy(f: Forest, c: nat, x: nat)
    requires Tidy(f) && Attached(f, c) && Attached(f, x) && c !in Pre(f, x)
    ensures Tidy(Replace(f, c, x))
  {
    DetachTidy(f, x);
    DetachLeavesAttached(f, c, x);
    DetachKeepsTree(f, x);
    ParentOutside(f, c, x);
    var g := Detach(f, x);
    RaisedSwap(g, c, x);
    assert Replace(f, c, x) == Swap(Raise(g, x, g.rank[g.par[c].value] + 1), c, x);
  }

  /** With the tree at the loose `x` raised above `c`'s parent, `x` can take `c`'s place. */
  lemma RaisedSwap(g: Forest, c: nat, x: nat)
    requires Tidy(g) && Attached(g, c) && x < |g.kids| && g.par[c].value < |g.kids| && g.par[c].value !in Pre(g, x)
    requires forall q, j :: 0 <= q < |g.kids| && 0 <= j < |g.kids[q]| ==> g.kids[q][j] != x
    ensures Tidy(Swap(Raise(g, x, g.rank[g.par[c].value] + 1), c, x))
  {
    var p := g.par[c].value;
    RaiseTidy(g, x, g.rank[p] + 1);
    assert x in Pre(g, x);
    SwapTidy(Raise(g, x, g.rank[p] + 1), c, x);
  }

  lemma ParentOutside(f: Forest, c: nat, x: nat)
    requires Tidy(f) && Attached(f, c) && x < |f.kids| && c !in Pre(f, x)
    ensures f.par[c].value !in Pre(f, x)
  {
    if f.par[c].value in Pre(f, x) { InPreDown(f, x, f.par[c].value, c); }
  }

  /** Exchanging one entry of `p`'s list exchanges one stretch of the document. */
  lemma ExchangeDocument(g: Forest, s: Forest, p: nat, k: nat, c: nat, x: nat, r: nat) returns (a: Ids, b: Ids)
    requires Tidy(g) && Tidy(s) && |s.kids| == |g.kids| && p < |g.kids| && r < |g.kids| && x < |g.kids|
             && p in Pre(g, r)
    requires k < |g.kids[p]| && g.kids[p][k] == c && s.kids == (var ks: Ids := g.kids[p][k := x]; g.kids[p := ks])
    ensures c < |g.kids| && Pre(g, r) == a + Pre(g, c) + b && Pre(s, r) == a + Pre(s, x) + b
  {
    var ks := g.kids[p];
    assert SameOutside(g, s, r, p) by {
      forall m | m in Pre(g, r) ensures m < |g.kids| { InPreUp(g, r, m); }
      assert p in Pre(g, p);
    }
    var left, right := ks[..k], ks[k + 1..];
    assert ks == left + [c] + right && s.kids[p] == left + [x] + right;
    KinParts(g, p, left, [c], right);
    KinParts(s, p, left, [x], right);
    ListUntouched(g, s, p, left);
    ListUntouched(g, s, p, right);
    var a0;
    a0, a, b := EditList(g, s, r, p, left, [c], [x], right);
    assert ChildOk(g, p, [c][0]) && ChildOk(s, p, [x][0]);
    PreAllOne(g, p, c);
    PreAllOne(s, p, x);
  }

  /**
   A replacement is a cut followed by an exchange: the document without `x`'s tree, in which the
   stretch still occupied by `c`'s tree is then read as `x`'s tree.
   */
  lemma ReplaceDocument(f: Forest, c: nat, x: nat, r: nat) returns (a: Ids, b: Ids)
    requires Tidy(f) && Attached(f, c) && Attached(f, x) && c !in Pre(f, x)
    requires r < |f.kids| && f.par[c].value in Pre(f, r) && f.par[x].value in Pre(f, r)
    ensures Tidy(Detach(f, x)) && Tidy(Replace(f, c, x))
    ensures Pre(Detach(f, x), r) == a + Pre(Detach(f, x), c) + b
    ensures Pre(Replace(f, c, x), r) == a + Pre(f, x) + b
  {
    DetachTidy(f, x);
    ReplaceTidy(f, c, x);
    DetachLeavesAttached(f, c, x);
    ParentOutside(f, c, x);
    var g, s, p := Detach(f, x), Replace(f, c, x), f.par[c].value;
    var a1, b1 := DetachDocument(f, x, r);
    assert p in Pre(g, r);
    a, b := ExchangeDocument(g, s, p, IndexOf(g.kids[p], c), c, x, r);
    assert forall n :: n in Pre(g, x) ==> n != p;
    forall n | n in Pre(g, x) ensures n < |g.kids| { InPreUp(g, x, n); }
    PreAgree(g, s, x);
  }
}
