/**
 The abstract document: an ordered forest over node numbers.

 `kids[p]` is the ordered child list of node `p`; `par[c]` is the parent pointer of `c`. A node
 that an edit cut loose keeps its own subtree, so several trees can coexist; the document proper
 is the tree at node 0. `rank` and `top` are a witness that no node is its own ancestor.
 */
module Forest {
  import opened Wrappers

  type Ids = seq<nat>

  datatype Forest = Forest(par: seq<Option<nat>>, kids: seq<Ids>, rank: seq<nat>, top: nat)

  // ---- sequences ----

  predicate NoDup(s: Ids) {
    forall i, j :: 0 <= i < j < |s| ==> s[i] != s[j]
  }

  function Insert(s: Ids, k: nat, x: nat): Ids
    requires k <= |s|
  {
    s[..k] + [x] + s[k..]
  }

  function Cut(s: Ids, k: nat): Ids
    requires k < |s|
  {
    s[..k] + s[k + 1..]
  }

  // ---- well-formedness ----

  /** Every listed child is a node, knows its parent, is listed once, and ranks above it. */
  ghost predicate Tidy(f: Forest) {
    && |f.par| == |f.kids| == |f.rank|
    && (forall i :: 0 <= i < |f.rank| ==> f.rank[i] <= f.top)
    && (forall p :: 0 <= p < |f.kids| ==> NoDup(f.kids[p]))
    && (forall p :: 0 <= p < |f.kids| ==> Kin(f, p, f.kids[p]))
  }

  /** Every member of `cs` is a proper child of `p`. */
  ghost predicate Kin(f: Forest, p: nat, cs: Ids)
    requires |f.par| == |f.kids| == |f.rank| && p < |f.kids|
  {
    forall k :: 0 <= k < |cs| ==> ChildOk(f, p, cs[k])
  }

  predicate ChildOk(f: Forest, p: nat, c: nat)
    requires |f.par| == |f.kids| == |f.rank| && p < |f.kids|
  {
    c < |f.kids| && f.par[c] == Some(p) && f.rank[p] < f.rank[c]
  }

  /** `c` hangs below a parent that lists it, at position `k`. */
  predicate HangsAt(f: Forest, c: nat, p: nat, k: nat) {
    c < |f.par| && f.par[c] == Some(p) && p < |f.kids| && k < |f.kids[p]| && f.kids[p][k] == c
  }

  ghost predicate Attached(f: Forest, c: nat) {
    c < |f.par| && f.par[c].Some? && f.par[c].value < |f.kids| && c in f.kids[f.par[c].value]
  }

  // ---- document order ----

  /** The nodes of the tree at `i` in document (pre-) order. */
  ghost function Pre(f: Forest, i: nat): Ids
    requires Tidy(f) && i < |f.kids|
    decreases f.top - f.rank[i], |f.kids[i]| + 1
  {
    [i] + PreAll(f, i, f.kids[i])
  }

  /** The trees at `cs`, children of `p`, one after the other. */
  ghost function PreAll(f: Forest, p: nat, cs: Ids): Ids
    requires Tidy(f) && p < |f.kids| && Kin(f, p, cs)
    decreases f.top - f.rank[p], |cs|
  {
    if cs == [] then []
    else assert ChildOk(f, p, cs[0]); Pre(f, cs[0]) + PreAll(f, p, cs[1..])
  }

  lemma {:induction false} PreAllAppend(f: Forest, p: nat, a: Ids, b: Ids)
    requires Tidy(f) && p < |f.kids|
    requires Kin(f, p, a)
    requires Kin(f, p, b)
    ensures Kin(f, p, a + b)
    ensures PreAll(f, p, a + b) == PreAll(f, p, a) + PreAll(f, p, b)
  {
    if a == [] {
      assert a + b == b;
    } else {
      assert (a + b)[1..] == a[1..] + b;
      assert ChildOk(f, p, a[0]);
      PreAllAppend(f, p, a[1..], b);
    }
  }

  /** `n` lies below some member of `cs` exactly when it is listed in `PreAll`. */
  lemma {:induction false} InPreAll(f: Forest, p: nat, cs: Ids, n: nat)
    requires Tidy(f) && p < |f.kids| && Kin(f, p, cs)
    ensures n in PreAll(f, p, cs) <==> exists k :: 0 <= k < |cs| && n in Pre(f, cs[k])
  {
    if cs != [] {
      assert ChildOk(f, p, cs[0]);
      InPreAll(f, p, cs[1..], n);
      if k :| 0 <= k < |cs| && n in Pre(f, cs[k]) {
        assert k > 0 ==> cs[k] == cs[1..][k - 1];
      }
      if k :| 0 <= k < |cs[1..]| && n in Pre(f, cs[1..][k]) {
        assert cs[k + 1] == cs[1..][k];
      }
    }
  }

  /** The tree at `i`: every listed node but `i` hangs below a listed node, and ranks above `i`. */
  lemma {:induction false} InPreUp(f: Forest, i: nat, n: nat)
    requires Tidy(f) && i < |f.kids| && n in Pre(f, i)
    ensures n < |f.kids| && f.rank[i] <= f.rank[n]
    ensures n == i || (Attached(f, n) && f.par[n].value in Pre(f, i) && f.rank[i] < f.rank[n])
    decreases f.top - f.rank[i]
  {
    if n != i {
      InPreAll(f, i, f.kids[i], n);
      var k :| 0 <= k < |f.kids[i]| && n in Pre(f, f.kids[i][k]);
      assert ChildOk(f, i, f.kids[i][k]);
      InPreUp(f, f.kids[i][k], n);
      if n != f.kids[i][k] {
        InPreAll(f, i, f.kids[i], f.par[n].value);
      }
    }
  }

  /** The tree at `i` is closed under taking children. */
  lemma {:induction false} InPreDown(f: Forest, i: nat, n: nat, c: nat)
    requires Tidy(f) && i < |f.kids| && n in Pre(f, i) && n < |f.kids| && c in f.kids[n]
    ensures c in Pre(f, i)
    decreases f.top - f.rank[i]
  {
    if n == i {
      var k :| 0 <= k < |f.kids[i]| && f.kids[i][k] == c;
      assert ChildOk(f, i, c);
      InPreAll(f, i, f.kids[i], c);
    } else {
      InPreAll(f, i, f.kids[i], n);
      var k :| 0 <= k < |f.kids[i]| && n in Pre(f, f.kids[i][k]);
      assert ChildOk(f, i, f.kids[i][k]);
      InPreDown(f, f.kids[i][k], n, c);
      InPreAll(f, i, f.kids[i], c);
    }
  }

  /** A tree inside a tree brings all its nodes along. */
  lemma {:induction false} PreTransitive(f: Forest, i: nat, m: nat, n: nat)
    requires Tidy(f) && i < |f.kids| && m in Pre(f, i) && m < |f.kids| && n in Pre(f, m)
    ensures n in Pre(f, i)
    decreases if n < |f.rank| then f.rank[n] else 0
  {
    InPreUp(f, m, n);
    if n != m {
      InPreUp(f, m, n);
      var p := f.par[n].value;
      var k :| 0 <= k < |f.kids[p]| && f.kids[p][k] == n;
      assert ChildOk(f, p, n);
      PreTransitive(f, i, m, p);
      InPreDown(f, i, p, n);
    }
  }

  /** Two trees that share a node are nested. */
  lemma {:induction false} PreNested(f: Forest, i: nat, j: nat, n: nat)
    requires Tidy(f) && i < |f.kids| && j < |f.kids| && n in Pre(f, i) && n in Pre(f, j)
    ensures i in Pre(f, j) || j in Pre(f, i)
    decreases if n < |f.rank| then f.rank[n] else 0
  {
    InPreUp(f, i, n);
    InPreUp(f, j, n);
    if n != i && n != j {
      var p := f.par[n].value;
      var k :| 0 <= k < |f.kids[p]| && f.kids[p][k] == n;
      assert ChildOk(f, p, n);
      PreNested(f, i, j, p);
    }
  }

  /** The trees of two different children of one node share nothing. */
  lemma SiblingsApart(f: Forest, p: nat, i: nat, j: nat, n: nat)
    requires Tidy(f) && p < |f.kids| && ChildOk(f, p, i) && ChildOk(f, p, j) && i != j
    requires n in Pre(f, i)
    ensures n !in Pre(f, j)
  {
    if n in Pre(f, j) {
      PreNested(f, i, j, n);
      var a, b := if i in Pre(f, j) then j else i, if i in Pre(f, j) then i else j;
      InPreUp(f, a, b);
      InPreUp(f, a, p);
    }
  }

  lemma {:induction false} NoDupAppend(a: Ids, b: Ids)
    requires NoDup(a) && NoDup(b) && forall n :: n in a ==> n !in b
    ensures NoDup(a + b)
  {
    forall i, j | 0 <= i < j < |a + b| ensures (a + b)[i] != (a + b)[j] {
      if i < |a| { assert (a + b)[i] in a; }
      if j >= |a| { assert (a + b)[j] in b; }
    }
  }

  /** No node is listed twice in a tree. */
  lemma {:induction false} PreNoDup(f: Forest, i: nat)
    requires Tidy(f) && i < |f.kids|
    ensures NoDup(Pre(f, i))
    decreases f.top - f.rank[i], |f.kids[i]| + 1
  {
    PreAllNoDup(f, i, f.kids[i]);
    forall n | n in PreAll(f, i, f.kids[i]) ensures n != i {
      InPreAll(f, i, f.kids[i], n);
      var k :| 0 <= k < |f.kids[i]| && n in Pre(f, f.kids[i][k]);
      assert ChildOk(f, i, f.kids[i][k]);
      InPreUp(f, f.kids[i][k], n);
    }
    NoDupAppend([i], PreAll(f, i, f.kids[i]));
  }

  lemma {:induction false} PreAllNoDup(f: Forest, p: nat, cs: Ids)
    requires Tidy(f) && p < |f.kids| && NoDup(cs)
    requires Kin(f, p, cs)
    ensures NoDup(PreAll(f, p, cs))
    decreases f.top - f.rank[p], |cs|
  {
    if cs != [] {
      assert ChildOk(f, p, cs[0]);
      PreNoDup(f, cs[0]);
      PreAllNoDup(f, p, cs[1..]);
      forall n | n in Pre(f, cs[0]) ensures n !in PreAll(f, p, cs[1..]) {
        InPreAll(f, p, cs[1..], n);
        forall k | 0 <= k < |cs[1..]| ensures n !in Pre(f, cs[1..][k]) {
          assert cs[1..][k] == cs[k + 1] && cs[0] != cs[k + 1];
          SiblingsApart(f, p, cs[0], cs[k + 1], n);
        }
      }
      NoDupAppend(Pre(f, cs[0]), PreAll(f, p, cs[1..]));
    }
  }

  /** The document order of a tree depends only on the child lists inside it. */
  lemma {:induction false} PreAgree(f: Forest, g: Forest, i: nat)
    requires Tidy(f) && Tidy(g) && i < |f.kids| && i < |g.kids|
    requires forall n :: n in Pre(f, i) ==> n < |g.kids| && n < |f.kids| && g.kids[n] == f.kids[n]
    ensures Pre(g, i) == Pre(f, i)
    decreases f.top - f.rank[i], |f.kids[i]| + 1
  {
    assert i in Pre(f, i);
    assert forall n :: n in PreAll(f, i, f.kids[i]) ==> n in Pre(f, i);
    PreAllAgree(f, g, i, f.kids[i]);
  }

  lemma {:induction false} PreAllAgree(f: Forest, g: Forest, p: nat, cs: Ids)
    requires Tidy(f) && Tidy(g) && p < |f.kids| && p < |g.kids|
    requires Kin(f, p, cs)
    requires Kin(g, p, cs)
    requires forall n :: n in PreAll(f, p, cs) ==> n < |g.kids| && n < |f.kids| && g.kids[n] == f.kids[n]
    ensures PreAll(g, p, cs) == PreAll(f, p, cs)
    decreases f.top - f.rank[p], |cs|
  {
    if cs != [] {
      assert ChildOk(f, p, cs[0]) && ChildOk(g, p, cs[0]);
      assert forall n :: n in Pre(f, cs[0]) || n in PreAll(f, p, cs[1..]) ==> n in PreAll(f, p, cs);
      PreAgree(f, g, cs[0]);
      PreAllAgree(f, g, p, cs[1..]);
    }
  }

  lemma PreAllAround(f: Forest, p: nat, left: Ids, c: nat, right: Ids)
    requires Tidy(f) && p < |f.kids| && ChildOk(f, p, c)
    requires Kin(f, p, left)
    requires Kin(f, p, right)
    ensures Kin(f, p, left + [c] + right)
    ensures PreAll(f, p, left + [c] + right) == PreAll(f, p, left) + Pre(f, c) + PreAll(f, p, right)
  {
    PreAllAppend(f, p, left, [c]);
    PreAllAppend(f, p, left + [c], right);
    assert PreAll(f, p, [c]) == Pre(f, c) + PreAll(f, p, []);
  }

  /** Outside the tree at `m`, everything below `r` has the same child lists in `f` and `g`. */
  ghost predicate SameOutside(f: Forest, g: Forest, r: nat, m: nat)
    requires Tidy(f) && Tidy(g) && r < |f.kids| && m < |f.kids|
  {
    forall n :: n in Pre(f, r) && n !in Pre(f, m) ==> n < |f.kids| && n < |g.kids| && g.kids[n] == f.kids[n]
  }

  /**
   Locality: if two forests differ only inside the tree at `m`, their documents differ only in
   the one contiguous stretch that `m`'s tree occupies.
   */
  lemma {:induction false} EditInside(f: Forest, g: Forest, r: nat, m: nat) returns (a: Ids, b: Ids)
    requires Tidy(f) && Tidy(g) && r < |f.kids| && r < |g.kids| && m < |f.kids| && m < |g.kids|
    requires m in Pre(f, r) && SameOutside(f, g, r, m)
    ensures Pre(f, r) == a + Pre(f, m) + b
    ensures Pre(g, r) == a + Pre(g, m) + b
    decreases f.top - f.rank[r]
  {
    if r == m {
      a, b := [], [];
    } else {
      var left, c, right := PathDown(f, g, r, m);
      var a', b' := EditInside(f, g, c, m);
      SiblingListAgrees(f, g, r, m, c, left);
      SiblingListAgrees(f, g, r, m, c, right);
      PreAllAround(f, r, left, c, right);
      PreAllAround(g, r, left, c, right);
      a := [r] + PreAll(f, r, left) + a';
      b := b' + PreAll(f, r, right);
      Regroup([r], PreAll(f, r, left), a', Pre(f, m), b', PreAll(f, r, right));
      Regroup([r], PreAll(f, r, left), a', Pre(g, m), b', PreAll(f, r, right));
    }
  }

  lemma Regroup(h: Ids, l: Ids, a: Ids, m: Ids, b: Ids, r: Ids)
    ensures h + (l + (a + m + b) + r) == (h + l + a) + m + (b + r)
    ensures h + (l + (a + m + b)) + r == (h + l + a) + m + (b + r)
  {
  }

  /** One step from `r` towards `m`: the position of the child whose tree holds `m`. */
  lemma ChildTowards(f: Forest, r: nat, m: nat) returns (k: nat)
    requires Tidy(f) && r < |f.kids| && m in Pre(f, r) && m != r && m < |f.kids|
    ensures k < |f.kids[r]| && ChildOk(f, r, f.kids[r][k]) && m in Pre(f, f.kids[r][k])
    ensures r !in Pre(f, m)
  {
    InPreUp(f, r, m);
    InPreAll(f, r, f.kids[r], m);
    k :| 0 <= k < |f.kids[r]| && m in Pre(f, f.kids[r][k]);
    assert ChildOk(f, r, f.kids[r][k]);
    if r in Pre(f, m) { InPreUp(f, m, r); }
  }

  /** That child, and the siblings on either side of it. */
  lemma PathDown(f: Forest, g: Forest, r: nat, m: nat) returns (left: Ids, c: nat, right: Ids)
    requires Tidy(f) && Tidy(g) && r < |f.kids| && r < |g.kids| && m < |f.kids|
    requires m in Pre(f, r) && m != r && SameOutside(f, g, r, m)
    ensures f.kids[r] == left + [c] + right == g.kids[r]
    ensures ChildOk(f, r, c) && ChildOk(g, r, c) && m in Pre(f, c) && SameOutside(f, g, c, m)
    ensures Kin(f, r, left) && Kin(g, r, left) && forall k :: 0 <= k < |left| ==> left[k] in f.kids[r] && left[k] != c
    ensures Kin(f, r, right) && Kin(g, r, right) && forall k :: 0 <= k < |right| ==>
            right[k] in f.kids[r] && right[k] != c
  {
    var k := ChildTowards(f, r, m);
    var ks := f.kids[r];
    left, c, right := ks[..k], ks[k], ks[k + 1..];
    assert r in Pre(f, r) && g.kids[r] == ks;
    assert ChildOk(g, r, g.kids[r][k]);
    forall n | n in Pre(f, c) ensures n in Pre(f, r) { InPreAll(f, r, ks, n); }
    assert ks == left + [c] + right;
    KinParts(f, r, left, [c], right);
    KinParts(g, r, left, [c], right);
    SplitApart(ks, left, c, right);
  }

  lemma SplitApart(ks: Ids, left: Ids, c: nat, right: Ids)
    requires NoDup(ks) && ks == left + [c] + right
    ensures forall j :: 0 <= j < |left| ==> left[j] in ks && left[j] != c
    ensures forall j :: 0 <= j < |right| ==> right[j] in ks && right[j] != c
  {
    assert ks[|left|] == c;
    assert forall j :: 0 <= j < |left| ==> left[j] == ks[j];
    assert forall j :: 0 <= j < |right| ==> right[j] == ks[|left| + 1 + j];
  }

  /** The siblings beside the child that holds `m` are the same in both forests. */
  lemma SiblingListAgrees(f: Forest, g: Forest, r: nat, m: nat, c: nat, cs: Ids)
    requires Tidy(f) && Tidy(g) && r < |f.kids| && r < |g.kids| && m < |f.kids|
    requires ChildOk(f, r, c) && m in Pre(f, c)
    requires Kin(f, r, cs) && Kin(g, r, cs) && forall k :: 0 <= k < |cs| ==> cs[k] in f.kids[r] && cs[k] != c
    requires SameOutside(f, g, r, m)
    ensures PreAll(g, r, cs) == PreAll(f, r, cs)
  {
    forall n | n in PreAll(f, r, cs) ensures n in Pre(f, r) && n !in Pre(f, m) {
      InPreAll(f, r, cs, n);
      var k :| 0 <= k < |cs| && n in Pre(f, cs[k]);
      var j :| 0 <= j < |f.kids[r]| && f.kids[r][j] == cs[k];
      InPreAll(f, r, f.kids[r], n);
      if n in Pre(f, m) {
        PreTransitive(f, c, m, n);
        SiblingsApart(f, r, cs[k], c, n);
      }
    }
    PreAllAgree(f, g, r, cs);
  }

  lemma PreAllOne(f: Forest, p: nat, c: nat)
    requires Tidy(f) && p < |f.kids| && ChildOk(f, p, c)
    ensures Kin(f, p, [c]) && PreAll(f, p, [c]) == Pre(f, c)
  {
    assert PreAll(f, p, [c]) == Pre(f, c) + PreAll(f, p, []);
  }

  lemma KinParts(f: Forest, p: nat, left: Ids, mid: Ids, right: Ids)
    requires Tidy(f) && p < |f.kids| && f.kids[p] == left + mid + right
    ensures Kin(f, p, left) && Kin(f, p, mid) && Kin(f, p, right)
  {
    assert Kin(f, p, f.kids[p]);
    assert forall k :: 0 <= k < |left| ==> left[k] == f.kids[p][k];
    assert forall k :: 0 <= k < |mid| ==> mid[k] == f.kids[p][|left| + k];
    assert forall k :: 0 <= k < |right| ==> right[k] == f.kids[p][|left| + |mid| + k];
  }

  /**
   What editing one child list does to the document: if only the stretch `mid` of `p`'s list was
   changed (to `mid'`), only the stretch read from it changes, and it starts right after the
   subtrees of `left`.
   */
  lemma EditList(f: Forest, g: Forest, r: nat, p: nat, left: Ids, mid: Ids, mid': Ids, right: Ids)
      returns (a0: Ids, a: Ids, b: Ids)
    requires Tidy(f) && Tidy(g) && r < |f.kids| && r < |g.kids| && p < |f.kids| && p < |g.kids|
    requires p in Pre(f, r) && SameOutside(f, g, r, p)
    requires f.kids[p] == left + mid + right && g.kids[p] == left + mid' + right
    requires Kin(f, p, left) && Kin(f, p, mid) && Kin(f, p, right)
    requires Kin(g, p, left) && Kin(g, p, mid') && Kin(g, p, right)
    requires PreAll(g, p, left) == PreAll(f, p, left) && PreAll(g, p, right) == PreAll(f, p, right)
    ensures a == a0 + [p] + PreAll(f, p, left) && PreAll(f, p, right) <= b
    ensures Pre(f, r) == a + PreAll(f, p, mid) + b
    ensures Pre(g, r) == a + PreAll(g, p, mid') + b
  {
    var b0;
    a0, b0 := EditInside(f, g, r, p);
    PreAllAppend(f, p, left, mid);
    PreAllAppend(f, p, left + mid, right);
    PreAllAppend(g, p, left, mid');
    PreAllAppend(g, p, left + mid', right);
    a, b := a0 + [p] + PreAll(f, p, left), PreAll(f, p, right) + b0;
    Regroup(a0, [p], PreAll(f, p, left), PreAll(f, p, mid), PreAll(f, p, right), b0);
    Regroup(a0, [p], PreAll(f, p, left), PreAll(g, p, mid'), PreAll(f, p, right), b0);
  }
}
