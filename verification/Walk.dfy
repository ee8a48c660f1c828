/** The tree walk: a stack from the start node to the node last visited, advanced in document order. */
module Walk {
  import opened Wrappers
  import opened Forest
  import opened ForestEdits
  import opened Links
  import opened Nodes

  function Top(stack: Ids): nat
    requires stack != []
  {
    stack[|stack| - 1]
  }

  ghost predicate Hangs(f: Forest, p: nat, c: nat) {
    p < |f.kids| && c in f.kids[p]
  }

  /** Each node on the stack is a child of the one below it. */
  ghost predicate OnPath(f: Forest, stack: Ids) {
    && Tidy(f) && stack != [] && Top(stack) < |f.kids|
    && forall j :: 0 < j < |stack| ==> Hangs(f, stack[j - 1], stack[j])
  }

  lemma {:induction false} OnPathNodes(f: Forest, stack: Ids)
    requires OnPath(f, stack)
    ensures |stack| > 1 ==>
            ChildOk(f, stack[|stack| - 2], Top(stack)) && Attached(f, Top(stack)) && OnPath(f, stack[..|stack| - 1])
  {
    if |stack| > 1 {
      var p := stack[|stack| - 2];
      assert Hangs(f, p, Top(stack));
      assert ChildOk(f, p, f.kids[p][IndexOf(f.kids[p], Top(stack))]);
    }
  }

  /** The siblings after `c` below `p`. */
  ghost function After(f: Forest, p: nat, c: nat): Ids
    requires Hangs(f, p, c)
  {
    f.kids[p][IndexOf(f.kids[p], c) + 1..]
  }

  lemma AfterKin(f: Forest, p: nat, c: nat)
    requires Tidy(f) && Hangs(f, p, c)
    ensures Kin(f, p, After(f, p, c))
  {
    var ks, k := f.kids[p], IndexOf(f.kids[p], c);
    assert Kin(f, p, ks);
    assert forall j :: 0 <= j < |After(f, p, c)| ==> After(f, p, c)[j] == ks[k + 1 + j];
  }

  /** What is left to visit once the subtree of the stack's top is done. */
  ghost function Beyond(f: Forest, stack: Ids): Ids
    requires OnPath(f, stack)
    decreases |stack|
  {
    if |stack| == 1 then []
    else
      OnPathNodes(f, stack);
      var p := stack[|stack| - 2];
      AfterKin(f, p, Top(stack));
      PreAll(f, p, After(f, p, Top(stack))) + Beyond(f, stack[..|stack| - 1])
  }

  /** What is left to visit when the stack's top has just been visited. */
  ghost function Ahead(f: Forest, stack: Ids): Ids
    requires OnPath(f, stack)
  {
    OnPathNodes(f, stack);
    PreAll(f, Top(stack), f.kids[Top(stack)]) + Beyond(f, stack)
  }

  lemma StepDown(f: Forest, stack: Ids)
    requires OnPath(f, stack)
    requires f.kids[Top(stack)] != []
    ensures var deeper := stack + [f.kids[Top(stack)][0]];
            OnPath(f, deeper) && Ahead(f, stack) == [Top(deeper)] + Ahead(f, deeper)
  {
    OnPathNodes(f, stack);
    var p, ks := Top(stack), f.kids[Top(stack)];
    var c := ks[0];
    assert Kin(f, p, ks) && NoDup(ks);
    var deeper := stack + [c];
    assert forall j :: 0 < j < |deeper| ==> Hangs(f, deeper[j - 1], deeper[j]) by {
      assert forall j :: 0 < j < |stack| ==> Hangs(f, stack[j - 1], stack[j]);
    }
    assert IndexOf(ks, c) == 0 && After(f, p, c) == ks[1..];
    assert deeper[..|deeper| - 1] == stack;
    assert ChildOk(f, p, c);
    assert Pre(f, c) == [c] + PreAll(f, c, f.kids[c]);
  }

  /** The siblings after `c`, read: first the next one's tree, then those after it. */
  lemma AfterReads(f: Forest, p: nat, c: nat, s: nat)
    requires Tidy(f) && Hangs(f, p, c) && After(f, p, c) != [] && s == After(f, p, c)[0]
    ensures Kin(f, p, After(f, p, c)) && Hangs(f, p, s) && ChildOk(f, p, s) && Kin(f, p, After(f, p, s))
    ensures PreAll(f, p, After(f, p, c)) == [s] + PreAll(f, s, f.kids[s]) + PreAll(f, p, After(f, p, s))
  {
    AfterKin(f, p, c);
    var ks, k := f.kids[p], IndexOf(f.kids[p], c);
    assert Kin(f, p, ks) && NoDup(ks) && ks[k + 1] == s;
    assert Hangs(f, p, s) && IndexOf(ks, s) == k + 1;
    assert After(f, p, c)[1..] == After(f, p, s);
    assert ChildOk(f, p, s);
    assert Pre(f, s) == [s] + PreAll(f, s, f.kids[s]);
  }

  lemma StepAcross(f: Forest, stack: Ids, s: nat)
    requires OnPath(f, stack) && |stack| > 1
    requires Hangs(f, stack[|stack| - 2], Top(stack)) && After(f, stack[|stack| - 2], Top(stack)) != []
    requires s == After(f, stack[|stack| - 2], Top(stack))[0]
    ensures OnPath(f, stack[|stack| - 1 := s]) && Beyond(f, stack) == [s] + Ahead(f, stack[|stack| - 1 := s])
  {
    OnPathNodes(f, stack);
    var p, c := stack[|stack| - 2], Top(stack);
    AfterReads(f, p, c, s);
    var moved: Ids := stack[|stack| - 1 := s];
    assert forall j :: 0 < j < |moved| ==> Hangs(f, moved[j - 1], moved[j]) by {
      assert forall j :: 0 < j < |stack| ==> Hangs(f, stack[j - 1], stack[j]);
    }
    assert moved[..|moved| - 1] == stack[..|stack| - 1];
    Rejoin([s], PreAll(f, s, f.kids[s]), PreAll(f, p, After(f, p, s)), Beyond(f, stack[..|stack| - 1]));
  }

  lemma Rejoin(a: Ids, b: Ids, c: Ids, d: Ids)
    ensures (a + b + c) + d == a + (b + (c + d))
  {
  }

  lemma NextInOrder(f: Forest, root: nat, order: Ids, seen: Ids, x: nat, ahead: Ids)
    requires Tidy(f) && root < |f.kids| && order == Pre(f, root) && order == seen + ([x] + ahead)
    ensures x in order && x < |f.kids| && seen == order[..|seen|] && |seen| < |order| && order[|seen|] == x
    ensures order == (seen + [x]) + ahead
  {
    assert order[|seen|] == x;
    InPreUp(f, root, x);
  }

  /**
   One step of the walk: down to the first child, else across to the next sibling, else up until
   some node has one. It returns the next node in document order, or none at the end.
   */
  method FindNext(nodes: Nodes, stack: Ids) returns (next: Option<nat>, rest: Ids)
    requires nodes.Valid() && OnPath(nodes.doc, stack)
    ensures next.None? ==> Ahead(nodes.doc, stack) == []
    ensures next.Some? ==> OnPath(nodes.doc, rest) && Ahead(nodes.doc, stack) == [next.value] + Ahead(nodes.doc, rest)
    ensures next.Some? ==> rest[0] == stack[0] && Top(rest) == next.value
  {
    ghost var f := nodes.doc;
    OnPathNodes(f, stack);
    EndChildren(nodes.recs, f, Top(stack));
    var child := nodes.FirstChildIndex(Top(stack));
    if child.Some? {
      StepDown(f, stack);
      return child, stack + [child.value];
    }
    rest := stack;
    while |rest| > 1
      invariant OnPath(f, rest) && rest[0] == stack[0]
      invariant Ahead(f, stack) == Beyond(f, rest)
      decreases |rest|
    {
      OnPathNodes(f, rest);
      Neighbours(nodes.recs, f, Top(rest));
      var sibling := nodes.NextSiblingIndex(Top(rest));
      if sibling.Some? {
        StepAcross(f, rest, sibling.value);
        return sibling, rest[|rest| - 1 := sibling.value];
      }
      assert After(f, rest[|rest| - 2], Top(rest)) == [];
      rest := rest[..|rest| - 1];
    }
    return None, rest;
  }
}
