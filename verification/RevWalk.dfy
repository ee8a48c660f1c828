/**
 The walk backwards: a stack from the root down to some node, and what to do with its top next.
 It visits what comes before a node in document order, last first, and never the root.
 */
module RevWalk {
  import opened Wrappers
  import opened Forest
  import opened ForestEdits
  import opened Links
  import opened Nodes
  import opened Walk

  /** The siblings before `c` below `p`. */
  ghost function Prior(f: Forest, p: nat, c: nat): Ids
    requires Hangs(f, p, c)
  {
    f.kids[p][..IndexOf(f.kids[p], c)]
  }

  lemma PriorKin(f: Forest, p: nat, c: nat)
    requires Tidy(f) && Hangs(f, p, c)
    ensures Kin(f, p, Prior(f, p, c)) && Kin(f, p, After(f, p, c)) && ChildOk(f, p, c)
    ensures f.kids[p] == Prior(f, p, c) + [c] + After(f, p, c)
  {
    var ks, k := f.kids[p], IndexOf(f.kids[p], c);
    assert ks == Prior(f, p, c) + [c] + After(f, p, c);
    KinParts(f, p, Prior(f, p, c), [c], After(f, p, c));
    assert Kin(f, p, ks) && ChildOk(f, p, ks[k]);
  }

  /** What comes before the stack's top in the tree at the stack's bottom. */
  ghost function Before(f: Forest, stack: Ids): Ids
    requires OnPath(f, stack)
    decreases |stack|
  {
    if |stack| == 1 then []
    else
      OnPathNodes(f, stack);
      var p := stack[|stack| - 2];
      PriorKin(f, p, Top(stack));
      Before(f, stack[..|stack| - 1]) + [p] + PreAll(f, p, Prior(f, p, Top(stack)))
  }

  /** The tree in document order: what comes before the top, the top's own tree, and what lies beyond. */
  lemma {:induction false} AroundTop(f: Forest, stack: Ids)
    requires OnPath(f, stack)
    ensures stack[0] < |f.kids| && Pre(f, stack[0]) == Before(f, stack) + Pre(f, Top(stack)) + Beyond(f, stack)
    decreases |stack|
  {
    if |stack| > 1 {
      OnPathNodes(f, stack);
      var p, c, front := stack[|stack| - 2], Top(stack), stack[..|stack| - 1];
      AroundTop(f, front);
      PriorKin(f, p, c);
      PreAllAround(f, p, Prior(f, p, c), c, After(f, p, c));
      Rejoin5(Before(f, front), [p], PreAll(f, p, Prior(f, p, c)), Pre(f, c), PreAll(f, p, After(f, p, c)),
        Beyond(f, front));
    }
  }

  lemma Rejoin5(a: Ids, p: Ids, l: Ids, m: Ids, r: Ids, b: Ids)
    ensures a + (p + (l + m + r)) + b == (a + p + l) + m + (r + b)
  {
  }

  lemma Rejoin4(a: Ids, p: Ids, l: Ids, m: Ids)
    ensures a + p + (l + m) == (a + p + l) + m
  {
  }

  // ---- the states of the walk ----

  datatype Operation = IncludeStart | ExcludeStart | CheckChildren

  /** What is still to be visited, from the last to the first. */
  ghost function Remaining(f: Forest, stack: Ids, op: Operation): Ids
    requires OnPath(f, stack)
  {
    match op
    case IncludeStart => Before(f, stack) + [Top(stack)]
    case ExcludeStart => Before(f, stack)
    case CheckChildren => Before(f, stack) + Pre(f, Top(stack))
  }

  /** Once the top and its tree are done: the tree of the sibling before it, or else the parent. */
  lemma StepBack(f: Forest, stack: Ids)
    requires OnPath(f, stack) && |stack| > 1
    ensures var p, c := stack[|stack| - 2], Top(stack);
            && Hangs(f, p, c) && OnPath(f, stack[..|stack| - 1])
            && if Prior(f, p, c) == [] then Before(f, stack) == Remaining(f, stack[..|stack| - 1], IncludeStart)
               else var moved: Ids := stack[..|stack| - 1] + [Prior(f, p, c)[|Prior(f, p, c)| - 1]];
                 OnPath(f, moved) && Before(f, stack) == Remaining(f, moved, CheckChildren)
  {
    OnPathNodes(f, stack);
    var p, c, front := stack[|stack| - 2], Top(stack), stack[..|stack| - 1];
    PriorKin(f, p, c);
    var prior := Prior(f, p, c);
    if prior != [] {
      var k := IndexOf(f.kids[p], c) - 1;
      var s, rest := f.kids[p][k], prior[..|prior| - 1];
      var moved: Ids := front + [s];
      assert Hangs(f, p, s) && NoDup(f.kids[p]) && ChildOk(f, p, s);
      assert IndexOf(f.kids[p], s) == k && Prior(f, p, s) == rest;
      assert OnPath(f, moved) by {
        assert forall j :: 0 < j < |stack| ==> Hangs(f, stack[j - 1], stack[j]);
      }
      assert moved[..|moved| - 1] == front && prior == rest + [s];
      PriorKin(f, p, s);
      PreAllAppend(f, p, rest, [s]);
      PreAllOne(f, p, s);
      Rejoin4(Before(f, front), [p], PreAll(f, p, rest), Pre(f, s));
    }
  }

  /** Before a node come its children, last first. */
  lemma StepInto(f: Forest, stack: Ids)
    requires OnPath(f, stack) && f.kids[Top(stack)] != []
    ensures var ks := f.kids[Top(stack)];
            var deeper := stack + [ks[|ks| - 1]];
            OnPath(f, deeper) && Remaining(f, stack, CheckChildren) == Remaining(f, deeper, CheckChildren)
  {
    var p, ks := Top(stack), f.kids[Top(stack)];
    var k := |ks| - 1;
    var c, deeper := ks[k], stack + [ks[k]];
    assert OnPath(f, deeper) by {
      assert Kin(f, p, ks) && ChildOk(f, p, ks[k]);
      assert forall j :: 0 < j < |stack| ==> Hangs(f, stack[j - 1], stack[j]);
    }
    assert deeper[..|deeper| - 1] == stack;
    PriorKin(f, p, c);
    assert NoDup(ks) && IndexOf(ks, c) == k && After(f, p, c) == [];
    PreAllAround(f, p, Prior(f, p, c), c, []);
    assert Prior(f, p, c) + [c] + [] == ks;
    assert Remaining(f, stack, CheckChildren) == Before(f, stack) + ([p] + (PreAll(f, p, Prior(f, p, c)) + Pre(f, c)));
  }

  /** Down to the last of the last children. */
  method DeepestLast(nodes: Nodes, stack: Ids) returns (rest: Ids)
    requires nodes.Valid() && OnPath(nodes.doc, stack)
    ensures OnPath(nodes.doc, rest) && rest[0] == stack[0]
    ensures Remaining(nodes.doc, stack, CheckChildren) == Remaining(nodes.doc, rest, IncludeStart)
  {
    ghost var f := nodes.doc;
    rest := stack;
    EndChildren(nodes.recs, f, Top(rest));
    var last := nodes.LastChildIndex(Top(rest));
    while last.Some?
      invariant OnPath(f, rest) && rest[0] == stack[0]
      invariant LinkOk(last, |f.kids|) && EndOf(f, Top(rest), last)
      invariant Remaining(f, stack, CheckChildren) == Remaining(f, rest, CheckChildren)
      decreases f.top - f.rank[Top(rest)]
    {
      StepInto(f, rest);
      assert ChildOk(f, Top(rest), f.kids[Top(rest)][|f.kids[Top(rest)]| - 1]);
      rest := rest + [last.value];
      EndChildren(nodes.recs, f, Top(rest));
      last := nodes.LastChildIndex(Top(rest));
    }
    assert Pre(f, Top(rest)) == [Top(rest)] + PreAll(f, Top(rest), []);
  }

  /** `last` is the last child of `p`, or there is none. */
  ghost predicate EndOf(f: Forest, p: nat, last: Option<nat>)
    requires p < |f.kids|
  {
    last == if f.kids[p] == [] then None else Some(f.kids[p][|f.kids[p]| - 1])
  }

  /** The top and all below it are done: on to the sibling before it, or else to the parent. */
  method GoBack(nodes: Nodes, stack: Ids) returns (rest: Ids, op: Operation)
    requires nodes.Valid() && OnPath(nodes.doc, stack) && |stack| > 1
    ensures OnPath(nodes.doc, rest) && rest[0] == stack[0] && !op.ExcludeStart?
    ensures Remaining(nodes.doc, rest, op) == Before(nodes.doc, stack)
  {
    ghost var f := nodes.doc;
    OnPathNodes(f, stack);
    StepBack(f, stack);
    Neighbours(nodes.recs, f, Top(stack));
    rest := stack[..|stack| - 1];
    var prev := nodes.PrevSiblingIndex(Top(stack));
    if prev.Some? {
      return rest + [prev.value], CheckChildren;
    }
    return rest, IncludeStart;
  }

  /** One step of the walk: the node before in document order, unless that is the root or there is none. */
  method FindPrev(nodes: Nodes, stack: Ids, op: Operation) returns (prev: Option<nat>, rest: Ids, next: Operation)
    requires nodes.Valid() && OnPath(nodes.doc, stack)
    ensures prev.None? ==> Remaining(nodes.doc, stack, op) == [] || Remaining(nodes.doc, stack, op) == [stack[0]]
    ensures prev.Some? ==> prev.value < |nodes.recs| && OnPath(nodes.doc, rest) && rest[0] == stack[0]
    ensures prev.Some? ==> Remaining(nodes.doc, stack, op) == Remaining(nodes.doc, rest, next) + [prev.value]
    ensures prev.Some? ==> !next.ExcludeStart?
  {
    ghost var f := nodes.doc;
    rest, next := stack, op;
    if op == ExcludeStart {
      if |rest| == 1 {
        return None, rest, next;
      }
      rest, next := GoBack(nodes, rest);
    }
    if next == CheckChildren {
      rest := DeepestLast(nodes, rest);
    }
    assert Remaining(f, stack, op) == Before(f, rest) + [Top(rest)];
    if |rest| <= 1 {
      return None, rest, next;
    }
    prev := Some(Top(rest));
    rest, next := GoBack(nodes, rest);
  }

  // ---- the way down to a node ----

  /** The stack from the top of the node's tree down to the node, found by climbing. */
  method PathTo(nodes: Nodes, index: nat) returns (stack: Ids)
    requires nodes.Valid() && index < |nodes.recs| && Grounded(nodes.doc, index)
    ensures OnPath(nodes.doc, stack) && stack[0] == TopOf(nodes.doc, index) && Top(stack) == index
  {
    ghost var f := nodes.doc;
    stack := [index];
    var parent := nodes.ParentIndex(index);
    while parent.Some?
      invariant OnPath(f, stack) && stack[0] < |f.kids| && Top(stack) == index
      invariant TopOf(f, index) == TopOf(f, stack[0]) && parent == f.par[stack[0]]
      decreases f.rank[stack[0]]
    {
      var c, p := stack[0], parent.value;
      GroundedUp(f, c);
      assert Hangs(f, p, c) && ChildOk(f, p, f.kids[p][IndexOf(f.kids[p], c)]);
      var longer := [p] + stack;
      assert forall j :: 0 < j < |longer| ==> Hangs(f, longer[j - 1], longer[j]) by {
        assert forall j :: 0 < j < |stack| ==> Hangs(f, stack[j - 1], stack[j]);
      }
      stack := longer;
      parent := nodes.ParentIndex(p);
    }
  }

  /** The node one gets to from `n` by climbing while there is a parent that lists the node. */
  ghost function TopOf(f: Forest, n: nat): (r: nat)
    requires Tidy(f) && n < |f.kids|
    ensures r < |f.kids| && !Attached(f, r) && n in Pre(f, r)
    decreases f.rank[n]
  {
    assert n in Pre(f, n);
    if Attached(f, n) then
      var p := f.par[n].value;
      assert ChildOk(f, p, f.kids[p][IndexOf(f.kids[p], n)]);
      InPreDown(f, TopOf(f, p), p, n);
      TopOf(f, p)
    else n
  }

  /** The climb ends at a node without a parent. */
  ghost predicate Grounded(f: Forest, n: nat) {
    Tidy(f) && n < |f.kids| && f.par[TopOf(f, n)] == None
  }

  lemma GroundedUp(f: Forest, n: nat)
    requires Grounded(f, n) && f.par[n].Some?
    ensures Attached(f, n) && TopOf(f, n) == TopOf(f, f.par[n].value)
  {
  }

  lemma {:induction false} TopIs(f: Forest, root: nat, n: nat)
    requires Tidy(f) && root < |f.kids| && n in Pre(f, root) && f.par[root] == None
    ensures n < |f.kids| && Grounded(f, n) && TopOf(f, n) == root
    decreases if n < |f.rank| then f.rank[n] else 0
  {
    InPreUp(f, root, n);
    if n != root {
      assert ChildOk(f, f.par[n].value, f.kids[f.par[n].value][IndexOf(f.kids[f.par[n].value], n)]);
      TopIs(f, root, f.par[n].value);
    }
  }
}
