/**
 Extended tag names: a node byte of 192 or more stands for a symbol, found in a vocabulary of at
 most 63 entries or, for the byte 255, in a side map keyed by node number.
 */
module ExtTags {
  import opened Wrappers
  import opened LittleEndian

  const EXT_BASE: byte := 192
  const EXT_OVERFLOW: byte := 255
  const VOCAB_CAP: nat := 63

  datatype Entry = Entry(node: nat, sym: nat)
  datatype ExtTags = ExtTags(vocab: seq<nat>, overflow: seq<Entry>)

  /** The first slot at or after `i` that holds `sym`. */
  function Position(vocab: seq<nat>, sym: nat, i: nat): (r: Option<nat>)
    requires i <= |vocab|
    ensures r.Some? ==> i <= r.value < |vocab| && vocab[r.value] == sym
    ensures r.None? ==> sym !in vocab[i..]
    decreases |vocab| - i
  {
    if i == |vocab| then None
    else if vocab[i] == sym then Some(i)
    else Position(vocab, sym, i + 1)
  }

  function Encode(t: ExtTags, sym: nat, node: nat): (r: (ExtTags, byte))
    requires |t.vocab| <= VOCAB_CAP
  {
    match Position(t.vocab, sym, 0)
    case Some(i) => (t, EXT_BASE + i)
    case None =>
      if |t.vocab| < VOCAB_CAP then (t.(vocab := t.vocab + [sym]), EXT_BASE + |t.vocab|)
      else (t.(overflow := t.overflow + [Entry(node, sym)]), EXT_OVERFLOW)
  }

  /** A name is in the vocabulary or, once that is full, in the side map; the side map is ascending. */
  ghost predicate Sound(t: ExtTags) {
    && |t.vocab| <= VOCAB_CAP && (t.overflow != [] ==> |t.vocab| == VOCAB_CAP)
    && (forall i, j :: 0 <= i < j < |t.vocab| ==> t.vocab[i] != t.vocab[j])
    && (forall i :: 0 <= i < |t.overflow| ==> t.overflow[i].sym !in t.vocab)
    && Ascending(t.overflow)
  }

  ghost predicate Ascending(entries: seq<Entry>) {
    forall i, j :: 0 <= i < j < |entries| ==> entries[i].node < entries[j].node
  }

  ghost predicate Before(t: ExtTags, node: nat) {
    forall i :: 0 <= i < |t.overflow| ==> t.overflow[i].node < node
  }

  /** A node whose byte is `b` is called `sym`. */
  predicate Names(t: ExtTags, node: nat, b: byte, sym: nat) {
    && b >= EXT_BASE
    && if b < EXT_OVERFLOW then b - EXT_BASE < |t.vocab| && t.vocab[b - EXT_BASE] == sym
       else Entry(node, sym) in t.overflow
  }

  /** Encoding names the new node and leaves every name given before as it was. */
  lemma EncodeNames(t: ExtTags, sym: nat, node: nat)
    requires Sound(t) && Before(t, node)
    ensures var (u, b) := Encode(t, sym, node);
            && Sound(u) && Before(u, node + 1) && Names(u, node, b, sym)
            && forall n, c, s :: Names(t, n, c, s) ==> Names(u, n, c, s)
  {
    var (u, b) := Encode(t, sym, node);
    if Position(t.vocab, sym, 0).None? {
      assert t.vocab[0..] == t.vocab;
      if |t.vocab| == VOCAB_CAP {
        assert u.overflow[|t.overflow|] == Entry(node, sym);
      }
    }
  }

  /** A node's byte gives it at most one name. */
  lemma OneName(t: ExtTags, node: nat, b: byte, s: nat, s': nat)
    requires Sound(t) && Names(t, node, b, s) && Names(t, node, b, s')
    ensures s == s'
  {
    if b == EXT_OVERFLOW {
      var i :| 0 <= i < |t.overflow| && t.overflow[i] == Entry(node, s);
      var j :| 0 <= j < |t.overflow| && t.overflow[j] == Entry(node, s');
    }
  }

  /** A vocabulary tag is told by its byte alone: equal names, equal bytes, whatever the nodes. */
  lemma VocabByteIsName(t: ExtTags, n: nat, b: byte, n': nat, b': byte, s: nat)
    requires Sound(t) && Names(t, n, b, s) && Names(t, n', b', s)
    ensures b == b'
  {
  }

  /** Binary search of the side map. */
  method Find(overflow: seq<Entry>, node: nat) returns (sym: Option<nat>)
    requires Ascending(overflow)
    ensures sym.Some? ==> Entry(node, sym.value) in overflow
    ensures sym.None? ==> forall i :: 0 <= i < |overflow| ==> overflow[i].node != node
  {
    var left, right := 0, |overflow|;
    while left < right
      invariant 0 <= left <= right <= |overflow|
      invariant forall i :: 0 <= i < left ==> overflow[i].node < node
      invariant forall i :: right <= i < |overflow| ==> overflow[i].node > node
    {
      var mid := left + (right - left) / 2;
      if overflow[mid].node < node {
        left := mid + 1;
      } else if overflow[mid].node > node {
        right := mid;
      } else {
        return Some(overflow[mid].sym);
      }
    }
    return None;
  }

  /** The symbol of an extended tag byte; the byte must have been handed out for this node. */
  method SymAt(t: ExtTags, node: nat, b: byte, ghost sym: nat) returns (r: nat)
    requires Sound(t) && Names(t, node, b, sym)
    ensures r == sym
  {
    if b < EXT_OVERFLOW {
      r := t.vocab[b - EXT_BASE];
    } else {
      var found := Find(t.overflow, node);
      r := found.value;
      OneName(t, node, b, sym, r);
    }
  }
}
