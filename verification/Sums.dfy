/** A number per worker, summed over all workers. */
module Sums {

  function Sum<W>(f: W -> nat, ws: seq<W>): nat {
    if ws == [] then 0 else f(ws[0]) + Sum(f, ws[1..])
  }

  lemma {:induction false} SumSet<W>(f: W -> nat, ws: seq<W>, i: nat, w: W)
    requires i < |ws|
    ensures Sum(f, ws[i := w]) + f(ws[i]) == Sum(f, ws) + f(w)
  {
    if i > 0 {
      assert ws[i := w][1..] == ws[1..][i - 1 := w];
      SumSet(f, ws[1..], i - 1, w);
    } else {
      assert ws[i := w][1..] == ws[1..];
    }
  }

  lemma {:induction false} SumPositive<W>(f: W -> nat, ws: seq<W>) returns (i: nat)
    requires Sum(f, ws) > 0
    ensures i < |ws| && f(ws[i]) > 0
  {
    if f(ws[0]) > 0 { i := 0; } else { var j := SumPositive(f, ws[1..]); i := j + 1; }
  }

  lemma {:induction false} SumZero<W>(f: W -> nat, ws: seq<W>)
    ensures Sum(f, ws) == 0 <==> forall i :: 0 <= i < |ws| ==> f(ws[i]) == 0
  {
    if ws != [] {
      SumZero(f, ws[1..]);
      if forall i :: 0 <= i < |ws| ==> f(ws[i]) == 0 {
        assert forall i :: 0 <= i < |ws[1..]| ==> ws[1..][i] == ws[i + 1];
      }
    }
  }
}
