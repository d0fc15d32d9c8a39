/** Filtering an index range while keeping the order: what a `for i in range(n)` loop that appends the accepted `i` builds. */
module Indices {

  /** The indices below `n` that `keep` accepts, in increasing order. */
  function Selected(keep: nat -> bool, n: nat): seq<nat>
  {
    if n == 0 then [] else Selected(keep, n - 1) + (if keep(n - 1) then [n - 1] else [])
  }

  /** `Selected` keeps exactly the accepted indices below `n`, each once, in increasing order. */
  lemma {:induction false} SelectedExactly(keep: nat -> bool, n: nat)
    ensures |Selected(keep, n)| <= n
    ensures forall k :: 0 <= k < |Selected(keep, n)| ==> Selected(keep, n)[k] < n && keep(Selected(keep, n)[k])
    ensures forall k, l :: 0 <= k < l < |Selected(keep, n)| ==> Selected(keep, n)[k] < Selected(keep, n)[l]
    ensures forall i :: 0 <= i < n ==> (keep(i) <==> i in Selected(keep, n))
  {
    if n > 0 {
      SelectedExactly(keep, n - 1);
    }
  }
}
