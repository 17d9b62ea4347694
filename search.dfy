/** The early-return search that several loops of the engine share: walk an
    index range in order and stop at the first index that satisfies a test. */
module Search {
  import opened Wrappers

  /** The first index in `[i, n)` that satisfies `p`, or `None`. */
  function FirstIndex(p: nat -> bool, i: nat, n: nat): (r: Option<nat>)
    ensures r.Some? ==> i <= r.value < n && p(r.value) && forall j :: i <= j < r.value ==> !p(j)
    ensures r.None? <==> forall j :: i <= j < n ==> !p(j)
    decreases n - i
  {
    if i >= n then None
    else if p(i) then Some(i)
    else FirstIndex(p, i + 1, n)
  }
}
