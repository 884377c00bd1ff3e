/**
  Leftmost-match search: how `re.search` chooses among the positions where a
  pattern matches, and how the extractor picks the first indicator line.
 */
module Search {
  import opened Text

  /** The least position `i` with `from <= i < n` that satisfies `p`, if there is one. */
  function Leftmost(p: nat -> bool, from: nat, n: nat): (r: Option<nat>)
    requires from <= n
    ensures r.Some? ==> from <= r.value < n && p(r.value)
    ensures r.Some? ==> forall j :: from <= j < r.value ==> !p(j)
    ensures r.None? ==> forall j :: from <= j < n ==> !p(j)
    decreases n - from
  {
    if from == n then None
    else if p(from) then Some(from)
    else Leftmost(p, from + 1, n)
  }

  /** A position that satisfies `p` with none before it is the one `Leftmost` finds. */
  lemma LeftmostIsFirst(p: nat -> bool, n: nat, i: nat)
    requires i < n && p(i)
    requires forall j :: 0 <= j < i ==> !p(j)
    ensures Leftmost(p, 0, n) == Some(i)
  {
  }
}
