/** Sequences taken apart. */
module Sequences {
  lemma InitAndLast<A>(xs: seq<A>)
    requires xs != []
    ensures xs == xs[..|xs| - 1] + [xs[|xs| - 1]]
  {
  }

  lemma TakeTake<A>(xs: seq<A>, i: nat)
    requires i < |xs|
    ensures xs[..i + 1][..i] == xs[..i]
  {
  }

  lemma DropOne<A>(xs: seq<A>, k: nat)
    requires k < |xs|
    ensures xs[k..] != [] && xs[k..][0] == xs[k] && xs[k..][1..] == xs[k + 1..]
  {
  }

  /** What follows position `i`, and where position `k` is in it. */
  lemma Rest<A>(xs: seq<A>, i: nat, k: nat) returns (rest: seq<A>, m: nat)
    requires i < k < |xs|
    ensures rest == xs[i + 1..] && m == k - i - 1 && m < |rest| && rest[m] == xs[k] && xs[k] in rest
  {
    rest, m := xs[i + 1..], k - i - 1;
    assert rest[m] == xs[k];
  }
}
