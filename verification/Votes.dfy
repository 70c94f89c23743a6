/** The vote of label propagation: the most frequent label among the neighbours, the smallest one if several are. */
module Votes {
  import opened Sequences

  /** `chosen` wins the vote. */
  ghost predicate Wins(votes: multiset<nat>, chosen: nat)
  {
    chosen in votes && forall l :: l in votes ==> votes[l] < votes[chosen] || (votes[l] == votes[chosen] && chosen <= l)
  }

  lemma WinnerIsUnique(votes: multiset<nat>, a: nat, b: nat)
    requires Wins(votes, a) && Wins(votes, b)
    ensures a == b
  {
  }

  lemma {:induction false} WinnerExists(votes: multiset<nat>)
    requires votes != multiset{}
    ensures exists l :: Wins(votes, l)
    decreases |votes|
  {
    var x :| x in votes;
    var rest := votes[x := 0];
    assert votes == rest + multiset{x}[x := votes[x]];
    if rest == multiset{} {
      assert Wins(votes, x);
    } else {
      WinnerExists(rest);
      var y :| Wins(rest, y);
      assert Wins(votes, x) || Wins(votes, y);
    }
  }

  /** The winner, or `none` when nobody votes. */
  ghost function Winner(votes: multiset<nat>, none: nat): (l: nat)
    ensures if votes == multiset{} then l == none else Wins(votes, l)
  {
    if votes == multiset{} then none
    else
      WinnerExists(votes);
      var l :| Wins(votes, l);
      l
  }

  // ----- the histogram

  type Histogram = map<nat, nat>

  ghost predicate Counts(histogram: Histogram, votes: multiset<nat>)
  {
    forall l :: votes[l] == if l in histogram then histogram[l] else 0
  }

  ghost predicate NoEmptyBars(histogram: Histogram)
  {
    forall l :: l in histogram ==> histogram[l] > 0
  }

  /** `histogram[l]++` */
  function Increment(histogram: Histogram, l: nat): Histogram
  {
    histogram[l := (if l in histogram then histogram[l] else 0) + 1]
  }

  lemma IncrementCounts(histogram: Histogram, votes: multiset<nat>, l: nat)
    requires Counts(histogram, votes) && NoEmptyBars(histogram)
    ensures Counts(Increment(histogram, l), votes + multiset{l}) && NoEmptyBars(Increment(histogram, l))
  {
  }

  /** `l` is the best of the bars in `seen`. */
  ghost predicate BestOf(histogram: Histogram, seen: set<nat>, l: nat)
    requires seen <= histogram.Keys
  {
    l in seen && forall k :: k in seen ==> histogram[k] < histogram[l] || (histogram[k] == histogram[l] && l <= k)
  }

  lemma BestWins(histogram: Histogram, votes: multiset<nat>, l: nat)
    requires Counts(histogram, votes) && NoEmptyBars(histogram) && BestOf(histogram, histogram.Keys, l)
    ensures Wins(votes, l)
  {
    forall k | k in votes
      ensures votes[k] < votes[l] || (votes[k] == votes[l] && l <= k)
    {
      assert k in histogram.Keys;
    }
  }
}
