// The fan-in merge shared by database discovery and entry collection:
// every producer task appends its whole local slice to one shared slice
// under a mutex, in whatever order the tasks reach the lock. The
// concurrency is left out; what remains is the sequential effect of the
// appends, for an arbitrary arrival order of the tasks.

module Aggregator {
  import opened Seqs

  /** The order in which the n producer tasks appended: each task exactly once. */
  predicate IsArrivalOrder(arrival: seq<nat>, n: nat)
  {
    multiset(arrival) == multiset(Indices(n))
  }

  /** The contribution of task k, as a total function on task numbers. */
  function ContributionOf<T>(parts: seq<seq<T>>): nat -> seq<T>
  {
    (k: nat) => if k < |parts| then parts[k] else []
  }

  /** The shared slice after every task appended its part, in arrival order. */
  function Merge<T>(parts: seq<seq<T>>, arrival: seq<nat>): seq<T>
    requires IsArrivalOrder(arrival, |parts|)
  {
    Concat(Map(ContributionOf(parts), arrival))
  }

  lemma {:induction false} ContributionsInLaunchOrder<T>(parts: seq<seq<T>>, n: nat)
    requires n <= |parts|
    ensures Map(ContributionOf(parts), Indices(n)) == parts[..n]
  {
    if n > 0 {
      ContributionsInLaunchOrder(parts, n - 1);
      MapAppend<nat, seq<T>>(ContributionOf(parts), Indices(n - 1), [n - 1]);
      assert parts[..n] == parts[..n - 1] + [parts[n - 1]];
    }
  }

  /** Whatever the arrival order, the merged slice holds exactly the union
      (as a multiset) of all the tasks' contributions. */
  lemma MergeIsUnion<T>(parts: seq<seq<T>>, arrival: seq<nat>)
    requires IsArrivalOrder(arrival, |parts|)
    ensures multiset(Merge(parts, arrival)) == multiset(Concat(parts))
  {
    MapPermutation(ContributionOf(parts), arrival, Indices(|parts|));
    ContributionsInLaunchOrder(parts, |parts|);
    assert parts[..|parts|] == parts;
    ConcatPermutation(Map(ContributionOf(parts), arrival), parts);
  }

  /** When the tasks happen to finish in launch order, the merge is the
      plain sequential fold over the tasks. */
  lemma MergeInLaunchOrder<T>(parts: seq<seq<T>>)
    ensures IsArrivalOrder(Indices(|parts|), |parts|)
    ensures Merge(parts, Indices(|parts|)) == Concat(parts)
  {
    ContributionsInLaunchOrder(parts, |parts|);
    assert parts[..|parts|] == parts;
  }
}
