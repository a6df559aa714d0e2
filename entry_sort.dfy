// SortEntriesByCreationTime of utils/utils.go: an in-place exchange sort.
// For every position i it scans the later positions j and swaps whenever
// the entry at i was created before the entry at j, so that position i
// ends up holding a newest entry of the remaining suffix.

module EntrySort {
  import opened Models

  /** Creation times never increase along s: newest first. */
  ghost predicate NewestFirst(s: seq<EntryResult>)
  {
    forall p, q :: 0 <= p < q < |s| ==> s[p].createdAt >= s[q].createdAt
  }

  /** s with the elements at i and j exchanged. */
  function Swapped(s: seq<EntryResult>, i: nat, j: nat): seq<EntryResult>
    requires i < j < |s|
  {
    s[i := s[j]][j := s[i]]
  }

  /** An exchange at i and a later j keeps everything before i and
      reorders only what lies from i on. */
  lemma SwappedKeepsPrefix(s: seq<EntryResult>, i: nat, j: nat)
    requires i < j < |s|
    ensures Swapped(s, i, j)[..i] == s[..i]
    ensures multiset(Swapped(s, i, j)[i..]) == multiset(s[i..])
    ensures multiset(Swapped(s, i, j)) == multiset(s)
  {
    var t := Swapped(s, i, j);
    assert t[i..] == Swapped(s[i..], 0, j - i);
    assert s == s[..i] + s[i..] && t == t[..i] + t[i..];
  }

  /** Keeping a prefix and reordering the rest reorders the whole. */
  lemma SamePrefixPermutedSuffix(s: seq<EntryResult>, t: seq<EntryResult>, i: nat)
    requires i <= |s| && i <= |t|
    requires s[..i] == t[..i]
    requires multiset(s[i..]) == multiset(t[i..])
    ensures multiset(s) == multiset(t)
  {
    assert s == s[..i] + s[i..] && t == t[..i] + t[i..];
  }

  /** Exchanges two elements, as Go's parallel assignment does. */
  method Swap(entries: array<EntryResult>, i: nat, j: nat)
    requires i < j < entries.Length
    modifies entries
    ensures entries[..] == Swapped(old(entries[..]), i, j)
    ensures entries[..i] == old(entries[..i])
    ensures multiset(entries[i..]) == multiset(old(entries[i..]))
    ensures multiset(entries[..]) == multiset(old(entries[..]))
  {
    SwappedKeepsPrefix(entries[..], i, j);
    entries[i], entries[j] := entries[j], entries[i];
  }

  /** Every position before i holds an entry at least as new as every later entry. */
  ghost predicate SettledBefore(s: seq<EntryResult>, i: nat)
  {
    forall p, q :: 0 <= p < i && p < q < |s| ==> s[p].createdAt >= s[q].createdAt
  }

  /** Position i is at least as new as every later position. */
  ghost predicate NewestAt(s: seq<EntryResult>, i: nat)
    requires i < |s|
  {
    forall q :: i < q < |s| ==> s[i].createdAt >= s[q].createdAt
  }

  /** Swapping a newer entry at j into position i keeps everything settled
      and keeps position i newest among the scanned entries. */
  lemma SwapNewer(s: seq<EntryResult>, i: nat, j: nat)
    requires i < j < |s|
    requires SettledBefore(s, i)
    requires forall q :: i < q < j ==> s[i].createdAt >= s[q].createdAt
    requires Before(s[i].createdAt, s[j].createdAt)
    ensures SettledBefore(Swapped(s, i, j), i)
    ensures forall q :: i < q <= j ==> Swapped(s, i, j)[i].createdAt >= Swapped(s, i, j)[q].createdAt
  {
  }

  /** One step of the inner loop: entries[i] and entries[j] are exchanged
      when entries[i] was created before entries[j]. */
  method SwapIfNewer(entries: array<EntryResult>, i: nat, j: nat)
    requires i < j < entries.Length
    requires SettledBefore(entries[..], i)
    requires forall q :: i < q < j ==> entries[i].createdAt >= entries[q].createdAt
    modifies entries
    ensures SettledBefore(entries[..], i)
    ensures forall q :: i < q <= j ==> entries[i].createdAt >= entries[q].createdAt
    ensures entries[..i] == old(entries[..i])
    ensures multiset(entries[i..]) == multiset(old(entries[i..]))
    ensures Before(old(entries[i].createdAt), old(entries[j].createdAt)) ==> entries[..] == Swapped(old(entries[..]), i, j)
    ensures !Before(old(entries[i].createdAt), old(entries[j].createdAt)) ==> entries[..] == old(entries[..])
  {
    if Before(entries[i].createdAt, entries[j].createdAt) {
      SwapNewer(entries[..], i, j);
      Swap(entries, i, j);
    }
  }

  /** The inner loop (over j) of the sort, for one position i. */
  method MoveNewestTo(entries: array<EntryResult>, i: nat)
    requires i < entries.Length
    requires SettledBefore(entries[..], i)
    modifies entries
    ensures SettledBefore(entries[..], i + 1)
    ensures entries[..i] == old(entries[..i])
    ensures multiset(entries[i..]) == multiset(old(entries[i..]))
    ensures multiset(entries[..]) == multiset(old(entries[..]))
    ensures NewestAt(old(entries[..]), i) ==> entries[..] == old(entries[..])
  {
    var n := entries.Length;
    var j := i + 1;
    while j < n
      invariant i + 1 <= j <= n
      invariant SettledBefore(entries[..], i)
      // entries[i] is at least as new as every entry scanned so far
      invariant forall q :: i < q < j ==> entries[i].createdAt >= entries[q].createdAt
      invariant entries[..i] == old(entries[..i])
      invariant multiset(entries[i..]) == multiset(old(entries[i..]))
      invariant NewestAt(old(entries[..]), i) ==> entries[..] == old(entries[..])
    {
      SwapIfNewer(entries, i, j);
      j := j + 1;
    }
    SamePrefixPermutedSuffix(old(entries[..]), entries[..], i);
  }

  method SortEntriesByCreationTime(entries: array<EntryResult>)
    modifies entries
    ensures NewestFirst(entries[..])
    ensures multiset(entries[..]) == multiset(old(entries[..]))
    ensures NewestFirst(old(entries[..])) ==> entries[..] == old(entries[..])
  {
    var n := entries.Length;
    var i := 0;
    while i < n
      invariant 0 <= i <= n
      invariant SettledBefore(entries[..], i)
      invariant multiset(entries[..]) == multiset(old(entries[..]))
      invariant NewestFirst(old(entries[..])) ==> entries[..] == old(entries[..])
    {
      MoveNewestTo(entries, i);
      i := i + 1;
    }
  }
}
