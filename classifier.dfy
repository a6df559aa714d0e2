// FilterYoutubeEntries and FilterWebEntries of utils/utils.go: a
// case-sensitive substring test on the URL splits the entries into
// video links and other web links, each kept in input order.

module Classifier {
  import opened Models

  /** sub occurs in s starting at position i. */
  predicate OccursAt(s: string, sub: string, i: nat)
  {
    i + |sub| <= |s| && s[i..i + |sub|] == sub
  }

  /** strings.Contains: sub occurs somewhere in s (the empty string occurs everywhere). */
  predicate Contains(s: string, sub: string)
    decreases |s|
  {
    if |sub| > |s| then false
    else if s[..|sub|] == sub then true
    else Contains(s[1..], sub)
  }

  lemma {:induction false} ContainsIffOccurs(s: string, sub: string)
    ensures Contains(s, sub) <==> exists i: nat :: OccursAt(s, sub, i)
    decreases |s|
  {
    if |sub| > |s| {
    } else if s[..|sub|] == sub {
      assert OccursAt(s, sub, 0);
    } else {
      ContainsIffOccurs(s[1..], sub);
      if Contains(s[1..], sub) {
        var i: nat :| OccursAt(s[1..], sub, i);
        assert s[1..][i..i + |sub|] == s[i + 1..i + 1 + |sub|];
        assert OccursAt(s, sub, i + 1);
      }
      if i: nat :| OccursAt(s, sub, i) {
        assert i != 0;
        assert s[1..][i - 1..i - 1 + |sub|] == s[i..i + |sub|];
        assert OccursAt(s[1..], sub, i - 1);
      }
    }
  }

  /** The video-link test of both filters. */
  predicate IsYoutubeURL(url: string)
  {
    Contains(url, "youtube.com") || Contains(url, "youtu.be")
  }

  function FilterYoutubeEntries(entries: seq<EntryResult>): (r: seq<EntryResult>)
    ensures |r| <= |entries|
    ensures forall k :: 0 <= k < |r| ==> IsYoutubeURL(r[k].url)
  {
    if entries == [] then []
    else (if IsYoutubeURL(entries[0].url) then [entries[0]] else []) + FilterYoutubeEntries(entries[1..])
  }

  function FilterWebEntries(entries: seq<EntryResult>): (r: seq<EntryResult>)
    ensures |r| <= |entries|
    ensures forall k :: 0 <= k < |r| ==> !IsYoutubeURL(r[k].url)
  {
    if entries == [] then []
    else (if !IsYoutubeURL(entries[0].url) then [entries[0]] else []) + FilterWebEntries(entries[1..])
  }

  /** s is obtained by dealing out, front to back, the elements of a and b
      in some interleaving: each of a and b keeps its order within s. */
  ghost predicate Interleaves(s: seq<EntryResult>, a: seq<EntryResult>, b: seq<EntryResult>)
    decreases |s|
  {
    if s == [] then a == [] && b == []
    else
      (a != [] && a[0] == s[0] && Interleaves(s[1..], a[1..], b))
      || (b != [] && b[0] == s[0] && Interleaves(s[1..], a, b[1..]))
  }

  /** Each side keeps the input order: the input is an interleaving of the two results. */
  lemma {:induction false} FiltersInterleave(entries: seq<EntryResult>)
    ensures Interleaves(entries, FilterYoutubeEntries(entries), FilterWebEntries(entries))
  {
    if entries != [] {
      var rest := entries[1..];
      FiltersInterleave(rest);
      var videos, others := FilterYoutubeEntries(entries), FilterWebEntries(entries);
      if IsYoutubeURL(entries[0].url) {
        assert videos == [entries[0]] + FilterYoutubeEntries(rest);
        assert videos[1..] == FilterYoutubeEntries(rest);
        assert others == FilterWebEntries(rest);
      } else {
        assert others == [entries[0]] + FilterWebEntries(rest);
        assert others[1..] == FilterWebEntries(rest);
        assert videos == FilterYoutubeEntries(rest);
      }
    }
  }

  /** Every entry goes to exactly one side: together the two results hold
      the input's entries, each as often as the input does. */
  lemma {:induction false} FiltersSplitMultiset(entries: seq<EntryResult>)
    ensures multiset(FilterYoutubeEntries(entries)) + multiset(FilterWebEntries(entries)) == multiset(entries)
    ensures |FilterYoutubeEntries(entries)| + |FilterWebEntries(entries)| == |entries|
  {
    if entries != [] {
      var rest := entries[1..];
      FiltersSplitMultiset(rest);
      assert entries == [entries[0]] + rest;
      assert multiset(entries) == multiset{entries[0]} + multiset(rest);
    }
    assert |multiset(entries)| == |entries|;
  }

  lemma {:induction false} InFilterYoutube(entries: seq<EntryResult>, e: EntryResult)
    ensures e in FilterYoutubeEntries(entries) <==> e in entries && IsYoutubeURL(e.url)
  {
    if entries != [] {
      InFilterYoutube(entries[1..], e);
      assert entries == [entries[0]] + entries[1..];
    }
  }

  lemma {:induction false} InFilterWeb(entries: seq<EntryResult>, e: EntryResult)
    ensures e in FilterWebEntries(entries) <==> e in entries && !IsYoutubeURL(e.url)
  {
    if entries != [] {
      InFilterWeb(entries[1..], e);
      assert entries == [entries[0]] + entries[1..];
    }
  }

  /** FilterYoutubeEntries keeps exactly the video links and FilterWebEntries
      exactly the others: every entry lands on one side and on one only. */
  lemma FiltersSelectByURL(entries: seq<EntryResult>)
    ensures forall e :: e in FilterYoutubeEntries(entries) <==> e in entries && IsYoutubeURL(e.url)
    ensures forall e :: e in FilterWebEntries(entries) <==> e in entries && !IsYoutubeURL(e.url)
  {
    forall e
      ensures e in FilterYoutubeEntries(entries) <==> e in entries && IsYoutubeURL(e.url)
      ensures e in FilterWebEntries(entries) <==> e in entries && !IsYoutubeURL(e.url)
    {
      InFilterYoutube(entries, e);
      InFilterWeb(entries, e);
    }
  }

  /** A non-empty needle whose first character never appears in s is not contained in s. */
  lemma NotContainedWithoutFirstChar(s: string, sub: string)
    requires sub != [] && sub[0] !in s
    ensures !Contains(s, sub)
  {
    ContainsIffOccurs(s, sub);
    forall i: nat | i + |sub| <= |s|
      ensures !OccursAt(s, sub, i)
    {
      assert s[i..i + |sub|][0] == s[i];
    }
  }

  /** Two URL examples: a short youtu.be link is a video,
      a plain site is not. */
  lemma ClassifyExamples()
    ensures IsYoutubeURL("https://youtu.be/xyz")
    ensures !IsYoutubeURL("https://example.com")
  {
    assert OccursAt("https://youtu.be/xyz", "youtu.be", 8);
    ContainsIffOccurs("https://youtu.be/xyz", "youtu.be");
    NotContainedWithoutFirstChar("https://example.com", "youtube.com");
    NotContainedWithoutFirstChar("https://example.com", "youtu.be");
  }
}
