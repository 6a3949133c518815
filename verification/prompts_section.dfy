/**
  The saved-prompts list of `components/prompts-section.tsx`: the saved
  entries followed by two built-in samples, filtered by a case-insensitive
  search, and a delete button on each entry shown.

  The entries are `{prompt, timestamp}` records. `samplePrompts.includes(p)`
  compares object identity, and every sample shown comes from the same
  sample list, so an entry is tagged with where it came from; a saved entry
  with the same text as a sample is still a saved entry.
 */
module PromptsSection {
  import opened Strings

  datatype Origin = Saved | Sample

  datatype Entry = Entry(prompt: string, timestamp: string, origin: Origin)

  const DashboardSample: string :=
    "Create a modern dashboard interface with dark theme, featuring analytics charts, user statistics, "
    + "and a sidebar navigation. Include a top navbar with user profile and notifications. Use a color scheme "
    + "of dark blue, purple accents, and white text."

  const LoginSample: string :=
    "Design a mobile app login screen with a minimalist aesthetic. Include email and password fields, "
    + "social login options, and a prominent sign-in button. Use a gradient background from teal to blue "
    + "with white form elements."

  /** The two samples; `now` and `dayBefore` are the timestamps of the render. */
  function Samples(now: string, dayBefore: string): (r: seq<Entry>)
    ensures |r| == 2 && r[0].origin == Sample && r[1].origin == Sample
  {
    [Entry(DashboardSample, now, Sample), Entry(LoginSample, dayBefore, Sample)]
  }

  predicate AllFrom(entries: seq<Entry>, origin: Origin) {
    forall k :: 0 <= k < |entries| ==> entries[k].origin == origin
  }

  /** The initial saved list: the prompt passed in, if any. */
  function InitialSaved(generated: Option<Entry>): (r: seq<Entry>)
    ensures generated.None? ==> r == []
    ensures generated.Some? ==> r == [generated.value]
  {
    if generated.Some? then [generated.value] else []
  }

  /** `prompt.prompt.toLowerCase().includes(searchQuery.toLowerCase())` */
  predicate Matches(e: Entry, query: string) {
    Contains(ToLower(e.prompt), ToLower(query))
  }

  /** The entries that match the query, in their order. */
  function Filter(entries: seq<Entry>, query: string): (r: seq<Entry>)
    ensures IsSubsequence(r, entries)
    ensures forall k :: 0 <= k < |r| ==> Matches(r[k], query)
    ensures forall k :: 0 <= k < |entries| && Matches(entries[k], query) ==> entries[k] in r
    decreases |entries|
  {
    if |entries| == 0 then []
    else
      var rest := Filter(entries[1..], query);
      assert forall k :: 1 <= k < |entries| ==> entries[k] == entries[1..][k - 1];
      if Matches(entries[0], query) then
        [entries[0]] + rest
      else
        SubsequenceCons(rest, entries[1..], entries[0]);
        assert [entries[0]] + entries[1..] == entries;
        rest
  }

  /** An empty search shows every entry. */
  lemma {:induction false} EmptyQueryKeepsAll(entries: seq<Entry>)
    ensures Filter(entries, "") == entries
    decreases |entries|
  {
    if |entries| > 0 {
      ContainsEmpty(ToLower(entries[0].prompt));
      EmptyQueryKeepsAll(entries[1..]);
      assert [entries[0]] + entries[1..] == entries;
    }
  }

  /** Filtering keeps the origin of every entry. */
  lemma {:induction false} FilterKeepsOrigin(entries: seq<Entry>, query: string, origin: Origin)
    requires AllFrom(entries, origin)
    ensures AllFrom(Filter(entries, query), origin)
  {
    var r := Filter(entries, query);
    forall k | 0 <= k < |r|
      ensures r[k].origin == origin
    {
      SubsequenceMember(r, entries, k);
    }
  }

  /** Every element of a subsequence is an element of the larger sequence. */
  lemma {:induction false} SubsequenceMember<T>(r: seq<T>, s: seq<T>, k: nat)
    requires IsSubsequence(r, s) && k < |r|
    ensures r[k] in s
    decreases |s|
  {
    if r[0] == s[0] {
      if k > 0 {
        SubsequenceMember(r[1..], s[1..], k - 1);
      }
    } else {
      SubsequenceMember(r, s[1..], k);
    }
  }

  /** `allPrompts`: saved entries first, then the samples, both filtered. */
  function AllPrompts(saved: seq<Entry>, samples: seq<Entry>, query: string): seq<Entry> {
    Filter(saved + samples, query)
  }

  /** The entries of one origin, in order. */
  function KeepOrigin(entries: seq<Entry>, origin: Origin): (r: seq<Entry>)
    ensures AllFrom(r, origin)
    ensures IsSubsequence(r, entries)
    ensures forall k :: 0 <= k < |entries| && entries[k].origin == origin ==> entries[k] in r
    decreases |entries|
  {
    if |entries| == 0 then []
    else
      var rest := KeepOrigin(entries[1..], origin);
      assert forall k :: 1 <= k < |entries| ==> entries[k] == entries[1..][k - 1];
      if entries[0].origin == origin then
        [entries[0]] + rest
      else
        SubsequenceCons(rest, entries[1..], entries[0]);
        assert [entries[0]] + entries[1..] == entries;
        rest
  }

  /**
    `deletePrompt(index)`: the shown list loses its entry at `index`, and the
    saved list becomes what is left of it without the samples.
   */
  function DeletePrompt(saved: seq<Entry>, samples: seq<Entry>, query: string, index: int): (newSaved: seq<Entry>)
    ensures AllFrom(newSaved, Saved)
  {
    KeepOrigin(SpliceOne(AllPrompts(saved, samples, query), index), Saved)
  }

  /** Filtering a concatenation filters each part. */
  lemma {:induction false} FilterAppend(a: seq<Entry>, b: seq<Entry>, query: string)
    ensures Filter(a + b, query) == Filter(a, query) + Filter(b, query)
    decreases |a|
  {
    if |a| == 0 {
      assert a + b == b;
    } else {
      assert (a + b)[1..] == a[1..] + b;
      FilterAppend(a[1..], b, query);
    }
  }

  /** Dropping the samples from saved entries followed by samples leaves the saved entries. */
  lemma {:induction false} KeepSavedOfSavedThenSamples(saved: seq<Entry>, samples: seq<Entry>)
    requires AllFrom(saved, Saved) && AllFrom(samples, Sample)
    ensures KeepOrigin(saved + samples, Saved) == saved
    decreases |saved|
  {
    if |saved| == 0 {
      assert saved + samples == samples;
      KeepNone(samples);
    } else {
      assert (saved + samples)[1..] == saved[1..] + samples;
      KeepSavedOfSavedThenSamples(saved[1..], samples);
      assert [saved[0]] + saved[1..] == saved;
    }
  }

  lemma {:induction false} KeepNone(samples: seq<Entry>)
    requires AllFrom(samples, Sample)
    ensures KeepOrigin(samples, Saved) == []
    decreases |samples|
  {
    if |samples| > 0 {
      KeepNone(samples[1..]);
    }
  }

  /**
    A delete leaves only saved entries that the search shows: saved entries
    hidden by the search are dropped along with the deleted one.
   */
  lemma DeleteKeepsOnlyShown(saved: seq<Entry>, samples: seq<Entry>, query: string, index: int)
    requires AllFrom(samples, Sample)
    ensures forall x :: x in DeletePrompt(saved, samples, query, index) ==> x in saved && Matches(x, query)
  {
    var shown := AllPrompts(saved, samples, query);
    var rest := SpliceOne(shown, index);
    var left := DeletePrompt(saved, samples, query, index);
    forall x | x in left
      ensures x in saved && Matches(x, query)
    {
      var k :| 0 <= k < |left| && left[k] == x;
      SubsequenceMember(left, rest, k);
      var j :| 0 <= j < |rest| && rest[j] == x;
      SpliceMember(shown, index, j);
      var i :| 0 <= i < |shown| && shown[i] == x;
      SubsequenceMember(shown, saved + samples, i);
      assert x.origin == Saved;
      assert x in saved + samples;
    }
  }

  /** What is left after a splice was already there. */
  lemma SpliceMember<T>(s: seq<T>, index: int, j: nat)
    requires j < |SpliceOne(s, index)|
    ensures SpliceOne(s, index)[j] in s
  {
    var start := SpliceStart(|s|, index);
    if start < |s| {
      if j < start {
        assert SpliceOne(s, index)[j] == s[j];
      } else {
        assert SpliceOne(s, index)[j] == s[j + 1];
      }
    }
  }

  /** A splice inside the first part of a concatenation leaves the second part alone. */
  lemma SpliceInFirst<T>(a: seq<T>, b: seq<T>, index: nat)
    requires index < |a|
    ensures SpliceOne(a + b, index) == a[..index] + a[index + 1..] + b
  {
    assert (a + b)[..index] == a[..index];
    assert (a + b)[index + 1..] == a[index + 1..] + b;
  }

  /** A splice inside the second part of a concatenation leaves the first part alone. */
  lemma SpliceInSecond<T>(a: seq<T>, b: seq<T>, index: nat)
    requires |a| <= index < |a| + |b|
    ensures SpliceOne(a + b, index) == a + (b[..index - |a|] + b[index - |a| + 1..])
  {
    var j := index - |a|;
    assert a + b == (a + b[..j]) + b[j..];
    assert (a + b)[..index] == a + b[..j];
    assert (a + b)[|a|..] == b;
    assert (a + b)[index + 1..] == (a + b)[|a|..][j + 1..];
  }

  /**
    With an empty search, deleting the i-th saved entry removes exactly that
    one, and deleting a sample leaves the saved list as it was.
   */
  lemma DeleteWithoutSearch(saved: seq<Entry>, samples: seq<Entry>, index: nat)
    requires AllFrom(saved, Saved) && AllFrom(samples, Sample)
    requires index < |saved| + |samples|
    ensures index < |saved| ==> DeletePrompt(saved, samples, "", index) == saved[..index] + saved[index + 1..]
    ensures index >= |saved| ==> DeletePrompt(saved, samples, "", index) == saved
  {
    EmptyQueryKeepsAll(saved + samples);
    if index < |saved| {
      var smaller := saved[..index] + saved[index + 1..];
      SpliceInFirst(saved, samples, index);
      assert AllFrom(smaller, Saved) by {
        forall k | 0 <= k < |smaller|
          ensures smaller[k].origin == Saved
        {
          if k < index {
            assert smaller[k] == saved[k];
          } else {
            assert smaller[k] == saved[k + 1];
          }
        }
      }
      KeepSavedOfSavedThenSamples(smaller, samples);
    } else {
      var fewer := samples[..index - |saved|] + samples[index - |saved| + 1..];
      SpliceInSecond(saved, samples, index);
      assert AllFrom(fewer, Sample) by {
        forall k | 0 <= k < |fewer|
          ensures fewer[k].origin == Sample
        {
          if k < index - |saved| {
            assert fewer[k] == samples[k];
          } else {
            assert fewer[k] == samples[k + 1];
          }
        }
      }
      KeepSavedOfSavedThenSamples(saved, fewer);
    }
  }
}
