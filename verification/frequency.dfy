/**
 * `calculate_frequency(df, words)`: a dictionary with one entry per requested
 * word, counting the present comments that contain that word.
 */
module KeywordCounts {
  import opened Text
  import opened Records

  /**
   * What `calculate_frequency` returns. The loop adds one for every position of
   * `w` in `words` and every comment mentioning it, so a word listed twice is
   * counted twice per comment; for a list without repeats the entry is the plain
   * count (FrequencyOfDistinctWord).
   */
  function Frequency(rs: seq<Record>, words: seq<string>): (freq: map<string, int>)
    ensures freq.Keys == set w | w in words
    ensures forall w :: w in freq ==> 0 <= freq[w]
  {
    map w | w in words :: multiset(words)[w] * CountMentioning(rs, w)
  }

  predicate NoDuplicates(words: seq<string>) {
    forall i, j :: 0 <= i < j < |words| ==> words[i] != words[j]
  }

  /** The dictionary built from the rows one at a time. */
  method CalculateFrequency(rs: seq<Record>, words: seq<string>) returns (frequency: map<string, int>)
    ensures frequency == Frequency(rs, words)
  {
    frequency := map w | w in words :: 0;
    for i := 0 to |rs|
      invariant frequency == Frequency(rs[..i], words)
    {
      if rs[i].comment.Some? {
        var commentLower := Lower(rs[i].comment.value);
        for j := 0 to |words|
          invariant frequency.Keys == set w | w in words
          invariant forall w :: w in words ==>
            frequency[w] == multiset(words)[w] * CountMentioning(rs[..i], w)
                            + (if Contains(commentLower, w) then multiset(words[..j])[w] else 0)
        {
          assert words[..j + 1] == words[..j] + [words[j]];
          if Contains(commentLower, words[j]) {
            frequency := frequency[words[j] := frequency[words[j]] + 1];
          }
        }
        assert words[..|words|] == words;
        RowCounted(rs, i, words, frequency);
      } else {
        RowCounted(rs, i, words, frequency);
      }
    }
    assert rs[..|rs|] == rs;
  }

  /** After row `i` has been looked at, the dictionary is that of the first `i + 1` rows. */
  lemma RowCounted(rs: seq<Record>, i: int, words: seq<string>, frequency: map<string, int>)
    requires 0 <= i < |rs|
    requires frequency.Keys == set w | w in words
    requires forall w :: w in words ==>
      frequency[w] == multiset(words)[w] * CountMentioning(rs[..i], w)
                      + (if Mentions(rs[i], w) then multiset(words)[w] else 0)
    ensures frequency == Frequency(rs[..i + 1], words)
  {
    assert rs[..i + 1][..i] == rs[..i];
    forall w | w in words
      ensures frequency[w] == multiset(words)[w] * CountMentioning(rs[..i + 1], w)
    {
      assert CountMentioning(rs[..i + 1], w)
          == CountMentioning(rs[..i], w) + (if Mentions(rs[i], w) then 1 else 0);
      MulStep(multiset(words)[w], CountMentioning(rs[..i], w));
    }
  }

  lemma MulStep(m: int, c: int)
    ensures m * (c + 1) == m * c + m
  {
  }

  lemma MulAdd(m: int, a: int, b: int)
    ensures m * (a + b) == m * a + m * b
  {
  }

  lemma {:induction false} SingleOccurrence(words: seq<string>, w: string)
    requires NoDuplicates(words) && w in words
    ensures multiset(words)[w] == 1
  {
    var n := |words| - 1;
    assert words == words[..n] + [words[n]];
    if words[n] == w {
      assert w !in words[..n];
    } else {
      SingleOccurrence(words[..n], w);
    }
  }

  /** For a word list without repeats, each entry is the number of present comments containing the word. */
  lemma FrequencyOfDistinctWord(rs: seq<Record>, words: seq<string>, w: string)
    requires NoDuplicates(words) && w in words
    ensures Frequency(rs, words)[w] == CountMentioning(rs, w) == |MentioningIndices(rs, w)|
    ensures Frequency(rs, words)[w] <= NonMissing(rs)
  {
    SingleOccurrence(words, w);
    CountIsNumberOfMentioningRows(rs, w);
    CountBoundedByNonMissing(rs, w);
  }

  /** An entry is positive exactly when some record mentions the word. */
  lemma FrequencyPositiveIff(rs: seq<Record>, words: seq<string>, w: string)
    requires w in words
    ensures Frequency(rs, words)[w] > 0 <==> exists r :: r in rs && Mentions(r, w)
  {
    assert multiset(words)[w] > 0;
    if Frequency(rs, words)[w] > 0 {
      CountPositiveHasWitness(rs, w);
    }
    if exists r :: r in rs && Mentions(r, w) {
      var r :| r in rs && Mentions(r, w);
      CountPositiveWhenMentioned(rs, r, w);
      var m, c := multiset(words)[w], CountMentioning(rs, w);
      assert m * c >= c;
    }
  }

  /** More rows never lower a word's entry. */
  lemma FrequencyMonotone(rs: seq<Record>, more: seq<Record>, words: seq<string>, w: string)
    requires w in words
    ensures Frequency(rs, words)[w] <= Frequency(rs + more, words)[w]
  {
    CountAppend(rs, more, w);
    MulAdd(multiset(words)[w], CountMentioning(rs, w), CountMentioning(more, w));
  }
}
