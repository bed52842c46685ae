/**
 * The rows of the posts table that the network page reads: a comment that may
 * be missing (a pandas NaN) and the country it came from.
 */
module Records {
  import opened Text

  datatype Option<T> = None | Some(value: T)

  datatype Record = Record(comment: Option<string>, country: string)

  /** `w in comment.lower()` for a present comment; a missing comment mentions nothing. */
  predicate Mentions(r: Record, w: string) {
    r.comment.Some? && Contains(Lower(r.comment.value), w)
  }

  /** How many records mention `w` (counted from the back, as a loop over the rows builds it). */
  function CountMentioning(rs: seq<Record>, w: string): nat {
    if rs == [] then 0
    else CountMentioning(rs[..|rs| - 1], w) + (if Mentions(rs[|rs| - 1], w) then 1 else 0)
  }

  /** How many records have a comment at all (`df['comment'].dropna()`). */
  function NonMissing(rs: seq<Record>): nat {
    if rs == [] then 0
    else NonMissing(rs[..|rs| - 1]) + (if rs[|rs| - 1].comment.Some? then 1 else 0)
  }

  /** The indices of the records that mention `w`. */
  function MentioningIndices(rs: seq<Record>, w: string): set<int> {
    set i | 0 <= i < |rs| && Mentions(rs[i], w)
  }

  /** The count is exactly the number of rows whose present, lower-cased comment holds `w`. */
  lemma {:induction false} CountIsNumberOfMentioningRows(rs: seq<Record>, w: string)
    ensures CountMentioning(rs, w) == |MentioningIndices(rs, w)|
  {
    if rs != [] {
      var n := |rs| - 1;
      CountIsNumberOfMentioningRows(rs[..n], w);
      var before := MentioningIndices(rs[..n], w);
      forall i | 0 <= i < n ensures rs[..n][i] == rs[i] {
      }
      if Mentions(rs[n], w) {
        assert MentioningIndices(rs, w) == before + {n};
      } else {
        assert MentioningIndices(rs, w) == before;
      }
    }
  }

  /** A count never exceeds the number of present comments: missing comments contribute nothing. */
  lemma {:induction false} CountBoundedByNonMissing(rs: seq<Record>, w: string)
    ensures CountMentioning(rs, w) <= NonMissing(rs)
  {
    if rs != [] {
      CountBoundedByNonMissing(rs[..|rs| - 1], w);
    }
  }

  /** Counting over a concatenation adds the counts of the two parts. */
  lemma {:induction false} CountAppend(rs: seq<Record>, more: seq<Record>, w: string)
    ensures CountMentioning(rs + more, w) == CountMentioning(rs, w) + CountMentioning(more, w)
  {
    if more == [] {
      assert rs + more == rs;
    } else {
      var n := |more| - 1;
      assert (rs + more)[..|rs + more| - 1] == rs + more[..n];
      assert (rs + more)[|rs + more| - 1] == more[n];
      CountAppend(rs, more[..n], w);
    }
  }

  /** A record that mentions `w` makes the count of any sequence holding it positive. */
  lemma {:induction false} CountPositiveWhenMentioned(rs: seq<Record>, r: Record, w: string)
    requires r in rs && Mentions(r, w)
    ensures CountMentioning(rs, w) > 0
  {
    var n := |rs| - 1;
    if rs[n] != r {
      assert r in rs[..n] by {
        var k :| 0 <= k < |rs| && rs[k] == r;
        assert rs[..n][k] == r;
      }
      CountPositiveWhenMentioned(rs[..n], r, w);
    }
  }

  /** Conversely, a positive count is witnessed by some record that mentions `w`. */
  lemma {:induction false} CountPositiveHasWitness(rs: seq<Record>, w: string)
    requires CountMentioning(rs, w) > 0
    ensures exists r :: r in rs && Mentions(r, w)
  {
    var n := |rs| - 1;
    if !Mentions(rs[n], w) {
      CountPositiveHasWitness(rs[..n], w);
      var r :| r in rs[..n] && Mentions(r, w);
      assert r in rs;
    }
  }
}
