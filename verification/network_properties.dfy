/**
 * What the built co-occurrence graph guarantees: which nodes exist, their
 * kinds, colours and sizes, the shape of every edge, and that edges form a set.
 */
module NetworkProperties {
  import opened Text
  import opened Records
  import opened KeywordCounts
  import opened Graphs
  import opened Network

  /**
   * No selected energy keyword is also a sentiment word or a country, and no
   * sentiment word is a country. Without this a later `add_node` on the same
   * name would overwrite an earlier node's kind, colour and size.
   */
  ghost predicate NamesDisjoint(es: seq<string>, words: seq<string>, countries: set<string>) {
    (forall e :: e in es ==> e !in words && e !in countries)
    && (forall w :: w in words ==> w !in countries)
  }

  /** Some filtered row mentions `w`. */
  ghost predicate Observed(posts: seq<Record>, selectedEnergy: seq<string>, w: string) {
    exists r :: r in FilterPosts(posts, selectedEnergy) && Mentions(r, w)
  }

  /** Which of the three node loops last wrote a name decides its attributes. */
  lemma NodeAt(posts: seq<Record>, selectedEnergy: seq<string>, selectedSentiments: seq<string>, id: string)
    ensures var filtered := FilterPosts(posts, selectedEnergy);
      var words := SentimentWords(selectedSentiments);
      var energy := EnergyNodes(selectedEnergy, Frequency(filtered, selectedEnergy));
      var countries := CountryNodes(Countries(filtered));
      var wordNodes := WordNodes(words, Frequency(filtered, words));
      var nodes := ExpectedNodes(posts, selectedEnergy, selectedSentiments);
      && (id in nodes <==> id in energy || id in countries || id in wordNodes)
      && (id in wordNodes ==> nodes[id] == wordNodes[id])
      && (id !in wordNodes && id in countries ==> nodes[id] == countries[id])
      && (id !in wordNodes && id !in countries && id in energy ==> nodes[id] == energy[id])
  {
  }

  /**
   * Nodes are created only for what the filtered rows show: a selected energy
   * keyword or a sentiment word that some filtered comment contains, or a
   * country of a filtered row. Nothing else is a node.
   */
  lemma NodeNames(posts: seq<Record>, selectedEnergy: seq<string>, selectedSentiments: seq<string>, id: string)
    ensures id in ExpectedNodes(posts, selectedEnergy, selectedSentiments) <==>
      (id in selectedEnergy && Observed(posts, selectedEnergy, id))
      || id in Countries(FilterPosts(posts, selectedEnergy))
      || (id in SentimentWords(selectedSentiments) && Observed(posts, selectedEnergy, id))
  {
    var filtered := FilterPosts(posts, selectedEnergy);
    var words := SentimentWords(selectedSentiments);
    NodeAt(posts, selectedEnergy, selectedSentiments, id);
    EnergyNodeKeys(filtered, selectedEnergy, id);
    WordNodeKeys(filtered, words, id);
  }

  /** An energy node exists for a listed keyword exactly when some row mentions it. */
  lemma EnergyNodeKeys(rs: seq<Record>, es: seq<string>, id: string)
    ensures id in EnergyNodes(es, Frequency(rs, es)) <==> id in es && exists r :: r in rs && Mentions(r, id)
  {
    if id in es {
      FrequencyPositiveIff(rs, es, id);
    }
  }

  /** A word node exists for a listed word exactly when some row mentions it. */
  lemma WordNodeKeys(rs: seq<Record>, words: seq<string>, id: string)
    ensures id in WordNodes(words, Frequency(rs, words)) <==> id in words && exists r :: r in rs && Mentions(r, id)
  {
    if id in words {
      FrequencyPositiveIff(rs, words, id);
    }
  }

  /** Every node has the colour and size its kind prescribes, whatever the names. */
  lemma SizeAndColourPolicy(posts: seq<Record>, selectedEnergy: seq<string>, selectedSentiments: seq<string>, id: string)
    requires id in ExpectedNodes(posts, selectedEnergy, selectedSentiments)
    ensures var n := ExpectedNodes(posts, selectedEnergy, selectedSentiments)[id];
      && (n.kind == EnergyKind ==> n.color == SkyBlue && n.size >= 200)
      && (n.kind == CountryKind ==> n.color == Blue && n.size == 600)
      && (n.kind == SentimentKind ==> n.size >= 150 && (n.color == Green <==> id in PositiveWords)
                                       && (n.color == Green || n.color == Red))
  {
  }

  /**
   * A name has an energy node exactly when it is a selected keyword some
   * filtered comment contains; the node is sky blue and sized
   * max(150 * count, 200), so at least 200, and exactly 150 * count from a
   * count of 2 on.
   */
  lemma EnergyNodeShape(posts: seq<Record>, selectedEnergy: seq<string>, selectedSentiments: seq<string>, id: string)
    requires NamesDisjoint(selectedEnergy, SentimentWords(selectedSentiments), Countries(FilterPosts(posts, selectedEnergy)))
    ensures var nodes := ExpectedNodes(posts, selectedEnergy, selectedSentiments);
      id in nodes && nodes[id].kind == EnergyKind <==> id in selectedEnergy && Observed(posts, selectedEnergy, id)
    ensures id in selectedEnergy && Observed(posts, selectedEnergy, id) ==>
      var count := Frequency(FilterPosts(posts, selectedEnergy), selectedEnergy)[id];
      var node := ExpectedNodes(posts, selectedEnergy, selectedSentiments)[id];
      && count > 0
      && node == NodeAttrs(EnergyKind, SkyBlue, Max(count * 150, 200))
      && node.size >= 200
      && (count >= 2 ==> node.size == 150 * count)
  {
    var filtered := FilterPosts(posts, selectedEnergy);
    var words := SentimentWords(selectedSentiments);
    var nodes := ExpectedNodes(posts, selectedEnergy, selectedSentiments);
    NodeAt(posts, selectedEnergy, selectedSentiments, id);
    if id in selectedEnergy {
      FrequencyPositiveIff(filtered, selectedEnergy, id);
      assert id !in words && id !in Countries(filtered);
    }
    if id in nodes && nodes[id].kind == EnergyKind {
      assert id in EnergyNodes(selectedEnergy, Frequency(filtered, selectedEnergy));
      FrequencyPositiveIff(filtered, selectedEnergy, id);
    }
  }

  /**
   * With a selection that lists each keyword once, a lower-case keyword's count
   * is the number of present comments of ALL posts that contain it: the filter
   * never drops a row that mentions a selected keyword.
   */
  lemma {:induction false} EnergyCountIsPostCount(posts: seq<Record>, selectedEnergy: seq<string>, e: string)
    requires NoDuplicates(selectedEnergy) && e in selectedEnergy && IsLower(e)
    ensures Frequency(FilterPosts(posts, selectedEnergy), selectedEnergy)[e] == CountMentioning(posts, e)
  {
    FrequencyOfDistinctWord(FilterPosts(posts, selectedEnergy), selectedEnergy, e);
    FilterKeepsMentions(posts, selectedEnergy, e);
  }

  lemma {:induction false} FilterKeepsMentions(posts: seq<Record>, selectedEnergy: seq<string>, e: string)
    requires e in selectedEnergy && IsLower(e)
    ensures CountMentioning(FilterPosts(posts, selectedEnergy), e) == CountMentioning(posts, e)
  {
    if posts != [] {
      var n := |posts| - 1;
      var rest := FilterPosts(posts[..n], selectedEnergy);
      FilterKeepsMentions(posts[..n], selectedEnergy, e);
      if Selected(posts[n], selectedEnergy) {
        assert (rest + [posts[n]])[..|rest|] == rest;
      } else {
        LowerFixesExactlyLower(e);
        assert !Mentions(posts[n], e);
      }
    }
  }

  /** Every country of a filtered row, and no other name, has a country node: blue, size 600, however often it occurs. */
  lemma CountryNodeShape(posts: seq<Record>, selectedEnergy: seq<string>, selectedSentiments: seq<string>, id: string)
    requires NamesDisjoint(selectedEnergy, SentimentWords(selectedSentiments), Countries(FilterPosts(posts, selectedEnergy)))
    ensures var nodes := ExpectedNodes(posts, selectedEnergy, selectedSentiments);
      id in nodes && nodes[id].kind == CountryKind <==> exists r :: r in FilterPosts(posts, selectedEnergy) && r.country == id
    ensures id in Countries(FilterPosts(posts, selectedEnergy)) ==>
      ExpectedNodes(posts, selectedEnergy, selectedSentiments)[id] == NodeAttrs(CountryKind, Blue, 600)
  {
    var filtered := FilterPosts(posts, selectedEnergy);
    var words := SentimentWords(selectedSentiments);
    NodeAt(posts, selectedEnergy, selectedSentiments, id);
    if id in Countries(filtered) {
      assert id !in words;
      assert id !in WordNodes(words, Frequency(filtered, words));
    }
  }

  /**
   * A name has a sentiment node exactly when it is an active sentiment word some
   * filtered comment contains; the node is green for a positive word, red
   * otherwise, and sized max(100 * count, 150).
   */
  lemma WordNodeShape(posts: seq<Record>, selectedEnergy: seq<string>, selectedSentiments: seq<string>, id: string)
    ensures var nodes := ExpectedNodes(posts, selectedEnergy, selectedSentiments);
      id in nodes && nodes[id].kind == SentimentKind
      <==> id in SentimentWords(selectedSentiments) && Observed(posts, selectedEnergy, id)
    ensures id in SentimentWords(selectedSentiments) && Observed(posts, selectedEnergy, id) ==>
      var count := Frequency(FilterPosts(posts, selectedEnergy), SentimentWords(selectedSentiments))[id];
      var node := ExpectedNodes(posts, selectedEnergy, selectedSentiments)[id];
      && count > 0
      && node == NodeAttrs(SentimentKind, if id in PositiveWords then Green else Red, Max(count * 100, 150))
      && node.size >= 150
  {
    var filtered := FilterPosts(posts, selectedEnergy);
    var words := SentimentWords(selectedSentiments);
    NodeAt(posts, selectedEnergy, selectedSentiments, id);
    if id in words {
      FrequencyPositiveIff(filtered, words, id);
    }
  }

  /** Every edge endpoint is a node. */
  lemma EdgeEndpointsAreNodes(posts: seq<Record>, selectedEnergy: seq<string>, selectedSentiments: seq<string>)
    ensures forall p :: p in ExpectedEdges(posts, selectedEnergy, selectedSentiments) ==>
      p <= ExpectedNodes(posts, selectedEnergy, selectedSentiments).Keys
  {
    forall p | p in ExpectedEdges(posts, selectedEnergy, selectedSentiments)
      ensures p <= ExpectedNodes(posts, selectedEnergy, selectedSentiments).Keys
    {
      var r, e, x := EdgeOrigins(posts, selectedEnergy, selectedSentiments, p);
      RowEndpointsHaveNodes(posts, selectedEnergy, selectedSentiments, r);
    }
  }

  /**
   * Every edge joins a selected energy keyword to either the country of a row
   * whose comment contains it or a sentiment word in the same comment.
   */
  lemma EdgeOrigins(posts: seq<Record>, selectedEnergy: seq<string>, selectedSentiments: seq<string>, p: Edge)
    returns (r: Record, e: string, x: string)
    requires p in ExpectedEdges(posts, selectedEnergy, selectedSentiments)
    ensures r in FilterPosts(posts, selectedEnergy) && e in selectedEnergy && Mentions(r, e)
    ensures p == Pair(e, x)
    ensures x == r.country || (x in SentimentWords(selectedSentiments) && Mentions(r, x))
  {
    var filtered := FilterPosts(posts, selectedEnergy);
    var words := SentimentWords(selectedSentiments);
    if exists r, e :: r in filtered && e in selectedEnergy && Mentions(r, e) && p == Pair(e, r.country) {
      r, e :| r in filtered && e in selectedEnergy && Mentions(r, e) && p == Pair(e, r.country);
      x := r.country;
    } else {
      r, e, x :| r in filtered && e in selectedEnergy && x in words && Mentions(r, e) && Mentions(r, x)
                 && p == Pair(e, x);
    }
  }

  /**
   * With disjoint names, every edge has two distinct endpoints, exactly one of
   * them an energy node: there are no self-loops, no energy–energy edges and
   * no country–word edges.
   */
  lemma EdgeKinds(posts: seq<Record>, selectedEnergy: seq<string>, selectedSentiments: seq<string>, a: string, b: string)
    requires NamesDisjoint(selectedEnergy, SentimentWords(selectedSentiments), Countries(FilterPosts(posts, selectedEnergy)))
    requires Pair(a, b) in ExpectedEdges(posts, selectedEnergy, selectedSentiments)
    ensures var nodes := ExpectedNodes(posts, selectedEnergy, selectedSentiments);
      && a != b && a in nodes && b in nodes
      && (nodes[a].kind == EnergyKind <==> nodes[b].kind != EnergyKind)
      && !(nodes[a].kind == CountryKind && nodes[b].kind == SentimentKind)
      && !(nodes[a].kind == SentimentKind && nodes[b].kind == CountryKind)
  {
    var filtered := FilterPosts(posts, selectedEnergy);
    var words := SentimentWords(selectedSentiments);
    var nodes := ExpectedNodes(posts, selectedEnergy, selectedSentiments);
    var r, e, x := EdgeOrigins(posts, selectedEnergy, selectedSentiments, Pair(a, b));
    EnergyNodeShape(posts, selectedEnergy, selectedSentiments, e);
    assert e in nodes && nodes[e].kind == EnergyKind;
    assert x != e;
    if x == r.country {
      CountryNodeShape(posts, selectedEnergy, selectedSentiments, x);
      assert nodes[x].kind == CountryKind;
    } else {
      WordNodeShape(posts, selectedEnergy, selectedSentiments, x);
      assert nodes[x].kind == SentimentKind;
    }
    assert (a == e && b == x) || (a == x && b == e) by {
      assert a in Pair(e, x) && b in Pair(e, x);
      assert e in Pair(a, b) && x in Pair(a, b);
    }
  }

  /**
   * The edge set is a set: a further row that repeats one already seen adds no
   * edge, however many co-occurrences it repeats.
   */
  lemma RepeatedRowAddsNoEdge(rs: seq<Record>, r: Record, es: seq<string>, words: seq<string>)
    requires r in rs
    ensures EdgesOf(rs + [r], es, words) == EdgesOf(rs, es, words)
  {
  }

  /** No filtered rows: no nodes and no edges. */
  lemma EmptyUniverse(posts: seq<Record>, selectedEnergy: seq<string>, selectedSentiments: seq<string>)
    requires FilterPosts(posts, selectedEnergy) == []
    ensures ExpectedNodes(posts, selectedEnergy, selectedSentiments) == map[]
    ensures ExpectedEdges(posts, selectedEnergy, selectedSentiments) == {}
  {
  }

  /** More rows never shrink an energy keyword's node. */
  lemma EnergySizeMonotone(c1: int, c2: int)
    requires c1 <= c2
    ensures EnergyNode(c1).size <= EnergyNode(c2).size
  {
  }

  /** More rows never shrink a sentiment word's node. */
  lemma WordSizeMonotone(w: string, c1: int, c2: int)
    requires c1 <= c2
    ensures WordNode(w, c1).size <= WordNode(w, c2).size
  {
  }
}
