/**
 * `update_graph`: the two dropdown values are expanded into lists before the
 * graph is built. 'All' stands for every energy type, or for both sentiment
 * categories; any other value becomes a one-element list.
 */
module Selection {
  import opened Text
  import opened Records
  import opened KeywordCounts
  import opened Graphs
  import opened Network
  import opened NetworkProperties

  function ExpandEnergy(selected: string): (es: seq<string>)
    ensures es != []
    ensures forall e :: e in es <==> (if selected == "All" then e in EnergyTypes else e == selected)
  {
    if selected == "All" then EnergyTypes else [selected]
  }

  function ExpandSentiment(selected: string): (ss: seq<string>)
    ensures ss != []
    ensures forall s :: s in ss <==> (if selected == "All" then s == "positive" || s == "negative" else s == selected)
  {
    if selected == "All" then ["positive", "negative"] else [selected]
  }

  /** The built-in keyword lists: each lower-case, none repeated, no keyword in two lists. */
  lemma BuiltinKeywords()
    ensures NoDuplicates(EnergyTypes) && NoDuplicates(PositiveWords) && NoDuplicates(NegativeWords)
    ensures forall w :: w in EnergyTypes ==> w !in PositiveWords && w !in NegativeWords
    ensures forall w :: w in PositiveWords ==> w !in NegativeWords
    ensures forall w :: w in EnergyTypes || w in PositiveWords || w in NegativeWords ==> IsLower(w)
  {
    KeywordsDistinct();
    KeywordListsDisjoint();
    KeywordsLowerCase();
  }

  lemma KeywordsDistinct()
    ensures NoDuplicates(EnergyTypes) && NoDuplicates(PositiveWords) && NoDuplicates(NegativeWords)
  {
  }

  lemma KeywordListsDisjoint()
    ensures forall w :: w in EnergyTypes ==> w !in PositiveWords && w !in NegativeWords
    ensures forall w :: w in PositiveWords ==> w !in NegativeWords
  {
  }

  lemma KeywordsLowerCase()
    ensures forall w :: w in EnergyTypes || w in PositiveWords || w in NegativeWords ==> IsLower(w)
  {
  }

  /**
   * The page's row filter: since the expansion is never empty, the empty
   * pattern never arises; a row is kept exactly when its comment is present and
   * contains an energy type ('All') or the chosen value, ignoring case.
   */
  lemma ExpandedEnergyFilter(r: Record, selected: string)
    ensures Selected(r, ExpandEnergy(selected)) <==>
      r.comment.Some? &&
      (if selected == "All" then exists e :: e in EnergyTypes && Contains(Lower(r.comment.value), e)
       else Contains(Lower(r.comment.value), Lower(selected)))
  {
    if selected == "All" {
      BuiltinKeywords();
      forall e | e in EnergyTypes ensures Lower(e) == e {
        LowerFixesExactlyLower(e);
      }
    }
  }

  /**
   * The sentiment words in play: the positive words exactly when 'All' or
   * 'positive' is chosen, the negative words exactly when 'All' or 'negative' is.
   */
  lemma ExpandedSentimentWords(selected: string, w: string)
    ensures w in SentimentWords(ExpandSentiment(selected)) <==>
      (w in PositiveWords && (selected == "All" || selected == "positive"))
      || (w in NegativeWords && (selected == "All" || selected == "negative"))
  {
  }

  /** 'All' yields the positive list followed by the negative list. */
  lemma AllSentimentWords()
    ensures SentimentWords(ExpandSentiment("All")) == PositiveWords + NegativeWords
  {
  }

  /** Whatever the sentiment dropdown says, no active word is listed twice. */
  lemma ActiveWordsDistinct(selectedSentiment: string)
    ensures NoDuplicates(SentimentWords(ExpandSentiment(selectedSentiment)))
  {
    KeywordsDistinct();
    KeywordListsDisjoint();
    var words := SentimentWords(ExpandSentiment(selectedSentiment));
    if selectedSentiment == "All" {
      AllSentimentWords();
      forall i, j | 0 <= i < j < |words| ensures words[i] != words[j] {
        if j >= |PositiveWords| && i < |PositiveWords| {
          assert words[i] in PositiveWords && words[j] in NegativeWords;
        }
      }
    }
  }

  /**
   * For any value the energy dropdown offers ('All' or one energy type) and
   * posts whose countries are not keywords, the node names are disjoint, the
   * energy selection has no repeats and is lower-case; so the node and edge
   * lemmas of NetworkProperties apply to every graph the page builds.
   */
  lemma PageSelectionsDisjoint(posts: seq<Record>, selectedEnergy: string, selectedSentiment: string)
    requires selectedEnergy == "All" || selectedEnergy in EnergyTypes
    requires forall r :: r in posts ==>
      r.country !in EnergyTypes && r.country !in PositiveWords && r.country !in NegativeWords
    ensures NamesDisjoint(ExpandEnergy(selectedEnergy), SentimentWords(ExpandSentiment(selectedSentiment)),
                          Countries(FilterPosts(posts, ExpandEnergy(selectedEnergy))))
    ensures NoDuplicates(ExpandEnergy(selectedEnergy))
    ensures NoDuplicates(SentimentWords(ExpandSentiment(selectedSentiment)))
    ensures forall e :: e in ExpandEnergy(selectedEnergy) ==> IsLower(e)
  {
    BuiltinKeywords();
    ActiveWordsDistinct(selectedSentiment);
    var es := ExpandEnergy(selectedEnergy);
    var words := SentimentWords(ExpandSentiment(selectedSentiment));
    var countries := Countries(FilterPosts(posts, es));
    forall c | c in countries ensures c !in es && c !in words {
      var r :| r in FilterPosts(posts, es) && r.country == c;
    }
  }

  /** The callback: expand both selections, then build the graph from the posts. */
  method UpdateGraph(posts: seq<Record>, selectedEnergy: string, selectedSentiment: string) returns (g: Graph)
    ensures fresh(g) && g.Valid()
    ensures g.nodes == ExpectedNodes(posts, ExpandEnergy(selectedEnergy), ExpandSentiment(selectedSentiment))
    ensures g.edges == ExpectedEdges(posts, ExpandEnergy(selectedEnergy), ExpandSentiment(selectedSentiment))
  {
    var energies := ExpandEnergy(selectedEnergy);
    var sentiments := ExpandSentiment(selectedSentiment);
    g := CreateNetworkGraph(posts, energies, sentiments);
  }
}
