/**
 * `create_network_graph`: the co-occurrence graph of energy sources,
 * countries and sentiment words over the comments that mention a selected
 * energy source.
 */
module Network {
  import opened Text
  import opened Records
  import opened KeywordCounts
  import opened Graphs

  const EnergyTypes: seq<string> := ["solar", "wind", "hydropower"]
  const PositiveWords: seq<string> := ["growth", "innovation", "opportunity", "progress", "clean", "advantage"]
  const NegativeWords: seq<string> := ["crisis", "loss", "failure", "challenge", "risk", "pollution"]

  /** Size policy: energy nodes scale by 150 with a floor of 200, word nodes by 100 with a floor of 150. */
  const EnergyScale := 150
  const EnergyMinSize := 200
  const CountrySize := 600
  const WordScale := 100
  const WordMinSize := 150

  function Max(a: int, b: int): (m: int)
    ensures m >= a && m >= b && (m == a || m == b)
  {
    if a >= b then a else b
  }

  /** The sentiment words in play: the positive list if 'positive' is selected, then the negative list if 'negative' is. */
  function SentimentWords(selectedSentiments: seq<string>): (words: seq<string>)
    ensures forall w :: w in words <==>
      ("positive" in selectedSentiments && w in PositiveWords) || ("negative" in selectedSentiments && w in NegativeWords)
    ensures |words| <= |PositiveWords| + |NegativeWords|
  {
    (if "positive" in selectedSentiments then PositiveWords else [])
    + (if "negative" in selectedSentiments then NegativeWords else [])
  }

  /**
   * The row filter `comment.str.contains('|'.join(selected), case=False, na=False)`:
   * a missing comment is dropped; an empty selection joins to the empty pattern,
   * which matches every comment; otherwise some selected keyword must occur,
   * ignoring case. Keywords are taken as literal text.
   */
  predicate Selected(r: Record, selectedEnergy: seq<string>) {
    r.comment.Some? &&
    (selectedEnergy == [] ||
     exists e :: e in selectedEnergy && Contains(Lower(r.comment.value), Lower(e)))
  }

  /** The filtered rows, in their original order. */
  function FilterPosts(posts: seq<Record>, selectedEnergy: seq<string>): (filtered: seq<Record>)
    ensures |filtered| <= |posts|
    ensures forall r :: r in filtered <==> r in posts && Selected(r, selectedEnergy)
  {
    if posts == [] then []
    else
      var n := |posts| - 1;
      var rest := FilterPosts(posts[..n], selectedEnergy);
      assert posts == posts[..n] + [posts[n]];
      if Selected(posts[n], selectedEnergy) then rest + [posts[n]] else rest
  }

  /** The filter keeps every copy of a selected row and no copy of any other: rows are not deduplicated. */
  lemma {:induction false} FilterKeepsMultiplicity(posts: seq<Record>, selectedEnergy: seq<string>, r: Record)
    ensures multiset(FilterPosts(posts, selectedEnergy))[r]
         == if Selected(r, selectedEnergy) then multiset(posts)[r] else 0
  {
    if posts != [] {
      var n := |posts| - 1;
      assert posts == posts[..n] + [posts[n]];
      FilterKeepsMultiplicity(posts[..n], selectedEnergy, r);
    }
  }

  /** The countries of some rows. */
  function Countries(rs: seq<Record>): set<string> {
    set r | r in rs :: r.country
  }

  /** `df['Country'].unique()`: each country once, in order of first appearance. */
  function UniqueCountries(rs: seq<Record>): (cs: seq<string>)
    ensures forall c :: c in cs <==> c in Countries(rs)
    ensures NoDuplicates(cs)
  {
    if rs == [] then []
    else
      var n := |rs| - 1;
      var rest := UniqueCountries(rs[..n]);
      assert rs == rs[..n] + [rs[n]];
      if rs[n].country in rest then rest else rest + [rs[n].country]
  }

  function EnergyNode(count: int): NodeAttrs {
    NodeAttrs(EnergyKind, SkyBlue, Max(count * EnergyScale, EnergyMinSize))
  }

  const CountryNode: NodeAttrs := NodeAttrs(CountryKind, Blue, CountrySize)

  function WordNode(w: string, count: int): NodeAttrs {
    NodeAttrs(SentimentKind, if w in PositiveWords then Green else Red, Max(count * WordScale, WordMinSize))
  }

  /** One node per listed energy keyword whose count is positive. */
  function EnergyNodes(es: seq<string>, freq: map<string, int>): map<string, NodeAttrs> {
    map e | e in es && e in freq && freq[e] > 0 :: EnergyNode(freq[e])
  }

  /** One node per listed country. */
  function CountryNodes(cs: set<string>): map<string, NodeAttrs> {
    map c | c in cs :: CountryNode
  }

  /** One node per listed sentiment word whose count is positive. */
  function WordNodes(ws: seq<string>, freq: map<string, int>): map<string, NodeAttrs> {
    map w | w in ws && w in freq && freq[w] > 0 :: WordNode(w, freq[w])
  }

  /**
   * The node map of the built graph. Energy, country and word nodes are added
   * in that order and a later `add_node` on the same name replaces the
   * attributes, hence the right-biased map unions.
   */
  function ExpectedNodes(posts: seq<Record>, selectedEnergy: seq<string>, selectedSentiments: seq<string>): map<string, NodeAttrs> {
    var filtered := FilterPosts(posts, selectedEnergy);
    var words := SentimentWords(selectedSentiments);
    EnergyNodes(selectedEnergy, Frequency(filtered, selectedEnergy))
    + CountryNodes(Countries(filtered))
    + WordNodes(words, Frequency(filtered, words))
  }

  /** The edges one row contributes: energy–country, and energy–word for every word in the same comment. */
  function RecordEdges(r: Record, es: seq<string>, words: seq<string>): set<Edge> {
    (set e | e in es && Mentions(r, e) :: Pair(e, r.country))
    + (set e, w | e in es && w in words && Mentions(r, e) && Mentions(r, w) :: Pair(e, w))
  }

  /** The energy–word edges of one row for one energy keyword. */
  function WordEdges(r: Record, e: string, words: seq<string>): set<Edge> {
    set w | w in words && Mentions(r, w) :: Pair(e, w)
  }

  /** All co-occurrence edges of some rows. */
  function EdgesOf(rs: seq<Record>, es: seq<string>, words: seq<string>): set<Edge> {
    (set r, e | r in rs && e in es && Mentions(r, e) :: Pair(e, r.country))
    + (set r, e, w | r in rs && e in es && w in words && Mentions(r, e) && Mentions(r, w) :: Pair(e, w))
  }

  /** The edge set of the built graph. */
  function ExpectedEdges(posts: seq<Record>, selectedEnergy: seq<string>, selectedSentiments: seq<string>): set<Edge> {
    EdgesOf(FilterPosts(posts, selectedEnergy), selectedEnergy, SentimentWords(selectedSentiments))
  }

  lemma EdgesOfStep(rs: seq<Record>, r: Record, es: seq<string>, words: seq<string>)
    ensures EdgesOf(rs + [r], es, words) == EdgesOf(rs, es, words) + RecordEdges(r, es, words)
  {
  }

  lemma RecordEdgesStep(r: Record, es: seq<string>, e: string, words: seq<string>)
    ensures RecordEdges(r, es + [e], words)
         == RecordEdges(r, es, words) + (if Mentions(r, e) then {Pair(e, r.country)} + WordEdges(r, e, words) else {})
  {
  }

  lemma WordEdgesStep(r: Record, e: string, words: seq<string>, w: string)
    ensures WordEdges(r, e, words + [w]) == WordEdges(r, e, words) + (if Mentions(r, w) then {Pair(e, w)} else {})
  {
  }

  /** Every endpoint of a co-occurrence edge of a filtered row has a node. */
  lemma RowEndpointsHaveNodes(posts: seq<Record>, selectedEnergy: seq<string>, selectedSentiments: seq<string>, r: Record)
    requires r in FilterPosts(posts, selectedEnergy)
    ensures r.country in ExpectedNodes(posts, selectedEnergy, selectedSentiments)
    ensures forall e :: e in selectedEnergy && Mentions(r, e) ==>
      e in ExpectedNodes(posts, selectedEnergy, selectedSentiments)
    ensures forall w :: w in SentimentWords(selectedSentiments) && Mentions(r, w) ==>
      w in ExpectedNodes(posts, selectedEnergy, selectedSentiments)
  {
    var filtered := FilterPosts(posts, selectedEnergy);
    var words := SentimentWords(selectedSentiments);
    assert r.country in Countries(filtered);
    forall e | e in selectedEnergy && Mentions(r, e)
      ensures e in EnergyNodes(selectedEnergy, Frequency(filtered, selectedEnergy))
    {
      FrequencyPositiveIff(filtered, selectedEnergy, e);
    }
    forall w | w in words && Mentions(r, w)
      ensures w in WordNodes(words, Frequency(filtered, words))
    {
      FrequencyPositiveIff(filtered, words, w);
    }
  }

  /** One more keyword adds its energy node when its count is positive. */
  lemma EnergyNodesStep(base: map<string, NodeAttrs>, es: seq<string>, e: string, freq: map<string, int>)
    ensures base + EnergyNodes(es + [e], freq)
         == if e in freq && freq[e] > 0 then (base + EnergyNodes(es, freq))[e := EnergyNode(freq[e])]
            else base + EnergyNodes(es, freq)
  {
  }

  /** One more sentiment word adds its node when its count is positive. */
  lemma WordNodesStep(base: map<string, NodeAttrs>, ws: seq<string>, w: string, freq: map<string, int>)
    ensures base + WordNodes(ws + [w], freq)
         == if w in freq && freq[w] > 0 then (base + WordNodes(ws, freq))[w := WordNode(w, freq[w])]
            else base + WordNodes(ws, freq)
  {
  }

  /** The endpoints of every co-occurrence edge of the filtered rows have nodes. */
  lemma FilteredEndpointsHaveNodes(posts: seq<Record>, selectedEnergy: seq<string>, selectedSentiments: seq<string>)
    ensures var filtered, nodes := FilterPosts(posts, selectedEnergy), ExpectedNodes(posts, selectedEnergy, selectedSentiments);
      && (forall r :: r in filtered ==> r.comment.Some? && r.country in nodes)
      && (forall r, e :: r in filtered && e in selectedEnergy && Mentions(r, e) ==> e in nodes)
      && (forall r, w :: r in filtered && w in SentimentWords(selectedSentiments) && Mentions(r, w) ==> w in nodes)
  {
    forall r | r in FilterPosts(posts, selectedEnergy)
      ensures r.country in ExpectedNodes(posts, selectedEnergy, selectedSentiments)
      ensures forall e :: e in selectedEnergy && Mentions(r, e) ==>
        e in ExpectedNodes(posts, selectedEnergy, selectedSentiments)
      ensures forall w :: w in SentimentWords(selectedSentiments) && Mentions(r, w) ==>
        w in ExpectedNodes(posts, selectedEnergy, selectedSentiments)
    {
      RowEndpointsHaveNodes(posts, selectedEnergy, selectedSentiments, r);
    }
  }

  /** The first node loop: an energy node for each selected keyword with a positive count. */
  method AddEnergyNodes(g: Graph, selectedEnergy: seq<string>, energyFrequency: map<string, int>)
    requires g.Valid()
    modifies g
    ensures g.Valid() && g.edges == old(g.edges)
    ensures g.nodes == old(g.nodes) + EnergyNodes(selectedEnergy, energyFrequency)
  {
    for j := 0 to |selectedEnergy|
      invariant g.Valid() && g.edges == old(g.edges)
      invariant g.nodes == old(g.nodes) + EnergyNodes(selectedEnergy[..j], energyFrequency)
    {
      var energy := selectedEnergy[j];
      assert selectedEnergy[..j + 1] == selectedEnergy[..j] + [energy];
      EnergyNodesStep(old(g.nodes), selectedEnergy[..j], energy, energyFrequency);
      if energy in energyFrequency && energyFrequency[energy] > 0 {
        g.AddNode(energy, EnergyNode(energyFrequency[energy]));
      }
    }
    assert selectedEnergy[..|selectedEnergy|] == selectedEnergy;
  }

  /** The second node loop: a country node, of fixed size, for each listed country. */
  method AddCountryNodes(g: Graph, countries: seq<string>)
    requires g.Valid()
    modifies g
    ensures g.Valid() && g.edges == old(g.edges)
    ensures g.nodes == old(g.nodes) + CountryNodes(set c | c in countries)
  {
    for k := 0 to |countries|
      invariant g.Valid() && g.edges == old(g.edges)
      invariant g.nodes == old(g.nodes) + CountryNodes(set c | c in countries[..k])
    {
      assert countries[..k + 1] == countries[..k] + [countries[k]];
      g.AddNode(countries[k], CountryNode);
    }
    assert countries[..|countries|] == countries;
  }

  /** The third node loop: a word node for each sentiment word with a positive count. */
  method AddWordNodes(g: Graph, words: seq<string>, sentimentFrequency: map<string, int>)
    requires g.Valid()
    modifies g
    ensures g.Valid() && g.edges == old(g.edges)
    ensures g.nodes == old(g.nodes) + WordNodes(words, sentimentFrequency)
  {
    for k := 0 to |words|
      invariant g.Valid() && g.edges == old(g.edges)
      invariant g.nodes == old(g.nodes) + WordNodes(words[..k], sentimentFrequency)
    {
      var word := words[k];
      assert words[..k + 1] == words[..k] + [word];
      WordNodesStep(old(g.nodes), words[..k], word, sentimentFrequency);
      if word in sentimentFrequency && sentimentFrequency[word] > 0 {
        g.AddNode(word, WordNode(word, sentimentFrequency[word]));
      }
    }
    assert words[..|words|] == words;
  }

  /** The edges of one row and one energy keyword found in its comment. */
  method AddEnergyEdges(g: Graph, row: Record, energy: string, words: seq<string>)
    requires g.Valid() && row.comment.Some?
    requires energy in g.nodes && row.country in g.nodes
    requires forall w :: w in words && Mentions(row, w) ==> w in g.nodes
    modifies g
    ensures g.Valid() && g.nodes == old(g.nodes)
    ensures g.edges == old(g.edges) + {Pair(energy, row.country)} + WordEdges(row, energy, words)
  {
    var comment := Lower(row.comment.value);
    g.AddEdge(energy, row.country);
    for k := 0 to |words|
      invariant g.Valid() && g.nodes == old(g.nodes)
      invariant g.edges == old(g.edges) + {Pair(energy, row.country)} + WordEdges(row, energy, words[..k])
    {
      var word := words[k];
      WordEdgesStep(row, energy, words[..k], word);
      assert words[..k + 1] == words[..k] + [word];
      if Contains(comment, word) {
        g.AddEdge(energy, word);
      }
    }
    assert words[..|words|] == words;
  }

  /** The edges of one row: for every selected keyword in its comment, energy–country and energy–word. */
  method AddRowEdges(g: Graph, row: Record, selectedEnergy: seq<string>, words: seq<string>)
    requires g.Valid() && row.comment.Some?
    requires row.country in g.nodes
    requires forall e :: e in selectedEnergy && Mentions(row, e) ==> e in g.nodes
    requires forall w :: w in words && Mentions(row, w) ==> w in g.nodes
    modifies g
    ensures g.Valid() && g.nodes == old(g.nodes)
    ensures g.edges == old(g.edges) + RecordEdges(row, selectedEnergy, words)
  {
    var comment := Lower(row.comment.value);
    for j := 0 to |selectedEnergy|
      invariant g.Valid() && g.nodes == old(g.nodes)
      invariant g.edges == old(g.edges) + RecordEdges(row, selectedEnergy[..j], words)
    {
      var energy := selectedEnergy[j];
      RecordEdgesStep(row, selectedEnergy[..j], energy, words);
      assert selectedEnergy[..j + 1] == selectedEnergy[..j] + [energy];
      if Contains(comment, energy) {
        AddEnergyEdges(g, row, energy, words);
      }
    }
    assert selectedEnergy[..|selectedEnergy|] == selectedEnergy;
  }

  /** The edge loop over the rows, in order. */
  method AddCooccurrenceEdges(g: Graph, rows: seq<Record>, selectedEnergy: seq<string>, words: seq<string>)
    requires g.Valid()
    requires forall r :: r in rows ==> r.comment.Some? && r.country in g.nodes
    requires forall r, e :: r in rows && e in selectedEnergy && Mentions(r, e) ==> e in g.nodes
    requires forall r, w :: r in rows && w in words && Mentions(r, w) ==> w in g.nodes
    modifies g
    ensures g.Valid() && g.nodes == old(g.nodes)
    ensures g.edges == old(g.edges) + EdgesOf(rows, selectedEnergy, words)
  {
    for i := 0 to |rows|
      invariant g.Valid() && g.nodes == old(g.nodes)
      invariant g.edges == old(g.edges) + EdgesOf(rows[..i], selectedEnergy, words)
    {
      var row := rows[i];
      assert row in rows;
      EdgesOfStep(rows[..i], row, selectedEnergy, words);
      assert rows[..i + 1] == rows[..i] + [row];
      AddRowEdges(g, row, selectedEnergy, words);
    }
    assert rows[..|rows|] == rows;
  }

  /** The three node loops of the build, on a graph without nodes: the counts, then energy, country and word nodes. */
  method AddNodes(g: Graph, posts: seq<Record>, selectedEnergy: seq<string>, selectedSentiments: seq<string>)
    requires g.Valid() && g.nodes == map[]
    modifies g
    ensures g.Valid() && g.edges == old(g.edges)
    ensures g.nodes == ExpectedNodes(posts, selectedEnergy, selectedSentiments)
  {
    var words := SentimentWords(selectedSentiments);
    var filtered := FilterPosts(posts, selectedEnergy);
    var energyFrequency := CalculateFrequency(filtered, selectedEnergy);
    var sentimentFrequency := CalculateFrequency(filtered, words);

    AddEnergyNodes(g, selectedEnergy, energyFrequency);
    assert g.nodes == EnergyNodes(selectedEnergy, energyFrequency) by {
      assert map[] + EnergyNodes(selectedEnergy, energyFrequency) == EnergyNodes(selectedEnergy, energyFrequency);
    }
    var countries := UniqueCountries(filtered);
    AddCountryNodes(g, countries);
    assert (set c | c in countries) == Countries(filtered);
    AddWordNodes(g, words, sentimentFrequency);
    assert ExpectedNodes(posts, selectedEnergy, selectedSentiments)
        == EnergyNodes(selectedEnergy, energyFrequency) + CountryNodes(Countries(filtered))
           + WordNodes(words, sentimentFrequency);
  }

  /** Builds the graph: energy nodes, country nodes, word nodes, then the co-occurrence edges row by row. */
  method CreateNetworkGraph(posts: seq<Record>, selectedEnergy: seq<string>, selectedSentiments: seq<string>)
    returns (g: Graph)
    ensures fresh(g) && g.Valid()
    ensures g.nodes == ExpectedNodes(posts, selectedEnergy, selectedSentiments)
    ensures g.edges == ExpectedEdges(posts, selectedEnergy, selectedSentiments)
  {
    g := new Graph();
    AddNodes(g, posts, selectedEnergy, selectedSentiments);
    FilteredEndpointsHaveNodes(posts, selectedEnergy, selectedSentiments);
    AddCooccurrenceEdges(g, FilterPosts(posts, selectedEnergy), selectedEnergy, SentimentWords(selectedSentiments));
  }
}
