/** Small worked graphs, stated as lemmas over the builder's specification. */
module Scenarios {
  import opened Text
  import opened Records
  import opened KeywordCounts
  import opened Graphs
  import opened Network

  /** A word with a character the text lacks does not occur in it. */
  lemma Absent(s: string, w: string, k: int)
    requires 0 <= k < |w| && w[k] !in s
    ensures !Contains(s, w)
  {
  }

  /** Counting over a single row. */
  lemma CountOneRow(r: Record, w: string)
    ensures CountMentioning([r], w) == if Mentions(r, w) then 1 else 0
  {
  }

  /** The node map in terms of the filtered rows and the active words. */
  lemma NodesOf(posts: seq<Record>, es: seq<string>, sents: seq<string>, filtered: seq<Record>, words: seq<string>)
    requires FilterPosts(posts, es) == filtered && SentimentWords(sents) == words
    ensures ExpectedNodes(posts, es, sents)
         == EnergyNodes(es, Frequency(filtered, es)) + CountryNodes(Countries(filtered))
          + WordNodes(words, Frequency(filtered, words))
  {
  }

  /** The edge set in terms of the filtered rows and the active words. */
  lemma EdgesOfFiltered(posts: seq<Record>, es: seq<string>, sents: seq<string>, filtered: seq<Record>, words: seq<string>)
    requires FilterPosts(posts, es) == filtered && SentimentWords(sents) == words
    ensures ExpectedEdges(posts, es, sents) == EdgesOf(filtered, es, words)
  {
  }

  /** A set holding `a` and `b` and nothing else. */
  lemma ExactlyTwo(edges: set<Edge>, a: Edge, b: Edge)
    requires a in edges && b in edges
    requires forall p :: p in edges ==> p == a || p == b
    ensures edges == {a, b}
  {
  }

  lemma OnlyPositive()
    ensures SentimentWords(["positive"]) == PositiveWords
  {
  }

  lemma OnlyNegative()
    ensures SentimentWords(["negative"]) == NegativeWords
  {
  }

  /** A single country gives a single country node. */
  lemma OneCountry(c: string)
    ensures CountryNodes({c}) == map[c := NodeAttrs(CountryKind, Blue, 600)]
  {
  }

  // ---- One row: "solar growth" from Australia, energy ["solar"], sentiment ["positive"].

  const SolarRow: Record := Record(Some("solar growth"), "Australia")

  lemma SolarRowText()
    ensures Lower(SolarRow.comment.value) == "solar growth"
  {
  }

  lemma SolarRowCountries()
    ensures Countries([SolarRow]) == {"Australia"}
  {
  }

  lemma SolarRowHas()
    ensures Mentions(SolarRow, "solar") && Mentions(SolarRow, "growth")
    ensures Selected(SolarRow, ["solar"])
  {
    var text := "solar growth";
    SolarRowText();
    LowerFixesExactlyLower("solar");
    assert OccursAt(text, "solar", 0);
    assert OccursAt(text, "growth", 6);
  }

  lemma SolarRowLacks()
    ensures !Mentions(SolarRow, "innovation") && !Mentions(SolarRow, "opportunity")
    ensures !Mentions(SolarRow, "progress") && !Mentions(SolarRow, "clean") && !Mentions(SolarRow, "advantage")
  {
    var text := "solar growth";
    SolarRowText();
    Absent(text, "innovation", 0);
    Absent(text, "opportunity", 1);
    Absent(text, "progress", 0);
    Absent(text, "clean", 0);
    Absent(text, "advantage", 1);
  }

  lemma SolarRowPositiveWords()
    ensures forall w :: w in PositiveWords ==> (Mentions(SolarRow, w) <==> w == "growth")
  {
    SolarRowHas();
    SolarRowLacks();
  }

  lemma SolarRowFilter()
    ensures FilterPosts([SolarRow], ["solar"]) == [SolarRow]
  {
    SolarRowHas();
    assert [SolarRow][..0] == [];
  }

  lemma SolarRowEnergyNodes()
    ensures EnergyNodes(["solar"], Frequency([SolarRow], ["solar"])) == map["solar" := NodeAttrs(EnergyKind, SkyBlue, 200)]
  {
    SolarRowHas();
    CountOneRow(SolarRow, "solar");
    assert multiset(["solar"])["solar"] == 1;
  }

  lemma SolarRowWordCounts()
    ensures forall w :: w in PositiveWords ==>
      Frequency([SolarRow], PositiveWords)[w] == if w == "growth" then 1 else 0
  {
    SolarRowPositiveWords();
    forall w | w in PositiveWords
      ensures Frequency([SolarRow], PositiveWords)[w] == if w == "growth" then 1 else 0
    {
      CountOneRow(SolarRow, w);
      if w == "growth" {
        SingleOccurrence(PositiveWords, "growth");
      }
    }
  }

  /** When exactly one listed word has a positive count, there is exactly one word node. */
  lemma SingleWordNode(ws: seq<string>, f: map<string, int>, w0: string)
    requires w0 in ws && w0 in f && f[w0] > 0
    requires forall w :: w in ws ==> w in f && (f[w] > 0 <==> w == w0)
    ensures WordNodes(ws, f) == map[w0 := WordNode(w0, f[w0])]
  {
  }

  lemma SolarRowWordNodes()
    ensures WordNodes(PositiveWords, Frequency([SolarRow], PositiveWords))
         == map["growth" := NodeAttrs(SentimentKind, Green, 150)]
  {
    SolarRowWordCounts();
    SingleWordNode(PositiveWords, Frequency([SolarRow], PositiveWords), "growth");
  }

  lemma SolarRowUnion(energy: map<string, NodeAttrs>, countries: map<string, NodeAttrs>, words: map<string, NodeAttrs>)
    requires energy == map["solar" := NodeAttrs(EnergyKind, SkyBlue, 200)]
    requires countries == map["Australia" := NodeAttrs(CountryKind, Blue, 600)]
    requires words == map["growth" := NodeAttrs(SentimentKind, Green, 150)]
    ensures var nodes := energy + countries + words;
      && nodes.Keys == {"solar", "Australia", "growth"}
      && nodes["solar"] == NodeAttrs(EnergyKind, SkyBlue, 200)
      && nodes["Australia"] == NodeAttrs(CountryKind, Blue, 600)
      && nodes["growth"] == NodeAttrs(SentimentKind, Green, 150)
  {
  }

  lemma SolarRowEdgesOnly(p: Edge)
    requires p in EdgesOf([SolarRow], ["solar"], PositiveWords)
    ensures p == Pair("solar", "Australia") || p == Pair("solar", "growth")
  {
    SolarRowPositiveWords();
  }

  lemma SolarRowSplit()
    ensures ExpectedNodes([SolarRow], ["solar"], ["positive"])
         == EnergyNodes(["solar"], Frequency([SolarRow], ["solar"]))
          + CountryNodes({"Australia"})
          + WordNodes(PositiveWords, Frequency([SolarRow], PositiveWords))
  {
    SolarRowFilter();
    OnlyPositive();
    NodesOf([SolarRow], ["solar"], ["positive"], [SolarRow], PositiveWords);
    SolarRowCountries();
  }

  lemma SolarRowNodes()
    ensures var nodes := ExpectedNodes([SolarRow], ["solar"], ["positive"]);
      && nodes.Keys == {"solar", "Australia", "growth"}
      && nodes["solar"] == NodeAttrs(EnergyKind, SkyBlue, 200)
      && nodes["Australia"] == NodeAttrs(CountryKind, Blue, 600)
      && nodes["growth"] == NodeAttrs(SentimentKind, Green, 150)
  {
    SolarRowSplit();
    SolarRowEnergyNodes();
    SolarRowWordNodes();
    OneCountry("Australia");
    SolarRowUnion(EnergyNodes(["solar"], Frequency([SolarRow], ["solar"])), CountryNodes({"Australia"}),
                  WordNodes(PositiveWords, Frequency([SolarRow], PositiveWords)));
  }

  lemma SolarRowEdgesIn()
    ensures Pair("solar", "Australia") in EdgesOf([SolarRow], ["solar"], PositiveWords)
    ensures Pair("solar", "growth") in EdgesOf([SolarRow], ["solar"], PositiveWords)
  {
    SolarRowHas();
    assert Pair("solar", SolarRow.country) in EdgesOf([SolarRow], ["solar"], PositiveWords);
  }

  lemma SolarRowEdges()
    ensures ExpectedEdges([SolarRow], ["solar"], ["positive"]) == {Pair("solar", "Australia"), Pair("solar", "growth")}
  {
    SolarRowFilter();
    OnlyPositive();
    EdgesOfFiltered([SolarRow], ["solar"], ["positive"], [SolarRow], PositiveWords);
    SolarRowEdgesIn();
    var edges := EdgesOf([SolarRow], ["solar"], PositiveWords);
    forall p | p in edges ensures p == Pair("solar", "Australia") || p == Pair("solar", "growth") {
      SolarRowEdgesOnly(p);
    }
    ExactlyTwo(edges, Pair("solar", "Australia"), Pair("solar", "growth"));
  }

  /**
   * One row "solar growth" from Australia, energy ["solar"], sentiment
   * ["positive"]: exactly three nodes (solar of size 200, Australia of size
   * 600, growth in green of size 150) and exactly two edges, solar–Australia
   * and solar–growth; in particular no growth–Australia edge.
   */
  lemma OneRowScenario()
    ensures var nodes := ExpectedNodes([SolarRow], ["solar"], ["positive"]);
      && nodes.Keys == {"solar", "Australia", "growth"}
      && nodes["solar"] == NodeAttrs(EnergyKind, SkyBlue, 200)
      && nodes["Australia"] == NodeAttrs(CountryKind, Blue, 600)
      && nodes["growth"] == NodeAttrs(SentimentKind, Green, 150)
    ensures ExpectedEdges([SolarRow], ["solar"], ["positive"]) == {Pair("solar", "Australia"), Pair("solar", "growth")}
  {
    SolarRowNodes();
    SolarRowEdges();
  }

  // ---- Two rows: "Wind power" and "wind farm", both from the UK, energy ["wind"], sentiment ["negative"].

  const WindRow1: Record := Record(Some("Wind power"), "UK")
  const WindRow2: Record := Record(Some("wind farm"), "UK")

  /** A text without 'c', 's' or 'l' contains no negative word. */
  lemma NoNegativeWord(t: string)
    requires 'c' !in t && 's' !in t && 'l' !in t
    ensures forall w :: w in NegativeWords ==> !Contains(t, w)
  {
    Absent(t, "crisis", 0);
    Absent(t, "loss", 0);
    Absent(t, "failure", 3);
    Absent(t, "challenge", 0);
    Absent(t, "risk", 2);
    Absent(t, "pollution", 2);
  }

  lemma WindRowsText()
    ensures Lower(WindRow1.comment.value) == "wind power"
    ensures Lower(WindRow2.comment.value) == "wind farm"
  {
  }

  lemma WindRowsCountries()
    ensures Countries([WindRow1, WindRow2]) == {"UK"}
  {
  }

  lemma WindRowsHave()
    ensures Mentions(WindRow1, "wind") && Mentions(WindRow2, "wind")
    ensures Selected(WindRow1, ["wind"]) && Selected(WindRow2, ["wind"])
  {
    var t1, t2 := "wind power", "wind farm";
    WindRowsText();
    LowerFixesExactlyLower("wind");
    assert OccursAt(t1, "wind", 0) && OccursAt(t2, "wind", 0);
  }

  lemma WindRowsLackNegative()
    ensures forall w :: w in NegativeWords ==> !Mentions(WindRow1, w) && !Mentions(WindRow2, w)
  {
    var t1, t2 := "wind power", "wind farm";
    WindRowsText();
    NoNegativeWord(t1);
    NoNegativeWord(t2);
  }

  lemma WindRowsCount(w: string)
    ensures CountMentioning([WindRow1, WindRow2], w)
         == (if Mentions(WindRow1, w) then 1 else 0) + (if Mentions(WindRow2, w) then 1 else 0)
  {
    assert [WindRow1, WindRow2][..1] == [WindRow1];
    CountOneRow(WindRow1, w);
  }

  lemma WindRowsFilter()
    ensures FilterPosts([WindRow1, WindRow2], ["wind"]) == [WindRow1, WindRow2]
  {
    WindRowsHave();
    assert [WindRow1, WindRow2][..1] == [WindRow1];
    assert [WindRow1][..0] == [];
  }

  lemma WindRowsEnergyNodes()
    ensures EnergyNodes(["wind"], Frequency([WindRow1, WindRow2], ["wind"]))
         == map["wind" := NodeAttrs(EnergyKind, SkyBlue, 300)]
  {
    WindRowsHave();
    WindRowsCount("wind");
    assert multiset(["wind"])["wind"] == 1;
  }

  lemma WindRowsWordNodes()
    ensures WordNodes(NegativeWords, Frequency([WindRow1, WindRow2], NegativeWords)) == map[]
  {
    WindRowsLackNegative();
    var f := Frequency([WindRow1, WindRow2], NegativeWords);
    forall w | w in NegativeWords ensures f[w] == 0 {
      WindRowsCount(w);
    }
    assert WordNodes(NegativeWords, f).Keys == {};
  }

  lemma WindRowsSplit()
    ensures ExpectedNodes([WindRow1, WindRow2], ["wind"], ["negative"])
         == EnergyNodes(["wind"], Frequency([WindRow1, WindRow2], ["wind"]))
          + CountryNodes({"UK"})
          + WordNodes(NegativeWords, Frequency([WindRow1, WindRow2], NegativeWords))
  {
    WindRowsFilter();
    OnlyNegative();
    NodesOf([WindRow1, WindRow2], ["wind"], ["negative"], [WindRow1, WindRow2], NegativeWords);
    WindRowsCountries();
  }

  lemma WindRowsUnion(energy: map<string, NodeAttrs>, countries: map<string, NodeAttrs>, words: map<string, NodeAttrs>)
    requires energy == map["wind" := NodeAttrs(EnergyKind, SkyBlue, 300)]
    requires countries == map["UK" := NodeAttrs(CountryKind, Blue, 600)]
    requires words == map[]
    ensures energy + countries + words
         == map["wind" := NodeAttrs(EnergyKind, SkyBlue, 300), "UK" := NodeAttrs(CountryKind, Blue, 600)]
  {
  }

  lemma WindRowsNodes()
    ensures ExpectedNodes([WindRow1, WindRow2], ["wind"], ["negative"])
         == map["wind" := NodeAttrs(EnergyKind, SkyBlue, 300), "UK" := NodeAttrs(CountryKind, Blue, 600)]
  {
    WindRowsSplit();
    WindRowsEnergyNodes();
    WindRowsWordNodes();
    OneCountry("UK");
    WindRowsUnion(EnergyNodes(["wind"], Frequency([WindRow1, WindRow2], ["wind"])), CountryNodes({"UK"}),
                  WordNodes(NegativeWords, Frequency([WindRow1, WindRow2], NegativeWords)));
  }

  lemma WindRowsEdgesOnly(p: Edge)
    requires p in EdgesOf([WindRow1, WindRow2], ["wind"], NegativeWords)
    ensures p == Pair("wind", "UK")
  {
    WindRowsLackNegative();
  }

  lemma WindRowsEdges()
    ensures ExpectedEdges([WindRow1, WindRow2], ["wind"], ["negative"]) == {Pair("wind", "UK")}
  {
    WindRowsFilter();
    WindRowsHave();
    OnlyNegative();
    var edges := EdgesOf([WindRow1, WindRow2], ["wind"], NegativeWords);
    assert Pair("wind", WindRow1.country) in edges;
    forall p | p in edges ensures p == Pair("wind", "UK") {
      WindRowsEdgesOnly(p);
    }
  }

  /**
   * Two rows mentioning "wind" (one of them capitalised), both from the UK, with
   * no negative word present: one energy node of count 2 and size 300, one
   * country node of size 600, no word node, and a single wind–UK edge although
   * two rows produce it.
   */
  lemma TwoRowScenario()
    ensures ExpectedNodes([WindRow1, WindRow2], ["wind"], ["negative"])
         == map["wind" := NodeAttrs(EnergyKind, SkyBlue, 300), "UK" := NodeAttrs(CountryKind, Blue, 600)]
    ensures ExpectedEdges([WindRow1, WindRow2], ["wind"], ["negative"]) == {Pair("wind", "UK")}
  {
    WindRowsNodes();
    WindRowsEdges();
  }
}
