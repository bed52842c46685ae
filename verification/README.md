# Energy-comment co-occurrence network, modelled in Dafny

This page of the dashboard builds a co-occurrence graph from Reddit comments
about energy, and this project models how it does so. The user picks an
energy source (`solar`, `wind`, `hydropower` or `All`) and a sentiment
(`positive`, `negative` or `All`). The page then:

1. expands the two dropdown values into lists (`update_graph`);
2. keeps the posts whose comment contains a selected energy keyword, ignoring
   case;
3. counts, for every energy keyword and every active sentiment word, how many
   of the kept comments contain it (`calculate_frequency`);
4. adds three kinds of nodes to a networkx graph:
   - energy nodes: sky blue, sized `max(150 * count, 200)`;
   - country nodes: blue, size 600;
   - sentiment-word nodes: green for positive words, red for negative ones,
     sized `max(100 * count, 150)`;
5. adds undirected edges, row by row:
   - energy–country for each energy keyword the row's comment contains;
   - energy–word for each sentiment word in the same comment.

The model keeps the source's form:

- `calculate_frequency` is a method with the same nested loops, proved equal
  to a declarative count.
- The networkx graph is a class `Graph` with a node map and an edge set, which
  `add_node` and `add_edge` update in place.
- `create_network_graph` is a method whose three node loops and nested edge
  loop follow the source. It is proved to produce exactly the node map
  `ExpectedNodes` and the edge set `ExpectedEdges`, both defined declaratively.

The properties of the graph are proved as lemmas about those two functions:
- which names become nodes;
- the kind, colour and size of each node;
- the shape of every edge;
- that every edge endpoint is a node;
- that edges form a set.

Two small concrete graphs are worked out in `scenarios.dfy`.

Modules, one per file:

- `Text` (`text.dfy`): lower-casing and Python's substring test `w in s`.
- `Records` (`records.dfy`): a post row with its optional comment and its country, and counting the rows that mention a word.
- `KeywordCounts` (`frequency.dfy`): `calculate_frequency`.
- `Graphs` (`graph.dfy`): the part of the networkx `Graph` that is used.
- `Network` (`network.dfy`): the keyword lists, the row filter, the expected nodes and edges, and the builder methods.
- `NetworkProperties` (`network_properties.dfy`): what the built graph guarantees.
- `Selection` (`selection.dfy`): `update_graph`'s dropdown expansion.
- `Scenarios` (`scenarios.dfy`): worked examples.

Modelling decisions:

- A comment is `Option<string>`; `None` is a missing value (pandas NaN). A
  missing comment is dropped by the filter (`na=False`) and skipped by the
  counter (`dropna()`).
- The filter `str.contains('|'.join(selected), case=False, na=False)` is
  modelled as follows:
  - a row is kept when its comment is present and some selected keyword occurs
    in it, with both sides lower-cased;
  - an empty selection joins to the empty pattern, which matches every present
    comment, and the model does the same. `update_graph` never passes an empty
    list (`Selection.ExpandEnergy` is never empty).
- `calculate_frequency` adds one per position of a word in the list. A word
  listed twice is therefore counted twice per comment. `Frequency` states
  this as `multiset(words)[w] * CountMentioning(rows, w)`. For a list without
  repeats this is the plain count (`FrequencyOfDistinctWord`). Every list
  the page builds has no repeats (`PageSelectionsDisjoint`).
- networkx `add_node` on an existing name updates its attributes. The model
  keeps this, as a map update. So the node map is the right-biased union of
  the energy, country and word nodes, in the order the loops add them. The
  code does nothing to keep names apart. The lemmas about node kinds take
  disjoint names (`NamesDisjoint`) as a hypothesis. `PageSelectionsDisjoint`
  shows the page's own keyword lists meet it whenever no country is itself a
  keyword.
- An undirected edge is the set of its two endpoints, so re-adding a pair in
  either order changes nothing.

## Model

| member | source | states |
|---|---|---|
| Text.LowerChar | pages/network.py:42 | lower-casing maps `A`–`Z` to `a`–`z` and keeps every other character; the result is never an upper-case letter |
| Text.LowerFixesExactlyLower | pages/network.py:42 | a lower-cased string has no upper-case letter, and lower-casing leaves a string unchanged exactly when it has none |
| Records.CountIsNumberOfMentioningRows | pages/network.py:41-46 | the count for a word is exactly the number of rows whose present, lower-cased comment contains it |
| Records.CountBoundedByNonMissing | pages/network.py:41-46 | a count never exceeds the number of present comments, so missing comments contribute nothing |
| Records.CountAppend | pages/network.py:41-46 | counting over two concatenated row sequences adds the two counts |
| Records.CountPositiveWhenMentioned | pages/network.py:43-45 | a row whose comment contains the word makes the count positive |
| Records.CountPositiveHasWitness | pages/network.py:43-45 | a positive count has a row whose comment contains the word |
| KeywordCounts.Frequency | pages/network.py:39-40 | the dictionary has exactly one key per requested word, no other key, and no negative entry |
| KeywordCounts.CalculateFrequency | pages/network.py:39-46 | the nested loop over present comments and words returns exactly `Frequency(rows, words)`: starting from 0, each word's entry is its number of listings times the number of present comments containing it |
| KeywordCounts.FrequencyOfDistinctWord | pages/network.py:39-46 | for a list without repeats, a word's entry is the number of present comments containing it, and so is at most the number of present comments |
| KeywordCounts.FrequencyPositiveIff | pages/network.py:41-46 | an entry is positive if and only if some row's comment contains the word |
| KeywordCounts.FrequencyMonotone | pages/network.py:41-46 | appending rows never lowers an entry |
| Graphs.Pair | pages/network.py:91 | an undirected edge holds both endpoints and nothing else |
| Graphs.PairSymmetric | pages/network.py:50 | `(u, v)` and `(v, u)` are the same edge of the undirected graph |
| Graphs.Graph.constructor | pages/network.py:50 | `nx.Graph()` has no nodes and no edges |
| Graphs.Graph.AddNode | pages/network.py:70 | `add_node` sets the node's attributes, replacing those of a node of the same name, and leaves the edges and the endpoint invariant as they were |
| Graphs.Graph.AddEdge | pages/network.py:91 | `add_edge` adds the unordered pair and changes no node; re-adding a pair already present, in either order, leaves the edge set unchanged |
| Network.Max | pages/network.py:69 | the larger of two integers |
| Network.SentimentWords | pages/network.py:53-57 | a word is active if and only if it is positive with 'positive' selected or negative with 'negative' selected; the list is at most both lists long |
| Network.FilterPosts | pages/network.py:60 | a row is kept if and only if it is a post with a present comment that contains a selected keyword ignoring case, or, for an empty selection, any present comment; no more rows than the input |
| Network.FilterKeepsMultiplicity | pages/network.py:60 | the filter keeps every copy of a selected row and drops every copy of any other row, so repeated rows still count repeatedly |
| Network.UniqueCountries | pages/network.py:73 | `unique()` lists exactly the countries of the rows, each once |
| Network.EdgesOfStep | pages/network.py:84-96 | the edges of one more row are the earlier edges plus that row's own edges |
| Network.RowEndpointsHaveNodes | pages/network.py:84-96 | every kept row's country, every selected keyword in its comment and every active word in its comment has a node |
| Network.FilteredEndpointsHaveNodes | pages/network.py:84-96 | the same for all kept rows at once: the edge loop only joins names that are already nodes |
| Network.AddEnergyNodes | pages/network.py:67-70 | the energy loop adds a node `max(150 * count, 200)`, sky blue, for exactly the listed keywords with a positive count, and adds no edge |
| Network.AddCountryNodes | pages/network.py:73-74 | the country loop adds a blue node of size 600 for exactly the listed countries, and adds no edge |
| Network.AddWordNodes | pages/network.py:77-81 | the word loop adds a node `max(100 * count, 150)`, green or red, for exactly the listed words with a positive count, and adds no edge |
| Network.AddEnergyEdges | pages/network.py:89-96 | for one row and one keyword in its comment, the graph gains the energy–country edge and one energy–word edge per active word in the comment |
| Network.AddRowEdges | pages/network.py:84-96 | one row adds exactly its own edges and no node |
| Network.AddCooccurrenceEdges | pages/network.py:84-96 | the loop over the kept rows adds exactly the co-occurrence edges of all of them and no node |
| Network.AddNodes | pages/network.py:59-81 | the counting and the three node loops leave exactly the node map `ExpectedNodes` |
| Network.CreateNetworkGraph | pages/network.py:49-96 | the built graph's nodes are exactly `ExpectedNodes` and its edges exactly `ExpectedEdges`, and every edge joins two nodes |
| NetworkProperties.NodeAt | pages/network.py:66-81 | a name is a node if and only if some loop adds it, and the last loop to add it decides its attributes |
| NetworkProperties.NodeNames | pages/network.py:66-81 | a name is a node if and only if it is a selected keyword contained in a kept comment, a country of a kept row, or an active word contained in a kept comment |
| NetworkProperties.EnergyNodeKeys | pages/network.py:67-68 | a listed keyword gets an energy node if and only if some row's comment contains it |
| NetworkProperties.WordNodeKeys | pages/network.py:77-78 | a listed word gets a word node if and only if some row's comment contains it |
| NetworkProperties.SizeAndColourPolicy | pages/network.py:66-81 | whatever the names, every energy node is sky blue and at least 200, every country node is blue and 600, and every word node is at least 150 and green exactly for a positive word, red otherwise |
| NetworkProperties.EnergyNodeShape | pages/network.py:67-70 | with disjoint names, a name is an energy node if and only if it is a selected keyword some kept comment contains; its size is `max(150 * count, 200)` with a positive count, so at least 200 and exactly `150 * count` from a count of 2 on |
| NetworkProperties.EnergyCountIsPostCount | pages/network.py:60-64 | for a selection without repeats, a lower-case keyword's count over the kept rows equals its count over all posts |
| NetworkProperties.FilterKeepsMentions | pages/network.py:60 | the filter never drops a row whose comment contains a selected lower-case keyword |
| NetworkProperties.CountryNodeShape | pages/network.py:73-74 | with disjoint names, a name is a country node if and only if it is the country of a kept row, and that node is blue with size 600 however many rows share it |
| NetworkProperties.WordNodeShape | pages/network.py:77-81 | a name is a word node if and only if it is an active word some kept comment contains; it is green for a positive word and red otherwise, sized `max(100 * count, 150)` with a positive count |
| NetworkProperties.EdgeEndpointsAreNodes | pages/network.py:84-96 | every edge endpoint is a node of the graph |
| NetworkProperties.EdgeOrigins | pages/network.py:84-96 | every edge joins a selected keyword contained in a kept comment to that row's country or to an active word in the same comment |
| NetworkProperties.EdgeKinds | pages/network.py:84-96 | with disjoint names an edge has two distinct endpoints, exactly one of which is an energy node; there is no energy–energy, country–word or self-loop edge |
| NetworkProperties.RepeatedRowAddsNoEdge | pages/network.py:84-96 | a further row repeating one already seen adds no edge |
| NetworkProperties.EmptyUniverse | pages/network.py:49-96 | when no row survives the filter the graph has no nodes and no edges |
| NetworkProperties.EnergySizeMonotone | pages/network.py:69 | a larger count never gives a smaller energy node |
| NetworkProperties.WordSizeMonotone | pages/network.py:79 | a larger count never gives a smaller word node |
| Selection.ExpandEnergy | pages/network.py:273-276 | 'All' becomes the three energy types and any other value a one-element list; never empty |
| Selection.ExpandSentiment | pages/network.py:278-281 | 'All' becomes both sentiment categories and any other value a one-element list; never empty |
| Selection.BuiltinKeywords | pages/network.py:34-36 | the built-in keyword lists are lower-case, have no repeats and share no word |
| Selection.ExpandedEnergyFilter | pages/network.py:273-276 | after expansion a row is kept if and only if its comment is present and contains an energy type ('All') or the chosen value, ignoring case |
| Selection.ExpandedSentimentWords | pages/network.py:278-281 | a word is active if and only if it is positive with 'All' or 'positive' chosen, or negative with 'All' or 'negative' chosen |
| Selection.AllSentimentWords | pages/network.py:278-281 | 'All' activates the positive list followed by the negative list |
| Selection.ActiveWordsDistinct | pages/network.py:278-281 | whatever the sentiment value, the active word list has no repeats |
| Selection.PageSelectionsDisjoint | pages/network.py:271-284 | for every energy value the dropdown offers, and posts whose countries are not keywords, node names are disjoint, and neither the energy selection nor the active word list has repeats; so the node and edge lemmas hold for every graph the page builds, and each count is the plain number of kept comments |
| Selection.UpdateGraph | pages/network.py:271-284 | the callback builds the graph of the expanded selections, with exactly the expected nodes and edges |
| Scenarios.OneRowScenario | pages/network.py:49-96 | the single row "solar growth" from Australia, under `solar`/`positive`, yields exactly the nodes solar (200), Australia (600) and growth (green, 150), and exactly the edges solar–Australia and solar–growth |
| Scenarios.TwoRowScenario | pages/network.py:49-96 | two UK rows "Wind power" and "wind farm", under `wind`/`negative`, yield the node wind of size 300 and the node UK of size 600, no word node, and the single edge wind–UK |

## Left out

- The spring layout `nx.spring_layout(G, k=1.2, seed=42)` (pages/network.py:99) is left out. It is a floating-point force simulation inside networkx.
- VADER sentiment scoring (pages/network.py:19-31) is left out. It is an NLTK call returning floats, and the graph does not use it.
- Reading the CSV file and drawing the 20% random sample (pages/network.py:14-17) are left out. They are I/O and randomness; the model takes the sampled posts as a parameter.
- The Plotly figure, the page layout and the other pages (`app.py` and the rest of `pages/`) are not part of this model. They are rendering and UI.
- Text.LowerChar: lower-cases ASCII letters only. Python's `str.lower()` also folds non-ASCII letters, so a non-ASCII keyword could match differently.
- Network.Selected: takes the selected keywords as literal text. The source joins them into a regular expression. The keywords the page offers contain no metacharacters, so the two agree on them.
- Graphs.Graph.AddEdge: requires both endpoints to be nodes already. networkx would create a missing endpoint as a bare node. `Network.FilteredEndpointsHaveNodes` proves the builder never relies on this.
- Node insertion order is not kept: nodes are a map. networkx keeps insertion order, and that order only influences the layout.
- A missing country (NaN) is not modelled: a row's country is always a string.
- A missing dropdown value (`None`) is not modelled: the dropdown values are strings.
