# Quartet tree graph and search-box components, modelled in Dafny

This project models three parts of the NCD calculator.

- The graph layer of `QSearchTree`, the unrooted ternary tree that the quartet
  method searches over. It covers:
  - the edge store (`connect`, `disconnect`, `is_connected`, `set_connected`,
    `clear_all_connections`);
  - neighbours and degrees (`get_neighbors`, `get_neighbor_count`,
    `is_standard_tree`, `is_tree_ternary`, the leaf and kernel counts);
  - the constructor's "caterpillar" tree and its leaf placement;
  - the three simple mutations: leaf swap, subtree interchange and subtree
    transfer;
  - `find_path_fast` over a given next-hop table;
  - `get_column_number`;
  - the two text renderings, `to_dot` and `to_json`.
- The suggestion panel under the search box (`FastaSearchSuggestion`). It
  covers the search-term normalisation, the 300 ms debounce, the cache lookup,
  the remote request and its three outcomes, the choice of a suggestion, and
  when the panel is visible. All of these are pure transitions on one state
  record.
- The list editor (`ListEditor`): its input, Enter-key, click, remove,
  projection-toggle and search handlers.

How the model is organised:

- A tree is the datatype `QTreeGraph.QTree`. Its edges are `adj: seq<set<nat>>`,
  and an edge a--b is kept in the set of the smaller endpoint, as in the source.
- The `assert`s of `connect` and `disconnect` are preconditions of `Connect`
  and `Disconnect`.
- Inside the mutations, the same assertions are checked (`TryConnect`,
  `TryDisconnect`), and a failed one yields `None`. This stands for the run
  that the assertion stops.
- Random picks (`get_random_node`, `get_random_node_but_not`,
  `get_random_neighbor`) become parameters. They are constrained by the
  conditions that end the source's picking loops and by what
  `get_random_neighbor` can return (`IsNodePick`, `InterchangePicks`,
  `TransferPicks`). The picks say nothing about how many neighbours i1 keeps
  in the subtree transfer. The source reads `neighbors[0]` and `neighbors[1]`
  unchecked (src/QSearchTree.cpp:513-514). The model stops the run there,
  with `None`, when fewer than two are left.
- The next-hop table `spm` is a parameter of the right shape.
- The clock, the remote service, the browser cache and the accession parser
  are also parameters or events.

Modules:

- `Common`: `Option`, `Range`, `Ascending`.
- `Text`: JavaScript `trim` and `toLowerCase`.
- `Decimal`: writing and reading natural numbers.
- `QTreeGraph`, `QTreeLeaves`, `QTreeBuild`, `QTreePath`, `QTreeMutation` and
  `QTreeSerialise`: the tree.
- `FastaSuggestion` and `ListEditor`: the two components.

Facts about the suggestion component that the model keeps as the code has
them (lines of `ncd-calculator/src/components/FastaSearchSuggestion.jsx`):

- **No generation check.** `lastInput` is written at lines 39-42, and its
  `id` is read only to compute the next `id` (line 41). No answer is ever
  compared with it. So an older request that answers late overwrites the
  list shown for a newer term (`FastaSuggestion.StaleAnswerWins`).
- **The length check is "at most 2".** Line 32 skips a term only when its
  trimmed length is at most 2 (`searchTerm.trim().length <= 2`). A term of 3
  characters is looked up. The length is JavaScript's, in UTF-16 code units,
  so a character outside the Basic Multilingual Plane counts twice: U+1F600
  followed by "a" has two characters but is looked up (`FastaSuggestion.ShortTerm`,
  `FastaSuggestion.ShortTermCountsCodeUnits`).
- **Short terms are debounced too.** The check at line 32 runs inside the
  timer callback that lines 70-71 arm for every term. A short term clears the
  list only when that timer fires (`FastaSuggestion.RunFetch`,
  `FastaSuggestion.BurstThenQuiet`).
- **An empty answer keeps the list.** Lines 50-53 call `setSuggestions` only
  for a non-empty answer, so an empty answer leaves the list as it was
  (`FastaSuggestion.Settle`).
- **A choice only hides the panel.** Choosing a suggestion (lines 79-90)
  records the current term in `lastAddedTerm`. Nothing stops the next fetch.
  Line 92 hides the panel while `searchTerm === lastAddedTerm`
  (`FastaSuggestion.ChoiceStaysHidden`).

## Model

| member | source | states |
|---|---|---|
| `QTreeGraph.IsConnectedEitherRow` | src/QSearchTree.cpp:243-249 | two distinct nodes are joined exactly when the edge sits in the neighbour set of one of them; a node is never joined to itself |
| `QTreeGraph.IsConnectedSymmetricIrreflexive` | src/QSearchTree.cpp:243-249 | is_connected is symmetric and never holds for a node with itself |
| `QTreeGraph.Connect` | src/QSearchTree.cpp:270-283 | after connect the two nodes are joined, the tree stays well formed, and only the edges and the two cache flags (paths stale, score not good) change |
| `QTreeGraph.ConnectAt` | src/QSearchTree.cpp:270-283 | after connect a pair is joined exactly when it is the new edge or was joined before |
| `QTreeGraph.ConnectDegree` | src/QSearchTree.cpp:270-283 | connect raises the degree of both endpoints by one and of no other node |
| `QTreeGraph.ConnectEdgeCount` | src/QSearchTree.cpp:270-283 | connect adds exactly one stored edge |
| `QTreeGraph.Disconnect` | src/QSearchTree.cpp:285-295 | after disconnect the two nodes are no longer joined; only the edges and the two cache flags change |
| `QTreeGraph.DisconnectAt` | src/QSearchTree.cpp:285-295 | after disconnect a pair is joined exactly when it was joined before and is not the removed edge |
| `QTreeGraph.DisconnectDegree` | src/QSearchTree.cpp:285-295 | disconnect lowers the degree of both endpoints by one and of no other node |
| `QTreeGraph.DisconnectEdgeCount` | src/QSearchTree.cpp:285-295 | disconnect removes exactly one stored edge |
| `QTreeGraph.Neighbors` | src/QSearchTree.cpp:415-419 | get_neighbors lists, in ascending order, exactly the nodes joined to `who` |
| `QTreeGraph.NeighborsCount` | src/QSearchTree.cpp:415-419 | the get_neighbors list has one entry per neighbour: its length is the degree |
| `QTreeGraph.GetNeighborCount` | src/QSearchTree.cpp:261-268 | the counting loop returns the size of the neighbour set, which is the length of the get_neighbors list |
| `QTreeGraph.IsStandardTree` | src/QSearchTree.cpp:251-259 | true exactly when every node has one or three neighbours |
| `QTreeGraph.IsTreeTernary` | src/QSearchTree.cpp:648-656 | true exactly when every node has one or three neighbours |
| `QTreeGraph.LeafNodeCount` | src/QSearchTree.cpp:194-197 | (total+2)/2 is the matrix dimension, and leaf plus kernel counts make up every node |
| `QTreeGraph.KernelNodeCount` | src/QSearchTree.cpp:199-202 | (total-2)/2 is dim-2, with no unsigned wrap-around since total >= 6 |
| `QTreeGraph.SetConnected` | src/QSearchTree.cpp:661-674 | returns the old state of the pair and leaves it in the requested state; a node paired with itself reports false and changes nothing; no other pair changes; asking for the current state changes nothing at all |
| `QTreeGraph.ClearAllConnections` | src/QSearchTree.cpp:676-681 | afterwards no pair is joined and no edge is stored; the cache flags are invalidated exactly when the tree had an edge; nothing else changes |
| `QTreeLeaves.LeafPickInBounds` | src/QSearchTree.cpp:379-393 | under the tree invariant, every node get_random_node can return as a leaf indexes the leaf placement |
| `QTreeLeaves.LeafSwap` | src/QSearchTree.cpp:485-493 | the placement entries of the two leaves are exchanged, every other entry stays, the multiset of entries is unchanged, the score is invalidated and the counter goes up by one |
| `QTreeLeaves.LeafSwapKeepsInv` | src/QSearchTree.cpp:485-493 | the leaf swap keeps the placement a permutation of the columns and the leaves below dim |
| `QTreeLeaves.LeafSwapTwiceRestores` | src/QSearchTree.cpp:485-493 | swapping the same two leaves again restores the placement |
| `QTreeLeaves.GetColumnNumber` | src/QSearchTree.cpp:615-622 | returns the first column holding the node, or 0 when none does; in a permutation placement every leaf is found |
| `QTreeBuild.ConnectCaterpillar` | src/QSearchTree.cpp:27-33 | the constructor's connects all pass their assertions and build the caterpillar: leaf i on kernel dim+i, a chain of kernel nodes, and leaves dim-2 and dim-1 at its two ends |
| `QTreeBuild.CaterpillarNeighborSet` | src/QSearchTree.cpp:27-33 | the neighbours of every node in the caterpillar, and their number (1 for a leaf, 3 for a kernel node) |
| `QTreeBuild.CaterpillarEdgeCount` | src/QSearchTree.cpp:27-33 | the caterpillar has 2*dim-3 edges |
| `QTreeBuild.CollectLeaves` | src/QSearchTree.cpp:35-39 | the degree-1 nodes, collected in index order, are exactly 0 .. dim-1 |
| `QTreeBuild.NewTree` | src/QSearchTree.cpp:12-40 | the new tree has 2*dim-2 nodes and 2*dim-3 edges; leaves have one neighbour and kernel nodes three; the placement is 0 .. dim-1; the tree invariant holds, paths are stale and the score is not good |
| `QTreePath.WalkFrom` | src/QSearchTree.cpp:309-318 | the loop pushes the current node, follows the table, stops at b or once the step counter passes total, so it pushes at most total+2 nodes |
| `QTreePath.FindPathFast` | src/QSearchTree.cpp:303-324 | the path starts at a, every step follows the next-hop table, no entry before the last is b, and it ends at b unless it has total+2 entries |
| `QTreeMutation.CanSubtreeTransfer` | src/QSearchTree.cpp:543-546 | a transfer is allowed exactly for trees with at least six leaves (nine nodes) |
| `QTreeMutation.CanSubtreeInterchange` | src/QSearchTree.cpp:548-551 | an interchange is allowed exactly for trees with at least seven leaves (eleven nodes) |
| `QTreeMutation.TryConnect` | src/QSearchTree.cpp:270-283 | connect passes its assertions exactly for two distinct in-range nodes not yet joined; it then joins them, keeps the tree well formed and changes only the edges and the two cache flags |
| `QTreeMutation.TryDisconnect` | src/QSearchTree.cpp:285-295 | disconnect passes its assertions exactly for two joined nodes; it then separates them, keeps the tree well formed and changes only the edges and the two cache flags |
| `QTreeMutation.SubtreeInterchange` | src/QSearchTree.cpp:524-541 | a completed interchange needs total >= 11, keeps the tree well formed, and changes only the edges, the cache flags and the counter |
| `QTreeMutation.SubtreeInterchangeCompletes` | src/QSearchTree.cpp:524-541 | when n1--k1 and n2--k2 are edges, n1--k2 and n2--k1 are not, and n2 is not k1, the interchange completes |
| `QTreeMutation.SubtreeInterchangeRewires` | src/QSearchTree.cpp:524-541 | afterwards n1--k2 and n2--k1 are joined, n1--k1 and n2--k2 are not (unless re-added), and every other pair is as before |
| `QTreeMutation.SubtreeInterchangeKeepsDegrees` | src/QSearchTree.cpp:524-541 | every node keeps its degree and the number of edges is unchanged |
| `QTreeMutation.SubtreeInterchangeKeepsInv` | src/QSearchTree.cpp:524-541 | the interchange keeps the tree invariant and the ternary shape |
| `QTreeMutation.SubtreeTransfer` | src/QSearchTree.cpp:495-522 | a completed transfer needs total >= 9, keeps the tree well formed, and changes only the edges, the cache flags and the counter |
| `QTreeMutation.SubtreeTransferCompletes` | src/QSearchTree.cpp:495-522 | when k1--i1 is an edge, i1 keeps two neighbours m1, m2 once it is cut, m1--m2, k2--i1 and m3--i1 are not edges, and m3 is not k1, the transfer completes |
| `QTreeMutation.SubtreeTransferRewires` | src/QSearchTree.cpp:495-522 | k1--i1 and k2--m3 were edges before, and i1 had two neighbours m1, m2 besides k1; afterwards a pair is joined exactly when it is m1--m2, k2--i1, m3--i1 or k1--i1, or it was joined before and is not m1--i1, m2--i1 or m3--k2 |
| `QTreeMutation.SubtreeTransferKeepsDegrees` | src/QSearchTree.cpp:495-522 | every node keeps its degree and the number of edges is unchanged |
| `QTreeMutation.SubtreeTransferKeepsInv` | src/QSearchTree.cpp:495-522 | the transfer keeps the tree invariant and the ternary shape |
| `QTreeSerialise.GeneratedLabelNamesNode` | src/QSearchTree.cpp:993-994 | a node without a given label is written as "node " and its index, and the index reads back from that name |
| `QTreeSerialise.GeneratedLabelsDistinct` | src/QSearchTree.cpp:1017-1020 | two nodes without given labels get different names |
| `QTreeSerialise.EdgePairs` | src/QSearchTree.cpp:996-1002 | the edge loop lists exactly the joined pairs, smaller endpoint first, in row-then-column order |
| `QTreeSerialise.EdgePairsAreTheEdges` | src/QSearchTree.cpp:996-1002 | every edge is listed once, in one orientation, so there are as many edge lines as edges |
| `QTreeSerialise.DotLines` | src/QSearchTree.cpp:989-1005 | to_dot is the header, one label line per node in index order, one line per edge, and the closing brace: total + edges + 2 lines |
| `QTreeSerialise.ToDotLayout` | src/QSearchTree.cpp:989-1005 | the string to_dot returns is the header, then the node lines, then the edge lines, then the closing brace |
| `QTreeSerialise.ConcatAppend` | src/QSearchTree.cpp:989-1005 | writing two runs of lines into one stream is writing the first, then the second |
| `QTreeSerialise.ParseEdgeLineRoundTrip` | src/QSearchTree.cpp:999 | an edge line reads back as the pair it was written for |
| `QTreeSerialise.DotEdgeSectionParses` | src/QSearchTree.cpp:996-1002 | the edge section of to_dot reads back, line by line, as the edge list in the order written |
| `QTreeSerialise.DotEdgesRecoverGraph` | src/QSearchTree.cpp:989-1005 | two nodes are joined exactly when one of the edge lines of to_dot reads back as that pair, in some orientation |
| `QTreeSerialise.JsonConnections` | src/QSearchTree.cpp:1024-1035 | the connections loop with its `first` flag writes the ascending neighbours separated by ", ", and this text reads back as that list |
| `QTreeSerialise.ParseNumListRoundTrip` | src/QSearchTree.cpp:1026-1034 | a ", "-separated list of numbers reads back as the numbers written |
| `QTreeSerialise.WriteNode` | src/QSearchTree.cpp:1015-1035 | the object of node i carries its index, its name and its neighbour list |
| `QTreeSerialise.WriteNodes` | src/QSearchTree.cpp:1014-1042 | the node objects, in index order, separated by ",\n", with "\n" after the last |
| `QTreeSerialise.WrittenIsJoined` | src/QSearchTree.cpp:1037-1041 | writing a separator after each object (a comma except after the last) is the same as joining the objects with ",\n" and ending with a newline |
| `QTreeSerialise.ToJson` | src/QSearchTree.cpp:1010-1046 | to_json is the nodes array wrapped in its header and footer |
| `Decimal.NatToString` | src/QSearchTree.cpp:1016 | a number is written in decimal digits with no leading zero |
| `Decimal.DigitsValueOfNatToString` | src/QSearchTree.cpp:1016 | the digits written for a number read back as that number |
| `Decimal.ReadNatOfNatToString` | src/QSearchTree.cpp:999 | a number followed by a non-digit reads back as that number and the rest |
| `Text.Trim` | ncd-calculator/src/components/FastaSearchSuggestion.jsx:32 | trim returns the slice between leading and trailing whitespace: empty, or starting and ending with a non-space; it is empty exactly for an all-whitespace string |
| `Text.TrimUnique` | ncd-calculator/src/components/FastaSearchSuggestion.jsx:32 | any slice with only whitespace around it, empty or bounded by non-spaces, is what trim returns |
| `Text.TrimIgnoresPadding` | ncd-calculator/src/components/FastaSearchSuggestion.jsx:32 | whitespace added around a term does not change its trimmed form |
| `Text.TrimIdempotent` | ncd-calculator/src/components/FastaSearchSuggestion.jsx:32 | trimming twice is trimming once |
| `Text.ToLower` | ncd-calculator/src/components/FastaSearchSuggestion.jsx:37 | toLowerCase keeps the length and lower-cases each character |
| `Text.LowerCharKeepsWhitespace` | ncd-calculator/src/components/FastaSearchSuggestion.jsx:37 | lower-casing turns no character into whitespace, and no whitespace into anything else |
| `Text.TrimToLower` | ncd-calculator/src/components/FastaSearchSuggestion.jsx:37 | trimming and lower-casing commute |
| `Text.Normalize` | ncd-calculator/src/components/FastaSearchSuggestion.jsx:37 | the lookup key has no capital letter, is no longer than the term, and is empty exactly for a blank term |
| `Text.NormalizeIgnoresCaseAndPadding` | ncd-calculator/src/components/FastaSearchSuggestion.jsx:37 | terms that differ only in case and surrounding whitespace share one key |
| `Text.NormalizeIdempotent` | ncd-calculator/src/components/FastaSearchSuggestion.jsx:37 | a key is its own key |
| `FastaSuggestion.ShortTerm` | ncd-calculator/src/components/FastaSearchSuggestion.jsx:32 | the trimmed term's length is counted in UTF-16 code units: a blank term or a one-character term is never looked up, and a term with more than two characters after trimming always is |
| `FastaSuggestion.ShortTermCountsCodeUnits` | ncd-calculator/src/components/FastaSearchSuggestion.jsx:32 | a two-character term with one character outside the Basic Multilingual Plane is three code units long and is looked up |
| `Text.Utf16Length` | ncd-calculator/src/components/FastaSearchSuggestion.jsx:32 | JavaScript's `length` counts one or two code units per character |
| `Text.Utf16LengthAppend` | ncd-calculator/src/components/FastaSearchSuggestion.jsx:32 | the code-unit length of a concatenation is the sum of the lengths |
| `Text.Utf16LengthToLower` | ncd-calculator/src/components/FastaSearchSuggestion.jsx:32-37 | lower-casing keeps the length in code units, so the length check gives the same answer for the lower-cased term |
| `FastaSuggestion.ShortTermIgnoresPadding` | ncd-calculator/src/components/FastaSearchSuggestion.jsx:32 | whitespace around a term never decides whether it is looked up |
| `FastaSuggestion.PanelVisible` | ncd-calculator/src/components/FastaSearchSuggestion.jsx:76-93 | the panel is shown exactly when the term is not blank, is not the last chosen term, and the list is not empty |
| `FastaSuggestion.Mount` | ncd-calculator/src/components/FastaSearchSuggestion.jsx:14-21 | the first render has no suggestions, no chosen term, fetch count 0, one timer armed for the initial term, and no visible panel |
| `FastaSuggestion.TermChanged` | ncd-calculator/src/components/FastaSearchSuggestion.jsx:70-72 | a new term replaces the pending timer with one for the new term 300 ms later and changes nothing else |
| `FastaSuggestion.RunFetch` | ncd-calculator/src/components/FastaSearchSuggestion.jsx:31-49 | a short term only clears the list; a longer one bumps the fetch count under its key, then shows a non-empty cached list at once or sends one request |
| `FastaSuggestion.Tick` | ncd-calculator/src/components/FastaSearchSuggestion.jsx:70 | a timer fires once it is due, and is spent; before that nothing happens |
| `FastaSuggestion.Settle` | ncd-calculator/src/components/FastaSearchSuggestion.jsx:49-67 | a non-empty answer is shown and cached, an empty one changes nothing, a failure shows the cached list or nothing; loading ends and the request leaves the in-flight set |
| `FastaSuggestion.Select` | ncd-calculator/src/components/FastaSearchSuggestion.jsx:79-90 | the item handed to addItem (kind, empty content, label, parsed id, normalised name), the current term remembered, the list cleared and the panel hidden |
| `FastaSuggestion.BurstFetchesNothing` | ncd-calculator/src/components/FastaSearchSuggestion.jsx:70-71 | while keystrokes come less than 300 ms apart, only the last term's timer is pending, no fetch starts and no request is added |
| `FastaSuggestion.BurstThenQuiet` | ncd-calculator/src/components/FastaSearchSuggestion.jsx:31-42 | after a burst, the first due tick starts exactly one fetch, for the last term's key, or only clears the list for a short term |
| `FastaSuggestion.ChoiceStaysHidden` | ncd-calculator/src/components/FastaSearchSuggestion.jsx:92 | after a choice, ticks and answers never reopen the panel until the term changes |
| `FastaSuggestion.StaleAnswerWins` | ncd-calculator/src/components/FastaSearchSuggestion.jsx:49-53 | a late answer for an older term replaces the list shown for the newer one |
| `FastaSuggestion.CachedAnswerServedNextTime` | ncd-calculator/src/components/FastaSearchSuggestion.jsx:45-52 | once an answer is cached, the next fetch under its key shows it with no new request |
| `FastaSuggestion.FailureFallsBackToCache` | ncd-calculator/src/components/FastaSearchSuggestion.jsx:55-64 | a failure with a cached list shows what a cache hit would have shown |
| `FastaSuggestion.SameKeyForCaseAndPadding` | ncd-calculator/src/components/FastaSearchSuggestion.jsx:32-37 | a term typed in another case or with extra whitespace is fetched exactly like the original |
| `FastaSuggestion.RunFetchDependsOnKey` | ncd-calculator/src/components/FastaSearchSuggestion.jsx:32-49 | a fetch depends on the term only through its length check and its key |
| `ListEditor.InitialProjections` | ncd-calculator/src/components/ListEditor.jsx:9-14 | the four projections, with Accession on |
| `ListEditor.Init` | ncd-calculator/src/components/ListEditor.jsx:6-14 | an empty term, no results, nothing chosen, the initial projections |
| `ListEditor.OnInputChange` | ncd-calculator/src/components/ListEditor.jsx:17-20 | the new term replaces the old one and the results are cleared |
| `ListEditor.HandleKeyDown` | ncd-calculator/src/components/ListEditor.jsx:29-34 | Enter on a non-blank term appends it to the results; any other key, or a blank term, changes nothing |
| `ListEditor.ClickResult` | ncd-calculator/src/components/ListEditor.jsx:96 | a click appends the clicked result to the chosen items and changes nothing else |
| `ListEditor.WithoutIndex` | ncd-calculator/src/components/ListEditor.jsx:163 | filtering by index drops exactly the entry at that index and keeps the order |
| `ListEditor.RemoveSelected` | ncd-calculator/src/components/ListEditor.jsx:162-164 | only the chosen entry goes, the rest keep their order, and the multiset loses exactly that item |
| `ListEditor.RemoveUndoesClick` | ncd-calculator/src/components/ListEditor.jsx:162-164 | removing the item just clicked restores the state |
| `ListEditor.ToggleProjection` | ncd-calculator/src/components/ListEditor.jsx:194-197 | a check-box flips its projection unless it is Accession; no other projection changes and no key appears |
| `ListEditor.ToggleTwiceRestores` | ncd-calculator/src/components/ListEditor.jsx:194-197 | toggling the same projection twice restores the state |
| `ListEditor.OnPerformSearch` | ncd-calculator/src/components/ListEditor.jsx:22-26 | the search goes to the parent, with the chosen items and projections, exactly when something is chosen |
| `ListEditor.ApplyKeepsGood` | ncd-calculator/src/components/ListEditor.jsx:29-34 | every handler keeps the editor good: the projection keys fixed, Accession on, and no blank result or chosen item |
| `ListEditor.ActionsKeepGood` | ncd-calculator/src/components/ListEditor.jsx:194-197 | after any sequence of actions Accession is still on, the projections are the initial four, and no blank term is listed or chosen |
| `ListEditor.InitIsGood` | ncd-calculator/src/components/ListEditor.jsx:6-14 | the mounted editor is good |

## Left out

- Scoring and search are not modelled: `score_tree`, `score_tree_original`,
  `score_tree_fast_v2`, `calc_min_max`, `is_consistent_quartet`,
  `calculate_order_cost`, `find_better_tree`, `complex_mutation`,
  `simple_mutation` and `get_mutation_distribution_sample`. They are the
  randomised drivers and floating-point quartet costs around the mutations.
  The mutations themselves are modelled, with their random picks as
  parameters.
- `freshen_spm` is not modelled. It rebuilds the next-hop table from the
  connected-node map (QSearchConnectedNode), which is not part of this model.
  `FindPathFast` takes the table as a parameter, so nothing is proved about
  the path really joining k1 and k2 in the tree.
- `walk_tree`, `is_valid_tree`, `get_adjacency_matrix` and
  `mutate_order_simple`/`mutate_order_complex` are outside the modelled
  graph layer. `read_from_dot` is commented out in the source.
- The copy constructor is not modelled, and neither are the statistics other
  than `last_simple_mutations`.
- Labels are written into DOT and JSON as they are, without escaping, as in
  the source; nothing is proved about the output being valid JSON.
- `Text.ToLower`: lower-cases only A-Z, while JavaScript's `toLowerCase` also
  maps other Unicode letters.
- `FastaSuggestion.Mount`: `searchTimestamp`, `Date.now()` and the effect's
  re-run on a new timestamp are not modelled. The effect sets the timestamp
  it depends on, so it may re-arm its timer again, possibly several times,
  until two runs fall in the same millisecond. The clock is the `at`
  and `now` fields of the events.
- `setError(null)`, `console.error` and the React rendering of both
  components are not modelled.
- The suggestion cache's storage is a map from key to list. Its expiry and
  persistence are not modelled, and neither is how `FastaSuggestionHandler`
  talks to the remote service. The accession parser is a function parameter
  of `Select`.
- Integers are unbounded naturals. The source's `int` and `unsigned int`
  counters never come near their limits for a tree that fits in memory.
- `QTreeMutation.SubtreeTransfer`: the source reads the first two entries
  of i1's neighbour list without checking its length
  (src/QSearchTree.cpp:513-514). When fewer than two are left that read is
  undefined behaviour; the model returns `None` there instead.
- The `std::cout` traces are not modelled. They are the banner of the subtree
  transfer (src/QSearchTree.cpp:497), the broken-path message of
  `find_path_fast` (src/QSearchTree.cpp:323) and the "Bad column number"
  message `get_column_number` prints before it returns 0
  (src/QSearchTree.cpp:620).
- An undefined `searchTerm` is not modelled. The component guards it with
  `?.` (ncd-calculator/src/components/FastaSearchSuggestion.jsx:32, 76, 92). The model's term is always a string.
- The default `type = "fasta"` (ncd-calculator/src/components/FastaSearchSuggestion.jsx:10) is not modelled as a default. The
  kind is a plain parameter of `FastaSuggestion.Select`.
- The cleanup that clears the timer on unmount (ncd-calculator/src/components/FastaSearchSuggestion.jsx:71) is not modelled. The
  model has no unmount event; the same cleanup on a term change is
  `FastaSuggestion.TermChanged`.
- `Header.jsx` is not modelled. It handles login and logout against the
  backend, all browser navigation and network I/O:
  - it opens and closes the login modal (lines 10-16);
  - it redirects to `/auth/google` and `/auth/github` (lines 20 and 28);
  - it loads the logged-in user with `getLoginUser` in an effect and stores
    the name and the logged-in flag (lines 34-43);
  - it logs out by calling `/auth/logout` with credentials and stores the
    user the backend returns (lines 45-56).
