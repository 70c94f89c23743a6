# Verification of the reference stores, their kernels and the update protocol

The benchmark drives foreign graph systems, but it carries its own reference stores, the kernels of the LDBC
Graphalytics specification on top of them, and the protocol that replays an update log. This project models that code in
Dafny and proves what it is for.

## What is modelled

**The CSR store.** `CsrRows`, `CsrHalf`, `CsrMerge`, `CsrLoader`, `CsrSentinel` and `CsrStore` load a sorted edge list into
prefix sums and cells, merge both directions for an undirected graph, and look up weights; `StreamLoader` loads a stream of
edges. `Csr` is the loaded graph as a value, which the kernels read: `Bfs` (direction-optimizing, with the queue of
`SlidingQueue`), `Wcc` (hook and compress), `Sssp` (delta-stepping), `PageRank` with `RandomSurfer` (what its scores
mean), `Cdlp` with `CdlpSchedules` (the runs of its threads), `CdlpExample` and `CdlpExampleEdges` (a run that stops too
early, on a graph that can be loaded), `Lcc` (plain), `MergeLcc` and `LccWorkers` (sort-merge, by workers).

**The adjacency list.** `GraphState` is the abstract graph, `EdgeLists` the lists as values, `AdjacencyList` the class that
mutates them. Its kernels are `BaselineBfs`, `BaselineWcc`, `BaselineSssp`, `BaselinePageRank`, `BaselineCdlp` and
`BaselineLcc`. `SameGraph` says when the two stores hold the same graph, `BothStores` proves that they do after
loading the same edges, and each pair of kernels is proved to agree on it.

**The update protocol.** `Replay` is the meaning of a log and of its interleavings, `Filters` the selections from it,
`UpdateWorker` the lists of one worker, `ClockPartition` and `ReversedPairs` the even assignment of pairs to workers,
`Pipeline` and `PipelineProgress` the master with its workers and two buffers, `AsyncBatch` the ring of batches between two
threads. The last three are transition systems with a program counter per thread: a critical section is one step, a
notification outside of one is a step of its own, and a waiting thread may wake at any time.

**The checker and the edge storage.** `Validate`, `WccAgreement` and `HighVertices` for the comparison of component files;
`ByteArray` and `EdgeStream` for the compact arrays that feed the loader.

`Walks` and `Connectivity` define shortest walks and components, `Triangles` the clustering coefficient, `Votes` the label
that wins a vote, `Sums`, `Sequences` and `Ranges` what the others share. These definitions know nothing of the kernels;
every kernel is proved to compute them.

## How the code is rendered

- A loop marked `omp parallel for` takes its iterations from a set in any order. Where iterations race (top-down search,
  hooking, compressing, relaxing, the change flag of the label propagation), each read, compare-and-swap and write is a step
  of its own, and the steps of all iterations interleave freely; those of one chunk of the label propagation keep their
  order.
- The order in which a hash map or a hash set is visited is an arbitrary parameter or an arbitrary choice.
- Exceptions and not-a-number results are values of `Option` or of a small result type.
- Where the code fails to meet what it is for, the code is kept, a concrete input shows the failure, and the exact
  condition under which the code is right is proved: deletion of vertices, a single batch, powers of 256, the sentinel of
  the loader, vertices in component files that the checker cannot tell apart, repeated reference lines, reversed pairs
  under the clock, and overlapping updates of the change flag.

## Model

| member | source | states |
|---|---|---|
| `CsrRows.RowsAreRightIff` | library/baseline/csr.cpp:268-276 | the cached lookup of the logical source puts every edge into the row of its own vertex if and only if the first edge is not mistaken for the sentinel `numeric_limits<uint64_t>::max()` |
| `CsrRows.SentinelMisplaces` | library/baseline/csr.cpp:268-277 | an input on which it is mistaken: the only edge leaves vertex 2^64-1 and lands in the row of vertex 3 |
| `CsrRows.IntervalIs` | library/baseline/csr.cpp:287-290 | after the prefix sums, the interval of a vertex holds exactly the positions of the sorted edge list whose row is that vertex |
| `CsrHalf.PrefixSum` | library/baseline/csr.cpp:287-290 | the in-place prefix sum turns counters per row into ranks (edges in rows up to this one) |
| `CsrHalf.BuildHalf` | library/baseline/csr.cpp:263-290 | one pass: counters, cells and weights are those of the sorted edges, for the rows the loop really uses |
| `CsrHalf.HalfCounts` | library/baseline/csr.cpp:242-321 | the row of a vertex lists each of its edges, with its weight, as often as the input does |
| `CsrHalf.HalfEnds` | library/baseline/csr.cpp:242-321 | the same over logical vertices and without weights |
| `CsrHalf.HalfIsOrdered` | library/baseline/csr.cpp:261-290 | rows are sorted, and strictly when no edge is repeated |
| `CsrMerge.TakeFirst` | library/baseline/csr.cpp:352-357 | taking the smaller out-cell keeps a sorted merge of the two rows, as multisets |
| `CsrMerge.TakeSecond` | library/baseline/csr.cpp:358-364 | taking the in-cell keeps a sorted merge of the two rows |
| `CsrMerge.MergeRow` | library/baseline/csr.cpp:346-380 | the merge loops of one vertex append a sorted row with exactly the entries of both rows |
| `CsrMerge.MergeAll` | library/baseline/csr.cpp:323-396 | all merged rows and the prefix sums over the added degrees |
| `CsrLoader.DirectedIsLoaded` | library/baseline/csr.cpp:242-321 | a directed load keeps the graph: every row, out and in, holds the edges of the input with their multiplicities and weights |
| `CsrLoader.UndirectedIsLoaded` | library/baseline/csr.cpp:323-397 | an undirected load stores each edge at both ends, and the last prefix sum is twice the number of edges |
| `CsrLoader.LoadedIsMirrored` | library/baseline/csr.cpp:292-321 | the in-arrays are the transpose of the out-arrays |
| `CsrLoader.RowsIncrease` | library/baseline/csr.cpp:350 | for a simple graph every interval is strictly sorted and contains no loop |
| `CsrLoader.LoadedIsSimpleGraph` | library/baseline/csr.cpp:323-397 | an undirected load of a simple graph yields what the triangle counters need: sorted, symmetric, loop-free rows |
| `CsrLoader.LoadedIsSame` | library/baseline/csr.cpp:225-240 | a loaded graph and an adjacency list that stores the same edges are the same graph |
| `BothStores.BuiltEdges` | library/baseline/adjacency_list.cpp:360-368 | inserting the edges of a simple graph one by one builds an edge map with exactly these edges, mirrored if undirected |
| `BothStores.InsertedIsStored` | library/baseline/adjacency_list.cpp:360-368 | so an adjacency list that represents these insertions stores exactly the edges |
| `BothStores.StoresAgree` | library/baseline/adjacency_list.cpp:360-368 | after a load and a run of insertions of the same edges of a simple graph both stores hold the same graph |
| `BothStores.LoadBoth` | library/baseline/csr.cpp:232-240 | filling both stores from one stream establishes it, so every agreement below applies |
| `CsrStore.FindCell` | library/baseline/csr.cpp:165-172 | the scan that stops at the first larger cell finds a match if there is one |
| `CsrStore.CSR.Load` | library/baseline/csr.cpp:232-397 | the load as a whole: a second load is refused, the arrays hold the graph if and only if no pass takes its first edge for the sentinel, undirected in-arrays alias the out-arrays |
| `CsrSentinel.MisplacedDirected` | library/baseline/csr.cpp:268-277 | a directed load with such a pass does not hold the graph |
| `CsrSentinel.MisplacedUndirected` | library/baseline/csr.cpp:323-397 | nor does an undirected one: the merge cannot repair it |
| `StreamLoader.SafeUnlessMisplaced` | library/baseline/csr.cpp:268-276 | in terms of the input: a pass is safe unless all its edges have the vertex 2^64-1 as their row and another vertex exists |
| `StreamLoader.SortedVertices` | library/baseline/csr.cpp:246-248 | the sorted vertex list of a stream is exact, or its largest vertex is a power of 256 and no CSR over this list holds the edges of the stream |
| `StreamLoader.LoadStream` | library/baseline/csr.cpp:232-321 | the vertex list and the two sorts of a stream feed the load; with a largest vertex that compact storage keeps, the arrays hold the edges of the stream unless a pass misplaces them |
| `CsrStore.CSR.GetWeight` | library/baseline/csr.cpp:156-173 | `get_weight`: the weight in the row of the source, none for an unknown vertex or a missing edge |
| `CsrStore.LookupIsExact` | library/baseline/csr.cpp:156-173 | after a load of a simple graph a lookup returns the weight of the edge, in either direction if undirected, and nothing else, for all pairs of external vertices |
| `Bfs.InitDistances` | library/baseline/csr.cpp:623-631 | every vertex starts with a negative entry |
| `Bfs.BottomUpStep` | library/baseline/csr.cpp:535-565 | exactly the unvisited vertices with an in-neighbour in `front` get the distance, and they form `next` |
| `Bfs.TopDownStep` | library/baseline/csr.cpp:567-600 | with interleaved reads and compare-and-swaps: exactly the unvisited vertices next to the window get the distance, each is pushed once, and the scout count is the sum of their degrees |
| `Bfs.Flush` | library/baseline/csr.cpp:590-598 | the local queues append each woken vertex once, so the queue fits in as many slots as vertices |
| `Bfs.QueueToBitmap` | library/baseline/csr.cpp:602-608 | the bits set are the old ones and the queue window |
| `Bfs.BitmapToQueue` | library/baseline/csr.cpp:610-621 | the new window is the bitmap, each vertex once |
| `Bfs.BottomUpOnce` | library/baseline/csr.cpp:650-656 | a bottom-up round visits exactly the next level and counts it |
| `Bfs.BottomUpPhase` | library/baseline/csr.cpp:648-660 | the do-while ends, since a continuing round awakens a vertex |
| `Bfs.StaleAfterTopDown` | library/baseline/csr.cpp:602-674 | bits left in `front` by an earlier phase belong to vertices whose out-neighbours are all visited, and top-down rounds keep it so |
| `Bfs.LastLevelEmpty` | library/baseline/csr.cpp:633-674 | when a level is empty the labels are the hop distances |
| `Bfs.Bfs` | library/baseline/csr.cpp:633-674 | the direction-optimizing search ends with the hop distance of every reachable vertex and a negative entry elsewhere, for every graph, root, positive alpha and beta, and order of the parallel loops |
| `BaselineBfs.EmplaceKeeps` | library/baseline/adjacency_list.cpp:396-398 | a first visit keeps the queue sorted by distance over two levels, and every label the length of a walk |
| `BaselineBfs.Bfs` | library/baseline/adjacency_list.cpp:381-400 | the plain search returns the hop distances; an unknown source raises |
| `BaselineBfs.SearchesAgree` | library/baseline/adjacency_list.cpp:381-400 | on the same graph both searches find the same distances |
| `Wcc.HookKeeps` | library/baseline/csr.cpp:895-915 | storing the smaller label over a larger one, at any moment of the racy hook loop, keeps `comp[x] <= x`, `comp[x]` connected to `x`, and creates no root |
| `Wcc.HookPass` | library/baseline/csr.cpp:895-916 | a hook pass ends; if it changed something it removed a root, and otherwise every edge agrees |
| `Wcc.CompressPass` | library/baseline/csr.cpp:918-925 | the pointer jumping ends with every vertex pointing at a root, and keeps the roots |
| `Wcc.AgreementIsLeast` | library/baseline/csr.cpp:887-930 | labels that agree along every edge are the least vertices of the components |
| `Wcc.Wcc` | library/baseline/csr.cpp:887-930 | the kernel ends and labels every vertex with the least logical vertex of its weak component, under any interleaving of the racy reads and writes |
| `BaselineWcc.Pass` | library/baseline/adjacency_list.cpp:491-513 | one pass of the label propagation: a change lowers the sum of the labels, no change means a fixpoint |
| `BaselineWcc.Wcc` | library/baseline/adjacency_list.cpp:480-515 | the propagation ends with the least vertex of the component, capped at the largest signed 64-bit integer from which each minimum starts |
| `Validate.CheckLineTracks` | utility/graphalytics_validate.cpp:315-335 | after any prefix of the reference without an error, the two maps record exactly the bijection between the labels seen |
| `Validate.EquivalenceMatch` | utility/graphalytics_validate.cpp:285-350 | no error is reported if and only if, for the lines as they are read, with every number above the largest signed 64-bit integer taken for that one, every reference vertex has a result, the labels are related by a bijection, and the result has no more vertices than the reference has lines |
| `Validate.AcceptedIffSameComponents` | utility/graphalytics_validate.cpp:339-341 | with one reference line per vertex the last test is equality of the vertex sets |
| `Validate.DecidesRightIff` | utility/graphalytics_validate.cpp:285-350 | for a given reference of numbers a file can hold the checker decides right about every such result if and only if the reference has one line per vertex, gives some vertex two labels, or names every vertex there can be |
| `Validate.RepeatedLinesHideVertices` | utility/graphalytics_validate.cpp:339-341 | without it, an input that is accepted although the vertex sets differ |
| `WccAgreement.BaselineAcceptedIff` | utility/graphalytics_validate.cpp:83-94 | the file of the adjacency list is accepted against that of the CSR if and only if all vertices at or above the largest signed 64-bit integer, all of which the checker reads as that number, lie in one component |
| `WccAgreement.CsrAcceptedIff` | utility/graphalytics_validate.cpp:285-350 | in the other role, if and only if they lie in one component or all in components without smaller vertices, which have one capped label |
| `WccAgreement.ComponentsAlwaysValidate` | utility/graphalytics_validate.cpp:285-350 | so both roles accept whenever no vertex exceeds the largest signed 64-bit integer |
| `HighVertices.TwoEdgesValidate` | utility/graphalytics_validate.cpp:89-90 | the loadable graphs of two edges a-c and b-d with a < b < c < d and c at or above that number: one role never accepts, although the labels identify the components if a is below it, and the other accepts exactly if a is not |
| `HighVertices.BothHoldTwo` | library/baseline/csr.cpp:232-240 | both stores can hold these graphs: the arrays are those of a load of the two edges |
| `WccAgreement.BaselineIdentifiesIff` | library/baseline/adjacency_list.cpp:494 | the capped labels of the adjacency list tell the components apart if and only if no two components lie wholly at or above the cap |
| `Sssp.SwapKeeps` | library/baseline/csr.cpp:1294-1309 | a successful compare-and-swap, with other relaxations at any point between their reads and writes, keeps the invariant: distances are walk costs, bins below the current one stay empty, and an unrelaxed edge has its source in the bin of its distance or its relaxation still to come |
| `Sssp.RereadKeeps` | library/baseline/csr.cpp:1296-1302 | so does the re-read after a failed one |
| `Sssp.NextIsLowRelaxed` | library/baseline/csr.cpp:1315-1321 | nothing below the next bin is left to relax |
| `Sssp.RelaxBucket` | library/baseline/csr.cpp:1284-1313 | the interleaved relaxation of one bucket ends, and either lowers a distance or changes nothing |
| `Sssp.Sssp` | library/baseline/csr.cpp:1255-1341 | delta-stepping ends with the weights of shortest walks, infinite where there is none |
| `BaselineSssp.TopIsCurrent` | library/baseline/adjacency_list.cpp:731-735 | the nearest entry of an unvisited vertex carries its distance, which no other entry undercuts |
| `BaselineSssp.Relax` | library/baseline/adjacency_list.cpp:737-744 | relaxing a vertex never changes a visited one, although the code does not test it |
| `BaselineSssp.Sssp` | library/baseline/adjacency_list.cpp:715-746 | Dijkstra with lazy deletion returns the weights of shortest walks; an unknown source is added as a vertex without edges |
| `BaselineSssp.ShortestPathsAgree` | library/baseline/adjacency_list.cpp:715-746 | on the same graph delta-stepping and Dijkstra return the same distances |
| `PageRank.NothingIsLost` | library/baseline/csr.cpp:766-788 | double counting over the transposed arrays: what is pulled plus what the sinks leak is the mass there was |
| `PageRank.MassIsOne` | library/baseline/csr.cpp:750-797 | after any number of iterations the scores sum to 1, for every damping factor, sinks included |
| `PageRank.ScoresAreProbabilities` | library/baseline/csr.cpp:750-797 | with a damping factor between 0 and 1 every score lies between 0 and 1 |
| `PageRank.Contribute` | library/baseline/csr.cpp:766-776 | the first parallel loop, in any order: contributions of the others and the sum over the sinks |
| `PageRank.Rescore` | library/baseline/csr.cpp:780-792 | the second loop may overwrite the scores in any order |
| `PageRank.Pagerank` | library/baseline/csr.cpp:750-797 | the kernel computes that many applications of the synchronous step |
| `RandomSurfer.ScoresAreChances` | library/baseline/csr.cpp:750-797 | the scores are the chances of a random surfer after that many moves, defined by its moves along out-edges only |
| `RandomSurfer.MovesSumToOne` | library/baseline/csr.cpp:766-788 | whose moves from any vertex, sinks included, have chances that sum to 1 |
| `BaselinePageRank.Pagerank` | library/baseline/adjacency_list.cpp:421-464 | the plain kernel computes that many applications of its step, in any order of the hash map and of the set of sinks |
| `BaselinePageRank.RankingsAgree` | library/baseline/adjacency_list.cpp:421-464 | on the same graph both compute the same ranks after any number of iterations |
| `Votes.WinnerIsUnique` | library/baseline/csr.cpp:995-1003 | the most frequent and then smallest label is unique, so the order of the histogram does not matter |
| `Cdlp.LabelMax` | library/baseline/csr.cpp:995-1003 | the scan of the histogram, in any order, finds it; without votes the label is the largest signed 64-bit integer |
| `Cdlp.Pass` | library/baseline/csr.cpp:974-1007 | one iteration, with the reads and writes of the flag interleaved in any way, computes the synchronous step; the flag is never raised for nothing |
| `Cdlp.StableStays` | library/baseline/csr.cpp:971-1012 | once an iteration changes nothing no later one does, so stopping early is harmless |
| `Cdlp.Cdlp` | library/baseline/csr.cpp:955-1020 | every run of the kernel is a schedule of its threads and returns what that schedule ends with, the labels after at most `max_iterations` synchronous steps |
| `CdlpSchedules.EveryScheduleIsExactIff` | library/baseline/csr.cpp:971-1012 | every schedule of the chunks of 64 vertices returns the labels after exactly `max_iterations` steps if and only if no iteration before the last that ends with other labels than the final ones has a chunk that keeps all its labels, or at once a kept label at the start of a chunk, one at the end of a chunk, and two in different chunks |
| `CdlpSchedules.OneChunkIsExact` | library/baseline/csr.cpp:974 | graphs of up to 64 vertices are always labelled right |
| `CdlpSchedules.AllChangeIsExact` | library/baseline/csr.cpp:1006 | so are those in which every vertex changes its label in every iteration before the labels are final |
| `CdlpSchedules.WholeChunkStops` | library/baseline/csr.cpp:974-1012 | a whole chunk that keeps its labels in an iteration before that gives a schedule that stops there |
| `CdlpSchedules.SerialUpdatesAreExact` | library/baseline/csr.cpp:1006 | a schedule in which no two updates of the flag overlap does so on every graph |
| `CdlpExample.StopsTooEarly` | library/baseline/csr.cpp:974-1006 | 16 cliques of four, which are the first chunk of 64 vertices, and the edge {64, 65} with four iterations: a schedule that returns after three, with other labels |
| `CdlpExampleEdges.ExampleIsLoaded` | library/baseline/csr.cpp:232-240 | this graph is what a load of its 97 edges yields |
| `BaselineCdlp.LabelId` | library/baseline/adjacency_list.cpp:561-571 | the scan of the plain kernel finds the same label, or 0 without votes |
| `BaselineCdlp.Cdlp` | library/baseline/adjacency_list.cpp:530-585 | the plain kernel computes `max_iterations` synchronous steps although it stops early |
| `BaselineCdlp.PropagationsAgreeIff` | library/baseline/adjacency_list.cpp:530-585 | the labelling rules of the two kernels give the same labels after the same number of steps if and only if no step is made or no vertex is isolated |
| `BaselineCdlp.LoadedHasNoIsolated` | library/baseline/csr.cpp:245-259 | a loaded CSR takes its vertices from the edges, so none of them is isolated |
| `BaselineCdlp.LoadedPropagationsAgree` | library/baseline/adjacency_list.cpp:530-585 | so from any load the two stores reach the same labels after any number of steps |
| `Triangles.PairsAreTriangles` | library/baseline/csr.cpp:1514-1563 | the ordered pairs of adjacent neighbours are twice the triangles through the vertex, each triangle taken once in descending order |
| `Triangles.PairsBound` | library/baseline/csr.cpp:1192-1194 | a counter never exceeds degree * (degree - 1) |
| `Triangles.CoefficientInUnit` | library/baseline/csr.cpp:1192-1194 | so the coefficient lies between 0 and 1 |
| `Triangles.CoefficientIsDensity` | library/baseline/csr.cpp:1429-1431 | times degree * (degree - 1) it is twice the number of triangles through the vertex |
| `Triangles.CoefficientIsOneIff` | library/baseline/csr.cpp:1192-1194 | it is 1 if and only if the vertex has two neighbours or more and all of them are adjacent |
| `Lcc.CountPairs` | library/baseline/csr.cpp:1160-1187 | the plain kernel counts the ordered pairs |
| `Lcc.LccUndirected` | library/baseline/csr.cpp:1144-1198 | and scores every vertex with its coefficient |
| `MergeLcc.MergeRow` | library/baseline/csr.cpp:1527-1557 | the merge of one row with the prefix of neighbours finds exactly the triangles n1 > n2 > n3, each once, and the marker never runs off the end |
| `MergeLcc.ProcessVertex` | library/baseline/csr.cpp:1514-1563 | the additions made for a vertex count its triangles at all three corners |
| `LccWorkers.NextTask` | library/baseline/csr.cpp:1469-1482 | a worker that is done with its window gets one of bounded size that nobody else has, or is told that none is left; every vertex stays processed or in exactly one window |
| `LccWorkers.FetchTiles` | library/baseline/csr.cpp:1469-1482 | no other worker has that window, and no vertex is skipped |
| `LccWorkers.CountAll` | library/baseline/csr.cpp:1440-1467 | any number of workers, with steps and atomic additions interleaved in any way, end with every counter equal to the ordered-pair count |
| `LccWorkers.CounterBound` | library/baseline/csr.cpp:1422-1436 | the counters are at most degree * (degree - 1), so the scores lie between 0 and 1 |
| `LccWorkers.Execute` | library/baseline/csr.cpp:1422-1467 | the scores are the coefficients |
| `BaselineLcc.CountVertex` | library/baseline/adjacency_list.cpp:616-645 | with what the already-visited scheme carried over, the counter of a vertex is its ordered-pair count |
| `BaselineLcc.SkippedCarries` | library/baseline/adjacency_list.cpp:616-653 | a vertex of degree below two may be skipped: it closes no pair of another |
| `BaselineLcc.LccUndirected` | library/baseline/adjacency_list.cpp:600-657 | the plain kernel scores every vertex with its coefficient |
| `BaselineLcc.CoefficientsAgree` | library/baseline/adjacency_list.cpp:600-657 | on the same graph both stores give every vertex the same coefficient |
| `AdjacencyLists.AdjacencyList.GetWeight` | library/baseline/adjacency_list.cpp:107-121 | the weight in the edge map, or not-a-number |
| `AdjacencyLists.AdjacencyList.AddVertex0` | library/baseline/adjacency_list.cpp:202-206 | the vertex is there afterwards, no edge changes, and the answer says whether it is new |
| `GraphState.VerticesOfRun` | library/baseline/adjacency_list.cpp:202-206 | after any run of calls the vertices are the old ones, those added, and the endpoints of edges inserted between two vertices |
| `GraphState.LastWriteDecides` | library/baseline/adjacency_list.cpp:293-358 | the last call about an edge decides whether it is there, and with which weight |
| `GraphState.UnwrittenEdge` | library/baseline/adjacency_list.cpp:293-358 | an edge no call is about stays as it was |
| `AdjacencyLists.AdjacencyList.AddEdge0` | library/baseline/adjacency_list.cpp:300-323 | both lists updated in place or extended: one put in the edge map, counted only if new |
| `AdjacencyLists.AdjacencyList.AddEdge` | library/baseline/adjacency_list.cpp:266-279 | refuses equal endpoints and unknown vertices, else one put in the edge map |
| `AdjacencyLists.AdjacencyList.AddEdgeV2` | library/baseline/adjacency_list.cpp:293-298 | adds missing endpoints first |
| `AdjacencyLists.AdjacencyList.RemoveEdge` | library/baseline/adjacency_list.cpp:330-358 | drops the edge from both lists; the answer says whether it was there |
| `AdjacencyLists.AdjacencyList.RemoveVertex` | library/baseline/adjacency_list.cpp:217-252 | only the entry of the vertex goes, since its edges are erased from copies; the graph stays sound if the vertex was isolated |
| `AdjacencyLists.AdjacencyList.Run` | library/baseline/adjacency_list.cpp:193-358 | over every run of vertex adds, edge adds and edge removals: no duplicate neighbour, mirrored entries with equal weights, existing endpoints, an exact edge count, and the edge map of the abstract replay |
| `AdjacencyLists.DeleteVertexIsSoundIff` | library/baseline/adjacency_list.cpp:217-252 | deleting a vertex leaves a consistent list if and only if the vertex is absent or isolated |
| `AdjacencyLists.DanglingEdge` | library/baseline/adjacency_list.cpp:227-240 | otherwise an edge dangles |
| `AdjacencyLists.EdgeOfDeletedVertex` | library/baseline/adjacency_list.cpp:227-240 | one edge, one end deleted: the other end keeps an edge to a vertex that does not exist |
| `EdgeLists.InsertRefines` | library/baseline/adjacency_list.cpp:300-323 | an insertion refines the edge map and the edge counter |
| `EdgeLists.RemoveRefines` | library/baseline/adjacency_list.cpp:330-358 | so does a removal |
| `Replay.HashOwnerIsSticky` | experiment/details/aging2_worker.cpp:334 | since `src + dst` is symmetric, all updates of an edge, in either direction, have one owner |
| `Replay.HashOwnerIs` | experiment/details/aging2_worker.cpp:334 | the owner is one of the workers, chosen by the hash of the sum as it wraps around at 64 bits |
| `Replay.HashSharesAreTheBlock` | experiment/details/aging2_worker.cpp:332-356 | every update of a block is in the share of exactly one worker, and the shares together are the block |
| `Replay.LastUpdateDecides` | experiment/details/aging2_worker.cpp:476-572 | after a replay an edge is there exactly if its last update is an insertion, with the weight of that |
| `Replay.ReplayIsSerializable` | experiment/details/aging2_worker.cpp:476-572 | every interleaving that keeps the order of each worker yields the graph of the serial replay |
| `Replay.RemovalSucceedsAtOnce` | experiment/details/aging2_worker.cpp:544-572 | in a well-formed log a removal finds its edge at the first try, at whatever point of the interleaving it runs |
| `Replay.SwapsAreInvisible` | experiment/details/aging2_worker.cpp:521-530 | random swaps of the endpoints change nothing in an undirected graph |
| `Replay.SerialKeepsConsistent` | library/baseline/adjacency_list.cpp:293-358 | a replay keeps the graph consistent |
| `Replay.SerialIsReplay` | experiment/details/aging2_worker.cpp:476-572 | a replay of the log is the run of calls that the adjacency list refines |
| `UpdateWorker.Aging2Worker.MainLoadEdges` | experiment/details/aging2_worker.cpp:319-358 | a worker appends exactly its share of the block, in log order, with random weights for zero ones, in chunks of bounded size |
| `UpdateWorker.DrawnIs` | experiment/details/aging2_worker.cpp:349-353 | only a weight of zero is replaced, by one in (0, max_weight], and the endpoints stay |
| `UpdateWorker.DrawnIsWellFormed` | experiment/details/aging2_worker.cpp:349-353 | a log is well-formed with the drawn weights if and only if it is without |
| `UpdateWorker.WorkersLoadTheBlock` | experiment/details/aging2_worker.cpp:332-356 | what all workers load from a block is the block, each update once and with its drawn weight |
| `UpdateWorker.CountersAddUp` | experiment/details/aging2_worker.cpp:340-346 | insertions and deletions are counted as the library is asked to make them, and add up to the updates |
| `UpdateWorker.Aging2Worker.MainExecuteUpdates` | experiment/details/aging2_worker.cpp:232-316 | it sends everything it holds, in order, and holds nothing afterwards |
| `UpdateWorker.SendChunks` | experiment/details/aging2_worker.cpp:259-302 | cutting into pieces of the granularity loses and repeats nothing |
| `Pipeline.FinishedReplayIsSerial` | experiment/details/aging2_master.cpp:710-777 | when the master is done the executed updates interleave the whole log and the graph is that of the serial replay, in every run with every schedule and spurious wake-up |
| `Pipeline.HashIsWellConfigured` | experiment/details/aging2_worker.cpp:334 | the hash of the worker is an assignment for which this holds |
| `Pipeline.RemovalsNeverRetry` | experiment/details/aging2_worker.cpp:544-572 | in every reachable state the next call of a worker is accepted by the library |
| `Pipeline.BuffersAreRaceFree` | experiment/details/aging2_master.cpp:721-758 | the loader never writes a buffer that a worker may read, and a task is posted only to an idle worker |
| `Pipeline.WaitMeansDone` | experiment/details/aging2_worker.cpp:131-230 | a posted task runs exactly once, and `wait` returns only after its effects |
| `Pipeline.NeverStuck` | experiment/details/aging2_master.cpp:710-777 | until the master is done some step is enabled |
| `PipelineProgress.EveryScheduleFinishes` | experiment/details/aging2_master.cpp:710-777 | every schedule finishes |
| `ClockPartition.TurnStops` | experiment/details/aging2_master.cpp:817-828 | the clock hand finds an owner within one probe more than there are workers, from any state of the bits |
| `ClockPartition.TurnIsStop` | experiment/details/aging2_master.cpp:817-828 | it passes set bits only and clears them, sets the bit where it stops, which is clear when it is met, and touches no other |
| `ClockPartition.FindOwner` | experiment/details/aging2_master.cpp:817-828 | the loop computes that turn of the clock |
| `ClockPartition.PartitionBlock` | experiment/details/aging2_master.cpp:804-834 | every pair keeps its first owner in a block, and each list is the share of its worker in log order |
| `ClockPartition.OwnerIsMarked` | experiment/details/aging2_master.cpp:814-833 | whenever an update is handed out the bit of its worker is set |
| `ClockPartition.KnownPairKeepsTheHand` | experiment/details/aging2_master.cpp:829-833 | an update of a pair that came before in the block does not move the hand and changes no other bit |
| `ClockPartition.NewPairTurnsTheHand` | experiment/details/aging2_master.cpp:815-828 | a new pair goes where such a turn of the hand stops, and no other pair changes its worker |
| `ClockPartition.EvenPartitionIsSerializable` | experiment/details/aging2_master.cpp:796-834 | so any interleaving of the workers equals the serial replay of the block, in a directed graph |
| `ClockPartition.ReversedPairsAreNotOrdered` | experiment/details/aging2_master.cpp:806-831 | in an undirected graph it need not: the two directions of an edge can have two owners |
| `ReversedPairs.UndirectedPartitionIff` | experiment/details/aging2_master.cpp:796-834 | in an undirected graph all interleavings of a block replay it, from every start, if and only if, for each edge that it uses in both directions, the two have one owner or their last updates have the same effect |
| `ReversedPairs.SerializableIff` | experiment/details/aging2_master.cpp:796-834 | the same for any assignment of ordered pairs to workers |
| `ReversedPairs.NoReversedPairsIsSerializable` | experiment/details/aging2_master.cpp:796-834 | so a block that uses every edge in one direction only is safe |
| `AsyncBatches.DeliveredIsPrefix` | experiment/details/async_batch.cpp:91-189 | in every run the library has received a prefix of the calls: nothing lost, duplicated or reordered |
| `AsyncBatches.FlushDelivers` | experiment/details/async_batch.cpp:65-165 | after a synchronising flush and after destruction it has received all of them |
| `AsyncBatches.RaceFree` | experiment/details/async_batch.cpp:91-160 | the pending batches are fewer than the slots, send index plus pending is the fill index, and the slot being filled is never one that the consumer may read |
| `AsyncBatches.NeverStuck` | experiment/details/async_batch.cpp:48-189 | with two or more batches a thread inside a call can always be continued |
| `AsyncBatches.CallsReturn` | experiment/details/async_batch.cpp:48-189 | every schedule brings every call to its end |
| `AsyncBatches.OneBatchNeverFlushes` | experiment/details/async_batch.cpp:138-144 | with one batch, which the constructor accepts, a flush that has started never returns |
| `AsyncBatches.OneBatchDeadlocks` | experiment/details/async_batch.cpp:138-144 | and it can be reached, with no thread able to move |
| `ByteArrays.BytesPerElementIs` | graph/cbytearray.cpp:24-28 | the number of bytes is the least `k` with `value <= 256^k` |
| `ByteArrays.PowerOf256Is` | graph/cbytearray.cpp:24-28 | the test that the size computed for a value has exactly that value as its limit recognises the powers of 256 |
| `ByteArrays.FitsItselfIff` | graph/cbytearray.cpp:24-28 | a value fits in the bytes computed for it if and only if it is not a power of 256 |
| `ByteArrays.DecodeEncode` | graph/cbytearray.cpp:70-106 | writing and reading `k` bytes keeps the value modulo `256^k` |
| `ByteArrays.CByteArray.GetValueAt` | graph/cbytearray.cpp:70-86 | reads the stored value |
| `ByteArrays.CByteArray.SetValueAt` | graph/cbytearray.cpp:90-106 | stores what fits of the value and disturbs no other element |
| `ByteArrays.Create` | graph/cbytearray.cpp:38-43 | raises unless an element takes between 1 and 8 bytes |
| `ByteArrays.Merge` | graph/cbytearray.cpp:140-172 | the merged array holds the contents one after the other; two element sizes raise |
| `EdgeStreams.TilesExactly` | graph/edge_stream.cpp:151-160 | the ranges of the tasks cover every edge exactly once |
| `EdgeStreams.MakeTasks` | graph/edge_stream.cpp:151-160 | and the split produces such ranges |
| `EdgeStreams.RearrangedIsPermuted` | graph/edge_stream.cpp:137-168 | with a largest vertex above 1 that is no power of 256 the arrays hold the same triples in the order of the permutation |
| `EdgeStreams.PowerIsLost` | graph/edge_stream.cpp:137-168 | with a power of 256 they never do |
| `EdgeStreams.VertexTurnsIntoZero` | graph/edge_stream.cpp:137-168 | the edge (256, 1), which becomes (0, 1) |
| `EdgeStreams.WeightedEdgeStream.DoPermuteEdges` | graph/edge_stream.cpp:137-168 | the three arrays are rewritten in the order of the permutation by parallel tasks, through elements of the computed size |
| `EdgeStreams.WeightedEdgeStream.Permute` | graph/edge_stream.cpp:116-135 | the multiset of triples survives if and only if there are no edges or the largest vertex is no power of 256; a largest vertex of 0 or 1 is refused |
| `EdgeStreams.WeightedEdgeStream.Sort` | graph/edge_stream.cpp:239-296 | the edges come out sorted and are the same as before, under that condition |
| `EdgeStreams.VertexListIff` | graph/edge_stream.cpp:176-199 | the vertex list is exact if and only if the largest vertex is no power of 256 |
| `EdgeStreams.WeightedEdgeStream.Get` | graph/edge_stream.cpp:171-174 | the edge at an index, or an invalid argument |
| `EdgeStreams.WeightedEdgeStream.FromReader` | graph/edge_stream.cpp:41-90 | reading with arrays that double their capacity keeps the sequence of edges |
| `EdgeStreams.WeightedEdgeStream.FromVector` | graph/edge_stream.cpp:92-107 | so does copying a vector |

## Left out

- Sssp.Sssp: distances, weights and `delta` are natural numbers (floating-point rounding and termination over reals are not modelled); the frontier can grow without bound, so the capacity of `m_num_edges` slots is not claimed.
- Sssp.RelaxBucket: the local bins of all threads are one multiset, since a bin is read by its own thread only, and the value `kMaxBin` is the absence of a current bin.
- BaselineSssp.Sssp: weights are natural numbers, as for the other store.
- PageRank.Pagerank: over exact reals; rounding and the order of floating-point additions are not modelled.
- BaselinePageRank.Pagerank: over exact reals.
- Bfs.Bfs: bitmaps are sets, and the distances and counters are unbounded integers.
- Cdlp.Cdlp: a label is written and read whole; chunks of 64 vertices start in any order and any number of them run at the same time.
- CdlpSchedules.EveryScheduleIsExactIff: the schedules are those of as many threads as there are chunks; with fewer threads the condition is still sufficient, but not shown to be necessary.
- LccWorkers.CountAll: an atomic addition may take effect at any later moment, also out of the order of its worker; that allows more than the code does.
- Lcc.LccUndirected: the directed variants (`do_lcc_directed`, `lcc_directed`) are not part of this model.
- BaselineLcc.LccUndirected: the sorted order of the vertices is what `std::sort` is specified to return.
- CsrStore.CSR.Load: the two sorted edge lists and the sorted vertex list are parameters here; `StreamLoader.LoadStream` takes them from a stream. NUMA allocation is not modelled, and weights are opaque integers.
- StreamLoader.LoadStream: a stream whose largest vertex is a power of 256 is not loaded here; the vertex list has then lost that vertex, and no CSR over it holds the edges of the stream (`StreamLoader.SortedVertices`).
- BothStores.LoadBoth: the same.
- AdjacencyLists.AdjacencyList.Run: public operations are atomic (lock acquisition is not modelled), weights are opaque integers, and vertex removals are not among the operations, since one that is not isolated breaks the list (`AdjacencyLists.DeleteVertexIsSoundIff`).
- AdjacencyLists.AdjacencyList.RemoveVertex: the state after deleting a vertex that has edges is stated, but it is no longer a valid list.
- EdgeStreams.WeightedEdgeStream.Permute: `common::permute` is an arbitrary permutation, and `max_weight` is not modelled.
- EdgeStreams.WeightedEdgeStream.Sort: `common::sort` is any permutation that sorts by the comparator.
- ByteArrays.BytesPerElementIs: logarithms are exact; in floating point, a value just above `2^56` can be given a byte too few. The logarithm of 0, which the code converts to an undefined integer, is taken as needing no bytes.
- UpdateWorker.Aging2Worker.MainLoadEdges: random weights are arbitrary parameters, and `std::hash` is an arbitrary function.
- UpdateWorker.Aging2Worker.MainExecuteUpdates: memory accounting and progress reports are not modelled.
- Pipeline.FinishedReplayIsSerial: timeouts and memory thresholds do not fire, blocks of the log are given, the start and stop messages of the workers are not part of the run, and a library call is atomic.
- ClockPartition.PartitionBlock: the list of a worker holds the updates as they are in the log; a weight of zero is drawn as in `UpdateWorker.Drawn`.
- ClockPartition.EvenPartitionIsSerializable: one block; the barrier between blocks is that of `Pipeline`. Undirected graphs are in `ReversedPairs`.
- PipelineProgress.EveryScheduleFinishes: schedules choose between the enabled threads; wake-ups without a notification and the periodic wake-ups of `wait_and_record` are not among their steps. Since the result holds from every reachable state, a run with finitely many of them finishes as well.
- AsyncBatches.CallsReturn: the same for wake-ups without a notification.
- AsyncBatches.DeliveredIsPrefix: one producer, as the class demands of its users.
- Validate.EquivalenceMatch: without a vertex map, and with lines that parse; numbers too large for a signed 64-bit integer are read as the largest one.
- WccAgreement.BaselineAcceptedIff: logical vertices fit in a signed 64-bit integer, as arrays over them have to fit in memory.
- WccAgreement.CsrAcceptedIff: the same.
- The drivers of the foreign systems, the readers, the network protocol, the database, logging, timers and statistics.
