# Khora verification

Khora is a retrieval library. Its hard logic sits in self-contained kernels, written in Rust with
Python fallbacks that are meant to agree with them, and in one asynchronous work queue. This project
models both in Dafny and proves what they promise. Floats are modelled as reals, hash functions, the
logarithm, lower-casing and the approximate band threshold as arbitrary functions, and hash-map
iteration as an arbitrary order.

- **Louvain communities** (`Modularity`, `LouvainRuns`, `Louvain`). The incremental gain formula is
  the change of the global double-sum modularity. From this follow monotonicity, the absence of
  cycles (through the smallest-id tie-break), termination without a limit, local optimality and
  connectedness. The imperative kernel over arrays and maps is proved to compute that run.
- **Deferred batch processing** (`BatchResults`, `PendingProcessor`, `PendingProcessorRuns`, `Arrivals`,
  `TicketOutcomes`, `Submission`, `Histories`, `Leftovers`, `Exclusive`, `Scenarios`, `ChunkSemaphore`). The
  handle and registration objects and the handling of one item are classes and methods in which every
  external call may return, miss its row or raise. A step system interleaves any number of workers,
  submissions, orphan recovery and cancellations. It keeps conservation, exactly-once delivery, callback
  order and the concurrency bound in every run, and every accepted batch finishes, whatever arrives
  meanwhile, unless a cancellation drops one of its items. The two views are connected: in every run the
  result and the engine calls of a ticket are those of the sequential code for the outcomes that its steps
  had. Histories add the stored rows and split a submission into its lookup, its writes and its registration.
  Over them it is decided exactly when a document is processed with leftovers of an earlier attempt, and
  when no document is in two workers' hands.
- **PageRank** (`PageRankModel`, `PageRank`, `PageRankRun`, `Ranking`). Where the score goes in an
  iteration, exactly; contraction, a computable bound for the tolerance test, uniqueness of the fixpoint,
  the compressed-row build, and what the rank-stability stop guarantees.
- **Near-duplicates** (`Leaders`, `Dedup`, `BandingExact`). The sorted-pair pass gives a depth-one forest of
  verified links; banding misses no pair with fewer mismatches than bands; with complete candidates the
  result is that of the quadratic greedy loop; and for which settings it always is that is decided exactly.
- **Forms that must agree with a simple definition** (`Levenshtein`, `Mmr`, `Bm25`, `Bm25Index`,
  `Blocking`, `Rrf`). Each fast form is proved equal to its definition, and the definition is given
  its meaning: cheapest edit script, from-scratch greedy, brute-force top results, filtered all-pairs,
  per-position sum.

The functions that the contracts speak through are written out by lemmas whose names end in `Meaning`, and by the
laws that no other function satisfies: what a sweep does node by node, which share an edge passes on, which n-grams
a text has, how a token's weight, an item's score or a pick comes about.

`Sums`, `Signs`, `Sizes`, `Sorting`, `Vectors`, `Options` and `Edges` hold what several modules share.

Some promises fail. For each there is the input on which it does and the condition under which it holds, which
is exact except for the reset of a row that is worked on.

- The docstring of the chunk semaphore says that the chunks in flight stay within the global limit; since
  a larger request is cut down to the capacity, this holds for tokens, and for chunks exactly while no
  window exceeds the capacity (`ChunkSemaphore.ChunkBoundExact`, `ChunkSemaphore.OversizedWindow`).
- Banding is to find what the quadratic loop finds. It does for all inputs exactly if
  (1 - threshold) times the number of permutations is less than the number of bands
  (`BandingExact.CompleteExactly`, `BandingExact.GreedyExactly`). The defaults, threshold 0.85 with 64
  permutations, give 4 bands and 9.6 is not less than 4: texts whose signatures agree in 60 of 64 places, a
  share of 0.9375, may never be compared (`BandingExact.DefaultBands`, `BandingExact.DefaultsMissPair`).
- A failed or archived document is to be cleared before it is processed again. The mark that asks for
  clearing is kept with one submission in memory, while the row is reset to PENDING in storage. When the
  submission is refused, or a cancellation drops the item, the mark is gone and the row no longer calls for
  one; a recovered orphan has no submission at all; and a clearing call that raises is dropped. Such a
  document is processed with what an earlier attempt left (`Leftovers.ProcessedUnclearedExactly`,
  `Leftovers.OrphanIsNotCleared`, `Scenarios.RefusedThenResubmitted`, `Scenarios.ClearingRaises`).
- A PROCESSING row is to be skipped so as not to race with its worker. That is decided by the looked-up row.
  A PENDING document whose ticket is still queued may be queued again and be worked on twice at a time, and
  a row that a worker takes after the lookup is reset (`Exclusive.OneTicketExactly`,
  `Exclusive.NeverResetsWorkedOn`, `Scenarios.TwoWorkersOneDocument`, `Scenarios.ResetWhileWorkedOn`).
- Every item is to count down its batch once, whatever the callback raises. It does exactly if the exception
  can be rendered for the log (`BatchResults.FiresOnceExactly`, `BatchResults.CallbackNeverHeard`).
- BM25 search goes through the posting lists, so with a minimum of 0 or less it leaves out documents that
  would reach the minimum but share no token with the query (`Bm25Index.Index.NothingMissedExactly`,
  `Bm25Index.Index.MissedDocument`).

## Model

| member | source | states |
|---|---|---|
| Modularity.MoveGain | rust/khora-accel/src/community.rs:84-130 | On a symmetric graph with non-zero weight, whatever the labelling, moving a node from its community to another changes the global double-sum modularity by exactly the difference of the two gains the code computes |
| Modularity.EdgesMeaning | rust/khora-accel/src/community.rs:55-69 | The total, the strengths and the pair weights are sums of edge weights, an edge counting when its ends are in range and different |
| Modularity.QualityMeaning | rust/khora-accel/src/community.rs:11-31 | The quality is the modularity of the literature with a resolution: over all equally labelled pairs, the share of the weight less the share expected from the strengths |
| Modularity.GainMeaning | rust/khora-accel/src/community.rs:103-117 | The gain of a community is the node's weight into it over m, less resolution times the strength of its other members times the node's strength over 2 m m |
| Modularity.BlocksAfterMove | rust/khora-accel/src/community.rs:84-130 | For any symmetric matrix, relabelling one node changes the sum over equally labelled pairs by twice the difference of that node's two row sums |
| Modularity.RowIsHalfGain | rust/khora-accel/src/community.rs:103-117 | The gain formula is twice the node's row of the modularity matrix, restricted to the community and without the node itself |
| Modularity.IntoByNeighbour | rust/khora-accel/src/community.rs:96-101 | The weight gathered edge by edge into a community equals the sum of pair weights over its members |
| LouvainRuns.Best | rust/khora-accel/src/community.rs:108-126 | There is exactly one best community under the order (gain, then smaller id), so the choice cannot depend on map iteration order |
| LouvainRuns.SweepMeaning | rust/khora-accel/src/community.rs:84-130 | A sweep takes the nodes from the first to the last: with the nodes before it relabelled and those after it not, each node of non-zero strength ends in the surrounding community of highest gain, the smallest id among equally good ones, and every other node keeps its label |
| LouvainRuns.SweepDetermined | rust/khora-accel/src/community.rs:84-130 | Only one labelling is reached in that way, so this is what a sweep is |
| LouvainRuns.SweepsMeaning | rust/khora-accel/src/community.rs:81-140 | No sweep leaves the labels as they are, and each further one starts where the one before ended |
| LouvainRuns.SettleProgress | rust/khora-accel/src/community.rs:84-135 | A node's move leaves the labelling alone, or raises the pair (modularity, minus the label sum) lexicographically |
| LouvainRuns.ModularityNeverDecreases | rust/khora-accel/src/community.rs:81-140 | Modularity after more sweeps is never below that after fewer |
| LouvainRuns.NeverRevisits | rust/khora-accel/src/community.rs:81-140 | If two moments of a run, at any moves of any sweeps, carry the same labelling, then so does every moment in between: no labelling is left and seen again |
| LouvainRuns.UnchangedSweep | rust/khora-accel/src/community.rs:132-139 | A sweep that ends in the labelling it started from has moved no node at all, so the flag and the labelling agree |
| LouvainRuns.LocalOptimum | rust/khora-accel/src/community.rs:137-139 | When a sweep changes nothing, no move of one node to a neighbour's community raises modularity, and a move to a smaller label strictly lowers it |
| LouvainRuns.SweepsSettle | rust/khora-accel/src/community.rs:81-140 | Without any limit on the sweeps, nothing moves any more after at most n to the n of them |
| LouvainRuns.CommunitiesAreConnected | rust/khora-accel/src/community.rs:96-130 | After any number of sweeps from singletons, two nodes with the same label are joined by a path of edges |
| LouvainRuns.ConnectedMeaning | rust/khora-accel/src/community.rs:61-66 | Connected means joined by a sequence of nodes with an edge, of two different nodes in range, between each and the next |
| LouvainRuns.SettleAnchored | rust/khora-accel/src/community.rs:84-135 | A move keeps every node connected to the node whose index is its label |
| Louvain.BuildAdjacency | rust/khora-accel/src/community.rs:55-69 | Adjacency lists, strengths and total weight count exactly the in-range edges without self-loops; the total is twice the undirected weight |
| Louvain.GatherWeights | rust/khora-accel/src/community.rs:96-101 | The map holds, for exactly the communities around the node, the total weight of the node's edges into each |
| Louvain.ChooseCommunity | rust/khora-accel/src/community.rs:103-126 | Whatever order the map hands out its entries, the chosen community is the best of them and the present one, smallest id on ties |
| Louvain.MoveNode | rust/khora-accel/src/community.rs:84-135 | One move gives the settled labelling, keeps the community totals equal to the strengths of their members, and reports a move exactly when the labelling changed |
| Louvain.MoveNodes | rust/khora-accel/src/community.rs:81-140 | The loop with its early exit ends in the labelling after max_iter full sweeps, each in the order of LouvainRuns.SweepMeaning, with the community totals right; where it leaves early no further sweep changes the labelling, which on symmetric non-negative graphs is then a local optimum |
| Louvain.Compact | rust/khora-accel/src/community.rs:142-157 | The renaming keeps the partition of the nodes with positive strength, uses 0, 1, 2, … in order of first appearance, and gives -1 to all others |
| Louvain.CompactNumberingMeaning | rust/khora-accel/src/community.rs:142-157 | -1 exactly for nodes without positive strength, equal numbers exactly for equal labels, and a number only once all smaller ones have been given |
| Louvain.CompactNumberingIsUnique | rust/khora-accel/src/community.rs:142-157 | Only one list of numbers is such a renaming |
| Louvain.Initialise | rust/khora-accel/src/community.rs:76-79 | Singletons with matching community totals |
| Louvain.DetectCommunities | rust/khora-accel/src/community.rs:44-160 | -1 everywhere when the weights sum to zero; otherwise the compact renaming of the labelling after max_iter sweeps from singletons, with sweep and renaming as SweepMeaning, SweepsMeaning and CompactNumberingMeaning write them out |
| Louvain.QualityOfNumbers | rust/khora-accel/src/community.rs:142-157 | Renaming the communities and setting the nodes without strength aside leaves modularity as it is |
| Louvain.ResultOnSymmetricGraphs | rust/khora-accel/src/community.rs:24-31 | On symmetric non-negative graphs, -1 marks exactly the nodes without strength, equal numbers lie in one connected component, and the returned numbers have the modularity of the final labelling, at least that of the singletons |
| BatchResults.FireAllConsistent | src/khora/khora.py:509-518 | Firing at most total results from the start keeps total = completed + remaining, done exactly when nothing remains, and call number i reporting i completed |
| BatchResults.BatchRegistration.FireResult | src/khora/khora.py:509-518 | The result is recorded and handed to the callback with the new count, and counted down once, unless the callback raises something that cannot be rendered for the log: then that exception escapes and nothing is counted down; the handle is done from the moment nothing remains |
| BatchResults.LoadPendingDocument | src/khora/khora.py:1183-1224 | A missing row fires one skipped result and no document, and raises if that result could not be counted; a raising load fires nothing |
| BatchResults.ProcessPendingItem | src/khora/khora.py:1244-1381 | What is handed to the callback, and whether an exception escapes, for every combination of outcomes; the engine processes only after the clearing calls of a marked document, even when those raise |
| BatchResults.HandleItem | src/khora/khora.py:1006-1097 | For every combination of outcomes nothing is raised into the worker loop and all results handed to the callback are given, in order; exactly one with the right flags unless the callback raises what cannot be rendered; the engine calls are those the outcomes lead to, clearing calls before processing |
| BatchResults.FiresOnceExactly | src/khora/khora.py:509-518 | The handling of an item comes to one result, counted down once, if and only if the exception, if any, of the callback's first invocation for it can be rendered |
| BatchResults.FiringsMeaning | src/khora/khora.py:1006-1097 | All that the callback is handed for an item, written out: first one result, a success exactly for a missing row (reported as skipped) or when no call raised on a supporting engine; then up to two failures, the number decided by which call raised and which callback exceptions cannot be rendered |
| BatchResults.CallbackNeverHeard | src/khora/khora.py:514-516 | The concrete batch of one document that is processed without fault: a callback that keeps raising what cannot be rendered is told of one success and two failures, and the batch never gets done |
| PendingProcessor.StepKeepsInv | src/khora/khora.py:975-1097 | Every step of every worker, submission, orphan recovery, start and cancellation keeps the invariant: each ticket is in exactly one place, each batch's counters follow its settled tickets, slots balance |
| PendingProcessorRuns.RunKeepsInv | src/khora/khora.py:975-1105 | The invariant holds in every state of every run |
| PendingProcessorRuns.Conservation | src/khora/khora.py:489-518 | A batch's total is always completed + queued + held by workers + dropped by cancellation |
| PendingProcessorRuns.DoneMeansDelivered | src/khora/khora.py:509-518 | A handle is done exactly when the batch was not refused and nothing of it is queued, held or dropped |
| PendingProcessorRuns.CallsPerDocument | src/khora/khora.py:509-518 | The callback invocations that name a document are as many as its settled tickets in the batch |
| PendingProcessorRuns.ExactlyOnce | src/khora/khora.py:1053-1095 | Among the callback invocations after those made at submission, a document queued once is named exactly once when it is settled and never before, whichever calls raise |
| PendingProcessorRuns.CallbackOrder | src/khora/khora.py:509-518 | The callback sees completed = 1, 2, 3, … never above the total, with the same total throughout, and never after the handle is done |
| PendingProcessorRuns.InFlightBounded | src/khora/khora.py:1237-1242 | At most max_concurrent documents of a batch are inside its semaphore at any time |
| PendingProcessorRuns.StuckMeansIdle | src/khora/khora.py:1006-1105 | No deadlock on queue or semaphores: when no worker can go on, the queue is empty and all workers are idle |
| PendingProcessorRuns.ProcessedOnceAndCleared | src/khora/khora.py:1281-1342 | In every run, a queued item reaches the engine at most once, and if the registration it came with marks its document, all available clearing calls for it came first |
| PendingProcessorRuns.StepsFollowHandling | src/khora/khora.py:1006-1097 | The steps of a worker left alone fire exactly the result that the sequential handling fires, for every outcome of its calls |
| PendingProcessorRuns.StepFires | src/khora/khora.py:1006-1097 | Which step of a worker settles its ticket, with which result, what that does to the counters, the countdown and the calls, and which steps reach the engine, written out |
| PendingProcessorRuns.StepGoesOn | src/khora/khora.py:1229-1381 | Where a worker goes with its ticket after each step, and when it takes and gives back its slot, written out |
| Arrivals.StepKeepsFifo | src/khora/khora.py:1006-1018 | Under every step, submissions and recovered orphans included, tickets leave the queue in the order in which they entered it |
| Arrivals.RunIsFifo | src/khora/khora.py:1006-1018 | So it is in every state of every run |
| Arrivals.ServingLowersWork | src/khora/khora.py:1006-1097 | A step that serves one of the tickets there were at some moment strictly lowers the work left for them, and whatever else happens, arrivals included, leaves it unchanged |
| Arrivals.EveryBatchFinishes | src/khora/khora.py:1053-1070 | However the workers are scheduled and whatever is submitted or recovered meanwhile, only so many steps serve the tickets there are now, and once none of them can be served every accepted batch that lost nothing to a cancellation is done |
| TicketOutcomes.ResultIsOutcome | src/khora/khora.py:1006-1097 | In every run, however other steps interleave, the callback gets for a ticket the result that the sequential handling fires for the outcomes which that ticket's own steps had |
| TicketOutcomes.OutcomesExist | src/khora/khora.py:1006-1097 | In every run the steps of a ticket have such outcomes: no await of its handling is passed twice |
| TicketOutcomes.CallsAreOutcomes | src/khora/khora.py:1281-1342 | In every run, the engine calls made for a settled ticket are those of the sequential handling for its outcomes, in the same order |
| Histories.HistoryKeepsInv | src/khora/khora.py:2110-2344 | In every history of the processor, the stored rows and any number of submissions under way, with anything going on between a lookup, its writes and the registration, the processor keeps its invariants, a clearing call is made for marked tickets only, and no submission queues a document twice |
| Histories.SubmitsTheLists | src/khora/khora.py:2286-2336 | The lists and marks into which a submission sorts its documents are those that it registers in such a history |
| Histories.CalledOnce | src/khora/khora.py:2286-2344 | In every history, the callback of an accepted submission is called exactly once for each of its queued documents that is settled, and never before, whatever is submitted, recovered, raised or cancelled |
| Histories.MarkedMeans | src/khora/khora.py:2194-2202 | A queued document with an existing row is marked exactly when the lookup found that row FAILED or ARCHIVED |
| Histories.TicketMarked | src/khora/khora.py:2194-2202 | So is the ticket that an accepted submission gets for it |
| Histories.WriteResets | src/khora/khora.py:2203-2232 | Writing a queued document makes its row PENDING and leaves the rest of it, chunks and extraction state, in place |
| Histories.WriteCreates | src/khora/khora.py:2233-2271 | A document without a stored row is created as PENDING with nothing left behind, or nothing is written when its looked-up row is gone |
| Histories.RowAfterMove | src/khora/khora.py:1281-1381 | What each move does to a stored row, written out: which set the status and to what, which clearing call takes away what, and that no other move touches the row |
| Histories.RefusedLosesMark | src/khora/khora.py:2338-2344 | A refused submission queues nothing and leaves the rows as they were written, so that what marked them is gone |
| Leftovers.LeftExactly | src/khora/khora.py:1281-1295 | Over any stretch of a history in which the engine does not write a document and nobody removes it, what was left of it is still there if and only if no clearing call for it has returned |
| Leftovers.CalledAtStart | src/khora/khora.py:1281-1295 | When the engine starts on a ticket, each clearing call has been made for it if and only if the ticket is marked and the call exists |
| Leftovers.ProcessedUnclearedExactly | src/khora/khora.py:1281-1342 | A queued document is processed with exactly those leftovers for which no clearing call returned, raising calls included; and a call is made for its ticket if and only if the lookup found the row FAILED or ARCHIVED and the call exists |
| Leftovers.ClearedWhenCallsReturn | src/khora/khora.py:1281-1295 | When those calls return, and none is made for another ticket of the document, what was left is still there if and only if the lookup found the row neither FAILED nor ARCHIVED or the call does not exist |
| Leftovers.RequeuedIsClearedFirst | src/khora/khora.py:2194-2232 | A document whose row the lookup found FAILED or ARCHIVED reaches the engine once with that ticket, after all available clearing calls for it |
| Leftovers.OrphanIsNotCleared | src/khora/khora.py:1148-1163 | For a recovered orphan no clearing call is ever made: it is processed with all that no other ticket's call has cleared |
| Exclusive.OneTicketExactly | src/khora/khora.py:2194-2232 | Throughout a history no document has two tickets queued or held at a time if and only if no submission is registered with, and no claim made of, a document that has a queued or held ticket |
| Exclusive.NoSharedDocument | src/khora/khora.py:1006-1014 | While that holds, no two workers have the same document in their hands |
| Exclusive.NeverResetsWorkedOn | src/khora/khora.py:2165-2232 | If a document has no ticket when it is looked up and gets none before its row is written, the row that is overwritten is neither PROCESSING nor COMPLETED, and ARCHIVED only with the flag |
| Scenarios.RefusedThenResubmitted | src/khora/khora.py:2338-2344 | The concrete history: a FAILED document with leftovers is submitted while no processor runs and is refused, and submitted again it reaches the engine with all leftovers in place |
| Scenarios.ClearingRaises | src/khora/khora.py:1281-1295 | The concrete history: a FAILED document is accepted and marked, both clearing calls are made and raise, and the engine starts on it with all leftovers in place |
| Scenarios.TwoWorkersOneDocument | src/khora/khora.py:2194-2232 | The concrete history: a document is submitted again while its first ticket is queued, and two workers are at the engine with it at the same time |
| Scenarios.ResetWhileWorkedOn | src/khora/khora.py:2165-2232 | The concrete history: a document is looked up as PENDING, a worker takes it and the engine makes it PROCESSING, and then the submission resets the row and queues it once more |
| Submission.Dispatch | src/khora/khora.py:2163-2271 | Written out by status: a COMPLETED or PROCESSING row, or an ARCHIVED one without the flag, is left as it is and skipped; any other is written as PENDING with the new content and is queued if the write returns and pre-failed if it raises; a FAILED or re-activated row is marked and no other |
| Submission.ChosenExact | src/khora/khora.py:2146-2271 | Each list holds exactly the inputs of its fate, in input order |
| Submission.FatesAddUp | src/khora/khora.py:2286-2305 | Queued, pre-failed, pre-completed and repeated inputs together are all the inputs |
| Submission.MarkedIdsExact | src/khora/khora.py:2198-2202 | The marked ids are exactly those of first occurrences whose row had failed or was archived with the flag |
| Submission.SortOne | src/khora/khora.py:2146-2271 | Sorting one more document keeps the lists right, keeps every entry of all three lists on its own row, and touches no row of a later external id |
| Submission.SortDocuments | src/khora/khora.py:2146-2271 | The three lists and the marked ids are those of the whole input; an entry stands for the existing row of its external id or else for the new id; pending and pre-failed rows are PENDING with the submitted content; an existing row that is left alone, or that no document names, is unchanged |
| Submission.WhereEachGoes | src/khora/khora.py:2146-2271 | For every input, with the statuses written out: it is in the pre-completed list exactly if it is no repeat and its row was COMPLETED or PROCESSING, or ARCHIVED without the flag; in the pending list exactly if it is no repeat, not of those, and its write returned; in the pre-failed list exactly if that write raised |
| Submission.OrderAndMarks | src/khora/khora.py:2146-2202 | Each list keeps the order of the inputs, and an id is marked exactly if some input names its row and the row was FAILED, or ARCHIVED with the flag |
| Submission.ListsPartition | src/khora/khora.py:2288-2303 | Every document that is not a repeat within the batch is in exactly one list, once, and the three lengths add up to the number of such documents |
| Submission.RequeuedRows | src/khora/khora.py:2165-2202 | No completed or processing row is queued again, an archived one only with the flag, and every queued row that had failed or was archived is marked for clearing |
| Submission.FireEach | src/khora/khora.py:2307-2332 | Results known at submission are fired one for one and in order, up to the first, if any, at which the callback raises what cannot be rendered; that one is told and not counted, and the exception escapes |
| Submission.Register | src/khora/khora.py:2286-2336 | The registration starts with the sum of the three lists; it then hands over a failure for each failed and a skipped success for each skipped document, in order, all of them exactly if no exception of the callback is one that cannot be rendered, and otherwise up to the first such, which is told and not counted down; then the failures are counted, the pending documents remain, and the batch is done exactly if there are none |
| Submission.RegistersAsSubmitted | src/khora/khora.py:2286-2344 | The step system starts a batch with the counters of the registration, the marked ids, and the pending documents, in order, as the next tickets and at the end of the queue, or refuses it and queues nothing |
| ChunkSemaphore.GlobalChunkSemaphore.constructor | src/khora/khora.py:191-194 | Nothing is in flight |
| ChunkSemaphore.GlobalChunkSemaphore.Acquire | src/khora/khora.py:200-208 | Grants the request cut down to the capacity and adds it, never passing the capacity |
| ChunkSemaphore.GlobalChunkSemaphore.Release | src/khora/khora.py:210-216 | Subtracts the tokens, or reports an underflow and changes nothing |
| ChunkSemaphore.StepKeepsInv | src/khora/khora.py:200-216 | A step of any client that gives back what it was granted keeps in-flight equal to the sum of the grants and within the capacity, and a release does not underflow |
| ChunkSemaphore.RunKeepsInv | src/khora/khora.py:186-216 | In every run from the fresh semaphore, under every interleaving, in-flight is the sum of the grants, the capacity is the one it started with, and no release underflows |
| ChunkSemaphore.NoDeadlock | src/khora/khora.py:186-209 | While a client waits, it can be granted or some client is working and will give back |
| ChunkSemaphore.ChunkBoundExact | src/khora/khora.py:179-189 | The chunks (not tokens) in flight stay within the capacity if and only if no working window is larger than the capacity |
| ChunkSemaphore.OversizedWindow | src/khora/khora.py:179-189 | A concrete window of 10 chunks runs on 5 tokens, so the promised chunk limit fails there |
| PageRankModel.SharesOfSource | rust/khora-accel/src/pagerank.rs:187-195 | The normalised weights of a node's outgoing edges sum to exactly 1 if its out-degree is positive, and are 0 otherwise |
| PageRankModel.OutDegreeMeaning | rust/khora-accel/src/pagerank.rs:168-173 | The out-degree is the weight of the edges that leave the node, those with an end out of range left out |
| PageRankModel.ShareMeaning | rust/khora-accel/src/pagerank.rs:187-195 | For an edge in range whose source has positive out-degree, the normalised weight times that out-degree is the weight; for any other edge it is 0 |
| PageRankModel.InflowTotal | rust/khora-accel/src/pagerank.rs:220-227 | All nodes together receive exactly the score held by the nodes with positive out-degree |
| PageRankModel.IterateMeaning | rust/khora-accel/src/pagerank.rs:219-228 | One iteration gives a node (1 - d) times its teleport entry plus d times, over its incoming edges, weight over out-degree times the score of the source, written out |
| PageRankModel.TotalAfterMeaning | rust/khora-accel/src/pagerank.rs:217-230 | The total after an iteration is exactly (1 - d) plus d times the score held by the nodes with positive out-degree |
| PageRankModel.TotalIsOne | rust/khora-accel/src/pagerank.rs:217-230 | When every node has positive out-degree the scores add up to exactly 1 in every iterate |
| PageRankModel.DistanceMeaning | rust/khora-accel/src/pagerank.rs:218-229 | The distance moved is the sum of the absolute differences |
| PageRankModel.InflowBounded | rust/khora-accel/src/pagerank.rs:220-227 | All nodes together receive at most the total score |
| PageRankModel.ScoresAreSubDistribution | rust/khora-accel/src/pagerank.rs:142-235 | With non-negative weights and damping in [0, 1], scores stay non-negative with total at most 1 after every iteration |
| PageRankModel.Contraction | rust/khora-accel/src/pagerank.rs:217-230 | One iteration brings any two score vectors closer, in the sum of absolute differences, by the damping factor |
| PageRankModel.DiffShrinks | rust/khora-accel/src/pagerank.rs:217-235 | The move of an iteration is at most the damping factor times the previous move |
| PageRankModel.LaterScores | rust/khora-accel/src/pagerank.rs:217-235 | After iteration t the scores never move further, over any number of later iterations, than d/(1-d) times the move of iteration t |
| PageRankModel.DiffBound | rust/khora-accel/src/pagerank.rs:217-235 | The move of iteration t is at most 2 d^(t+1) |
| PageRankModel.ToleranceIsReached | rust/khora-accel/src/pagerank.rs:233-235 | Any iteration t with (t+1)(1-d) tol ≥ 2 moves the scores by less than the tolerance, so the loop ends within a bound known beforehand |
| PageRankModel.FixpointUnique | rust/khora-accel/src/pagerank.rs:217-230 | At most one vector is left unchanged by an iteration |
| PageRankModel.DistanceToFixpoint | rust/khora-accel/src/pagerank.rs:233-235 | The scores are within d/(1-d) times the last move of the fixpoint |
| PageRank.TeleportIsDistribution | rust/khora-accel/src/pagerank.rs:138-154 | Whatever personalization is given (wrong length, negative, all zero), the teleport vector is non-negative with sum 1 |
| PageRank.TeleportAddsUp | rust/khora-accel/src/pagerank.rs:138-154 | The same written out: non-negative entries with sum 1 |
| PageRank.TeleportFollows | rust/khora-accel/src/pagerank.rs:142-151 | For a personalization of the right length with a positive entry, the entries are in the proportion of its own, negative ones taken as 0 |
| PageRank.TeleportFallsBack | rust/khora-accel/src/pagerank.rs:149-154 | For any other the entries are all the same |
| PageRank.ResolveTeleport | rust/khora-accel/src/pagerank.rs:142-154 | Clips, normalises or falls back to the uniform vector |
| PageRank.CountEdges | rust/khora-accel/src/pagerank.rs:166-173 | Out-degrees and in-counts over the in-range edges |
| PageRank.RowPointers | rust/khora-accel/src/pagerank.rs:174-178 | Row pointers are the running sums of the in-counts |
| PageRank.NextPlace | rust/khora-accel/src/pagerank.rs:181-190 | The next free place of a row lies inside that row's slice and collides with no place already used |
| PageRank.Scatter | rust/khora-accel/src/pagerank.rs:181-197 | After the scatter every node's slice holds exactly its valid incoming edges, in input order, with the shares of ShareMeaning |
| PageRank.BuildRows | rust/khora-accel/src/pagerank.rs:166-197 | Counting, prefix sums and scatter together build those slices |
| PageRank.RowInflow | src/khora/_accel.py:656-690 | Summing a node's list of incoming edges, as the adjacency-list form does, equals summing the matching edges of the edge list |
| PageRank.Contribution | rust/khora-accel/src/pagerank.rs:221-226 | Summing a node's slice gives its inflow |
| PageRank.Step | rust/khora-accel/src/pagerank.rs:217-230 | One iteration into the other buffer is one application of the iteration map, and diff is the distance moved |
| PageRankRun.TopKInto | rust/khora-accel/src/pagerank.rs:83-108 | Partial selection, truncation and a sort of the prefix give the first k of the full sort by (score descending, index ascending), whatever the selection does beyond its promise |
| Ranking.TopKMeaning | src/khora/_accel.py:575-588 | min(k, n) nodes, of falling score and of rising index where the score is the same; a node left out has a lower score than each of them, or the same score and a higher index |
| PageRankRun.StableRunMeaning | rust/khora-accel/src/pagerank.rs:241-255 | The stability counter reaches r exactly when the last r + 1 iterates have the same top-k order |
| PageRankRun.EarlyStopIsStable | rust/khora-accel/src/pagerank.rs:237-255 | If the rank test ended the run, the last stable_iters + 1 iterates have the same top-k order |
| PageRankRun.UnwatchedRunIsPlain | rust/khora-accel/src/pagerank.rs:237-242 | With rank_k absent or 0, or stable_iters 0, the run is the plain tolerance loop |
| PageRankRun.RunLengthUnique | rust/khora-accel/src/pagerank.rs:217-256 | The stopping rules determine the number of iterations |
| PageRankRun.ScoresMeaning | rust/khora-accel/src/pagerank.rs:202-231 | The scores start as the teleport vector and every iterate is one iteration of the one before |
| PageRankRun.StopsMeaning | rust/khora-accel/src/pagerank.rs:233-255 | When an iteration is the last, written out: the scores moved by less than the tolerance, or rank_k, stable_iters and n are positive and the stable_iters iterates before have the same first rank_k nodes in the same order |
| PageRankRun.ResultMeaning | rust/khora-accel/src/pagerank.rs:217-259 | The result is the scores after at most max_iter iterations of which none before the last stops the run, and the last does unless the limit is reached |
| PageRankRun.TestsEndRun | rust/khora-accel/src/pagerank.rs:217-256 | With max_iter above the computed bound, the run is ended by one of its tests and not by max_iter, whatever else is watched |
| PageRankRun.ToleranceEndsRun | rust/khora-accel/src/pagerank.rs:217-242 | Without a watched order it is the tolerance test that ends it, within that bound |
| PageRankRun.FinalScoresSettled | rust/khora-accel/src/pagerank.rs:233-235 | When the tolerance test ends the run, going on for any number of iterations would move the scores by less than d/(1-d) times the tolerance in all |
| PageRankRun.FinalScoresNearFixpoint | rust/khora-accel/src/pagerank.rs:233-235 | And a fixpoint, where there is one, is as close |
| PageRankRun.TestOrder | rust/khora-accel/src/pagerank.rs:241-255 | Comparing with the previous order and counting decides whether the stable run is long enough |
| PageRankRun.Iterations | rust/khora-accel/src/pagerank.rs:199-256 | The loop over two swapped buffers returns the scores after exactly as many iterations as the stopping rules allow |
| PageRankRun.ComputePageRank | rust/khora-accel/src/pagerank.rs:123-259 | Empty for n = 0; otherwise the scores of ScoresMeaning and IterateMeaning after the number of iterations that ResultMeaning and StopsMeaning determine, from the teleport vector, for every edge list, in range or not |
| Dedup.ComputeMinHash | rust/khora-accel/src/dedup.rs:58-74 | For each seed the least hash over the text's n-grams, which NgramsMeaning and SignatureMeaning write out |
| Dedup.NgramsMeaning | rust/khora-accel/src/dedup.rs:34-49 | With three words or more the n-grams are every three words in a row joined by blanks, two fewer than there are words, in order; with fewer the whole text, if it is not empty |
| Dedup.SignatureMeaning | rust/khora-accel/src/dedup.rs:58-74 | With three words or more each entry is the least hash, with its seed, of three words in a row; with one or two it is the hash of the text, and the largest 64-bit number for the empty text |
| Dedup.SimilarMeaning | rust/khora-accel/src/dedup.rs:76-82 | Two signatures are similar exactly if there are positions and the agreeing ones are at least the threshold times their number |
| Dedup.CandidatesMeaning | rust/khora-accel/src/dedup.rs:168-195 | Two signatures are compared exactly if they agree on the band hash of the same rows consecutive positions, starting at a multiple of rows below bands times rows |
| Dedup.SameNgramsSameHash | rust/khora-accel/src/dedup.rs:58-74 | A signature depends only on the set of n-grams |
| Dedup.OptimalBands | rust/khora-accel/src/dedup.rs:94-111 | The result always divides num_perm, is closest to the target among the divisors, and the smallest of those equally close |
| Dedup.TilingMeaning | rust/khora-accel/src/dedup.rs:94-111 | The number of bands divides num_perm, and every other divisor has an approximate threshold at least as far from the target, farther if it is smaller |
| Dedup.OneMismatchPerBand | rust/khora-accel/src/dedup.rs:168-180 | If each band differs somewhere, at least as many positions differ as there are bands |
| Dedup.FewMismatchesShareBucket | rust/khora-accel/src/dedup.rs:164-195 | Two signatures that differ in fewer positions than there are bands share a bucket, whatever the band hash |
| BandingExact.CompleteExactly | rust/khora-accel/src/dedup.rs:164-195 | Whatever the signatures, every pair at or above the threshold is a candidate if and only if (1 - threshold) num_perm < bands, or the band hash is the same for all bands |
| Dedup.FillBuckets | rust/khora-accel/src/dedup.rs:168-180 | Each bucket lists, in order, exactly the signatures whose band hashes to it |
| Dedup.CollectPairs | rust/khora-accel/src/dedup.rs:182-195 | The candidate pairs are exactly the pairs (lower, higher) that share a bucket |
| Dedup.SortPairs | rust/khora-accel/src/dedup.rs:201-203 | The sorted list holds each candidate pair once, in lexicographic order |
| Dedup.FollowLinks | rust/khora-accel/src/dedup.rs:211-217 | Following the chain from an item ends at its root |
| Dedup.TestPair | rust/khora-accel/src/dedup.rs:205-223 | One pair updates the links as the leader rule demands |
| Dedup.MarkDuplicates | rust/khora-accel/src/dedup.rs:197-223 | After the pass over the sorted pairs every item is linked to its first candidate root that is similar enough, or to none |
| Leaders.LinksAreDepthOne | rust/khora-accel/src/dedup.rs:205-223 | Every link points to an earlier item that has no link itself, and was verified at or above the threshold |
| Leaders.LeaderMeaning | rust/khora-accel/src/dedup.rs:205-223 | What an item is linked to, written out: the root of its first earlier candidate partner whose root is similar to it, and nothing exactly if there is none |
| Leaders.GreedyMeaning | src/khora/_accel.py:2111-2125 | What the quadratic loop links an item to, written out: the first earlier item without a link that is similar to it |
| Leaders.LeaderPersists | rust/khora-accel/src/dedup.rs:205-217 | Once set, a link never changes: roots are final |
| Leaders.LeaderIsGreedy | src/khora/_accel.py:2111-2125 | If every similar pair is a candidate, the pass over the pairs gives the links of the quadratic greedy loop |
| BandingExact.GreedyExactly | src/khora/_accel.py:2111-2125 | Whatever the signatures, the banded pass finds the leaders of the quadratic greedy loop if and only if the same condition holds |
| BandingExact.DefaultBands | rust/khora-accel/src/dedup.rs:94-111 | With the default 64 permutations and threshold 0.85, and the estimate being the root of one over the bands, the choice is 4 bands of 16 rows |
| BandingExact.DefaultsInsufficient | rust/khora-accel/src/dedup.rs:140 | With 4 bands of 16 rows the condition holds only for thresholds above 0.9375, so not for the default |
| BandingExact.DefaultsMissPair | rust/khora-accel/src/dedup.rs:140 | The concrete pair at the defaults: two signatures that agree in 60 of 64 places are never compared, and the second stays unmarked where the quadratic loop marks it as a duplicate of the first |
| Dedup.CopiesAreMarked | rust/khora-accel/src/dedup.rs:197-223 | A chunk with the signature of an earlier one is always marked, as a duplicate of that one's root, for every threshold up to 1 |
| Dedup.GreedyPass | src/khora/_accel.py:2109-2127 | The fallback's double loop computes the greedy links |
| Dedup.DeduplicateChunks | rust/khora-accel/src/dedup.rs:151-227 | Signatures, the closest tiling into bands, candidates and pass together: each position with the leader it duplicates; all four are written out by SignatureMeaning, TilingMeaning, CandidatesMeaning with SimilarMeaning, and LeaderMeaning |
| Levenshtein.NoCheaperScript | src/khora/_accel.py:480-490 | No edit script from one string to the other costs less than the recursive distance |
| Levenshtein.CheapestScript | src/khora/_accel.py:480-490 | Some edit script has exactly that cost |
| Levenshtein.EditMeaning | src/khora/_accel.py:480-490 | What the edits of a script do to the end of a string, and that each but keeping a character costs one |
| Levenshtein.DistanceMeaning | src/khora/_accel.py:480-490 | The distance written out: the length for an empty string; otherwise the least of three distances of shorter strings, with one more for a deletion, an insertion or a replacement |
| Levenshtein.Symmetric | src/khora/_accel.py:480-491 | The distance is symmetric |
| Levenshtein.Triangle | src/khora/_accel.py:480-491 | The distance satisfies the triangle inequality |
| Levenshtein.ZeroMeansEqual | src/khora/_accel.py:471-475 | The distance is 0 exactly for equal strings |
| Levenshtein.Bounds | src/khora/_accel.py:490-491 | The distance is at most the longer length and at least the difference of the lengths |
| Levenshtein.ComputeDistance | src/khora/_accel.py:480-490 | The row-by-row table gives the recursive minimum edit distance for all strings |
| Levenshtein.LevenshteinSimilarity | src/khora/_accel.py:463-491 | The similarity lies in [0, 1] and is 1 exactly when the lower-case strings are equal |
| Levenshtein.SimilarityMeaning | src/khora/_accel.py:475-491 | Similarity times the longer length, plus the distance, is the longer length, and empty strings have similarity 1 |
| Levenshtein.SimilaritySymmetric | src/khora/_accel.py:463-491 | The order of the two strings does not matter |
| Mmr.PickBest | rust/khora-accel/src/mmr.rs:72-97 | The scan picks the first item of greatest value among those left |
| Mmr.MaxSimIsGreatest | rust/khora-accel/src/mmr.rs:99-123 | The maximum similarity of an item bounds its dot product with every selected item and is attained by one |
| Mmr.PickMeaning | rust/khora-accel/src/mmr.rs:75-97 | Every pick, written out: lambda times its score less (1 - lambda) times its greatest similarity to the earlier picks, with nothing below 0, exceeds that of every item not yet picked, or equals it and has the smaller position |
| Mmr.LessSimilarFirst | rust/khora-accel/src/mmr.rs:75-97 | With lambda below 1, of items with equal scores the one with the smaller clamped similarity to the earlier picks is picked first |
| Vectors.DotMeaning | rust/khora-accel/src/mmr.rs:133-137 | The product of two vectors is the sum of the products of their entries |
| Mmr.Select | rust/khora-accel/src/mmr.rs:99-123 | After a pick, every running maximum is again the greatest dot product with the selected items |
| Mmr.DiversitySelect | rust/khora-accel/src/mmr.rs:23-128 | min(k, n) picks, each the one the from-scratch greedy makes; a length mismatch is an error |
| Mmr.GreedyInRange | rust/khora-accel/src/mmr.rs:156-201 | Picks are distinct valid positions |
| Mmr.GreedyIsPrefix | rust/khora-accel/src/mmr.rs:156-201 | The selection for a smaller k is a prefix of that for a larger one |
| Mmr.PureRelevance | rust/khora-accel/src/mmr.rs:75-97 | With lambda 1 the picks are the first k of the descending sort by score, ties by position |
| Bm25.NumberedIsNumbering | rust/khora-accel/src/bm25.rs:110-116 | Token numbers stay distinct and below the vocabulary size, and old ones do not change |
| Bm25.PostingsExact | rust/khora-accel/src/bm25.rs:347-351 | A posting list holds exactly the documents with the token |
| Bm25.ScoreSigns | rust/khora-accel/src/bm25.rs:206-222 | For k1 ≥ 0, b in [0, 1] and a logarithm positive above 1, scores are non-negative, and positive exactly for documents with a token of the query |
| Bm25.RarerWeighsMore | rust/khora-accel/src/bm25.rs:321-329 | For a strictly increasing logarithm the weight of a token strictly falls as the number of documents with it grows |
| Bm25.MoreOccurrencesScoreMore | rust/khora-accel/src/bm25.rs:216-220 | For positive weight and k1 the term score strictly rises with the number of occurrences |
| Bm25.LongerScoresLess | rust/khora-accel/src/bm25.rs:216-220 | For positive weight, k1 and b it strictly falls with the length of the document |
| Bm25.SingleTokenScore | rust/khora-accel/src/bm25.rs:206-222 | The score of a one-token query is the written-out formula in the number of documents, those with the token, its places in the document, the document's length and the average length |
| Bm25.ScoreAddsUp | rust/khora-accel/src/bm25.rs:206-222 | The score of a query is the sum of the scores of its parts, repeated tokens included |
| Bm25.LastIndexMeaning | rust/khora-accel/src/bm25.rs:195-199 | An id is looked up at the last document added under it |
| Bm25.DenominatorPositive | rust/khora-accel/src/bm25.rs:217-220 | The divisor of a term's score is positive, so no division by zero arises |
| Bm25Index.Index.constructor | rust/khora-accel/src/bm25.rs:159-176 | The empty index agrees with no documents |
| Bm25Index.Index.TokenizeIndexed | rust/khora-accel/src/bm25.rs:110-120 | Tokens are numbered in order of first appearance and the list holds their numbers |
| Bm25Index.EnterTerms | rust/khora-accel/src/bm25.rs:347-351 | Whatever order the terms come in, posting lists and document frequencies agree with the documents including the new one |
| Bm25Index.Index.AddDocumentTokens | rust/khora-accel/src/bm25.rs:332-356 | All tables agree with the documents including the new one: vocabulary, ids, lengths, counts, lists, frequencies, totals |
| Bm25Index.Index.AddDocument | rust/khora-accel/src/bm25.rs:179-183 | Appends the document and keeps the whole index in agreement, average included |
| Bm25Index.Index.AddDocuments | rust/khora-accel/src/bm25.rs:186-192 | Appends all documents in order, with the average brought up to date once |
| Bm25Index.EnteredMeaning | rust/khora-accel/src/bm25.rs:186-192 | Texts and ids stand behind those before, in the order given |
| Bm25Index.DeterminedByDocuments | rust/khora-accel/src/bm25.rs:178-192 | Two indexes with the same documents and ids hold the same numbers, counts, lengths, totals, average, lists and frequencies, so adding together equals adding one by one |
| Bm25Index.Index.Score | rust/khora-accel/src/bm25.rs:195-223 | The brute-force score, written out by SingleTokenScore and ScoreAddsUp, of the last document with that id, and 0 for an unknown id |
| Bm25Index.Index.GatherCandidates | rust/khora-accel/src/bm25.rs:252-260 | The candidates are exactly the documents that share a known token with the query |
| Bm25Index.Index.ScoreCandidates | rust/khora-accel/src/bm25.rs:274-296 | The hits are exactly the qualifying candidates, once each, with their brute-force scores |
| Bm25Index.KnownScore | rust/khora-accel/src/bm25.rs:242-250 | Dropping unknown tokens changes no score |
| Bm25Index.Index.Search | rust/khora-accel/src/bm25.rs:229-310 | At most limit documents that share a token and reach the minimum, in descending brute-force score; every qualifying document left out scores no higher than any returned one, and then the limit is used up; for a positive minimum these are the best of all documents that reach it |
| Bm25Index.Index.AnswerMeaning | rust/khora-accel/src/bm25.rs:274-310 | The answer written out: at most limit ids with the scores of different documents that have a query token and reach the minimum, in falling order, and any other such document is left out only because limit others score at least as much |
| Bm25Index.Index.PositiveMinimum | rust/khora-accel/src/bm25.rs:252-294 | For a positive minimum the best among the documents on the posting lists are the best among all documents |
| Bm25Index.Index.NothingMissedExactly | rust/khora-accel/src/bm25.rs:252-294 | With room for all documents, the answer of a search contains every document whose brute-force score reaches the minimum if and only if the minimum is positive or every document shares a token with the query |
| Bm25Index.Index.MissedDocument | rust/khora-accel/src/bm25.rs:252-294 | The concrete index of two one-word documents: with minimum 0, a search for one word leaves out the other document although it scores 0 and there is room |
| Blocking.Tokenize | rust/khora-accel/src/blocking.rs:23-43 | The one-pass tokenizer gives the lower-case forms of the runs, in order, that have at least two characters |
| Blocking.RunsExact | rust/khora-accel/src/blocking.rs:23-43 | The runs are exactly the maximal alphanumeric stretches of the name, from left to right |
| Blocking.TokensExact | rust/khora-accel/src/blocking.rs:23-43 | A string is a token exactly if it is the long enough lower-case form of a maximal run |
| Blocking.TokensMeaning | rust/khora-accel/src/blocking.rs:23-43 | The same with the maximal stretches of alphanumeric characters written out |
| Blocking.SharesKeyMeaning | rust/khora-accel/src/blocking.rs:45-49 | Two names share a key exactly when each has a token and the two are equal or agree in their first three characters, written out |
| Blocking.BuildInverted | rust/khora-accel/src/blocking.rs:128-134 | Each key lists exactly the rows that have it, in order |
| Blocking.GatherCandidates | rust/khora-accel/src/blocking.rs:146-155 | The candidates of a row are exactly the later rows with a common key |
| Blocking.ScoreBlocked | rust/khora-accel/src/blocking.rs:115-173 | The inverted-index path returns the all-pairs output filtered to rows sharing a key, in the same order |
| Blocking.BlockAndScorePairs | rust/khora-accel/src/blocking.rs:67-177 | A length mismatch is an error; otherwise all pairs, or the filtered ones with blocking, for any number of rows |
| Blocking.BlockedExact | rust/khora-accel/src/blocking.rs:62-64 | All pairs i < j at or above the threshold without blocking, those of them with a common key with it; each once, by i and then by j, written out |
| Rrf.ReciprocalRankFusion | rust/khora-accel/src/rrf.rs:24-40 | Every listed item once, in descending order, with the sum of 1/(k + rank) over all its positions |
| Rrf.WeightedRrf | rust/khora-accel/src/rrf.rs:50-66 | The same with the weight of each list |
| Rrf.RankingMeaning | rust/khora-accel/src/rrf.rs:50-66 | Every item of a list appears once with its fused score, nothing else does, and the scores fall |
| Rrf.ListScore | rust/khora-accel/src/rrf.rs:56-61 | What a list gives an item: for each of its positions p, counted from 0, the weight over k + p + 1 |
| Rrf.FusedScore | rust/khora-accel/src/rrf.rs:54-61 | The fused score is what the lists give, added up |
| Rrf.StandsOnce | rust/khora-accel/src/rrf.rs:54-61 | An item that stands once in all lists, at position p of one, scores that list's weight over k + p + 1 |
| Rrf.ScoresConserve | rust/khora-accel/src/rrf.rs:54-66 | The fused scores add up to the sum of all position contributions |
| Rrf.Dominance | rust/khora-accel/src/rrf.rs:54-66 | With positive weights and no repeats within a list, an item ranked above another in every list that contains the latter scores strictly higher |
| Rrf.DominantComesFirst | rust/khora-accel/src/rrf.rs:63-66 | Such an item stands before the other in the result |
| Rrf.MinMaxNormalize | rust/khora-accel/src/utils.rs:7-17 | Gives the min-max normalisation, with all ones when the range is below the epsilon |
| Rrf.NormalisedMeaning | rust/khora-accel/src/utils.rs:3-17 | Normalised scores lie in [0, 1] in the original order, least to 0 and greatest to 1, or are all 1 |
| Rrf.NormalisedIsLinear | rust/khora-accel/src/utils.rs:3-17 | Normalised score times range is score less least score; or 1 when the range is below 2 to the power -52 |
| Rrf.TalliesAdd | rust/khora-accel/src/rrf.rs:122-129 | Tallying ranks and scores apart and adding gives the tally of both together |
| Rrf.WeightedRrfNormalized | rust/khora-accel/src/rrf.rs:78-134 | The ranking of the combined tally |
| Rrf.FusionMeaning | rust/khora-accel/src/rrf.rs:121-134 | Every item of either list appears once with its fused score, nothing else does, and the scores fall |
| Rrf.SideScore | rust/khora-accel/src/rrf.rs:87-119 | What one side gives an item: for each of its positions p the weight over k + p + 1 and a hundredth of the weight times the normalised score |
| Rrf.SidesAdd | rust/khora-accel/src/rrf.rs:121-129 | The fused score is what the two sides give together |
| Rrf.WeightedRrfWithProvenance | rust/khora-accel/src/rrf.rs:148-208 | The same ranking, and the bitmap records exactly in which lists an item occurs |
| Rrf.BitmapMeaning | rust/khora-accel/src/rrf.rs:140-144 | 1 for the vector list only, 2 for the graph list only, 3 for both |
| Rrf.WeightedRrfWithDiagnostics | rust/khora-accel/src/rrf.rs:224-293 | The same ranking and bitmap, with last rank, normalised score and contribution per list, zero where absent |
| Rrf.DetailMeaning | rust/khora-accel/src/rrf.rs:248-286 | Per list: zeros for an absent item, otherwise the rank of its last position counted from 1, the normalised score there, and the weight over k plus the rank |
| Rrf.DetailsExplainScore | rust/khora-accel/src/rrf.rs:248-290 | Without repeats, the reported details account for the whole fused score |

## Left out

- Floating-point rounding, NaN, infinities and the fixed widths of indices and counters: reals, unbounded naturals and sequential execution stand for f32/f64, u32 and rayon. Equality of two backends down to the last bit is therefore not stated.
- BM25 tokenizing (regular expression, stop words, stemming): documents and queries come as token lists. Repeated ids are allowed; the last document wins in lookups by id, as in the map.
- Bm25.Params.Score: a division by zero, possible in the source only for k1 or b outside their ranges, is given the value 0.
- Splitting a text on whitespace and lower-casing it before MinHash, the hash functions and `powf`: word lists and arbitrary functions.
- Dedup.GreedyPass: the loop of the fallback on given signatures; the fallback's own signatures use character 5-grams and another hash, so the two backends agree on equal signatures only.
- The Rust PageRank and the fallback read the same edges; node indices are naturals, so the fallback's test for negative indices has nothing to exclude.
- PageRankRun.FinalScoresNearFixpoint: speaks of a fixpoint where there is one; that one exists is not stated, as the loop never has it in hand. What stopping guarantees without it is `PageRankRun.FinalScoresSettled`.
- PageRank: that the early stop keeps the top results of the full run is not a theorem; only what the stopping test itself guarantees is stated.
- PageRankRun.SelectNth: the library's partial selection is represented by a sort, and only the promise of a selection is used of it.
- Blocking: embeddings come as a list of rows; the fallback's error for arrays of another dimension is not modelled. The fallback counts characters before lower-casing and Rust after it, which differs only for characters whose lower-case form has several; the model follows Rust.
- Mmr: an undefined (NaN) value, for which the scan may find nothing, does not occur over the reals.
- Document rows carry status and content only, in `Histories` status and whether chunks or other extraction state are there; titles, sources, checksums, sessions and the other copied fields are not modelled. The engine may write such a row at any time while it is at work on the document.
- Leftovers.ProcessedUnclearedExactly: speaks of the time until the engine starts; what the engine itself writes or leaves behind while it is at work is arbitrary.
- The lookup of existing rows in submit_batch enters as its result, which may leave rows out; a failed lookup is the empty result.
- PendingProcessor.StepKeepsInv: the step system counts every result down, as the code does unless the callback raises what cannot be rendered; that case is `BatchResults.FiresOnceExactly`.
- Exclusive.NeverResetsWorkedOn: one direction; that the row may otherwise be reset while it is worked on is shown by `Scenarios.ResetWhileWorkedOn`, since what the engine writes is up to it.
- Arrivals.EveryBatchFinishes: holds for a running processor; a batch of which a cancellation dropped an item does not finish, and a batch submitted with nothing running is refused after its early results, which leaves its handle not done.
- `claim_orphaned_documents` and the namespace scan: an orphan, a row that is PENDING or PROCESSING, may be queued at any time, as an item of no batch; the ages that the claim asks for are not modelled.
- Worker tasks are interleaved between awaits; the fairness of the event loop and of its semaphores is not needed and not modelled. The chunk semaphore's wake-ups are represented by the step in which a waiter's test succeeds.
- Telemetry, logging, hooks, storage backends, engines and error texts: external calls that return or raise.
- Easy members: cosine and score statistics, entropy, recency decay, keyword extraction, chunk edges, access control, caches and configuration.
- Temporal keyword detection and entity resolution with repeated names, where the two backends treat edge cases differently.
