# Search-engine core: verified model

A Dafny model of the parts of the search engine that reach a simple answer by a clever route, with
proofs that the route ends at the answer. Code that works in place is modelled in place: classes
with the fields of the original, arrays where it overwrites buffers, loops where it loops. Every
such method is tied to a specification function or predicate, and the lemmas about those carry the
properties.

There are six groups of modules.

1. **Dynamic pruning.** `TopK` gives the meaning of a run of offers to the result queue, `TopKQueue`
   the queue, `Postings` lists, bounds and the exhaustive meaning of a query, `ScoredEnums` the cursors
   with their in-place moves. `RankedOr`, `Wand`, `BlockMaxWand` (with `BlockMaxState`) and `MaxScore` are
   the four algorithms; `Pruning` and `CursorSteps` hold what they share. All four are proved to make the
   same accepted insertions in the same order, and so to leave the same scores. Query terms are a list in
   which the same posting list may occur more than once, each with its own weight. `QueryRuns` builds such lists
   from plain queries (with `QueryTerms`) and from weighted ones, and runs all four algorithms on them;
   `ScoreMeaning` says what scores, offers and accepted insertions are in terms of the query. The steps of the
   algorithms are pinned as well: which lists move and how far, and when scoring stops. What a document adds
   by itself is any real number; term weights are non-negative.
2. **Hybrid-index optimiser.** `LambdaHull` keeps the lower hull of one block's space-time points,
   `HybridGreedy` is the loop over the price-ordered list of all blocks' points and its optimality, and
   `HybridPipeline` goes from candidates to chosen encodings.
3. **Succinct sequences.** `EliasFano`, `RankedBitvector`, `AllOnes` and `IndexedSequence` are writers and
   layouts on a bit vector (`BitVectors`), `IntegerCodes` the header codes, `Partitions` and `PartitionedSequence`
   the two-level format; the `...Enumerator` files are the cursors. `SequenceRuns` writes a sequence, opens
   a cursor and makes any legal run of calls: the answers are those of the plain list. `BitForms` says what
   the layouts are, bit by bit and in plain arithmetic.
4. **Partitioning.** `PartitionCosts` holds the shortest-path tables, `OptimalPartition` and `ScorePartition`
   the two sweeps with several windows each, `BlockData` the block boundaries and maxima, `WandData` the
   shared vectors. `StoredCosts` ties the costs to the bits written and joins partitioner and writer.
   What the partitioners record is proved to be what the pruning algorithms need.
5. **QMX.** `QmxWidths` and `QmxLengths` choose stripe widths, `QmxLanes` packs and unpacks lanes, `QmxStripes`
   one stripe, `QmxCodec` runs, keys, and the round trip.
6. **Posting lists.** `InterpolativeCoding`, `ByteStrings` and `BlockCodecs` are the block code, `BlockLists` the
   format, `BlockListWriter` the two writers, `BlockListEnumerator` the cursor, `PostingRuns` any run of calls.
   `ByteForms` says what blocks, lists and QMX stripes are, byte by byte.

`Arith`, `Bits`, `Slices`, `Multisets`, `Sums`, `SortedLists` and `Sampling` are shared mathematics.

Scores, costs, times and prices are exact reals. Numbers that are 32 bits wide in the original are
bounded where a width matters (`WORD`), and wrap-around is written out where the original relies on
it (`BlockLists.Sub32`, `PartitionedSequenceEnumerators.ToInt32`).

## Where code and expectation differ

- `next_geq` of the Elias-Fano and the ranked cursor, called at the end with a bound above the universe
  but within the linear scan, leaves the position one past the end. The exact condition on place and bound is
  `OverrunsAt` in each cursor's module; the answer is right if and only if it does not hold. A new cursor always
  overruns on the bound one above the universe (`SequenceRuns.NewCursorOverruns`).
- `all_ones_sequence` with one value answers a bound at the universe with position 0. The answer is right if and
  only if the bound is below the universe or there are more values (`AllOnes.Enumerator.NextGeq`,
  `AllOnes.SingleValueMisses`).
- A single partition's upper bound passes through an `int` (partitioned_sequence.hpp:141). What the reader makes
  of it is right if and only if the last value is less than 2^31 - 1 above the first; 0 and 2^31 - 1 are a pair that
  fails (`PartitionedSequenceEnumerators.ReadOneHeader`, `PartitionedSequenceEnumerators.UpperExactly`).
- The optimiser's budget is tested after a point has been taken. What the loop ends with keeps the budget if and
  only if the fastest candidates of all blocks together do, by their time and then by their space
  (`HybridGreedy.BudgetMet`, `HybridPipeline.Optimise`); one block of 1 or 5 units and a budget of 3 end with 5
  (`HybridPipeline.OneStepTooFar`). A budget that is passed is passed by one step only: with a smaller candidate that
  is as good at the last price in place of the last choice it is kept (`HybridGreedy.StepWasNeeded`).
- The loops that make the window lists of both partitioners do not end for some parameters. They end if and only
  if a test on the first bound holds (`OptimalPartition.LoopEnds`, `ScorePartition.LoopEnds`); `EndlessBounds` in
  each module gives parameters for which they do not.
- The second test for a largest width of at most 8 in the QMX promotion (docvector/compress_qmx.cpp:509)
  repeats the first one, so its branch is never taken.
- Widening groups to at most 8 bits near the end of the input (docvector/compress_qmx.cpp:480-525) never changes the
  outcome: with it or without, every stripe has the least width at which a full stripe fits where it begins
  (`QmxLengths.ComputeLengths`, `QmxLengths.StripesDetermined`).
- A comment in weighted_queries.hpp:55 assumes that each term occurs once; the algorithms do not need it.

## Model

| member | source | states |
|---|---|---|
| TopK.BestAreLargest | queries_util.hpp:255-279 | no score that fell out of the k kept ones is larger than any kept one, for any run of offers |
| TopK.EntersIffChanges | queries_util.hpp:261-283 | a score would enter if and only if offering it changes the k best scores: one that only ties with the smallest kept one is refused |
| TopK.BestAndDroppedAreAll | queries_util.hpp:255-279 | kept and dropped scores together are exactly the offered ones, with multiplicity |
| TopK.AcceptedKeepsBest | queries_util.hpp:255-279 | leaving out every refused offer changes no later state of the queue |
| TopK.RefusedStaysRefused | queries_util.hpp:281-283 | the threshold never falls: a score refused once is refused after any further offer |
| TopK.FinalScoresAreLargest | queries_util.hpp:285-294 | after finalize: at most k scores, descending, all positive, a sub-multiset of the offers; nothing left out is larger than a kept one, and with room left nothing left out is positive |
| TopKQueues.TopKQueue.AdmitsIsWouldEnter | queries_util.hpp:281-283 | the size-and-threshold test decides exactly whether a score would enter, that is, would change the k best |
| TopKQueues.TopKQueue.Insert | queries_util.hpp:255-279 | accepts exactly the scores that would enter, logs them, and the vector keeps exactly the k best of what was logged with a smallest one first |
| TopKQueues.TopKQueue.Finalize | queries_util.hpp:285-294 | leaves the positive ones of the k best accepted scores, largest first, with documents that were accepted |
| QueryTerms.QueryFreqs | queries_util.hpp:226-239 | each term of the query once, in ascending order, with the number of its occurrences |
| Postings.RefusedStretch | queries.hpp:464-482 | skipping documents that are all refused leaves the exhaustive run's accepted insertions unchanged |
| Postings.ScoreOverCursors | queries.hpp:469-479 | a document's score is the same sum in whatever order the cursors are |
| ScoreMeaning.AddedByList | queries.hpp:471-475 | a list with the document adds the query's weight times the posting's, any other list nothing |
| ScoreMeaning.OffersAre | queries.hpp:464-482 | what is offered: every document of some list, once, in ascending order, with its score |
| ScoreMeaning.AcceptedIs | queries.hpp:464-482 | the accepted insertions of the exhaustive loop, document by document: one is logged if and only if it changes the k best scores of those logged before |
| ScoreMeaning.TieIsRefused | queries_util.hpp:261-283 | with a full queue a document whose score equals the smallest kept one is refused and not logged |
| RankedOr.NextRound | queries.hpp:464-482 | one round goes to the next document that matches, skipping none |
| RankedOr.RankedOrQuery.Run | queries.hpp:425-487 | the reference: accepted insertions are those of offering every matching document in order with its full score; the final scores are the positive ones of the k best |
| ScoredEnums.ScoredEnum.NextGeq | queries.hpp:130-132 | a cursor moves to the first posting at or above the bound and never back |
| ScoredEnums.ScoredEnum.BlockNextGeq | wand_data_raw.hpp:92-97 | the block cursor stops at the first block from where it is whose boundary reaches the bound, or at the last |
| ScoredEnums.BubbleDown | queries.hpp:135-143 | swapping one advanced list down restores the docid order of a sorted vector, with the same lists and cursors |
| Pruning.LowDeadRefuses | queries.hpp:86-110 | documents below a frontier whose lists cannot enter together are all refused |
| Pruning.PrefixDead | queries.hpp:92-103 | if the lists before the pivot cannot enter and all others stand at the pivot or later, everything before the pivot is dead |
| Wand.PivotAdvances | queries.hpp:86-103 | pivots never go back, and everything before a pivot is decided as the exhaustive loop decides it |
| Wand.MoveToPivot | queries.hpp:130-143 | moving a lagging list to the pivot keeps the invariant and uses up a posting |
| Wand.OfferPivot | queries.hpp:112-129 | scoring the pivot and stepping past it is the exhaustive loop's step at that document |
| Wand.NoPivotEnds | queries.hpp:105-108 | stopping without a pivot loses nothing: the log is that of the whole index |
| Wand.FindPivot | queries.hpp:86-103 | the pivot is the first position at which the list bounds added up so far would enter; if none is found, what is left is exhausted |
| Wand.WandQuery.Evaluate | queries.hpp:111-129 | all lists that stand on the pivot, and only those, step past it; the order by document is restored |
| Wand.WandQuery.Move | queries.hpp:130-143 | exactly one list moves: the last one that lags behind, to the first posting at or above the pivot |
| Wand.WandQuery.Run | queries.hpp:25-149 | WAND makes exactly the accepted insertions of the exhaustive loop and leaves the same final scores, for every index, query and k |
| BlockMaxState.BlockBounds | queries.hpp:263-273 | a block cursor at a block that reaches a document, and not past it, bounds what the list adds to it |
| BlockMaxState.ReachPivot | queries.hpp:242-273 | pivots never go back; after the block moves every list up to the pivot is on a block that reaches it and not past it |
| BlockMaxState.UndecidedPivot | queries.hpp:278-317 | a pivot not yet decided by blocks has nothing undecided before it |
| BlockMaxState.DecidedPivotSkips | queries.hpp:278-278 | a pivot in a stretch already ruled out by blocks fails the block test again |
| BlockMaxState.FailedTestDead | queries.hpp:339-379 | a failed block test refuses every document before the jump target |
| BlockMaxWand.OnFirstReachingBlock | wand_data_raw.hpp:92-97 | such a block is the first of the whole list whose boundary reaches the pivot, or the last one |
| BlockMaxWand.AdvanceBlocks | queries.hpp:263-273 | moves exactly the block cursors up to the pivot and adds up exactly their bounds |
| BlockMaxWand.PartialScoreBounded | queries.hpp:291-307 | the tightened bound stays above the full score while parts are replaced by what they are |
| BlockMaxWand.ScoreWithinBound | queries.hpp:285-307 | the score is complete, or both it and the complete score are refused; lists are scored exactly as long as the tightened bound would enter |
| BlockMaxWand.JumpTarget | queries.hpp:342-377 | the list of largest query weight jumps, and as far as it may: behind the nearest boundary of the blocks used, to the next list's document if that is nearer, in any case beyond the pivot |
| BlockMaxWand.EvaluatedState | queries.hpp:282-317 | scoring or giving up on the pivot is the exhaustive loop's step |
| BlockMaxWand.SkippedState | queries.hpp:339-390 | the block jump keeps the invariant: everything passed is refused |
| BlockMaxWand.BlockMaxWandQuery.Round | queries.hpp:242-390 | one round from a found pivot: block cursors up to it are moved and their bounds tested; if they would enter, either all lists on the document step past it or the last lagging list moves up to it, else the heaviest list jumps; no other list moves, postings left decrease, and the state invariant holds again |
| BlockMaxWand.BlockMaxWandQuery.Search | queries.hpp:233-391 | the loop ends because postings left strictly decrease; accepted insertions are those of the exhaustive loop; the pivots, in a ghost trace the loop body records, come in order |
| BlockMaxWand.BlockMaxWandQuery.Run | queries.hpp:169-396 | Block-Max WAND makes exactly the accepted insertions of the exhaustive loop, in the same order, and leaves the same final scores |
| MaxScore.PrefixBounds | queries.hpp:562-573 | running sums of list maxima and running maxima of document weights |
| MaxScore.Complete | queries.hpp:602-614 | the completed score is exact, or both it and the exact score are refused; demoted lists are looked up exactly as long as the score may still enter, and no other moves |
| MaxScore.Demote | queries.hpp:616-623 | the demoted lists together cannot enter, and with one more list they could |
| MaxScore.BetweenRounds | queries.hpp:588-600 | documents between two rounds lie only in demoted lists and are refused |
| MaxScore.RoundState | queries.hpp:583-626 | a round keeps the invariant and moves to a later document |
| MaxScore.MaxScoreQuery.Round | queries.hpp:583-626 | one round keeps the invariant, scores the document with exactly the lists that have to be looked at, and leaves no list to demote |
| MaxScore.FinalState | queries.hpp:583-584 | with all lists demoted, or the documents used up, the log is that of the whole index |
| MaxScore.MaxScoreQuery.Run | queries.hpp:506-630 | MaxScore makes exactly the accepted insertions of the exhaustive loop and leaves the same final scores; also weighted_queries.hpp:505-627 |
| QueryRuns.PlainQuery | queries.hpp:36-48 | each distinct term once; list i's weight is the ranker's for the number of occurrences of its term in the query and the length of its list, all else is the list's; the query length counts every occurrence; every bound the algorithms need holds |
| QueryRuns.WeightedQuery | weighted_queries.hpp:38-69 | each given pair of term and weight is a list of its own, repeated terms included, weighted by the ranker's weight for one occurrence times the given one; every bound the algorithms need holds |
| QueryRuns.RunAll | test/test_ranked_queries.cpp:42-75 | exhaustive, WAND, Block-Max WAND and MaxScore leave the same scores on every query, plain or weighted |
| LambdaHull.PriceDecides | optimal_hybrid_index.cpp:107-107 | of two linked points the later one is no dearer exactly from its price on |
| LambdaHull.PoppedIsCovered | optimal_hybrid_index.cpp:108-109 | a popped point is never the only best one, at any price |
| LambdaHull.LambdasComputer.AppendLambdas | optimal_hybrid_index.cpp:95-116 | appends the hull of the candidates, starting with the smallest; nothing that was in the buffer is popped, and every candidate that is best at some price is kept |
| LambdaHull.PricesAscend | optimal_hybrid_index.cpp:95-116 | along the hull space rises, time falls and prices do not fall, strictly above zero after the first |
| LambdaHull.LastBelowPriceIsBest | optimal_hybrid_index.cpp:95-116 | at every price the last kept point at or below it minimises space + price * time over all candidates |
| LambdaHull.LastIsFastest | optimal_hybrid_index.cpp:101-116 | the last kept point has the least time of all candidates, and the least space of those |
| LambdaHull.BestIsKept | optimal_hybrid_index.cpp:104-116 | a candidate that no other beats at some positive price is kept, or one of the same space and time is: points on the line between two kept ones are not popped |
| LambdaHull.LastIsLargest | optimal_hybrid_index.cpp:104-116 | among the candidates that are best at a price, none is larger than the last kept point at or below it |
| HybridPipeline.SortByPrice | optimal_hybrid_index.cpp:238-241 | price order of the same points in which each block's points stay in hull order |
| HybridPipeline.Prepare | optimal_hybrid_index.cpp:74-130 | hulls of all blocks' candidates in price order are a valid input of the loop |
| HybridPipeline.Optimise | optimal_hybrid_index.cpp:346-397 | from candidates to chosen encodings: one candidate for every block, exact totals, no choice with at most this space takes less time. Without a budget, or within it, the totals are those of the fastest candidates, and they are within it if and only if those are. Above it, there is a price at which the choice is best, while what is best at lower prices keeps the budget or is smallest, and without the last step the budget would have been kept |
| HybridPipeline.OneStepTooFar | optimal_hybrid_index.cpp:393-395 | from candidates of 1 and 5 units and a budget of 3 the optimiser comes to 5 |
| HybridGreedy.GreedyIsOptimal | optimal_hybrid_index.cpp:368-397 | once every block has a point, no assignment of candidates to blocks with at most the current space takes less time |
| HybridGreedy.StartedBeforeFirstPrice | optimal_hybrid_index.cpp:381-385 | when the first positive price comes up every block has its first point |
| HybridGreedy.StepTrades | optimal_hybrid_index.cpp:381-396 | past the initial frontier every step takes more space and less time |
| HybridGreedy.GreedyState.Take | optimal_hybrid_index.cpp:370-379 | a step keeps the four vectors and both totals equal to base plus the chosen points |
| HybridGreedy.GreedyState.Run | optimal_hybrid_index.cpp:368-397 | the state is that of a prefix; it stops early only past the frontier and above the budget, and no earlier such state was above it |
| HybridGreedy.AllTaken | optimal_hybrid_index.cpp:368-397 | with all points taken, space and time are those of every block's fastest candidate |
| HybridGreedy.BudgetMet | optimal_hybrid_index.cpp:393-395 | the result keeps the budget if and only if the fastest candidates of all blocks together do |
| HybridGreedy.LowerKeepsBudget | optimal_hybrid_index.cpp:368-397 | any assignment that is best at a price below the one the loop stopped at keeps the budget, or is made of smallest candidates |
| HybridGreedy.StepWasNeeded | optimal_hybrid_index.cpp:368-397 | the loop stops with a step at a positive price, and with any smaller candidate that is as good at that price in its place the budget is kept, or the choice is of smallest candidates |
| PartitionCosts.ImprovedCostIsExact | optimal_partition.hpp:99-103 | an improved node's entry is the exact cost of the partition its predecessors give |
| PartitionCosts.BlocksArePartition | optimal_partition.hpp:114-119 | following predecessors gives strictly increasing endpoints ending at the node |
| PartitionCosts.CheapestOfTried | optimal_partition.hpp:98-111 | no partition into blocks that were looked at is cheaper |
| PartitionCosts.StopsAtLeastEnd | optimal_partition.hpp:88-111 | searching from any end not beyond the least one stops at the least end that reaches the bound |
| PartitionCosts.FollowPath | optimal_partition.hpp:114-119 | the loop and the reversal give the endpoints of the path |
| PartitionCosts.ListedOnce | optimal_partition.hpp:80-84 | the passes of the loop over bounds determine the list of bounds |
| OptimalPartition.RunNode | optimal_partition.hpp:88-112 | for a cost that grows with the window, every window ends at the least end that reaches its bound, although ends only move forward and are handed on |
| OptimalPartition.WindowBounds | optimal_partition.hpp:78-84 | one bound per pass of the loop, up to the first that reaches the single block's cost or up to the pass that is not begun |
| OptimalPartition.Partition | optimal_partition.hpp:69-121 | a valid partition; cost exact unless nothing improved on the single block, never above it, and with a cost equal to it the partition is the single block; for a cost that grows with the block, no partition into blocks that end at a least end for the constructor's own bounds is cheaper |
| OptimalPartition.BoundGrows | optimal_partition.hpp:78-84 | the next bound is the largest whole number of bits not above b * (1 + eps2); it grows if and only if its growth is worth a bit |
| OptimalPartition.LoopEnds | optimal_partition.hpp:80-84 | the loop over bounds ends, with some pass, if and only if a test on its first bound holds |
| OptimalPartition.EndlessBounds | optimal_partition.hpp:80-84 | parameters for which it does not end |
| OptimalPartition.JoinedPartitions | partitioned_sequence.hpp:369-419 | partitions of two stretches, the second shifted, are a partition of both |
| OptimalPartition.ComputePartition | partitioned_sequence.hpp:345-422 | superblocks of exactly the sizes the bound and the merged rest give, each solved as the constructor promises, strung together into a valid partition of the whole list |
| StoredCosts.BlockCostIsPieceCost | optimal_partition.hpp:39-62 | a block of a partition is priced for exactly the universe and the number of values its encoding is made for |
| StoredCosts.WholeBlockCost | optimal_partition.hpp:73-74 | the single block is priced for the whole universe, less the base, when that ends right behind the last element |
| StoredCosts.CostIsStoredBits | partitioned_sequence.hpp:359-361 | what a partition costs is the bits its pieces take and the fixed cost of each |
| StoredCosts.CheaperIsSmaller | partitioned_sequence.hpp:359-361 | of two partitions of a sequence the cheaper one takes fewer bits, fixed costs included |
| StoredCosts.StrungCost | partitioned_sequence.hpp:369-422 | the partition strung together from the superblocks costs exactly what their solutions do, added up, when the universe is tight |
| StoredCosts.WritePartitioned | partitioned_sequence.hpp:22-113 | partitioner and writer together: one partition if the whole takes less than two fixed costs, else the superblocks' partitions; the bits hold the sequence in it, their number is exact, and the pieces and fixed costs are what the superblocks cost |
| ScorePartition.PopFront | score_partitioning.hpp:64-76 | leaving the first element: the deque stays the list of suffix maxima |
| ScorePartition.PushBack | score_partitioning.hpp:78-94 | taking in an element: dropping smaller entries keeps the deque the list of suffix maxima |
| ScorePartition.FrontIsMax | score_partitioning.hpp:103-105 | the front of the deque is the maximum of the window |
| ScorePartition.ScoreWindow.AdvanceStart | score_partitioning.hpp:64-76 | the window on [start + 1, end) with its exact sum and deque |
| ScorePartition.ScoreWindow.AdvanceEnd | score_partitioning.hpp:78-94 | the window on [start, end + 1) with its exact sum and deque |
| ScorePartition.ScoreCostMonotone | score_partitioning.hpp:96-101 | a block of scores never costs less than a block inside it |
| ScorePartition.CostIs | score_partitioning.hpp:96-101 | a block costs the fixed cost and, for every score in it, the weight times what the score stays below the largest |
| ScorePartition.LoopEnds | score_partitioning.hpp:135-139 | the loop over bounds ends, with some pass, if and only if a test on its first bound holds |
| ScorePartition.EndlessBounds | score_partitioning.hpp:135-139 | parameters for which it does not end |
| ScorePartition.ScoreWindowBounds | score_partitioning.hpp:132-139 | one bound per pass of the loop, up to the first that reaches the single block's cost or up to the pass that is not begun |
| ScorePartition.ScoreOptPartition | score_partitioning.hpp:112-207 | blocks tile the list with true maxima and boundaries; cost exact unless nothing improved, never above the single block, which it is where the costs are equal; no partition into blocks that end at a least end for the constructor's own bounds is cheaper |
| ScorePartition.FillPartitionWeights | score_partitioning.hpp:210-220 | the true maximum of the document weights of every block |
| BlockData.BoundarySeparates | score_partitioning.hpp:194-204 | a boundary is at or above every document of its block and below the next block's first |
| BlockData.RecordsAre | score_partitioning.hpp:189-220 | what is recorded of a block: its size, one before the next first document or the last document, and the largest score and weight, each bounding all and attained |
| BlockData.StaticEndsAre | wand_utils.hpp:11-53 | block k ends at (k + 1) * blockSize, and only the last one, at the end of the list, may be short |
| BlockData.StaticBlockPartition | wand_utils.hpp:11-53 | blocks end at every multiple of the block size and at the end of the list; maxima of scores and weights are true and boundaries right |
| BlockData.RecordedBlocksSound | wand_utils.hpp:29-88 | recorded blocks meet what block-max pruning requires: boundaries increase, cover the list, maxima bound their postings |
| WandData.Builder.AddSequence | wand_data_raw.hpp:31-54 | appends one list's blocks to the shared vectors, keeps all earlier lists, and returns the largest bounds |
| WandData.Builder.GetEnum | wand_data_raw.hpp:140-143 | a cursor over exactly the blocks of the list asked for |
| WandData.Enumerator.NextGeq | wand_data_raw.hpp:92-97 | on the shared vectors the cursor moves as on the list's own boundaries |
| WandData.Enumerator.Score | wand_data_raw.hpp:111-114 | the maximum of the block the cursor is on, from the shared vectors |
| WandData.Enumerator.Docid | wand_data_raw.hpp:121-124 | the boundary of the block the cursor is on, from the shared vectors |
| WandData.RecordedTermOk | wand_data_raw.hpp:31-54 | a term built from recorded blocks meets every bound the four query algorithms rely on |
| EliasFano.Write | compact_elias_fano.hpp:69-139 | accepts exactly non-decreasing sequences, appends exactly the promised number of bits, and they hold high bits, low bits and both kinds of pointers |
| EliasFano.Moved | partitioned_sequence.hpp:105-112 | an encoding copied into a longer bit vector is an encoding at its new place |
| BitForms.LowWidth | compact_elias_fano.hpp:27-27 | the low parts have the largest width at which n of its power of two are not above the universe, so that fewer than 2 n high parts remain |
| BitForms.EliasFanoLayout | compact_elias_fano.hpp:18-40 | where pointers, high and low bits stand, from the parameters alone; pointers have the least width that holds every place among the high bits |
| BitForms.EliasFanoHigh | compact_elias_fano.hpp:114-117 | a high bit is set if and only if it is that of some value, at its high part plus its position plus one |
| BitForms.EliasFanoLow | compact_elias_fano.hpp:115-121 | bit k of field i of the low bits is bit k of value i |
| BitForms.EliasFanoPointer1 | compact_elias_fano.hpp:123-129 | pointer j to the ones holds the place of the one of value j * 2^sampling |
| BitForms.EliasFanoPointer0 | compact_elias_fano.hpp:85-100 | pointer j to the zeros holds the place of a zero with exactly j * 2^sampling zeros, and as many ones as values stand there, in front of it |
| EliasFanoEnumerators.Enumerator.Move | compact_elias_fano.hpp:158-185 | any position from any other, near or through a pointer |
| EliasFanoEnumerators.Enumerator.Next | compact_elias_fano.hpp:224-235 | the next value, and the universe behind the last |
| EliasFanoEnumerators.Enumerator.NextGeq | compact_elias_fano.hpp:187-217 | the first match, or the current place if its value equals the bound; one past the end exactly under the overrun condition |
| EliasFanoEnumerators.OneAboveOverruns | compact_elias_fano.hpp:187-217 | at the end the bound one above the universe always meets the overrun condition |
| EliasFanoEnumerators.Enumerator.SlowNextGeq | compact_elias_fano.hpp:298-346 | skipping zeros from the current one or from a sampled zero, then scanning, finds the first match |
| EliasFanoEnumerators.Enumerator.PrevValue | compact_elias_fano.hpp:237-257 | the value in front of any position, zero at the start |
| EliasFanoEnumerators.SkipZerosFromPointer | compact_elias_fano.hpp:315-328 | the sampled pointer leads to the zero wanted, with the right number of ones passed |
| RankedBitvector.Write | compact_ranked_bitvector.hpp:58-115 | accepts exactly increasing sequences and says why not otherwise; the bits hold values, pointers and rank samples |
| BitForms.RankedLayout | compact_ranked_bitvector.hpp:15-33 | where rank samples, pointers and bits stand; samples and pointers have the least widths that hold n and every value |
| BitForms.RankedBit | compact_ranked_bitvector.hpp:100-100 | bit v is set if and only if v is one of the values |
| BitForms.RankedSample | compact_ranked_bitvector.hpp:73-83 | sample j holds the number of values below j * 2^sampling |
| BitForms.RankedPointer | compact_ranked_bitvector.hpp:102-108 | pointer j holds value number j * 2^sampling |
| RankedBitvectorEnumerators.CountOnes | compact_ranked_bitvector.hpp:277-296 | whole words and the cut last word add up to the ones in any stretch |
| RankedBitvectorEnumerators.RankByCount | compact_ranked_bitvector.hpp:267-298 | ones counted from a place of known rank give the rank of the bound |
| RankedBitvectorEnumerators.Enumerator.NextGeq | compact_ranked_bitvector.hpp:160-188 | the first match; one past the end exactly under the overrun condition |
| RankedBitvectorEnumerators.Enumerator.Move | compact_ranked_bitvector.hpp:131-158 | any position from any other, near or through a pointer |
| AllOnes.ValuesArePositions | all_ones_sequence.hpp:41-63 | a sequence that fills its universe is its own list of positions |
| AllOnes.Enumerator.NextGeq | all_ones_sequence.hpp:48-57 | the first match if and only if it is not a single value asked for more than it has |
| AllOnes.SingleValueMisses | all_ones_sequence.hpp:48-57 | a single value answers the bound at its universe with position 0 where the first match is the end |
| IntegerCodes.WithoutHighBitIsLow | integer_codes.hpp:6-13 | clearing the highest bit keeps the low part, and setting it again gives the number back |
| IntegerCodes.ReadGamma | integer_codes.hpp:21-25 | reads back what was written and stops behind its last bit |
| IntegerCodes.ReadDelta | integer_codes.hpp:41-45 | reads back what was written and stops behind its last bit |
| IntegerCodes.RoundTrip | integer_codes.hpp:6-45 | both codes, one behind the other among other bits, are read back with exactly their bits |
| BitForms.GammaIs | integer_codes.hpp:6-13 | l zeros, a one and l bits of n + 1, where 2^l is the last power of two up to n + 1 |
| BitForms.DeltaIs | integer_codes.hpp:32-39 | the gamma code of that l and the same l bits |
| IndexedSequences.BitSize | indexed_sequence.hpp:24-40 | not above any encoding's size plus the type bit, equal to one of them, zero exactly if the sequence is implicit |
| IndexedSequences.BitSizeIs | indexed_sequence.hpp:24-40 | nothing for a sequence that fills its universe or is a single value, else one bit more than the smaller encoding |
| IndexedSequences.Write | indexed_sequence.hpp:42-87 | appends exactly the cheapest size, in a form the cursor recognises; the type bit is set if and only if the ranked bit vector is strictly smaller |
| IndexedSequences.Enumerator.NextGeq | indexed_sequence.hpp:129-149 | the first match, whichever encoding is behind it |
| Partitions.PieceFits | partitioned_sequence.hpp:66-96 | every partition, measured from its base, fits its tight universe, so all three encodings may be chosen |
| Partitions.BoundInPiece | partitioned_sequence.hpp:192-199 | a bound in a partition's range has its first match in that partition, at the shifted place |
| PartitionedSequences.WritePieces | partitioned_sequence.hpp:58-94 | pieces back to back, each endpoint the bits taken so far, upper bounds of all partitions, and exactly the bits the pieces take |
| PartitionedSequences.Write | partitioned_sequence.hpp:22-113 | the bits hold the sequence in its partitions, inline if there is one; their number is exact, pieces stand back to back, and endpoints are as wide as all pieces together need |
| BitForms.OnePartition | partitioned_sequence.hpp:36-63 | bit for bit, one partition: a one, the first value in the width of the universe, the distance to the last value or 0 where it ends the universe, and the distances from the first |
| BitForms.SeveralPartitions | partitioned_sequence.hpp:64-113 | part by part, several partitions: their number and the width of endpoints, sizes, upper bounds, endpoints and pieces, and where each begins |
| BitForms.PartitionIs | partitioned_sequence.hpp:73-93 | a piece holds its values as distances from the one behind the previous piece's last, in the universe that ends right behind its own last |
| PartitionedSequenceEnumerators.UpperExactly | partitioned_sequence.hpp:139-154 | the int that carries a single partition's upper bound is right if and only if the bound, less the first value, is below 2^31 - 1; 0 and 2^31 - 1 are the first values it fails on |
| PartitionedSequenceEnumerators.ReadOneHeader | partitioned_sequence.hpp:139-154 | upper bound and handed-on universe are right if and only if the values fit the int |
| PartitionedSequenceEnumerators.Enumerator.constructor | partitioned_sequence.hpp:124-176 | headers are read back and the cursor stands at the end |
| PartitionedSequenceEnumerators.Enumerator.SwitchPartition | partitioned_sequence.hpp:293-320 | ends, base, upper bound and inner cursor are those of the partition |
| PartitionedSequenceEnumerators.PartitionFound | partitioned_sequence.hpp:255-268 | the first end above a position is that of its partition |
| PartitionedSequenceEnumerators.UpperFound | partitioned_sequence.hpp:270-291 | the first upper bound at or above a bound, or an equal one, is that of the partition it falls into |
| PartitionedSequenceEnumerators.Enumerator.Move | partitioned_sequence.hpp:178-190 | any position, across partitions |
| PartitionedSequenceEnumerators.Enumerator.Next | partitioned_sequence.hpp:202-211 | the next value, across partitions |
| PartitionedSequenceEnumerators.Enumerator.NextGeq | partitioned_sequence.hpp:192-200 | the first match of any bound, from any place |
| PartitionedSequenceEnumerators.Enumerator.PrevValue | partitioned_sequence.hpp:218-225 | the value in front of any position, across partitions |
| SequenceRuns.GoalIsFirstMatch | test/test_generic_sequence.hpp:91-160 | in an increasing list, staying on an equal value and going to the first match are the same |
| SequenceRuns.EliasFanoRun | test/test_generic_sequence.hpp:29-190 | write, open and any legal run of move, next and next_geq with prev_value after each, for any non-decreasing sequence and any sampling: the answers of the plain list up to the first overrun, which comes if and only if a search of the run meets the overrun condition |
| SequenceRuns.RankedBitvectorRun | test/test_generic_sequence.hpp:29-190 | the same for any increasing sequence in the ranked bit vector |
| SequenceRuns.NewCursorOverruns | test/test_generic_sequence.hpp:29-190 | the run of one search for the bound one above the universe overruns, in both encodings, whatever the sequence |
| SequenceRuns.RunStep | test/test_generic_sequence.hpp:29-190 | call by call what the plain list answers: the place, the value there or the universe, the value in front or 0 |
| SequenceRuns.OverrunConditions | compact_elias_fano.hpp:187-215 | in plain arithmetic: behind the last value, a bound above the universe by at most 8, in Elias-Fano by at most 8 once both are cut to their high parts |
| SequenceRuns.OverrunsSomewhere | test/test_generic_sequence.hpp:29-190 | a run overruns if and only if one of its searches meets the condition at the place the answers before it led to |
| SequenceRuns.PartitionedRun | test/test_generic_sequence.hpp:29-190 | for any increasing sequence, any partition of it whose upper bound fits where it is a single one, and any search bounds, every legal run answers as the plain list |
| QmxWidths.BitsNeededIsLeast | docvector/compress_qmx.cpp:89-121 | the width chosen fits, and a width fits if and only if it is at least that |
| QmxWidths.TypesMatch | docvector/compress_qmx.cpp:127-411 | the types the writer puts into keys are those the reader's cases stand for |
| QmxLengths.PromoteIfMixed | docvector/compress_qmx.cpp:535-768 | promotion keeps all widths fitting and never touches stripes already taken |
| QmxLengths.ComputeLengths | docvector/compress_qmx.cpp:447-780 | the loop ends; full stripes tile the input, single integers only in the last three places, every width fits its integers, and each stripe has the least width at which a full stripe fits where it begins |
| QmxLengths.StripesDetermined | docvector/compress_qmx.cpp:447-780 | the input alone determines the widths of all stripes: two lists of least stripes are the same |
| QmxLanes.OrIntoLane | docvector/compress_qmx.cpp:127-411 | or-ing a shifted integer into a lane appends what fits of it |
| QmxLanes.Unpack | docvector/compress_qmx.cpp:861-1384 | masks and 64-bit shifts give out the packed groups in order |
| QmxLanes.SplitBack | docvector/compress_qmx.cpp:295-390 | an integer split over two words is put together again, and the rest of the second word is untouched by it |
| QmxLanes.PackSplit | docvector/compress_qmx.cpp:295-390 | the words of a 7, 9, 12 or 21 bit stripe: groups cut at the end of the first word, the rest low in the second |
| QmxLanes.UnpackSplit | docvector/compress_qmx.cpp:861-1384 | gives back all integers of a split stripe |
| QmxStripes.EncodeStripe | docvector/compress_qmx.cpp:127-411 | bytes, each below 256, of one stripe of any width |
| QmxStripes.DecodeStripe | docvector/compress_qmx.cpp:861-1384 | gives back the stripe, whatever stands around it |
| ByteForms.TypesAre | docvector/compress_qmx.cpp:232-411 | which widths there are, in the order of their types, and which integers each takes |
| ByteForms.StripesAreFull | docvector/compress_qmx.cpp:127-411 | how many bytes and integers a stripe has: four lanes of 32 bits, or pairs of them, as full as they get |
| ByteForms.PlainStripe | docvector/compress_qmx.cpp:242-345 | integer 4 j + l stands in lane l, j widths from its low end |
| ByteForms.SplitStripe | docvector/compress_qmx.cpp:295-390 | for 7, 9, 12 and 21 bits: which groups stand in the first word, how many low bits of the last of them, and from where the rest follows in the second |
| ByteForms.WholeBytes | docvector/compress_qmx.cpp:312-411 | widths 8, 16, 32 and 128 are bytes, pairs and fours of bytes, lowest first |
| QmxCodec.StripeBegins | docvector/compress_qmx.cpp:785-800 | where the width changes, and at the end, a stripe begins |
| QmxCodec.RunIsStripes | docvector/compress_qmx.cpp:785-800 | a run of equal widths is a whole number of stripes of that width |
| QmxCodec.WriteOut | docvector/compress_qmx.cpp:127-411 | a run as batches of at most sixteen stripes; keys take the place of widths already read and nothing behind them |
| QmxCodec.NextKey | docvector/compress_qmx.cpp:861-1384 | read from the end, there is a key exactly while stripes are left, and it says the next stripes' width and number |
| QmxCodec.EncodeArray | docvector/compress_qmx.cpp:437-815 | bytes: stripes that cover the list, each of the least possible width, then the keys of all runs, last one first, each key of a run but the last standing for sixteen stripes |
| QmxCodec.DecodeArray | docvector/compress_qmx.cpp:861-1384 | reads exactly the keys written and gives the list back |
| QmxCodec.RoundTrip | docvector/compress_qmx.cpp:437-815 | decoding what was encoded is the identity on every non-empty list of 32-bit integers |
| QmxCodec.OnesTakeOneByte | docvector/compress_qmx.cpp:473-528 | 256 ones take one byte |
| InterpolativeCoding.BitWriter.Write | interpolative_coding.hpp:20-34 | appends exactly the given bits, across word ends |
| InterpolativeCoding.BitWriter.WriteInt | interpolative_coding.hpp:40-55 | truncated binary appended |
| InterpolativeCoding.BitWriter.WriteInterpolative | interpolative_coding.hpp:57-70 | the recursive code appended, for any bounds |
| InterpolativeCoding.BitReader.Read | interpolative_coding.hpp:93-109 | the next bits of the stream, refilling over word ends |
| InterpolativeCoding.BitReader.ReadInt | interpolative_coding.hpp:111-122 | gives back the value and uses exactly its bits |
| InterpolativeCoding.BitReader.ReadInterpolative | interpolative_coding.hpp:124-146 | gives back all values in place, touches nothing else and uses exactly the bits written |
| InterpolativeCoding.RoundTrip | interpolative_coding.hpp:57-146 | writing and reading give the values back and use exactly the bits written, for any non-decreasing values and any bounds |
| ByteForms.IntCodeIs | interpolative_coding.hpp:40-55 | which values take how many bits, and what these say |
| ByteForms.CodeIs | interpolative_coding.hpp:57-70 | the middle value in its range, then both halves in the ranges it leaves them |
| BlockCodecs.ExtractIsDigit | block_codecs.hpp:18-26 | the extracted pieces are the base-128 digits, with the end mark on the last |
| BlockCodecs.Encode | block_codecs.hpp:28-76 | variable bytes of all values, by the branches on size |
| BlockCodecs.Decode | block_codecs.hpp:86-101 | gives back the values and stops behind their last byte |
| BlockCodecs.EncodeBlock | block_codecs.hpp:107-128 | the sum if the reader will not know it, then the code of the inner sums in whole bytes |
| BlockCodecs.DecodeBlock | block_codecs.hpp:130-151 | gives back the gaps in place and stops at the exact byte, whatever follows |
| BlockCodecs.RoundTrip | block_codecs.hpp:107-151 | a block written behind any bytes and followed by any bytes is read back, and reading stops at its last byte |
| ByteForms.BlockIs | block_codecs.hpp:107-128 | the sum where the reader is not told it, then the code of the running sums but the last between 0 and the sum, in as few whole bytes as hold it |
| BlockLists.DocsSumIsTotal | block_posting_list.hpp:24-47 | the sum passed for a block is the total of its gaps, and meets what the block code needs |
| BlockLists.GapsSum | block_posting_list.hpp:292-319 | running sums of a block's gaps are its documents, less base and steps |
| ByteForms.GapsAre | block_posting_list.hpp:36-42 | what a block holds: documents as distances less one from the one before, frequencies less one |
| ByteForms.ListIs | block_posting_list.hpp:13-53 | byte by byte: the length, each block's last document, where each block but the first begins, and the blocks, documents before frequencies |
| ByteForms.ListSizeIs | block_posting_list.hpp:13-53 | what a list takes: its length, eight bytes a block less four, and the codes of all blocks |
| BlockListWriters.Write | block_posting_list.hpp:13-53 | appends exactly the list's size; below 2^32 bytes the data holds maxima, places and blocks |
| BlockListWriters.WriteBlocks | block_posting_list.hpp:55-82 | the same with finished blocks in any physical order, block 0 first |
| BlockListEnumerators.DocumentEnumerator.constructor | block_posting_list.hpp:86-103 | stands on the first posting |
| BlockListEnumerators.DocumentEnumerator.Reset | block_posting_list.hpp:105-108 | back to the first posting from anywhere, also from the end |
| BlockListEnumerators.DocumentEnumerator.Next | block_posting_list.hpp:110-122 | the next document and position, across blocks, and the universe at the end |
| BlockListEnumerators.DocumentEnumerator.NextGeq | block_posting_list.hpp:124-146 | a forward bound: the first match; position and frequency only while the list lasts |
| BlockListEnumerators.DocumentEnumerator.Move | block_posting_list.hpp:148-158 | a forward position |
| BlockListEnumerators.DocumentEnumerator.Freq | block_posting_list.hpp:165-171 | the frequency at the position, decoding its block at the first call and not moving |
| PostingRuns.RunStored | test/test_block_posting_list.cpp:12-38 | any run of next, forward next_geq, forward move, freq and reset: the answers of the plain list |
| PostingRuns.RunStep | test/test_block_posting_list.cpp:12-38 | call by call what the plain list answers and where it leads |
| PostingRuns.WriteAndRun | test/test_block_posting_list.cpp:50-67 | the same after writing; a list fits exactly if it is below 2^32 bytes |
| PostingRuns.WriteBlocksAndRun | test/test_block_posting_list.cpp:69-94 | the same after laying out finished blocks in another order |

## Left out

- Floating point: scores, costs, times and prices are exact reals, so rounding near a threshold is not modelled.
- Ranker formulas and logarithms: a term's weight per posting and a document's own weight are parameters.
- Mains, configuration, lexicon, query files, memory mapping, `freeze`/`map`, logging, timing and profiling counters.
- `std::sort`, `push_heap`, `pop_heap`, `sort_heap`, `min_element`: modelled by simple methods with the library's contract; the heap's inner order beyond its front is free.
- Evicted documents: among equal smallest scores the heap may evict any, so results are stated on scores and on accepted insertions.
- k = 0: the queue is modelled for k >= 1.
- Queries with no term and lists with no posting beyond what the source's own early returns handle.
- HybridPipeline.SortByPrice: the external sort compares prices only; the model's sort also keeps equal-price points of one block in hull order, which the optimality needs.
- The optimiser with `heuristic_greedy` set, its 16-bit spaces, and prediction of times.
- HybridGreedy.GreedyIsOptimal: says nothing of states before every block has a point, whose totals are partial.
- Sampled logs of trade-offs when no budget is given.
- OptimalPartition.ComputePartition: the executor runs superblocks in parallel on separate results; the model runs them one after the other.
- `score_window::element_count` and the `errors` vector, which do not affect the partition.
- The `succinct` library: bit vectors, `predecessor1`, unary enumerators and `get_bits` are modelled by what the callers use; fields of more than 56 bits and bit vectors of 2^64 bits and more are not considered.
- EliasFanoEnumerators.Enumerator.NextGeq: under the overrun condition only the position and value it leaves are stated, not later calls.
- RankedBitvectorEnumerators.Enumerator.NextGeq: under the overrun condition only the position and value it leaves are stated, not later calls.
- PartitionedSequenceEnumerators.Enumerator.constructor: a single partition whose upper bound does not fit the `int` is excluded, by the exact condition of `ReadOneHeader`.
- SequenceRuns.PartitionedRun: a single partition whose last value is 2^31 - 1 or more above its first is excluded; what a cursor does after such a header is read is not modelled, because the overflow of the `int` is undefined.
- The number the source returns as the cost of an unusable all-ones sequence is modelled as its own case.
- `uniform_partitioned_sequence`, `strict_sequence`, `strict_elias_fano`, `positive_sequence`, frequency sequences: easier variants of the sequence core.
- QmxCodec.RoundTrip: the empty list is excluded; registers are modelled as four numbers and two halves, not as SIMD instructions.
- QMX writes past the end of the last stripe into the wastage of its buffers: not modelled; the model's stripes at the end are exactly the input.
- FastPFor, VarIntG8IU and mixed block codecs.
- BlockCodecs.DecodeBlock: the reader loads whole words; bytes up to three behind the data are read as zeros and do not matter.
- BlockListEnumerators.DocumentEnumerator.NextGeq: bounds go forward, except at the very start, as the source assumes.
- `block_posting_list::get_blocks`, `stats_freqs_size`, and decoding of single blocks outside the cursor.
- `semiasync_queue`, document fusion, query expansion, samplers, compressed wand data, stemming and scripts.
