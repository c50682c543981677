# Verified model of dlt's extract scheduler, merge jobs and delivery

This project models the parts of dlt that carry its promises about data and proves those promises for
all inputs and all interleavings. `dafny verify dfyconfig.toml` checks everything.

**Extraction.** `PipeFlow` defines items (plain data, generators, deferred callables and awaitables),
pipes of steps and forks, and a reference meaning, `Flatten`: what one item standing at a step of a
pipe finally yields, in depth-first order, with no scheduler in sight. `Handshake` is the protocol
between the polling thread and the workers of a parallelized generator, access by access to the flags
they share, as a state machine and as a class that follows it, `Concurrency` the bounded pool, and
`PipeIterator` the iterator itself as a class with its source list, index, initial count and pool.
Worker steps are nondeterministic: between any two steps of the main thread, the two tests of a
wrapper included, the workers may run queued tasks and mark futures done, in any order. A task runs
and its wrapper becomes free before its future is marked done, as in the code; marking done and giving
back the slot are one step. The iterator is proved to conserve items: what was returned, together with
what sources, pool and hand still owe, is always the same multiset, every turn takes work off a
measure unless it only waits, and in fifo mode on a network without deferred items or None the order
is exactly that of `Flatten`. If some worker gets on whenever the main thread waits and no future is
done, waiting takes work off as well, so the iterator stops. `IteratorAccounts` holds the bookkeeping
of every single step, `RoundRobin` the order of polls and `PollOrder` what came of them: which source
an item came from, and that no source that was ready was passed over. `ResolutionOrder` says when the
elements of one parallelized generator come out of the pool in order, and `SlotCallbacks` refines the
wait for a free slot to completions and callbacks that are apart. `PipeForest` clones the selected
pipes and connects them, with pipes as objects whose parent and steps are changed in place, and proves
that the result is a network as the iterator needs it; `Extraction` puts both together.

**Merge jobs.** `SqlModel` is a small language of the statements the merge jobs emit and an
interpreter for them. `SqlMerge` holds the three generators as loops over the table chain, proved
equal to recursive specifications. `DeleteInsert`, `RootKeys`, `SingleTableMerge`, `Upsert`,
`MergeTwice` and `Scd2` prove what running the generated statements does to the destination,
`RowFacts` what all of them need about filtering, keys and ROW_NUMBER. `MergeMeaning` and `Scd2Meaning`
say the same without any of the generators' helpers, from the hints of the columns, which `Hints` reads
one by one, and the values in the rows. Where ROW_NUMBER has ties, a
chooser stands for the database's choice in one run; results about one run hold for every chooser, and
those about two runs let each of them have its own.

**Delivery.** `InsertSplitter` cuts a file of rows at whatever character a read ends on and makes
whole statements of it; `InsertWriter` writes such files. `StatementPacking` packs statements into as
few queries as possible. `BatchDelivery` hands items to a destination in batches and resumes after
crashes.

**Smaller parts.** `Components` finds connected components by depth-first search and decomposes a
source; `PipeSteps` places steps in a pipe.

## Where the code does less than one might expect

Each of these is proved, with the exact condition where there is one:

- A parallelized generator can emit one call after it is exhausted, exactly when it was past its outer
  test when the end was found: suspended in its inner wait, or between the two tests of one poll
  (`Handshake.LateCallExactly`, `Handshake.LateCallAfterWaiting`, `Handshake.LateCallBetweenTests`).
- The elements of a parallelized generator can leave the pool out of order, as it takes the next call
  before the future of the last one is done (`ResolutionOrder.InOrderExactly`).
- If callbacks are late, waiting for a free slot can end without one (`SlotCallbacks.FreeSlotExactly`,
  `SlotCallbacks.OneSlotOverdrawn`).
- After a frame in which no source had anything, the source polled first in it waits a whole cycle
  again (`RoundRobin.FruitlessFrameSkipsItsFirst`).
- Inserts into nested tables look up the root key column that was found last. A table with another one
  loses staged rows, in the model and in a database where it has a column of that name; where it has
  none the database refuses the statement (`RootKeys.OwnRootKeyExactly`, `RootKeys.StagedRowLost`).
- Without any key a hard-delete column makes generation use a row key column it never determined
  (`SingleTableMerge.UnboundRowKeyExactly`).
- Merging the same staged rows again can change the table, exactly when two of them tie
  (`SingleTableMerge.MergeIsIdempotent`, `SingleTableMerge.SecondRunReplaces`,
  `MergeTwice.TreesMergedTwice`).
- Upserting the same staged rows again brings back those that it deleted and deletes those that it
  inserted although they are marked as deleted (`MergeTwice.UpsertedTwice`, `MergeTwice.Toggles`).
- An upsert leaves nested rows behind, exactly when a root gets a new row key
  (`Upsert.ReferencesKeptExactly`).
- An upsert inserts a staged row marked as deleted if it matches nothing (`Upsert.KeyAfterUpsert`).
- A compound scd2 merge key is compared as a plain concatenation, so a load can retire a row whose key
  it does not bring; time travel gives the right snapshots exactly when that never happens
  (`Scd2.TimeTravelExactly`, `Scd2.LoadMixesKeysUp`).
- A JSONL file of several lines is delivered exactly once if and only if every line but the last ends
  where a batch ends, because the current batch is yielded at the end of each line and kept
  (`BatchDelivery.DeliveredExactly`, `BatchDelivery.TwoLinesRepeat`). Such a file can also lose items:
  the committed index counts what was repeated, so a job that is started again passes over as many
  items that were never delivered (`BatchDelivery.RestartLosesExactly`,
  `BatchDelivery.RestartLosesOne`).
- A Parquet job cannot be resumed behind a last batch that was not full
  (`BatchDelivery.GetParquetBatches`).
- Negative indices make a pipe lose track of its generator, and can even remove it
  (`PipeSteps.InsertKeepsGenExactly`, `PipeSteps.RemoveKeepsGenExactly`); a clone does not take the
  generator index over (`PipeSteps.CloneKeepsGenExactly`).
- With a maximal query length below two nothing of a file is inserted
  (`InsertSplitter.LosslessExactly`).

## Model

| member | source | states |
|---|---|---|
| Handshake.ParallelGenerator.Next | dlt/extract/utils.py:262-267 | One `next` on the wrapping generator, with workers acting before, between and after its two tests: one call is emitted, which happens only when every call before it has resolved, or none; it stops only when every element was received, after at most two calls more than there are elements. |
| Handshake.ParallelGenerator.TakeElement | dlt/extract/utils.py:254-258 | The first half of a call in a worker: the call gets the next element not yet handed out, or None past the end; nothing is drawn without a call that waits for it. |
| Handshake.ParallelGenerator.FreeWrapper | dlt/extract/utils.py:254-260 | The second half: the call resolves to what it drew, behind all that was received before, and the wrapper is no longer busy. |
| Handshake.ParallelGenerator.Exhaust | dlt/extract/utils.py:238-267 | Polling the wrapper until it stops hands over the elements in order, each once and at the end all of them, followed by at most two calls of None. |
| Handshake.HandshakeIsSafe | dlt/extract/utils.py:238-267 | In every interleaving of single accesses, the outer and the inner test of a poll and the two halves of a call: at most one call outstanding, the k-th call resolved gets the k-th element, at most one call is emitted after exhaustion, every call past the elements resolves to None, and a wrapper that stops has handed over every element. |
| Handshake.SplitCallUnseen | dlt/extract/utils.py:254-267 | A poll that reads the flags between the two halves of a call does what it would do before the call or after it, so that a whole run may count as one step elsewhere. |
| Handshake.LateCallExactly | dlt/extract/utils.py:262-267 | After the end was found another call is emitted in some continuation if and only if the wrapper was past its outer test when it was found, between its two tests or suspended in the inner wait; and then the next test of a free wrapper emits it. |
| Handshake.LateCallAfterWaiting | dlt/extract/utils.py:262-267 | A concrete interleaving over an empty generator in which the end is found while the wrapper is suspended in its inner wait. |
| Handshake.LateCallBetweenTests | dlt/extract/utils.py:262-267 | Another in which a worker finds the end between the two tests of one poll, without any waiting. |
| Handshake.PollMakesProgress | dlt/extract/utils.py:262-267 | While elements remain and no call is outstanding, the next test or the one after it emits a call. |
| Handshake.AsyncIsAlike | dlt/extract/utils.py:199-235 | In every interleaving of single accesses the asynchronous wrapper, whose awaitable checks for the end first, goes through the same states and hands over the same elements as the parallel one. |
| Concurrency.WorkersKeepAccounts | dlt/extract/concurrency.py:88-132 | Whatever the workers do, in any order: used slots stay the number of futures not done, each busy generator has exactly one outstanding call, the items the pool owes are unchanged, nothing adds work, futures stay in place and done ones as they are. |
| Concurrency.SlotsBounded | dlt/extract/concurrency.py:46-49 | Used slots never exceed the futures in the pool, and are zero just when all of them are done. |
| Concurrency.BusyReducesEffort | dlt/extract/concurrency.py:88-132 | Whatever the workers do, if they do anything at all, takes work off. |
| Concurrency.FuturesPool.WaitForFreeSlot | dlt/extract/concurrency.py:203-215 | Returns only with a free slot, having looked at futures in whatever order they complete, and skipping those done before. |
| Concurrency.FuturesPool.Submit | dlt/extract/concurrency.py:92-132 | The new future joins behind the others and takes a slot; slot accounting stays exact also when the future is done before its callback is registered, and used slots never exceed the limit. |
| Concurrency.FuturesPool.ResolveFuture | dlt/extract/concurrency.py:137-157 | Takes just that future out of the pool and gives its result the place and meta of the item that was submitted; None stays None. |
| Concurrency.FuturesPool.NextDoneFuture | dlt/extract/concurrency.py:159-161 | The first future in order of submission that is done; none before it is. |
| Concurrency.FuturesPool.ResolveNextFuture | dlt/extract/concurrency.py:163-190 | With an empty pool nothing happens; if a future is done, the first done one in order of submission is resolved; otherwise whichever completes first, or none on timeout, while workers went on; slots stay exact. |
| Concurrency.FuturesPool.ResolveNextFutureNoWait | dlt/extract/concurrency.py:192-201 | Resolves the first done future in order of submission, or nothing and changes nothing. |
| ResolutionOrder.InOrderExactly | dlt/extract/concurrency.py:159-201 | The calls of one parallelized generator, and with them its elements, are resolved in order however the main thread looks in between, if and only if their futures are done in the order of submission; the generator is free for the next call before that. |
| SlotCallbacks.FreeSlotExactly | dlt/extract/concurrency.py:203-215 | With the completion of a future and its slot callback as two steps: waiting with all slots used ends with a free one if and only if some callback has run by the time the last completed future is handed out, and otherwise with every future completed and nothing but callbacks missing. |
| SlotCallbacks.OneSlotOverdrawn | dlt/extract/concurrency.py:99-128 | With one slot and a callback that is late, waiting ends without a free slot, and the submission that follows uses more slots than there are. |
| IteratorAccounts.AfterAdvance | dlt/extract/pipe_iterator.py:272-287 | Taking the next element of any kind of source (generator, fork, parallelized generator) neither loses nor duplicates items, keeps every invariant, and takes work off unless a busy generator gave None. |
| IteratorAccounts.AfterProceed | dlt/extract/pipe_iterator.py:221-250 | Giving a value to the next step of its pipe preserves what it finally yields and takes work off; None drops it because nothing was owed for it. |
| IteratorAccounts.AfterAppend | dlt/extract/pipe_iterator.py:181-187 | A generator in hand that becomes a source owes the same items, with less work. |
| IteratorAccounts.AfterAppendParallel | dlt/extract/utils.py:241-270 | The same for a parallelized generator, which gets fresh cells and no outstanding call. |
| IteratorAccounts.AfterEnqueue | dlt/extract/concurrency.py:111-132 | An item that is handed to the pool is owed by the pool from then on. |
| IteratorAccounts.AfterConsume | dlt/extract/concurrency.py:137-157 | A resolved future is owed by the item in hand from then on; slots and outstanding calls stay exact. |
| IteratorAccounts.AfterPop | dlt/extract/pipe_iterator.py:294-299 | A source that has ended owes nothing; dropping it keeps all accounts. |
| IteratorAccounts.NothingOwed | dlt/extract/pipe_iterator.py:174-176 | No sources and an empty pool owe nothing: also parallelized generators that no source polls any more have no elements left. |
| RoundRobin.Back | dlt/extract/pipe_iterator.py:266 | One position back, from the first to the last, for the remainder that is never negative. |
| RoundRobin.PolledBackwards | dlt/extract/pipe_iterator.py:266-299 | The next source polled is the one before the last one, from the first on to the last; a source that has ended is left out and the one before it follows all the same. |
| RoundRobin.FruitlessFrameSkipsItsFirst | dlt/extract/pipe_iterator.py:288-293 | After such a frame the index has moved on once more without a poll, so that the source polled first waits a whole cycle again. |
| PipeIterator.PipeIterator.constructor | dlt/extract/pipe_iterator.py:57-71 | There is one source for each root generator, in order, at the first step of its pipe with all its elements ahead; all are initial ones and the index is at the front. Exactly their yield is owed, and the work is no more than theirs. |
| PipeIterator.PipeIterator.GetSourceItem | dlt/extract/pipe_iterator.py:252-300 | Nothing is lost or duplicated; the initial sources stay first and their count right. The item comes from the source that was asked last, and is what it had ready; none of those asked before had one ready, and those not asked are as they were and keep ready what they had; nothing is returned only if no asked source had an item ready and, unless none is left, the last round asked every source that is left exactly once, in every mode. That holds for all kinds of source: a parallelized one has its next call ready unless one is outstanding or its end was found. While sources take turns they are asked backwards around the ring; else the newest one is asked first. Terminates on the number of sources. |
| PipeIterator.PipeIterator.PollSources | dlt/extract/pipe_iterator.py:267-293 | The same for one frame and those that follow it, with the polls of the frame going once around from the position polled first; the source polled first is served if it has an item or a call ready. |
| PipeIterator.PipeIterator.TryAnotherSource | dlt/extract/pipe_iterator.py:294-300 | The source that ended is dropped and the search goes on, with order, debt and turns kept. |
| PipeIterator.PipeIterator.DropSource | dlt/extract/pipe_iterator.py:294-299 | Removes just that source, lowers the initial count only for an initial one, owes the same and keeps turns. |
| PipeIterator.PipeIterator.TakeCycle | dlt/extract/pipe_iterator.py:252-300 | Fairness: while sources take turns and none is added, every source of any kind that has an item or a call ready is served with it within as many takes as there are sources, whatever the other sources and the workers do, though calls are submitted meanwhile and even if sources end and are dropped in between. |
| PollOrder.ReadyWithEmptyPool | dlt/extract/utils.py:262-267 | With nothing in the pool a parallelized generator has its next call ready unless it stands at its end, so that it counts among the ready sources whenever no call of it is outstanding. |
| PipeIterator.PipeIterator.AppendSource | dlt/extract/pipe_iterator.py:181-197 | A generator (or fork) in hand becomes the newest source; debt, order and the initial sources are kept; work goes down. |
| PipeIterator.PipeIterator.SubmitItem | dlt/extract/pipe_iterator.py:200-205 | A callable, an awaitable or a call in hand goes to the pool; debt is kept; work goes down. |
| PipeIterator.PipeIterator.StepItem | dlt/extract/pipe_iterator.py:221-250 | A value in hand goes through the next step; debt and order are kept; work goes down. |
| PipeIterator.PipeIterator.TakeItem | dlt/extract/pipe_iterator.py:152-171 | A future that is done is consumed before any source is polled; unless a future was consumed, the source whose turn it is is served if it has an item or a call ready, whatever its kind; debt is kept, in order nothing comes only when nothing is left, and with diligent workers a turn without an item takes work off. |
| PipeIterator.PipeIterator.Next | dlt/extract/pipe_iterator.py:146-250 | Conservation and termination of every call: an item returned is fully processed and one of those owed, with strictly less work left; at the end nothing is owed, no source and no future is left; on a synchronous network in fifo mode it is the next item of the depth-first order. If some worker gets on whenever the main thread waits, no more patience is needed than there is work. The measure is pipe rank, steps left and item size, summed over all that is in flight. |
| PipeIterator.PipeIterator.Drain | dlt/extract/pipe_iterator.py:146-250 | Over a whole run what was returned and what is still owed is what was owed at first; the run ends if some worker gets on whenever the main thread waits in vain; in order it always ends and returns the line exactly. |
| PipeIterator.Extract | dlt/extract/pipe_iterator.py:146-304 | Main result: for every interleaving, when the iterator stops it has returned exactly the items that the reference meaning gives for all root generators, none lost and none twice. It stops if, whenever the main thread waits and no future is done, some worker gets on; in fifo mode on a synchronous network it always stops, with the items in depth-first order. |
| PipeIterator.DoneIsTaken | dlt/extract/pipe_iterator.py:153-158 | If some future is done when the iterator looks, one is taken out of the pool, whatever the workers do meanwhile; an empty pool gives nothing. |
| PipeIterator.NewestServed | dlt/extract/pipe_iterator.py:261-264 | In fifo mode the newest source is the front of the depth-first order: serving it moves the head of that order into the hand. |
| PipeForest.Pipe.ForkTo | dlt/extract/pipe.py:151-162 | A fork is made behind all steps if there is none; an existing one gets the pipe, behind the others, only if it does not send to it yet. |
| PipeForest.WireUp | dlt/extract/pipe_iterator.py:341-357 | Rewires a clone and its parents up to one that has a clone for a parent already; no other clone changes and originals keep their parents. |
| PipeForest.ClonePipes | dlt/extract/pipe_iterator.py:326-361 | Exactly one clone for every selected pipe and every ancestor, and nothing else; steps copied; the parent of a clone is the clone of the parent, closed over clones. |
| PipeForest.KidAdded | dlt/extract/pipe.py:151-162 | Forking a parent to one more child, and then to its own end if it is selected, keeps the fork right: each child once, the own end once and at the position of the fork, nothing else. |
| PipeForest.EdgeAdded | dlt/extract/pipe_iterator.py:117-124 | The same over all pipes, whether or not the child was done before. |
| PipeForest.ForkPipeline | dlt/extract/pipe_iterator.py:117-133 | All edges from a pipe up to its root are forked, parents are left alone, and its root becomes a source once. |
| PipeForest.FromPipes | dlt/extract/pipe_iterator.py:112-144 | Main result of connecting: every parent among the pipes needed forks exactly once to each child and to its own end just when it is selected and parents are yielded; every other pipe keeps its steps. The sources are the roots of the selected pipes, each once: of two sources the first one has a pipe that was selected after all pipes of the second; without parents they are the pipes selected, the last one first. In the same way, of two children that a parent forks to, the first one has a pipe below it that was selected after all those below the second; its own end comes second. |
| PipeForest.SourcesAreRoots | dlt/extract/pipe_iterator.py:125-133 | Each root needed is a source exactly once and nothing else is. |
| PipeForest.ForestIsRouted | dlt/extract/pipe_iterator.py:112-139 | The connected pipes meet what the iterator takes for granted: forks are tail steps and lead to the start of a child or to the own end. |
| Extraction.ExtractPipes | dlt/extract/pipe_iterator.py:112-304 | From selected pipes to items: the network is, pipe by pipe, the steps of the originals with forks to children and own ends. What is returned is what the generators of the roots yield in it, all of it at the end, which comes if workers get on. In fifo mode, if all is synchronous, it is one root after the other, in order of the last pipe selected of each; without parents that is the order of selection. What the root of the first pipe yields comes first unless a later pipe shares that root. |
| Extraction.FirstIsServedFirst | dlt/extract/pipe_iterator.py:138-141 | The root of the first selected pipe is served first if no later pipe shares it. |
| RowFacts.DedupKeepsWinners | dlt/destinations/sql_jobs.py:252-318 | Keeping ROW_NUMBER 1 leaves exactly one row of every key, one that no row of its key beats in the sort order. |
| RowFacts.DedupOfDistinct | dlt/destinations/sql_jobs.py:252-318 | Where keys differ already, deduplication changes nothing, so that skipping it for data declared deduplicated is right. |
| Hints.RowKeyExactly | dlt/destinations/sql_jobs.py:446-488 | The row key of a table is the first column with that hint, or else the first unique one, or else the only primary key column; the error says whether there are several primary key columns or none. |
| Hints.RootKeyExactly | dlt/destinations/sql_jobs.py:490-530 | The root key is the first column with that hint, or else, right below the root, the first one with the parent key hint; else there is an error. |
| SqlMerge.GenMergeSql | dlt/destinations/sql_jobs.py:545-706 | The loop emits exactly the statement list of the specification for every chain and hints, or the same error; what running that list does, told from hints and values alone, is in `MergeMeaning`. |
| SqlMerge.GenUpsertSql | dlt/destinations/sql_jobs.py:709-812 | The same for upsert, with `MergeMeaning.UpsertedByHint`. |
| SqlMerge.GenScd2Sql | dlt/destinations/sql_jobs.py:815-926 | The same for scd2, with `Scd2Meaning.LoadByHint`. |
| MergeMeaning.MergeGenerated | dlt/destinations/sql_jobs.py:583-676 | Delete-insert statements are generated if and only if: with a key to merge by, there are no nested tables and no temporary table is needed, or the root has a row key and every nested table a root key; without one, there are no nested tables or no hard-delete column. |
| MergeMeaning.UpsertGenerated | dlt/destinations/sql_jobs.py:709-812 | Upsert statements are generated if and only if there are no nested tables, or every table has a row key and every nested one a root key. |
| MergeMeaning.MergedByHint | dlt/destinations/sql_jobs.py:545-706 | Main result for one table, with a primary key, a merge key, both or none: every row is there as often as before unless a staged row has the same values in all primary key columns or in all merge key columns, and besides as often as among the staged rows that count, unless its value in the first hard-delete column excludes it: for a bool column anything but false and NULL, for another one anything but NULL. All staged rows count without a primary key, and with one exactly one of each. |
| MergeMeaning.ExtremeKept | dlt/destinations/sql_jobs.py:252-318 | Of the staged rows of a primary key, all with a number in the first column hinted to sort by, one with the largest is the only one of its key afterwards if the hint is descending, and one with the smallest if it is ascending; none is if that row is marked as deleted. |
| MergeMeaning.TreesByHint | dlt/destinations/sql_jobs.py:545-706 | Main result for a chain: the root table as above, and in every nested table that is looked up by its own root key the old rows of root rows that no staged row replaces and the staged rows of root rows that count and are not excluded, each as often as it was there. |
| MergeMeaning.UpsertedByHint | dlt/destinations/sql_jobs.py:417-443 | Main result for upserts: the root has every staged row, unless its primary key was there and it is marked (a bool column by true, another one by any value but NULL), and the old rows whose primary key was not staged; every nested table has the staged rows of roots that are not marked and the old rows of roots not staged; keys stay distinct. |
| DeleteInsert.DeletesRun | dlt/destinations/sql_jobs.py:600-643 | The deletes remove from every table of the chain exactly the trees of the root rows that a staged row matches. |
| DeleteInsert.IncomingSelected | dlt/destinations/sql_jobs.py:679-705 | Each insert takes from staging exactly the rows that its lookup column, the root key found last for nested tables, ties to an accepted root row, in all combinations of primary key and hard-delete column. |
| DeleteInsert.NestedMergeResult | dlt/destinations/sql_jobs.py:545-706 | What running the generated list does to every table of any chain, each table with a root key of its own: rows of doomed trees go by that key, staged rows come by the key found last; staging and other tables stay as they are. |
| DeleteInsert.ReferentialIntegrityKept | dlt/destinations/sql_jobs.py:583-706 | Afterwards the rows of every nested table whose insert looks up its own root key refer to rows of the root table. |
| DeleteInsert.TreesReplaced | dlt/destinations/sql_jobs.py:583-706 | For every root row key and every table whose insert looks up its own root key: the old rows of the tree unless it was matched, followed by exactly its staged rows if it was accepted. |
| DeleteInsert.DoomedAreMatched | dlt/destinations/sql_jobs.py:601-618 | Deleting by listed row keys removes exactly the root rows that a staged row matches on the primary or the merge key. |
| DeleteInsert.OneAcceptedPerKey | dlt/destinations/sql_jobs.py:657-676 | With a primary key a staged root row is accepted if and only if it wins among the staged rows of its key and is not marked as deleted: deduplication comes before the delete filter. |
| DeleteInsert.RowKeysStayUnique | dlt/destinations/sql_jobs.py:545-706 | Root row keys stay unique if and only if no accepted row has the row key of a surviving row. |
| DeleteInsert.StagedAppend | dlt/destinations/sql_jobs.py:583-587 | With no key to merge by and no hard-delete column every table of the chain gets its staged rows and nothing is removed. |
| RootKeys.OwnRootKeyExactly | dlt/destinations/sql_jobs.py:622-689 | A nested table gets exactly the staged rows of accepted trees and loses exactly those of doomed ones, for all data, if and only if its own root key column is the one found last, or no accepted rows are listed (neither primary key nor hard-delete column). |
| RootKeys.StagedRowLost | dlt/destinations/sql_jobs.py:491-528 | A first-level table that falls back on its parent key, beside a deeper one with a root key: its staged row is not inserted though the tree is accepted. |
| SingleTableMerge.SingleTableResult | dlt/destinations/sql_jobs.py:593-706 | Without nested tables: the rows that no staged row matches, followed by the accepted winners. |
| SingleTableMerge.WithoutPrimaryKey | dlt/destinations/sql_jobs.py:583-706 | With only a merge key the rows matched on it go, with no key at all none do (the staged append); then every staged row not marked as deleted is added, without deduplication. |
| SingleTableMerge.KeyAfterMerge | dlt/destinations/sql_jobs.py:593-706 | What becomes of every primary key: exactly its winner, or nothing if the winner is marked as deleted, or its old rows less those matched on the merge key. |
| SingleTableMerge.PrimaryKeyStaysUnique | dlt/destinations/sql_jobs.py:593-706 | A primary key that was unique in the destination stays unique. |
| SingleTableMerge.RowKeysAfterMerge | dlt/destinations/sql_jobs.py:593-706 | Row keys that were unique in the table and in staging stay unique if and only if no inserted row has the row key of a row that is kept. |
| SingleTableMerge.MergeIsIdempotent | dlt/destinations/sql_jobs.py:593-706 | Merging the same staged rows twice equals merging them once, however the database breaks ties in either run, if and only if no two different staged rows of one key both win, unless both are marked as deleted. |
| SingleTableMerge.SecondRunReplaces | dlt/destinations/sql_jobs.py:277-318 | Two staged rows of one key without a sort column: the first run keeps the one, the second replaces it by the other. |
| MergeTwice.TreesMergedTwice | dlt/destinations/sql_jobs.py:545-706 | The same for a root table with nested tables that each look up their own root key: a second merge changes no table, however ties are broken in either run, if and only if there is no primary key or no tie. |
| SingleTableMerge.UnboundRowKeyExactly | dlt/destinations/sql_jobs.py:583-676 | Generation needs a row key that was never looked up if and only if there is neither key but there are nested tables and a hard-delete column. |
| Upsert.MergedRows | dlt/destinations/sql_jobs.py:734-750 | What MERGE leaves of the rows that were there: matched ones become their staged row or go, unmatched ones stay; keys stay distinct. |
| Upsert.NestedBlock | dlt/destinations/sql_jobs.py:782-811 | One nested table afterwards: exactly the staged rows of live roots and the old rows of roots not staged, with row keys distinct. |
| Upsert.UpsertResult | dlt/destinations/sql_jobs.py:709-812 | Main result: the root is the destination overridden by staging on the primary key with matched hard-deleted keys removed, every nested table is as above, and nothing else changes. |
| Upsert.KeyAfterUpsert | dlt/destinations/sql_jobs.py:734-750 | A staged primary key has exactly its staged row, or none if the key was known and is marked as deleted; an unmatched row marked as deleted is inserted. |
| Upsert.OtherKeysAfterUpsert | dlt/destinations/sql_jobs.py:734-750 | A primary key that was not staged keeps its row. |
| Upsert.NestedOfRoot | dlt/destinations/sql_jobs.py:782-811 | The nested rows of a root: the staged ones if it was staged, none if it is marked as deleted, the old ones if it was not staged. |
| Upsert.ReferencesKeptExactly | dlt/destinations/sql_jobs.py:709-812 | After an upsert the rows of a nested table still refer to rows of the root table if and only if no old root with rows there gets a new row key from the staged row of its primary key. |
| MergeTwice.UpsertedTwice | dlt/destinations/sql_jobs.py:709-812 | Upserting the same staged rows twice equals upserting them once, in every table of the chain, if and only if no staged root row is marked as deleted. |
| MergeTwice.Toggles | dlt/destinations/sql_jobs.py:734-750 | A staged row that is marked as deleted goes where it was and comes where it was not, with every run. |
| Scd2.LoadRuns | dlt/destinations/sql_jobs.py:872-924 | A load changes the root table by retiring and adding rows and nested tables by adding rows with new row keys. |
| Scd2.PastKept | dlt/destinations/sql_jobs.py:872-900 | Loading changes nothing that the table says about any earlier time. |
| Scd2.PresentIsLoaded | dlt/destinations/sql_jobs.py:872-900 | The snapshot after a load is the staged set, with a merge key together with the rows of the old snapshot whose key is not staged, if and only if no row of that snapshot has a key that is not staged but reads like a staged one. |
| Scd2.TimeTravelExactly | dlt/destinations/sql_jobs.py:859-900 | Main result: after any run of loads with increasing boundaries, for every time, the rows with from <= t < to or still active say exactly the snapshot in force then, defined by the real merge keys, if and only if no load finds a row whose unstaged key reads like a staged one. |
| Scd2.TimeTravel | dlt/destinations/sql_jobs.py:859-900 | Without a merge key or with a single one that is always so. |
| Scd2.OneVersionPerHash | dlt/destinations/sql_jobs.py:872-900 | At every time of the history at most one version of each hash is in force, and at most one is active. |
| Scd2.OneActivePerHash | dlt/destinations/sql_jobs.py:892-900 | After a load each hash has at most one active row if and only if no new hash is staged twice. |
| Scd2.HistoryIsKept | dlt/destinations/sql_jobs.py:872-890 | No row is ever removed, a retired row never changes, and of an active one at most the valid-to column, to the boundary of a load. |
| Scd2.NestedRowsStay | dlt/destinations/sql_jobs.py:902-924 | Nested tables only grow, by staged rows; their row keys are exactly those of before and of all loads, each once. |
| Scd2.NestedRowsReferToVersions | dlt/destinations/sql_jobs.py:872-924 | If the staged rows of a nested table refer to staged root rows by the row hash, then after any run of loads all its rows refer to a version in the root table. |
| Scd2.LoadMixesKeysUp | dlt/destinations/sql_jobs.py:370-371 | A compound key for which it is not: a load that brings (ab, c) retires the row with key (a, bc). |
| Scd2Meaning.LoadGenerated | dlt/destinations/sql_jobs.py:829-870 | Statements are generated if and only if some columns are hinted as valid-from, valid-to and row version, some says what marks active rows, and all nested tables have row keys. |
| Scd2Meaning.LoadByHint | dlt/destinations/sql_jobs.py:834-924 | Main result for one load: rows of the root table change only in the first column hinted as valid-to, which gets the boundary exactly where it held the marker of active rows, no staged row has the same value in the first column hinted as row version, and, with merge key columns, some staged row has the same value in the only one or reads alike in all of them joined. Added is a version of each staged row whose hash no active row has, with the boundary in the first column hinted as valid-from, the marker in valid-to, and everything else as staged. Nested tables get the staged rows whose row key they lack. |
| Scd2Meaning.ViewByHint | dlt/destinations/sql_jobs.py:872-900 | Reading as of a time selects exactly the rows with valid-from up to it and a valid-to behind it or the marker of active rows, and shows all other columns. |
| Scd2Meaning.SnapshotByHint | dlt/destinations/sql_jobs.py:859-900 | The snapshot in force changes with a load, from its boundary on, to the staged rows and, with merge key columns, those it had whose values in these were not staged. |
| Scd2Meaning.TimeTravelByHint | dlt/destinations/sql_jobs.py:859-900 | Time travel in those terms: at every time the rows valid then say exactly what is in the snapshot, unless a load mixed keys up. |
| InsertSplitter.Insert | dlt/destinations/insert_job_client.py:31-97 | Main result, for every read size: batch by batch the statements carry exactly their group of file rows in order; each is header, VALUES and comma-separated rows ended by a semicolon, no longer than half the query length and one row line, with all but the last of a batch one row below the limit and the last at most at it. |
| InsertSplitter.LosslessExactly | dlt/destinations/insert_job_client.py:54 | The groups of rows make up all rows of the file in order if and only if the read size is not zero or there are no rows. |
| InsertSplitter.TakenIsLeast | dlt/destinations/insert_job_client.py:54-63 | How much a batch takes: the shortest run of rows that is two characters longer than the read size, or all that is left. |
| InsertSplitter.Cut | dlt/destinations/insert_job_client.py:54-68 | Wherever the cut falls (in a row, before its comma, between comma and newline, behind the newline, at the end) the two reads complete whole rows, leave the reader at the start of a row, and see the end exactly at the end. |
| InsertSplitter.ReadBatch | dlt/destinations/insert_job_client.py:54-68 | The same for the reader: one read, completed and closed by a semicolon. |
| InsertSplitter.Statements | dlt/destinations/insert_job_client.py:69-94 | The lines of one read as statements, all rows in order, with sizes and lengths as limited. |
| InsertSplitter.ForLinesCarries | dlt/common/utils.py:68-79 | Chunks of lines, the last with the extra row, carry exactly the rows. |
| InsertWriter.InsertValuesWriter.WriteData | dlt/common/data_writers/writers.py:258-285 | A chunk of items is appended as rows behind those written before, separated from them, one for each item, in order: the k-th literal is the escaped value of the k-th column, or NULL if the item lacks it; an empty chunk changes nothing. |
| InsertWriter.InsertValuesWriter.FormatRow | dlt/common/data_writers/writers.py:265-272 | A row is its literals joined by commas in parentheses, one for each column: the k-th is the escaped value of the k-th column, or NULL if the item lacks it, whatever the order of the columns in the item. |
| InsertWriter.InsertValuesWriter.WriteFooter | dlt/common/data_writers/writers.py:287-289 | The finished file is the header, the mark and the rows, ended by a semicolon just when there are any. |
| InsertWriter.WriteAndInsert | dlt/common/data_writers/writers.py:245-289 | Round trip: items written in any chunks and split at any read size are all inserted, once, in order; the k-th name in the header is that of the k-th column, whose value is the k-th literal of every row. |
| Sequences.JoinAt | dlt/common/data_writers/writers.py:245-285 | Joining puts every string at its place in order, with the separator in front of all but the first, and nothing else. |
| Components.EdgesToNodes | dlt/common/utils.py:255-273 | The graph has exactly the nodes of the edges, and neighbours exactly by the edges, in both directions unless directed; no node neighbours itself. |
| Components.Dfs | dlt/common/utils.py:284-289 | Visits only nodes connected to the start, leaves no neighbour of a new one unvisited, and adds to the component exactly what it newly visited. |
| Components.FindComponents | dlt/common/utils.py:276-297 | The sets returned partition the nodes, and each is exactly what is connected to one of its nodes. |
| Components.SameComponentExactly | dlt/common/utils.py:276-297 | Two nodes share a set if and only if a path connects them. |
| Components.SelectedDag | dlt/extract/source.py:91-112 | The edges are, for every selected pipe, those up its parents to the first empty one, or an edge to itself. |
| Components.Decompose | dlt/extract/source.py:515-530 | Each resource that is selected is in exactly one sub-source, none selects nothing, and two are together if and only if a chain of resources connects them in which each takes its data from the next or the other way round, as told by the parents of the selected pipes up to the first empty one. |
| Components.EdgeWithinComponent | dlt/extract/source.py:523-528 | Every edge of the dag is inside one component. |
| PipeSteps.Pipe.AppendStep | dlt/extract/pipe.py:164-187 | The scan from the back places a step behind the last one whose affinity is not stronger. |
| PipeSteps.AppendingSorts | dlt/extract/pipe.py:164-187 | Any sequence of appends yields the stable sort by affinity; in a pipe without parent the first step stays at the head. |
| PipeSteps.Pipe.InsertStep | dlt/extract/pipe.py:189-204 | The step stands at the position a list gives the index and the others keep their order; only a place before the head of a pipe without parent is refused, and then nothing changes; the generator index stays right if and only if the index is not negative or stands for a place at or before the generator. |
| PipeSteps.Pipe.RemoveStep | dlt/extract/pipe.py:206-215 | Just the step at that index goes and the others keep their order; what the generator index names and what is not there is refused, and then nothing changes; the generator index stays right if and only if the index is not negative or stands for a step before the generator. |
| PipeSteps.Pipe.Edit | dlt/extract/pipe.py:164-215 | Any run of appends, inserts and removes on a pipe; with plain indices the generator index points at the same generator throughout. |
| PipeSteps.InsertKeepsGenExactly | dlt/extract/pipe.py:457-466 | After inserting, the index points at the generator if and only if the index given is not negative or stands for a place at or before it. |
| PipeSteps.RemoveKeepsGenExactly | dlt/extract/pipe.py:206-215 | After removing, the index points at the generator if and only if the index given is not negative or stands for a step before it. |
| PipeSteps.EditsKeepGen | dlt/extract/pipe.py:164-215 | Through any run of appends, inserts and removes with plain indices the index points at the same generator. |
| PipeSteps.CloneKeepsGenExactly | dlt/extract/pipe.py:448-455 | A clone points at the generator if and only if that is the head, as the index is not copied. |
| PipeSteps.NegativeIndexMisplacesGen | dlt/extract/pipe.py:206-215 | With index -1 or -2 the index comes to point elsewhere or the generator is removed. |
| StatementPacking.ConcatStringsWithLimit | dlt/common/utils.py:218-252 | The loop yields the joined groups of the greedy rule: consecutive groups of all strings, none empty; a fragment is no longer than the limit or a single string, and no such split has fewer fragments. |
| StatementPacking.PackingKeepsAll | dlt/common/utils.py:218-252 | The groups are consecutive and not empty, and the fragments joined by the separator are all strings joined. |
| StatementPacking.FirstIsLongest | dlt/common/utils.py:239-248 | A fragment is the longest prefix that is within the limit or a single string. |
| StatementPacking.GreedyStaysAhead | dlt/common/utils.py:218-252 | However the strings are grouped under the same rule, the greedy groups from any later start are no more. |
| StatementPacking.PackingIsOptimal | dlt/common/utils.py:218-252 | No split into consecutive groups under the same rule has fewer fragments. |
| BatchDelivery.GetJsonlBatches | dlt/destinations/job_impl.py:201-224 | The loop yields what the line-by-line definition says, including the current batch at the end of every line, which is kept. |
| BatchDelivery.DeliveredExactly | dlt/destinations/job_impl.py:201-224 | The batches are the items from the start index on, in order, if and only if every line but the last ends where a batch ends; the surplus is exactly what waits at the other line ends. |
| BatchDelivery.TwoLinesRepeat | dlt/destinations/job_impl.py:201-224 | Two lines of one item each in batches of two: the first item is yielded twice. |
| BatchDelivery.AlignedEven | dlt/destinations/job_impl.py:201-224 | In such a file every batch but the last is full or empty. |
| BatchDelivery.JsonlLoadJob.Run | dlt/destinations/job_impl.py:147-161 | One run on any file, cut short anywhere or not: what is delivered in addition are exactly the items from the committed index up to where the delivered batches reach, and the index moves on by the sizes of the committed ones, so that a run to the end completes the delivery if and only if nothing below the index it began from is missing. Where lines end with batches only a crash between delivery and commit causes one redelivery. |
| BatchDelivery.JsonlLoadJob.RunUntilDone | dlt/destinations/job_impl.py:147-161 | Any number of crashes and restarts on any file: all items are delivered if and only if no restart begins beyond what was delivered with items left. Where lines end with batches they are delivered exactly, in order, with at most one redelivery a crash. |
| BatchDelivery.BatchesAreSlices | dlt/destinations/job_impl.py:201-224 | In any file every batch is the piece of the items behind the full batches before it, and together they reach the end. |
| BatchDelivery.RestartLosesExactly | dlt/destinations/job_impl.py:147-161 | A job that crashed behind a number of committed batches and is started again loses items if and only if some of these other than the last was yielded before it was full and items are left. |
| BatchDelivery.RestartLosesOne | dlt/destinations/job_impl.py:147-224 | Lines of one, one and three items in batches of two, with a crash behind the second batch: the third item is never delivered. |
| BatchDelivery.GetParquetBatches | dlt/destinations/job_impl.py:180-198 | Resuming succeeds if and only if the index is a multiple of the batch size, and then yields the batches of the rows that are left. |
| BatchDelivery.PiecesAreRows | dlt/destinations/job_impl.py:191-198 | The record batches are the rows in order, all but the last full. |

## Left out

What is taken for granted:

- Keys, hashes and merge keys are not NULL; comparison has two values. Rows have all columns of their table, and columns are complete.
- DeleteInsert.NestedMergeResult: row keys are unique in the staged and in the destination root table, and nested rows refer to roots on both sides, each table by its own root key. A column that a table lacks reads as NULL.
- RootKeys.OwnRootKeyExactly: the row key of the root is not at the same time its hard-delete column.
- SingleTableMerge.MergeIsIdempotent: where deletion goes by row key, row keys are unique after the first run, for which `SingleTableMerge.RowKeysAfterMerge` gives the condition.
- Upsert.UpsertResult: staged primary keys and row keys are distinct, so that MERGE never finds two source rows, and a nested row key both sides have belongs to one root.
- Scd2.TimeTravelExactly: boundaries increase and differ from the active value, and a hash determines what a row says. What text the database makes of a value to concatenate is a function given from outside; NULL makes none.
- Scd2Meaning.LoadByHint: the boundary is not the marker of active rows, and the validity columns have names of their own.
- MergeMeaning.TreesByHint: a nested table that is not looked up by its own root key is left to `RootKeys`.
- Upsert.ReferencesKeptExactly: row keys were unique in the root table, and nested rows referred to it, before.
- Upsert.MergedRows: rows have exactly the columns given, since MERGE sets all of them.
- InsertSplitter.Insert: rows start with `(`, end with `)` and hold no newline, as the writer formats them; a limit on rows is at least two, since with one the chunking never ends.
- BatchDelivery.JsonlLoadJob.Run: delivery of one batch is one step, and the index and its commit are one step.
- MergeTwice.TreesMergedTwice: row keys of the root are unique after the first run, and all nested tables look up their own root key.
- PipeForest.ClonePipes: selected pipes are distinct, every pipe has a step (one without counts as no pipe at all and cannot be iterated), and no clones exist beforehand.
- Components.SelectedDag: resources are told apart by name, as the nodes of the dag are.

What is simpler than in the code:

- PipeIterator.PipeIterator.Next: turns in which neither pool nor sources have anything are bounded by `patience`, which stands for poll sleeps and timeouts; with patience used up the call says that it is still waiting.
- Concurrency.FuturesPool.Submit: thread pool and event loop are one pool of workers; the pool has at least one slot. Marking a future done and its slot callback are one step here; what changes when they are two is in `SlotCallbacks`, apart from the iterator, where a submission beyond the slots would stop the extraction.
- Concurrency.FuturesPool.ResolveFuture: failed and cancelled futures are terminal and not modelled; the end of an asynchronous iterator is a result of None, which is what it resolves to.
- Concurrency.FuturesPool.NextDoneFuture: one look through the futures is one step, between two steps of the workers.
- Handshake.HandshakeIsSafe: closing a wrapper early (its GeneratorExit branch) is not modelled.
- PipeForest.Pipe.ForkTo: a fork is a value at the tail of a pipe's steps, not an object of its own, so two pipes sharing one fork object are not captured; copying items on fork is not modelled. Pipes are named by instance id, of which the clones have one each.
- PipeForest.KidAdded: the check for repetition is the one in `Pipe.fork`; the one in `ForkPipe.add_pipe` (dlt/extract/pipe.py:56-58) compares a pipe with pairs of a pipe and a step and never finds one, and is not modelled.
- PipeForest.FromPipes: evaluating and checking generators is not modelled; generators enter as lists of elements in `Extraction.ExtractPipes`.
- SqlMerge.GenMergeSql: the base generator, with one clause joined by OR; destinations that split it into several statements are not modelled. Temporary tables have names of their own. `tempForDelete` is the destination's answer to `requires_temp_table_for_delete`.
- RowFacts.DedupKeepsWinners: where a sort value is missing the row is not ordered against others, since databases differ.
- InsertSplitter.Statements: lines end at newlines only; the further characters `str.splitlines` breaks at are assumed absent. The header is formatted by a function given from outside.
- InsertWriter.WriteAndInsert: escaping is a function given from outside whose results hold no newline.
- SqlMerge.GenScd2Sql: times are integers, and a root table without validity columns, row hash or active marker gives one error, where the code fails on the missing column.
- BatchDelivery.GetJsonlBatches: dropping internal columns from items is not modelled, nor is a batch size of zero, where the whole file is passed by name.

What is not modelled:

- Steps that raise, `LimitItem` and other steps with state of their own; `PipeIterator.close` and `FuturesPool.close`; full pipes made by joining parents (`from_pipe`).
- Connections, transactions, SQL text, quoting and subclasses for particular destinations; staged replace and copy jobs, staged append.
- The `select_union` writer, whose separator can be cut.
- Wrapping and signature checks of step functions; resource and source decorators, configuration, schema inference, contracts and lineage; normalizing, load packages and storages.
