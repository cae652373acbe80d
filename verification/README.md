# Verified cores of an embedded graph database

A Dafny model of the parts of this graph database where a small mistake is hard to see: the
versioned catalog under concurrent transactions, the CycleJoin operator and its planner step, the
filter push-down and join pruning passes, the scanner and printer of nested text, and the word-level
algorithms for null masks, MD5, comparison, hashing, substring search, list slicing and decimals.

| area | modules |
|---|---|
| Catalog | `CatalogVersions` (chains and operations), `CatalogMachine` (transactions as steps), `CatalogRefinement`, `CatalogTheorems`, `CatalogSets` (the linked chains themselves) |
| CycleJoin | `Intersection` (what the loop computes), `IntersectMultiway` (cursors and result vectors), `CartesianLoop`, `CartesianCount` (how often a tuple comes out), `IntersectProbe`, `IntersectRow`, `IntersectOperator`, `UnsortedLists`, `CyclePlanner` |
| Optimizer | `QueryPlan` (plans and their bags of rows), `Bags`, `PlanFacts`, `ScanFacts`, `FilterPushDown`, `PushedPlan` (what the pass makes of a plan), `PushDownOptimizer`, `JoinPruning` |
| Nested text | `NestedText` (matching brackets), `NestedScanner`, `TextChunks`, `ListGrammar`, `MapGrammar`, `StructGrammar`, `StructVerdicts` (what texts are accepted, and as what), `NestedPrinter`, `NestedMaps` |
| Vectors and bytes | `NullMask`, `Md5`, `NestedValues`, `VectorHash`, `HashReadings`, `FindString`, `ListSlices`, `DecimalArithmetic` |

`dafny verify dfyconfig.toml` checks the whole project.

## Main results

* **Catalog.** The chains of versions, with commits and rollbacks taken one undo record at a time and
  interleaved with other transactions, refine a machine in which every transaction owns a plain copy of the
  catalog and which runs by itself; every reply, a refusal too, is the one that machine gives
  (`CatalogRefinesCopies`). From this: snapshots are stable, commits are atomic for later transactions, the writes
  of a writer at work take effect exactly as in its copy, object ids stay distinct, and a checkpoint read back is
  the last committed catalog.
* **CycleJoin.** Draining the operator gives the pieces of all rows, one row after the other (`RunOperator`,
  `Drain`). For lists that the operator's sort puts in order, these are every tuple exactly as often as there
  are ways to choose its edges, if and only if the numbers of choices of every row fit the vectors
  (`OperatorIsJoinIff`). Every list that is not in order loses a match with some other list (`UnsortedLoses`,
  `ChunkSortSortsIff`). `Prune` keeps the largest part of the pattern that meets the
  operator's demand of two connections per node.
* **Optimizer.** For every plan the push-down pass, with its hash joins, index lookups and zone maps, returns a plan
  with the bag of a simple one, in which the predicates are only moved down (`VisitOperator`, `PushedDown`). With
  three-valued predicates that bag is the one of the plan restricted to the pending predicates, as long as no optional
  product gets a row of nulls that passes them, which is the exact condition at every product (`ProductPushedIff`,
  `PushedRestricts`). Both passes in their order keep the bag of every such plan (`Optimize`).
* **Nested text.** The matching close is found exactly where the text up to it is well formed
  (`CloseFinds`, `CloseIsMatch`). Lists, maps and structs are accepted exactly if they follow a grammar with quoted and
  bracketed texts, and are then split into exactly the parts the grammar gives them (`ListFinds`, `ListGoodIff`,
  `MapFinds`, `MapGoodIff`, `StructFinds`, `StructGoodIff`). The printed form of a nested value is cast back to it exactly if no list in it
  is a lone null (`RoundTripIff`), and a printed map is split into its keys and values (`SplitPrintedMap`).
* **Fast forms refine simple ones** for null masks, MD5 over any cut of the message, nested comparison (a strict
  total order), vectorised hashing, substring search and list slicing.

## Where the code does less than one may expect

Each of these is kept as the code has it, shown by a lemma, with the exact condition.

* The search by object id compares the id of the newest version only, so an older snapshot may get a wrong answer
  (`OldSnapshotFindsWrongOid`); it is right for every id exactly if the newest versions keep the ids the reader sees
  (`OidSearchCorrectIff`), which holds for every running writer (`WriterOidSearch`).
* A rename that fails in the catalog set has already put a tombstone on the old name and leaves no undo record
  (`RenameLeavesTombstoneIff`). The DDL operator checks the new name first, so no run of the machine gets there.
* The first result vector of an output node shares its size with the output vector. When a node's cursor goes back
  to zero, its first vector is shown with the size of its last one, and tuples are lost (`CarryLosesTuples`: two
  results of one id more than a vector holds). Nothing is lost exactly if every result fits one vector, or fills
  its vectors, or is followed only by results that fit one vector (`PiecesAreProductIff`, `RowGivenIff`).
* The multiway intersection sorts each chunk of a list by offset alone, and not the chunks against each other; ids behind
  a greater one are lost (`IntersectLosesBehind`, and `TwoTablesLost` for one chunk with ids of two tables). The list
  is in order exactly if in every chunk the smaller of two ids has the smaller offset and the chunks came in order
  (`ChunkSortSortsIff`).
* Predicates are pushed into the build side of an optional product like into that of any other. If that empties the build
  side, the product has a row of nulls, and one that passes the predicates comes out although none is due
  (`NullRowAppears`). A product that becomes a join is always right. Any other is right exactly if it is not optional, or
  its build side was empty, or some row of the build side passes the predicates pushed into it, or no probe row passes all
  predicates with nulls for the build side (`ProductPushedIff`).
* A count join whose probe side is a scan of ids only is replaced by its build side. Ids without a match, which are due
  with count zero, are lost (`CountLost`). The bag stays the same exactly if every scanned id is a key of the build side
  (`CountJoinKeptIff`).
* In a map text a key is written before its value has been counted, so a text that ends behind a key writes one slot too many
  (`MapOverrun`, `MapWritesFitIff`).
* A list whose only element is null prints like an empty list (`RoundTripIff`).
* The flag returned by a short inverted copy of null bits is about the source bits (`ShortInvertedFlag`).
* The hash of a struct does not read the struct's own null bit (`UncleanNullsDiffer`). Equal values hash equally under
  every 64-bit hash of leaves and combination exactly if the same is read of the fields of their null structs
  (`EqualHashEquallyIff`).
* The extra digit of a decimal sum goes to its scale, so a carry into a new digit throws (`AddParamsWholeDigits`,
  `SmallSumOverflows`). A sum throws exactly if it does not fit the digits its type has before the point
  (`SumThrowsIff`).

## What is taken for granted

* One write transaction at a time, as `src/main/db_config.cpp:33` sets it. Transaction ids are above all commit timestamps; a commit that would
  reach them is refused.
* The optimizer's input: a predicate's properties are columns of the plan below it, primary key flags are on the key of the
  variable's table, a cast has one argument, literals are not columns, and the sides of a product have no column in common
  (`ExprOk`, `PlanOk`). No predicate has been pushed before the pass, and what one side of a product can compute of a
  predicate that comes to it is not a column of the other side. No predicate comes to a product with a mark, which has a
  merge right above it (`Clear`, `ClearBelow`, `Planned`). The count is the only column that a count join reads from its
  build side besides the join keys, as `src/processor/operator/hash_join/hash_join_probe.cpp:156` asserts.
* Storage: a primary key is not null and not repeated, a block is skipped only if no row of it passes all column predicates, and operators the
  pass does not look into depend only on the bags of their inputs (`KeyOk`, `ScanOk`, `RunOk`).
* For join pruning: every row of the kept side has a node id that the removed scan delivers once, and every id of the scan
  removed from a count join is a key of its build side (`PruneOk`).
* The sort of the ids of a chunk is a parameter that sorts by offset and leaves the order of equal offsets open (`Sorts`).
* The MD5 compression function, leaf hashes, `combineHash`, leaf conversion and the choice of predicates for zone maps are parameters.

## Model

| member | source | states |
|---|---|---|
| CatalogVersions.TraversePush | src/catalog/catalog_set.cpp:121-135 | a version put on top is what a reader sees if it sees it at all, and changes nothing for the reader otherwise |
| CatalogVersions.TraverseRestamp | src/storage/undo_buffer.cpp:199-204 | restamping a version anywhere in a chain from one unseen timestamp to another changes nothing for a reader |
| CatalogVersions.TraverseFindsNewest | src/catalog/catalog_set.cpp:38-47 | a chain whose oldest version is seen yields the newest seen version, so the result of the walk may be dereferenced |
| CatalogVersions.CommittedIsLatest | src/catalog/catalog_set.cpp:137-145 | the walk for commit timestamps finds what a transaction that starts now would find |
| CatalogRefinement.WriterSeesTop | src/catalog/catalog_set.cpp:26-31 | the running writer sees the top of every chain and meets no write-write conflict |
| CatalogRefinement.LastRecordOnTop | src/storage/undo_buffer.cpp:251-268 | when undo records are rolled back last to first, the version to be taken out is always the top of its chain |
| CatalogRefinement.RenameOk | src/catalog/catalog_set.cpp:183-192 | a rename moves the object id from the old to the new name in the writer's copy and in no other |
| CatalogRefinement.CommitRecordOk | src/storage/undo_buffer.cpp:164-169 | one record of a commit under way changes no transaction's view |
| CatalogRefinement.RollbackRecordOk | src/storage/undo_buffer.cpp:171-176 | one record of a rollback under way changes no other transaction's view |
| CatalogRefinement.BeginOk | src/transaction/transaction_manager.cpp:20-54 | a new transaction sees the committed copy |
| CatalogRefinement.RefusedIff | src/transaction/transaction_manager.cpp:20-80 | a step is refused exactly if the transactions do not admit it: a write of a transaction that is not a running writer, a rename to a name in its copy, a commit or rollback out of turn, a beginning during one or beside another writer |
| CatalogRefinement.StepRefines | src/catalog/catalog_set.cpp:65-237 | every step of the chains is the step the copies take by themselves, with exactly the reply that is due there, done, failed or refused, and keeps the invariant of the chains |
| CatalogTheorems.InitialRefines | src/catalog/catalog_set.cpp:268-283 | a freshly loaded catalog set meets the invariant |
| CatalogTheorems.CatalogRefinesCopies | src/catalog/catalog_set.cpp:65-237 | after every run every transaction reads its own copy, as the copies run by themselves have it: what was committed when it began, changed by its own writes only; the reply to every next step is exactly the one due from the copies |
| CatalogTheorems.CreateTakesEffect | src/catalog/catalog_set.cpp:65-103 | in every run a writer at work may create exactly what it does not see, and then sees it with the next object id and everything else as before |
| CatalogTheorems.DropTakesEffect | src/catalog/catalog_set.cpp:147-169 | it may drop exactly what it sees, and then sees everything else |
| CatalogTheorems.AlterTakesEffect | src/catalog/catalog_set.cpp:171-181 | it may alter exactly what it sees, and then sees the new content under the same object id |
| CatalogTheorems.RenameTakesEffect | src/catalog/catalog_set.cpp:183-192 | it may rename exactly what it sees to what it does not see, and the entry keeps its object id |
| CatalogTheorems.BeginRefusedIff | src/transaction/transaction_manager.cpp:20-54 | in every run a transaction may begin exactly if no commit or rollback is under way and, if it is to write, there is no writer |
| CatalogTheorems.SnapshotStable | src/catalog/catalog_set.cpp:33-63 | whatever other transactions do, in the middle of commits and rollbacks too, a transaction that does nothing sees the same entries |
| CatalogTheorems.CommitPublishes | src/transaction/transaction_manager.cpp:56-74 | after a commit a new transaction sees exactly what the writer saw when it asked for the commit |
| CatalogTheorems.OidsDistinct | src/catalog/catalog_set.cpp:65-79 | in every run the entries a transaction sees have pairwise distinct object ids below the next one |
| CatalogTheorems.EveryWalkFinds | src/catalog/catalog_set.cpp:121-135 | in every run every walk of an active transaction ends at the newest version it sees, never at nothing |
| CatalogTheorems.OidSearchCorrectIff | src/catalog/catalog_set.cpp:223-237 | the search by object id is right for every id and every order of names exactly if the newest versions keep the ids the reader sees |
| CatalogTheorems.WriterOidSearch | src/catalog/catalog_set.cpp:223-237 | in every run the writer's search finds the one visible entry with the id, or nothing if there is none |
| CatalogTheorems.OldSnapshotFindsWrongOid | src/catalog/catalog_set.cpp:223-237 | a run after which an older reader gets an entry with another id |
| CatalogTheorems.CreateFailsIff | src/catalog/catalog_set.cpp:81-103 | for a reader that sees the top without a conflict, creating fails exactly if the name is visible |
| CatalogTheorems.RenameLeavesTombstoneIff | src/catalog/catalog_set.cpp:183-192 | a failing rename leaves a tombstone without an undo record exactly if both names are visible and differ |
| CatalogTheorems.SerializedIsLatest | src/catalog/catalog_set.cpp:239-266 | what is written is the latest committed view without built-in functions |
| CatalogTheorems.ReloadedView | src/catalog/catalog_set.cpp:268-283 | every transaction sees exactly what was written |
| CatalogTheorems.CheckpointReload | src/catalog/catalog_set.cpp:239-283 | after every run, writing and reading gives an initial state that any transaction sees as the last committed catalog, and no object id is used again |
| CatalogSets.CatalogEntry.SetPrev | src/include/catalog/catalog_entry/catalog_entry.h:63-68 | an entry linked above the top of a chain makes a longer well-linked chain |
| CatalogSets.CatalogEntry.UnlinkNext | src/storage/undo_buffer.cpp:251-268 | taking out the entry above keeps the chain well linked |
| CatalogSets.CatalogSet.constructor | src/catalog/catalog_set.cpp:20-24 | an empty set whose first object id is 0, or 2^63 if it is internal |
| CatalogSets.CatalogSet.TraverseVersionChain | src/catalog/catalog_set.cpp:121-135 | walking the links finds the newest version the reader sees, or nothing |
| CatalogSets.CatalogSet.GetCommittedEntry | src/catalog/catalog_set.cpp:137-145 | walking the links finds the newest committed version, or nothing |
| CatalogSets.CatalogSet.ContainsEntry | src/catalog/catalog_set.cpp:33-47 | found exactly if the reader sees a version that is not deleted |
| CatalogSets.CatalogSet.GetEntry | src/catalog/catalog_set.cpp:49-63 | the visible entry of a name, or the error when there is none |
| CatalogSets.CatalogSet.GetEntries | src/catalog/catalog_set.cpp:210-221 | the result is the reader's whole view, whatever order the names are visited in |
| CatalogSets.CatalogSet.GetEntryOfOID | src/catalog/catalog_set.cpp:223-237 | a name whose newest version has the id and of which the reader sees a live version; nothing only if there is no such name |
| CatalogSets.CatalogSet.EmplaceNoLock | src/catalog/catalog_set.cpp:105-111 | exactly one version is added, on top of its chain, and all links stay right |
| CatalogSets.CatalogSet.CheckCreate | src/catalog/catalog_set.cpp:81-97 | the error of a creation in the order in which it is looked for: visible, in conflict, not deleted |
| CatalogSets.CatalogSet.CreateEntryNoLock | src/catalog/catalog_set.cpp:81-103 | the set after a creation, with a dummy below a new name, and the entry the undo buffer records |
| CatalogSets.CatalogSet.CreateEntry | src/catalog/catalog_set.cpp:65-79 | the same with the next object id, which is used up even if the creation fails |
| CatalogSets.CatalogSet.DropEntryNoLock | src/catalog/catalog_set.cpp:159-169 | a tombstone on top of a visible name, an error otherwise |
| CatalogSets.CatalogSet.AlterTableEntry | src/catalog/catalog_set.cpp:171-181 | a changed copy with the same object id on top of a visible name |
| CatalogSets.CatalogSet.RenameTableEntry | src/catalog/catalog_set.cpp:183-192 | drop and create, both recorded; on an error what the drop has done stays |
| CatalogSets.CatalogSet.CommitRecord | src/storage/undo_buffer.cpp:199-204 | exactly the version above the recorded one gets the commit timestamp |
| CatalogSets.CatalogSet.RollbackRecord | src/storage/undo_buffer.cpp:251-268 | exactly the version above the recorded one is taken out, whether it was the newest or not |
| Intersection.RunExact | src/processor/operator/intersect/intersect_multiway.cpp:216-306 | from any target on, the loop over sorted lists emits each id as often as it can be picked from every list |
| Intersection.IntersectExact | src/processor/operator/intersect/intersect_multiway.cpp:197-308 | on sorted lists the intersection is the bag product of the lists |
| Intersection.IntersectLosesBehind | src/processor/operator/intersect/intersect_multiway.cpp:216-242 | an id behind a greater one is emitted too rarely |
| Intersection.SortedIffIntersects | src/processor/operator/intersect/intersect_multiway.cpp:197-308 | a list is intersected correctly with every sorted list exactly if it is sorted |
| IntersectMultiway.GotoNext | src/processor/operator/intersect/intersect_multiway.cpp:160-174 | the ids from the cursor on lose their first, over chunk ends and empty chunks |
| IntersectMultiway.GoUntil | src/processor/operator/intersect/intersect_multiway.cpp:180-189 | the ids below the target are passed and no others |
| IntersectMultiway.PassRun | src/processor/operator/intersect/intersect_multiway.cpp:251-264 | the run of equal ids is passed and counted |
| IntersectMultiway.AdvanceAll | src/processor/operator/intersect/intersect_multiway.cpp:216-246 | the cursors reach the target, or the target that was missed, or the end of a list |
| IntersectMultiway.PassAll | src/processor/operator/intersect/intersect_multiway.cpp:247-275 | the product of the runs, whether a list has run out, and the highest id as next target |
| IntersectMultiway.NextVector | src/processor/operator/intersect/intersect_multiway.cpp:291-298 | behind a full vector there is an empty one, the ids written stay |
| IntersectMultiway.Emit | src/processor/operator/intersect/intersect_multiway.cpp:276-301 | the id is appended exactly `count` times and all vectors but the last stay full |
| IntersectMultiway.Round | src/processor/operator/intersect/intersect_multiway.cpp:216-275 | what a round finds and what is left make up the whole, and what is left shrinks |
| IntersectMultiway.IntersectLoop | src/processor/operator/intersect/intersect_multiway.cpp:216-306 | the loop ends with the whole intersection in the vectors |
| IntersectMultiway.MultiwayIntersect | src/processor/operator/intersect/intersect_multiway.cpp:197-308 | the vectors hold the intersection of all lists, packed, and the result says whether it is empty |
| CartesianLoop.LoopState.constructor | src/include/processor/operator/intersect/intersect_multiway.h:198-200 | finished, all cursors at zero |
| CartesianLoop.LoopState.Fill | src/processor/operator/intersect/intersect_multiway.cpp:379-385 | the vector is shown, the first one with the size it shares with the output vector, and that size becomes the one shown |
| CartesianLoop.LoopState.Reset | src/processor/operator/intersect/intersect_multiway.cpp:29-35 | all cursors at zero and the output vectors show the first results in full |
| CartesianLoop.LoopState.Turn | src/processor/operator/intersect/intersect_multiway.cpp:39-54 | one cursor goes up, or back to zero with a carry, its first vector then cut to the size of its last one, or the loop is finished |
| CartesianLoop.LoopState.GotoNext | src/processor/operator/intersect/intersect_multiway.cpp:37-55 | the next position in counting order, and the output vectors show it, a first vector cut wherever its cursor has been carried back |
| CartesianCount.AfterNext | src/processor/operator/intersect/intersect_multiway.cpp:37-55 | how often a tuple is in the pieces after a position is how often it is in the next one and in those after it |
| CartesianCount.NothingLostIff | src/processor/operator/intersect/intersect_multiway.cpp:37-55 | the pieces make up the product of the whole results exactly if no cursor that is carried back has a last vector shorter than its first |
| CartesianCount.InUseIsPack | src/include/processor/operator/intersect/intersect_multiway.h:204-207 | the vectors up to the first empty one are the whole result, packed |
| CartesianCount.PiecesAreProductIff | src/processor/operator/intersect/intersect_multiway.cpp:90-94 | the same in terms of the result sizes: each fits one vector, or fills its vectors, or is followed only by results that fit one |
| CartesianCount.CarryLosesTuples | src/processor/operator/intersect/intersect_multiway.cpp:379-385 | two results of one id more than a vector holds come out in four pieces with one tuple less than a vector holds missing |
| IntersectProbe.WalkFindsKey | src/processor/operator/hash_join/join_hash_table.cpp:116-127 | the chain of a key's slot, walked back and reversed, has all tuples of the key in insertion order, whatever else hashes to the slot |
| IntersectProbe.WalkChain | src/processor/operator/intersect/intersect_multiway.cpp:111-126 | the non-empty lists of the key, from the newest tuple on |
| IntersectProbe.ReverseInPlace | src/processor/operator/intersect/intersect_multiway.cpp:133-135 | swapping the halves reverses |
| IntersectProbe.ProbeHT | src/processor/operator/intersect/intersect_multiway.cpp:99-140 | all lists of the key in insertion order for every connected node; no result exactly if one of them has none |
| IntersectRow.SortKeeps | src/processor/operator/intersect/intersect_multiway.cpp:348-352 | sorting by offset keeps the ids, and puts them in order if smaller ids have smaller offsets |
| IntersectRow.ChunkSortSortsIff | src/processor/operator/intersect/intersect_multiway.cpp:346-354 | sorting chunk by chunk sorts the whole list, whatever is done with equal offsets, exactly if in every chunk smaller ids have smaller offsets and the chunks came in order |
| IntersectRow.TwoTablesLost | src/processor/operator/intersect/intersect_multiway.cpp:346-354 | one chunk with ids of two tables: however it is sorted by offset, an id is lost |
| IntersectRow.EdgesAreListed | src/processor/operator/intersect/intersect_multiway.cpp:113-126 | an id is in the lists found for a key as often as there are edges between them |
| IntersectRow.ResultIsWays | src/processor/operator/intersect/intersect_multiway.cpp:343-360 | for lists that come in order, an id is in an output node's result as often as there are ways to choose its edges |
| IntersectRow.ResultSize | src/processor/operator/intersect/intersect_multiway.cpp:343-360 | for lists that come in order, an output node has as many results as there are ways to choose its edges, whatever id they lead to |
| IntersectRow.RowIsJoin | src/processor/operator/intersect/intersect_multiway.cpp:316-366 | for lists that come in order, the product of a row's results is exactly the matches of the pattern, each as often as its edges can be chosen |
| IntersectOperator.OrderByCardinality | src/processor/operator/intersect/intersect_multiway.cpp:336-340 | all output nodes, by ascending product |
| IntersectOperator.Operator.ProbeHTs | src/processor/operator/intersect/intersect_multiway.cpp:97-142 | succeeds exactly if every connected pair has a list, and then all lists are there |
| IntersectOperator.Operator.Cardinalities | src/processor/operator/intersect/intersect_multiway.cpp:325-335 | the product of the list sizes per output node |
| IntersectOperator.Operator.ChooseOrder | src/processor/operator/intersect/intersect_multiway.cpp:325-341 | every output node once, by ascending product if the order is dynamic, as numbered if not |
| IntersectOperator.Operator.SortedLists | src/processor/operator/intersect/intersect_multiway.cpp:346-354 | the sorted lists of the nodes connected to an output node |
| IntersectOperator.Operator.IntersectOne | src/processor/operator/intersect/intersect_multiway.cpp:343-356 | whether the result of an output node is empty; if not, its vectors hold it, packed |
| IntersectOperator.Operator.IntersectAll | src/processor/operator/intersect/intersect_multiway.cpp:343-360 | stops early exactly if some result is empty, in any order; otherwise all results are there, and the shared sizes are those of the first vectors |
| IntersectOperator.Operator.FetchRow | src/processor/operator/intersect/intersect_multiway.cpp:318-323 | the next row with all lists; the rows passed have no pieces |
| IntersectOperator.Operator.NextRow | src/processor/operator/intersect/intersect_multiway.cpp:318-323 | what was to come is the pieces of the row that is taken and what is then to come |
| IntersectOperator.Operator.StartRow | src/processor/operator/intersect/intersect_multiway.cpp:361-366 | the first piece and what is pending are the pieces of the row |
| IntersectOperator.Operator.Advance | src/processor/operator/intersect/intersect_multiway.cpp:311-314 | the next piece and what is then pending are what was pending; finished exactly if nothing was |
| IntersectOperator.Operator.ShowRow | src/processor/operator/intersect/intersect_multiway.cpp:325-366 | a row with an empty result has no pieces; any other is at its first piece |
| IntersectOperator.Operator.FillRow | src/processor/operator/intersect/intersect_multiway.cpp:316-367 | ends at the first row with pieces, or when no row is left; the pieces to come stay the same |
| IntersectOperator.Operator.GetNextTuples | src/processor/operator/intersect/intersect_multiway.cpp:310-377 | the piece a call gives out and the pieces then left are the pieces that were left; no piece exactly if none was left |
| IntersectOperator.Operator.Drain | src/processor/operator/intersect/intersect_multiway.cpp:310-377 | calls until none is left give exactly the pieces that were left, in order |
| IntersectOperator.RunOperator | src/processor/operator/intersect/intersect_multiway.cpp:310-377 | from start to end the outputs are the pieces of all rows, one row after the other |
| IntersectOperator.RowGivenIff | src/processor/operator/intersect/intersect_multiway.cpp:310-377 | all tuples of a row are given out exactly if its results fit their vectors |
| IntersectOperator.OperatorIsJoinIff | src/processor/operator/intersect/intersect_multiway.cpp:310-377 | for lists that come in order, every tuple is given out as often as the join of the rows with the edges of all connected pairs has it, exactly if for every row the numbers of edge choices are at most a vector's capacity, or multiples of it, or followed only by such as are at most the capacity |
| IntersectOperator.RowFitsIff | src/processor/operator/intersect/intersect_multiway.cpp:379-385 | whether a row's results fit their vectors can be told from its edges |
| UnsortedLists.UnsortedLoses | src/processor/operator/intersect/intersect_multiway.cpp:310-377 | for every list that the sort leaves unsorted there is a second list, of one id, with which the whole operator gives out a match too rarely |
| UnsortedLists.NotInOrderLoses | src/processor/operator/intersect/intersect_multiway.cpp:346-354 | for every list that is not in order, some sort by offset and some second list lose a match |
| CyclePlanner.RoundShrinks | src/include/binder/query/query_graph_simple.hpp:474-513 | a round that removes something leaves fewer nodes and pairs, so the loop ends |
| CyclePlanner.RoundKeeps | src/include/binder/query/query_graph_simple.hpp:480-511 | a round removes nothing that a part with two connections per node needs |
| CyclePlanner.RoundEnds | src/include/binder/query/query_graph_simple.hpp:480-511 | when a round removes nothing, every probe and every intersect node has two connections |
| CyclePlanner.Prune | src/include/binder/query/query_graph_simple.hpp:471-513 | the result is the largest part of the connections with two per node on both sides |
| ScanFacts.PushedScanTimes | src/optimizer/filter_push_down_optimizer.cpp:184-188 | predicates for zone maps do not change how often a row is scanned that passes them |
| ScanFacts.KeyScanTimes | src/optimizer/filter_push_down_optimizer.cpp:189-201 | the index lookup gives exactly the rows that pass the comparison, null keys included |
| FilterPushDown.AppendFilters | src/optimizer/filter_push_down_optimizer.cpp:257-267 | filters on top restrict a plan to the predicates |
| FilterPushDown.SidesTimes | src/optimizer/filter_push_down_optimizer.cpp:94-135 | where all predicates are true, pushing those of the sides into the sides changes neither side |
| FilterPushDown.ProductSameIff | src/optimizer/filter_push_down_optimizer.cpp:94-101 | for regular and optional products, pushing into the sides keeps the rows that pass all predicates exactly if the product is regular, the build side was empty or keeps a row, or no probe row passes with nulls |
| FilterPushDown.ConditionSame | src/optimizer/filter_push_down_optimizer.cpp:102-135 | with a join condition among the predicates an optional product may become a join: a row of nulls never matches |
| FilterPushDown.ConditionTrue | src/optimizer/filter_push_down_optimizer.cpp:106-120 | an equality of columns of both sides is true exactly if the join keys match, and null matches nothing |
| PushedPlan.SameSides | src/processor/operator/result_collector.cpp:59-86 | the bag of a product, optional and marked ones included, depends only on the bags of its sides |
| PushedPlan.PushedPasses | src/optimizer/filter_push_down_optimizer.cpp:233-242 | every row of a pushed plan passes all predicates that were pending for it |
| PushedPlan.ProductPushedIff | src/optimizer/filter_push_down_optimizer.cpp:78-136 | a product whose sides are pushed right is pushed right exactly if it becomes a join or its build side is not emptied under a row of nulls that passes |
| PushedPlan.PushedRestricts | src/optimizer/filter_push_down_optimizer.cpp:26-136 | where that holds at every product, the pushed plan is the plan restricted to the pending predicates, for every plan |
| PushedPlan.NullRowAppears | src/planner/plan/plan_subquery.cpp:132-141 | a match, an optional match and a match with a null test on the optional one: no row is due and the pushed plan gives one |
| PushDownOptimizer.FilterPushDownOptimizer.PopKeyComparison | src/optimizer/filter_push_down_optimizer.cpp:298-322 | the comparison taken out has the key on the left, and with the rest says what all said |
| PushDownOptimizer.FilterPushDownOptimizer.FinishPushDown | src/optimizer/filter_push_down_optimizer.cpp:233-242 | the plan restricted to all pending predicates |
| PushDownOptimizer.FilterPushDownOptimizer.ColumnPredicates | src/optimizer/filter_push_down_optimizer.cpp:138-158 | every row that passes the predicates passes what is pushed |
| PushDownOptimizer.FilterPushDownOptimizer.VisitScan | src/optimizer/filter_push_down_optimizer.cpp:180-208 | the scan, a lookup if a key is compared with a constant, restricted to the pending predicates |
| PushDownOptimizer.FilterPushDownOptimizer.VisitInputs | src/optimizer/filter_push_down_optimizer.cpp:50-58 | every input has the bag of that input pushed on its own |
| PushDownOptimizer.FilterPushDownOptimizer.VisitChildren | src/optimizer/filter_push_down_optimizer.cpp:50-59 | an operator the pass does not look into, over its pushed inputs, restricted to the pending predicates |
| PushDownOptimizer.FilterPushDownOptimizer.VisitTableFunctionCall | src/optimizer/filter_push_down_optimizer.cpp:210-217 | the same for a table function that is told the predicates |
| PushDownOptimizer.FilterPushDownOptimizer.VisitExtend | src/optimizer/filter_push_down_optimizer.cpp:219-231 | the same for an extend |
| PushDownOptimizer.FilterPushDownOptimizer.VisitFilter | src/optimizer/filter_push_down_optimizer.cpp:61-76 | a filter's predicate joins the pending ones; a literal true is dropped, a literal false or null gives the empty result |
| PushDownOptimizer.FilterPushDownOptimizer.VisitCrossProduct | src/optimizer/filter_push_down_optimizer.cpp:78-136 | predicates go to the side that can evaluate them or become join conditions; the result has the bag of the pushed product, and is the product restricted to all predicates exactly under the condition of `ProductPushedIff` |
| PushDownOptimizer.FilterPushDownOptimizer.VisitOperator | src/optimizer/filter_push_down_optimizer.cpp:26-48 | for every plan and pending predicates the result has the bag of the pushed plan, and is the plan restricted to them where no row of nulls is brought in that passes |
| PushDownOptimizer.SplitPredicates | src/optimizer/filter_push_down_optimizer.cpp:83-93 | every predicate goes to the one side that can evaluate it or remains, and together they say what all said |
| PushDownOptimizer.JoinConditions | src/optimizer/filter_push_down_optimizer.cpp:106-120 | join conditions and the rest say together what the equalities said; there are conditions exactly if an equality compares columns of both sides |
| PushedPlan.SameInputs | src/optimizer/filter_push_down_optimizer.cpp:50-59 | an operator over inputs with the same bags has the same bag |
| JoinPruning.PruneKeeps | src/optimizer/remove_unnecessary_join_optimizer.cpp:16-55 | pruning keeps the bag of a plan whose removed joins only look up ids that are there once, and whose removed count joins have a key for every id |
| JoinPruning.Optimize | src/optimizer/optimizer.cpp:31-35 | pruning, then pushing down, gives the bag of the pruned plan pushed down, and keeps the bag of the whole plan where no row of nulls is brought in that passes |
| JoinPruning.ExampleUnpruned | src/optimizer/optimizer.cpp:31-35 | the plan of `NullRowAppears` goes through the first pass as it is, so both passes together add the row |
| JoinPruning.CountJoinKeptIff | src/optimizer/remove_unnecessary_join_optimizer.cpp:46-53 | a count join whose probe side is a scan of ids is replaced by its build side, which keeps the bag exactly if every scanned id is a key there |
| JoinPruning.CountLost | src/processor/operator/hash_join/hash_join_probe.cpp:155-163 | one node without edges: its count of zero is due, and the pruned plan has no row |
| NestedText.CloseFinds | src/function/cast_from_string_functions.cpp:217-243 | the close behind well-formed items is found |
| NestedText.CloseIsMatch | src/function/cast_from_string_functions.cpp:217-243 | what lies before the close that is found is made of well-formed items |
| NestedText.SkipToCloseQuotes | src/function/cast_from_string_functions.cpp:204-215 | stops at the next quote of the same kind, or at the end |
| NestedText.SkipToClose | src/function/cast_from_string_functions.cpp:217-243 | ends on every input; stops on the matching close, with the level down by one in 64 bits for a bracket and unchanged for a brace |
| NestedScanner.SplitCStringList | src/function/cast_from_string_functions.cpp:295-343 | the parts and the verdict of `ListSplit` on every text, malformed ones included; `ListFinds` and `ListGoodIff` say what these are |
| TextChunks.StopFinds | src/function/cast_from_string_functions.cpp:453-484 | the search for the end of a key or value passes over bare characters, texts in quotes of either kind and bracketed texts, and stops at the separator behind them |
| TextChunks.StopIsMatch | src/function/cast_from_string_functions.cpp:453-484 | what lies before the separator that is found is made of these |
| ListGrammar.ListFinds | src/function/cast_from_string_functions.cpp:295-343 | in an open bracket, parts with commas between them and a close bracket, exactly these parts are found; a part is made of bare characters, bracketed texts and, at its beginning, a quoted text, whatever commas and brackets they hold; the verdict is whether only white space follows |
| ListGrammar.ListGoodIff | src/function/cast_from_string_functions.cpp:295-343 | the verdict is good exactly for such texts with only white space around them |
| ListGrammar.TrimmedIs | src/function/cast_from_string_functions.cpp:286-292 | what is cast of a part is its text without the white space at both ends |
| NestedScanner.ListPartsOrdered | src/function/cast_from_string_functions.cpp:310-343 | on every text the parts are disjoint, in order and within it |
| NestedScanner.DataVector.CastList | src/function/cast_from_string_functions.cpp:381-403 | the filling pass writes the counted slots, each with the trimmed text of its part, and no others; an error exactly if the text is malformed or a part does not convert, the parts being those of `ListFinds` |
| NestedScanner.ParseKeyOrValue | src/function/cast_from_string_functions.cpp:453-484 | the first stop outside quotes and brackets |
| NestedScanner.SplitCStringMap | src/function/cast_from_string_functions.cpp:486-519 | the keys, the values and the verdict on every text |
| MapGrammar.MapFinds | src/function/cast_from_string_functions.cpp:486-519 | in braces, of keys, equals signs, values and commas exactly the keys and values are found, with what they hold in quotes and brackets; the verdict is whether only white space follows |
| MapGrammar.MapGoodIff | src/function/cast_from_string_functions.cpp:486-519 | the verdict is good exactly for such texts, or empty braces, with only white space around them |
| NestedScanner.MapWritesFitIff | src/function/cast_from_string_functions.cpp:521-537 | the filling pass stays within the counted slots exactly if a value ends behind the last key |
| NestedScanner.MapOverrun | src/function/cast_from_string_functions.cpp:427-451 | a text for which two keys are written and one value is counted |
| NestedScanner.ParseStructFieldName | src/function/cast_from_string_functions.cpp:547-555 | the first colon |
| NestedScanner.ParseStructFieldValue | src/function/cast_from_string_functions.cpp:557-582 | the first stop outside quotes and brackets |
| NestedScanner.CastStruct | src/function/cast_from_string_functions.cpp:584-643 | the fields written, also before an error, and which error |
| StructGrammar.TrimQuotesIff | src/function/cast_from_string_functions.cpp:195-202 | quotes of one kind at both ends are taken off, any other text stays as it is, and only a lone quote leaves no text |
| StructGrammar.StructFinds | src/function/cast_from_string_functions.cpp:584-643 | in braces, of names up to the first colon, values and commas exactly the fields are found, without quotes around names and values; the verdict is whether only white space follows |
| StructGrammar.StructGoodIff | src/function/cast_from_string_functions.cpp:584-643 | the verdict is good exactly for such texts with known names, or empty braces, with only white space around them |
| StructVerdicts.UnknownIff | src/function/cast_from_string_functions.cpp:611-621 | a name is reported as unknown exactly if it stands before the first colon and is no field's |
| StructVerdicts.LoneQuoteIff | src/function/cast_from_string_functions.cpp:611-630 | a lone quote is reported exactly if it is the name, or the value of a known field |
| StructVerdicts.StructStops | src/function/cast_from_string_functions.cpp:609-643 | the fields before the first one that is not accepted are found, and its error is the verdict |
| NestedPrinter.ToString | src/common/type_utils.cpp:102-108 | a null prints as nothing, anything else as its kind calls for |
| NestedPrinter.ListToString | src/common/type_utils.cpp:175-190 | the elements in order with commas between them |
| NestedPrinter.StructToString | src/common/type_utils.cpp:221-258 | the fields in order with their names |
| NestedPrinter.PrintIs | src/common/type_utils.cpp:102-258 | the exact text of a value: nothing for null, list elements joined by commas in brackets, struct fields with their names joined by commas and spaces in braces |
| NestedPrinter.NullTextIff | src/function/cast_from_string_functions.cpp:245-263 | a text is null exactly if it is white space around nothing or around the word null in any case |
| NestedPrinter.PrintCloses | src/common/type_utils.cpp:175-190 | the bracket of a printed value is closed at its end and not before |
| NestedPrinter.SplitPrinted | src/function/cast_from_string_functions.cpp:295-343 | splitting a printed list gives exactly its elements' texts, but for a lone null |
| NestedPrinter.SplitPrintedStruct | src/function/cast_from_string_functions.cpp:584-643 | splitting a printed struct gives exactly its fields |
| NestedPrinter.CastPrint | src/function/cast_from_string_functions.cpp:871-877 | casting what was printed gives the value back, with lone nulls taken out of their lists |
| NestedPrinter.RoundTripIff | src/function/cast_from_string_functions.cpp:245-263 | printing and casting is the identity exactly for values without a one-element list of null |
| NestedMaps.MapToString | src/common/type_utils.cpp:192-219 | the entries in order with commas between them |
| NestedMaps.EntriesJoined | src/common/type_utils.cpp:192-219 | the exact text of the entries: key, equals sign and value, joined by commas and spaces |
| NestedMaps.SplitPrintedMap | src/function/cast_from_string_functions.cpp:453-519 | splitting a printed map gives exactly the texts of its keys and values, in order |
| NestedMaps.MapPartsOrdered | src/function/cast_from_string_functions.cpp:486-519 | on every text keys and values come in turns, disjoint, in order and within it |
| NullMask.IsNull | src/include/common/null_mask.h:116-119 | the bit at the position |
| NullMask.SetNull | src/common/null_mask.cpp:13-21 | exactly one bit changes |
| NullMask.CopyFew | src/common/null_mask.cpp:25-35 | up to three bits one by one; the flag is about the source bits |
| NullMask.CopyAligned | src/common/null_mask.cpp:36-66 | exactly the range is copied through bytes, with its uneven ends |
| NullMask.CopyUnaligned | src/common/null_mask.cpp:73-135 | exactly the range is copied, inverted or not, for all offsets, and the flag says whether a written bit is set |
| NullMask.CopyNullMask | src/common/null_mask.cpp:23-71 | exactly the range is copied on all paths, and the flag says whether a written bit is set, but for up to three inverted bits |
| NullMask.ShortInvertedFlag | src/common/null_mask.cpp:25-35 | that flag is right exactly if nothing is copied or the range is mixed |
| NullMask.SetNullRange | src/common/null_mask.cpp:164-207 | exactly the bits of the range get the value |
| NullMask.GetMinMax | src/common/null_mask.cpp:216-278 | whether all bits of the range are set, and whether one is |
| Md5.WordOfBytes | src/common/md5.cpp:31-38 | the bytes of a word, lowest first, give the word back |
| Md5.AllBytesAt | src/common/md5.cpp:31-38 | the bytes of words: byte 4i+k is digit k of word i to the base 256 |
| Md5.WordsOfAllBytes | src/common/md5.cpp:31-38 | the words come back from their bytes, in order |
| Md5.PaddingIs | src/common/md5.cpp:183-214 | the padding is the byte 0x80, as few zeros as make the length a multiple of 64, and the eight digits of the number of bits |
| Md5.CountAdds | src/common/md5.cpp:139-149 | the two counters with their carry count modulo 2^64 |
| Md5.Context.constructor | src/common/md5.cpp:129-137 | nothing seen, and the four words of section 3.3 of RFC 1321 |
| Md5.Context.Count | src/common/md5.cpp:139-149 | eight times the length is added modulo 2^64 |
| Md5.Context.Update | src/common/md5.cpp:139-181 | whole blocks are in the state and the rest is in the buffer, whatever was there before; the counters hold eight times the bytes seen |
| Md5.Context.Pad | src/common/md5.cpp:187-207 | the marker and the zeros, in this block or in one more |
| Md5.LastBlock | src/common/md5.cpp:187-214 | the blocks of the padded message end in the one or two that are made from the buffer |
| Md5.Context.Final | src/common/md5.cpp:183-218 | digest byte 4i+k is digit k of word i of the state after all blocks of the padded message; then state, counters and buffer are zero |
| Md5.HashChunks | src/common/md5.cpp:129-218 | however a message is cut into updates, digest byte 4i+k is digit k of word i of the state after all blocks of the whole padded message |
| NestedValues.FirstDifferenceDecides | src/function/comparison_functions.cpp:186-222 | of two sequences one is greater exactly if its element is at the first difference, or if it goes on where the other ends |
| NestedValues.OrderIs | src/function/comparison_functions.cpp:166-222 | the order of values of a type: leaves as numbers, null above everything else, lists by their first difference and then by length, structs by their first different field |
| NestedValues.Trichotomy | src/function/comparison_functions.cpp:166-222 | of two values of a type exactly one of greater, less and equal holds, at any depth |
| NestedValues.Transitive | src/function/comparison_functions.cpp:166-222 | greater is transitive, nulls and lists of different lengths included |
| NestedValues.NestedEqual | src/function/comparison_functions.cpp:104-113 | true exactly for equal values, two nulls included |
| NestedValues.EqualLists | src/function/comparison_functions.cpp:115-133 | true exactly for equal lists |
| NestedValues.EqualStructs | src/function/comparison_functions.cpp:135-164 | true exactly if all fields are equal |
| NestedValues.NestedGreater | src/function/comparison_functions.cpp:166-184 | whether the one value is greater in the order of `OrderIs`, and when it is not, whether they are equal |
| NestedValues.GreaterLists | src/function/comparison_functions.cpp:186-204 | the same for lists, where `FirstDifferenceDecides` |
| NestedValues.GreaterStructs | src/function/comparison_functions.cpp:206-222 | the same for structs |
| NestedValues.VectorTrichotomy | src/function/comparison_functions.cpp:104-222 | the same for any two positions of vectors of a type |
| HashReadings.HashLaws | src/function/vector_hash_functions.cpp:123-202 | an empty list hashes like null, a list combines its last element's hash onto that of the others, a struct that of the others onto its last field's |
| HashReadings.RowHashIsHash | src/function/vector_hash_functions.cpp:204-226 | for every vector the hash of a position is the hash of the value read there, struct null bits ignored |
| HashReadings.HashReadsIff | src/function/vector_hash_functions.cpp:204-226 | two positions hash equally under every 64-bit hashing exactly if the same is read at both |
| HashReadings.TellsApart | src/function/vector_hash_functions.cpp:204-226 | for any two different values of a type there is a 64-bit hashing that tells them apart |
| HashReadings.EqualHashEquallyIff | src/function/vector_hash_functions.cpp:172-226 | equal values hash equally under every 64-bit hashing exactly if their null structs read alike |
| HashReadings.EqualHashEqually | src/function/vector_hash_functions.cpp:204-226 | equal values hash equally, in any two vectors whose null structs have null fields only |
| HashReadings.UncleanNullsDiffer | src/function/vector_hash_functions.cpp:172-202 | two null structs with different fields are equal and hash differently, for every hash that tells the fields apart |
| VectorHash.ComputeHash | src/function/vector_hash_functions.cpp:204-226 | every selected position gets the hash of its row at its place, and no other place changes |
| VectorHash.HashLeaves | src/function/vector_hash_functions.cpp:21-63 | the same for leaves, nulls included |
| VectorHash.HashData | src/function/vector_hash_functions.cpp:123-145 | all elements of a data vector are hashed, however long, a vector capacity at a time |
| VectorHash.FinishLists | src/function/vector_hash_functions.cpp:147-164 | a list's hash combines its elements' in order |
| VectorHash.HashStructs | src/function/vector_hash_functions.cpp:172-202 | a struct's hash combines its fields' in order |
| VectorHash.CombineField | src/function/vector_hash_functions.cpp:89-121 | one more field is combined into every hash |
| FindString.Rolled | src/function/find_function.cpp:27-37 | shifting one byte out and one in gives the packed next window |
| FindString.UnalignedFind | src/function/find_function.cpp:10-42 | the least match, for needles shorter than a word |
| FindString.AlignedFind | src/function/find_function.cpp:44-58 | the least match, for needles as long as a word |
| FindString.DiffRolls | src/function/find_function.cpp:60-91 | the difference of the sums rolls on modulo 2^32 |
| FindString.GenericFind | src/function/find_function.cpp:60-91 | the least match; positions whose sums differ are no match |
| FindString.Find | src/function/find_function.cpp:95-127 | the least match of a non-empty needle, or -1 if there is none |
| ListSlices.SortByOffset | src/expression_evaluator/list_slice_info.cpp:10-22 | the selected lists, each as often, by offset |
| ListSlices.ElementsCount | src/expression_evaluator/list_slice_info.cpp:10-49 | every element of a list is to be sliced as often as the list is selected, and nothing else is |
| ListSlices.ElementsOfPermutation | src/expression_evaluator/list_slice_info.cpp:10-22 | the lists in another order have the same elements, each as often |
| ListSlices.ListEntryTracker.constructor | src/expression_evaluator/list_slice_info.cpp:10-23 | at the first element, with all elements left |
| ListSlices.ListEntryTracker.UpdateListEntry | src/expression_evaluator/list_slice_info.cpp:38-49 | null and empty lists are passed and no element is |
| ListSlices.ListEntryTracker.Next | src/expression_evaluator/list_slice_info.cpp:25-36 | one element less is left |
| ListSlices.ListEntryTracker.NextSlice | src/expression_evaluator/list_slice_info.cpp:91-103 | the slice and what is left make up what was left; it is full unless nothing is left |
| ListSlices.AllSlices | src/expression_evaluator/lambda_evaluator.cpp:60-66 | one behind the other the slices are the elements of the selected lists by ascending offset, each with its list; none is too long and all but the last are full |
| DecimalArithmetic.AddExact | src/function/vector_arithmetic_functions.cpp:490-505 | throws exactly if the sum leaves the precision; every step fits the integer type |
| DecimalArithmetic.SubtractExact | src/function/vector_arithmetic_functions.cpp:517-529 | throws exactly if the difference leaves the precision; every step fits the integer type |
| DecimalArithmetic.MultiplyNeverOverflows | src/function/vector_arithmetic_functions.cpp:541-564 | a product has no type exactly if it needs more than 38 digits; otherwise the check never fires, the result fits its precision and integer type, and with the result's scale it means the product of what the operands mean |
| DecimalArithmetic.SumMeans | src/function/vector_arithmetic_functions.cpp:490-529 | operands cast to the result type mean what they meant, and a sum or difference that does not throw means their sum or difference |
| DecimalArithmetic.AddParamsWholeDigits | src/function/vector_arithmetic_functions.cpp:507-514 | the extra digit of the result type goes to its scale; cut at 38 digits, the type has only the whole digits that the longer scale leaves |
| DecimalArithmetic.SumThrowsIff | src/function/vector_arithmetic_functions.cpp:490-514 | for all operand types, a sum of operands cast to the result type throws exactly if it does not fit the whole digits of that type |
| DecimalArithmetic.SmallSumOverflows | src/function/vector_arithmetic_functions.cpp:507-514 | two numbers of two digits whose sum throws |
| DecimalArithmetic.BoundStored | src/common/types/types.cpp:855-872 | everything up to the bound of a precision fits its integer type |
| DecimalArithmetic.FloorExact | src/function/vector_arithmetic_functions.cpp:632-651 | the greatest whole number not above the decimal, with truncating division; every step fits the integer type |
| DecimalArithmetic.CeilExact | src/function/vector_arithmetic_functions.cpp:653-672 | the least whole number not below the decimal; every step fits the integer type |

## Left out

- Names are compared as they are: the case folding of catalog and field names is not modelled.
- Locks and data races: the steps of the catalog machine are atomic; the operator sorts lists of a hash table that other threads may read.
- The write-ahead log, sequences, and the undo records of tables and vectors.
- Reading and writing of entry payloads: what is written is what is read.
- More than one write transaction at a time (the database does not allow it unless configured).
- The planner of CycleJoin apart from the pruning of its build graphs: path search, tree choice and costs.
- The overflow of the 64-bit products of list sizes and counts in the multiway intersection.
- Where lists are sliced and output nodes ordered, std::sort is a stable insertion sort here; the source leaves the order of equal keys open.
- The operator sorts the lists in place in the hash table, so a later probe finds them sorted; here every row sorts them anew.
- Operators above the intersection that change the selection of its output vectors between two calls.
- Plan nodes are values: that the optimizer passes change nodes in place and share expression objects is not modelled, nor that `rewrite` drops the returned root.
- Left and mark joins, which the passes do not look into, are functions of the bags of their inputs.
- Maps inside other values, null and repeated map keys, unions, lists without brackets, fixed-size arrays and the conversion of leaf texts.
- Leaf texts and field names with spaces, quotes, brackets, commas, colons or equals signs, and the leaf text null: the printer does not quote them, so they are outside the round trip.
- Hashes of nodes and relationships, which use only the id, and the paths for vectors without nulls.
- Empty needles in the substring search.
- MD5's compression function and its output as hexadecimal text.
- Division, modulo, negation and rounding of decimals, and functions on floating-point numbers.
- The allocator of overflow buffers, which would only add easy members.
- HashReadsIff: one half is stated for values with no more different parts than there are 64-bit numbers, because among more parts every hashing has collisions; the same holds for EqualHashEquallyIff and TellsApart.
- Null keys on the probe side of a count join, which here have count zero; the probe drops them from the selection of its key vector.
- Build sides of products without any column, of which the result collector keeps no rows.
- PruneKeeps: that every kept row's id is in the removed scan once is required, because it is what the storage promises and not what the pass checks.
- Md5.Context.Update: takes fewer than 2^32 bytes at a time, because the source's length parameter is a 32-bit number.
- Find: takes texts shorter than 2^32 bytes, because the source's lengths are 32-bit numbers.
- IsNull: takes positions below 2^32, because the source's positions are 32-bit numbers; the same holds for SetNull, CopyFew and the path of CopyNullMask for up to three bits.
- SumThrowsIff: where the result type is cut at 38 digits, the operands have to fit it, because casting those that do not throws or wraps around before the sum.
