# Verification of the VGI DuckDB extension

The VGI extension connects DuckDB to worker processes that serve tables, functions and catalogs over
Arrow record batches. This project models the parts of it that have a protocol, a state machine or a
transformation that must preserve meaning, and proves what those parts are for. It is written for
Dafny 4.11; `dafny verify dfyconfig.toml` checks everything. Every lemma switches automatic induction
off, so each induction is written out.

- **Columnar row engine** (`Arrow`, `Builders`, `RowEngine`, `Batches`). Physical Arrow trees with
  offsets, validity, struct shift, list offsets and dictionaries have one meaning, `At`; row gather,
  concatenation with dictionary merging, slicing and column selection are specified by decoded values
  only, with the widths of indices and offsets.
- **Schema reconciliation** (`SchemaTypes`, `TimeUnits`, `Conversion`, `Reconcile`). Four type
  comparisons and their chain of implications; element-by-element conversion proved against a
  conversion of values; relabelling proved to agree with it.
- **UTF-8 pass** (`Utf8Validation`). The tree walk with its ASCII shortcut against section 4 of RFC 3629.
- **Worker artifact cache** (`ArtifactCache`, `ArtifactInstall`, `MetaText`, `Stamping`, `Manifest`,
  `CachePrune`). Install, repair, launch, list, clean and prune by any number of calls in any number of
  processes through two lock files, every lock and file operation a step, with exceptions and crashes,
  over directories that hold the manifest's text; what rewriting the stamp in that text does to it; and
  the pruning arithmetic in 64 bits.
- **Execution protocols** (`Aggregate`, `AggregateStates`, `AggregateDestroy`, `CopyTo`,
  `CancelDispatcher`). Group ids over parallel states, the last-one-out destructor, pooled sink
  connections, and a suspendable background dispatcher, as state machines over sequentially consistent
  steps; remote workers appear by their contract.
- **Planning and catalog** (`ScanPlan`, `CatalogContents`, `Constraints`, `ConstraintEncoding`). The
  branching cursor worklist against breadth-first order, snapshot indexing, and constraint decoding
  and encoding with nullability.
- **Canonical encodings and agreement** (`CacheIdentity`, `BindProtocol`, `ContainerCommand`,
  `DirSalt`). An injective encoding, the two-phase bind that fingerprints what it sent, shell quoting
  against the shell's own reading, and a salt file that processes agree on.

Where the code does not do what its comments or its purpose say, the model follows the code, gives an
input on which it fails, and proves exactly when it does not:

- `InvokeTableFunctionPlan` says a partial enumeration is never returned, but a page request that
  comes back without a batch ends the loop and returns what has arrived
  (`ScanPlan.UnansweredPageTruncates`; `ScanPlan.PlanWholeIffAlwaysAnswers`).
- `Suspend` does not keep the dispatcher quiet until the next call of `Resume`: one that was called
  earlier and has not stored its flag yet undoes it (`CancelDispatcher.ResumeBeforeSuspendBreaksIt`;
  `CancelDispatcher.StaysQuietIffNonePending`).
- `Rescale` multiplies 64-bit times without a check, so bringing a time to a finer unit can land
  centuries away (`TimeUnits.YearTwentyThreeHundredOverflows`; `TimeUnits.FinerExactIffFits`,
  `Conversion.TimeConvertsExactlyIffFits`).
- `AppendConverted` reads a dictionary entry without looking whether it is null, so a null of a
  dictionary column can become a value; and it goes by the number of children where a struct is wanted,
  so a list column comes out as structs made of other rows' items
  (`Conversion.NullEntryBecomesText`, `Conversion.ListBecomesStruct`; `Conversion.ReadAgreesIff`,
  `Reconcile.RebuildingAgreesIff`).
- `TouchLastUsed` stamps the first `last_used=` in the manifest's text, which need not be the field: the
  manifest of an entrypoint with that in its name no longer matches once stamped
  (`Manifest.SpoiltArtifact`, `Manifest.StampSpoilsManifest`; `Manifest.StampedMatchesIff`,
  `Manifest.StampMovesIff`, `Manifest.AlwaysMatchesIffSafe`, `ArtifactInstall.AlwaysWholeIffSafe`).
- `PruneWorkerCache` adds sizes modulo 2^64, so a cache whose total wraps can stay above low water, and
  can report more bytes than it had (`CachePrune.WrappedTotalRemovesNothing`,
  `CachePrune.WrappedTotalOverReports`; `CachePrune.LeavesLowWaterIff`,
  `CachePrune.BytesAreConservedIff`).
- `LoadOrCreateDirSalt` says every process sharing the directory agrees on one salt. Without hard links
  and without a salt file to begin with, two calls can return two salts
  (`DirSalt.WithoutHardLinksSaltsDiffer`; `DirSalt.AlwaysAgreesIffSettled`,
  `DirSalt.NeverReplacedIffSettled`).
- The aggregate destructor is sent again when a group id is handed out after a send
  (`AggregateDestroy.HandingOutLateSendsAgain`; `AggregateDestroy.SentOnceIff`).
- Flags set by `EncodeNativeConstraints` fail the check of `DecodeNativeConstraints` when columns share
  a name and only one is required (`ConstraintEncoding.NamesakesFail`;
  `ConstraintEncoding.EncodedFlagsPassIff`).
- `ParseCatalogContents` checks that a schema follows its parent, yet accepts only one-component schema
  paths, so nested schemas are never accepted (`CatalogContents.SchemaKeysUnique`).

## Model

| member | source | states |
|---|---|---|
| `Arrow.ChildValue` | src/vgi_arrow.cpp:638-641 | a struct child column, with the shift it inherits, shows row by row the matching component of the struct's value |
| `RowEngine.AppendRows` | src/vgi_arrow.cpp:1018-1167 | the destination keeps every value it had and gains exactly the decoded values of the selected rows, at any nesting; it fails only on an unsupported node, an index that no longer fits or an offset that overflows |
| `RowEngine.AppendIndexRow` | src/vgi_arrow.cpp:1020-1031 | a stored index shifted by its dictionary's offset finds the row's value in the merged dictionary |
| `RowEngine.AppendStruct` | src/vgi_arrow.cpp:1088-1099 | one struct element decodes to the record of its children's values |
| `RowEngine.AppendList` | src/vgi_arrow.cpp:1100-1122 | one list, map or fixed-size list element decodes to the sequence of its items although offsets are rebuilt, and is refused only where an offset overflows or an item is refused |
| `RowEngine.PrepareDictionaries` | src/vgi_arrow.cpp:1171-1189 | every source dictionary at any depth ends up whole in the destination's at the recorded offset, and nothing already there changes |
| `RowEngine.FreshIndicesFit` | src/vgi_arrow.cpp:1171-1189 | preparing an empty builder shifts no index, so indices that fitted still fit |
| `Batches.AppendElement` | src/vgi_arrow.cpp:1193-1197 | appends one row of a column, dictionaries first, without disturbing earlier rows; succeeds whenever types are supported and there is room for the row and the dictionaries |
| `Batches.TakeRows` | src/vgi_arrow.cpp:1199-1209 | cell k of every column equals source cell rows[k]; succeeds whenever types are supported and indices and offsets fit |
| `Batches.ConcatBatches` | src/vgi_arrow.cpp:1211-1244 | every column decodes to the inputs' cells end to end despite merged dictionaries; column counts that differ are refused, and inputs with room for all cells and merged dictionaries always succeed |
| `Batches.SliceCells` | src/vgi_arrow.cpp:814-856 | a slice decodes to the matching subsequence of every column |
| `Batches.SliceDescend` | src/vgi_arrow.cpp:814-856 | the same at every nesting level reached through struct children |
| `Batches.SliceOfSlice` | src/vgi_arrow.cpp:814-856 | slicing a slice is one slice at the summed offset |
| `Batches.SliceThenSelect` | src/vgi_arrow.cpp:858-892 | slicing commutes with column selection |
| `Batches.TakeRowsOfSlice` | src/vgi_arrow.cpp:1199-1209 | gathering from a slice equals gathering shifted rows from the base |
| `SchemaTypes.TypesEqualImpliesDataTypes` | src/vgi_arrow.cpp:336-359 | TypesEqual with names checked implies DataTypesEqual on all type trees |
| `SchemaTypes.DataTypesImplyStructure` | src/vgi_catalog_api.cpp:3203-3221 | DataTypesEqual implies SameTypeStructure |
| `SchemaTypes.StructureImpliesLayout` | src/vgi_batch_validation.cpp:67-86 | SameTypeStructure makes SameLayout answer yes exactly if every type in both trees is supported, and throw otherwise |
| `SchemaTypes.EqualTypesChain` | src/vgi_arrow_utils.cpp:591-616 | the whole chain from TypesEqual down to SameLayout |
| `SchemaTypes.NamesMatterForDataTypes` | src/vgi_catalog_api.cpp:3203-3221 | without the name check the first link fails |
| `SchemaTypes.ValidateWireBatchTypes` | src/vgi_batch_validation.cpp:171-207 | accepts exactly the batches with the expected column count and structure in every checked column |
| `SchemaTypes.ValidateProjectedWireBatch` | src/vgi_batch_validation.cpp:209-229 | the guard compares column i with the declared column its projection id names, and skips ids out of range |
| `TimeUnits.RescaleIsFloor` | src/vgi_arrow_utils.cpp:632-649 | to a coarser unit C++ division with its correction is floor division |
| `TimeUnits.FinerExactIffFits` | src/vgi_arrow_utils.cpp:632-649 | to a finer unit rescaling is exact, and rescaling back restores the value, exactly if the product fits 64 bits |
| `TimeUnits.CoarserLosesLessThanOneUnitIffFits` | src/vgi_arrow_utils.cpp:632-649 | to a coarser unit and back less than one unit is lost, downward, exactly if the unit the value lies in begins within 64 bits |
| `TimeUnits.YearTwentyThreeHundredOverflows` | src/vgi_arrow_utils.cpp:638-640 | a timestamp that does not survive the trip to nanoseconds |
| `Conversion.AppendConverted` | src/vgi_arrow_utils.cpp:655-810 | appends exactly what conversion makes of the row as read, and refuses exactly when there is no such value or an offset overflows |
| `Conversion.ConvertSlot` | src/vgi_arrow_utils.cpp:697-810 | a leaf, read through its dictionary if it has one, converts as what is stored there does |
| `Conversion.TimeConvertsExactlyIffFits` | src/vgi_arrow_utils.cpp:797-806 | a time column converts to the same instant in a finer unit exactly if the product fits the slot; a 64-bit slot never refuses |
| `Conversion.ReadAgreesIff` | src/vgi_arrow_utils.cpp:655-704 | at any nesting, a row that converts is converted as its decoded value would be exactly if it refers to no null dictionary entry and has a record wherever fields are read |
| `Conversion.ReadableInBounds` | src/vgi_arrow_utils.cpp:665-673 | with a struct source wherever a struct of as many fields is wanted, a readable row is converted within its buffers |
| `Conversion.ListBecomesStruct` | src/vgi_arrow_utils.cpp:665-673 | of the lists [1, 2] and [3] the second is converted to the struct {2} |
| `Conversion.NullEntryBecomesText` | src/vgi_arrow_utils.cpp:697-704 | a null entry of a dictionary of strings is converted to the empty string |
| `Conversion.ConvertIsIdentity` | src/vgi_arrow_utils.cpp:589-616 | between types of the same layout every value that converts is unchanged |
| `Conversion.StoredTyped` | src/vgi_arrow_utils.cpp:655-810 | a physical column of a type decodes to values of that type |
| `Reconcile.ReconcileBatchToSchema` | src/vgi_arrow_utils.cpp:814-844 | kept buffers hold what converting each cell gives wherever that succeeds, and a rebuilt batch is the conversion of every cell exactly if reading each cell shows its value; buffers are kept exactly for equal schemas or equal layouts |
| `Reconcile.RebuildingAgreesIff` | src/vgi_arrow_utils.cpp:834-843 | a rebuilt batch is the conversion of its decoded cells exactly if no cell refers to a null dictionary entry and fields are read of records only |
| `Reconcile.SameShapesAreReady` | src/vgi_arrow_utils.cpp:834-843 | with a struct wherever a struct of as many fields is wanted, every valid batch can be rebuilt within its buffers |
| `Reconcile.ReconcileGuarded` | src/vgi_batch_validation.cpp:209-229 | a batch that passes the bind-type guard, under any projection, is never rebuilt when reconciled to the projected bind schema |
| `Utf8Validation.ValidateUtf8` | src/vgi_batch_validation.cpp:110-167 | with monotone offsets accepts a tree exactly if every non-null string at any depth, dictionaries included, is well-formed |
| `Utf8Validation.SpanCovers` | src/vgi_batch_validation.cpp:122-131 | an ASCII span vouches for every value inside it |
| `Utf8Validation.DecreasingOffsetsHideValues` | src/vgi_batch_validation.cpp:122-131 | why monotone offsets are asked for: without them the shortcut accepts an invalid value; full validation refuses such a batch before this pass (line 252), so none arrives |
| `ArtifactCache.EntrypointStays` | src/vgi_database_worker.cpp:390-452 | in every run the entrypoint is present while any returned lease is held |
| `ArtifactCache.DirectoryFrozen` | src/vgi_database_worker.cpp:390-452 | under a held lease the package is neither replaced nor removed, and the manifest's text is the one it was with its stamp rewritten any number of times; so it goes on matching if the artifact is safe |
| `ArtifactCache.StampsInTurn` | src/vgi_database_worker.cpp:438-441 | no two installs rewrite the manifest's stamp at once |
| `ArtifactCache.StagingStays` | src/vgi_database_worker.cpp:466-490 | a staging directory being filled is changed by nobody but its installer |
| `ArtifactCache.NeverDisappears` | src/vgi_database_worker.cpp:438-446 | absent outside interference, the second entrypoint check of an install never fails |
| `ArtifactCache.AppearsWhole` | src/vgi_database_worker.cpp:405-436 | absent outside interference, the directory of a safe artifact is absent or has its entrypoint and a manifest that matches |
| `ArtifactCache.TakesKeeps` | src/vgi_database_worker.cpp:654-737 | every step of every call, exception and crash keeps the lock, lease and directory invariant |
| `ArtifactInstall.InstallReturnsLease` | src/vgi_database_worker.cpp:369-464 | a run in which an install from an empty cache returns a held lease, for every artifact, source, size and time, with the manifest written and stamped |
| `ArtifactInstall.AlwaysWholeIffSafe` | src/vgi_database_worker.cpp:345-452 | in all runs without outside interference the directory is absent or complete exactly if no value the manifest is compared in has a line break or the key |
| `MetaText.ParseMeta` | src/vgi_database_worker.cpp:180-193 | the parsed map holds, for every name, the value of the last line that has it |
| `Manifest.WrittenMatchesIff` | src/vgi_database_worker.cpp:298-318 | a manifest just written matches its artifact exactly if no compared value has a line break |
| `Stamping.TouchIsOneLine` | src/vgi_database_worker.cpp:345-367 | rewriting the stamp in the text rewrites exactly one line, the first that holds the key anywhere |
| `Stamping.LastStampShows` | src/vgi_database_worker.cpp:345-367 | rewriting the stamp any number of times is rewriting it once, with the last stamp |
| `Manifest.StampKeepsMatch` | src/vgi_database_worker.cpp:345-367 | whatever text the manifest holds, stamping keeps whether it matches an artifact without the key in its values |
| `Manifest.MatchesHoweverStamped` | src/vgi_database_worker.cpp:298-367 | the manifest of a safe artifact matches when written and however often it is stamped |
| `Manifest.AlwaysMatchesIffSafe` | src/vgi_database_worker.cpp:298-367 | whatever is written and however often it is stamped the manifest matches, exactly if no compared value has a line break or the key |
| `Manifest.StampedMatchesIff` | src/vgi_database_worker.cpp:298-367 | a written manifest matches after any number of stamps exactly if no compared value has a line break and the first field that holds the key is not a compared one, or holds the last stamp already |
| `Manifest.StampMovesIff` | src/vgi_database_worker.cpp:345-367 | the last of any number of stamps reaches the last_used field exactly if no value before it holds the key |
| `Manifest.StampSpoilsManifest` | src/vgi_database_worker.cpp:345-367 | entrypoints that begin with the key: the manifest matches when written and not once stamped |
| `Manifest.SpoiltArtifact` | src/vgi_database_worker.cpp:345-367 | one such artifact, with 64-digit id and digest |
| `CachePrune.Prune` | src/vgi_database_worker.cpp:700-739 | every entry meets the fate the policy asks for given what was removed before it, the counters count them, and nothing is removed for the budget alone at or below low water |
| `CachePrune.RemovesOldestFirst` | src/vgi_database_worker.cpp:715-737 | with every removal succeeding the removed entries are the oldest ones |
| `CachePrune.LeavesLowWaterIff` | src/vgi_database_worker.cpp:706-737 | with every removal succeeding, a cache above its maximum ends at or below max - max/5 bytes exactly if its total does not wrap or expiry and flushing alone bring it there |
| `CachePrune.BudgetLeavesLowWaterIff` | src/vgi_database_worker.cpp:706-737 | when only the budget removes: exactly if the total does not wrap |
| `CachePrune.ReachesLowWater` | src/vgi_database_worker.cpp:706-737 | the same with failures: low water is reached or every entry was tried |
| `CachePrune.RemovesJustEnough` | src/vgi_database_worker.cpp:706-737 | with every removal succeeding, the bytes removed are those of the shortest run of oldest entries that holds what expiry, flushing and the budget ask for |
| `CachePrune.BytesAreConserved` | src/vgi_database_worker.cpp:715-737 | if the total does not wrap, the reported bytes are those removed and the drop in the running total |
| `CachePrune.BytesAreConservedIff` | src/vgi_database_worker.cpp:703-737 | with every removal succeeding, they are the drop exactly if that shortest run holds no more than the 64-bit total, or whole words more |
| `CachePrune.WrappedTotalOverReports` | src/vgi_database_worker.cpp:703-737 | a cache whose total wraps to 10 bytes and that reports 2^64 - 1 removed |
| `CachePrune.WrappedTotalRemovesNothing` | src/vgi_database_worker.cpp:703-710 | an input whose 64-bit total wraps, so that nothing is removed |
| `Aggregate.FinalizeIsGroupFold` | src/vgi_aggregate_function_impl.cpp:358-552 | however rows are spread and updates and combines interleave, finalize returns the fold of exactly that group's rows |
| `Aggregate.FoldOfPermutation` | src/vgi_aggregate_function_impl.cpp:358-552 | the fold depends only on which rows the group has |
| `Aggregate.ResultIndependentOfSchedule` | src/vgi_aggregate_function_impl.cpp:358-552 | two runs that feed a group the same rows report the same result |
| `Aggregate.RunInv` | src/vgi_aggregate_function_impl.cpp:372-379 | in every run ids are unique and below the counter, and each accumulator is that of the rows its state owns |
| `Aggregate.AssignedOnce` | src/vgi_aggregate_function_impl.cpp:372-379 | an id stays with its state for as long as that lives, and no other state ever gets it |
| `AggregateStates.AssignGroupIds` | src/vgi_aggregate_function_impl.cpp:370-379 | on state objects, aliasing included, while other threads take ids from the same counter: old ids stay, each newly numbered state takes the id that is then next, ids stay unique |
| `AggregateStates.Touch` | src/vgi_aggregate_function_impl.cpp:372-379 | a first use takes the next id, after those other threads took, and keeps ids unique |
| `AggregateStates.NewIdsAreOwn` | src/vgi_aggregate_function_impl.cpp:372-379 | no id given out here is one that another thread took before, between or after |
| `AggregateDestroy.SentOnlyWhenAllCounted` | src/vgi_aggregate_function_impl.cpp:620-625 | the destructor is sent only when every id handed out so far has been counted destroyed |
| `AggregateDestroy.SentAtMostOnce` | src/vgi_aggregate_function_impl.cpp:574-625 | with no id handed out after a send it is sent at most once |
| `AggregateDestroy.SentOnceIff` | src/vgi_aggregate_function_impl.cpp:574-625 | once all states are destroyed and every destroy call has returned it has been sent, and exactly once if and only if no id was handed out after a send |
| `AggregateDestroy.SentExactlyOnce` | src/vgi_aggregate_function_impl.cpp:574-625 | in particular exactly once when all ids are handed out before destroying begins |
| `AggregateDestroy.HandingOutLateSendsAgain` | src/vgi_aggregate_function_impl.cpp:620-625 | ids handed out later can make it be sent any number of times |
| `CopyTo.RunInv` | src/vgi_copy_to_impl.cpp:111-116 | in every run connections and state ids stay index-aligned, every connection has one owner, every id covers all of its connection's chunks |
| `CopyTo.CoveredOnceIffPooled` | src/vgi_copy_to_impl.cpp:406-455 | a sunk chunk is covered by exactly one state id precisely when its connection is back in the pool |
| `CopyTo.CombineCoversEveryChunkOnce` | src/vgi_copy_to_impl.cpp:457-472 | the terminal combine of a run without failures is given ids that cover every chunk exactly once |
| `CopyTo.OpenWithinPeak` | src/vgi_copy_to_impl.cpp:406-455 | open sink connections never exceed the sinks active at some one earlier time |
| `CancelDispatcher.SuspendQuietsUntilResume` | src/vgi_cancel_dispatcher.cpp:34-51 | after Suspend returned, with no Resume in flight when it stored its flag and none called since, the context is null and no request is processed with one |
| `CancelDispatcher.StaysQuietIffNonePending` | src/vgi_cancel_dispatcher.cpp:34-51 | a quiet dispatcher stays quiet in every continuation without a call of Resume exactly if no earlier Resume can still store its flag |
| `CancelDispatcher.SuspendQuiets` | src/vgi_cancel_dispatcher.cpp:34-45 | after Suspend returned, and until a Resume stores its flag, the context is null and no request is processed with one |
| `CancelDispatcher.ResumeInFlightBreaksSuspend` | src/vgi_cancel_dispatcher.cpp:47-51 | from any state with a Resume past its check and a live request queued, a Suspend that begins and returns later is undone with no new Resume |
| `CancelDispatcher.ResumeBeforeSuspendBreaksIt` | src/vgi_cancel_dispatcher.cpp:47-51 | such a run from the start |
| `CancelDispatcher.AtMostOneWorker` | src/vgi_cancel_dispatcher.cpp:132-142 | at most one worker thread is ever started |
| `CancelDispatcher.PendingCoversQueues` | src/vgi_cancel_dispatcher.cpp:53-104 | pending_count_ is the queue lengths plus the requests in a thread's hands, so never below the queues |
| `CancelDispatcher.DequeuedAtMostOnce` | src/vgi_cancel_dispatcher.cpp:155-177 | each request is dequeued at most once, a refused one never |
| `CancelDispatcher.ExclusiveKept` | src/vgi_cancel_dispatcher.cpp:144-190 | every step keeps the two mutexes exclusive |
| `ScanPlan.InvokeTableFunctionPlan` | src/vgi_catalog_api.cpp:1790-1897 | terminates; a plan is made of exactly the pages visited in breadth-first order, and every other outcome is justified by them |
| `ScanPlan.PlannedIffTreeWithinCaps` | src/vgi_catalog_api.cpp:1790-1897 | when every page answers, planning succeeds precisely if the tree ends within both caps, with the plan of the whole tree |
| `ScanPlan.PlanWholeIffAlwaysAnswers` | src/vgi_catalog_api.cpp:1850-1852 | whatever the worker does, a returned plan covers the whole tree exactly if the worker answers every request |
| `ScanPlan.UnansweredPageTruncates` | src/vgi_catalog_api.cpp:1850-1852 | a worker for which a partial plan is returned |
| `ScanPlan.AddPage` | src/vgi_catalog_api.cpp:1856-1874 | plan facts are those of page one, and consistency says whether all groupings agree |
| `CatalogContents.ParseCatalogContents` | src/vgi_catalog_api.cpp:784-844 | accepts exactly the acceptable snapshots, files each item in arrival order under the schema its path names, and conserves the item count |
| `CatalogContents.SchemaKeysUnique` | src/vgi_catalog_api.cpp:795-811 | accepted schema paths are unique without regard to case and have one component |
| `CatalogContents.ItemsConserved` | src/vgi_catalog_api.cpp:813-840 | summed over schemas and kinds every item is filed exactly once |
| `Constraints.ValidateNullability` | src/vgi_constraint_contract.cpp:157-170 | accepts exactly if every field reachable through ordinary structs, row id excluded, is non-nullable just when its path is required |
| `Constraints.DecodeNativeConstraints` | src/vgi_constraint_contract.cpp:379-478 | succeeds exactly if the records are within their limits, all are acceptable and, checked, nullability agrees with the NOT_NULL and PRIMARY_KEY paths; reports the columns of top-level NOT_NULL records and of every key, in order |
| `Constraints.NotNullFieldsAreMarked` | src/vgi_constraint_contract.cpp:145-156 | after a checked decode the field a NOT_NULL path names exists and is non-nullable |
| `Constraints.ResolvedIsReached` | src/vgi_constraint_contract.cpp:145-156 | a path that resolves is the path of a field the check visits |
| `ConstraintEncoding.EncodeNativeConstraints` | src/vgi_constraint_contract.cpp:505-572 | succeeds exactly if all constraints are encodable, name identifiers and stay within the record limits; one definition per constraint naming its columns, and flags that say which columns they make required |
| `ConstraintEncoding.EncodedFlagsPassIff` | src/vgi_constraint_contract.cpp:561-571 | the flags pass the nullability check exactly if nested fields are nullable and columns of one name are required together |
| `ConstraintEncoding.UniqueNamesPass` | src/vgi_constraint_contract.cpp:561-571 | with unique names nullable nested fields are all it takes |
| `ConstraintEncoding.NamesakesFail` | src/vgi_constraint_contract.cpp:512-520 | two columns of one name, one NOT NULL: the flags fail |
| `CacheIdentity.CanonicalInjective` | src/vgi_cache_identity.cpp:25-48 | no two different maps of maps of typed values have the same canonical text |
| `CacheIdentity.BuildCanonical` | src/vgi_cache_identity.cpp:33-48 | the nested loops build that text, in key order, never empty |
| `CacheIdentity.ItemReads` | src/vgi_cache_identity.cpp:34-38 | a length-prefixed component is read back from the front of any text |
| `CacheIdentity.FingerprintIdentifies` | src/vgi_cache_identity.cpp:10-23 | fingerprints agree exactly if the digests do, and digests are of materials that differ whenever the secrets do |
| `BindProtocol.PerformBindProtocol` | src/vgi_bind_protocol.cpp:114-204 | at most two requests; the result carries the last one and the scope of exactly its secrets; every failure is accounted for |
| `BindProtocol.SameScopeSameSecrets` | src/vgi_bind_protocol.cpp:16-19 | results with one scope were bound with the same secrets unless the hash collides on them |
| `BindProtocol.DependentScopeIsNonempty` | src/vgi_bind_protocol.cpp:16-19 | a result that depends on secrets is never scoped like one that does not |
| `ContainerCommand.BuildContainerRunCommandTemplate` | src/vgi_container_runtime.cpp:340-358 | for all strings without NUL the shell reads the command as exactly the intended argument list |
| `ContainerCommand.QuotedReads` | src/vgi_container_runtime.cpp:76-87 | quoted text reads back as itself, whatever follows |
| `ContainerCommand.ShellQuote` | src/vgi_container_runtime.cpp:76-87 | the loop wraps the text in single quotes and escapes each one inside |
| `DirSalt.SaltsAgree` | src/vgi_attach_credentials.cpp:93-127 | with hard links, or a salt file to begin with, in every run with crashes all successful calls return one and the same salt |
| `DirSalt.AlwaysAgreesIffSettled` | src/vgi_attach_credentials.cpp:93-127 | from a given start the calls of every run agree exactly if there are hard links or a salt file |
| `DirSalt.SaltStays` | src/vgi_attach_credentials.cpp:97-127 | and the salt in place never changes afterwards |
| `DirSalt.NeverReplacedIffSettled` | src/vgi_attach_credentials.cpp:97-127 | a salt in place is never replaced in any run from a given start exactly if there are hard links or a salt file |
| `DirSalt.WithoutHardLinksSaltsDiffer` | src/vgi_attach_credentials.cpp:117-123 | from every start with neither, two calls can succeed with any two salts, the second replacing the first |
| `DirSalt.ReadSalt` | src/vgi_attach_credentials.cpp:75-91 | reads what the file holds after trailing line ends and blanks, if it is a salt |
| `DirSalt.ParseWritten` | src/vgi_attach_credentials.cpp:75-91 | a salt written with its line end is read back |

## Left out

- Builders are values handed from step to step, not heap objects: updating arrays in place and aliasing between builders are not captured. `DictOffsets` is keyed by the position of a node in its column rather than by its address.
- Null counts, schema metadata on batches, buffer ownership and reference counting of slices.
- nanoarrow itself: appending, finishing an element and reading a schema are specified primitives. Unions, run-end encoding and list views are `Other` nodes.
- Conversion.AppendConverted: every slot that is read must exist; the code does not check that when it reads a list as a struct. Floating-point slots are opaque. The overflowing product of a time, undefined in C++, is taken as two's complement gives it.
- Reconcile.ReconcileBatchToSchema: every slot that is read must exist, as for `Conversion.AppendConverted`; `Reconcile.SameShapesAreReady` says when it does. A null batch or a null target schema, which return the batch as it is, are not modelled.
- ArtifactCache.TakesKeeps: one artifact id at a time; the registry mutex is left out, which only adds interleavings; archive extraction is whether a staging directory was filled; a crash closes the lock files of a process in one step.
- CachePrune.Prune: takes the listing already sorted oldest first; directory sizes and lock attempts are given.
- Aggregate.FinalizeIsGroupFold: window aggregates and streaming aggregates are not modelled; a request's rows reach the worker one at a time.
- CopyTo.CombineCoversEveryChunkOnce: the remote worker is assumed to accumulate per connection; the pool that connections come from is not modelled.
- CancelDispatcher.SuspendQuiets: sequentially consistent steps; condition-variable waits and timeouts are not modelled.
- ScanPlan.InvokeTableFunctionPlan: the worker's answer depends on the request's number and cursor only; parsing of a page is given, with empty cursors already dropped.
- Constraints.DecodeNativeConstraints: decoding of records, CHECK expressions and foreign-key payloads is given as accepted or not, and foreign keys are not reported. `BuildNativeNotNullChange`, which turns an ALTER COLUMN SET or DROP NOT NULL into one change record, and the negotiation of profiles are outside this model: they neither read nor set nullability flags.
- ConstraintEncoding.EncodeNativeConstraints: how many bytes a definition takes is given; a foreign key's target is accepted or not.
- Manifest.StampedMatchesIff: text is a sequence of characters, not of bytes; sizes and times are written with digits and a minus sign.
- CatalogContents.ParseCatalogContents: the response header, the not-modified answer and the opening of nested streams are left out.
- CacheIdentity.FingerprintIdentifies: SHA-256 is an arbitrary function.
- ContainerCommand.BuildContainerRunCommandTemplate: the substitution of the name placeholder at spawn time is not modelled; aliases and reserved words do not apply because the first word is quoted.
- DirSalt.SaltsAgree: temporary names are taken to be fresh (they carry 64 random bits), nobody else removes the salt file, and the per-process memo in front of it is left out.
- RPC transport, HTTP, subprocesses, sockets, Arrow IPC encoding, OAuth, logging, telemetry and the SQL diagnostic functions.
- Deadlock freedom, timeouts and wake-up latency.
