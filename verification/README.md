# A verified model of pg_table_range

pg_table_range keeps, for every leaf partition, one small summary per indexed column (bounds or a
covering extent, and two null flags) on the metapage of a `table_range` index. Inserts widen the
summary in place, and the planner drops a partition from a plan when its summary proves that no
row can satisfy the query. `README.md:13-14` of the extension promises that results are always
identical to running without it. This project models the chain that promise rests on and proves
it, byte by byte and step by step, down to the conditions under which it holds.

Verify the project with `dafny verify dfyconfig.toml`.

## How the model is laid out

| module | what it models |
|---|---|
| `Base` | options, bytes, UTF-8 text (section 4 of RFC 3629), opaque values |
| `Utf8` | what text is: the encodings of Unicode scalar values |
| `Sessions` | the session settings that change a value's text, and the three that are pinned |
| `Format` | the summary's byte format: `serialize`, the `Reader`, `deserialize` |
| `MetaPage` | the 8 KB page as a byte array: read, write, compare-and-write |
| `Fitting` | `encode_fitting`, the loop that gives up the longest bounds |
| `Extents` | ranges with infinite and exclusive ends, bounding boxes, their joins and overlaps |
| `Coverage` | what a type's functions must obey, what a summary admits, when one is wider than another |
| `Widening` | `widen_summary` and the functions below it |
| `FirstEntries` | what a whole row makes of the entry the planner reads of each column |
| `Agreement` | exactly when an index that lists a column twice is safe to widen |
| `Build` | the build scan: accumulators, geometry batches, `finish` |
| `Rebuild` | inserting value by value against building in one scan, one column at a time |
| `SnugColumns` | a column kept up while nothing is lost, across sessions |
| `Protocol` | many backends, in sessions of their own, reading and swapping one page: a state machine |
| `Retries` | how often the compare-and-swap loop can fail |
| `InsertLoop` | `am_build`, and `widen_on_insert` as the loop it is, against interfering writes |
| `Serial` | every interleaving of inserts and rebuilds stores what the last build and some order of the inserts since store |
| `Upkeep` | the summary a page stores after inserts, bounds given up on the way included, against the one a rebuild would store |
| `RebuiltPage` | the same when everything prints and fits: equal, or of equal meaning across sessions |
| `Prune` | clause extraction, the prune decision, and three-valued logic (section 8.12 of ISO/IEC 9075:1992) |
| `Exactness` | what a clause says, told from the clause and the catalogs alone, and where the decision is not only safe but exact |
| `Cache` | the backend's cache, transactions and invalidations, as a state machine over `Protocol` |
| `Announcements` | which broadcasts make a backend's cache safe for a row, over every run of that machine |
| `StableIo` | `with_stable_io`, and that sessions with other settings agree |
| `Planner` | nesting depth and the per-plan memos |
| `EndToEnd` | a pruned relation had no row to give |
| `StaleCache` | how a cached summary can miss a committed row for good |
| `World`, `Witness`, `SpaceWitness` | a small world that meets every law, and the inputs that break what needs a condition |

Code that changes state is a class or a method with its loop, proved equal to a function of the
old state; what the source promises is proved about those functions.

A value is an opaque token. `Coverage.TypeOps` holds what the catalogs say of a column's type, the
functions the code calls on its values (output, input, compare, `range_merge`, `ST_Extent`), the
meaning of a value (a rank per collation and an extent), and which texts sessions store for it. Equal
rank does not mean equal value, and a value need not print.

## What the proofs ask for

The code does not check these, and the theorems name them as hypotheses:

* A column that is indexed again is sorted, later, no coarser than at first (`Coverage.Agreeing`):
  the widening loop finds an entry by its column number but compares under the collation of the
  current key (src/index_am.rs:154-166). `Agreement.KeepsRowsIff` proves the condition exact, and it
  holds of indexes over distinct columns and of columns indexed twice under one collation. A
  heap column has one type however often it is indexed (`Coverage.OneType`).
* A type's compare function orders by rank, printed text reads back as the same value,
  `range_merge` and `ST_Extent` are joins, and a type's schema-qualified name ends in `.geometry`
  exactly when the build treats it as a geometry (`Coverage.Lawful`, `Build.NamesLaw`).
* In the comparisons with a rebuild, ranges that cover the same print alike (`Build.PrintsByExtent`).
* A session inside `with_stable_io` prints what other sessions print, and reads the texts they stored
  as they do (`Coverage.Alike`). Nothing is asked of texts that are never stored: a date written in
  another style may read differently under every date field order.
* The operators a query applies to indexed columns mean what their catalog entries say, in the order
  the summary was built in and also below a relabelling of the column (`Prune.OperatorLaw`), and an
  `&&` of a trusted schema tells whether two values overlap (`Prune.OverlapLaw`). Stored texts read
  under the operator's input type are the same values. `IS NULL` is applied to columns that are not
  of a row type.
* Where exactness is claimed, an operator is TRUE of two values if and only if its function says so
  (`Exactness.OperatorIsFunction`), and what a type's input function reads is a value of the type.
* A backend processes no invalidation between a cache miss's page read and the put that follows it
  (`Cache.Possible`).

`World.TypesLawful` shows that the laws for types and sessions can all hold at once, for scalar, range
and geometry types and with sessions that do read some texts differently (`World.SessionsDiffer`).
`Witness.CompareIsTame` does so for the comparison operators and `Witness.OverlapIsPruned` for an
overlap, and `Witness.SomethingIsPruned` meets every premise of the end-to-end theorem at once.

## Where the code and its comments disagree

* The comment at src/summary_cache.rs:5-8 says a cached summary is safe because every widening is
  announced. An insert that finds nothing to widen announces nothing (src/index_am.rs:132-134); it
  leans on the widening of another transaction, which may roll back and then is never announced.
  `StaleCache.AfterStaleRun` gives the run for every lawful index and `Witness.StaleCacheMissesRow`
  an instance in which a committed row is missing from a backend's next lookup with no
  invalidation left to come. `Announcements.SafeIffAnnounced` is the exact
  condition, over all runs: a backend that has processed everything broadcast to it is sure to cover a
  row if and only if something was broadcast after the first version of the page that admits the row was
  made: for the swap that made it, for a later one, or for an earlier one whose transaction committed
  only then.
* `encode_fitting` drops the longest bounds first. That is the fewest columns, at every page limit at
  which it succeeds, if and only if what a column frees never increases along the loop's order
  (`Fitting.FewestIff`), as when every column has both bounds or neither. A string column beside a
  column of string ranges breaks it (`SpaceWitness.GreedyNotFewest`).
* REINDEX is said to re-tighten a summary (README.md:159-161). For columns given up for space it can
  do the opposite: `SpaceWitness.RebuildAdmitsMore` has a page that rules out rows the rebuilt page
  admits. `Upkeep.StoredIsWiderIff` says exactly when: the page admits all that the rebuilt page
  does, if and only if it rules no value out of any column the rebuild gives up.

## Model

| member | source | states |
|---|---|---|
| Format.RoundTrip | src/index_storage.rs:155-262 | `deserialize(serialize(s))` with any bytes after it is `s` if and only if no string length and not the column count wraps at 16 bits |
| Format.FittingRoundTrip | src/index_storage.rs:208-262 | a summary whose bytes fit the page reads back as itself: nothing can have wrapped |
| Format.EncodeInjective | src/index_storage.rs:90-96 | two summaries with the same fitting bytes are equal, so the swap's byte comparison compares summaries |
| Format.EncodedSize | src/index_storage.rs:208-232 | the encoded length is the sum of the columns' sizes, as the greedy loop's arithmetic needs |
| Format.Layout | src/index_storage.rs:208-232 | the bytes of the version, the count and the first column's number, flags, collation and type name are where the format puts them |
| Utf8.TextIsEncoded | src/index_storage.rs:194-199 | a byte string is text if and only if it is the encoding of Unicode scalar values, of one to four bytes each |
| Format.Serialize | src/index_storage.rs:208-232 | the push loop produces exactly the encoding that round-trips |
| Format.PushCol | src/index_storage.rs:212-230 | pushing one column's fields appends that column's encoding and nothing else |
| Format.Reader.U16 | src/index_storage.rs:181-185 | reads a little-endian u16 and moves past it, or fails at the end of the buffer |
| Format.Reader.U32 | src/index_storage.rs:186-190 | reads a little-endian u32 and moves past it, or fails at the end of the buffer |
| Format.Reader.Str | src/index_storage.rs:194-199 | reads a length and that many bytes, failing on a short buffer or on bytes that are not UTF-8 |
| Format.Reader.OptStr | src/index_storage.rs:200-205 | a zero tag is no string, any other tag is followed by one |
| Format.Reader.Col | src/index_storage.rs:242-260 | reads one column's fields in order, failing if any of them fails |
| Format.Reader.Cols | src/index_storage.rs:240-261 | reads `n` columns, failing as soon as one fails |
| Format.ReadsBytes | src/index_storage.rs:234-262 | whatever is read has version 2 and as many columns as the count says; any nonzero byte is true, and of the flags only their own bits count |
| Format.Deserialize | src/index_storage.rs:234-262 | accepts only version 2, and agrees with the parser the round trip is about |
| MetaPage.ReadsBack | src/index_storage.rs:17-31 | a length prefix and the bytes after it read back as exactly those bytes, whatever else the page holds |
| MetaPage.Layout | src/index_storage.rs:12-31 | on a page in use the length is at bytes 24 to 27, the blob of at most 8128 bytes after it |
| MetaPage.Page.ReadBlob | src/index_storage.rs:100-110 | gives the current blob, or nothing for an index without blocks |
| MetaPage.Page.CurrentBlob | src/index_storage.rs:17-31 | a new page, a zero length and a length over the limit hold no blob |
| MetaPage.Page.PutBlob | src/index_storage.rs:35-55 | the blob reads back after the hole is zeroed, no earlier bytes leak into it, and a page in use changes only in pd_lower, the length and the blob's own bytes |
| MetaPage.Page.WriteBlob | src/index_storage.rs:58-73 | a blob that fits replaces whatever was there, a longer one is refused and changes nothing |
| MetaPage.Page.ReplaceBlobIf | src/index_storage.rs:76-97 | writes if and only if the page still holds the expected bytes; otherwise not a byte of the page changes |
| Fitting.MaxByBoundLen | src/index_storage.rs:271-280 | finds the last of the columns with the longest nonempty bounds |
| Fitting.EncodeFitting | src/index_storage.rs:265-285 | terminates, and leaves the summary as the bytes it returns |
| Fitting.FittedIsDropped | src/index_storage.rs:264-285 | the loop only makes columns unbounded, only ones that had bounds, and never a shorter one while a longer one stays |
| Fitting.FittedFitsIff | src/index_storage.rs:281-284 | the result fits if and only if giving up every nonempty bound would fit; only then does the size error follow |
| Fitting.BothBoundsSaveFirst | src/index_storage.rs:271-273 | when every column has both bounds or neither, what a column frees never increases along the loop's order |
| Fitting.NonemptySaveFirst | src/index_storage.rs:271-280 | without bounds that are empty strings, only the columns the loop may drop count in that condition |
| Fitting.FewestDropped | src/index_storage.rs:264-285 | under that condition no choice of fewer columns fits, at any limit |
| Fitting.FewestIff | src/index_storage.rs:264-285 | the loop's choice is a smallest one at every limit at which it succeeds, if and only if what a column frees never increases along its order (past the last column it may drop, it does not matter) |
| Extents.JoinAllConcat | src/summary_build.rs:200-218 | joining in pieces gives the join of the whole |
| Extents.OverlapMonotone | src/prune_hook.rs:691-693 | whatever a value overlaps, an extent it lies within overlaps too |
| Widening.GrownExtentIsJoin | src/index_am.rs:260-316 | the new extent text stands for the join of the stored extent and the value; no text means both are empty |
| Widening.WidenColCovers | src/index_am.rs:184-222 | the widened column admits the value and everything it admitted, reports a change if and only if there is one, and still describes its column |
| Widening.GivesUpIff | src/index_am.rs:184-316 | a value makes the column unbounded if and only if it does not print or a stored bound does not read; of a range, if the merged range does not print |
| Widening.WidenColAgain | src/index_am.rs:154-166 | folding an admitted value in again, under a collation that refines the entry's, loses nothing |
| Widening.WidenColKeepsPairs | src/index_am.rs:225-258 | min and max stay both present or both absent |
| Widening.WidenRowCovers | src/index_am.rs:145-169 | after the column loop the entries the planner reads admit the row and every row admitted before, and no reported change means no change; a column may be indexed several times under collations that refine its first |
| Widening.WidensByColumn | src/index_am.rs:154-167 | with no column indexed twice, each entry is widened by its own key's value and nothing else |
| Agreement.KeepsRowsIff | src/index_am.rs:154-166 | widening by any tuple admits its row and loses none, for all described summaries, if and only if each column's later collations refine its first |
| Agreement.SameCollationAgrees | src/index_am.rs:154-166 | an index whose columns each have one collation, however often they are listed, meets that condition |
| Widening.FittedWidens | src/index_storage.rs:134-140 | giving up bounds only widens, column by column |
| Widening.TryWidenMinMax | src/index_am.rs:225-258 | the in-place update of min and max, or no update and no answer |
| Widening.TryWidenOverlap | src/index_am.rs:261-295 | the in-place update of the extent, or no update and no answer |
| Widening.WidenColumn | src/index_am.rs:186-222 | changes only its column, as the widening the coverage lemmas are about |
| Widening.WidenSummary | src/index_am.rs:145-169 | the loop over key columns equals the row widening the coverage lemmas are about |
| Build.NullFlagsExact | src/summary_build.rs:315-325 | has_nulls if and only if a NULL was scanned, all_nulls if and only if something was and all of it NULL |
| Build.BoundsAreTight | src/summary_build.rs:182-199 | min and max are values that were scanned and bracket every scanned value |
| Build.MergedIsHull | src/summary_build.rs:200-218 | the merged range's extent is the join of all scanned ranges |
| Build.ExtentIsTight | src/summary_build.rs:200-289 | the stored extent is the least one all scanned values lie within |
| Build.ScalarIsBracketed | src/summary_build.rs:118-139 | a type that is no cstring, no range and no geometry and has a compare function stores scanned values that bracket all the others, if they print |
| Build.ExtentIsStored | src/summary_build.rs:118-132 | a range, or a type named geometry, stores the extent of its values |
| Build.StartsUnbounded | src/summary_build.rs:118-154 | only the remaining types start unbounded; an entry has its column's number, collation and type name |
| Build.ScalarLost | src/summary_build.rs:326-334 | a scalar column is unbounded only if a lowest or highest scanned value does not print, and is if none of the lowest prints or none of the highest |
| Build.RangeLost | src/summary_build.rs:326-334 | a range column is unbounded if no range covering just its values prints, and only if some does not; exactly then where such ranges print alike |
| Build.BuiltCovers | src/summary_build.rs:292-338 | every scanned value is admitted by the built column |
| Build.BuildCovers | src/summary_build.rs:57-93 | every scanned row is admitted by the built summary, which describes the index's columns |
| Build.FlushedExtent | src/summary_build.rs:241-288 | the extent of a batch with the earlier extent put in it is the extent of everything so far, and a NULL never loses it |
| Build.ColumnBuild.AddValue | src/summary_build.rs:168-176 | counts NULLs and keeps the accumulator equal to the fold of all values seen |
| Build.ColumnBuild.Add | src/summary_build.rs:181-227 | extends the accumulated fold by one value, for each of the four accumulators and any batch limit |
| Build.ColumnBuild.FlushGeometry | src/summary_build.rs:230-289 | leaves an empty batch and the one-pass extent of every value so far, wherever the batches ended |
| Build.ColumnBuild.Finish | src/summary_build.rs:295-335 | the finished column is the one the tightness and coverage lemmas are about |
| Build.BuildCallback | src/summary_build.rs:157-177 | adds each tuple's value to its own column and to no other |
| Build.PlanColumns | src/summary_build.rs:95-154 | one accumulator per plain column, of the kind its type's length, type class, name and compare function call for; none for expression columns |
| Build.FinishColumns | src/summary_build.rs:292-338 | finishes every column once, in order |
| Build.BuildLeafSummary | src/summary_build.rs:57-93 | the scan's summary depends on the tuples alone, not on where batches end |
| Rebuild.InsertMatchesRebuild | src/index_am.rs:184-295 | one insert into a built column gives the column a rebuild with that value gives |
| Rebuild.IncrementalIsRebuild | src/index_am.rs:184-295 | in one column, building over xs and inserting ys gives what building over both gives; all_nulls is set only if the build over both sets it and the first build saw a row |
| Rebuild.BuiltIsTightest | src/summary_build.rs:292-338 | a built column admits no more than any summary that covers its values (but for empty ranges and geometries in a column built over no rows) |
| Rebuild.InsertKeepsUp | src/index_am.rs:184-295 | an insert keeps the column admitting all its values, unbounded wherever a build is, and storing the values' extent, whatever prints or does not |
| Rebuild.AgainKeepsUp | src/index_am.rs:154-166 | and so does folding a value in again for a further key on the column, under a collation that refines the first |
| Rebuild.DropKeepsUp | src/index_storage.rs:134-140 | so does giving the column's bounds up |
| Rebuild.KeepsUpIsWider | src/summary_build.rs:292-338 | a column so kept up admits everything the built one does |
| Protocol.InsertCovers | src/index_am.rs:127-131 | an insert in a session of any settings widens for every reader |
| Protocol.SwapWidens | src/index_am.rs:135-139 | a successful swap leaves a readable page that admits the inserted row and every row admitted by the bytes it replaced |
| Protocol.NoChangeAdmits | src/index_am.rs:121-134 | an insert that returns without a write is admitted by the page it read |
| Protocol.RebuildAdmits | src/index_am.rs:74-75 | the page a build writes admits every row of the table |
| Protocol.StepSafe | src/index_am.rs:110-143 | every read, swap, abort and rebuild keeps the invariant, and none but a rebuild makes the page admit less |
| Protocol.RunSafe | src/index_am.rs:110-143 | over every interleaving of any number of backends in any sessions, the page admits every built row and every row whose insert has returned, and its bounds are texts that were stored |
| Protocol.NoLostWidening | src/index_am.rs:110-111 | a row admitted once stays admitted along every run without a rebuild, also past other backends' swaps and dropped bounds |
| Retries.StepCost | src/index_am.rs:118-142 | a swap uses up the measure k(k+1)/2 plus the backends with stale bytes; every other step keeps it |
| Retries.AttemptBound | src/index_am.rs:118-142 | N inserts make at most N(N+1)/2 swap attempts over any schedule, rebuilds and failures included |
| Retries.ScheduleBound | src/index_am.rs:118-142 | N inserts are over after at most N(N+3) steps, so the loops terminate |
| InsertLoop.WidenOnInsert | src/index_am.rs:111-143 | run against any writes by others between its reads and swaps, the loop ends after at most one attempt more than there are writes, and replaces the latest blob by the widening of that very blob |
| InsertLoop.LoopIsMachine | src/index_am.rs:118-142 | the loop's last round is one read and one swap of the state machine: same page, same returned rows, same attempts |
| InsertLoop.DoneAdmits | src/index_am.rs:111-143 | unless it raised the size error, the row is admitted afterwards, with every row admitted before |
| InsertLoop.AmBuild | src/index_am.rs:58-85 | scanning, fitting and writing leaves the page the machine's rebuild leaves, or fails and leaves it as it was, exactly when the fitted summary is too long |
| Serial.RebuildStores | src/index_am.rs:74-75 | a rebuild is possible whenever nobody is inserting, and leaves its scan's fitted summary readable on the page, or everything as it was if that does not fit |
| Serial.RunIsSerial | src/index_am.rs:110-143 | over every interleaving of inserts, failures and rebuilds, the page holds exactly what the inserts completed since the last build that fitted make of that build, one at a time in the order in which they returned; the rows that have returned are those of all completed inserts |
| Serial.LeavesOnlyDone | src/index_am.rs:118-142 | an insert leaves the loop only when it is completed, when what it would store is too long, or by an error; a swap that finds other bytes goes back to reading |
| Serial.AbortUndoes | src/index_am.rs:93-99 | an insert that ends in an error, before or after its read, leaves nothing behind |
| Serial.UndisturbedStores | src/index_am.rs:111-143 | and every sequence of inserts that fit is completed, in its order, by some run |
| FirstEntries.RowInduces | src/index_am.rs:154-166 | what a column's own key makes true of the entry the planner reads, and its further keys keep true, is true after the whole row |
| Upkeep.KeptAllKeepUp | src/index_storage.rs:264-285 | inserts in any sessions, giving up whatever does not fit on the way, keep every column the planner reads up with a build over everything, columns indexed several times included |
| Upkeep.StoredIsWider | src/index_am.rs:135-139 | where the rebuild has room for everything, the stored summary admits all it does, whatever was given up on the way |
| Upkeep.StoredIsWiderIff | src/index_storage.rs:264-285 | where it has not, that holds if and only if the stored summary rules no value out of any column the rebuild gives up; where no bounds of those columns take in every value, that is: they are unbounded already |
| Upkeep.PageIsWiderIff | src/index_am.rs:111-143 | the same of the page after any run of inserts and rebuilds in any sessions, and the page of a rebuild in any session over what was last built and inserted since |
| RebuiltPage.RowsAreRebuilt | src/index_am.rs:145-169 | building over xs and folding ys in row by row gives, entry by entry, the summary of a build over both |
| RebuiltPage.PageIsRebuilt | src/index_am.rs:111-143 | after any run whose inserts since the last build are in its session and all fit, the page holds what a rebuild would store, but for the all-NULL flags |
| SnugColumns.InsertStaysSnug | src/index_am.rs:184-295 | while values print, an insert in any session keeps the bounds at the lowest and highest rank, the extent the values' own and the null flags exact |
| SnugColumns.SnugAdmits | src/summary_build.rs:292-338 | so the column admits exactly what a built one does |
| RebuiltPage.PageMeansRebuilt | src/index_am.rs:111-143 | after any run of inserts and rebuilds in any sessions in which everything since the last build prints and fits, the page admits to a reader in any session exactly what a rebuild in that session would, but for the all-NULL flags |
| Prune.VarAndConst | src/prune_hook.rs:526-546 | finds a plain column and a constant that is not NULL below any relabelling, in either order, if and only if the two operands are such |
| Prune.StripIsTransparent | src/prune_hook.rs:830-835 | stripping relabelling does not change what an operand evaluates to |
| Prune.FoundMeans | src/prune_hook.rs:134-171 | a comparison found with the column on either side means its strategy, commuted when the column is on the right, and reads the bounds as the values they are |
| Prune.CompareSound | src/prune_hook.rs:652-672 | a comparison that proves the prune is TRUE of no admitted value or NULL, in either operand order |
| Prune.InIsOrOfEqualities | src/prune_hook.rs:674-689 | an IN list proves the prune if and only if each of its equalities does and there are bounds; an empty list does |
| Prune.InListSound | src/prune_hook.rs:602-633 | an IN list that proves the prune is TRUE of no admitted value, with its NULL elements dropped or not |
| Prune.OverlapSound | src/prune_hook.rs:691-712 | a false `&&` on the extent means `&&` is TRUE of no admitted value, in either operand order |
| Prune.LeafSound | src/prune_hook.rs:465-512 | the same of every leaf the decision reads, mismatched collations and kinds of summary included |
| Prune.PruneSound | src/prune_hook.rs:383-415 | a clause of any shape that proves the prune is TRUE of no admitted row in three-valued logic |
| Prune.RelationSound | src/prune_hook.rs:347-381 | a relation that is pruned has no admitted row satisfying all its clauses |
| Exactness.ExtractIff | src/prune_hook.rs:515-633 | the decision has something to say of just the leaves `column op constant` either way round, `column = ANY (array)` and `column IS [NOT] NULL`, below any relabelling, whose operator is a btree comparison or a trusted overlap |
| Exactness.StaysSilent | src/prune_hook.rs:388-415 | nothing is proved of other leaves, of NOT, or below 32 levels |
| Exactness.CompareWitness | src/prune_hook.rs:664-671 | a comparison that does not prove the prune is TRUE of some admitted value |
| Exactness.InListWitness | src/prune_hook.rs:684-688 | an IN list that does not prove the prune is TRUE of some admitted value |
| Exactness.TreeWitness | src/prune_hook.rs:396-404 | a decidable tree that does not prove the prune is TRUE of some admitted row, which differs from a given one only in columns the tree reads |
| Exactness.PruneExact | src/prune_hook.rs:383-415 | a tree of ANDs and ORs over comparisons, IN lists, overlaps and null tests, in which no AND has two parts about one column, is pruned if and only if no admitted row matches |
| Exactness.RelationExact | src/prune_hook.rs:347-381 | a relation whose clauses are such trees over different columns is pruned if and only if no admitted row satisfies them all |
| Exactness.RefutablePrunes | src/prune_hook.rs:393-404 | a clause is pruned as soon as one part of an AND, or every part of an OR, is such a tree that no admitted row matches, whatever the other parts of the AND are |
| Exactness.RelationPruned | src/prune_hook.rs:368-380 | a relation is pruned as soon as one clause is refuted so, whatever the other clauses are, about the same columns or not |
| Cache.SummaryCache.Put | src/summary_cache.rs:28-33 | the index's next lookup gives the summary without the page; other indexes' lookups are as before |
| Cache.SummaryCache.RelcacheCallback | src/summary_cache.rs:45-54 | the next lookup of the index, or of every index for the invalid relid, reads the page; others are as before |
| Cache.SummaryCache.Lookup | src/prune_hook.rs:323-341 | gives what was stored, or else what the page holds, and gives the same from then on |
| Cache.BackendLookup | src/prune_hook.rs:323-341 | a lookup in the map is a hit of the state machine's cache, or its page read followed by its put |
| Cache.BackendInvalidated | src/summary_cache.rs:45-54 | the callback is the state machine's delivery of a broadcast, its processing of the transaction's own invalidation, its flush, or nothing |
| Cache.EventKeepsInv | src/summary_cache.rs:37-54 | every insert step, lookup, commit, rollback and invalidation keeps the invariant of pages, caches and returned inserts |
| Cache.CacheCoherent | src/summary_cache.rs:20-54 | a cached summary is one the page really held, no older than the page was at the last invalidation processed or when any processed broadcast was sent, and is the page's own unless a later swap made another |
| Cache.LookupCovers | src/summary_cache.rs:37-54 | once any invalidation is processed, the next lookup covers every row whose insert had returned by then |
| Cache.HeardCovers | src/summary_cache.rs:37-54 | and every row whose insert had returned when a processed broadcast was sent |
| Announcements.FirstVersion | src/summary_cache.rs:37-40 | a row whose insert has returned was admitted from the start or has a first version that admits it, no later than the one its insert saw |
| Announcements.SafeIffAnnounced | src/summary_cache.rs:5-8 | whatever its lookups and however invalidations reach it, a backend that has caught up is sure to cover a row if and only if something was broadcast after the row's first version was made; if nothing was, there is a run with the same inserts, commits and rollbacks in which it misses the row |
| Announcements.CommittedWideningIsSeen | src/index_am.rs:135-139 | an insert that widened the page itself and is committed is covered by every backend that has caught up, and every backend can catch up with it |
| Announcements.OlderEntryUnannounced | src/index_am.rs:132-139 | a caught-up backend that still holds an older entry does not cover the row, and nothing was broadcast since its first version |
| StableIo.Session.WithStableIo | src/stable_io.rs:8-36 | the body runs under pinned settings or not at all, and the session's settings are as found however it ends |
| StableIo.SessionIndependent | src/stable_io.rs:3-7 | bounds stored by any sessions and read by any other decide every clause tree as the values they were stored for would |
| StableIo.ReaderIndependent | src/prune_hook.rs:347-349 | sessions with any two settings decide every clause tree the same, given that the types the clause reads a column's bounds as read its stored texts alike |
| StableIo.SameDecision | src/prune_hook.rs:639-650 | readings of the bounds that agree wherever the clause reads one give the same decision |
| Planner.PlannerState.CompareOpCached | src/prune_hook.rs:122-132 | the memo answers as the catalog would |
| Planner.PlannerState.LoadRelation | src/prune_hook.rs:293-301 | the first summary of a relation is the only one a plan sees |
| Planner.PlannerState.PlannerHook | src/prune_hook.rs:185-217 | however plans nest and fail, the depth is restored, inner plans keep the outer plan's summaries, and nothing outlives the outermost plan |
| EndToEnd.PageNeverMisprunes | README.md:12-14 | from a built index and after any interleaving, a relation pruned by the page has no built or inserted row that satisfies the query |
| EndToEnd.CacheNeverMisprunes | src/summary_cache.rs:5-8 | the same of a prune decided from a cache, for rows whose insert had returned when the backend last processed an invalidation or read what it holds |
| EndToEnd.ReadersAgreeOnPage | src/stable_io.rs:3-7 | on every reachable page, whichever sessions stored its bounds, sessions with any two settings decide alike |
| World.TypesLawful | src/summary_build.rs:118-139 | the laws asked of types and sessions can hold together, for scalar, range and geometry types |
| World.SessionsDiffer | src/stable_io.rs:9-10 | in that world sessions with different date field orders do read some texts differently |
| Witness.CompareIsTame | src/prune_hook.rs:134-162 | the laws asked of operators hold of the five comparisons of numbers, under two opposite collations |
| Witness.SomethingIsPruned | src/prune_hook.rs:351-381 | a fresh index and a query that meet every premise of `EndToEnd.PageNeverMisprunes`, and the relation is pruned |
| Witness.PortableAcrossDateOrders | src/stable_io.rs:9-10 | readers that differ on texts that are never stored meet what is asked of readers |
| Witness.DuplicateAttnumNarrows | src/index_am.rs:154-166 | a column indexed under two opposite collations: after a build over two rows an insert narrows the first entry and a covered row is lost |
| Witness.OverlapIsPruned | src/prune_hook.rs:691-712 | a built range column and an `&&` that meets the laws asked of overlaps: one query is pruned, another is not |
| SpaceWitness.GreedyNotFewest | src/index_storage.rs:271-282 | a string column and a column of string ranges, as built from two rows: the loop drops both columns where the first alone would do |
| SpaceWitness.RebuildAdmitsMore | src/index_storage.rs:271-282 | two string columns and two inserts: the page gives the first column up, a rebuild the second, and the rebuilt page admits rows the page rules out |
| Witness.AndNotExact | src/prune_hook.rs:396-398 | `x < 1 AND x > 8`, of two decidable parts about one column, matches nothing and is kept |
| StaleCache.AfterStaleRun | src/index_am.rs:132-139 | for every lawful index: an insert covered by a widening that rolls back leaves another backend's old cache entry with no invalidation to come |
| Witness.StaleCacheMissesRow | src/summary_cache.rs:5-8 | an instance from a fresh build in which the committed row is not covered by the next lookup |

## Left out

- Handler and hook registration, the on/off setting, cost estimate, vacuum stubs, operator class mirroring, the event trigger: foreign calls with no algorithm.
- The rejection of partial indexes, parallel-mode errors and interrupts: an insert may abort at any step of `Protocol`, and a build that fails leaves the old page.
- WAL, the buffer manager and locks: a share-locked read and an exclusive-locked compare-and-write are single steps; of Generic WAL only the zeroed hole is modelled.
- Byte order: the length prefix is written in native order by the code and little-endian in the model.
- The catalogs: their answers are parameters (`Prune.Catalog`, `Coverage.Types`), with the hypotheses listed above.
- Memory contexts, datum copies, the memos of function and input-function pointers and of the access method's OID: not part of the logical model.
- The guard against re-entering the pruning hook, and errors caught during evaluation: reading a bound that fails counts as unknown, so the relation is kept.
- Errors raised inside foreign calls while widening, such as a failing cast in the `ST_Extent` query: the model makes the column unbounded, or the insert aborts.
- The SQL text of the `ST_Extent` queries and PostGIS itself: `ST_Extent` is a function from values to text with laws; rounding of box coordinates is not modelled.
- Rows planned under one snapshot and executed under a later one in READ COMMITTED: the source documents this window as open.
- Invalidation of cached plans on the heap relation, subtransactions, and rebuilds in the `Cache` machine: `Protocol` has rebuilds, `Cache` covers the life of one build.
- Row types in `IS NULL`, domains over geometry, types whose text depends on other settings: outside the hypotheses.
- Rebuild.IncrementalIsRebuild: equal texts need every value and every merged range to print and a range read back from text to merge to the same text; without that, `SnugColumns.InsertStaysSnug` (equal meaning) and `Rebuild.KeepsUpIsWider`. `Rebuild.InsertMatchesRebuild` is one step of it.
- RebuiltPage.PageIsRebuilt: equal texts, so one session and distinct columns, as in `RebuiltPage.RowsAreRebuilt`; without either, `RebuiltPage.PageMeansRebuilt`.
- Rebuild.InsertKeepsUp: for range types of which whether a range prints depends on what it covers only, as in `Upkeep.KeptAllKeepUp`, `Upkeep.PageIsWiderIff` and `SnugColumns.InsertStaysSnug`: elsewhere a build may fail to print a range that an insert stores under another value.
- Exactness.PruneExact: does not reach NOT, constants the column could not hold in equalities, or comparisons on a column that is all NULL, which the code keeps though nothing matches; an AND over one column is not exact (`Witness.AndNotExact`).
- Announcements.SafeIffAnnounced: invalidations reach a backend in any order, one at a time; PostgreSQL's queue keeps the order of the commits.
