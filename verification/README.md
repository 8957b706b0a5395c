# PgPaw: a verified model of the versioned query cache and its live stream

PgPaw answers SQL queries from a cache whose entries are keyed by a query fingerprint and a version computed
from the change feed of a replicated database, and keeps subscribers up to date by sending the difference
between two results of their query. This project models that core and proves what it is for, and exactly when:
an unchanged version means unchanged data, a cached body is never older than what the change feed had delivered
when the read took its version, every live stream replays to the server's own state, and a browser that was
handed the body its subscription was registered with shows the query's result on one database state at every
moment. Where the code falls short of that, the condition it needs is an if-and-only-if and a complete run or a
concrete query shows the failure.

`dafny verify dfyconfig.toml` checks the whole project.

## What is modelled

| file | part of the system |
|---|---|
| `Text.dfy` | optional and fallible values, ASCII folding, decimal text and numerals |
| `ChangeLog.dfy` | transactions, change records and the column values they carry |
| `VersionIndex.dfy` | the watermark index, against a rescan of the whole log |
| `CdcBridge.dfy` | the thread that indexes a transaction and then broadcasts it |
| `PrimaryFeed.dfy` | notifications of an embedded primary as truncating transactions |
| `PrimaryReads.dfy`, `PrimaryLive.dfy` | cached reads and the live hub over that feed, with notifications delivered in any order |
| `Anchors.dfy` | equality filters collected from a WHERE clause, under three-valued logic |
| `Database.dfy`, `Queries.dfy` | the database as a history of commits; classified queries and the rows they can see |
| `Invalidation.dfy` | when an unchanged version means unchanged rows, as an if-and-only-if |
| `Witnesses.dfy` | concrete queries whose result changes while their version does not |
| `Diff.dfy` | keyed results and the deltas between two of them |
| `Feed.dfy`, `Snapshots.dfy`, `LiveHub.dfy` | the change feed, cached reads and the live hub as state machines |
| `LiveInvariant.dfy` | what every step of the hub keeps |
| `LiveServer.dfy` | the hub as an object, one method for each critical section |
| `World.dfy` | all three machines in any interleaving, and the theorems over whole runs |
| `Sse.dfy`, `Mirror.dfy`, `Txid.dfy` | the browser: event reader, collection driver, transaction-id tracker |
| `EndToEnd.dfy` | database to browser, for every run, every chunking of the stream and every download of a link |
| `Scenarios.dfy` | complete runs in which a public browser, a cached body or a subscription ends up wrong |
| `Security.dfy`, `Privacy.dfy` | the cache of security verdicts; what an answer says about the tables a query reads |
| `Migrations.dfy`, `Handoff.dfy` | the migration ledger and the handoff of the legacy ledgers |
| `Quoting.dfy` | SQL literals and identifiers |

The three server machines interleave freely: a commit is applied, indexed and broadcast in separate steps; a
read takes its version, looks up, queries and stores in separate steps; the hub's worker collects, re-queries
and delivers in separate steps while subscriptions come and go. Classes give the same operations in the form
the code has them, with loops over fields that change, and each method is proved equal to the step it implements.

## Hypotheses

They are explicit predicates, and each theorem names the ones it uses.

* `Database.ValidHistory`: the database applies a commit before the feed reports it; LSNs are positive and
  increase; change records carry what replica identity requires. A FULL table carries the whole old row; any other
  carries the old primary key, or omits it when it did not change (PostgreSQL documentation, "Logical Replication
  Message Formats"). A truncate record may stand for any write, as an embedded primary reports it. Stored rows are
  rows that the table's column types can hold (`Config.storable`).
* `Invalidation.Covered`: every row the query can see moves its version. This is not an assumption of the
  soundness theorem but its exact condition; canonical column text establishes it for a single anchored scan.
  Freshness of reads asks it of the query being read and of no other query in the run.
* `Invalidation.Noticed`: every row the query can see is in one of the tables it is filed under; this holds when no
  WITH name hides a stored table of the query (`Queries.Watched`). Live convergence asks this and nothing about
  anchors, because the hub works by table; it is the exact condition for that to suffice
  (`Invalidation.TablesSufficeIffNoticed`). Replay and grammar of streams hold for every subscription.
* `EndToEnd.KeysFit`: the application's `getKey` identifies rows as the server does, within each result and over
  time. `Mirror.MirrorBatch` gives the exact condition for one batch.
* `EndToEnd.Handed`: the browser got the opening body, inline or by downloading its link.
  `EndToEnd.BrowserMirrorsIff` gives the exact condition on any other download, and
  `EndToEnd.PublicBrowserConverges` derives the hypothesis from the state of the database at the download.
* `EndToEnd.Faithful`: JSON text on one line is parsed back to the event it was made from.
* Query results and row hashes are functions of their inputs, and a query stands for its own fingerprint.

## Findings

* A version is trustworthy at the level of the rows a query reads if and only if the query is covered
  (`Invalidation.SoundIffCovered`). Three families of queries that the classifier accepts are not, and each has a
  member whose result changes while its version does not: a cross join of one anchored table with itself
  (`Witnesses.SelfJoinServedStale`), a stored table hidden behind a WITH name of the same spelling
  (`Witnesses.ShadowedServedStale`), and a literal whose text differs from the text in the change record
  (`Witnesses.BooleanServedStale`). The literal TRUE is filed under `true` while boolean output text is `t`.
* A value's watermark agrees with a rescan throughout a log if and only if the transactions touching that value
  arrive in the order of their LSNs (`VersionIndex.RefinesIffInOrder`). The replication feed delivers in that
  order; the feed of an embedded primary may not, and is safe because it only truncates
  (`PrimaryFeed.DeliveryOrderIrrelevant`, `PrimaryReads.PrimarySnapshotFresh`).
* A batch leaves the browser with exactly the new result if and only if no row that survives under its server key
  strands its old client key (`Mirror.MirrorBatch`). Keying accounts by an address that may change does
  (`Mirror.EmailStrands`).
* A public subscriber downloads its opening rows by URL, and the cache entry may not be the body it was registered
  with. It then shows the server's state if and only if the download agrees with that body at every client key
  that no later delta mentions (`EndToEnd.BrowserMirrorsIff`). Otherwise the difference lasts: in
  `Scenarios.PublicBrowserCanBeWrong` everything has drained, the result is empty, and the browser goes on showing
  a row. A download made while the database holds no relevant commit beyond the link's version is always right
  (`EndToEnd.PublicBrowserConverges`).
* Over all runs, answers of the security cache for a list of tables are answers of one catalog no older than the
  version read if and only if the list names at most one table (`Security.OneCatalogIff`). A list with two names
  can be answered "public" although no catalog has both of them public (`Security.MixedRun`); answers that were
  classified and answers that are private are always those of one catalog (`Security.AnswersAreFresh`).
* "Drained, hence current" holds for a listed subscription to a noticed query if and only if it has been through a
  commit on its tables, or the body it was registered with is the result at the position the hub had reached when it
  was listed (`World.ConvergesIff`). A body taken before a commit and listed after it stays old
  (`Scenarios.LateSubscriberIsStale`).
* The hub does not notice commits on a stored table that a WITH name hides: watching a query's tables suffices over
  every history if and only if the query is noticed (`Invalidation.TablesSufficeIffNoticed`), and
  `Scenarios.HiddenCommitIsMissed` is a drained run in which a subscription to such a query holds an old count.
* For the same reason a "public" security answer speaks for every table a query reads if and only if no WITH name
  hides one of them (`Privacy.SpeaksForIffWatched`).

## Model

| member | source | states |
|---|---|---|
| `ChangeLog.NonNullContents` | src/capability/version.rs:114-133 | a column and text are reported exactly when the row has that column with that non-null text |
| `ChangeLog.AddColumns` | src/capability/version.rs:116-122 | appends exactly the non-null columns, in order |
| `ChangeLog.ChangeColumns` | src/capability/version.rs:114-133 | an update reports its old key columns, then its new ones; a truncate reports nothing |
| `ChangeLog.FindValueExact` | src/capability/version.rs:153-158 | the value found is that of the first column whose name is equal ignoring ASCII case, and none if there is no such column |
| `ChangeLog.PkValuesExact` | src/capability/version.rs:135-151 | exactly the key texts that the change carries, old and new, are listed |
| `ChangeLog.ChangedColumnsExact` | src/capability/version.rs:114-133 | exactly the non-null columns that the change carries, old and new, are listed |
| `Text.LowerIffEqual` | src/capability/version.rs:38-38 | two names fold alike exactly when they are equal letter by letter over the two ASCII alphabets |
| `VersionIndex.VersionIndex.constructor` | src/capability/version.rs:21-32 | an empty index whose key and FULL tables are the folded names given |
| `VersionIndex.VersionIndex.Advance` | src/capability/version.rs:34-66 | the index stays the fold of every transaction received, this one last |
| `VersionIndex.VersionIndex.AdvanceOne` | src/capability/version.rs:37-65 | one change moves the table watermark upwards and either the truncate watermark or the watermarks of the reported values |
| `VersionIndex.VersionIndex.VersionOf` | src/capability/version.rs:68-95 | with nondecreasing LSNs the answer is what a rescan of everything received finds |
| `VersionIndex.TouchesTableExactly` | src/capability/version.rs:37-42 | a transaction touches a table's watermark exactly when one of its changes names the table ignoring case |
| `VersionIndex.VersionIgnoresCase` | src/capability/version.rs:68-95 | lists of names that differ only in case have equal versions |
| `VersionIndex.FullColumnsIgnoreCase` | src/capability/version.rs:71-81 | on a FULL table the first filter anchors the query, and its column is matched ignoring case |
| `VersionIndex.FullReportsExactly` | src/capability/version.rs:50-56 | a FULL table reports a column and text exactly when the change carries that column, ignoring case, with that text |
| `VersionIndex.KeyedReportsExactly` | src/capability/version.rs:57-63 | any other table reports exactly its key column with the key texts the change carries |
| `VersionIndex.AnchorableIffTracked` | src/capability/version.rs:97-102 | a column can anchor a query exactly when some change of the table reports a value of it |
| `VersionIndex.FirstAnchorExact` | src/capability/version.rs:73-76 | the anchor is the first filter on such a column, and there is none only if no filter is on one |
| `VersionIndex.LastTouchIsMaximum` | src/capability/version.rs:34-66 | the last touch of a table, value or truncate is the largest LSN of a transaction touching it, and 0 if there is none |
| `VersionIndex.IndexRefinesScan` | src/capability/version.rs:34-66 | every stored watermark equals that maximum; for values this needs nondecreasing LSNs, under which the unguarded insert acts as max |
| `VersionIndex.VersionIsScan` | src/capability/version.rs:68-95 | the version equals a naive scan for the last relevant transaction, anchored or not |
| `VersionIndex.VersionMonotone` | src/capability/version.rs:68-95 | the scanned version never decreases as the log grows |
| `VersionIndex.RelevantRaisesScan` | src/capability/version.rs:68-95 | a relevant transaction with a larger LSN raises the version strictly |
| `VersionIndex.AnchoredWithinTable` | src/capability/version.rs:71-94 | an anchored version never exceeds the table's |
| `VersionIndex.RefinesIffInOrder` | src/capability/version.rs:50-63 | a value's watermark equals the scan at every prefix of a log if and only if the transactions touching the value arrive in LSN order |
| `VersionIndex.OutOfOrderRegresses` | src/capability/version.rs:50-63 | a concrete log out of order whose anchored version goes backwards |
| `CdcBridge.CdcBridge.Pump` | src/capability/cdc.rs:35-47 | the transactions before the first positive reading of the stop flag, and no others, are indexed and sent, in order; none once the bridge was stopped |
| `CdcBridge.CdcBridge.Index` | src/capability/cdc.rs:39-39 | a transaction is indexed while it has not been sent yet |
| `CdcBridge.CdcBridge.Broadcast` | src/capability/cdc.rs:46-46 | a transaction is sent only after it was indexed |
| `CdcBridge.CdcBridge.Publish` | src/capability/cdc.rs:86-90 | a transaction is queued in primary mode and dropped otherwise |
| `CdcBridge.VersionCoversSent` | src/capability/cdc.rs:35-47 | at every moment the version read from the index covers everything already broadcast |
| `PrimaryFeed.PrimaryObserver.OnNotify` | src/db/primary.rs:235-251 | malformed payloads consume no number; any other publishes one truncate under the next number |
| `PrimaryFeed.TriggerPayloadIsAnnounced` | src/db/primary.rs:236-250 | the trigger's own payload is accepted for every 32-bit id and every table name |
| `PrimaryFeed.AnnouncedExactly` | src/db/primary.rs:236-250 | a payload is announced exactly when a 32-bit number stands before its first colon, and the table is all that follows |
| `PrimaryFeed.TruncatesTrackTables` | src/capability/version.rs:39-49 | truncates alone leave no value watermarks and equal table and truncate watermarks |
| `PrimaryFeed.DeliveryOrderIrrelevant` | src/db/primary.rs:235-251 | any permutation of the same notifications builds the same index |
| `PrimaryFeed.AnchorsCollapse` | src/capability/version.rs:71-94 | anchored or not, a single-table version is the largest number announced for the table |
| `PrimaryReads.VersionCovers` | src/capability/version.rs:68-95 | whatever the order of delivery, the version is at least every number delivered for the query's tables, and at most the last number given out |
| `PrimaryReads.PrimaryNextInv` | src/capability/cdc.rs:69-75 | every step keeps each cached body at least as new as the commits announced up to its version |
| `PrimaryReads.PrimarySnapshotFresh` | src/capability/read.rs:210-230 | in every run over that feed, for every query, a finished read includes the commit behind each announcement on its tables that was indexed at its version read |
| `PrimaryReads.PrimaryReadAfterDelta` | src/capability/cdc.rs:69-75 | once an announcement was broadcast, a read that has not taken its version includes the commit behind it |
| `PrimaryLive.ServerNextInv` | src/capability/cdc.rs:60-90 | every step of the server on that feed keeps the invariant of the hub |
| `PrimaryLive.PrimaryStreams` | src/capability/live.rs:120-265 | on that feed too, streams obey the grammar and replay to `last` |
| `PrimaryLive.PrimaryConverges` | src/capability/live.rs:164-261 | once every announcement was delivered, broadcast and processed, in any order, a refreshed subscription to a noticed query is current, also after commits on several tables |
| `Anchors.CollectEqFilters` | src/capability/classify.rs:169-199 | the work list terminates and returns exactly the pairs of a column and a constant that some conjunct equates, in the order of the recursive definition |
| `Anchors.Expand` | src/capability/classify.rs:171-197 | one round of the loop preserves the filters still to be collected and shrinks the tree size on the stack |
| `Anchors.ExtractionSound` | src/capability/classify.rs:169-234 | under three-valued logic every row on which WHERE is true satisfies every collected pair, swapped operands included, with a placeholder read as the parameter whose numeral it carries |
| `Anchors.ExtractionExact` | src/capability/classify.rs:169-234 | a pair is collected exactly when a conjunct equates a column of that name with a number, string, truth value or parameter of that text, on either side |
| `Anchors.PlaceholderIsNth` | src/capability/classify.rs:205-217 | `$n` stands for the n-th parameter, counted from one, when that is a string or an integer, and contributes nothing otherwise or outside the list |
| `Anchors.FilterValueExact` | src/capability/classify.rs:201-234 | an expression has a filter text exactly when it is a number, a string, a truth value, or a placeholder of a string or integer parameter |
| `Anchors.RightToLeft` | src/capability/classify.rs:170-180 | the equalities are found from right to left, so the rightmost is the first candidate for an anchor |
| `Text.ParsesExactly` | src/capability/classify.rs:209-209 | a text parses as a number exactly when it is its numeral, with any leading zeros, after an optional plus sign |
| `Anchors.TrueConjuncts` | src/capability/classify.rs:173-195 | a WHERE tree is true exactly when every conjunct reached through AND and parentheses is |
| `Queries.CollectTables` | src/capability/classify.rs:126-137 | the loop computes the table list of the recursive definition |
| `Queries.TablesInContents` | src/capability/classify.rs:95-137 | the list has each referenced name that no WITH clause defines, folded, once |
| `Queries.QualifiedName` | src/capability/classify.rs:128-132 | a name with any qualifiers is filed under its folded last part |
| `Queries.QualifiersDoNotMatter` | src/capability/classify.rs:126-137 | dropping every qualifier leaves the table list unchanged |
| `Queries.QualifiersDoNotMatterToScans` | src/capability/classify.rs:128-132 | and leaves the tables a query reads unchanged |
| `Queries.AffectedExactly` | src/capability/live.rs:166-180 | a transaction affects a query exactly when a change names one of its tables ignoring case |
| `Invalidation.CommitInvisible` | src/capability/version.rs:34-66 | a commit that is not relevant to a covered query changes none of its rows, key moves and FULL updates included |
| `Invalidation.RelevantRaises` | src/capability/version.rs:68-95 | a relevant commit changes the query's version |
| `Invalidation.SameVersionSameView` | src/capability/version.rs:34-102 | over any history, equal versions at two prefixes mean equal visible rows |
| `Invalidation.SoundIffCovered` | src/capability/version.rs:68-102 | versions can be trusted over every history if and only if the query is covered |
| `Invalidation.CanonicalIsCovered` | src/capability/classify.rs:147-151 | one scan of an unshadowed table is covered when, of the texts its columns can hold, only the filter's own is SQL-equal to it |
| `Witnesses.IntegerKeyIsCovered` | src/capability/classify.rs:227-234 | a lookup by an integer key is covered, although other spellings of the number are SQL-equal to it |
| `Invalidation.JoinIsCovered` | src/capability/classify.rs:126-137 | a join of unshadowed tables is covered by table versions |
| `Invalidation.UnaffectedCommit` | src/capability/live.rs:173-180 | a commit on none of a noticed query's tables changes nothing the query reads, anchored or not |
| `Invalidation.TablesSufficeIffNoticed` | src/capability/live.rs:173-180 | over all histories, commits on other tables change nothing the query reads if and only if every row it can see is in one of its tables |
| `Invalidation.AnchoredSelfJoinUnsound` | src/capability/classify.rs:133-151 | when the one anchored table is read indirectly or more than once, a storable row with another value can come and go under an unchanged version |
| `Witnesses.SelfJoinServedStale` | src/capability/classify.rs:133-151 | a concrete cross join, history and rendering: the count doubles and the version stays |
| `Invalidation.ShadowedTableUnsound` | src/capability/classify.rs:95-136 | the rows of a stored table hidden behind a WITH name of the same spelling can change under an unchanged version |
| `Witnesses.ShadowedServedStale` | src/capability/classify.rs:95-136 | a concrete query with a shadowed table: its count changes and its version stays, under any configuration |
| `Invalidation.BooleanTextUnsound` | src/capability/classify.rs:227-234 | an anchor on the literal TRUE is unsound when the stored text is "t" |
| `Witnesses.BooleanServedStale` | src/capability/classify.rs:227-234 | a concrete history for it: the count changes and the version stays |
| `Diff.KeyedMap` | src/capability/diff.rs:39-51 | the loop builds the keyed result |
| `Diff.KeyedLast` | src/capability/diff.rs:39-51 | a row that no later row replaces is found under its key |
| `Diff.KeyedOrigin` | src/capability/diff.rs:39-64 | everything in a keyed result is the last row with that key |
| `Diff.KeyedByColumn` | src/capability/diff.rs:43-58 | rows that have the key column are found under exactly the texts of that column, strings and other values alike |
| `Diff.DistinctRowsAllKept` | src/capability/diff.rs:39-58 | with distinct texts no row is lost and each stands under its own text |
| `Diff.KeyedByContent` | src/capability/diff.rs:43-64 | rows without the key column are found under exactly their hashes |
| `Diff.ComputeDiff` | src/capability/diff.rs:13-37 | for every iteration order the deltas are exactly one for each key that changed, of the right kind |
| `Diff.DeltaKinds` | src/capability/diff.rs:13-37 | an insertion is of a key that was absent, an update of one that was present with another row, a deletion of one that is gone, and each of these has its delta |
| `Diff.DiffReplays` | src/capability/diff.rs:13-37 | replaying the deltas in any order turns the old keyed result into the new one |
| `Diff.ReplayFrom` | src/capability/diff.rs:13-37 | over any other start they do so if and only if it agrees with the new result at every key without a delta |
| `Diff.NewerSnapshotDiverges` | src/capability/diff.rs:13-37 | a row present only in the start survives an empty difference |
| `Diff.EmptyDiff` | src/capability/diff.rs:13-37 | there are no deltas exactly when nothing changed |
| `Feed.FeedNextInv` | src/capability/cdc.rs:35-47 | in every step the index is the fold of what was received, never behind what was broadcast, never ahead of the database |
| `Snapshots.HitIsFresh` | src/capability/read.rs:210-230 | for a covered query, an entry stored by any read answers every other read that saw the same version, however they raced |
| `Snapshots.ReadNextInv` | src/capability/read.rs:210-230 | version read, lookup, query, store and eviction keep every body a result computed by a read that had its version |
| `Snapshots.FloorSetOnce` | src/capability/read.rs:215-218 | a read is bound once, at its version read, to the commits indexed then |
| `Snapshots.CacheExactly` | src/capability/cache.rs:40-69 | an entry appears or changes only where a read stores its own result, and disappears only by eviction |
| `Snapshots.StoredIsHit` | src/capability/cache.rs:48-62 | a body just stored answers the next lookup of the same query and version |
| `Snapshots.MissComputes` | src/capability/cache.rs:56-57 | without an entry the read computes the current result, under the version it took before |
| `Snapshots.QueryCache.LookUp` | src/capability/cache.rs:40-56 | the lookup is a step of the read machine: a hit finishes the read, a miss sends it to the database |
| `Snapshots.QueryCache.Insert` | src/capability/cache.rs:57-68 | the insertion after the computation is a later step of its own, over whatever the entry has become |
| `LiveHub.TranscriptReplays` | src/capability/live.rs:242-259 | an opening body and complete difference batches replay to the last state |
| `LiveHub.TranscriptPhase` | src/capability/live.rs:120-121 | such a stream obeys the grammar and stops between batches |
| `LiveHub.PrefixNotBroken` | src/capability/live.rs:152-162 | every prefix of a stream within the grammar is within it, so nothing follows a reset |
| `LiveHub.OthersKeyedByContent` | src/capability/live.rs:106-113 | a join, or a table without a known key, is keyed by the hashes of its rows |
| `LiveHub.SingleKeyedByColumn` | src/capability/live.rs:106-113 | a single table with a known key is keyed by the texts of that column |
| `LiveInvariant.AllocateInv` | src/capability/live.rs:94-122 | sending the snapshot or its link and taking an id keeps the invariant, for every query; the id is new |
| `LiveInvariant.CollectInv` | src/capability/live.rs:173-193 | the cloned jobs agree with the table |
| `LiveInvariant.DeliverInv` | src/capability/live.rs:231-260 | at delivery the job's clone still equals `last`, so the batch extends the transcript |
| `LiveInvariant.FetchFailsInv` | src/capability/live.rs:220-229 | a failed re-query ends the stream with one reset |
| `LiveInvariant.LagInv` | src/capability/live.rs:152-162 | a lag ends every listed stream with one reset and no other |
| `LiveInvariant.RetainKeepsAll` | src/capability/live.rs:264-265 | every listed subscription has an open receiver, so the clean-up removes nothing |
| `LiveInvariant.HubNextInv` | src/capability/live.rs:94-274 | every step of the hub keeps the whole invariant |
| `LiveInvariant.RemovedExactly` | src/capability/live.rs:62-265 | a subscription leaves the table exactly when it is dropped, its re-query fails, or the hub lags, and enters it exactly when it is listed |
| `LiveInvariant.ToldExactly` | src/capability/live.rs:152-260 | a delivery appends one change for each delta and the end mark and sets `last`; a removal the client did not ask for appends one reset; no other step appends anything |
| `LiveInvariant.LagResumes` | src/capability/live.rs:80-84 | after a lag the worker goes on with the oldest of the 1024 messages still held |
| `LiveInvariant.QuietIsCurrent` | src/capability/live.rs:164-190 | a result of a noticed query that no later commit on its tables could affect is the current one |
| `LiveInvariant.DrainedIsCurrent` | src/capability/live.rs:164-274 | in an idle hub that has processed every message, a refreshed subscription to a noticed query holds the current keyed result |
| `LiveInvariant.DueKept` | src/capability/live.rs:194-260 | a collected subscription has a job to come, has been refreshed, or is gone, at every step |
| `LiveInvariant.MissesNothingKept` | src/capability/live.rs:164-261 | until its first batch, no message on its tables has passed a listed subscription by, at every step |
| `LiveInvariant.OpeningsKept` | src/capability/live.rs:94-150 | no step changes how a stream opened |
| `LiveServer.LiveServer.Allocate` | src/capability/live.rs:94-122 | implements the first half of subscribing: rows for a scoped caller, a link for any other |
| `LiveServer.LiveServer.Enlist` | src/capability/live.rs:132-144 | implements the insertion in the table |
| `LiveServer.LiveServer.Drop` | src/capability/live.rs:62-66 | removes the subscription before its receiver goes away |
| `LiveServer.LiveServer.Collect` | src/capability/live.rs:164-193 | the folded set of changed tables selects one job for every affected subscription and no other |
| `LiveServer.LiveServer.FailJob` | src/capability/live.rs:220-229 | implements the failed re-query |
| `LiveServer.LiveServer.DeliverJob` | src/capability/live.rs:231-260 | computes the difference and implements its delivery, `last` included |
| `LiveServer.LiveServer.SendAll` | src/capability/live.rs:244-255 | all deltas are sent, or none when the receiver is gone |
| `LiveServer.LiveServer.Finish` | src/capability/live.rs:263-265 | keeps exactly the subscriptions whose receiver exists |
| `LiveServer.LiveServer.ResetAll` | src/capability/live.rs:152-162 | every listed subscription gets one reset and the table is emptied |
| `World.NextInv` | src/capability/read.rs:210-284 | every step of the server, in any interleaving, keeps its invariant |
| `World.RunInv` | src/capability/live.rs:69-88 | it holds in every state of every run |
| `World.SnapshotFresh` | src/capability/read.rs:210-230 | in every run a finished read of a covered query returns the result on a database prefix at least as new as what was indexed at its version read |
| `World.SubscribeEnabled` | src/capability/read.rs:271-283 | a finished public read can always become a subscription |
| `World.FloorAfter` | src/capability/read.rs:215-218 | a read that takes its version later is bound to at least what was indexed now |
| `World.ReadAfterDelta` | src/capability/cdc.rs:35-47 | once a stream carries an event of a commit, a read that has not taken its version returns a body at least as new as that very commit |
| `World.StreamReplaysLast` | src/capability/live.rs:231-260 | in every run, replaying a listed subscription's events gives its `last` |
| `World.StreamGrammar` | src/capability/live.rs:120-265 | in every run each stream is Snapshot (Delta* UpToDate)* Reset?, and the clean-up removes nothing |
| `World.RefreshedByCommit` | src/capability/live.rs:164-261 | a subscription listed when a commit on its tables is collected, and still listed when the worker is idle again, has been refreshed |
| `World.DrainedConverges` | src/capability/live.rs:164-261 | once drained, a refreshed subscription to a noticed query holds the current keyed result |
| `World.UnrefreshedIsCurrent` | src/capability/live.rs:94-150 | one that was not refreshed does while no commit on its tables lies beyond its opening body |
| `World.ConvergesIff` | src/capability/live.rs:94-261 | in every drained state a listed subscription to a noticed query is current if and only if it was refreshed, or its opening body is the result at the position the hub had reached when it was listed |
| `World.ListedWasEnlisted` | src/capability/live.rs:132-144 | every listed subscription was listed by a step that inserts it in the table |
| `World.CursorAgrees` | src/capability/read.rs:210-234 | in every run, while the database has no relevant commit beyond a version, the cursor and every body returned under it are the current result |
| `World.DownloadIsOpening` | src/capability/read.rs:232-234 | a link downloaded in such a state gives the body its subscription was registered with |
| `Scenarios.RacingMissesDiffer` | src/capability/cache.rs:48-62 | a run in which two racing misses store different bodies under one version, and the first caller has the other one |
| `Scenarios.PublicBrowserCanBeWrong` | src/capability/live.rs:112-117 | a run that ends drained with a refreshed public subscription whose browser, having downloaded its link and read its whole stream, shows a row that is gone |
| `Scenarios.ItemsFlicker` | src/capability/live.rs:112-117 | a concrete covered and noticed query on which these runs happen |
| `Scenarios.LateSubscriberIsStale` | src/capability/read.rs:246-284 | a run that ends drained with a subscription that lacks a current row, having missed the only commit on its tables |
| `Scenarios.HiddenCommitIsMissed` | src/capability/live.rs:173-193 | a run that ends drained with an old subscription after a commit that its tables do not show |
| `Scenarios.ShadowedEscapes` | src/capability/classify.rs:95-137 | that happens to a concrete query whose table a WITH name hides |
| `Sse.ReadAhead` | packages/tanstack-db/src/stream.ts:13-21 | complete frames can be read before the rest arrives |
| `Sse.ReadSse` | packages/tanstack-db/src/stream.ts:6-21 | for every chunking the events are those of the whole text |
| `Sse.DrainFrames` | packages/tanstack-db/src/stream.ts:13-20 | the inner loop yields every complete frame and keeps the remainder |
| `Sse.FramedPayload` | packages/tanstack-db/src/stream.ts:26-32 | a frame's payload is parsed back from its data line |
| `Sse.FirstBreakExactly` | packages/tanstack-db/src/stream.ts:12-12 | the boundary is the first pair of line ends, and absent only if there is no pair |
| `Sse.FirstDataLineCounts` | packages/tanstack-db/src/stream.ts:26-32 | a frame's payload is the trimmed value of its first data line, and a blank value gives none |
| `Sse.NoDataNoPayload` | packages/tanstack-db/src/stream.ts:27-28 | a frame without a data line is skipped |
| `Sse.TrimExactly` | packages/tanstack-db/src/stream.ts:29-29 | trimming removes the white space at both ends and nothing else |
| `Sse.WireRoundTrip` | src/capability/live.rs:277-292 | any sequence of clean payloads framed by the server is read back exactly |
| `Mirror.Driver.constructor` | packages/tanstack-db/src/core.ts:37-42 | a driver starts empty and has not signalled readiness |
| `Mirror.Driver.Ready` | packages/tanstack-db/src/core.ts:44-49 | readiness is signalled once |
| `Mirror.Driver.ApplyRows` | packages/tanstack-db/src/core.ts:51-59 | inserts the rows and sets `seen` to exactly their keys |
| `Mirror.Driver.Flush` | packages/tanstack-db/src/core.ts:66-80 | writes the held changes in order and holds nothing afterwards |
| `Mirror.Driver.Process` | packages/tanstack-db/src/core.ts:82-126 | one frame: its transaction id is recorded first and wakes exactly its waiters; a reset empties everything and ends the connection |
| `Mirror.Driver.Connect` | packages/tanstack-db/src/core.ts:61-128 | a connection starts with nothing held and processes frames, and their transaction ids, up to the first reset |
| `Mirror.HeldExactly` | packages/tanstack-db/src/core.ts:103-126 | a change is held under its row's client key or the key it names; upserts patch a held upsert field by field, a deletion with its row yields to one, a deletion by key does not |
| `Mirror.PutKeepsOrder` | packages/tanstack-db/src/core.ts:65-65 | a key set again keeps its place among the held changes, a new one goes last |
| `Mirror.PatchAtKey` | packages/tanstack-db/src/core.ts:66-80 | a collection in partial mode keeps the fields an update does not mention |
| `Mirror.WholeRowsNeedNoMode` | packages/tanstack-db/src/core.ts:66-80 | with whole rows, as the server sends them, both update modes flush to the same rows |
| `Mirror.SnapshotOver` | packages/tanstack-db/src/core.ts:51-59 | a snapshot overwrites the keys of its rows, the last row of a key counting, and leaves other rows in place |
| `Mirror.ResetClears` | packages/tanstack-db/src/core.ts:94-101 | after a reset there is no row, no known key and nothing held |
| `Mirror.BatchAtKey` | packages/tanstack-db/src/core.ts:66-126 | at each client key an upsert wins over a delete in either order, and other keys do not move |
| `Mirror.MirrorBatch` | packages/tanstack-db/src/core.ts:66-126 | from a mirror of the old result, deltas in any order and the end mark give the new one if and only if no client key is stranded |
| `Mirror.MirrorSnapshot` | packages/tanstack-db/src/core.ts:51-59 | a snapshot loaded into an empty mirror is the server's keyed result |
| `Mirror.BatchFrom` | packages/tanstack-db/src/core.ts:66-126 | from any client at rest, a batch gives the new result where its deltas mention a client key and leaves the rest alone |
| `Mirror.EmailStrands` | packages/tanstack-db/src/core.ts:42-42 | a concrete stranded key: the collection ends with both rows |
| `Mirror.StableKeysNotStranded` | packages/tanstack-db/src/core.ts:42-42 | equal client keys for equal server keys suffice |
| `Mirror.ContentKeysNotStranded` | src/capability/diff.rs:60-64 | content-hash server keys never strand a client key |
| `Mirror.AgreeingKeysDistinct` | packages/tanstack-db/src/core.ts:42-42 | if both keys identify the same rows, the client key tells the keyed result apart |
| `Txid.Low32Agrees` | packages/tanstack-db/src/txid.ts:1-1 | default keys agree exactly modulo 2^32, for negative ids too, and an id of 32 bits is its own key |
| `Txid.RecordedWindow` | packages/tanstack-db/src/txid.ts:14-20 | the window stays distinct and bounded, drops at most its oldest key, and holds the key just recorded |
| `Txid.WindowIsLatest` | packages/tanstack-db/src/txid.ts:14-20 | a key recorded again keeps its place, and new keys push out the oldest, so that the latest 4096 remain in their order |
| `Txid.SeenIffRecent` | packages/tanstack-db/src/txid.ts:14-26 | of distinct keys exactly the last 4096 are still known |
| `Txid.TxidTracker.Record` | packages/tanstack-db/src/txid.ts:14-22 | exactly the waiters for this key are resolved, and afterwards no waiter's key is in the window |
| `Txid.TxidTracker.AwaitTxId` | packages/tanstack-db/src/txid.ts:28-45 | a key in the window resolves at once, any other waits |
| `Txid.TxidTracker.Timeout` | packages/tanstack-db/src/txid.ts:32-35 | rejects a waiter that still waits, and only that one |
| `EndToEnd.TranscriptFrom` | packages/tanstack-db/src/core.ts:61-128 | whatever a link was downloaded as, a whole transcript gives its last state at every client key that some delta mentions, and the loaded row elsewhere |
| `EndToEnd.TranscriptMirrorsIff` | packages/tanstack-db/src/core.ts:61-128 | a client mirrors the last state if and only if what it loaded agrees with the first state at every client key that no delta mentions |
| `EndToEnd.TranscriptMirrors` | packages/tanstack-db/src/core.ts:61-128 | a client given the opening body is at rest and mirrors the last state |
| `EndToEnd.TranscriptConsistent` | packages/tanstack-db/src/core.ts:66-126 | after any part of the transcript its collection mirrors one of the states |
| `EndToEnd.WirePrefix` | packages/tanstack-db/src/stream.ts:6-32 | whatever part of the text has arrived, the events read are the first ones sent |
| `EndToEnd.ServerKeysFit` | src/capability/diff.rs:39-58 | a client that keys rows as the server does meets the key hypothesis for every query |
| `EndToEnd.BrowserConsistent` | packages/tanstack-db/src/index.ts:37-85 | in every run, after any part of a stream in any chunks, the collection of a browser handed the opening body is empty or the result on one database prefix of the stream |
| `EndToEnd.BrowserMirrorsIff` | packages/tanstack-db/src/index.ts:49-60 | once all of a listed stream has arrived the driver is at rest, and it mirrors the server's `last` if and only if its load agrees, for any download |
| `EndToEnd.BrowserMirrorsLast` | packages/tanstack-db/src/index.ts:37-85 | a browser handed the opening body mirrors `last` |
| `EndToEnd.BrowserConverges` | packages/tanstack-db/src/index.ts:37-85 | once the server has drained and the stream has arrived, it shows the current result |
| `EndToEnd.PublicBrowserConverges` | packages/tanstack-db/src/index.ts:49-60 | so does a public browser that downloaded its link from the cache while the database had no relevant commit beyond the link's version |
| `Security.ClassifySecurity` | src/capability/read.rs:318-340 | the loop computes the verdict map; two relations of one folded name are private |
| `Security.ClassificationExact` | src/capability/read.rs:318-347 | a table is found public exactly when it resolves to one relation and that one is open |
| `Security.VerdictCache.Absorb` | src/capability/read.rs:306-315 | the second critical section is a step of the machine: another version clears the cache before the verdicts are stored |
| `Security.CachedOnlyIfCovered` | src/capability/read.rs:300-305 | an answer comes from the cache exactly when the tag is the version read and every table has a verdict |
| `Security.AnswerRemembered` | src/capability/read.rs:300-315 | while the tag stays, a second call for tables that were all found is answered at once, and alike |
| `Security.NextInv` | src/capability/read.rs:286-316 | every interleaving keeps cached verdicts no older than their tag and answers no older than their version |
| `Security.ClassifiedAnswer` | src/capability/read.rs:306-315 | an answer from classification is the answer of one catalog for all its tables |
| `Security.AnswersAreFresh` | src/capability/read.rs:286-347 | in every run "public" means each table was public in a catalog no older than the version; classified answers, private answers and answers for one table are those of one such catalog |
| `Security.OneCatalogIff` | src/capability/read.rs:286-347 | over all runs, every answer for a list of tables is that of one such catalog if and only if the list names at most one table |
| `Security.MixedRun` | src/capability/read.rs:300-314 | for any list with two different names, a run in which its cached answer is that of no single catalog |
| `Privacy.SpeaksForIffWatched` | src/capability/read.rs:162-163 | over all runs, a "public" answer for a query's list means every table it reads was public in a catalog no older than the version, if and only if no WITH name hides one |
| `Privacy.ShadowedIsNotSpokenFor` | src/capability/classify.rs:95-137 | a concrete query whose list is empty while it reads a table |
| `Migrations.SchemaOps.ApplyMigrations` | src/schema/mod.rs:357-455 | the loops over chains and files are the fold that stops at the first failure, and the stores it passes through are those the database's answers give |
| `Migrations.SchemaOps.RunFiles` | src/schema/mod.rs:386-436 | the loop over one chain's files |
| `Migrations.ChainsAdvance` | src/schema/mod.rs:365-454 | a run only adds ledger rows, alters none, and commits each new file's effect once, in the order applied |
| `Migrations.EffectsCommitOnce` | src/schema/mod.rs:357-455 | across any sequence of runs, failing or not, every effect commits at most once and no checksum changes |
| `Migrations.RunOutcome` | src/schema/mod.rs:365-454 | a run deals with exactly a prefix of its files: those are recorded, the missing ones applied in order, and a failing file is the next one and left unrecorded |
| `Migrations.RunExactly` | src/schema/mod.rs:357-455 | a run ends with a given failure, or none, on a given store exactly when every question before that point was answered well on the store reached by then and the next answer is the one that failure stands for |
| `Migrations.SucceedsIff` | src/schema/mod.rs:365-454 | a run succeeds if and only if every chain is listed with nothing missing, every file is recorded with its checksum or is absent, acknowledged and commits, and the tables are reflected |
| `Migrations.CommittedExactly` | src/schema/mod.rs:386-436 | a file is reported, recorded and has its effect exactly when it was reached, looked up, absent and acknowledged and its transaction commits on the store reached by then |
| `Migrations.WorldsSeparate` | src/schema/mod.rs:366-452 | a run leaves the ledger rows and table lists of every other world alone |
| `Migrations.SuccessSlices` | src/schema/mod.rs:365-454 | after success each app's slice of the ledger is exactly the files and checksums of its last chain |
| `Migrations.RerunAppliesNothing` | src/schema/mod.rs:386-409 | with distinct apps, running again applies none, counts all and changes neither ledger nor effects |
| `Handoff.LedgerDatabase.HandoffLegacyLedgers` | src/schema/mod.rs:207-355 | succeeds if and only if the database answers and both ledgers are ready; then the ledgers are the unions and the legacy tables gone, otherwise nothing changed |
| `Handoff.LedgerDatabase.Transfer` | src/schema/mod.rs:210-342 | the statements inside the transaction |
| `Handoff.ReadyExactly` | src/schema/mod.rs:224-305 | ready means unique keys, known checksums and agreement on shared keys, where a missing list of tables stands for the empty list |
| `Handoff.PayloadsArrive` | src/schema/mod.rs:245-325 | after a handoff every legacy payload is in the current ledger, and a missing list of tables has become the empty list |
| `Handoff.MovedErrors` | src/schema/mod.rs:224-283 | each error has its own cause: a disagreement, a repeated key, or a statement that did not answer |
| `Handoff.InsertLegacy` | src/schema/mod.rs:245-252 | the insert that skips existing keys, row by row |
| `Handoff.MovedIff` | src/schema/mod.rs:224-283 | moving one ledger succeeds exactly when keys are unique, payloads known, and shared keys agree |
| `Handoff.MovedIsUnion` | src/schema/mod.rs:245-283 | the moved ledger has every current row unaltered and every legacy row |
| `Handoff.CountsUnique` | src/schema/mod.rs:253-281 | a list has as many distinct keys as rows exactly when its keys are unique |
| `Handoff.UniqueNeverMiscounts` | src/schema/mod.rs:277-281 | with unique legacy keys the count check never aborts |
| `Handoff.RerunIsNoOp` | src/schema/mod.rs:207-355 | after a handoff the next one succeeds and changes nothing |
| `Quoting.QuotedScansIff` | src/capability/rows.rs:358-364 | scanning a quoted form gives the string and the following text back if and only if that text does not start with the quote |
| `Quoting.LiteralAndIdentScan` | src/capability/rows.rs:358-364 | so do SQL literals and identifiers (sections 4.1.1 and 4.1.2.1 of the PostgreSQL documentation, with standard-conforming strings) |

## Left out

- The SQL parser, the embedded database, the cache library, the channels and the HTTP server: parsed SQL is a datatype, the database a history of commits, the cache a map with arbitrary eviction, a channel a sequence.
- The rejection rules of the classifier (statement kinds, volatile and side-effecting functions, unreplicated tables): single-branch checks before the part modelled here.
- JSON text, row hashes and query fingerprints: values and functions; where a hash must not collide the lemma says so.
- Row-level security policies that read other tables, and per-principal results: a query's result is a function of the rows it can see, so a private query is modelled as a query of its own.
- Columns of one row whose names differ only in case: lookups take the first, as the code does, and keyed results of such rows are not discussed.
- Failed downloads and HTTP caching: a link that cannot be downloaded ends the connection with nothing applied; a browser's own HTTP cache is one more source of the downloaded body, which `EndToEnd.BrowserMirrorsIff` leaves arbitrary.
- Client reconnection without a reset: the new snapshot is inserted without a truncate, so mirror equality is claimed only from an empty collection (first connection, or after a reset).
- Partial-row mode of the driver over whole streams: `Mirror.PatchAtKey` says what one flush does to partial rows and `Mirror.WholeRowsNeedNoMode` that whole rows need no mode; the theorems over streams are for whole rows.
- `awaitTxId` and the flush: ids are recorded when a delta frame arrives, before the flush, so no claim is made that the collection already contains the transaction.
- UTF-8 decoding of chunks and JSON parse errors in the event reader: chunks are text, and payloads parse.
- Migrations.EffectsCommitOnce: assumes that a migration's SQL neither ends its own transaction nor edits the ledger, and that a failed commit did not take effect; concurrent runners are not modelled.
- Migrations.RerunAppliesNothing: assumes distinct apps; two chains share one when a directory under `apps` is named like the world, and then a file of one chain counts as missing for the other.
- `discover_migrations`, `content_hash` and the destructive-statement scan: file names, checksums and acknowledgements are inputs.
- Handoff.LedgerDatabase.HandoffLegacyLedgers: legacy key columns and time stamps are taken to be non-null; a NULL payload is modelled.
- Txid timers: a timeout is a call, and its delay is not modelled.
- Tokens, CORS, HTTP status mapping, configuration, process lifecycle and logging.
