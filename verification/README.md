# Proofs about the point-in-time market data store

A Dafny 4.11 model of the store's hard core: append-only, content-addressed, bitemporal
state that has to survive retries, corrections and crashes. `dafny verify dfyconfig.toml`
checks everything.

## How it is organised

| modules | what they model |
|---|---|
| `Manifests`, `Publication`, `PartitionStore` | a partition directory as a map of files, one step per file operation, each of which may fail; the reader; the publication protocol as a sequence of three stages |
| `Admission`, `Writes`, `RowAdmission`, `RowWrites`, `Economics` | merging by natural key, whole writes, histories of writes cut anywhere, the five writers, revision numbering |
| `Instants`, `Rows`, `Decimals`, `Lexemes` | the five row builders against the five stored-row validators, the canonical decimals both rely on, and the other number forms that slip through |
| `Versions`, `Historical`, `Compilers` | two-stage selection by rank over an arbitrarily ordered map, and the compilers that feed it |
| `ImmutableTables`, `HistoricalTruth`, `HistoricalPublication` | append-only tables with their exclusion constraints, the publishing transaction with its validation, the resolvers over what was published, and histories of index collections |
| `Projections`, `RunLifecycle`, `Collection` | collapse against guarded upserts, run transactions as atomic steps, and the protocol across raw store and database |
| `DailyCycle` | the dependency plan and any sequence of interrupted invocations |
| `RawStore`, `RawManifests` | write-once objects and their directories under crashes, and canonical run manifests |
| `Calendars`, `FeatureCatalog`, `FeatureRegistration`, `Backtests`, `Discovery` | calendar compilation, grid accounting, registration forms and their stored rows, event streams, rank permutations |
| `Samples` | concrete economic and price inputs that reach the failing side of the conditions |
| `Sorting`, `Fields`, `Patterns`, `Text`, `Wrappers` | `sort.Slice` as a specification, string order, joins, the shared patterns, options and results |

Code that updates state is modelled by classes and methods with loops (`PartitionStore.Store`,
`RunLifecycle.Repository`, `DailyCycle.Runner`, `RawStore.FileRawStore`, `Backtests.Repository`,
`Collection.Collector`, `HistoricalTruth.TruthStore`, `FeatureRegistration.ArtifactStore`); each method is proved equal to, or inside,
a specification function, and the main results are lemmas about all runs of those functions.
A crash is a prefix of the file operations of a call. Hashes and codecs are injective functions,
name-based UUIDs (section 5.5 of RFC 9562) are injective in their name. Times are integers, in
nanoseconds where the code keeps nanoseconds. A map walk is a choice the proof does not control.

## Where the code and its promises part

Each item names the exact condition and, where the condition does not show one by itself, an input
that fails.

- A partition becomes unreadable in exactly two ways: the *first* publication is stopped between
  the part rename and the manifest rename, which leaves a part without a manifest
  (internal/normalize/parquet.go:1330-1339), or a row that the reader rejects is committed
  (`Writes.UnreadableIffSpoiled`). When every row offered can be read back only the cut is left
  (`Writes.UnreadableIffCut`, reached in `Writes.FirstWriteCutHappens`). Every other cut leaves the
  old rows or the old rows and the delta, and a retry reaches the same rows.
- Builders accept some instants that readers reject, because zero stands for absent and days round
  toward zero: the five lemmas `Rows.*RowsAreReadable` name them exactly.
  `Samples.EpochBarSpoils` is a price bar published at the Unix epoch: built, committed by a completed write, and refused ever after.
- A refresh by `WriteEconomics` that changes nothing returns an error exactly when the committed
  rows are not in key order (`Economics.NoOpRefresh`); nothing changes on disk. Keys compare as
  texts, so committing observation 50 and then observation 5 is enough
  (`Samples.UnchangedRefreshFails`).
- The revision discipline of `WriteEconomics` survives a write exactly when the rows of one
  observation time inside the batch already rise in revision and change in value in the order they
  land (`Economics.EconomicWriteKeepsDisciplineIff`; for a first write this is a condition on the
  observations, `Economics.FirstWriteKeepsDisciplineIff`). Whatever is committed, it is enough that
  observations of one time share a publication and differ in value under revisions of one length
  (`Economics.SafeBatchKeepsDiscipline`).
  `Samples.TwoPublicationsKeepDisciplineIff` decides it for two publications of one time.
- Two batches quarantined one after the other leave what their concatenation leaves exactly when
  they share one lineage or add nothing (`Writes.BatchesComposeIff`); two new rows of different
  lineage do not (`Writes.MixedBatchesDiffer`).
- The second stage of resolution walks a map. Over rows handed to the select functions in a slice it
  succeeds in some order exactly when nobody disagrees at the top rank
  (`Versions.SomeOrderSucceedsIffTopAgrees`) and in every order exactly when nobody disagrees at any
  equal rank (`Versions.EveryOrderSucceedsIffNoTies`); `Historical.TieBelowTheTop` has memberships
  whose fate depends on the walk. Published rows never tie: after any history of publications every
  resolver succeeds in every order with one answer (`HistoricalTruth.TruthStore`,
  `HistoricalTruth.MembershipsNeverTie` and its three companions).
- Collapsing compares nanoseconds, the upsert guard microseconds. Collapsing refines sequential
  upserts exactly when the two comparisons are compatible
  (`Projections.CollapseRefinesIffCompatible`); whole-microsecond times always are,
  `Projections.NanosecondsMislead` shows that others need not be. The row builders refuse
  sub-microsecond times before anything is written (internal/normalize/parquet.go:1151-1156), so
  such a batch reaches a finalization only when that is called directly.
- Stored membership times are truncated to microseconds; replaying them equals replaying the
  original times at all instants exactly when the originals are whole microseconds
  (`Compilers.RoundingInvisibleIffWhole`).
- A listing correction supersedes its base exactly when it is available no earlier
  (`Compilers.CorrectionDecides`).
- A publication succeeds exactly when it is valid, no identifier would change its content, every new
  row meets its columns and references, and none overlaps or repeats another
  (`HistoricalTruth.PublishedIffAdmitted`); identical replay is always accepted
  (`HistoricalTruth.ReplayIsNoOp`). But later runs of an index can only *extend* what is published:
  a recompiled log goes through exactly when it agrees with the published one, notice by notice, as
  far as both go (`HistoricalPublication.PublishedIffCompatible`), so a notice found late in the
  middle shuts out every later run. Even the very same notices conflict unless the run records the
  same microsecond (`HistoricalPublication.RecollectionIff`); `HistoricalPublication.NoticeCollectedTwice`
  decides both for one notice.
- Compilation and validation take any time zone that loads; the column takes only names of an area
  and a place (`HistoricalTruth.StoredZonesHaveAreas`), which `UTC` is not
  (`HistoricalTruth.UniversalHasNoArea`).
- What validation leaves to the columns of identifiers, listings and memberships is exactly a
  pattern, the width of the revision, and an interval that spans a microsecond
  (`HistoricalTruth.IdentifierFitsIff` and its companions); corporate actions leave the width only.
- An invocation of the daily cycle that is cut while retrying a failed stage leaves a report that
  the loader rejects for ever (`DailyCycle.ReloadableIff`, `DailyCycle.RejectedForever`;
  `DailyCycle.CutRetryRejected` is such a history).
- Puts recover after every crash exactly when no key is the metadata path of another and no key or
  metadata path is a directory on the way to another key (`RawStore.RecoveryIffSeparate`).
  `RawStore.NestedKeysBlock` puts "a" and "a/b" in both orders, `RawStore.SuffixBlocks` a key at a
  metadata path.
- Manifest entries can tie in the compared fields when their time zones differ; the canonical order
  is determined exactly when they do not (`RawManifests.ArrangementUniqueIffNoTies`,
  `RawManifests.ZonesTie`), and entries added through `AddRawManifestEntry` never do.
- The closing validation of a compiled calendar fails for payload hashes of 64 characters that are
  not lowercase hexadecimal (`Calendars.ClosingValidationIff`); `Calendars.SundayClosesIff` compiles
  one Sunday under any single-byte character.
- An accepted feature registration can be stored exactly when no two of its decisions share a
  microsecond and no path has two dots in a row (`FeatureRegistration.StoresIff`). Acceptance
  compares nanoseconds and whole path components, the columns hold microseconds and look for `..`
  anywhere; `FeatureRegistration.SharedMicrosecondIsRefused` and `FeatureRegistration.TwoDotsAreRefused`
  are such registrations. The same column check refuses some valid backtest events
  (`Backtests.AcceptedIffNextAndOpen`).
- `CanonicalDecimal` lets base prefixes, digit separators and binary exponents through; what comes
  out is a decimal exactly when a plain decimal came in (`Lexemes.CanonicalIsDecimalIff`,
  `Lexemes.OtherFormsSlipThrough`).
- Discovery rows are sorted before they are trimmed, so accepting the accepted rows again changes
  them exactly when trimming changes the order of the given identifiers
  (`Discovery.CanonicalIffTrimKeepsOrder`); `Discovery.AcceptedRowsOutOfOrder` has two identifiers,
  one led by a space.

## Model

| member | source | states |
|---|---|---|
| `Manifests.ValidateManifest` | internal/normalize/manifest.go:136-199 | The loop with its running count, seen set and overflow guard accepts exactly the manifests whose envelope is valid, whose parts are content-named under distinct paths, and whose row counts add up without overflow. |
| `Manifests.TotalRowsGrows` | internal/normalize/manifest.go:166-196 | The running count of a prefix never exceeds the total, so the overflow guard trips only when the total itself overflows. |
| `Publication.AbsorbRows` | internal/normalize/parquet.go:1361-1374 | Appending the rows of one part succeeds exactly when no natural key repeats, and then the seen set is the key set. |
| `Publication.GatherDistinct` | internal/normalize/parquet.go:1343-1375 | The part loop returns the rows of all listed parts in order exactly when every part checks out and all keys across parts are distinct. |
| `Publication.ReadPartition` | internal/normalize/parquet.go:1318-1380 | The reading procedure computes the committed rows of a partition, or refuses it, exactly as the specification of a committed reading says. |
| `Publication.GatherCount` | internal/normalize/parquet.go:1343-1378 | The rows gathered from the listed parts are as many as the manifest counts add up to. |
| `Publication.ReadIgnoresTemporaries` | internal/normalize/parquet.go:1318-1380 | Orphan temporary files, whatever they hold, never change what is read. |
| `Publication.NewPartIsFresh` | internal/normalize/parquet.go:1799-1808 | A part already listed never has the name of the part about to be added, because it would already hold the new keys. |
| `Publication.NextManifestValid` | internal/normalize/parquet.go:1799-1822 | The manifest validation inside a publication cannot fail. |
| `Publication.StageOneReads` | internal/normalize/parquet.go:1330-1339 | Between the two renames a reader sees the old rows, or refuses the partition when no manifest existed before. |
| `Publication.StageTwoReads` | internal/normalize/manifest.go:308-350 | After the manifest rename a reader sees the old rows followed by the delta, or refuses the partition when the delta holds a row it rejects. |
| `Publication.StageReads` | internal/normalize/parquet.go:1780-1827 | At every stage of a publication the reader gets the old rows, the old rows plus the delta, or a refusal: between the renames of a first publication, or after committing a row it rejects. |
| `PartitionStore.Store.CreateTemp` | internal/normalize/parquet.go:1845-1851 | Creating a temporary file, successfully or not, changes nothing a reader can see and adds one state to the history. |
| `PartitionStore.Store.WriteTemp` | internal/normalize/parquet.go:1859-1864 | Filling a temporary file may leave it incomplete but stays invisible to readers. |
| `PartitionStore.Store.RenameTemp` | internal/normalize/parquet.go:1889-1901 | A rename puts the whole temporary file in place or changes nothing. |
| `PartitionStore.Store.RemoveTemp` | internal/normalize/parquet.go:1854-1858 | Removing a temporary file is invisible to readers. |
| `PartitionStore.Store.StageTemp` | internal/normalize/parquet.go:1845-1874 | Preparing a complete synced temporary file is invisible to readers at every intermediate state. |
| `PartitionStore.Store.Settle` | internal/normalize/parquet.go:1889-1901 | The prepared file is renamed into place or removed; every state in between looks like one or the other. |
| `PartitionStore.Store.WritePart` | internal/normalize/parquet.go:1844-1902 | Every state the disk passes through while a part is written is stage 0 or 1, and success means stage 1 with the part returned. |
| `PartitionStore.Store.ReusePart` | internal/normalize/parquet.go:1877-1888 | An identical part left by an earlier attempt is accepted, a different one refused, with no visible change. |
| `PartitionStore.Store.PlacePart` | internal/normalize/parquet.go:1876-1901 | Placing the part moves the disk from stage 0 to stage 1 and nowhere else. |
| `PartitionStore.Store.WriteManifest` | internal/normalize/manifest.go:308-350 | Writing a manifest moves the disk from stage 1 to stage 2, or leaves it at stage 1. |
| `PartitionStore.Store.Commit` | internal/normalize/parquet.go:1795-1826 | The two renames with the re-read and validation between them pass only through stages 0, 1, 2 in that order, and validation never fails. |
| `PartitionStore.Store.Publish` | internal/normalize/parquet.go:1780-1827 | Whatever operation fails, every state of the disk is a stage of appending exactly the rows whose keys are not committed, and stages never go back. |
| `PartitionStore.ComputeDelta` | internal/normalize/parquet.go:1782-1794 | The filtering loop keeps exactly the rows whose key is not committed, in order. |
| `PartitionStore.ReusedPart` | internal/normalize/parquet.go:1877-1888 | An identical part already in place is as good as the rename. |
| `Admission.AdmitPartitions` | internal/normalize/parquet.go:346-358 | Every incoming row is exactly one of admitted, conflicting, redundant. |
| `Admission.AdmitAppend` | internal/normalize/parquet.go:346-358 | Admitting a batch and then another is admitting their concatenation. |
| `Admission.AcceptedFromInput` | internal/normalize/parquet.go:1257-1277 | Accepted rows come from the input, and every incoming key ends up known. |
| `Admission.AcceptedRows` | internal/normalize/parquet.go:1257-1277 | Committed rows followed by the accepted rows have distinct natural keys, and the index of known rows is the index of those. |
| `Admission.NoConflictMeansSame` | internal/normalize/parquet.go:1257-1277 | An admission without conflicts compared every repeated key equal to the row that holds it. |
| `Admission.NothingNew` | internal/normalize/parquet.go:1257-1277 | When every key is already known with a matching value nothing is admitted and no conflict is raised. |
| `Admission.SortForgetsMapOrder` | internal/normalize/parquet.go:1270-1276 | Sorting the values of a map by natural key gives one sequence, whatever order the map was walked in. |
| `Admission.DeltaIsAccepted` | internal/normalize/parquet.go:1782-1791 | Filtering the sorted union by the committed keys leaves exactly the accepted rows, each once. |
| `Admission.AdmitRows` | internal/normalize/parquet.go:1257-1277 | The map loops compute the admission and its sorted union in whatever order the map values come out. |
| `Admission.MapValues` | internal/normalize/parquet.go:1270-1276 | Walking a map visits each entry once, in an order the program cannot choose. |
| `Writes.StrictWholeWrite` | internal/normalize/parquet.go:342-382 | An uncut strict write of one lineage is all or nothing: with a conflict the reading is unchanged, without one the directory is the one quarantine mode leaves, and the partition then holds every row offered, or one that counts as the same, exactly when there was no conflict. |
| `Writes.PlanAppends` | internal/normalize/parquet.go:1782-1794 | What a planned write appends is the accepted rows, each once, all under new keys, under a lineage that fits the partition. |
| `Writes.WriteRows` | internal/normalize/parquet.go:310-382 | A whole write over a real directory, with any file operation failing, leaves the stages of the planned publication or, on a planning error, the directory untouched, whether or not the reader will accept the rows. |
| `Writes.AttemptReads` | internal/normalize/parquet.go:1780-1827 | One attempt, cut anywhere, leaves the old reading, the extended reading, or a refusal exactly when it was a first write cut between the renames or committed a row the reader rejects; parts stay true to their names. |
| `Writes.UnreadableIffSpoiled` | internal/normalize/parquet.go:1330-1380 | Over any history of attempts a partition is unreadable exactly when some attempt was a first publication stopped between its two renames or committed a row that the reader rejects. |
| `Writes.UnreadableIffCut` | internal/normalize/parquet.go:1330-1339 | When every row offered can be read back, a partition is unreadable exactly when some attempt was a first publication stopped between its two renames. |
| `Writes.OneRowReads` | internal/normalize/parquet.go:1780-1827 | One row written to an empty partition reads back as nothing, as itself, or as a refusal, by how far the write got and whether the reader accepts the row. |
| `Writes.FirstWriteCutHappens` | internal/normalize/parquet.go:1330-1339 | That gap is reachable: any row a builder can give, written to an empty partition and stopped between the renames, leaves it refused. |
| `Writes.CommittedHistory` | internal/normalize/parquet.go:1780-1827 | Committed rows never change or disappear: every later reading extends every earlier one with keys still distinct, and an unreadable partition never changes again. |
| `Writes.StagesAreAttempts` | internal/normalize/parquet.go:1780-1827 | The stages a real write passes through are the directories the history lemmas speak of. |
| `Writes.RetryReaches` | internal/normalize/parquet.go:1877-1888 | Repeating an attempt that was cut anywhere but in the first-write gap reaches the rows the uncut attempt would have reached. |
| `Writes.WholeWriteReads` | internal/normalize/parquet.go:310-382 | An uncut quarantining write of one lineage commits the old rows and the accepted ones, and the reading succeeds exactly when the reader accepts those. |
| `Writes.BatchesComposeIff` | internal/normalize/parquet.go:310-382 | Quarantining A and then B leaves the rows that quarantining A followed by B in one call leaves, exactly when the two share one lineage or the split calls append nothing; empty batches included. |
| `Writes.MixedBatchesDiffer` | internal/normalize/parquet.go:1301-1317 | Two rows of different lineage offered to an empty partition are taken one after the other and refused in one call. |
| `Writes.RepeatAddsNothing` | internal/normalize/parquet.go:1257-1277 | Writing committed rows again admits none of them. |
| `Decimals.CanonicalPreservesValue` | internal/model/model.go:39-67 | A canonical decimal is a valid lexeme of the same rational value, and a negative value is refused when asked. |
| `Decimals.CanonicalIdempotent` | internal/normalize/parquet.go:1751-1760 | Canonical decimals are fixed points, which is what the stored-row check demands. |
| `Decimals.CanonicalUnique` | internal/model/model.go:39-67 | Two valid lexemes have one canonical form exactly when they have one value. |
| `Decimals.CanonicalizeRenders` | internal/model/model.go:39-67 | The trimming steps spell the normal form of the parsed lexeme. |
| `Lexemes.PlainAgrees` | internal/model/model.go:39-67 | On plain decimals the function on all texts is the one the rest of the model uses. |
| `Lexemes.CanonicalIsDecimalIff` | internal/model/model.go:39-67 | Whatever text is accepted, the result is a decimal exactly when the text was a plain decimal, and then of the same value. |
| `Lexemes.OtherFormsSlipThrough` | internal/model/model.go:39-67 | A hexadecimal and a separated number are accepted and come out as no decimals. |
| `Instants.MicrosRoundTrip` | internal/normalize/parquet.go:1151-1156 | Whole-microsecond instants survive storage, and only the epoch is stored as zero. |
| `Instants.DaysIsUtcDay` | internal/normalize/parquet.go:1157 | The day of an instant is its UTC day exactly when it is not before 1970 off a day boundary. |
| `Rows.PriceRowsAreReadable` | internal/normalize/parquet.go:612-677 | An accepted bar becomes a row that the reader accepts exactly when it was not published at the Unix epoch. |
| `Rows.FundamentalRowsAreReadable` | internal/normalize/parquet.go:678-728 | An accepted fundamental becomes a row that the reader accepts exactly when its period does not end before 1970 off a day boundary. |
| `Rows.EconomicRowsAreReadable` | internal/normalize/parquet.go:809-853 | An accepted economic observation becomes a row that the reader accepts exactly when its vintage is not the Unix epoch. |
| `Rows.FXRowsAreReadable` | internal/normalize/parquet.go:854-913 | An accepted bulletin becomes a row that the reader accepts exactly when its fixing is not the Unix epoch. |
| `Rows.FilingRowsAreReadable` | internal/normalize/parquet.go:729-808 | An accepted filing becomes a row that the reader accepts exactly when none of its four optional dates is the Unix epoch. |
| `Rows.TemporalSurvives` | internal/normalize/parquet.go:1767-1778 | The temporal fields of an accepted row pass the reader's temporal rules after storage. |
| `RowAdmission.PriceAdmissible` | internal/normalize/parquet.go:1530-1568 | A built price row is admissible to its partition exactly when the observation was not published at the epoch. |
| `RowAdmission.FundamentalAdmissible` | internal/normalize/parquet.go:1578-1623 | A built fundamental row is admissible exactly when its period end survives. |
| `RowAdmission.EconomicAdmissible` | internal/normalize/parquet.go:1624-1650 | A built economic row is admissible exactly when its vintage is not the epoch. |
| `RowAdmission.FXAdmissible` | internal/normalize/parquet.go:1651-1678 | A built bulletin row is admissible exactly when its fixing is not the epoch. |
| `RowAdmission.FilingAdmissible` | internal/normalize/parquet.go:1679-1723 | A built filing row is admissible exactly when none of its optional dates is the epoch. |
| `RowAdmission.BuildRows` | internal/normalize/parquet.go:324-331 | The building loop builds the whole batch in order or gives up exactly when it holds a bad observation. |
| `RowAdmission.PriceWritable` | internal/normalize/parquet.go:612-677 | Every built price row, readable or not, needs no repair and has a lineage that fits its partition. |
| `RowAdmission.FundamentalWritable` | internal/normalize/parquet.go:678-728 | The same of every built fundamental row. |
| `RowAdmission.EconomicWritable` | internal/normalize/parquet.go:809-853 | The same of every built economic row. |
| `RowAdmission.FXWritable` | internal/normalize/parquet.go:854-913 | The same of every built bulletin row. |
| `RowAdmission.FilingWritable` | internal/normalize/parquet.go:729-808 | The same of every built filing row. |
| `RowAdmission.WritePrices` | internal/normalize/parquet.go:310-382 | A price write, strict or quarantining, reports exactly bad identities and bad observations before touching the disk, and otherwise leaves the stages of the planned publication. |
| `RowWrites.WriteFundamentals` | internal/normalize/parquet.go:383-426 | A batch that does not fit the issuer or holds a bad observation changes nothing; any other leaves the stages of the strict publication of its rows. |
| `RowWrites.WriteFilings` | internal/normalize/parquet.go:433-483 | The same for filings, in the partition of the first filing's source; an empty batch does nothing. |
| `RowWrites.WriteFX` | internal/normalize/parquet.go:561-610 | The same for bulletins of the one supported currency pair. |
| `Economics.KeyFields` | internal/normalize/parquet.go:1164-1166 | Inside one series the natural key is the observation time, publication time and revision. |
| `Economics.LatestEconomic` | internal/normalize/parquet.go:1176-1186 | The loop finds the highest revision of the observation, the first one when tied. |
| `Economics.LatestIsHighest` | internal/normalize/parquet.go:1176-1186 | The row found is of the asked observation time and no committed row of that time has a higher revision; none is found exactly when there is none. |
| `Economics.LatestIsLast` | internal/normalize/parquet.go:1176-1186 | Under the discipline the latest revision is the one written last. |
| `Economics.KeyOrder` | internal/normalize/parquet.go:1164-1166 | Rows of one time land in the order of their publication times and then revisions, compared as texts. |
| `Economics.LandedIffOrderly` | internal/normalize/parquet.go:1270-1276 | For rows in the order they land, rising revisions and differing neighbours are the condition on the batch: a row that lands later has a higher revision, and rows with nothing between them differ in value. |
| `Economics.DisciplineKeptIff` | internal/normalize/parquet.go:484-556 | Appending rows that improve on the committed ones keeps the discipline exactly when the appended rows obey it themselves. |
| `Economics.NoOpRefresh` | internal/normalize/parquet.go:541-547 | A refresh that changes nothing returns an error exactly when the committed rows are not already in key order. |
| `Economics.EconomicWriteKeepsDisciplineIff` | internal/normalize/parquet.go:484-556 | After a write to a series other than ALFRED revisions per time strictly rise in write order and neighbouring revisions differ in value exactly when the revised batch does so in the order it lands; either way every revision reported to the caller names a committed row with its value. |
| `Economics.OnePerTimeOrderly` | internal/normalize/parquet.go:513-536 | A batch with one observation per time always meets the condition. |
| `Economics.FirstWriteKeepsDisciplineIff` | internal/normalize/parquet.go:484-556 | A first write obeys the discipline exactly when the rows its observations build are orderly. |
| `Economics.SafeBatchKeepsDiscipline` | internal/normalize/parquet.go:484-556 | A batch whose observations of one time share their publication, and are one revision or differ in value under revisions of one length, keeps the discipline whatever is committed. |
| `Samples.TwoPublicationsKeepDisciplineIff` | internal/normalize/parquet.go:513-536 | Two publications of one time, first written in one batch: the discipline holds afterwards exactly when the second carries a higher revision and another value. |
| `Samples.UnchangedRefreshFails` | internal/normalize/parquet.go:541-547 | Two accepted refreshes commit observation 50 and then observation 5, and refreshing observation 5 unchanged fails. |
| `Samples.EpochBarSpoils` | internal/normalize/parquet.go:1530-1568 | A bar written to an empty partition without a cut is read back exactly when it was not published at the epoch; otherwise the partition is refused. |
| `Economics.DisciplineOverHistory` | internal/normalize/parquet.go:484-556 | The discipline holds over any history of refreshes that meet the condition, completed or cut short. |
| `Economics.WriteEconomics` | internal/normalize/parquet.go:484-556 | The write leaves the stages of publishing the revised rows and stamps the effective revisions into the caller's array only on success. |
| `Economics.StampRevisions` | internal/normalize/parquet.go:552-554 | The in-place loop changes the revision of each observation and nothing else. |
| `Economics.PrepareBatch` | internal/normalize/parquet.go:511-536 | The building and revising loop computes the revised batch or the first error. |
| `Versions.WalkHolds` | internal/metadata/historical.go:1016-1059 | A walk that does not fail ends with the rank-and-identifier maximum of every group, and nobody of equal rank disagrees with it. |
| `Versions.WalkFailsOnTie` | internal/metadata/historical.go:1016-1059 | A walk fails only on two equal-ranked records of a group that disagree. |
| `Versions.OrderIrrelevant` | internal/metadata/historical.go:1038-1058 | Any two orders in which the walk succeeds leave the same winners. |
| `Versions.SuccessMeansTopAgrees` | internal/metadata/historical.go:1016-1059 | Success in any order means that nobody disagrees at the top rank, so top-rank disagreement fails every order. |
| `Versions.NoTiesAlwaysSucceeds` | internal/metadata/historical.go:1016-1059 | Without equal-ranked disagreement every order succeeds. |
| `Versions.DescendingSucceedsIffTopAgrees` | internal/metadata/historical.go:280-312 | When the records of each group come in falling rank, whatever the order of the groups, the first stage succeeds exactly when the top ranks agree. |
| `Versions.TieFailsSomeOrder` | internal/metadata/historical.go:1038-1058 | An equal-ranked disagreement below the top, visited first, fails the walk. |
| `Versions.EveryOrderSucceedsIffNoTies` | internal/metadata/historical.go:1038-1058 | A walk over distinct identifiers succeeds in every order exactly when no two records of a group disagree at equal rank. |
| `Versions.SomeOrderSucceedsIffTopAgrees` | internal/metadata/historical.go:1038-1058 | It succeeds in some order exactly when nobody disagrees at the top rank of a group. |
| `Historical.TieBelowTheTop` | internal/metadata/historical.go:1203-1221 | Two concrete memberships that tie and disagree fail the walk, or not, by whether it meets a third one that outranks them first. |
| `Versions.Collect` | internal/metadata/historical.go:1017-1037 | The first-stage loop is the walk over the records in the order given. |
| `Versions.CollectValues` | internal/metadata/historical.go:1038-1058 | The second-stage loop over a map is the walk over the eligible values in some order with distinct identifiers. |
| `Historical.ResolutionsAgree` | internal/metadata/historical.go:1016-1059 | Two successful resolutions of the same records agree, whatever orders their map walks took. |
| `Historical.WalkResolves` | internal/metadata/historical.go:1038-1058 | A successful second walk over the candidates selects, in every group, the candidate that beats all others. |
| `Historical.FailedWalkTies` | internal/metadata/historical.go:1048-1051 | A failed second walk met two candidates that tie and disagree. |
| `Historical.Resolve` | internal/metadata/historical.go:1016-1059 | Two-stage resolution succeeds whenever neither stage has an equal-ranked disagreement, and what it returns is the selected candidate of every group. |
| `Historical.SelectIdentifierRevision` | internal/metadata/historical.go:1016-1059 | The identifier returned is the valid latest version that beats every other, absent exactly when no version is valid. |
| `Historical.SelectListingRevision` | internal/metadata/historical.go:1098-1138 | The listing returned is the valid latest version that beats every other, absent exactly when no version is valid. |
| `Historical.SelectUniverseRevisions` | internal/metadata/historical.go:1183-1229 | The members returned are exactly the securities whose selected version says member, ascending and without repetition; in query order the call fails only when top ranks disagree or candidates tie. |
| `Historical.UniverseQueryRanks` | internal/metadata/historical.go:304-312 | The order of the universe query, security first and rank below it, ranks every family downward. |
| `Historical.SelectCorporateActionRevisions` | internal/metadata/historical.go:1280-1311 | The actions returned are the latest versions of their families that are not cancelled, in the order of the final sort; in query order the call succeeds exactly when top ranks agree. |
| `Compilers.ArrangementIrrelevant` | cmd/collector/main.go:2024-2029 | However the sort breaks ties, an arrangement is acceptable exactly when the canonical one is, and is then that one. |
| `Compilers.MapSecurities` | cmd/collector/main.go:1991-2004 | The mapping loop succeeds exactly when no requested ticker has two securities. |
| `Compilers.GroupEvidence` | cmd/collector/main.go:2005-2013 | Events are grouped by requested ticker in order and all others counted as ignored. |
| `Compilers.CompileTicker` | cmd/collector/main.go:2020-2095 | The rows of a ticker are produced exactly when its log starts with an addition, alternates, and moves forward in both times with complete evidence. |
| `Compilers.CompileRequested` | cmd/collector/main.go:2015-2023 | A requested ticker compiles exactly when it has a security, an event and an acceptable log. |
| `Compilers.MembershipHistoricalTruthBatch` | cmd/collector/main.go:1990-2098 | Compilation succeeds exactly on acceptable evidence and yields the identifier, listing and membership rows of every ticker in order. |
| `Compilers.RowsRise` | cmd/collector/main.go:2067-2095 | Inside one log later rows outrank earlier ones and start no earlier, even after rounding. |
| `Compilers.VisibleIdsDistinct` | cmd/collector/main.go:2081-2084 | Compiled rows have distinct identifiers. |
| `Compilers.LastKnownSelected` | internal/metadata/historical.go:1183-1229 | The last event known at the two instants is the version the resolver selects. |
| `Compilers.VisibleRowsNeverTie` | internal/metadata/historical.go:1183-1229 | Compiled rows never tie in rank within a security, so no order of the map walk can make resolution fail. |
| `Compilers.ResolutionIsReplay` | cmd/collector/main.go:1990-2098 | For every accepted log, row order, market time and decision time, resolution succeeds and gives exactly the securities whose stored events, replayed in order from what was effective and available, end as members. |
| `Compilers.RoundingInvisibleIffWhole` | cmd/collector/main.go:195-197 | Replaying stored and exact times agrees at all pairs of instants exactly when every event time is a whole microsecond. |
| `Compilers.CorrectionDecides` | cmd/collector/main.go:2227-2244 | A listing correction supersedes its open-ended base exactly when it is not available before it. |
| `ImmutableTables.InsertRows` | internal/metadata/historical.go:836-947 | The loop over one list of a batch inserts all its rows or none, by identifier, content, columns, references and the constraint of the table. |
| `ImmutableTables.InsertsIffAdmitted` | internal/metadata/historical.go:935-949 | A list is inserted exactly when no identifier would change its content and every new row fits and clashes with no stored or other new row; then rows are only added. |
| `ImmutableTables.InsertsKeepSettled` | migrations/000006_historical_truth.up.sql:29-36 | No sequence of insertions ever leaves two rows that the constraint of their table keeps apart. |
| `ImmutableTables.Select` | internal/metadata/historical.go:280-367 | A query returns each matching row once, in whatever order the database finds them. |
| `HistoricalTruth.CheckActions` | internal/metadata/historical.go:763-773 | The loop accepts exactly valid actions under distinct source events and revisions. |
| `HistoricalTruth.ValidateTruth` | internal/metadata/historical.go:747-814 | The validation accepts exactly the batches whose six lists are valid, with distinct action and calendar keys and all sessions accounted for. |
| `HistoricalTruth.IdentifierFitsIff` | migrations/000006_historical_truth.up.sql:3-37 | A valid identifier meets its columns exactly when its type matches the pattern, its revision fits an integer and its interval spans a microsecond. |
| `HistoricalTruth.ListingFitsIff` | migrations/000006_historical_truth.up.sql:48-81 | A valid listing meets its columns exactly when market and currency match their patterns, its revision fits and its interval spans a microsecond. |
| `HistoricalTruth.MembershipFitsIff` | migrations/000006_historical_truth.up.sql:90-122 | A valid membership meets its columns exactly when its universe matches the pattern, its revision fits and its interval spans a microsecond. |
| `HistoricalTruth.ActionFitsIff` | migrations/000007_corporate_actions.up.sql:3-112 | A valid corporate action meets its columns exactly when its revision fits. |
| `HistoricalTruth.PublishedIffAdmitted` | internal/metadata/historical.go:822-933 | A batch is published exactly when it is valid and, table by table, no identifier would change its content, every new row meets columns and references, and no new row overlaps or repeats another; then rows are only added. |
| `HistoricalTruth.ManifestComesAlong` | migrations/000006_historical_truth.up.sql:179-183 | A valid batch brings the manifest of every session along, so that reference never fails. |
| `HistoricalTruth.StoredZonesHaveAreas` | migrations/000006_historical_truth.up.sql:128-130 | Every published calendar has a zone named area and place, which validation does not ask for. |
| `HistoricalTruth.UniversalHasNoArea` | internal/metadata/historical.go:517-519 | The universal zone loads and is not named so. |
| `HistoricalTruth.HistoriesSettle` | migrations/000006_historical_truth.up.sql:29-36 | After any history of publications, accepted or refused, no table holds two rows that its constraint keeps apart. |
| `HistoricalTruth.TruthStore.PublishHistoricalTruth` | internal/metadata/historical.go:825-933 | One transaction over six tables, cut anywhere: the whole batch or nothing. |
| `HistoricalTruth.IdentifiersNeverTie` | internal/metadata/historical.go:1016-1059 | Rows an identifier query returns after any history never tie, in the first stage or the second. |
| `HistoricalTruth.ListingsNeverTie` | internal/metadata/historical.go:1098-1138 | The same for listings. |
| `HistoricalTruth.MembershipsNeverTie` | internal/metadata/historical.go:1183-1229 | The same for memberships, security by security. |
| `HistoricalTruth.ActionsNeverTie` | migrations/000007_corporate_actions.up.sql:65-67 | The same for the versions of a corporate action. |
| `HistoricalTruth.TruthStore.ResolveSecurityIdentifier` | internal/metadata/historical.go:993-1014 | Over published rows the resolver never fails, and however the query lists them it names the latest valid version that beats all others, or none exactly when none is valid. |
| `HistoricalTruth.TruthStore.ResolveSecurityListing` | internal/metadata/historical.go:1075-1096 | The same for listings. |
| `HistoricalTruth.TruthStore.ResolveUniverse` | internal/metadata/historical.go:1160-1181 | The universe of published memberships is always resolved, ascending, and is the same for every order of rows and walks. |
| `HistoricalTruth.TruthStore.ResolveCorporateActions` | internal/metadata/historical.go:1245-1278 | The uncancelled latest versions are always resolved, in the order of the final sort. |
| `HistoricalTruth.PublishedCorrectionDecides` | cmd/collector/main.go:2201-2256 | Among published rows a correction stands for its family exactly when it is listed and available no earlier than its base; a base without a listed correction stands for itself. |
| `HistoricalPublication.PublishedIffCompatible` | cmd/collector/main.go:1990-2088 | Over what earlier runs of an index published, a request is published exactly when it is valid, its new rows fit, and every log agrees with the published log of its ticker, notice by notice, as far as both go. |
| `HistoricalPublication.EnteredBooked` | cmd/collector/main.go:2039-2086 | After a publication the three tables hold exactly the rows of the longest logs. |
| `HistoricalPublication.BookIsLongest` | cmd/collector/main.go:1990-2088 | After any history of runs the rows of a ticker are those of the longest log ever published for it, and every published log agrees with it. |
| `HistoricalPublication.UniverseReplaysLongestLogs` | internal/metadata/historical.go:1160-1229 | After any history of runs, published or refused, the stored memberships resolve without failure, at every pair of instants, to the securities whose longest published log, replayed, ends inside the index. |
| `HistoricalTruth.ReplayIsNoOp` | internal/metadata/historical.go:822-949 | Publishing a published batch again, however much was published since, succeeds and changes nothing. |
| `HistoricalPublication.RecollectionIff` | internal/metadata/historical.go:369-399 | A later run that compiles the very same notices can publish them again exactly when it records the same microsecond, because the hashes of all three kinds of rows cover the recording time and the identifiers do not. |
| `HistoricalPublication.NoticeCollectedTwice` | internal/metadata/historical.go:369-399 | One notice is published; a second run that knows one notice about the same security is published exactly when it is the same notice recorded in the same microsecond, so another effective date is refused under identifiers of its own. |
| `Projections.UpsertsKeepBest` | internal/metadata/postgres.go:274-303 | After any batch the row at a key is the best of the prior row and the batch, the prior one winning ties. |
| `Projections.RankOnlyRises` | internal/metadata/postgres.go:293-303 | A guarded batch never lowers the rank stored at a key. |
| `Projections.Latest` | internal/metadata/postgres.go:702-714 | The map loop holds, for every key, the candidate that survives the in-memory comparison, in first-seen key order. |
| `Projections.Collapse` | internal/metadata/postgres.go:697-721 | The collapsed batch is the surviving candidate of every key in first-seen order. |
| `Projections.CollapseRefinesIffCompatible` | internal/metadata/postgres.go:659-751 | Collapsing refines sequential upserts for every prior table and every batch from a pool exactly when the two comparisons rank same-keyed candidates alike or store them alike. |
| `Projections.ProjectionsAreLawful` | internal/metadata/postgres.go:293-347 | Both upsert guards are strict orders in which tied rows are interchangeable. |
| `Projections.PriceOrdersAgree` | internal/metadata/postgres.go:659-670 | On whole-microsecond times the in-memory price order is the order of the upsert guard. |
| `Projections.MacroOrdersAgree` | internal/metadata/postgres.go:677-691 | On whole-microsecond times the in-memory macro order is the order of the upsert guard. |
| `Projections.PriceCollapseRefines` | internal/metadata/postgres.go:697-721 | With whole-microsecond times collapsing prices leaves the table that upserting every candidate would. |
| `Projections.MacroCollapseRefines` | internal/metadata/postgres.go:727-751 | With whole-microsecond times collapsing macro observations leaves the table that upserting every candidate would. |
| `Projections.NanosecondsMislead` | internal/metadata/postgres.go:659-670 | Two bars one nanosecond apart show that the general claim is false. |
| `RunLifecycle.Repository.CloseActive` | internal/metadata/postgres.go:349-361 | The closing update affects one row exactly when that run is active for that data source. |
| `RunLifecycle.Repository.UpsertPrices` | internal/metadata/postgres.go:829-854 | The loop leaves the prior table with every collapsed price upserted. |
| `RunLifecycle.Repository.UpsertMacros` | internal/metadata/postgres.go:856-888 | The loop leaves the prior table with every collapsed observation upserted. |
| `RunLifecycle.Repository.FindByKey` | internal/metadata/postgres.go:547 | The second query finds the run of a taken key and nothing otherwise. |
| `RunLifecycle.Repository.StartRun` | internal/metadata/postgres.go:521-567 | The start transaction does exactly what the start step says, for every fault. |
| `RunLifecycle.Repository.FinalizeRun` | internal/metadata/postgres.go:814-899 | The finalization does exactly what the finalize step says: lineage first, everything or nothing, and only for an active run. |
| `RunLifecycle.Repository.CancelRun` | internal/metadata/postgres.go:945-971 | The cancellation does exactly what the cancel step says. |
| `RunLifecycle.Classify` | internal/metadata/postgres.go:639-653 | A closed run never gets an active status; success needs no error and no rejection; cancelled means a cancelled context. |
| `RunLifecycle.StartsWorkAtMostOnce` | internal/metadata/postgres.go:521-567 | Over any interleaving each source and key starts work at most once. |
| `RunLifecycle.RunsAreKept` | internal/metadata/postgres.go:349-368 | Rows never disappear and a terminal row is never altered again. |
| `RunLifecycle.ClosesAtMostOnce` | internal/metadata/postgres.go:349-368 | A run leaves the active states at most once. |
| `RunLifecycle.TerminalWasClosed` | internal/metadata/postgres.go:349-368 | A terminal run was closed by one earlier finalization or cancellation of that run. |
| `RunLifecycle.ProjectedRowsWereFinalized` | internal/metadata/postgres.go:814-899 | Every projected row belongs to a run of its data source closed by a finalization and by no cancellation. |
| `RunLifecycle.ProjectionsOnlyRise` | internal/metadata/postgres.go:262-347 | Between any two points of a history a projected row is kept or replaced by one of higher rank. |
| `RunLifecycle.FinalizationUpsertsEverything` | internal/metadata/postgres.go:788-899 | With whole-microsecond times a committed finalization leaves what upserting every candidate in turn would. |
| `RunLifecycle.KeysStayUnique` | internal/metadata/postgres.go:370-376 | No two runs ever share a data source and key. |
| `Collection.Collector.StorePayload` | cmd/collector/main.go:3142-3156 | Storing a payload puts it, records the returned metadata in the manifest, and then compares hashes; each failure leaves exactly what was done before it. |
| `Collection.Collector.FinishRun` | cmd/collector/main.go:3235-3261 | The manifest is published first and the run is finalized only if that succeeded. |
| `Collection.StoreRawKeepsBacked` | cmd/collector/main.go:3142-3156 | However far a payload gets, every entry of the manifest stays backed by a matching stored object. |
| `Collection.ClosedRunLoads` | cmd/collector/main.go:3235-3261 | The hash in a run closed by its collector is the hash of a manifest that loads with every object intact, then and at every later state of the store. |
| `Collection.StoppedBetweenLeavesRunOpen` | cmd/collector/main.go:3250-3258 | The database changes only after the manifest was published, and then the run is closed. |
| `DailyCycle.BuildPlan` | scripts/daily_cycle.py:357-458 | The extending loop builds the fixed head, four stages per account, and the fixed tail. |
| `DailyCycle.PlanNamesUnique` | scripts/daily_cycle.py:357-458 | For any number of distinct accounts the stage names are unique. |
| `DailyCycle.PlanOrdered` | scripts/daily_cycle.py:357-458 | Every dependency names an earlier stage. |
| `DailyCycle.Runner.WriteReport` | scripts/daily_cycle.py:571-591 | A write replaces the whole file or never happens. |
| `DailyCycle.Runner.Execute` | scripts/daily_cycle.py:672-692 | A stage is marked running on disk, run, and its result written, with a cut possible at both writes. |
| `DailyCycle.Runner.RunStage` | scripts/daily_cycle.py:656-692 | One turn of the loop resumes, skips or runs the stage by what the dependency names map to. |
| `DailyCycle.Runner.OpenReport` | scripts/daily_cycle.py:623-650 | An existing report is taken as it is and a missing one is created and written. |
| `DailyCycle.Runner.RunStages` | scripts/daily_cycle.py:655-693 | The loop processes the stages in plan order until it is cut. |
| `DailyCycle.Runner.RunCycle` | scripts/daily_cycle.py:608-700 | A whole invocation leaves the file and outcome of the specified invocation for every cut. |
| `DailyCycle.RunsOnlyAfterDependencies` | scripts/daily_cycle.py:658-692 | Over any sequence of interrupted invocations a command starts only after each dependency was recorded as passed before or succeeded just now. |
| `DailyCycle.PassedNeverRunsAgain` | scripts/daily_cycle.py:658-661 | A stage recorded as passed on disk stays recorded and is never run again. |
| `DailyCycle.SkippedIffDependencyFailed` | scripts/daily_cycle.py:662-671 | After an uncut invocation a stage is skipped exactly when a direct or indirect dependency failed. |
| `DailyCycle.ReloadableIff` | scripts/daily_cycle.py:491-568 | A loadable file can be loaded after the next invocation exactly when that invocation was not cut while running a stage that had failed before. |
| `DailyCycle.CutRetryRejected` | scripts/daily_cycle.py:491-568 | A stage fails in a complete invocation, the next is cut while running it again: the file is rejected, whatever the command would have given. |
| `DailyCycle.RejectedForever` | scripts/daily_cycle.py:491-568 | Once rejected, the file never changes and every later invocation is rejected. |
| `DailyCycle.CleanInvocationPasses` | scripts/daily_cycle.py:695-700 | Left alone, with every command succeeding, an invocation passes the cycle from any resumable file. |
| `RawStore.Sha256Injective` | internal/storage/raw.go:566-577 | The stand-in for the content hash is injective. |
| `RawStore.FileRawStore.Put` | internal/storage/raw.go:397-468 | Put leaves exactly the directories and renames it completed, and replies as the directories on the way and its inspection of both paths decide. |
| `RawStore.FileRawStore.MakeFolders` | internal/storage/raw.go:402-404 | The missing directories come into being from the top, one by one, until it dies. |
| `RawStore.FileRawStore.IsBlocked` | internal/storage/raw.go:402-404 | Making directories fails exactly when a file stands where one is needed. |
| `RawStore.PutEffect` | internal/storage/raw.go:397-468 | However far it gets, a Put keeps every file as it was, and what is new is a directory on the way, the object, or its metadata over an object that matches it. |
| `RawStore.StoredFilesNeverChange` | internal/storage/raw.go:397-468 | Whatever keys are used and wherever processes die, a stored file is never altered or removed. |
| `RawStore.HistoriesStaySound` | internal/storage/raw.go:397-468 | Metadata present implies matching data present and no key is blocked or a directory, when keys, metadata paths and directories never meet. |
| `RawStore.PutRecovers` | internal/storage/raw.go:439-467 | A Put that runs to its end over a fresh key or the same bytes succeeds, and Get then returns the bytes. |
| `RawStore.PutConflicts` | internal/storage/raw.go:426-446 | A Put of other bytes over stored ones fails and changes nothing. |
| `RawStore.GetReturnsFirstBytes` | internal/storage/raw.go:470-496 | Get returns the bytes of the put that first took the key. |
| `RawStore.TakenOnce` | internal/storage/raw.go:397-468 | Only one put ever takes a key. |
| `RawStore.RecoveryIffSeparate` | internal/storage/raw.go:397-468 | Interrupted and repeated Puts over a set of keys always recover exactly when no key is another key's metadata path and no key or metadata path is a directory on the way to another key. |
| `RawStore.SuffixBlocks` | internal/storage/raw.go:426-438 | An object stored at a key's metadata path makes that key unusable. |
| `RawStore.PathBlocks` | internal/storage/raw.go:402-453 | One completed Put to a key's metadata path, or below the key or its metadata path, makes every Put to the key fail. |
| `RawStore.FileBlocksBelow` | internal/storage/raw.go:402-404 | Once a file stands at a key, every Put below it fails. |
| `RawStore.NestedKeysBlock` | internal/storage/raw.go:402-446 | "a" and "a/b" are valid keys that do not recover: whichever is put first, the other fails. |
| `RawManifests.CanonicalRawManifest` | internal/storage/raw.go:207-242 | Canonicalization accepts exactly valid manifests and returns a sorted arrangement of the same entries. |
| `RawManifests.ArrangementUniqueIffNoTies` | internal/storage/raw.go:222-237 | The canonical order is determined exactly when no two entries tie in the compared fields. |
| `RawManifests.ZonesTie` | internal/storage/raw.go:222-237 | One valid entry written in two zones ties with itself, and both orders are arrangements. |
| `RawManifests.UtcNeverTies` | internal/storage/raw.go:71-89 | Entries appended through AddRawManifestEntry never tie. |
| `RawManifests.PermutationInvariant` | internal/storage/raw.go:102-112 | Permuting the entries never changes the canonical manifest. |
| `RawManifests.CanonicalIdempotent` | internal/storage/raw.go:207-242 | Canonicalization is idempotent. |
| `RawManifests.SameBytesIffSameEntries` | internal/storage/raw.go:102-123 | Two manifests serialize to the same bytes exactly when they list the same entries in whatever order. |
| `RawManifests.Builder.AddRawManifestEntry` | internal/storage/raw.go:71-89 | A valid entry is appended in UTC, an invalid one changes nothing, and entries never tie. |
| `RawManifests.Builder.constructor` | internal/storage/raw.go:64-69 | A new manifest has no entries, so nothing can tie in it. |
| `RawManifests.VerifyObjects` | internal/storage/raw.go:185-203 | The loop accepts exactly when every listed object matches its entry. |
| `RawManifests.LoadAndVerifyRawManifest` | internal/storage/raw.go:159-205 | The loader re-reads the manifest, its canonical form, its address and every listed object. |
| `RawManifests.PutThenGet` | internal/storage/raw.go:397-496 | The bytes a successful Put reports are the bytes Get returns. |
| `RawManifests.LoadAfterPublish` | internal/storage/raw.go:127-205 | Loading a published manifest, then or at any later state, returns the canonical manifest and the hash the publication returned. |
| `Calendars.ClockOrder` | internal/marketcalendar/compiler.go:141 | Comparing clock texts compares the times they show. |
| `Calendars.DaysInclusive` | internal/marketcalendar/compiler.go:238-244 | The counting loop counts the days from start to end inclusive. |
| `Calendars.IndexEvents` | internal/marketcalendar/compiler.go:55-85 | The event loop accepts exactly when covered dates do not repeat and covered events are valid, and indexes them by date. |
| `Calendars.BuildSessions` | internal/marketcalendar/compiler.go:87-148 | The date loop succeeds exactly when every open day has ordered hours, and yields the rows of all covered dates. |
| `Calendars.Compile` | internal/marketcalendar/compiler.go:49-172 | Compilation succeeds exactly when the definition compiles and the closing validation accepts the batch, and returns that batch. |
| `Calendars.OneSessionPerDate` | internal/marketcalendar/compiler.go:87-148 | There is exactly one session per covered date in ascending order, with status, hours and early close fixed by weekday and event. |
| `Calendars.SessionsDistinct` | internal/marketcalendar/compiler.go:87-148 | No date is listed twice. |
| `Calendars.EventOrderIrrelevant` | internal/marketcalendar/compiler.go:55-85 | The order of events changes neither whether a calendar compiles nor what it says. |
| `Calendars.FingerprintIffSameSessions` | internal/metadata/historical.go:700-722 | Two session lists have one fingerprint exactly when they hold the same sessions, in whatever order. |
| `Calendars.SortKeyInjective` | internal/metadata/historical.go:728-745 | Two sessions with plain text fields have one sort key only when they are the same, so the fingerprint order has no ties. |
| `Calendars.FingerprintOrderFree` | internal/metadata/historical.go:713-715 | Reordering sessions keeps the fingerprint. |
| `Calendars.ValidateBatch` | internal/metadata/historical.go:774-813 | The validation loops over calendars and sessions accept exactly valid rows, unique calendar keys, and sessions that are all accounted for. |
| `Calendars.IndexCalendars` | internal/metadata/historical.go:774-784 | The loop accepts exactly valid manifests under distinct calendar keys, and indexes each by its key. |
| `Calendars.ClosingValidationIff` | internal/marketcalendar/compiler.go:167-171 | The closing validation accepts compiled rows exactly when the payload hash is lowercase hexadecimal, the time zone is named and the recording time is set. |
| `Calendars.SundayClosesIff` | internal/marketcalendar/compiler.go:167-222 | A definition of one Sunday compiles under 64 of a visible character exactly when that is one byte, and closes exactly when it is a lowercase hexadecimal digit. |
| `FeatureCatalog.ScanUniverse` | internal/metadata/feature_catalog.go:443-449 | The loop collects the universe and names exactly the repeated securities. |
| `FeatureCatalog.IndexDecisions` | internal/metadata/feature_catalog.go:435-442 | Every decision time is indexed at its last place. |
| `FeatureCatalog.CountPartition` | internal/metadata/feature_catalog.go:452-464 | Counting one more partition keeps the coverage of every decision equal to the partitions counted so far. |
| `FeatureCatalog.ScanPartitions` | internal/metadata/feature_catalog.go:450-471 | The loop counts partitions and rows per decision, sums rows, and raises exactly the issues partitions cause. |
| `FeatureCatalog.Account` | internal/metadata/feature_catalog.go:476-481 | Unaccounted cells are expected minus accepted wherever that is not negative. |
| `FeatureCatalog.Summarize` | internal/metadata/feature_catalog.go:375-496 | The report lists exactly the issues that hold, the exact coverage per decision, and is inconsistent exactly when some issue holds. |
| `FeatureCatalog.CompleteMeansFullGrid` | internal/metadata/feature_catalog.go:486-494 | A complete artifact holds every cell of the decision-by-security grid, exactly once. |
| `FeatureCatalog.AcceptedWithinUniverse` | internal/metadata/feature_catalog.go:452-471 | In a clean artifact no decision has more accepted cells than there are securities. |
| `FeatureCatalog.UnaccountedIsRejected` | internal/metadata/feature_catalog.go:476-481 | Without issues the unaccounted cells add up to the rejected partitions. |
| `FeatureRegistration.CheckPoints` | internal/metadata/features.go:233-253 | The loop accepts exactly nonempty schedules numbered from zero with increasing times. |
| `FeatureRegistration.CheckUniverse` | internal/metadata/features.go:264-283 | The loop accepts exactly nonempty universes numbered from zero with distinct canonical UUIDs. |
| `FeatureRegistration.TrimLabels` | internal/metadata/features.go:290-303 | Trimming accepts exactly when every trimmed label is valid, and returns the trimmed labels. |
| `FeatureRegistration.NormalizeFitness` | internal/metadata/features.go:285-310 | Trimming, sorting and comparing neighbours accepts exactly valid labels with distinct datasets. |
| `FeatureRegistration.TrimReferences` | internal/metadata/features.go:314-327 | Trimming accepts exactly when every trimmed reference has a known kind, a safe path and a hash, and returns the trimmed references. |
| `FeatureRegistration.NormalizeRefs` | internal/metadata/features.go:312-342 | Trimming, sorting and comparing neighbours accepts exactly valid references with distinct kind and path. |
| `FeatureRegistration.CheckPartitions` | internal/metadata/features.go:344-408 | The loop accepts exactly partitions inside the grid with well-formed fields, positive rows and distinct cells and children, and sums their rows. |
| `FeatureRegistration.InsertFeatureArtifactLineage` | internal/metadata/features.go:552-579 | The inserts store every row of the registration or none, by the primary and unique keys of their tables. |
| `FeatureRegistration.StoresIffApart` | migrations/000010_feature_artifacts.up.sql:54-110 | The rows of an accepted registration meet the primary and unique keys exactly when no two of its decisions fall into one microsecond. |
| `FeatureRegistration.ChecksIffNoTwoDots` | migrations/000010_feature_artifacts.up.sql:5-110 | They meet the column checks exactly when no path has two dots in a row. |
| `FeatureRegistration.StoresIff` | migrations/000010_feature_artifacts.up.sql:5-110 | An accepted registration is stored exactly when its decisions are a microsecond apart and no path has two dots in a row. |
| `FeatureRegistration.TwoDotsAreRefused` | internal/metadata/features.go:442-452 | A registration whose output path has two dots inside a component is accepted, and its column refuses it. |
| `FeatureRegistration.ArtifactStore.RegisterFeatureArtifact` | internal/metadata/features.go:466-550 | A call refuses, recognises a replay, reports a conflict, or stores, exactly as acceptance, the stored artifacts, the content index, keys and column checks decide. |
| `FeatureRegistration.RegisteringKeeps` | internal/metadata/features.go:466-550 | Whatever is registered, stored artifacts stay as they are, canonical, with unique content columns and lineage keys. |
| `FeatureRegistration.SharedMicrosecondIsRefused` | internal/metadata/features.go:233-253 | A registration of two decisions one nanosecond apart is accepted and cannot be stored. |
| `FeatureRegistration.NoCellRepeats` | internal/metadata/feature_catalog.go:465-469 | The catalog sees no repeated cell in a stored registration. |
| `FeatureRegistration.Normalized` | internal/metadata/features.go:142-411 | A registration is accepted exactly when it satisfies all rules on its canonical form, header and formats included, and that form is returned. |
| `FeatureRegistration.OrderIrrelevant` | internal/metadata/features.go:142-411 | Handing the lists over in another order changes neither acceptance nor the canonical form. |
| `FeatureRegistration.CanonicalIdempotent` | internal/metadata/features.go:142-411 | A canonical registration is accepted again and is its own canonical form. |
| `FeatureRegistration.CatalogVerdict` | internal/metadata/feature_catalog.go:375-496 | An accepted registration that was stored and is read back is reported inconsistent exactly when its requested partitions are not decisions times securities. |
| `Backtests.Repository.StartBacktestRun` | internal/metadata/backtest.go:870-938 | Starting inserts the run and its start event together, accepts an identical restart, and refuses a different one, an unknown experiment and a taken attempt. |
| `Backtests.Repository.Survey` | internal/metadata/backtest.go:977-991 | The two aggregate queries give the next number and whether a terminal event exists. |
| `Backtests.Repository.AppendBacktestRunEvent` | internal/metadata/backtest.go:940-1003 | Appending checks replay, number and terminal event in that order and changes one stream at most. |
| `Backtests.ReachableIsGood` | internal/metadata/backtest.go:940-1003 | In every reachable state events are numbered from zero without gaps, begin with the start event, and hold a terminal event at most in last place. |
| `Backtests.EventsNeverAltered` | internal/metadata/backtest.go:940-1003 | Stored runs and events are never altered or removed. |
| `Backtests.ReplayIsNoOp` | internal/metadata/backtest.go:963-973 | Sending any stored event again succeeds and changes nothing. |
| `Backtests.RestartIsNoOp` | internal/metadata/backtest.go:914-937 | Starting a started run again succeeds and changes nothing. |
| `Backtests.AcceptedIffNextAndOpen` | internal/metadata/backtest.go:956-1003 | A valid event is newly accepted exactly when it carries the next number of a stream that has not ended and its path has no two dots in a row. |
| `Backtests.StartsIffAttemptFree` | migrations/000015_backtest_experiments.up.sql:69-82 | A valid run that is not there yet starts exactly when its experiment is known and no other run holds its attempt. |
| `Backtests.AttemptsStayDifferent` | migrations/000015_backtest_experiments.up.sql:69-82 | In every reachable state no two runs of an experiment share an attempt. |
| `Discovery.ScanRows` | internal/metadata/discovery.go:118-151 | The row loop accepts exactly well-formed rows with distinct securities and ranks, and counts them. |
| `Discovery.CheckContiguous` | internal/metadata/discovery.go:152-156 | The loop accepts exactly when every number from 1 to the eligible count is held as a rank. |
| `Discovery.CheckRow` | internal/metadata/discovery.go:121-150 | One row is accepted exactly when its fields are good and neither its security nor its rank was seen before. |
| `Discovery.Normalized` | internal/metadata/discovery.go:64-162 | A registration is accepted exactly when header, rows, ranks and counts fit, and its rows are returned in their stored order. |
| `Discovery.RanksArePermutation` | internal/metadata/discovery.go:134-156 | The ranks of the eligible rows are exactly 1 to their number, each held once. |
| `Discovery.CanonicalIffTrimKeepsOrder` | internal/metadata/discovery.go:116-126 | Accepting the accepted rows again gives the same rows exactly when trimming keeps the order of the given identifiers, because rows are sorted before they are trimmed. |
| `Discovery.AcceptedRowsOutOfOrder` | internal/metadata/discovery.go:116-126 | An accepted registration of two rows, one identifier led by a space, whose rows come out in another order the second time. |

## Left out

- Writes.WriteRows: requires committed plus offered rows within the range of an int, which slice lengths guarantee.
- RowAdmission.WritePrices: the same clause on the number of rows.
- RowWrites.WriteFundamentals: the same clause on the number of rows.
- RowWrites.WriteFilings: the same clause on the number of rows.
- RowWrites.WriteFX: the same clause on the number of rows.
- Economics.WriteEconomics: the same clause on the number of rows.
- Compilers.ResolutionIsReplay: the rows of one request; `HistoricalPublication.UniverseReplaysLongestLogs` is the same for any history. Both assume security identifiers that are unique, as configuration validation guarantees, and names without the separator used to join them.
- Compilers.CorrectionDecides: one base and one correction; `HistoricalTruth.PublishedCorrectionDecides` is the same among all published rows.
- HistoricalTruth.ValidateTruth: the schema version of a record is a constant.
- HistoricalTruth.TruthStore.PublishHistoricalTruth: identifiers are texts rather than UUID columns, and one publisher works at a time.
- HistoricalPublication.UniverseReplaysLongestLogs: only runs of the one index write its rows.
- Calendars.Compile: dates are day ordinals, so the failures of date parsing and JSON encoding past the year 9999 are left out; every covered local midnight exists, the local clock is an abstract function, and case folding is that of ASCII.
- Calendars.ClosingValidationIff: for dates within the years that dates and times can be written in.
- RawStore.FileRawStore.Put: keys are taken in the clean form that path cleaning gives them, so unclean keys are refused where the code cleans them; temporary names cannot clash with keys, and the stand-in for the content hash has no fixed length.
- FeatureRegistration.ArtifactStore.RegisterFeatureArtifact: the hash of a registration is the registration; times outside the range of a column are left out.
- Backtests.Repository.StartBacktestRun: the environment is a text, so its checks as a JSON object are left out.
- Discovery.Normalized: the reduction of the market session to its date and the row fields that no rule relates are left out.
- RawStore.RecoveryIffSeparate: the operating system's limit on the length of a name is left out; a last segment near it leaves no room for the metadata suffix.
- RunLifecycle.Repository.CancelRun: messages are cut by characters where the code cuts by bytes.
- RunLifecycle and Projections: a column check or a reference that refuses a row is a failing statement.
- FeatureCatalog.Summarize: issues are a set of constructors rather than sorted texts, and the copied identity fields are left out.
- Collection.Collector.StorePayload: the byte and object counters of the run are left out.
- DailyCycle.Runner.RunCycle: timestamps, log files, the lock file and the specification hash are left out; an invocation has the lock.
- PartitionStore.Store.Publish: one writer at a time; the code has no lock of its own.
- RunLifecycle.Repository.StartRun: whether the run inputs can be recorded is a parameter, and the projection clock is left out.
- RunLifecycle.Repository.FinalizeRun: the cursor update is left out.
- UUIDs: outside `Discovery`, which has the four forms of `uuid.Parse`, an identifier is a UUID in its canonical hyphenated lowercase form alone.
- Decimals: the rest of the model takes plain decimals, which `Lexemes` relates to every accepted text; the reader's limits on exponents and fraction digits beyond a million are left out.
- Integer width: counters and revisions are unbounded, except for the overflow guard in manifest validation.
- Power loss: file operations take effect in program order; a sync is only an operation that can fail.
- Keys joined with `\x1f` are modelled as joined texts; families joined with `\x00` are tuples; the names that the compilers join with `/` are joined with a control character here.
- JSON, Parquet and YAML: codecs are injective with an inverse.
- Calendar manifest and trading session queries, `syncIdentifier`, `stampProvenance`, `BuildFeatureArtifactCatalogReport` totals, and `listingHistoryBatch` beyond its identifier correction.
- Database triggers that repeat what the statements already decide.
- Provider clients, configuration validation, research and paper-account modules: plumbing or rules the database enforces.
- Nothing here executes the original program.
