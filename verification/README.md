# Verified models of the analytics, migration, cache and worker cores

A Dafny project that models the parts of the repository whose correctness is hardest to see from one function, and
proves what they promise over every input, every run and every interleaving. `dafny verify dfyconfig.toml` checks it.

## What is modelled

**Region scoping** (`Relational`, `StatementText`, `Territory`, `RegionScope`, `RowLocations`, `ScopeExactness`,
`AsOf`). Statements are a small relational language with an environment of named tables; the evaluator leaves joins,
projections and aggregates arbitrary (a `Meaning`), so what is proved holds for any of them. `applyRegionScope` and
`referencedTables` are methods over the words the patterns match, parentheses included, since the rewriter strips calls
whose parentheses nest at most once. The reference is the regional database itself: every anchored table cut down to its
rows inside the territory, each cut judged on uncut tables. The prefixed statement equals the original on that database
exactly when the statement is *covered*: the rewriter has found every anchored table it reads. What makes a read escape
is proved to be exactly the list given below, and each escape is shown on a concrete statement. When a row is inside a
region is stated over its columns for each anchor and each kind of region.

**Migration runner** (`Migrate`, `MigrationReruns`, `MigrationRunner`, `MigrationSuccess`, `MigrationOrder`,
`Calendar`). Any number of runner processes, one advisory lock tied to a connection, a ledger of markers, crashes and
lost connections between any two statements. The safety properties hold over all runs. A migration that succeeded can
run again, through a recorded `failed` marker, when the write of its `applied` marker fails: this is shown, is why
at-most-once is not claimed, and the exact condition for another execution is proved. File names: the numeric order, the
timestamp check and its calendar (section 21.4.1 of ECMA-262), and the listing.

**Promotion log** (`Promotion`, `PromotionLinks`, `PromotionPurge`, `PromotionReports`, `PromotionKeys`). The event
table with its dedupe index, last-touch attribution, clearing, pruning and the grouped reports; the service with its
purge jobs is compared with one that never purges, over whole histories, and the one way they can differ is
characterised. SHA-256 is taken to be injective.

**Figures and their evidence** (`Rows`, `Evidence`, `Revenue`, `RepeatOrders`). Tables are lists of rows; selection,
projection, joins and grouping are functions on them. Each figure is modelled twice, as the aggregate and as the list of
records beneath it, and the two are proved to agree for arbitrary tables and any order of the records, or an exact
condition is given.

**Offline asset cache** (`AssetCache`, `AssetCacheWrites`). The two cache stores, the greedy prune, storing with its
retry, and the single calls of touches, stores and prunes in any interleaving.

**Workers** (`PaymentQueue`, `PaymentReruns`, `PaymentAcknowledgments`, `PaymentWorker`, `DelegatedWorkers`). The
queue's atomic scripts with workers, crashes, lost replies and lease expiry between any two of them; when a job can be
run again or acknowledged unrun; the polling limit; the coalesced readiness observer.

**Queries and text** (`QueryAudit`, `PhraseSpans`, `MetricRecognition`, `MetricVocabulary`, `QuestionQuery`,
`QueryForms`, `LegalText`, `LegalTranslation`, `MoneyFormat`, `Locales`, `LocaleOrigins`, `LocalePool`). The audit
protocol and evidence paging; phrase recognition in a shrinking text and which phrases it can find at all; parser
against validator; collecting and applying the strings of a legal document; splitting retries; printing of minor units;
locale batches and the pool.

`Text`, `Options`, `Sequences`, `Numbers` and `Calls` hold shared definitions.

## Where the code does something other than one might expect

- A regional statement is accepted and not scoped when it reads an anchored table
  - from another place than after FROM or JOIN: further on in a comma list, after ONLY, behind an opening parenthesis,
    after TABLE, under a quoted name, or behind a comment (`ScopeExactness.OtherSpotsEscape`);
  - only inside an EXTRACT, SUBSTRING, TRIM, OVERLAY or POSITION call whose parentheses nest at most once
    (`ShallowCallEscapes`; a deeper call is seen, `DeepCallIsSeen`);
  - under its schema's name in such a place (`SchemaNameEscapes`);
  - or under a name it also gives to a common table expression or a named window (`SharedNameEscapes`,
    `WindowNameEscapes`).
- Binding the instant of a snapshot takes the parentheses of NOW() away, and with them, in rare statements, the coverage
  (`AsOf.BindingCanHideTables`); snapshots are right exactly when the bound statement is covered
  (`AsOf.SnapshotsRightExactlyWhenBoundCovered`).
- Purging the promotion log shows in one case: an attributable conversion reuses a reference whose conversion was
  deleted (`PromotionPurge.PurgingIsUnobservable`, shown by `PurgingShows`).
- A job added again after its enqueue marker expired, while its first payload is still queued, is in two places
  (`PaymentQueue.EveryJobIsInOnePlace`, shown by `WaitingJobIsDoubled`).
- A job added anew after its enqueue marker expired can be acknowledged without being run: the completion marker of its
  earlier life is set later and outlives the enqueue marker (`PaymentAcknowledgments.MarkerOutlivesEnqueueing`; the exact
  condition is `NewLifeUnrunExactlyWhen`).
- Text order and numeric order of migrations part at prefix 999 (`MigrationOrder.OrdersPartAt999`), just outside the
  historical band.
- The GMV records carry the fees of unpriced jobs, which the take-rate figure leaves out
  (`Evidence.GmvRecordsAndRateFees`, `UnpricedFeeShows`); where nothing is priced, the figure says 0 and the
  records' total is null.
- The restaurant page's window includes its end and the builder's does not (`RepeatOrders.ThreeDefinitionsAgree`,
  `OrderAtTheEndShows`).
- A touch that spans a store, or a store whose metadata write fails, can leave a wrong recorded size
  (`AssetCacheWrites.TouchAcrossStoreGoesWrong`, `StoreWithoutMetadataGoesWrong`; the exact conditions are
  `TouchKeepsTruthExactlyWhen` and `StoreKeepsTruthExactlyWhen`).
- A processor that succeeded may be run again (`PaymentReruns.SucceededJobCanRunAgain`), and overlapping polls exceed the
  concurrency limit (`PaymentWorker.OverlappingPollsReachTheBound`).
- A success audit row may stay in the ledger for rows nobody was shown, beside a failure row
  (`QueryAudit.OneRowExactlyWhen`, `LostReplyLeavesTwoRows`).
- Hyphenated metric synonyms can never be found (`MetricVocabulary.HyphenatedCannotBeFound`; what can be is exactly the
  phrases of word characters and spaces, `CanBeFoundExactlyWhen`), and "consulting nps" said twice counts as two metrics
  (`MetricRecognition.RepeatedPhraseIsAmbiguous`).
- When the translation service answers a batch with another number of texts, later keys get other keys' texts
  (`Locales.AlignedExactlyWhen`, `ShortBatchShifts`), and the English fallback for a null or missing answer is another
  key's text (`LocaleOrigins.NullTakesAnotherKeysText`).

## Model

| member | source | states |
|---|---|---|
| StatementText.ReferencedTables | server/analytics/regionScope.js:203-215 | each table name after FROM or JOIN outside the stripped calls that is not a CTE or window name of the statement, once |
| StatementText.StripKeeps | server/analytics/regionScope.js:206-207 | from a statement's text, whatever follows it, the pattern takes exactly the calls whose parentheses nest at most once |
| StatementText.MatchPast | server/analytics/regionScope.js:207 | matching a call passes over a statement within it if and only if its parentheses nest no deeper than the pattern allows |
| RegionScope.CollectBases | server/analytics/regionScope.js:239-240 | the copies of the prefix: every shadowed table and every table its predicate needs, once each |
| RegionScope.ApplyRegionScope | server/analytics/regionScope.js:222-254 | global scope and statements without anchored tables come back unchanged; refused are exactly WITH RECURSIVE and any table that is neither anchored nor one of plans, support_sla_targets and discount_codes; otherwise the statement gets the prefix and the territory as one more parameter |
| RegionScope.PredicateReadsItsNeeds | server/analytics/regionScope.js:157-196 | every anchor predicate reads only the `__rs_` copies declared in its needs and one of the two geo tables, which are never shadowed |
| RegionScope.PredicateMeansInside | server/analytics/regionScope.js:144-196 | over copies of the unfiltered tables each anchor predicate says exactly that the row's documented anchor lies in the territory; what that means column by column is stated by the lemmas of RowLocations |
| RowLocations.JobRows | server/analytics/regionScope.js:95-120 | for each of the five kinds of region, by the columns of a job: the city, state and country texts without surrounding spaces, lower or upper case as each kind asks, a missing city or state matching nothing; the country code unless it is null or empty, else the country; coordinates both present and near |
| RowLocations.RestaurantRows | server/analytics/regionScope.js:142-143 | the same for a restaurant by its address columns |
| RowLocations.CentroidRows | server/analytics/regionScope.js:150-152 | the same for a postal centroid by its place columns |
| RowLocations.UserRows | server/analytics/regionScope.js:127-144 | the same for a user by the stored address, with the coordinates looked up in the table of the source in force |
| RowLocations.UsersWithinRadius | server/analytics/regionScope.js:130-141 | a user inside a circle has a centroid row for the leading digits of the ZIP within it that no other comes before; if every such row is within it and there is one, the user is inside; outside the US the cache gives none |
| RowLocations.LoneCacheRow | server/analytics/regionScope.js:136-141 | with one row in the cache a user is inside a circle if and only if the country is US, the ZIP starts with the row's five digits, and the row has coordinates within the circle |
| RowLocations.LoneCentroid | server/analytics/regionScope.js:130-135 | with one centroid, if and only if the countries agree whatever their case, its code is the leading digits of the ZIP, three to ten of them, and it is within the circle |
| RowLocations.FirstOfTwo | server/analytics/regionScope.js:135-141 | of two rows that may stand in, wherever they stand, the later updated counts, one with a time before one without, or the centroid of smaller id |
| RowLocations.LinkedJobs | server/analytics/regionScope.js:145 | a dispute is inside with the job its job id names, a redemption for a job with the job whose id, as text, it refers to; a null leads nowhere |
| RowLocations.TerritoryIsUnion | server/analytics/regionScope.js:104 | a row is inside a territory if and only if it is inside one of its regions |
| RowLocations.TrimStrips | server/analytics/regionScope.js:98-102 | the compared texts are the columns without the spaces at their two ends, all of them and nothing else |
| RowLocations.AustinIsInside | server/analytics/regionScope.js:99-107 | a job in " Austin", "Tx " is in Austin, TX and not in a city tx of a state AUSTIN |
| RegionScope.BasesBound | server/analytics/regionScope.js:241 | whatever their order, the copies hold the unfiltered tables and nothing else is bound |
| RegionScope.ShadowsBound | server/analytics/regionScope.js:245 | whatever their order, each shadow holds its table's rows inside the territory, judged on unfiltered data |
| RegionScope.ScopePreservesMeaning | server/analytics/regionScope.js:222-254 | a covered statement under its prefix returns on every database what the statement returns on the regional database, for any order of the prefix |
| RegionScope.CoverageIsNameHygiene | server/analytics/regionScope.js:199-215 | coverage is exactly the absence of the four ways a read escapes the patterns: a schema's name, another place than after FROM or JOIN, a stripped call, a shared name; then every table read is anchored or passed through |
| ScopeExactness.UncoveredLeaks | server/analytics/regionScope.js:203-254 | for every accepted statement that is not covered there is a database on which its scoped form returns something else than the regional database gives |
| ScopeExactness.ScopingExactlyWhenCovered | server/analytics/regionScope.js:222-254 | scoping is right for all databases, territories and operators if and only if the statement is covered |
| ScopeExactness.ApplyingExactlyWhenCovered | server/analytics/regionScope.js:222-254 | what applying the scope returns for an accepted statement, in whatever order its lists are built, answers right for all territories, databases and operators if and only if the statement is covered |
| ScopeExactness.OtherSpotsEscape | server/analytics/regionScope.js:199-211 | concrete accepted statements whose table in a comma list, after ONLY, behind a parenthesis, after TABLE, in quotes or behind a comment is not scoped |
| ScopeExactness.SchemaNameEscapes | server/analytics/regionScope.js:209 | a concrete accepted statement that reads a table under its schema's name, which no prefix can hide |
| ScopeExactness.ShallowCallEscapes | server/analytics/regionScope.js:207 | a concrete accepted statement whose table stands in a stripped call |
| ScopeExactness.DeepCallIsSeen | server/analytics/regionScope.js:207 | the same call with one more level of parentheses is not stripped and the statement is covered |
| ScopeExactness.WindowNameEscapes | server/analytics/regionScope.js:204-205 | a concrete accepted statement whose named window hides a base table from the rewriter |
| ScopeExactness.SharedNameEscapes | server/analytics/regionScope.js:204-212 | a concrete accepted statement whose CTE name hides a base table from the rewriter |
| AsOf.AsOfMeansAtThatInstant | server/analytics/metricSnapshots.js:86-104 | a statement with NOW() bound to an instant answers at any time what the original answers at that instant |
| AsOf.AsOfRewrite | server/analytics/metricSnapshots.js:86-93 | the rewriter appends one parameter, keeps the others, and gives such a statement; without an instant nothing changes |
| AsOf.SnapshotIsRegionalAtInstant | server/analytics/metricSnapshots.js:118-122 | a regional snapshot, scoped from the bound text, is the plain statement at the fixed instant on the regional database |
| AsOf.SnapshotsRightExactlyWhenBoundCovered | server/analytics/metricSnapshots.js:118-122 | a snapshot is right for all databases, territories and operators if and only if the statement with its instant bound is covered |
| AsOf.BindingCanHideTables | server/analytics/metricSnapshots.js:86-93 | a concrete statement that is covered before NOW() is bound and not after |
| AsOf.RewritesCommute | server/analytics/metricSnapshots.js:86-122 | binding after scoping and scoping after binding give the same text once the two appended parameters change places |
| Relational.AppendedParamsUnseen | server/analytics/regionScope.js:238 | appending a parameter changes no value of a statement whose own parameters are bound |
| Relational.ParamsBoundMeans | server/analytics/regionScope.js:238 | the parameters of a statement are bound if and only if each placeholder it holds, anywhere in it, is the number of one |
| Migrate.StepKeepsInv | server/migrate.js:84-202 | every statement of every runner, every crash and every lost connection keeps the invariant on ledger, lock and runners |
| Migrate.RunsAreOrderly | server/migrate.js:119-191 | over every run a file's SQL starts only when all files listed before it are applied, and two executions of one file have a recorded failed marker between them |
| Migrate.OneRunnerPerFile | server/migrate.js:84-100 | no two runners are ever at work on one file, even after one of them has lost the lock |
| Migrate.StrandedForever | server/migrate.js:140-142 | a file left applying by a runner that is gone is never executed again by any runner and stays applying |
| Migrate.SettledForever | server/migrate.js:126-137 | an applied row with a checksum is never changed again |
| Migrate.SucceededMigrationCanRerun | server/migrate.js:166-189 | a run in which a migration that succeeded is executed a second time because its applied marker could not be written |
| MigrationReruns.ExecutesAgainExactlyWhen | server/migrate.js:97-202 | in every reachable world a file can still be executed if and only if it is not applied and, if marked applying, a runner is about to execute it or has done so and is still connected |
| MigrationRunner.Database.SkipOne | server/migrate.js:125-138 | an applied file is verified against its checksum or gets one as a baseline, and the run goes on exactly when the checksum is the file's, or is missing and its baseline is recorded; no other row changes and no SQL runs |
| MigrationRunner.Database.PersistIntent | server/migrate.js:151-161 | the intent marker is durable before the SQL, or the runner stops |
| MigrationRunner.Database.RunSql | server/migrate.js:165-175 | success leaves the file applied under its checksum; failure leads to the catch block with the file applying, or applied when the reply was lost |
| MigrationRunner.Database.CatchBlock | server/migrate.js:176-190 | the failed marker is written if the connection works, and the runner stops either way |
| MigrationRunner.Database.Migrate | server/migrate.js:84-202 | by the rows before the run, the checksums and the fates of its statements only: it succeeds if and only if every file passes, an applied one by its checksum or baseline, an applying one never, any other by each of its statements; when it fails it stops at the first that does not, and that file's row, the rows of all files before it and the files executed are given; later rows are left alone and the lock is released |
| MigrationSuccess.SuccessMeansApplied | server/migrate.js:84-202 | over all runs of any number of runners, crashes and lost connections included, a runner that has ended in success has each of its files applied under the checksum of its own listing |
| MigrationOrder.CompareIsTotalOrder | server/migrationOrder.js:30-40 | the comparator is antisymmetric, transitive and 0 only on equal names |
| MigrationOrder.SortIsUnique | server/migrationOrder.js:42-44 | two sorted arrangements of the same names are equal, whatever the sort and the directory order |
| MigrationOrder.TimestampsAreRealDates | server/migrationOrder.js:47-58 | a well-shaped name is accepted exactly when its digits are a real date-time of 2026 or later |
| MigrationOrder.ShapeSpelled | server/migrationOrder.js:20 | the shape is fourteen digits, an underscore, a name of lower-case letters, digits and underscores that does not start with one, and .sql |
| MigrationOrder.TimestampSortsAfterLegacy | server/migrationOrder.js:12-17 | every valid timestamp name sorts after every name with a prefix up to 99994 |
| MigrationOrder.HistoricalOrderIsTextOrder | server/migrationOrder.js:12-15 | on three-digit prefixes below 999 together with five-digit ones from 99900 the numeric order is the text order |
| MigrationOrder.OrdersPartAt999 | server/migrationOrder.js:12-15 | a prefix of 999 and a five-digit one are ordered differently by number and by text exactly when the prefix is followed by a character that sorts after the digits |
| MigrationOrder.ValidateMigrationFiles | server/migrate.js:42-52 | accepts exactly when every file outside the frozen set is a valid timestamp name; the second refusal can never happen |
| MigrationOrder.ListMigrationFiles | server/migrate.js:54-65 | the .sql files in their one order up to a named boundary, or a refusal exactly when one is not allowed; an unknown boundary is refused |
| MigrationOrder.ListOrderingProblems | server/migrationOrder.js:64-85 | reports every file without a number and every unlisted shared number with all its names, and nothing else |
| MigrationOrder.SqlFilesAre | server/migrate.js:57-59 | the files listed are exactly the names of the directory that end in .sql |
| MigrationOrder.NamesWithAre | server/migrationOrder.js:64-85 | the names reported under a number are all files with that number, each as often as it is listed |
| Calendar.FieldsAreReal | server/migrationOrder.js:54-57 | the fields read back from any time are a real Gregorian date-time |
| Calendar.RealReadsBack | server/migrationOrder.js:54-57 | a real date-time outside the years 0 to 99 survives Date.UTC and back |
| Calendar.NormalizingDetectsReal | server/migrationOrder.js:54-58 | normalising and comparing accepts exactly the real date-times from year 100 on |
| Calendar.ShortYearsNeverSurvive | server/migrationOrder.js:54-55 | years 0 to 99 come back as 1900 or later |
| Calendar.TimeReadsBack | server/migrationOrder.js:54-57 | Date.UTC of the fields of a time is that time if and only if its year is not one of 0 to 99 |
| Calendar.KnownTimes | server/migrationOrder.js:54 | the times of three known dates, the first of 1970 and a leap day among them |
| Calendar.Overflows | server/migrationOrder.js:54 | twelve months more are a year more, and days run on |
| Promotion.FindLastTouch | server/analytics/promotionLinkAnalytics.js:191-198 | the one matching visit that no other matching visit of any candidate owner follows, by time and then id, or none when none matches |
| Promotion.PromotionLog.InsertEvent | server/analytics/promotionLinkAnalytics.js:96-106 | a row is stored unless its dedupe key is taken |
| Promotion.PromotionLog.RecordVisit | server/analytics/promotionLinkAnalytics.js:118-141 | stored exactly when the visitor is a UUID, the viewer is not the owner's, the owner exists and the visitor has not been there that day; the row is the visit, with an account link if and only if there is no consent and the viewer is a UUID, and then that owner's key of that viewer |
| Promotion.PromotionLog.RecordConversion | server/analytics/promotionLinkAnalytics.js:165-216 | candidate owners are screened, repeated and own ones left out, and the conversion copies the last touch or nothing is stored |
| PromotionLinks.ConversionStoredExactlyWhen | server/analytics/promotionLinkAnalytics.js:165-216 | a conversion is stored if and only if it has a reference that is new, no owner's check fails, and one of the owners that pass was visited in the last seven days by the device or the account |
| PromotionLinks.LinksAreWithoutConsent | server/analytics/promotionLinkAnalytics.js:134-135 | over every history, a row with an account link was stored by a visit without consent of that very account to that owner |
| PromotionLinks.AccountCarriesOver | server/analytics/promotionLinkAnalytics.js:165-216 | on any consistent log, a visit stored without consent is what a conversion by the same account within seven days, from whatever device, is attributed to |
| PromotionLinks.AttributedAcrossDevicesExactlyWhenNoConsent | server/analytics/promotionLinkAnalytics.js:134-135 | on an empty log, the conversion from another device is attributed if and only if the visitor did not consent |
| PromotionLinks.SharesAreStored | server/analytics/promotionLinkAnalytics.js:109-111 | a share is always stored as it is, without any visitor |
| Promotion.ReversalIsFinal | server/migrations/910_promotion_net_conversions.sql:39-54 | a reversed conversion keeps the time and reason of its first reversal through every later request |
| PromotionPurge.ReversalCountsOnce | server/migrations/910_promotion_net_conversions.sql:39-54 | a reversal notice takes exactly its own conversion from the net count of the reports that show it, the first time only, and changes no other total |
| Promotion.PromotionLog.ClearExpiredAccountLinks | server/analytics/promotionLinkAnalytics.js:290-295 | afterwards no account link is older than seven days and nothing else has changed |
| Promotion.PromotionLog.PrunePromotionLinkEvents | server/analytics/promotionLinkAnalytics.js:297-302 | afterwards no row is older than the retention, and references to deleted visits are null |
| Promotion.HandleKeepsConsistent | server/analytics/promotionLinkAnalytics.js:96-302 | every request keeps the invariant: unique dedupe keys and attributed conversions |
| Promotion.ReachableLogsAreAttributed | server/analytics/promotionLinkAnalytics.js:165-216 | in every reachable log each conversion was stored when some visit was the last touch, with no later matching visit of any candidate owner, and names that visit, of the same owner, tags and actor and at most seven days older, exactly as long as its row exists; dedupe keys are unique |
| Promotion.RecentConversionsAreAttributed | server/analytics/promotionLinkAnalytics.js:297-302 | when rows are kept for some days, every conversion from those days less seven still names its visit |
| PromotionPurge.LastTouchAlike | server/analytics/promotionLinkAnalytics.js:191-198 | attribution picks the same visit with and without purging |
| PromotionPurge.ReportsAlike | server/analytics/promotionLinkAnalytics.js:224-286 | no report of at most 365 days can tell a purged log from an unpurged one |
| PromotionPurge.PurgingIsUnobservable | server/analytics/promotionLinkAnalytics.js:165-302 | over every history whose prunes keep a year, the service with its purge jobs gives the answers of one that never purges if and only if no attributable conversion reuses a reference after its conversion was deleted; then no report of up to 365 days differs |
| PromotionPurge.StepAlike | server/analytics/promotionLinkAnalytics.js:203-213 | one request is answered differently with and without purging if and only if it reuses a deleted reference; otherwise the logs stay alike |
| PromotionPurge.PurgingShows | server/analytics/promotionLinkAnalytics.js:165-302 | for every visitor, owner and reference a history of five requests, a yearly prune among them, that is answered differently with and without purging |
| PromotionPurge.ReportAddsUp | server/analytics/promotionLinkAnalytics.js:232-262 | shares, visits, conversions and net conversions of the sources add up to the totals |
| PromotionReports.TotalsOneMore | server/analytics/promotionLinkAnalytics.js:250-260 | what one row more adds to the totals: by its kind, net unless reversed, by the reason it was reversed for, and by its type |
| PromotionReports.GroupsOneMore | server/analytics/promotionLinkAnalytics.js:232-249 | and to the groups of its source, of its source and medium, and of its campaign, and to no other |
| PromotionReports.EventShows | server/analytics/promotionLinkAnalytics.js:224-262 | one event more shows in its own owner's report if it is recent enough, by its kind, type and reversal, and in no other report |
| PromotionReports.NothingReported | server/analytics/promotionLinkAnalytics.js:262-286 | the report of an empty log has no groups and only zeros |
| PromotionKeys.HashInputDeterminesParts | server/analytics/promotionLinkAnalytics.js:83-94 | what is hashed determines kind, owner and visitor, and a visitor is never hashed like an account |
| PromotionKeys.HashInputSpelled | server/analytics/promotionLinkAnalytics.js:83-94 | the four texts that are hashed, written out |
| PromotionKeys.VisitKeyDeterminesParts | server/analytics/promotionLinkAnalytics.js:133 | the visit key is never cut at 400 characters and determines actor, source, campaign and day |
| Evidence.FeesAgree | server/analytics/metricEvidence.js:21-22 | the fees found by the join with the cohort equal the sum of the records' correlated subqueries, for arbitrary tables |
| Evidence.RateReconciles | server/analytics/financialMetrics.js:36-48 | each currency line of the take-rate figure is the total of the records beneath it, in any order; neither side has other currencies |
| Evidence.GmvReconciles | server/analytics/financialMetrics.js:30-35 | price, jobs and unpriced jobs of each currency equal the investor bucket over the records; the bucket's sum is null exactly when nothing is priced |
| Evidence.GmvOneMore | server/analytics/financialMetrics.js:30-35 | one job more adds its price and itself to the figure of its currency, whatever its case, if it is completed and not deleted, and otherwise nothing |
| Evidence.RateOneMore | server/analytics/financialMetrics.js:36-48 | one job more adds its price to the take rate if it is completed, not deleted and priced, and one ledger entry more adds to the fees of a job if it is a job fee above zero of that job and currency |
| Evidence.GmvRecordsAndRateFees | server/analytics/investorEvidence.js:53-60 | the fees on the GMV records are at least the take-rate fees, and equal exactly when no unpriced completed job of the currency was charged a fee |
| Evidence.UnpricedFeeShows | server/analytics/investorEvidence.js:53-60 | one completed job without a price that was charged a fee makes the fees on the GMV records exceed the take-rate fees |
| Evidence.FeesCountedOnceExactlyWhenKeysDistinct | server/analytics/financialMetrics.js:41-44 | for every ledger each fee is counted once if and only if no two cohort jobs share an id and a currency |
| Revenue.RevenueReconciles | server/analytics/investorEvidence.js:38-43 | the investor's buckets add up to the figure of each currency and to each point of its time series |
| Revenue.OpenBucketsAddUpExactlyWhenNoneWithheld | server/analytics/investorEvidence.js:67-72 | the buckets shown never exceed the figure and add up to it exactly when none is suppressed |
| Revenue.RevenueOneMore | server/analytics/financialMetrics.js:20-28 | one entry more adds to the figure and to its point of the series exactly when it is a job fee or subscription above zero inside the window, whose end is outside |
| Revenue.WithheldOneMore | server/analytics/investorEvidence.js:67-72 | a record is in the bucket of its time, currency and source; buckets of no, one or two records are withheld and others are not |
| RepeatOrders.JoinedTotal | server/analytics/queryBuilder.js:478-481 | the two left joins never duplicate an order: any count over them is a count over the identified orders |
| RepeatOrders.RepeatBounds | server/analytics/restaurantAnalytics.js:73-84 | twice the repeat customers is at most the repeat orders, which are at most the identified orders |
| RepeatOrders.ThreeDefinitionsAgree | server/analytics/restaurantAnalytics.js:61-97 | join, window count and membership give the same totals and repeats on the orders at the page's locations; the page agrees exactly when no identified order falls on the end of its window |
| RepeatOrders.OrderAtTheEndShows | server/analytics/restaurantAnalytics.js:61-97 | one order at the end of the window is on the page and not in the builder's figure |
| RepeatOrders.EvidenceCounts | server/analytics/metricEvidence.js:105-109 | counting the evidence, in any order, gives the identified orders of a restaurant and those of customers with more than one |
| RepeatOrders.BuilderCounts | server/analytics/queryBuilder.js:459-484 | the builder's two counts are the same numbers |
| RepeatOrders.OrderOneMore | server/analytics/restaurantAnalytics.js:61-97 | which orders count: paid, neither cancelled nor refunded, in the window, with its end on the page only, and at an assigned location |
| AssetCache.PruneFits | client/public/sw.js:180-193 | after a prune the entries and their recorded bytes are within the limits |
| AssetCache.PruneLeavesStoresAlike | client/public/sw.js:180-198 | nothing expired stays, survivors are unchanged, and both stores hold the same addresses unless a body without metadata was kept, which needs a clock within the age limit |
| AssetCache.PruneIsMaximal | client/public/sw.js:189-193 | a dropped unexpired record no longer fits beside what is left of the more recently used ones |
| AssetCache.DroppedOnlyWhenFull | client/public/sw.js:167-193 | unexpired records are dropped only from a cache with all its entries, or less than the largest asset short of its bytes |
| AssetCache.MostRecentSurvives | client/public/sw.js:188-193 | the most recently used asset is never evicted by the others |
| AssetCache.PruneTwice | client/public/sw.js:180-198 | a second prune at the same time changes nothing |
| AssetCache.SortIsStable | client/public/sw.js:188 | records used at the same time keep the order in which they were put |
| AssetCache.LoneAssetStaysExactly | client/public/sw.js:183-193 | a lone asset that fits stays until thirty days after its last use and not a millisecond longer; without metadata it counts as never used and without size |
| AssetCache.EvictionIsNotAPrefix | client/public/sw.js:190-193 | a smaller, older record may stay where a larger one went |
| AssetCacheWrites.AssetStore.Evict | client/public/sw.js:189-193 | the loop removes exactly the records the greedy choice refuses, from both stores |
| AssetCacheWrites.AssetStore.Prune | client/public/sw.js:180-198 | the whole prune, loops over both stores included, leaves the stores of the specification |
| AssetCacheWrites.AssetStore.Store | client/public/sw.js:167-179 | the size limit, the retry after making room, the metadata write and the prune, for every pattern of failing writes; it succeeds exactly when the response is too large to keep or its body and metadata are written |
| AssetCacheWrites.AssetStore.Touch | client/public/sw.js:151-163 | a hit rewrites the last use and keeps the recorded size, or records the body's, or changes nothing when the metadata store fails |
| AssetCacheWrites.PruneIsSteps | client/public/sw.js:180-198 | what an undisturbed prune does is a run of single deletions |
| AssetCacheWrites.StoreIsSteps | client/public/sw.js:167-179 | what an undisturbed store does is a run of single calls, for every pattern of failing writes |
| AssetCacheWrites.DropsOnlyDrop | client/public/sw.js:189-197 | wherever a prune is cut short, what is left of both stores is as it was |
| AssetCacheWrites.ImmutableAssetsStayRight | client/public/sw.js:151-198 | if no address changes its bytes, recorded sizes are right in every interleaving of the single calls of stores, prunes and touches, with any of them missing |
| AssetCacheWrites.TouchKeepsTruthExactlyWhen | client/public/sw.js:151-163 | a touch with any calls of others between its three calls leaves the address right exactly when the body is gone or the body last put in all that time has the size it found |
| AssetCacheWrites.StoreKeepsTruthExactlyWhen | client/public/sw.js:167-177 | a store records a wrong size only by replacing a body of another size and failing to write its metadata |
| AssetCacheWrites.StoreWithoutMetadataGoesWrong | client/public/sw.js:167-177 | a store that replaces a body by a longer one and fails to write its metadata leaves a wrong recorded size |
| AssetCacheWrites.TouchAcrossStoreGoesWrong | client/public/sw.js:151-177 | a touch around a store that fully succeeds leaves a wrong recorded size, though the stores were right up to its last call |
| AssetCacheWrites.StoreBoundsTheBodies | client/public/sw.js:167-198 | on caches whose recorded sizes are right, a completed store, whatever it replaces, leaves at most 160 bodies whose real sizes fit 80 MiB |
| PaymentQueue.StepKeepsInv | server/services/paymentQueue.js:49-104 | every script, worker step, crash, lost reply, lease or marker expiry and operator action keeps the invariant on the lists, unless it doubles a queued job |
| PaymentQueue.EveryJobIsInOnePlace | server/workerMain.js:83-137 | whatever interleaves, fails or expires, each job is at every time one payload in one list from when it is added until it is acknowledged, never lost, never both delayed and dead, if and only if no job is added again after its marker expired while its first payload is still queued |
| PaymentQueue.WaitingJobIsDoubled | server/services/paymentQueue.js:49-52 | adding, expiry of the enqueue marker and adding again leave a job twice in the live list |
| PaymentQueue.AcknowledgedAfterSuccess | server/services/paymentQueue.js:65-104 | acknowledged jobs have succeeded, in this life or an earlier one, payloads carry at most three attempts, and every claim has the lease that recovers it |
| PaymentQueue.AddedOnce | server/services/paymentQueue.js:49-52 | while its enqueue marker stands, adding a job again changes nothing; before that it is put in the live list |
| PaymentQueue.BuriedOnceWhileMarked | server/services/paymentQueue.js:94-104 | while its dead marker stands, no further payload of the job is buried |
| PaymentQueue.ClaimsComeBack | server/services/paymentQueue.js:59-83 | a refused claim changes nothing; one whose reply is lost, or whose worker crashes before its first call, leaves the payload leased, and reclaiming it restores the queue as it was |
| PaymentWorker.Store.ProcessJob | server/workerMain.js:83-137 | for every pattern of failing calls, the queue it leaves after a claim nobody takes over is the one the machine's own steps reach with these fates; the job is acknowledged if and only if its queue is known, the check succeeds, it was completed before or the processor succeeds, and the completion is not refused; it waits for a retry, is dead or still claimed if and only if the calls say so |
| PaymentWorker.OutcomesExclude | server/workerMain.js:83-137 | the claim the worker's steps leave is in exactly one of four places, decided by the calls: still claimed, acknowledged, waiting with one attempt more, or dead with the attempts it was given |
| PaymentWorker.DrivenIsReached | server/workerMain.js:83-137 | following the calls is a run of the queue's machine that doubles no job |
| PaymentWorker.DrivenIsOutcome | server/workerMain.js:83-137 | that run ends, without a worker left, in the queue the outcome of the calls describes |
| PaymentReruns.SucceededJobCanRunAgain | server/workerMain.js:111-121 | a reachable world in which a job has succeeded, is not running, and can be run again |
| PaymentReruns.RecoveredRunsAgain | server/services/paymentQueue.js:365-407 | after an operator recovers a dead job it can be run again from its first attempt, and buried again |
| PaymentReruns.RunsAgainExactlyWhen | server/workerMain.js:83-137 | in every world reached without doubling a job, its processor can be started, again if it has succeeded, by going on without adding or recovering the job, expiring its completion marker or doubling another, if and only if a worker is running it, or its completion marker is not set and a worker is checking it or its payload is live, claimed or delayed |
| PaymentAcknowledgments.AcknowledgedUnrunExactlyWhen | server/workerMain.js:100-112 | in every world reached without doubling a job, an added job that is not acknowledged can be acknowledged without its processor succeeding from then on, nor being recovered, if and only if its payload is live, claimed or delayed and its completion marker stands or a worker is completing it |
| PaymentAcknowledgments.NewLifeUnrunExactlyWhen | server/services/paymentQueue.js:31-69 | a job added anew after its enqueue marker expired can be acknowledged without being run if and only if the completion marker of an earlier life still stands or a worker is still completing that |
| PaymentAcknowledgments.MarkerOutlivesEnqueueing | server/services/paymentQueue.js:31-69 | a run after which that is so: the completion marker, set later than the enqueue marker and for the same time, outlives it |
| PaymentWorker.RunningJobsAreBounded | server/workerMain.js:143-162 | the counter is the number of running jobs; with K overlapping polls it is at most the limit - 1 + K, so the limit holds when polls do not overlap |
| PaymentWorker.OverlappingPollsReachTheBound | server/workerMain.js:143-162 | for every limit and every K the bound is reached |
| PaymentWorker.StoppedNeverGrows | server/workerMain.js:143-162 | once stopping, no poll begins and no more jobs run than ran or were polled for |
| PaymentWorker.StoppingDrains | server/workerMain.js:143-162 | and from every reachable state everything can come to its end |
| DelegatedWorkers.Observer.BeginObserve | server/bootstrap/delegatedWorkers.js:58-61 | a second observation is never begun while one is in flight or while stopping |
| DelegatedWorkers.Observer.ReceiveAnswer | server/bootstrap/delegatedWorkers.js:62-75 | what an answer leads to: a second probe exactly when the first one timed out on a started, serving replica last seen ready and not stopping; otherwise lastOk says whether this answer was ready, and so does readiness unless stopping |
| DelegatedWorkers.Observer.BeginStart | server/bootstrap/delegatedWorkers.js:80-84 | refused while starting, started or stopping; otherwise it begins or joins an observation |
| DelegatedWorkers.Observer.FinishStart | server/bootstrap/delegatedWorkers.js:84-88 | succeeds only on a ready observation that no stop has overtaken |
| DelegatedWorkers.EveryReachableState | server/bootstrap/delegatedWorkers.js:40-101 | in every interleaving the timer runs exactly while started and not stopping, lastOk is whether the last result of the last observation was ready, readiness is that unless stopping, every ready observation ends with a ready result, observations make at most two probes, a start needs a ready observation, and a serving replica is withdrawn only on a definite failure or two timeouts |
| DelegatedWorkers.ReadinessFollowsProbes | server/bootstrap/delegatedWorkers.js:58-98 | in every reachable state, by step, what makes the replica ready and what takes it away, when a deadline is forgiven, and when a probe is sent |
| DelegatedWorkers.StartsExactlyWhen | server/bootstrap/delegatedWorkers.js:80-90 | a start goes through exactly when the observation it waited for was ready and no stop has come in between |
| DelegatedWorkers.TwoMissedDeadlinesWithdraw | server/bootstrap/delegatedWorkers.js:62-75 | a run in which a serving replica misses two deadlines in one observation and is withdrawn |
| DelegatedWorkers.StartingWorks | server/bootstrap/delegatedWorkers.js:80-90 | one ready answer starts the observer |
| DelegatedWorkers.StoppingWorks | server/bootstrap/delegatedWorkers.js:92-101 | a stop ends once the observation under way has |
| DelegatedWorkers.StoppingIsFinal | server/bootstrap/delegatedWorkers.js:92-101 | once stopping, nothing becomes ready, started or scheduled again and no further probe is sent |
| QueryAudit.CappedIsThePage | server/analytics/queryBuilder.js:762-767 | reading one row more than the cap returns the page and tells exactly whether there are more |
| QueryAudit.Builder.Execute | server/analytics/queryBuilder.js:783-844 | for figures, evidence pages and exports: rows are returned exactly when the success row is known durable, which is then the only new row; when truncated and hasMore are set, and the code of every refusal; which rows any attempt leaves by the fates of its inserts; success rows only for answered attempts |
| QueryAudit.Builder.WalkEvidence | client/src/pages/admin/AdminQueryBuilderPage.jsx:644 | walking the pages while there are more returns the whole ordered list, once each, exactly when it has at most 1,000,100 rows and the audit insert of every page succeeds; otherwise the full pages before the first refused one |
| QueryAudit.OneRowExactlyWhen | server/analytics/queryBuilder.js:715-745 | when its last insert succeeds an attempt leaves exactly one row unless its success row was kept but reported as failed; then a success row and a failure row |
| QueryAudit.LostReplyLeavesTwoRows | server/analytics/queryBuilder.js:783-844 | a lost reply to the insert for an answered figure leaves both rows |
| PhraseSpans.MatchIsInQuestion | server/analytics/nlParser.js:254-262 | whatever matches in the shrunk text stands, as whole words, in a place of the question free of everything cut out |
| PhraseSpans.FreeMatchIsLeft | server/analytics/nlParser.js:254-262 | whatever stands free in the question still matches in the shrunk text |
| PhraseSpans.CutKeepsShrunk | server/analytics/nlParser.js:260 | cutting a match out keeps the relation between shrunk text and question |
| PhraseSpans.WordCharsListed | server/analytics/nlParser.js:107-116 | the characters a whole word is bounded by: letters, digits and the underscore |
| MetricRecognition.Recognise | server/analytics/nlParser.js:251-262 | for each phrase in turn, its first free place in the question or none; the metrics are those of the phrases found, once each |
| MetricRecognition.AccountsDetermine | server/analytics/nlParser.js:251-262 | the places found are determined by the question and the table |
| MetricRecognition.LongestWins | server/analytics/nlParser.js:107-116 | a phrase that stands in the question and is not found is overlapped, wherever it stands, by one found earlier that is at least as long |
| MetricRecognition.SecondPhraseFoundExactlyWhen | server/analytics/nlParser.js:251-262 | when no other phrase before it stands in the question, the later of two phrases is found if and only if it stands somewhere clear of the first phrase's first place |
| MetricVocabulary.CanBeFoundExactlyWhen | server/analytics/nlParser.js:71-116 | some normalised question finds a phrase of the table if and only if the phrase has only lower-case word characters and spaces |
| MetricVocabulary.SaidAloneIsFoundExactlyWhen | server/analytics/nlParser.js:107-116 | said alone, a phrase is found if and only if no earlier pattern has the same phrase |
| MetricVocabulary.HyphenatedCannotBeFound | server/analytics/nlParser.js:71-106 | the synonyms "main-app payout failures", "take-rate", "offer click-through rate" and "offer opt-out rate" are found by no question |
| MetricRecognition.RepeatedPhraseIsAmbiguous | server/analytics/nlParser.js:256-268 | "consulting nps" said twice yields two different metrics |
| QuestionQuery.Validate | server/analytics/queryBuilder.js:215-309 | an input is refused or comes out trimmed with its default period, and which ones pass, UUID customer ids included |
| QuestionQuery.CanonicalStays | server/analytics/queryBuilder.js:309 | what the validator returns it returns again unchanged |
| QueryForms.AcceptsExactly | server/analytics/queryBuilder.js:215-309 | which queries are accepted, spelled out for each kind of metric, its filters, dimensions and periods |
| QueryForms.CanonicalStrips | server/analytics/queryBuilder.js:215-309 | what comes out is what came in without the blanks around it, and thirty days for a missing period |
| QueryForms.CompilesExactly | server/analytics/nlParser.js:270-326 | a question about one metric is compiled unless it breaks down by what the metric does not have, names a restaurant or, for a business metric, a business, or asks a cancellation rate of both roles |
| QueryForms.CompiledMeans | server/analytics/nlParser.js:270-326 | what a compiled question asks: its metric, each dimension once, and which filters it carries when |
| QuestionQuery.ParsedQueriesPassExactlyWhen | server/analytics/nlParser.js:270-326 | with the builder's dimension table or the parser's own, what the parser compiles passes the validator unchanged exactly when the metric is a builder metric, ids are positive safe integers, a restaurant is named only beside restaurant metrics, and role is not both filter and dimension |
| QuestionQuery.TablesAgree | server/analytics/nlParser.js:119-151 | the parser's own table, written out, and the builder's give a name the same dimensions if and only if it is not one of the five owners' metrics, none of which is a builder metric |
| LegalText.ApplyTakes | client/scripts/translate-legal-content.py:43-56 | applying succeeds exactly when there are enough strings, takes as many as were collected, changes no key, literal or skipped value, and collecting the result gives back the strings |
| LegalText.ShapeAndStringsDetermine | client/scripts/translate-legal-content.py:30-56 | a tree is determined by its shape and its strings |
| LegalText.RoundTrip | client/scripts/translate-legal-content.py:30-56 | applying the strings of any tree of the same shape gives that tree and leaves the rest of the strings |
| LegalText.ApplyingCollectedChangesNothing | client/scripts/translate-legal-content.py:30-56 | applying what was collected rebuilds the tree |
| LegalText.CollectStrings | client/scripts/translate-legal-content.py:30-40 | the accumulator grows by the strings of the tree, in order |
| LegalText.ApplyStrings | client/scripts/translate-legal-content.py:43-56 | the iterator form computes the specified tree and leaves the rest, or stops when it runs out |
| LegalTranslation.MadeOfPieces | client/scripts/translate-legal-content.py:59-75 | whatever fails, the sources of the pieces make up the text, their outputs the result, and each piece holds the service's answer to it, or is blank, or short and refused four times |
| LegalTranslation.CallsAreBounded | client/scripts/translate-legal-content.py:59-75 | splitting ends: at most four calls for each piece and each split text |
| LegalTranslation.NoAnswerNoChange | client/scripts/translate-legal-content.py:74-75 | a service that never answers leaves every text unchanged |
| LegalTranslation.BlankMeans | client/scripts/translate-legal-content.py:60 | which texts are blank, by the characters that count as spaces |
| LegalTranslation.Translator.TranslateOne | client/scripts/translate-legal-content.py:59-75 | the retry loop with its split computes the specified translation and number of calls |
| LegalTranslation.Translator.TranslateFlat | client/scripts/translate-legal-content.py:78-85 | the strings are translated in order, the service's calls threaded through |
| LegalTranslation.Translator.TranslateSection | client/scripts/translate-legal-content.py:94-110 | a section never fails on a string count, keeps its shape, and holds the translations of its own strings in order |
| LegalTranslation.UnansweredSectionUnchanged | client/scripts/translate-legal-content.py:88-110 | a section translated by a service that never answers comes back as it was |
| MoneyFormat.FormattedValueReadsBack | server/analytics/metricAlerts.js:355-374 | for every finite integer text and every currency scale, sign, whole part and padded fraction read back as the same integer, with a minus sign exactly when it is negative and no idle zero; all else is a dash |
| MoneyFormat.PrintsDiffer | server/analytics/metricAlerts.js:364-369 | two different amounts never print alike, signs of amounts below one unit included |
| MoneyFormat.FiniteIsNearADouble | server/analytics/metricAlerts.js:358 | an amount is finite exactly when it is less than halfway from the largest double to the next step beyond |
| MoneyFormat.AmountsReadBack | server/analytics/metricAlerts.js:363-369 | every finite amount is printed from its decimal text and reads back as itself |
| Locales.Chunk | scripts/translate-locales.js:116-120 | the slicing loop gives the specified batches |
| Locales.ChunksMakeUp | scripts/translate-locales.js:116-120 | the batches join to the list, none is empty, and all but the last are full |
| Locales.AlignedExactlyWhen | scripts/translate-locales.js:145-161 | every text meets its own answer exactly when each batch but the last brought one answer a text and the last no fewer |
| Locales.ShortBatchShifts | scripts/translate-locales.js:145-161 | sixty texts of which the first fifty come back as forty-nine: the fiftieth takes the answer to the fifty-first |
| Locales.TranslateLanguage | scripts/translate-locales.js:123-172 | nothing is written exactly when no key is missing; otherwise the English keys in their order, with the translation each had or the text at its place among the missing |
| LocaleOrigins.TextIsReadingOfOrigin | scripts/translate-locales.js:145-165 | the text of each missing key is that of its origin, which the counts and nulls of the answers alone determine |
| LocaleOrigins.OriginIsOwnExactlyWhen | scripts/translate-locales.js:145-165 | a missing key ends up with its own answer, or its own text where there is none, exactly when that is there and the batches before brought as many texts as asked, or nothing is there for it and its place among the missing keys is its place among all |
| LocaleOrigins.KeyHoldsItsOwnExactlyWhen | scripts/translate-locales.js:145-165 | a missing key of the written file holds its own whatever the texts are, if and only if that condition on counts and nulls holds |
| LocaleOrigins.NullTakesAnotherKeysText | scripts/translate-locales.js:163-165 | one null answer gives a key the English text of another |
| LocalePool.EveryTaskOnce | scripts/translate-locales.js:175-186 | the pool is as wide as asked or as there are tasks; no task is on two workers or runs again, every task has been drawn once a worker ran out of tasks, and what was drawn has run once the workers rest |
| LocalePool.AllDoneUnlessThrown | scripts/translate-locales.js:175-186 | when no task throws and the workers rest, all tasks are done |
| LocalePool.FailuresCostWorkers | scripts/translate-locales.js:175-186 | each failed task stops exactly one worker |
| Text.UuidSpelled | server/analytics/promotionLinkAnalytics.js:45 | a UUID is five groups of hexadecimal digits, in either case, with hyphens between them |
| Text.TrimmedStrips | server/analytics/queryBuilder.js:215-309 | trimming takes the listed blanks at both ends, all of them and nothing else |
| Text.CasesChanged | server/analytics/regionScope.js:99-102 | upper and lower case exchange the 26 letters and change nothing else |

## Left out

- SQL text and regular expressions: statements are terms of a relational language written with the words the rewriter's patterns look at. A common table expression whose name is quoted or followed by a column list is not a template here: the rewriter takes reads of it for a table and refuses them, unless the name is an anchored table's; then the text is accepted, and the database rejects the name declared twice.
- WITH RECURSIVE is refused before evaluation, so its meaning is not modelled.
- The haversine distance of `geo_radius` is an arbitrary predicate; the proofs do not use its value. `normalizeBoundary` and the JSON form of regions are not modelled. Which of several centroid rows that come first alike is picked is left open; what RowLocations.UsersWithinRadius says holds for any of them.
- `userCountryBreakdown`, metric permissions and scope resolution are not modelled.
- The error texts, timings and logging of the migration runner, and an operator's reconciliation of rows left applying. The SQL of a migration is atomic or not as the migration itself decides; only its success is modelled.
- `slug`, `campaignName` and the validation of owners: events come with normalised tags. Rates, rounded ratios and the LIMIT of 50 on campaigns are left out of the reports, as are `first_event_at` and row orders.
- Percentages and their rounding in the take rate, MRR and escrow; the growth metrics; top items and retention cohorts, whose evidence repeats the same joins.
- 64-bit overflow of SUM and of COUNT casts: sums are unbounded integers.
- Two requests of the promotion log or two statements of one evidence query seeing different times or snapshots: each is handled at one instant, on one state.
- AssetCacheWrites.AssetStore.Prune: one reading of the clock, and storage that does not fail halfway; the source reads the clock for each record and swallows storage errors. What a prune cut short leaves is stated by AssetCacheWrites.DropsOnlyDrop.
- AssetCacheWrites.AssetStore.Store: the prunes within it run to their end.
- The share-target drafts, navigation, push and fetch routing of the service worker.
- The times at which markers and leases expire, which here is at any time, and the order of the queue's lists.
- Payload fields other than id, attempts and due time, and a job without a claimed payload, which `getNextJob` never returns.
- Socket, HTTP and timer mechanics of probes, and other writers of the runtime state beside the observer.
- QueryAudit.Builder.WalkEvidence: the result is taken to stay the same from page to page; each page is its own transaction in the source.
- The summary query, statement timeouts and scope lookups of the query builder appear only as possible failures.
- Adversarial screening, quarter rejection and the time and dimension patterns of the parser: the parser is modelled from what they find.
- Locale grouping, currency signs and digits other than 0 to 9 in printed amounts, and number comparison, which is exact by the integers it uses.
- JavaScript strings are sequences of characters; surrogate pairs and case folding beyond ASCII are not modelled.
- Writing files, reading environment variables and the language list in the translation scripts.
