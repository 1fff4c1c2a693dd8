# awin-feed-sync core, modelled in Dafny

awin-feed-sync copies Awin merchant product feeds into a product catalogue.
A sync run does the following:

- It records a `SyncRun` row.
- It fetches the approved advertisers and filters them by id and count.
- For each advertiser it stores the advertiser row and streams the
  advertiser's feed records.
- It turns each record into a `Product`. The product carries a stable
  product key, a content hash and a computed tracking link.
- It upserts the products in batches. New keys are inserted. Rows whose
  content hash changed are refreshed and revived. Rows whose hash is the
  same only have their last-seen time moved.
- It tombstones the advertiser's products that the run did not see.
- It closes the run row as completed or failed, with counters.

This project models that core:

- the content hasher (`content_hasher.dfy`);
- the product repository, a class over the three tables (`product_repository.dfy`);
  its specification functions and their properties are in `store_model.dfy`;
- the computed link builder and `Uri.EscapeDataString` (`link_builders.dfy`);
- the feed source's column mapping and record parsing (`feeds.dfy`);
- the sync service, a class whose methods drive the repository
  (`feed_sync_service.dfy`); it is specified by the functions of
  `sync_model.dfy`, and the run-level properties are proved in
  `sync_properties.dfy`.

The entities are in `models.dfy`. The .NET string primitives the core uses
are in `text.dfy`.

Library code the core calls becomes a parameter of the model:

- SHA-256 over the JSON of the nine hashed fields is a `digest` function
  from the projection to text. The lemmas that need a collision-free digest
  take `Injective(digest)` as a precondition.
- `new Uri(..)` is a partial `parseUri` function that yields host and path.
- `decimal.TryParse` is a partial `tryParseDecimal` function.
- CsvHelper's reader is a `readCsv` function that yields the header record
  and the rows.
- The clock is three readings:
  - `startedAt`, taken when the run row is created;
  - `runTime`, the run time every product is stamped with;
  - `now`, taken at every save.
- The advertiser source gives either a fetch failure with its message or
  the list of advertisers.
- Each advertiser's feed is a `FeedStream`: its records, and whether
  enumerating it throws.
- Cancellation is the index at which the advertiser loop, or the row loop
  of the parser, finds the token cancelled.

The database is a value `Db` with these parts:

- products, keyed by (advertiser id, product key), which is the unique
  index of `AwinDbContext.cs`;
- sync runs and advertisers, keyed by id;
- the identity counters for new product, run and advertiser ids. They
  count from 1, and a key of 0 is the unset key that EF fills from them.

`ProductRepository` keeps the tables in fields and `State()` reads them back.
Every method states its new state as a specification function of the old one.

## Model

| member | source | states |
|---|---|---|
| ContentHasher.NormalizeUrl | src/AwinFeedSync.Core/Services/ContentHasher.cs:42-55 | blank text gives ""; a parsable URL gives host + absolute path, lower-cased; an unparsable one gives the whole text, lower-cased; the result is always lower-case |
| ContentHasher.GenerateProductKey | src/AwinFeedSync.Core/Services/ContentHasher.cs:31-40 | the key is "<advertiser id>:" followed by the SKU when it is not blank, otherwise by the feed product id when that is not blank, otherwise by the normalised product URL |
| ContentHasher.ProductKeyInjective | src/AwinFeedSync.Core/Services/ContentHasher.cs:31-40 | equal keys mean the same advertiser and the same chosen identifier, since the decimal id holds no ':' |
| ContentHasher.SkuDecidesKey | src/AwinFeedSync.Core/Services/ContentHasher.cs:33-34 | two records with the same non-blank SKU get the same key whatever their other identifiers |
| ContentHasher.KeyIgnoresContent | src/AwinFeedSync.Core/Services/ContentHasher.cs:31-40 | the key depends only on SKU, feed product id and product URL, so a price or name change keeps the row's identity |
| ContentHasher.UrlKeyIgnoresQuery | src/AwinFeedSync.Core/Services/ContentHasher.cs:42-55 | without SKU or feed id, two URLs with the same host and path (for example, differing only in the query) give the same key |
| ContentHasher.BlankIdentityKey | src/AwinFeedSync.Core/Services/ContentHasher.cs:33-44 | a record with blank SKU, feed id and URL gets the key "<advertiser id>:", so all such records of an advertiser collide |
| ContentHasher.HashDependsOnlyOnProjection | src/AwinFeedSync.Core/Services/ContentHasher.cs:10-29 | records that agree on the nine hashed fields have the same hash; SKU, feed id and extra fields do not affect it |
| ContentHasher.HashSeparatesContent | src/AwinFeedSync.Core/Services/ContentHasher.cs:12-23 | with a collision-free digest, a change in any one of the nine hashed fields changes the hash |
| ContentHasher.HashSeesDecimalScale | src/AwinFeedSync.Core/Services/ContentHasher.cs:12-25 | prices 10 and 10.00 are numerically equal, yet they hash differently because the serialised decimal keeps its scale |
| Text.ToLowerIsLowerCase | src/AwinFeedSync.Core/Services/ContentHasher.cs:49-53 | ToLowerInvariant yields lower-case text and is idempotent |
| Text.IntToStringInjective | src/AwinFeedSync.Core/Services/ContentHasher.cs:39 | the decimal text of the advertiser id determines the id |
| Text.IntToStringIsNumeral | src/AwinFeedSync.Core/Services/ContentHasher.cs:39 | the decimal text of an id holds only digits and a leading '-', so it contains no ':' (the key separator) and no '&' (the link parameter separator) |
| Data.ProductRepository.constructor | src/AwinFeedSync.Infrastructure/Data/ProductRepository.cs:8-19 | a repository starts over empty, valid tables |
| Data.ProductRepository.CreateSyncRun | src/AwinFeedSync.Infrastructure/Data/ProductRepository.cs:21-32 | stores and returns a new "running" row with the next run id: an id not used before, start time `now`, zero counters |
| Data.ProductRepository.UpdateSyncRun | src/AwinFeedSync.Infrastructure/Data/ProductRepository.cs:34-38 | the new tables and the returned run are the run-update specification of the old ones: a run with id 0 is inserted under the next run id, which the returned run carries; a run with another id overwrites that row, and fails and changes nothing when no such row exists |
| Data.ProductRepository.UpsertProducts | src/AwinFeedSync.Infrastructure/Data/ProductRepository.cs:40-80 | the new tables are the upsert specification of the old ones; the save fails exactly when the batch repeats a key that was not yet stored |
| Data.TrackBatch | src/AwinFeedSync.Infrastructure/Data/ProductRepository.cs:42-77 | the lookup loop: rows found by key are merged in order, with later batch items seeing earlier merges; the rest become pending inserts, none of them already stored |
| Data.NumberInserts | src/AwinFeedSync.Infrastructure/Data/ProductRepository.cs:47-50 | the pending inserts get consecutive identity values in order, each under its own key |
| Data.ProductRepository.MarkMissingProductsInactive | src/AwinFeedSync.Infrastructure/Data/ProductRepository.cs:82-87 | the new products table is the sweep of the old one for that advertiser and run time |
| Data.ProductRepository.GetAdvertiser | src/AwinFeedSync.Infrastructure/Data/ProductRepository.cs:89-92 | finds the advertiser exactly when its id is stored, and returns that row |
| Data.ProductRepository.UpsertAdvertiser | src/AwinFeedSync.Infrastructure/Data/ProductRepository.cs:94-111 | the new tables and the returned advertiser are the advertiser-upsert specification of the old ones; a returned advertiser is stored under its non-zero id |
| StoreModel.Sweep | src/AwinFeedSync.Infrastructure/Data/ProductRepository.cs:82-87 | afterwards no row of the advertiser is active and unseen since the run time; only null tombstones move, and only to the run time; other advertisers, rows seen since the run time and older tombstones keep their rows |
| StoreModel.SweepIdempotent | src/AwinFeedSync.Infrastructure/Data/ProductRepository.cs:85 | sweeping twice with the same arguments is sweeping once |
| StoreModel.SweepPreservesValid | src/AwinFeedSync.Infrastructure/Data/ProductRepository.cs:82-87 | the sweep keeps the table invariants: rows under their own key, unique ids below the counter |
| StoreModel.PendingFacts | src/AwinFeedSync.Infrastructure/Data/ProductRepository.cs:44-50 | the pending inserts are exactly the batch's new keys, each one a batch item; they are distinct exactly when the batch repeats no new key |
| StoreModel.TrackTouches | src/AwinFeedSync.Infrastructure/Data/ProductRepository.cs:42-77 | stored rows the batch does not name are untouched; named rows keep id, key and AI-summary fields, get last-seen `now`, and either keep the tombstone or clear it |
| StoreModel.TrackDistinct | src/AwinFeedSync.Infrastructure/Data/ProductRepository.cs:51-76 | with distinct keys, each stored row named by the batch becomes the merge of it with its batch item |
| StoreModel.InsertionsFacts | src/AwinFeedSync.Infrastructure/Data/ProductRepository.cs:47-50 | inserted rows are the pending items under their keys, with ids nextId, nextId+1, … in order, all different |
| StoreModel.UpsertFailsOnlyOnRepeatedNewKey | src/AwinFeedSync.Infrastructure/Data/ProductRepository.cs:40-80 | the save succeeds exactly when no new key appears twice in the batch; a failed save changes nothing |
| StoreModel.UpsertCommits | src/AwinFeedSync.Infrastructure/Data/ProductRepository.cs:79 | when the pending keys are distinct, the save commits the tracked rows plus the numbered inserts and advances the product counter by their number |
| StoreModel.UpsertKeepsOtherTables | src/AwinFeedSync.Infrastructure/Data/ProductRepository.cs:40-80 | the upsert leaves the run and advertiser tables and the run counter alone, and never lowers the product counter |
| StoreModel.UpsertKeys | src/AwinFeedSync.Infrastructure/Data/ProductRepository.cs:40-80 | after a successful upsert the stored keys are the old keys plus the batch's keys |
| StoreModel.UpsertLeavesUnnamedRows | src/AwinFeedSync.Infrastructure/Data/ProductRepository.cs:42-77 | rows the batch does not name are unchanged |
| StoreModel.UpsertTouchesNamedRows | src/AwinFeedSync.Infrastructure/Data/ProductRepository.cs:51-76 | stored rows the batch names keep their identity and AI-summary fields and are seen at `now` |
| StoreModel.UpsertInsertsFromBatch | src/AwinFeedSync.Infrastructure/Data/ProductRepository.cs:47-50 | every newly stored row is a batch item with that key, apart from its id |
| StoreModel.UpsertPreservesValid | src/AwinFeedSync.Infrastructure/Data/ProductRepository.cs:40-80 | the upsert keeps the table invariants, including unique ids below the counter, on both the success and the failure path |
| StoreModel.UpsertClassifies | src/AwinFeedSync.Infrastructure/Data/ProductRepository.cs:44-76 | with distinct keys the save succeeds. A new key is stored as its item with a fresh id. A changed hash refreshes every feed field and clears the tombstone. An equal hash changes only last-seen |
| StoreModel.UnchangedProductStaysInactive | src/AwinFeedSync.Infrastructure/Data/ProductRepository.cs:73-76 | re-delivering a tombstoned product with unchanged content keeps its tombstone and only moves last-seen |
| StoreModel.ChangedProductRevives | src/AwinFeedSync.Infrastructure/Data/ProductRepository.cs:51-72 | re-delivering a product with changed content revives it: no tombstone, new content and hash, last-changed `now`, same id |
| StoreModel.UpsertOfStoredContent | src/AwinFeedSync.Infrastructure/Data/ProductRepository.cs:73-76 | upserting products that are all stored with equal hashes inserts nothing and changes only the named rows' last-seen |
| StoreModel.UpsertTwiceOnlyMovesLastSeen | src/AwinFeedSync.Infrastructure/Data/ProductRepository.cs:40-80 | upserting the same batch again succeeds, inserts nothing and changes only last-seen of its rows |
| StoreModel.CreateSyncRunIsFresh | src/AwinFeedSync.Infrastructure/Data/ProductRepository.cs:21-32 | the new run is "running", unfinished, has zero counters and an unused id, and is the only row added |
| StoreModel.UpdateSyncRunOverwrites | src/AwinFeedSync.Infrastructure/Data/ProductRepository.cs:34-38 | a run with id 0 is inserted under the next run id, a fresh one, and comes back carrying it; a run with another id succeeds exactly when that id is stored, and then only that row changes, to the given run; a failed update changes nothing; validity is kept |
| StoreModel.UpsertAdvertiserStores | src/AwinFeedSync.Infrastructure/Data/ProductRepository.cs:94-111 | an advertiser with an id keeps it: stored as given when new, or its row gets name, status and default commission overwritten and updated-at `now`. One with id 0 is inserted under the next advertiser id and comes back carrying it; the save fails, leaving the advertisers as they were, exactly when that id is already taken. The counter moves only for id 0. Nothing else changes, and validity is kept |
| LinkBuilders.ComputedLinkBuilder.BuildTrackingLinksBatch | src/AwinFeedSync.Infrastructure/LinkBuilders/ComputedLinkBuilder.cs:32-42 | the result maps exactly the given URLs, each to its tracking link without click reference |
| LinkBuilders.ComputedLinkBuilder.TrackingLinkIsJoin | src/AwinFeedSync.Infrastructure/LinkBuilders/ComputedLinkBuilder.cs:19-30 | the link is the cread.php base followed by the '&'-joined parameters awinmid, awinaffid, ued, and clickref when it is not null or empty |
| LinkBuilders.ComputedLinkBuilder.TrackingLinkParameters | src/AwinFeedSync.Infrastructure/LinkBuilders/ComputedLinkBuilder.cs:19-30 | when the publisher id has no '&', splitting the query at '&' gives back exactly those parameters, and the escaped URL and click reference unescape to their UTF-8 bytes |
| LinkBuilders.ComputedLinkBuilder.ParametersHaveNoAmp | src/AwinFeedSync.Infrastructure/LinkBuilders/ComputedLinkBuilder.cs:21-26 | no parameter contains '&' when the publisher id does not |
| LinkBuilders.EscapeDataStringAlphabet | src/AwinFeedSync.Infrastructure/LinkBuilders/ComputedLinkBuilder.cs:21 | escaped text consists of unreserved characters and '%' only, hence holds no '&', '=', '#' or '?' |
| LinkBuilders.EscapeDataStringRoundTrip | src/AwinFeedSync.Infrastructure/LinkBuilders/ComputedLinkBuilder.cs:21 | percent-decoding the escaped text gives back the text's UTF-8 bytes |
| LinkBuilders.UnescapePercents | src/AwinFeedSync.Infrastructure/LinkBuilders/ComputedLinkBuilder.cs:21 | decoding a run of %XX triples gives back its bytes, followed by the decoding of the rest |
| LinkBuilders.HexRoundTrip | src/AwinFeedSync.Infrastructure/LinkBuilders/ComputedLinkBuilder.cs:21 | the two upper-case hex digits of a byte give the byte back |
| LinkBuilders.EscapeConcat | src/AwinFeedSync.Infrastructure/LinkBuilders/ComputedLinkBuilder.cs:21 | escaping is applied character by character, so it distributes over concatenation |
| LinkBuilders.EscapeKeepsUnreserved | src/AwinFeedSync.Infrastructure/LinkBuilders/ComputedLinkBuilder.cs:21 | text of unreserved characters is left as it is |
| LinkBuilders.EscapesColonAndSlash | src/AwinFeedSync.Infrastructure/LinkBuilders/ComputedLinkBuilder.cs:21 | ':' becomes "%3A" and '/' becomes "%2F" |
| LinkBuilders.SplitJoinAmp | src/AwinFeedSync.Infrastructure/LinkBuilders/ComputedLinkBuilder.cs:22-26 | joining '&'-free parameters with '&' and splitting at '&' is the identity |
| SyncModel.Computed | src/AwinFeedSync.Console/Program.cs:66 | the builder the host wires builds every link with the computed builder and names its source "computed" |
| SyncProperties.ComputedBuilderStampsProducts | src/AwinFeedSync.Infrastructure/LinkBuilders/ComputedLinkBuilder.cs:44 | with the computed builder, each product's tracking URL is the computed link for its product URL and its link source is "computed" |
| Feeds.ColumnMapLookup | src/AwinFeedSync.Infrastructure/Feeds/AwinProductFeedSource.cs:161-169 | a name is in the case-insensitive column map exactly when some header equals it ignoring case, and it maps to the last such header |
| Feeds.ColumnMapValues | src/AwinFeedSync.Infrastructure/Feeds/AwinProductFeedSource.cs:161-169 | every value of the map is a header whose folded form is its key |
| Feeds.BuildColumnMap | src/AwinFeedSync.Infrastructure/Feeds/AwinProductFeedSource.cs:161-169 | the loop builds the column map of the headers |
| Feeds.HeaderIndex | src/AwinFeedSync.Infrastructure/Feeds/AwinProductFeedSource.cs:177 | the index of a header name is that of its first occurrence, or the count when there is none |
| Feeds.GetField | src/AwinFeedSync.Infrastructure/Feeds/AwinProductFeedSource.cs:171-181 | the loop returns the field of the first candidate in the map, or null |
| Feeds.FieldPriority | src/AwinFeedSync.Infrastructure/Feeds/AwinProductFeedSource.cs:171-181 | when candidate j is the first with a matching header, the field is the row's value under the last header matching it |
| Feeds.FieldAbsent | src/AwinFeedSync.Infrastructure/Feeds/AwinProductFeedSource.cs:180 | when no candidate matches a header, the field is null |
| Feeds.SelectExtraFields | src/AwinFeedSync.Infrastructure/Feeds/AwinProductFeedSource.cs:149-155 | the loop collects every header that is not a value of the column map, with its field or "" |
| Feeds.ExtrasAreCaseShadowedHeaders | src/AwinFeedSync.Infrastructure/Feeds/AwinProductFeedSource.cs:149-155 | a header is an extra field exactly when the last header equal to it ignoring case is a different text |
| Feeds.NoExtrasWithoutCaseVariants | src/AwinFeedSync.Infrastructure/Feeds/AwinProductFeedSource.cs:149-155 | headers that are pairwise different ignoring case give no extra fields at all |
| Feeds.CaseVariantIsExtra | src/AwinFeedSync.Infrastructure/Feeds/AwinProductFeedSource.cs:149-155 | with headers "Color" and "color", "Color" is the one extra field, holding the first column |
| Feeds.UntilCancelled | src/AwinFeedSync.Infrastructure/Feeds/AwinProductFeedSource.cs:120-122 | with no cancellation every row is read; otherwise reading stops at the cancellation index or at the end |
| Feeds.ReadRecord | src/AwinFeedSync.Infrastructure/Feeds/AwinProductFeedSource.cs:124-155 | one row becomes the record of its mapped fields: the candidate columns in order, price and commission rate parsed, and the extras |
| Feeds.ReadRows | src/AwinFeedSync.Infrastructure/Feeds/AwinProductFeedSource.cs:120-158 | the loop yields one record per row read before cancellation, each the record of its row |
| Feeds.ParseFeed | src/AwinFeedSync.Infrastructure/Feeds/AwinProductFeedSource.cs:100-159 | with ',' or, for a .tsv path, tab as delimiter, and a missing header record read as no headers, record i is the record of row i, for every row read before cancellation |
| Feeds.GetProducts | src/AwinFeedSync.Infrastructure/Feeds/AwinProductFeedSource.cs:30-51 | a null or empty feed URL yields nothing; otherwise the records are those of the downloaded file read with ',' as delimiter, record i from row i |
| Feeds.DownloadedFeedIsCommaSeparated | src/AwinFeedSync.Infrastructure/Feeds/AwinProductFeedSource.cs:60-108 | the downloaded file is always named "feed_<id>_<time>.csv", so the delimiter chosen for it is always ',' and never a tab |
| Feeds.ShippedSourceYieldsNothing | src/AwinFeedSync.Infrastructure/Feeds/AwinProductFeedSource.cs:53-59 | feed discovery returns null for every advertiser, so the shipped source yields no record |
| SyncModel.BuildProduct | src/AwinFeedSync.Infrastructure/Services/FeedSyncService.cs:111-142 | a record becomes a product with its generated key and content hash, all times set to the run time, no tombstone, no AI summary, extras only when there are any, and the tracking link of its product URL |
| SyncModel.BuildProducts | src/AwinFeedSync.Infrastructure/Services/FeedSyncService.cs:109-145 | one product per record, in order |
| SyncModel.EffectiveBatchSize | src/AwinFeedSync.Infrastructure/Services/FeedSyncService.cs:147 | the flush threshold is the configured batch size, or 1 when that is below 1 |
| SyncModel.BatchingCovers | src/AwinFeedSync.Infrastructure/Services/FeedSyncService.cs:144-157 | the stream splits into full batches of the effective size and a shorter remainder, which together give back the products in order |
| SyncModel.FlushedCount | src/AwinFeedSync.Infrastructure/Services/FeedSyncService.cs:147-156 | the full batches hold a multiple of the batch size, fewer than one batch short of all products |
| SyncModel.StreamIsBatching | src/AwinFeedSync.Infrastructure/Services/FeedSyncService.cs:109-157 | a dry run changes nothing and counts the full batches as changed; a live run saves exactly the full batches in order and, when they all succeed, keeps the remainder for the final save |
| SyncModel.StreamFailStays | src/AwinFeedSync.Infrastructure/Services/FeedSyncService.cs:147-156 | once a batch save has failed, the rest of the stream changes nothing |
| SyncModel.FinishCases | src/AwinFeedSync.Infrastructure/Services/FeedSyncService.cs:159-171 | after the stream: a dry run returns its counts; otherwise the remainder is saved, the sweep runs when configured, and the remainder is added to the changed count |
| Services.FeedSyncService.constructor | src/AwinFeedSync.Infrastructure/Services/FeedSyncService.cs:20-34 | the service holds its configuration, link builder, hasher primitives and repository |
| Services.FeedSyncService.RunSync | src/AwinFeedSync.Infrastructure/Services/FeedSyncService.cs:36-94 | the tables and the result are the run specification of the old tables: the finished run, or none when the final save of a live run throws because the token is cancelled (its loop stopped at the token, or its fetch failed with the token cancelled) |
| Services.FeedSyncService.ProcessAdvertisers | src/AwinFeedSync.Infrastructure/Services/FeedSyncService.cs:59-72 | the loop over the visited advertisers, each in its own try/catch, follows the per-advertiser specification in order |
| Services.FeedSyncService.TryProcessAdvertiser | src/AwinFeedSync.Infrastructure/Services/FeedSyncService.cs:63-71 | a processed advertiser adds one to the count and its seen and changed counts; one that throws leaves the run as it was |
| Services.FeedSyncService.ProcessAdvertiser | src/AwinFeedSync.Infrastructure/Services/FeedSyncService.cs:96-175 | the tables and the outcome are the per-advertiser specification of the old tables: the upsert, whose failure ends the advertiser, and then the feed of the id the advertiser carries after it (a generated one when it had id 0), which also keys its products and its sweep |
| Services.FeedSyncService.ReadFeed | src/AwinFeedSync.Infrastructure/Services/FeedSyncService.cs:109-157 | the streaming loop's batch, counters and tables are the stream specification of the built products |
| Services.FeedSyncService.AddToBatch | src/AwinFeedSync.Infrastructure/Services/FeedSyncService.cs:144-156 | adding one product counts it as seen and flushes the batch when it reaches the batch size |
| Services.FeedSyncService.FinishAdvertiser | src/AwinFeedSync.Infrastructure/Services/FeedSyncService.cs:159-171 | the final save, the sweep and the counts follow the finishing specification |
| SyncProperties.ProcessDryRun | src/AwinFeedSync.Infrastructure/Services/FeedSyncService.cs:96-175 | a dry run writes nothing. It completes exactly when the feed does not throw. It then counts every record as seen, and counts as changed the records in full batches, which is less than one batch short of the seen count |
| SyncProperties.ProcessCountsEveryRecord | src/AwinFeedSync.Infrastructure/Services/FeedSyncService.cs:100-171 | a live advertiser that completes was stored, and counts every record of the feed of its stored id as both seen and changed, whether or not its content changed |
| SyncProperties.FeedSucceedsWithoutRepeatedKeys | src/AwinFeedSync.Infrastructure/Services/FeedSyncService.cs:109-171 | a feed that does not throw and whose products have distinct keys is always streamed to completion |
| SyncProperties.ProcessSucceedsWithoutRepeatedKeys | src/AwinFeedSync.Infrastructure/Services/FeedSyncService.cs:100-171 | the upsert keeps a dry-run advertiser, or one with an id, as it is; an advertiser whose upsert succeeds and whose stored id's feed does not throw and has distinct keys always completes |
| SyncProperties.ChainSucceeds | src/AwinFeedSync.Infrastructure/Services/FeedSyncService.cs:147-156 | a chain of batch saves, each with distinct keys, succeeds |
| SyncProperties.FeedKeepsRuns | src/AwinFeedSync.Infrastructure/Services/FeedSyncService.cs:105-168 | streaming a feed never touches the run table or the run counter |
| SyncProperties.ProcessKeepsRuns | src/AwinFeedSync.Infrastructure/Services/FeedSyncService.cs:96-175 | processing an advertiser never touches the run table or the run counter |
| SyncProperties.UpsertTombstones | src/AwinFeedSync.Infrastructure/Data/ProductRepository.cs:40-80 | upserting untombstoned products only keeps or clears tombstones |
| SyncProperties.SweepTombstones | src/AwinFeedSync.Infrastructure/Data/ProductRepository.cs:82-87 | the sweep keeps every tombstone or sets it to the run time |
| SyncProperties.FeedTombstones | src/AwinFeedSync.Infrastructure/Services/FeedSyncService.cs:105-168 | streaming a feed and the sweep after it delete no row; every tombstone is cleared, kept, or set to the run time, and the latter only when the sweep is on and the run is live |
| SyncProperties.ProcessTombstones | src/AwinFeedSync.Infrastructure/Services/FeedSyncService.cs:96-175 | after an advertiser every tombstone is cleared, kept, or set to the run time, and the latter only when the sweep is on and the run is live |
| SyncProperties.RunTombstones | src/AwinFeedSync.Infrastructure/Services/FeedSyncService.cs:36-94 | the same holds for a whole run: no tombstone ever holds a time other than its old one or the run time |
| SyncProperties.FeedSparesDelivered | src/AwinFeedSync.Infrastructure/Services/FeedSyncService.cs:109-168 | after a live feed that completes, every delivered record's key is stored under the advertiser's id, seen at or after the run time, and active unless it was already tombstoned |
| SyncProperties.ProcessSparesDelivered | src/AwinFeedSync.Infrastructure/Services/FeedSyncService.cs:100-168 | after a live advertiser that completes, which was stored, every record of its stored id's feed is stored under that id and its key, seen at or after the run time, and active unless it was already tombstoned, so the sweep never tombstones a delivered product |
| SyncProperties.EmptyFeedSweeps | src/AwinFeedSync.Infrastructure/Services/FeedSyncService.cs:105-168 | an empty feed that does not throw, in a live run with the sweep on, counts nothing and only sweeps the advertiser's id |
| SyncProperties.ProcessEmptyFeed | src/AwinFeedSync.Infrastructure/Services/FeedSyncService.cs:100-171 | with empty feeds, in a live run with the sweep on, an advertiser whose upsert fails throws after it; otherwise it counts nothing and, after the upsert, tombstones at the run time every stale active product filed under its stored id |
| SyncProperties.EmptyFeedStep | src/AwinFeedSync.Infrastructure/Services/FeedSyncService.cs:59-72 | over empty feeds one more advertiser keeps every row untouched or tombstoned at the run time, sweeps the stale rows of its id when it has one, and keeps earlier advertisers swept |
| SyncProperties.ProcessAllEmptyFeeds | src/AwinFeedSync.Infrastructure/Services/FeedSyncService.cs:59-72 | when every feed is empty, each row is unchanged or tombstoned at the run time, and the stale rows of every visited advertiser with a non-zero id are tombstoned |
| SyncProperties.RunWithEmptyFeeds | src/AwinFeedSync.Infrastructure/Services/FeedSyncService.cs:36-94 | with the shipped feed source, a live run with the sweep on tombstones the stale catalogue of every visited advertiser with a non-zero id, and a returned run counts no product seen or changed |
| SyncProperties.ProcessAllNothingSeen | src/AwinFeedSync.Infrastructure/Services/FeedSyncService.cs:59-72 | with empty feeds no product is counted, and when every visited advertiser has a non-zero id each of them is processed |
| SyncProperties.ProcessAllCounts | src/AwinFeedSync.Infrastructure/Services/FeedSyncService.cs:59-72 | the loop changes only the three counters of the run. It processes at most one advertiser per visit. It adds no more changed than seen, and equal numbers in a live run. It keeps the run table, and a dry run keeps all tables |
| SyncProperties.RunOutcome | src/AwinFeedSync.Infrastructure/Services/FeedSyncService.cs:36-94 | no run is returned exactly when a live run's final save sees the token cancelled: its loop stopped at the token, or its fetch failed with the token cancelled. A returned run has the fresh id, its start time and its finish time. A failed fetch gives "failed" with its message and zero counts. Otherwise it is "completed" with no error and at most one processed advertiser per visited one. Changed never exceeds seen, and equals it in a live run |
| SyncProperties.DryRunLeavesRunningRow | src/AwinFeedSync.Infrastructure/Services/FeedSyncService.cs:36-88 | a dry run leaves products and advertisers untouched, and its run row stays as created: "running", unfinished, zero counts |
| SyncProperties.RunStoresReturnedRun | src/AwinFeedSync.Infrastructure/Services/FeedSyncService.cs:36-88 | a live run stores exactly the run it returns, under a new id; when the final save sees the token cancelled nothing is returned and the row is not updated: it stays "running", and the model does not record counters written by earlier saves |
| SyncProperties.SelectFacts | src/AwinFeedSync.Infrastructure/Services/FeedSyncService.cs:47-55 | the selection is a prefix of the id-filtered list (or of the fetched list without an id): all of it without a limit, otherwise its first max advertisers, none when max is zero or less; so it keeps fetched order, and every selected advertiser is fetched and has the requested id |
| SyncProperties.FilterByIdFacts | src/AwinFeedSync.Infrastructure/Services/FeedSyncService.cs:47-50 | the filter keeps exactly the advertisers with the id; a single advertiser is kept exactly when it has the id |
| SyncProperties.FilterByIdConcat | src/AwinFeedSync.Infrastructure/Services/FeedSyncService.cs:47-50 | the filter distributes over concatenation, so the kept advertisers stay in fetched order |
| SyncProperties.VisitedIsPrefix | src/AwinFeedSync.Infrastructure/Services/FeedSyncService.cs:59-61 | the loop visits a prefix of the selection: all of it without cancellation, otherwise up to the cancellation index |

## Left out

- HTTP download, zip extraction and CsvHelper's tokenising are the `readCsv` parameter, which yields headers and rows.
- The OAuth client, the advertiser source and the LinkBuilder API client are not part of this model. The advertiser source is a parameter.
- Entity Framework wiring, migrations, hosting, the SyncWorker and command-line parsing are omitted, as is the logging.
- SHA-256, JSON serialisation, `Uri` parsing and `decimal.TryParse` are function parameters. So is their culture handling.
- EF's change tracker is not modelled across saves. After a failed save, the rejected changes stay tracked and are retried by the next save of the same context. Here every save starts from the committed tables.
- SyncProperties.RunStoresReturnedRun, SyncModel.RunSpec: intermediate persistence of the run row is not modelled. The run object stays tracked by the context that created it. The service bumps its counters after each advertiser, and the next save of that context writes them, for example the next advertiser's UpsertAdvertiser. Here the run row is written only by CreateSyncRun and UpdateSyncRun. So when a live run's final save throws on a cancelled token, the model leaves the row at zero counts, while the program's row may hold the counts of every processed advertiser except the last.
- The 32-bit counters are unbounded integers and the decimals carry no range limit.
- Case-insensitive comparison and ToLower work on ASCII letters only.
- The products' Extra column is modelled as the dictionary rather than its JSON text.
- One `now` reading serves every save of a run, where the code reads the clock at each statement.
- Cancellation is checked at the head of the advertiser loop and of the parser's row loop. A cancellation thrown inside a repository call is treated like any other exception, as the advertiser's `throws`. A live run throws from its final save when its loop stopped at the token, or when its fetch failed with the token cancelled (SyncModel.RunSpec). A token cancelled only after the loop's last check is not modelled.
- SyncModel.RunSpec, SyncProperties.RunOutcome, SyncProperties.ProcessAllCounts: after a failed save (a product batch on the unique (advertiser, product key) index, or an advertiser inserted under a generated id that is taken), EF keeps the rejected inserts tracked, so every later save of the same context fails again. That includes each later advertiser's UpsertAdvertiser and the final UpdateSyncRun, which then throws out of RunSyncAsync. The model does not capture this: later advertisers are processed from the committed tables and the run ends "completed".
- Product ids are modelled only as unique and below the identity counter, handed out in batch order. A PostgreSQL identity column does not roll back values drawn by a failed INSERT, so the database leaves a gap after a failed save; the model does not, and its next save reuses those values. (The advertiser counter does move past a value whose insert failed.) The exact numbering is not promised by the code.
- Dafny strings hold Unicode scalar values. The UTF-16 lone surrogates that .NET strings and Uri.EscapeDataString accept cannot be represented, so escaping is modelled only for well-formed text.
- Database failures other than these are not modelled: the unique (advertiser, product key) index, an update of a run id that has no row, and an advertiser inserted under a generated id that an explicit insert already took. CreateSyncRun never fails.
- LinkBuilders.ComputedLinkBuilder.GetSource has no contract of its own; what it returns is stated by SyncModel.Computed and SyncProperties.ComputedBuilderStampsProducts.

## Where the code and its design notes differ

The model follows the code in each of these cases.

- A product whose content is unchanged only gets its last-seen time moved. A product tombstoned earlier therefore stays inactive even though it is back in the feed. Only a content change clears the tombstone (StoreModel.UnchangedProductStaysInactive).
- ProductsChanged counts every flushed record, not only the inserted or refreshed ones (SyncProperties.ProcessCountsEveryRecord).
- A dry run still creates the run row through CreateSyncRun and never updates it. The row stays "running" (SyncProperties.DryRunLeavesRunningRow).
- Extra fields in production are the headers that are not column-map values. These are only headers whose last case-insensitive match is a different text, not the unknown columns (Feeds.ExtrasAreCaseShadowedHeaders). The parsing tests use their own copy, which checks against a list of known columns.
- Feed discovery returns null, so the shipped feed source yields no records. A live run with the sweep enabled therefore tombstones every stale product of every advertiser it reaches (SyncProperties.RunWithEmptyFeeds).
- A batch that names the same new key twice makes the save fail on the unique index. The advertiser is then counted as failed (StoreModel.UpsertFailsOnlyOnRepeatedNewKey). Only this first failure is followed; the failures it causes in later saves of the same context are listed under "Left out".
- The downloaded feed file is always named "feed_<id>_<time>.csv", also when a zip archive holds a ".tsv" entry. The tab branch of the delimiter choice is therefore never taken, and a tab-separated feed would be read with ',' (Feeds.DownloadedFeedIsCommaSeparated).
- A live run that stops at a cancelled token, or whose fetch failed with the token cancelled, passes that token to its final UpdateSyncRun, which throws. No run is returned, and the row is never marked completed or failed: it stays "running", with whatever counters earlier saves wrote (SyncProperties.RunOutcome, SyncProperties.RunStoresReturnedRun).
- UpdateSyncRun with a non-zero id that is not stored fails; a run with id 0 is inserted as a new row (StoreModel.UpdateSyncRunOverwrites).
- An advertiser with id 0 is inserted under a generated id, which the rest of ProcessAdvertiserAsync uses for the feed, the product keys and the sweep. The generated id can collide with an id inserted explicitly, and that advertiser's save then throws (StoreModel.UpsertAdvertiserStores, SyncProperties.ProcessSparesDelivered).
- The code adds each advertiser's counts to the shared run object at the end of ProcessAdvertiserAsync. Here ProcessAdvertiser returns them as an outcome and TryProcessAdvertiser adds them. In both, an advertiser that throws adds nothing.
