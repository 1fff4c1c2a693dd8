/** What a sync run guarantees, proved about the driver's functions: the
    counters, the dry run, the error paths, the tombstones, and the feed
    source that streams nothing. */
module SyncProperties {
  import opened Models
  import opened ContentHasher
  import opened StoreModel
  import opened SyncModel
  import Feeds
  import LinkBuilders

  // ---------------------------------------------------------------------
  // Keys within batches

  lemma DistinctConcat(a: seq<Product>, b: seq<Product>)
    requires DistinctKeys(a + b)
    ensures DistinctKeys(a) && DistinctKeys(b)
  {
    var c := a + b;
    forall i, j | 0 <= i < j < |a| ensures KeyOf(a[i]) != KeyOf(a[j]) {
      assert c[i] == a[i] && c[j] == a[j];
    }
    forall i, j | 0 <= i < j < |b| ensures KeyOf(b[i]) != KeyOf(b[j]) {
      assert c[|a| + i] == b[i] && c[|a| + j] == b[j];
    }
  }

  lemma {:induction false} DistinctFlatten(batches: seq<seq<Product>>)
    requires DistinctKeys(Flatten(batches))
    ensures forall i :: 0 <= i < |batches| ==> DistinctKeys(batches[i])
    decreases |batches|
  {
    if batches != [] {
      var init := batches[..|batches| - 1];
      DistinctConcat(Flatten(init), batches[|batches| - 1]);
      DistinctFlatten(init);
      forall i | 0 <= i < |batches| - 1 ensures DistinctKeys(batches[i]) {
        assert batches[i] == init[i];
      }
    }
  }

  /** Batches without a repeated key all save. */
  lemma {:induction false} ChainSucceeds(db: Db, batches: seq<seq<Product>>, now: Time)
    requires forall i :: 0 <= i < |batches| ==> DistinctKeys(batches[i])
    ensures UpsertChain(db, batches, now).1
    decreases |batches|
  {
    if batches != [] {
      var init := batches[..|batches| - 1];
      ChainSucceeds(db, init, now);
      UpsertFailsOnlyOnRepeatedNewKey(UpsertChain(db, init, now).0, batches[|batches| - 1], now);
    }
  }

  // ---------------------------------------------------------------------
  // Built products

  /** With the computed builder the host wires in, every product carries the
      computed link to its own URL (no click reference) and the source name
      "computed". */
  lemma ComputedBuilderStampsProducts(env: Env, b: LinkBuilders.ComputedLinkBuilder, advertiserId: int,
                                      r: ProductRecord, runTime: Time)
    requires env.links == Computed(b)
    ensures var p := BuildProduct(env, advertiserId, r, runTime);
      && p.trackingUrl == Some(b.BuildTrackingLink(advertiserId, r.productUrl.GetOr(""), None))
      && p.trackingUrlSource == Some("computed")
  {
  }

  // ---------------------------------------------------------------------
  // One advertiser: counts and failures

  /** A dry run writes nothing; it throws only when the stream does, and then
      counts every record as seen and the records of the full batches as
      changed, which is the record count rounded down to a multiple of the
      effective batch size. */
  lemma ProcessDryRun(db: Db, env: Env, advertiser: Advertiser, feeds: int -> FeedStream, clock: Clock)
    ensures var (d, o) := ProcessSpec(db, env, advertiser, feeds, clock, true);
      var feed := feeds(advertiser.advertiserId);
      var n := EffectiveBatchSize(env.config.batchSize);
      && d == db
      && (o.Processed? <==> !feed.throws)
      && (o.Processed? ==> o.seen == |feed.records| && o.changed <= o.seen < o.changed + n)
      && (o.Processed? ==>
            o.changed == |Batching(BuildProducts(env, advertiser.advertiserId, feed.records, clock.runTime),
                                   env.config.batchSize).0| * n)
  {
    var feed := feeds(advertiser.advertiserId);
    var ps := BuildProducts(env, advertiser.advertiserId, feed.records, clock.runTime);
    StreamIsBatching(db, ps, env.config.batchSize, clock.now, true);
    FlushedCount(ps, env.config.batchSize);
  }

  /** Outside a dry run the changed counter counts every record saved, whether
      or not its content changed: a completed advertiser, which was stored,
      adds the number of records of the feed of its stored id to both
      counters. */
  lemma ProcessCountsEveryRecord(db: Db, env: Env, advertiser: Advertiser, feeds: int -> FeedStream, clock: Clock)
    ensures var stored := UpsertAdvertiserSpec(db, advertiser, clock.now).1;
      var o := ProcessSpec(db, env, advertiser, feeds, clock, false).1;
      o.Processed? ==>
        && stored.Some?
        && o.seen == |feeds(stored.value.advertiserId).records|
        && o.changed == |feeds(stored.value.advertiserId).records|
  {
    var (db1, stored) := UpsertAdvertiserSpec(db, advertiser, clock.now);
    if stored.Some? {
      var feed := feeds(stored.value.advertiserId);
      var ps := BuildProducts(env, stored.value.advertiserId, feed.records, clock.runTime);
      StreamIsBatching(db1, ps, env.config.batchSize, clock.now, false);
      BatchingCovers(ps, env.config.batchSize);
    }
  }

  /** A feed that finishes and never repeats a product key is streamed
      without an exception. */
  lemma FeedSucceedsWithoutRepeatedKeys(db: Db, env: Env, advertiserId: int, feed: FeedStream, clock: Clock, dryRun: bool)
    requires !feed.throws
    requires DistinctKeys(BuildProducts(env, advertiserId, feed.records, clock.runTime))
    ensures ProcessFeedSpec(db, env, advertiserId, feed, clock, dryRun).1.Processed?
  {
    var ps := BuildProducts(env, advertiserId, feed.records, clock.runTime);
    if dryRun {
      StreamIsBatching(db, ps, env.config.batchSize, clock.now, true);
    } else {
      var (full, rest) := Batching(ps, env.config.batchSize);
      StreamIsBatching(db, ps, env.config.batchSize, clock.now, false);
      BatchingCovers(ps, env.config.batchSize);
      DistinctConcat(Flatten(full), rest);
      DistinctFlatten(full);
      ChainSucceeds(db, full, clock.now);
      var s := StreamSpec(db, ps, env.config.batchSize, clock.now, false);
      UpsertFailsOnlyOnRepeatedNewKey(s.db, s.batch, clock.now);
    }
  }

  /** An advertiser whose upsert succeeds (always, in a dry run or when it
      has an id) and whose feed, streamed for the id it then carries,
      finishes and never repeats a product key is processed without an
      exception. */
  lemma ProcessSucceedsWithoutRepeatedKeys(db: Db, env: Env, advertiser: Advertiser, feeds: int -> FeedStream, clock: Clock, dryRun: bool)
    ensures var stored := UpsertStep(db, advertiser, clock.now, dryRun).1;
      && (dryRun || advertiser.advertiserId != 0 ==> stored == Some(advertiser))
      && (stored.Some? && !feeds(stored.value.advertiserId).throws
          && DistinctKeys(BuildProducts(env, stored.value.advertiserId, feeds(stored.value.advertiserId).records, clock.runTime))
          ==> ProcessSpec(db, env, advertiser, feeds, clock, dryRun).1.Processed?)
  {
    var (db1, stored) := UpsertStep(db, advertiser, clock.now, dryRun);
    if stored.Some? {
      var id := stored.value.advertiserId;
      if !feeds(id).throws && DistinctKeys(BuildProducts(env, id, feeds(id).records, clock.runTime)) {
        FeedSucceedsWithoutRepeatedKeys(db1, env, id, feeds(id), clock, dryRun);
      }
    }
  }

  /** Processing an advertiser leaves the run table and its counter alone. */
  lemma {:induction false} StreamKeepsRuns(db: Db, ps: seq<Product>, batchSize: int, now: Time, dryRun: bool)
    ensures var s := StreamSpec(db, ps, batchSize, now, dryRun);
      s.db.syncRuns == db.syncRuns && s.db.nextRunId == db.nextRunId
    decreases |ps|
  {
    if ps != [] {
      StreamKeepsRuns(db, ps[..|ps| - 1], batchSize, now, dryRun);
      var s := StreamSpec(db, ps[..|ps| - 1], batchSize, now, dryRun);
      UpsertKeepsOtherTables(s.db, s.batch + [ps[|ps| - 1]], now);
    }
  }

  lemma FeedKeepsRuns(db: Db, env: Env, advertiserId: int, feed: FeedStream, clock: Clock, dryRun: bool)
    ensures var d := ProcessFeedSpec(db, env, advertiserId, feed, clock, dryRun).0;
      d.syncRuns == db.syncRuns && d.nextRunId == db.nextRunId
  {
    var ps := BuildProducts(env, advertiserId, feed.records, clock.runTime);
    StreamKeepsRuns(db, ps, env.config.batchSize, clock.now, dryRun);
    var s := StreamSpec(db, ps, env.config.batchSize, clock.now, dryRun);
    UpsertKeepsOtherTables(s.db, s.batch, clock.now);
  }

  lemma ProcessKeepsRuns(db: Db, env: Env, advertiser: Advertiser, feeds: int -> FeedStream, clock: Clock, dryRun: bool)
    ensures var d := ProcessSpec(db, env, advertiser, feeds, clock, dryRun).0;
      d.syncRuns == db.syncRuns && d.nextRunId == db.nextRunId
  {
    var (db1, stored) := UpsertStep(db, advertiser, clock.now, dryRun);
    if stored.Some? {
      FeedKeepsRuns(db1, env, stored.value.advertiserId, feeds(stored.value.advertiserId), clock, dryRun);
    }
  }

  // ---------------------------------------------------------------------
  // Tombstones

  /** No row of `before` is gone from `after`, and every tombstone in `after`
      was already in `before` or carries the sweep's time. */
  predicate TombstonesFrom(before: Store, after: Store, sweep: Option<Time>) {
    && before.Keys <= after.Keys
    && forall k :: k in after ==>
         || after[k].inactiveAt.None?
         || (k in before && after[k].inactiveAt == before[k].inactiveAt)
         || (sweep.Some? && after[k].inactiveAt == sweep)
  }

  lemma TombstonesCompose(a: Store, b: Store, c: Store, sweep: Option<Time>)
    requires TombstonesFrom(a, b, sweep) && TombstonesFrom(b, c, sweep)
    ensures TombstonesFrom(a, c, sweep)
  {
  }

  /** The upsert of active products adds no tombstone and deletes no row. */
  lemma UpsertTombstones(db: Db, batch: seq<Product>, now: Time, sweep: Option<Time>)
    requires forall j :: 0 <= j < |batch| ==> batch[j].inactiveAt.None?
    ensures TombstonesFrom(db.products, UpsertProductsSpec(db, batch, now).0.products, sweep)
  {
    UpsertFailsOnlyOnRepeatedNewKey(db, batch, now);
    if UpsertProductsSpec(db, batch, now).1 {
      UpsertKeys(db, batch, now);
      UpsertLeavesUnnamedRows(db, batch, now);
      UpsertTouchesNamedRows(db, batch, now);
      UpsertInsertsFromBatch(db, batch, now);
    }
  }

  lemma SweepTombstones(products: Store, advertiserId: int, runTime: Time)
    ensures TombstonesFrom(products, Sweep(products, advertiserId, runTime), Some(runTime))
  {
  }

  lemma {:induction false} StreamTombstones(db: Db, ps: seq<Product>, batchSize: int, now: Time, dryRun: bool, sweep: Option<Time>)
    requires forall j :: 0 <= j < |ps| ==> ps[j].inactiveAt.None?
    ensures var s := StreamSpec(db, ps, batchSize, now, dryRun);
      && TombstonesFrom(db.products, s.db.products, sweep)
      && forall j :: 0 <= j < |s.batch| ==> s.batch[j].inactiveAt.None?
    decreases |ps|
  {
    if ps != [] {
      var init := ps[..|ps| - 1];
      StreamTombstones(db, init, batchSize, now, dryRun, sweep);
      var s := StreamSpec(db, init, batchSize, now, dryRun);
      var batch := s.batch + [ps[|ps| - 1]];
      UpsertTombstones(s.db, batch, now, sweep);
      TombstonesCompose(db.products, s.db.products, UpsertProductsSpec(s.db, batch, now).0.products, sweep);
    }
  }

  /** The sweep mode of an advertiser: the run time when the sweep is
      configured and this is not a dry run. */
  function SweepTime(config: FeedsConfig, clock: Clock, dryRun: bool): Option<Time> {
    if config.treatMissingProductsAsInactive && !dryRun then Some(clock.runTime) else None
  }

  lemma FeedTombstones(db: Db, env: Env, advertiserId: int, feed: FeedStream, clock: Clock, dryRun: bool)
    ensures TombstonesFrom(db.products, ProcessFeedSpec(db, env, advertiserId, feed, clock, dryRun).0.products,
                           SweepTime(env.config, clock, dryRun))
  {
    var sweep := SweepTime(env.config, clock, dryRun);
    var ps := BuildProducts(env, advertiserId, feed.records, clock.runTime);
    StreamTombstones(db, ps, env.config.batchSize, clock.now, dryRun, sweep);
    var s := StreamSpec(db, ps, env.config.batchSize, clock.now, dryRun);
    UpsertTombstones(s.db, s.batch, clock.now, sweep);
    var d3 := if |s.batch| > 0 then UpsertProductsSpec(s.db, s.batch, clock.now).0 else s.db;
    TombstonesCompose(db.products, s.db.products, d3.products, sweep);
    if env.config.treatMissingProductsAsInactive && !dryRun {
      SweepTombstones(d3.products, advertiserId, clock.runTime);
      TombstonesCompose(db.products, d3.products, Sweep(d3.products, advertiserId, clock.runTime), sweep);
    }
  }

  lemma ProcessTombstones(db: Db, env: Env, advertiser: Advertiser, feeds: int -> FeedStream, clock: Clock, dryRun: bool)
    ensures TombstonesFrom(db.products, ProcessSpec(db, env, advertiser, feeds, clock, dryRun).0.products,
                           SweepTime(env.config, clock, dryRun))
  {
    var (db1, stored) := UpsertStep(db, advertiser, clock.now, dryRun);
    if stored.Some? {
      FeedTombstones(db1, env, stored.value.advertiserId, feeds(stored.value.advertiserId), clock, dryRun);
    }
  }

  lemma {:induction false} ProcessAllTombstones(db: Db, run: SyncRun, env: Env, advertisers: seq<Advertiser>,
                                                feeds: int -> FeedStream, clock: Clock, dryRun: bool)
    ensures TombstonesFrom(db.products, ProcessAll(db, run, env, advertisers, feeds, clock, dryRun).0.products,
                           SweepTime(env.config, clock, dryRun))
    decreases |advertisers|
  {
    if advertisers != [] {
      var init := advertisers[..|advertisers| - 1];
      var a := advertisers[|advertisers| - 1];
      ProcessAllTombstones(db, run, env, init, feeds, clock, dryRun);
      var d := ProcessAll(db, run, env, init, feeds, clock, dryRun).0;
      ProcessTombstones(d, env, a, feeds, clock, dryRun);
      TombstonesCompose(db.products, d.products, ProcessSpec(d, env, a, feeds, clock, dryRun).0.products,
                        SweepTime(env.config, clock, dryRun));
    }
  }

  /** A run deletes no product; without the sweep (not configured, or a dry
      run) it adds no tombstone, and with it every new tombstone carries the
      run time. */
  lemma RunTombstones(db: Db, env: Env, request: SyncRequest, world: World)
    ensures TombstonesFrom(db.products, RunSpec(db, env, request, world).0.products,
                           SweepTime(env.config, world.clock, request.dryRun))
  {
    var (db1, run0) := CreateSyncRunSpec(db, world.clock.startedAt);
    if world.fetch.Fetched? {
      ProcessAllTombstones(db1, run0, env, Visited(world.fetch.advertisers, request, world.cancelledAt),
                           world.feeds, world.clock, request.dryRun);
    }
  }

  // ---------------------------------------------------------------------
  // The sweep spares what the feed delivered

  predicate SeenSince(store: Store, k: StoreKey, t: Time) {
    k in store && store[k].lastSeenAt >= t
  }

  /** A successful upsert keeps every row seen since `t <= now` so. */
  lemma UpsertKeepsSeen(db: Db, batch: seq<Product>, now: Time, t: Time)
    requires UpsertProductsSpec(db, batch, now).1 && t <= now
    ensures var s := UpsertProductsSpec(db, batch, now).0.products;
      forall k :: SeenSince(db.products, k, t) ==> SeenSince(s, k, t)
  {
    UpsertKeys(db, batch, now);
    UpsertLeavesUnnamedRows(db, batch, now);
    UpsertTouchesNamedRows(db, batch, now);
  }

  /** A successful upsert of products stamped `t <= now` leaves every key of
      the batch stored and seen since `t`. */
  lemma UpsertSightsBatch(db: Db, batch: seq<Product>, now: Time, t: Time)
    requires UpsertProductsSpec(db, batch, now).1 && t <= now
    requires forall j :: 0 <= j < |batch| ==> batch[j].lastSeenAt == t
    ensures var s := UpsertProductsSpec(db, batch, now).0.products;
      forall k :: k in Keys(batch) ==> SeenSince(s, k, t)
  {
    var s := UpsertProductsSpec(db, batch, now).0.products;
    UpsertKeys(db, batch, now);
    UpsertTouchesNamedRows(db, batch, now);
    UpsertInsertsFromBatch(db, batch, now);
    forall k | k in Keys(batch) && k !in db.products ensures SeenSince(s, k, t) {
      var j :| 0 <= j < |batch| && KeyOf(batch[j]) == k && s[k] == batch[j].(id := s[k].id);
    }
  }

  /** While no save fails, every product before the open batch is stored and
      seen since `t`; the open batch is the tail of the products read. */
  predicate SeenBeforeBatch(s: Streamed, ps: seq<Product>, t: Time) {
    && |s.batch| <= |ps|
    && (s.ok ==> s.batch == ps[|ps| - |s.batch|..])
    && (s.ok ==> forall j :: 0 <= j < |ps| - |s.batch| ==> SeenSince(s.db.products, KeyOf(ps[j]), t))
  }

  /** Reading one more product stamped `t` keeps SeenBeforeBatch. */
  lemma FlushSeen(s0: Streamed, init: seq<Product>, p: Product, batchSize: int, now: Time, t: Time)
    requires t <= now && p.lastSeenAt == t
    requires forall j :: 0 <= j < |init| ==> init[j].lastSeenAt == t
    requires SeenBeforeBatch(s0, init, t)
    ensures SeenBeforeBatch(FlushStep(s0, p, batchSize, now, false), init + [p], t)
  {
    var ps := init + [p];
    var s := FlushStep(s0, p, batchSize, now, false);
    if s0.ok {
      var batch := s0.batch + [p];
      assert batch == ps[|ps| - |batch|..];
      forall j | 0 <= j < |batch| ensures batch[j].lastSeenAt == t {
        if j < |s0.batch| {
          assert batch[j] == init[|init| - |s0.batch| + j];
        }
      }
      if |batch| >= batchSize && s.ok {
        UpsertKeepsSeen(s0.db, batch, now, t);
        UpsertSightsBatch(s0.db, batch, now, t);
        forall j | 0 <= j < |ps| ensures SeenSince(s.db.products, KeyOf(ps[j]), t) {
          if j < |init| - |s0.batch| {
            assert ps[j] == init[j];
          } else {
            KeysMembers(batch, KeyOf(ps[j]));
            assert batch[j - (|ps| - |batch|)] == ps[j];
          }
        }
      } else if s.ok {
        forall j | 0 <= j < |ps| - |s.batch| ensures SeenSince(s.db.products, KeyOf(ps[j]), t) {
          assert ps[j] == init[j];
        }
      }
    }
  }

  lemma {:induction false} StreamSeen(db: Db, ps: seq<Product>, batchSize: int, now: Time, t: Time)
    requires t <= now
    requires forall j :: 0 <= j < |ps| ==> ps[j].lastSeenAt == t
    ensures SeenBeforeBatch(StreamSpec(db, ps, batchSize, now, false), ps, t)
    decreases |ps|
  {
    if ps != [] {
      var init, p := ps[..|ps| - 1], ps[|ps| - 1];
      StreamSeen(db, init, batchSize, now, t);
      assert init + [p] == ps;
      FlushSeen(StreamSpec(db, init, batchSize, now, false), init, p, batchSize, now, t);
    }
  }

  /** A row stored and seen since `t`, active or tombstoned as in `before`. */
  predicate Spared(before: Store, after: Store, k: StoreKey, t: Time) {
    && SeenSince(after, k, t)
    && (after[k].inactiveAt.None? || (k in before && after[k].inactiveAt == before[k].inactiveAt))
  }

  /** The final flush, when it does not fail, leaves every product read
      stored, seen since `t` and spared. */
  lemma FlushRestSpares(before: Store, s: Streamed, ps: seq<Product>, now: Time, t: Time)
    requires t <= now && s.ok
    requires forall j :: 0 <= j < |ps| ==> ps[j].lastSeenAt == t
    requires SeenBeforeBatch(s, ps, t)
    requires TombstonesFrom(before, s.db.products, None)
    requires forall j :: 0 <= j < |s.batch| ==> s.batch[j].inactiveAt.None?
    ensures var d := if |s.batch| > 0 then UpsertProductsSpec(s.db, s.batch, now).0 else s.db;
      (|s.batch| > 0 ==> UpsertProductsSpec(s.db, s.batch, now).1) ==>
        forall j :: 0 <= j < |ps| ==> Spared(before, d.products, KeyOf(ps[j]), t)
  {
    if |s.batch| > 0 && UpsertProductsSpec(s.db, s.batch, now).1 {
      var d := UpsertProductsSpec(s.db, s.batch, now).0;
      UpsertTombstones(s.db, s.batch, now, None);
      TombstonesCompose(before, s.db.products, d.products, None);
      UpsertKeepsSeen(s.db, s.batch, now, t);
      forall j | 0 <= j < |s.batch| ensures s.batch[j].lastSeenAt == t {
        assert s.batch[j] == ps[|ps| - |s.batch| + j];
      }
      UpsertSightsBatch(s.db, s.batch, now, t);
      forall j | |ps| - |s.batch| <= j < |ps| ensures KeyOf(ps[j]) in Keys(s.batch) {
        KeysMembers(s.batch, KeyOf(ps[j]));
        assert s.batch[j - (|ps| - |s.batch|)] == ps[j];
      }
    }
  }

  /** The read loop and the final flush, when neither save fails: every
      product of the stream is stored, seen since `t` and spared. */
  lemma StreamAndFlushSeen(db: Db, ps: seq<Product>, batchSize: int, now: Time, t: Time)
    requires t <= now
    requires forall j :: 0 <= j < |ps| ==> ps[j].lastSeenAt == t && ps[j].inactiveAt.None?
    ensures var s := StreamSpec(db, ps, batchSize, now, false);
      var d := if |s.batch| > 0 then UpsertProductsSpec(s.db, s.batch, now).0 else s.db;
      s.ok && (|s.batch| > 0 ==> UpsertProductsSpec(s.db, s.batch, now).1) ==>
        forall j :: 0 <= j < |ps| ==> Spared(db.products, d.products, KeyOf(ps[j]), t)
  {
    var s := StreamSpec(db, ps, batchSize, now, false);
    if s.ok {
      StreamSeen(db, ps, batchSize, now, t);
      StreamTombstones(db, ps, batchSize, now, false, None);
      FlushRestSpares(db.products, s, ps, now, t);
    }
  }

  /** The end of a completed advertiser spares every row that the final flush
      left spared: the sweep only reaches rows not seen since the run time. */
  lemma FinishSpares(s: Streamed, advertiserId: int, config: FeedsConfig, clock: Clock, before: Store, keys: set<StoreKey>)
    requires s.ok
    requires var d := if |s.batch| > 0 then UpsertProductsSpec(s.db, s.batch, clock.now).0 else s.db;
      (|s.batch| > 0 ==> UpsertProductsSpec(s.db, s.batch, clock.now).1) ==>
        forall k :: k in keys ==> Spared(before, d.products, k, clock.runTime)
    ensures var (d, o) := FinishSpec(s, false, advertiserId, config, clock, false);
      o.Processed? ==> forall k :: k in keys ==> Spared(before, d.products, k, clock.runTime)
  {
    FinishCases(s, false, advertiserId, config, clock, false);
  }

  /** Every product a live feed delivered, when the advertiser completes, is
      stored under the advertiser's id and its key, seen since the run time,
      and not tombstoned by this run: the sweep only reaches products the feed
      left out. */
  lemma FeedSparesDelivered(db: Db, env: Env, advertiserId: int, feed: FeedStream, clock: Clock)
    requires clock.runTime <= clock.now
    ensures var (d, o) := ProcessFeedSpec(db, env, advertiserId, feed, clock, false);
      o.Processed? ==>
        forall j :: 0 <= j < |feed.records| ==>
          Spared(db.products, d.products, (advertiserId, GenerateProductKey(env.hasher, advertiserId, feed.records[j])),
                 clock.runTime)
  {
    var ps := BuildProducts(env, advertiserId, feed.records, clock.runTime);
    var s := StreamSpec(db, ps, env.config.batchSize, clock.now, false);
    var keys := set j | 0 <= j < |ps| :: KeyOf(ps[j]);
    StreamAndFlushSeen(db, ps, env.config.batchSize, clock.now, clock.runTime);
    if s.ok && !feed.throws {
      FinishSpares(s, advertiserId, env.config, clock, db.products, keys);
    }
    forall j | 0 <= j < |feed.records|
      ensures KeyOf(ps[j]) in keys
      ensures KeyOf(ps[j]) == (advertiserId, GenerateProductKey(env.hasher, advertiserId, feed.records[j]))
    {
    }
  }

  /** Every product the feed delivered to an advertiser that completed is
      stored under the advertiser's stored id, seen since the run time, and
      not tombstoned by this run. */
  lemma ProcessSparesDelivered(db: Db, env: Env, advertiser: Advertiser, feeds: int -> FeedStream, clock: Clock)
    requires clock.runTime <= clock.now
    ensures var (d, o) := ProcessSpec(db, env, advertiser, feeds, clock, false);
      var stored := UpsertAdvertiserSpec(db, advertiser, clock.now).1;
      o.Processed? ==>
        && stored.Some?
        && var id := stored.value.advertiserId;
           forall j :: 0 <= j < |feeds(id).records| ==>
             Spared(db.products, d.products, (id, GenerateProductKey(env.hasher, id, feeds(id).records[j])), clock.runTime)
  {
    var (db1, stored) := UpsertAdvertiserSpec(db, advertiser, clock.now);
    if stored.Some? {
      FeedSparesDelivered(db1, env, stored.value.advertiserId, feeds(stored.value.advertiserId), clock);
    }
  }

  // ---------------------------------------------------------------------
  // A feed source that streams nothing

  /** With empty streams the advertiser's processing is its upsert and the
      sweep alone: every active product filed under the advertiser's stored
      id and not seen since the run time is tombstoned at the run time. An
      advertiser whose upsert fails is not swept. */
  lemma ProcessEmptyFeed(db: Db, env: Env, advertiser: Advertiser, feeds: int -> FeedStream, clock: Clock)
    requires env.config.treatMissingProductsAsInactive
    requires forall id :: feeds(id) == FeedStream([], false)
    ensures var (d, o) := ProcessSpec(db, env, advertiser, feeds, clock, false);
      var (db1, stored) := UpsertAdvertiserSpec(db, advertiser, clock.now);
      && (stored.None? ==> d == db1 && o == Threw)
      && (stored.Some? ==>
            var id := stored.value.advertiserId;
            && o == Processed(0, 0)
            && d == SweepSpec(db1, id, clock.runTime)
            && forall k :: k in db.products && Stale(db.products[k], id, clock.runTime) ==>
                 d.products[k] == db.products[k].(inactiveAt := Some(clock.runTime)))
  {
    var (db1, stored) := UpsertAdvertiserSpec(db, advertiser, clock.now);
    assert db1.products == db.products;
    if stored.Some? {
      var id := stored.value.advertiserId;
      assert feeds(id) == FeedStream([], false);
      EmptyFeedSweeps(db1, env, id, clock);
      assert ProcessSpec(db, env, advertiser, feeds, clock, false) == (SweepSpec(db1, id, clock.runTime), Processed(0, 0));
    }
  }

  /** An empty feed that does not throw, in a live run with the sweep on, is
      the sweep alone. */
  lemma EmptyFeedSweeps(db: Db, env: Env, advertiserId: int, clock: Clock)
    requires env.config.treatMissingProductsAsInactive
    ensures ProcessFeedSpec(db, env, advertiserId, FeedStream([], false), clock, false)
              == (SweepSpec(db, advertiserId, clock.runTime), Processed(0, 0))
  {
    assert BuildProducts(env, advertiserId, [], clock.runTime) == [];
  }

  /** Every row of `before` is still there, as it was or tombstoned at `t`. */
  predicate UntouchedOrSwept(before: Store, after: Store, t: Time) {
    && before.Keys <= after.Keys
    && forall k :: k in before ==> after[k] == before[k] || after[k].inactiveAt == Some(t)
  }

  /** Every row of `before` that the sweep for `advertiserId` at `t` would
      tombstone is tombstoned at `t` in `after`. */
  predicate SweptFor(before: Store, after: Store, advertiserId: int, t: Time) {
    forall k :: k in before && Stale(before[k], advertiserId, t) ==> k in after && after[k].inactiveAt == Some(t)
  }

  lemma SweepStep(before: Store, cur: Store, advertiserId: int, t: Time)
    requires UntouchedOrSwept(before, cur, t)
    ensures UntouchedOrSwept(before, Sweep(cur, advertiserId, t), t)
    ensures SweptFor(before, Sweep(cur, advertiserId, t), advertiserId, t)
    ensures forall b :: SweptFor(before, cur, b, t) ==> SweptFor(before, Sweep(cur, advertiserId, t), b, t)
  {
  }

  /** One advertiser over empty feeds: rows stay untouched or swept, the
      advertiser's stale rows are swept when it has an id, and advertisers
      swept before stay swept. */
  lemma EmptyFeedStep(before: Store, d: Db, env: Env, a: Advertiser, feeds: int -> FeedStream, clock: Clock)
    requires env.config.treatMissingProductsAsInactive
    requires forall id :: feeds(id) == FeedStream([], false)
    requires UntouchedOrSwept(before, d.products, clock.runTime)
    ensures var d' := ProcessSpec(d, env, a, feeds, clock, false).0;
      && UntouchedOrSwept(before, d'.products, clock.runTime)
      && (a.advertiserId != 0 ==> SweptFor(before, d'.products, a.advertiserId, clock.runTime))
      && forall b :: SweptFor(before, d.products, b, clock.runTime) ==> SweptFor(before, d'.products, b, clock.runTime)
  {
    ProcessEmptyFeed(d, env, a, feeds, clock);
    var (d1, stored) := UpsertAdvertiserSpec(d, a, clock.now);
    if stored.Some? {
      assert a.advertiserId != 0 ==> stored.value.advertiserId == a.advertiserId;
      SweepStep(before, d1.products, stored.value.advertiserId, clock.runTime);
    }
  }

  /** Over feeds that are all empty, rows are either untouched or tombstoned
      at the run time, and every advertiser reached that has an id (one
      without is filed under a generated id) has no unseen active product
      left. */
  lemma {:induction false} ProcessAllEmptyFeeds(db: Db, run: SyncRun, env: Env, advertisers: seq<Advertiser>,
                                                feeds: int -> FeedStream, clock: Clock)
    requires env.config.treatMissingProductsAsInactive
    requires forall id :: feeds(id) == FeedStream([], false)
    ensures var d := ProcessAll(db, run, env, advertisers, feeds, clock, false).0;
      && UntouchedOrSwept(db.products, d.products, clock.runTime)
      && forall a :: a in advertisers && a.advertiserId != 0 ==>
           SweptFor(db.products, d.products, a.advertiserId, clock.runTime)
    decreases |advertisers|
  {
    if advertisers != [] {
      var init := advertisers[..|advertisers| - 1];
      var a := advertisers[|advertisers| - 1];
      ProcessAllEmptyFeeds(db, run, env, init, feeds, clock);
      var (d, r) := ProcessAll(db, run, env, init, feeds, clock, false);
      ProcessNextParts(d, r, env, a, feeds, clock, false);
      var d' := ProcessSpec(d, env, a, feeds, clock, false).0;
      assert ProcessAll(db, run, env, advertisers, feeds, clock, false).0 == d';
      EmptyFeedStep(db.products, d, env, a, feeds, clock);
      forall b | b in advertisers && b.advertiserId != 0
        ensures SweptFor(db.products, d'.products, b.advertiserId, clock.runTime)
      {
        if b != a {
          assert b in init;
        }
      }
    }
  }

  /** A run over feeds that stream nothing (the shipped feed source, which
      finds no feed URL) counts no product and tombstones, at the run time,
      every active product of every advertiser with an id that it reaches
      that was not seen since the run time: the whole catalogue of those
      advertisers. */
  lemma RunWithEmptyFeeds(db: Db, env: Env, request: SyncRequest, world: World)
    requires world.fetch.Fetched? && !request.dryRun && env.config.treatMissingProductsAsInactive
    requires forall id :: world.feeds(id) == FeedStream([], false)
    ensures var (d, result) := RunSpec(db, env, request, world);
      && (result.Some? ==> result.value.productsSeen == 0 && result.value.productsChanged == 0)
      && forall a :: a in Visited(world.fetch.advertisers, request, world.cancelledAt) && a.advertiserId != 0 ==>
           SweptFor(db.products, d.products, a.advertiserId, world.clock.runTime)
  {
    var (db1, run0) := CreateSyncRunSpec(db, world.clock.startedAt);
    var visited := Visited(world.fetch.advertisers, request, world.cancelledAt);
    ProcessAllEmptyFeeds(db1, run0, env, visited, world.feeds, world.clock);
    ProcessAllCounts(db1, run0, env, visited, world.feeds, world.clock, false);
    ProcessAllNothingSeen(db1, run0, env, visited, world.feeds, world.clock);
  }

  lemma {:induction false} ProcessAllNothingSeen(db: Db, run: SyncRun, env: Env, advertisers: seq<Advertiser>,
                                                 feeds: int -> FeedStream, clock: Clock)
    requires env.config.treatMissingProductsAsInactive
    requires forall id :: feeds(id) == FeedStream([], false)
    ensures var r := ProcessAll(db, run, env, advertisers, feeds, clock, false).1;
      && r.productsSeen == run.productsSeen && r.productsChanged == run.productsChanged
      && ((forall a :: a in advertisers ==> a.advertiserId != 0) ==>
            r.advertisersProcessed == run.advertisersProcessed + |advertisers|)
    decreases |advertisers|
  {
    if advertisers != [] {
      var init := advertisers[..|advertisers| - 1];
      var a := advertisers[|advertisers| - 1];
      ProcessAllNothingSeen(db, run, env, init, feeds, clock);
      ProcessEmptyFeed(ProcessAll(db, run, env, init, feeds, clock, false).0, env, a, feeds, clock);
    }
  }

  // ---------------------------------------------------------------------
  // A run

  /** The advertiser loop only moves the three counters: each advertiser
      reached adds at most one to the processed count, and outside a dry run
      the seen and changed counters grow together. */
  lemma {:induction false} ProcessAllCounts(db: Db, run: SyncRun, env: Env, advertisers: seq<Advertiser>,
                                            feeds: int -> FeedStream, clock: Clock, dryRun: bool)
    ensures var (d, r) := ProcessAll(db, run, env, advertisers, feeds, clock, dryRun);
      && r == run.(advertisersProcessed := r.advertisersProcessed, productsSeen := r.productsSeen,
                   productsChanged := r.productsChanged)
      && run.advertisersProcessed <= r.advertisersProcessed <= run.advertisersProcessed + |advertisers|
      && r.productsChanged - run.productsChanged <= r.productsSeen - run.productsSeen
      && (!dryRun ==> r.productsSeen - run.productsSeen == r.productsChanged - run.productsChanged)
      && d.syncRuns == db.syncRuns && d.nextRunId == db.nextRunId
      && (dryRun ==> d == db)
    decreases |advertisers|
  {
    if advertisers != [] {
      var init := advertisers[..|advertisers| - 1];
      var a := advertisers[|advertisers| - 1];
      ProcessAllCounts(db, run, env, init, feeds, clock, dryRun);
      var d := ProcessAll(db, run, env, init, feeds, clock, dryRun).0;
      ProcessKeepsRuns(d, env, a, feeds, clock, dryRun);
      if dryRun {
        ProcessDryRun(d, env, a, feeds, clock);
      } else {
        ProcessCountsEveryRecord(d, env, a, feeds, clock);
      }
    }
  }

  /** The returned run: numbered by the run counter, started and finished at
      the clock's readings, "failed" with the exception's message exactly when
      the advertiser source threw (and then nothing was processed), otherwise
      "completed" with at most one count per advertiser reached. No run is
      returned exactly when a live run's final save sees the token cancelled:
      its loop stopped at the token, or its fetch failed with the token
      cancelled. */
  lemma RunOutcome(db: Db, env: Env, request: SyncRequest, world: World)
    ensures var result := RunSpec(db, env, request, world).1;
      && (result.None? <==> !request.dryRun && SaveCancelled(request, world))
      && (result.Some? ==>
            var run := result.value;
            && run.runId == db.nextRunId
            && run.startedAt == world.clock.startedAt
            && run.finishedAt == Some(world.clock.now)
            && (world.fetch.FetchFailed? ==>
                  && run.status == StatusFailed && run.errorText == Some(world.fetch.message)
                  && run.advertisersProcessed == 0 && run.productsSeen == 0 && run.productsChanged == 0)
            && (world.fetch.Fetched? ==>
                  && run.status == StatusCompleted && run.errorText.None?
                  && 0 <= run.advertisersProcessed <= |Visited(world.fetch.advertisers, request, world.cancelledAt)|)
            && run.productsChanged <= run.productsSeen
            && (!request.dryRun ==> run.productsSeen == run.productsChanged))
  {
    var (db1, run0) := CreateSyncRunSpec(db, world.clock.startedAt);
    if world.fetch.Fetched? {
      ProcessAllCounts(db1, run0, env, Visited(world.fetch.advertisers, request, world.cancelledAt),
                       world.feeds, world.clock, request.dryRun);
    }
  }

  /** A dry run changes no product and no advertiser, but still leaves its run
      row behind, in state "running" with zero counts. */
  lemma DryRunLeavesRunningRow(db: Db, env: Env, request: SyncRequest, world: World)
    requires request.dryRun
    ensures var d := RunSpec(db, env, request, world).0;
      && d.products == db.products && d.advertisers == db.advertisers
      && d.syncRuns == db.syncRuns[db.nextRunId := SyncRun(db.nextRunId, world.clock.startedAt, None, StatusRunning, None, 0, 0, 0)]
  {
    var (db1, run0) := CreateSyncRunSpec(db, world.clock.startedAt);
    if world.fetch.Fetched? {
      ProcessAllCounts(db1, run0, env, Visited(world.fetch.advertisers, request, world.cancelledAt),
                       world.feeds, world.clock, true);
    }
  }

  /** Outside a dry run the stored run row is the returned run. When the final
      save sees the token cancelled nothing is returned, and the model's row
      stays as created: "running", unfinished, with zero counts. (In the
      program, saves made while the run was tracked may already have written
      the counts of the advertisers processed before the last one.) */
  lemma RunStoresReturnedRun(db: Db, env: Env, request: SyncRequest, world: World)
    requires !request.dryRun
    ensures var (d, result) := RunSpec(db, env, request, world);
      && d.nextRunId == db.nextRunId + 1
      && (result.Some? ==> d.syncRuns == db.syncRuns[result.value.runId := result.value])
      && (result.None? ==>
            d.syncRuns == db.syncRuns[db.nextRunId := SyncRun(db.nextRunId, world.clock.startedAt, None, StatusRunning, None, 0, 0, 0)])
  {
    var (db1, run0) := CreateSyncRunSpec(db, world.clock.startedAt);
    if world.fetch.Fetched? {
      ProcessAllCounts(db1, run0, env, Visited(world.fetch.advertisers, request, world.cancelledAt),
                       world.feeds, world.clock, false);
    }
  }

  // ---------------------------------------------------------------------
  // Selecting advertisers

  /** The filter keeps exactly the advertisers with the id, and no more
      advertisers than it is given. */
  lemma {:induction false} FilterByIdKeeps(advertisers: seq<Advertiser>, id: int)
    ensures forall a :: a in FilterById(advertisers, id) <==> a in advertisers && a.advertiserId == id
    ensures |FilterById(advertisers, id)| <= |advertisers|
    decreases |advertisers|
  {
    if advertisers != [] {
      var head, tail := advertisers[0], advertisers[1..];
      var kept := if head.advertiserId == id then [head] else [];
      FilterByIdKeeps(tail, id);
      assert FilterById(advertisers, id) == kept + FilterById(tail, id);
      assert advertisers == [head] + tail;
    }
  }

  /** The filter keeps exactly the advertisers with the id, and keeps them in
      order: it distributes over concatenation, keeping a single advertiser
      exactly when it has the id. */
  lemma FilterByIdFacts(advertisers: seq<Advertiser>, id: int)
    ensures forall a :: a in FilterById(advertisers, id) <==> a in advertisers && a.advertiserId == id
    ensures |FilterById(advertisers, id)| <= |advertisers|
    ensures forall a :: FilterById([a], id) == if a.advertiserId == id then [a] else []
  {
    FilterByIdKeeps(advertisers, id);
    forall a ensures FilterById([a], id) == if a.advertiserId == id then [a] else [] {
      assert [a][1..] == [];
    }
  }

  lemma {:induction false} FilterByIdConcat(xs: seq<Advertiser>, ys: seq<Advertiser>, id: int)
    ensures FilterById(xs + ys, id) == FilterById(xs, id) + FilterById(ys, id)
    decreases |xs|
  {
    if xs != [] {
      FilterByIdConcat(xs[1..], ys, id);
      assert (xs + ys)[0] == xs[0];
      assert (xs + ys)[1..] == xs[1..] + ys;
    } else {
      assert xs + ys == ys;
    }
  }

  /** The selection is a prefix of the filtered list (the advertisers with the
      requested id, in fetched order, or all of them): the whole of it without
      a limit, and otherwise its first `max` advertisers, none for a limit of
      zero or less. */
  lemma SelectFacts(advertisers: seq<Advertiser>, specificAdvertiserId: Option<int>, maxAdvertisers: Option<int>)
    ensures var s := Select(advertisers, specificAdvertiserId, maxAdvertisers);
      var filtered := if specificAdvertiserId.Some? then FilterById(advertisers, specificAdvertiserId.value) else advertisers;
      && s <= filtered
      && (maxAdvertisers.None? ==> s == filtered)
      && (maxAdvertisers.Some? ==>
            |s| == if maxAdvertisers.value <= 0 then 0
                   else if maxAdvertisers.value < |filtered| then maxAdvertisers.value
                   else |filtered|)
      && (forall a :: a in s ==> a in advertisers)
      && (specificAdvertiserId.Some? ==> forall a :: a in s ==> a.advertiserId == specificAdvertiserId.value)
      && (specificAdvertiserId.Some? && maxAdvertisers.None? ==>
            forall a :: a in advertisers && a.advertiserId == specificAdvertiserId.value ==> a in s)
      && (specificAdvertiserId.None? && maxAdvertisers.None? ==> s == advertisers)
  {
    if specificAdvertiserId.Some? {
      FilterByIdFacts(advertisers, specificAdvertiserId.value);
    }
    var filtered := if specificAdvertiserId.Some? then FilterById(advertisers, specificAdvertiserId.value) else advertisers;
    if maxAdvertisers.Some? && 0 < maxAdvertisers.value < |filtered| {
      forall a | a in filtered[..maxAdvertisers.value] ensures a in filtered {
      }
    }
  }

  /** The loop reaches the selected advertisers up to the first position at
      which the token reads as cancelled. */
  lemma VisitedIsPrefix(advertisers: seq<Advertiser>, request: SyncRequest, cancelledAt: Option<nat>)
    ensures var selected := Select(advertisers, request.specificAdvertiserId, request.maxAdvertisers);
      && Visited(advertisers, request, cancelledAt) <= selected
      && (cancelledAt.None? ==> Visited(advertisers, request, cancelledAt) == selected)
      && (cancelledAt.Some? && cancelledAt.value <= |selected| ==> |Visited(advertisers, request, cancelledAt)| == cancelledAt.value)
  {
  }
}
