/** The reconciliation driver as functions of the tables: how one advertiser's
    feed records become products, are cut into batches, upserted and swept,
    and how a run strings the selected advertisers together. The services'
    methods are proved against these functions; the properties of a run are
    proved about the functions. */
module SyncModel {
  import opened Models
  import opened ContentHasher
  import opened LinkBuilders
  import opened StoreModel
  import Feeds

  /** The "Feeds" configuration section. */
  datatype FeedsConfig = FeedsConfig(batchSize: int, treatMissingProductsAsInactive: bool)

  /** The configured defaults: batches of 2000, missing products tombstoned. */
  const DefaultFeedsConfig := FeedsConfig(2000, true)

  /** The link builder the service is given: its tracking-link operation and
      the source name it stamps on products. */
  datatype LinkBuilder = LinkBuilder(buildTrackingLink: (int, string, Option<string>) -> string, source: string)

  /** The computed builder, as the host wires it. */
  function Computed(b: ComputedLinkBuilder): (l: LinkBuilder)
    ensures l.source == b.GetSource()
    ensures forall a, u, c :: l.buildTrackingLink(a, u, c) == b.BuildTrackingLink(a, u, c)
  {
    LinkBuilder((a, u, c) => b.BuildTrackingLink(a, u, c), b.GetSource())
  }

  /** The service's pure collaborators: configuration, the hasher's
      primitives and the link builder. */
  datatype Env = Env(config: FeedsConfig, hasher: Primitives, links: LinkBuilder)

  /** What the advertiser source answers: the approved advertisers, or the
      message of the exception it throws. */
  datatype AdvertiserFetch = Fetched(advertisers: seq<Advertiser>) | FetchFailed(message: string)

  /** What the feed source streams for one advertiser: the records it yields,
      in order, and whether it then throws instead of finishing. */
  datatype FeedStream = FeedStream(records: seq<ProductRecord>, throws: bool)

  /** The clock readings of a run: the run row's start, the run time stamped
      on every product, and the time of every later save and of the finish. */
  datatype Clock = Clock(startedAt: Time, runTime: Time, now: Time)

  /** The optional arguments of a run. */
  datatype SyncRequest = SyncRequest(specificAdvertiserId: Option<int>, maxAdvertisers: Option<int>, dryRun: bool)

  /** Everything a run observes from outside: the advertiser source, the feed
      source per advertiser, the position in the advertiser list from which
      the cancellation token reads as cancelled (for a failed fetch, whether
      the token is cancelled at all), and the clock. */
  datatype World = World(fetch: AdvertiserFetch, feeds: int -> FeedStream, cancelledAt: Option<nat>, clock: Clock)

  /** How processing one advertiser ends: its counts, or an exception. */
  datatype Outcome = Processed(seen: nat, changed: nat) | Threw

  // ---------------------------------------------------------------------
  // One advertiser

  /** The product built from one feed record, before it is looked up. */
  function BuildProduct(env: Env, advertiserId: int, r: ProductRecord, runTime: Time): (p: Product)
    ensures p.advertiserId == advertiserId && p.productKey == GenerateProductKey(env.hasher, advertiserId, r)
    ensures p.contentHash == ComputeHash(env.hasher, r)
    ensures p.lastSeenAt == runTime && p.lastChangedAt == runTime && p.lastUpdatedAt == runTime
    ensures p.inactiveAt.None? && p.aiSummary.None? && p.aiSummaryStatus.None? && p.aiSummaryUpdatedAt.None?
    ensures p.extra.Some? <==> |r.extraFields| > 0
    ensures p.trackingUrl == Some(env.links.buildTrackingLink(advertiserId, r.productUrl.GetOr(""), None))
    ensures p.trackingUrlSource == Some(env.links.source)
  {
    Product(0, advertiserId, GenerateProductKey(env.hasher, advertiserId, r),
            r.feedProductId, r.sku, r.productName, r.productUrl, r.imageUrl, r.price, r.currency,
            r.category, r.subcategory, r.commissionText, r.commissionRate,
            Some(env.links.buildTrackingLink(advertiserId, r.productUrl.GetOr(""), None)),
            Some(env.links.source),
            if |r.extraFields| > 0 then Some(r.extraFields) else None,
            ComputeHash(env.hasher, r), runTime, runTime, runTime, None, None, None, None)
  }

  function BuildProducts(env: Env, advertiserId: int, records: seq<ProductRecord>, runTime: Time): (ps: seq<Product>)
    ensures |ps| == |records|
    ensures forall i :: 0 <= i < |records| ==> ps[i] == BuildProduct(env, advertiserId, records[i], runTime)
  {
    seq(|records|, i requires 0 <= i < |records| => BuildProduct(env, advertiserId, records[i], runTime))
  }

  /** The size of a flushed batch: a batch is flushed as soon as it holds at
      least the configured size, so a size below one acts as one. */
  function EffectiveBatchSize(batchSize: int): (n: nat)
    ensures n >= 1 && (batchSize >= 1 ==> n == batchSize)
  {
    if batchSize <= 1 then 1 else batchSize
  }

  /** The batches the loop flushes, in order, and what is left in the batch
      when the stream ends. */
  function Batching(ps: seq<Product>, batchSize: int): (seq<seq<Product>>, seq<Product>)
    decreases |ps|
  {
    if ps == [] then ([], [])
    else
      var (full, rest) := Batching(ps[..|ps| - 1], batchSize);
      var batch := rest + [ps[|ps| - 1]];
      if |batch| >= batchSize then (full + [batch], []) else (full, batch)
  }

  function Flatten(batches: seq<seq<Product>>): seq<Product>
    decreases |batches|
  {
    if batches == [] then [] else Flatten(batches[..|batches| - 1]) + batches[|batches| - 1]
  }

  /** The flushed batches, one after the other, each saved only if all before
      it were; the flag is false from the first failed save on. */
  function UpsertChain(db: Db, batches: seq<seq<Product>>, now: Time): (Db, bool)
    decreases |batches|
  {
    if batches == [] then (db, true)
    else
      var (d, ok) := UpsertChain(db, batches[..|batches| - 1], now);
      if !ok then (d, false) else UpsertProductsSpec(d, batches[|batches| - 1], now)
  }

  /** The state of the read loop: the tables, the open batch, the two
      counters, and whether a save has thrown. */
  datatype Streamed = Streamed(db: Db, batch: seq<Product>, seen: nat, changed: nat, ok: bool)

  /** One pass of the read loop: add the product, and flush the batch once it
      holds at least the configured size (a dry run only counts it). */
  function FlushStep(s: Streamed, p: Product, batchSize: int, now: Time, dryRun: bool): Streamed {
    if !s.ok then s
    else
      var batch := s.batch + [p];
      if |batch| < batchSize then Streamed(s.db, batch, s.seen + 1, s.changed, true)
      else if dryRun then Streamed(s.db, [], s.seen + 1, s.changed + |batch|, true)
      else
        var (d, ok) := UpsertProductsSpec(s.db, batch, now);
        if ok then Streamed(d, [], s.seen + 1, s.changed + |batch|, true)
        else Streamed(d, batch, s.seen + 1, s.changed, false)
  }

  /** The read loop over a stream of products; it stops at the first failed save. */
  function StreamSpec(db: Db, ps: seq<Product>, batchSize: int, now: Time, dryRun: bool): Streamed
    decreases |ps|
  {
    if ps == [] then Streamed(db, [], 0, 0, true)
    else FlushStep(StreamSpec(db, ps[..|ps| - 1], batchSize, now, dryRun), ps[|ps| - 1], batchSize, now, dryRun)
  }

  /** After the read loop: an exception ends the advertiser; otherwise the
      remainder is flushed (not in a dry run) and the sweep runs when
      configured (not in a dry run). */
  function FinishSpec(s: Streamed, throws: bool, advertiserId: int, config: FeedsConfig, clock: Clock, dryRun: bool): (Db, Outcome) {
    if !s.ok || throws then (s.db, Threw)
    else if dryRun then (s.db, Processed(s.seen, s.changed))
    else
      var (d, ok) := if |s.batch| > 0 then UpsertProductsSpec(s.db, s.batch, clock.now) else (s.db, true);
      if !ok then (d, Threw)
      else (if config.treatMissingProductsAsInactive then SweepSpec(d, advertiserId, clock.runTime) else d,
            Processed(s.seen, s.changed + |s.batch|))
  }

  /** The upsert that opens ProcessAdvertiserAsync, skipped in a dry run: the
      tables after it and the advertiser as the caller's object then stands
      (with its generated id, if it had none), or None when the save threw. */
  function UpsertStep(db: Db, advertiser: Advertiser, now: Time, dryRun: bool): (Db, Option<Advertiser>) {
    if dryRun then (db, Some(advertiser)) else UpsertAdvertiserSpec(db, advertiser, now)
  }

  /** The rest of ProcessAdvertiserAsync, for the id the advertiser then
      carries and the feed streamed for that id: the read loop over the
      products built from the feed, then the finish. */
  function ProcessFeedSpec(db: Db, env: Env, advertiserId: int, feed: FeedStream, clock: Clock, dryRun: bool): (Db, Outcome) {
    var ps := BuildProducts(env, advertiserId, feed.records, clock.runTime);
    FinishSpec(StreamSpec(db, ps, env.config.batchSize, clock.now, dryRun), feed.throws,
               advertiserId, env.config, clock, dryRun)
  }

  /** ProcessAdvertiserAsync: store the advertiser (not in a dry run), then
      stream the feed of the id it carries. An exception ends the advertiser
      with whatever earlier saves committed. */
  function ProcessSpec(db: Db, env: Env, advertiser: Advertiser, feeds: int -> FeedStream, clock: Clock, dryRun: bool): (Db, Outcome) {
    var step := UpsertStep(db, advertiser, clock.now, dryRun);
    if step.1.None? then (step.0, Threw)
    else ProcessFeedSpec(step.0, env, step.1.value.advertiserId, feeds(step.1.value.advertiserId), clock, dryRun)
  }

  // ---------------------------------------------------------------------
  // A run

  /** The run's counters after one advertiser: added to when it completed,
      unchanged when it threw. */
  function AdvanceRun(run: SyncRun, o: Outcome): SyncRun {
    match o
    case Processed(seen, changed) =>
      run.(advertisersProcessed := run.advertisersProcessed + 1,
           productsSeen := run.productsSeen + seen,
           productsChanged := run.productsChanged + changed)
    case Threw => run
  }

  /** One pass of the advertiser loop: process the advertiser, and count it
      when it did not throw. */
  function ProcessNext(db: Db, run: SyncRun, env: Env, advertiser: Advertiser, feeds: int -> FeedStream,
                       clock: Clock, dryRun: bool): (Db, SyncRun) {
    var (d, o) := ProcessSpec(db, env, advertiser, feeds, clock, dryRun);
    (d, AdvanceRun(run, o))
  }

  /** The advertiser loop over the advertisers it reaches. */
  function ProcessAll(db: Db, run: SyncRun, env: Env, advertisers: seq<Advertiser>, feeds: int -> FeedStream,
                      clock: Clock, dryRun: bool): (Db, SyncRun)
    decreases |advertisers|
  {
    if advertisers == [] then (db, run)
    else
      var (d, r) := ProcessAll(db, run, env, advertisers[..|advertisers| - 1], feeds, clock, dryRun);
      var a := advertisers[|advertisers| - 1];
      ProcessNext(d, r, env, a, feeds, clock, dryRun)
  }

  /** The advertisers with the given id, in order. */
  function FilterById(advertisers: seq<Advertiser>, id: int): seq<Advertiser>
    decreases |advertisers|
  {
    if advertisers == [] then []
    else (if advertisers[0].advertiserId == id then [advertisers[0]] else []) + FilterById(advertisers[1..], id)
  }

  /** Enumerable.Take: a count of zero or less takes nothing. */
  function Take(advertisers: seq<Advertiser>, count: int): seq<Advertiser> {
    if count <= 0 then [] else if count >= |advertisers| then advertisers else advertisers[..count]
  }

  /** The id filter, then the count limit. */
  function Select(advertisers: seq<Advertiser>, specificAdvertiserId: Option<int>, maxAdvertisers: Option<int>): seq<Advertiser> {
    var filtered := if specificAdvertiserId.Some? then FilterById(advertisers, specificAdvertiserId.value) else advertisers;
    if maxAdvertisers.Some? then Take(filtered, maxAdvertisers.value) else filtered
  }

  /** The advertisers the loop reaches before it sees the token cancelled. */
  function Visited(advertisers: seq<Advertiser>, request: SyncRequest, cancelledAt: Option<nat>): seq<Advertiser> {
    var selected := Select(advertisers, request.specificAdvertiserId, request.maxAdvertisers);
    selected[..Feeds.UntilCancelled(|selected|, cancelledAt)]
  }

  /** The try block of RunSyncAsync and its handler, on the created run. */
  function RunBody(db: Db, run: SyncRun, env: Env, request: SyncRequest, world: World): (Db, SyncRun) {
    match world.fetch
    case FetchFailed(message) =>
      (db, run.(status := StatusFailed, errorText := Some(message), finishedAt := Some(world.clock.now)))
    case Fetched(advertisers) =>
      var (d, r) := ProcessAll(db, run, env, Visited(advertisers, request, world.cancelledAt), world.feeds, world.clock, request.dryRun);
      (d, r.(status := StatusCompleted, finishedAt := Some(world.clock.now)))
  }

  /** Whether the token reads as cancelled when the final save is made:
      the list was fetched and the loop stopped at the token before the last
      selected advertiser, or the fetch failed with the token cancelled (a
      cancelled fetch is one way it fails). */
  predicate SaveCancelled(request: SyncRequest, world: World) {
    match world.fetch
    case Fetched(advertisers) =>
      && world.cancelledAt.Some?
      && world.cancelledAt.value < |Select(advertisers, request.specificAdvertiserId, request.maxAdvertisers)|
    case FetchFailed(_) => world.cancelledAt.Some?
  }

  /** RunSyncAsync: create the run row, run the body, store the finished run
      unless this is a dry run, and return it. The store is given the same
      token, so when it reads as cancelled the save throws and no run is
      returned (None); the row keeps what earlier saves wrote of it, which in
      this model is the row as created. Otherwise the run returned is the one
      the update leaves in the caller's object. */
  function RunSpec(db: Db, env: Env, request: SyncRequest, world: World): (Db, Option<SyncRun>) {
    var (db1, run0) := CreateSyncRunSpec(db, world.clock.startedAt);
    var (db2, run) := RunBody(db1, run0, env, request, world);
    if request.dryRun then (db2, Some(run))
    else if SaveCancelled(request, world) then (db2, None)
    else UpdateSyncRunSpec(db2, run)
  }

  // ---------------------------------------------------------------------
  // Batching

  /** The batches and the remainder together are the stream, in order; every
      flushed batch has exactly the effective size, the remainder less. */
  lemma {:induction false} BatchingCovers(ps: seq<Product>, batchSize: int)
    ensures var (full, rest) := Batching(ps, batchSize);
      && Flatten(full) + rest == ps
      && (forall i :: 0 <= i < |full| ==> |full[i]| == EffectiveBatchSize(batchSize))
      && |rest| < EffectiveBatchSize(batchSize)
    decreases |ps|
  {
    if ps != [] {
      var b, p := ps[..|ps| - 1], ps[|ps| - 1];
      BatchingCovers(b, batchSize);
      var (full, rest) := Batching(b, batchSize);
      var batch := rest + [p];
      assert ps == b + [p];
      assert Flatten(full) + batch == ps;
      if |batch| >= batchSize {
        var full' := full + [batch];
        assert Batching(ps, batchSize) == (full', []);
        assert full'[..|full|] == full;
        assert Flatten(full') == Flatten(full) + batch;
        assert |batch| == EffectiveBatchSize(batchSize);
        forall i | 0 <= i < |full'| ensures |full'[i]| == EffectiveBatchSize(batchSize) {
          if i < |full| {
            assert full'[i] == full[i];
          }
        }
      } else {
        assert Batching(ps, batchSize) == (full, batch);
      }
    }
  }

  lemma {:induction false} FlattenLength(batches: seq<seq<Product>>, n: nat)
    requires forall i :: 0 <= i < |batches| ==> |batches[i]| == n
    ensures |Flatten(batches)| == |batches| * n
    decreases |batches|
  {
    if batches != [] {
      FlattenLength(batches[..|batches| - 1], n);
      assert |Flatten(batches)| == (|batches| - 1) * n + n;
    }
  }

  /** What a dry run counts as changed: the records of the full batches, the
      largest multiple of the effective batch size not above the record count. */
  lemma FlushedCount(ps: seq<Product>, batchSize: int)
    ensures var full := Batching(ps, batchSize).0; var n := EffectiveBatchSize(batchSize);
      && |Flatten(full)| == |full| * n
      && |Flatten(full)| <= |ps| < |Flatten(full)| + n
  {
    BatchingCovers(ps, batchSize);
    FlattenLength(Batching(ps, batchSize).0, EffectiveBatchSize(batchSize));
  }

  /** The read loop cuts the stream exactly as Batching does: while no save
      fails it has saved the full batches in order, holds the remainder and
      has counted every record and the flushed ones; a failed save is the
      chain's first failure. A dry run saves nothing and never fails. */
  lemma {:induction false} StreamIsBatching(db: Db, ps: seq<Product>, batchSize: int, now: Time, dryRun: bool)
    ensures var s := StreamSpec(db, ps, batchSize, now, dryRun); var (full, rest) := Batching(ps, batchSize);
      && (dryRun ==> s == Streamed(db, rest, |ps|, |Flatten(full)|, true))
      && (!dryRun ==> (s.db, s.ok) == UpsertChain(db, full, now))
      && (!dryRun && s.ok ==> s.batch == rest && s.seen == |ps| && s.changed == |Flatten(full)|)
    decreases |ps|
  {
    if ps != [] {
      var b, p := ps[..|ps| - 1], ps[|ps| - 1];
      StreamIsBatching(db, b, batchSize, now, dryRun);
      var (full, rest) := Batching(b, batchSize);
      var batch := rest + [p];
      if |batch| >= batchSize {
        assert (full + [batch])[..|full|] == full;
        assert Flatten(full + [batch]) == Flatten(full) + batch;
      }
    }
  }

  /** Once a save has failed, the rest of the stream changes nothing. */
  lemma {:induction false} StreamFailStays(db: Db, ps: seq<Product>, i: nat, batchSize: int, now: Time, dryRun: bool)
    requires i <= |ps| && !StreamSpec(db, ps[..i], batchSize, now, dryRun).ok
    ensures StreamSpec(db, ps, batchSize, now, dryRun) == StreamSpec(db, ps[..i], batchSize, now, dryRun)
    decreases |ps| - i
  {
    if i == |ps| {
      assert ps[..i] == ps;
    } else {
      var b := ps[..|ps| - 1];
      assert b[..i] == ps[..i];
      StreamFailStays(db, b, i, batchSize, now, dryRun);
    }
  }
  /** One more product is one more pass of the read loop. */
  lemma StreamStep(db: Db, ps: seq<Product>, i: nat, batchSize: int, now: Time, dryRun: bool)
    requires i < |ps|
    ensures StreamSpec(db, ps[..i + 1], batchSize, now, dryRun)
            == FlushStep(StreamSpec(db, ps[..i], batchSize, now, dryRun), ps[i], batchSize, now, dryRun)
  {
    assert ps[..i + 1][..i] == ps[..i];
  }
  /** One more advertiser is one more pass of the advertiser loop. */
  lemma ProcessAllStep(db: Db, run: SyncRun, env: Env, advertisers: seq<Advertiser>, i: nat,
                       feeds: int -> FeedStream, clock: Clock, dryRun: bool)
    requires i < |advertisers|
    ensures var (d, r) := ProcessAll(db, run, env, advertisers[..i], feeds, clock, dryRun);
      ProcessAll(db, run, env, advertisers[..i + 1], feeds, clock, dryRun)
        == ProcessNext(d, r, env, advertisers[i], feeds, clock, dryRun)
  {
    assert advertisers[..i + 1][..i] == advertisers[..i];
  }
  /** How the end of an advertiser turns out, branch by branch. */
  lemma FinishCases(s: Streamed, throws: bool, advertiserId: int, config: FeedsConfig, clock: Clock, dryRun: bool)
    requires s.ok && !throws
    ensures dryRun ==> FinishSpec(s, throws, advertiserId, config, clock, dryRun) == (s.db, Processed(s.seen, s.changed))
    ensures !dryRun && |s.batch| > 0 && !UpsertProductsSpec(s.db, s.batch, clock.now).1 ==>
              FinishSpec(s, throws, advertiserId, config, clock, dryRun) == (s.db, Threw)
    ensures !dryRun && (|s.batch| == 0 || UpsertProductsSpec(s.db, s.batch, clock.now).1) ==>
              var d := if |s.batch| > 0 then UpsertProductsSpec(s.db, s.batch, clock.now).0 else s.db;
              FinishSpec(s, throws, advertiserId, config, clock, dryRun)
                == (if config.treatMissingProductsAsInactive then SweepSpec(d, advertiserId, clock.runTime) else d,
                    Processed(s.seen, s.changed + |s.batch|))
  {
    if !dryRun && |s.batch| > 0 {
      UpsertFailsOnlyOnRepeatedNewKey(s.db, s.batch, clock.now);
    }
  }
  /** A pass of the advertiser loop, component by component. */
  lemma ProcessNextParts(db: Db, run: SyncRun, env: Env, advertiser: Advertiser, feeds: int -> FeedStream, clock: Clock, dryRun: bool)
    ensures var spec := ProcessSpec(db, env, advertiser, feeds, clock, dryRun);
      ProcessNext(db, run, env, advertiser, feeds, clock, dryRun) == (spec.0, AdvanceRun(run, spec.1))
  {
  }
}
