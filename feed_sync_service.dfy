/** The feed synchroniser: one run over the selected advertisers, each
    advertiser's feed streamed into batches that the repository upserts,
    followed by the inactive sweep. Every method is proved against the
    matching function of SyncModel. */
module Services {
  import opened Models
  import opened StoreModel
  import opened Data
  import opened SyncModel
  import Feeds

  class FeedSyncService {
    const env: Env
    const repository: ProductRepository

    constructor (env: Env, repository: ProductRepository)
      ensures this.env == env && this.repository == repository
    {
      this.env := env;
      this.repository := repository;
    }

    /** RunSyncAsync: the returned run, or None when the final save throws
        because the token was cancelled, after the loop or during the fetch. */
    method RunSync(request: SyncRequest, world: World) returns (result: Option<SyncRun>)
      requires repository.Valid()
      modifies repository
      ensures repository.Valid()
      ensures (repository.State(), result) == RunSpec(old(repository.State()), env, request, world)
    {
      var run := repository.CreateSyncRun(world.clock.startedAt);
      match world.fetch {
        case FetchFailed(message) =>
          run := run.(status := StatusFailed, errorText := Some(message), finishedAt := Some(world.clock.now));
        case Fetched(advertisers) =>
          run := ProcessAdvertisers(Visited(advertisers, request, world.cancelledAt), run, world, request.dryRun);
          run := run.(status := StatusCompleted, finishedAt := Some(world.clock.now));
      }
      if !request.dryRun {
        if SaveCancelled(request, world) {
          return None;
        }
        result := repository.UpdateSyncRun(run);
      } else {
        result := Some(run);
      }
    }

    /** The advertiser loop of RunSyncAsync over the selected advertisers: the
        token is checked before each one; an advertiser that throws is
        skipped without being counted. */
    method ProcessAdvertisers(visited: seq<Advertiser>, run: SyncRun, world: World, dryRun: bool) returns (updated: SyncRun)
      requires repository.Valid()
      modifies repository
      ensures repository.Valid()
      ensures (repository.State(), updated) == ProcessAll(old(repository.State()), run, env, visited, world.feeds, world.clock, dryRun)
    {
      ghost var db := repository.State();
      updated := run;
      for i := 0 to |visited|
        invariant repository.Valid()
        invariant (repository.State(), updated) == ProcessAll(db, run, env, visited[..i], world.feeds, world.clock, dryRun)
      {
        ProcessAllStep(db, run, env, visited, i, world.feeds, world.clock, dryRun);
        var advertiser := visited[i];
        updated := TryProcessAdvertiser(advertiser, updated, world.feeds, world.clock, dryRun);
      }
      assert visited[..|visited|] == visited;
    }

    /** The try block around one advertiser: process it, then add its counts
        and count it; an exception skips both and is swallowed. */
    method TryProcessAdvertiser(advertiser: Advertiser, run: SyncRun, feeds: int -> FeedStream, clock: Clock, dryRun: bool)
      returns (updated: SyncRun)
      requires repository.Valid()
      modifies repository
      ensures repository.Valid()
      ensures repository.State() == ProcessNext(old(repository.State()), run, env, advertiser, feeds, clock, dryRun).0
      ensures updated == ProcessNext(old(repository.State()), run, env, advertiser, feeds, clock, dryRun).1
    {
      ProcessNextParts(repository.State(), run, env, advertiser, feeds, clock, dryRun);
      var outcome := ProcessAdvertiser(advertiser, feeds, clock, dryRun);
      updated := CountAdvertiser(run, outcome);
    }

    /** The counting around one advertiser: a completed one adds its counts
        to the run and is counted as processed; one that threw adds nothing. */
    static method CountAdvertiser(run: SyncRun, outcome: Outcome) returns (updated: SyncRun)
      ensures updated == AdvanceRun(run, outcome)
    {
      match outcome {
        case Processed(seen, changed) =>
          updated := run.(productsSeen := run.productsSeen + seen, productsChanged := run.productsChanged + changed);
          updated := updated.(advertisersProcessed := updated.advertisersProcessed + 1);
        case Threw =>
          updated := run;
      }
    }

    /** ProcessAdvertiserAsync: the advertiser's counts, or the exception that
        ended it. After the upsert the advertiser carries its stored id (a
        generated one when it had none), and that id selects the feed and
        stamps the products and the sweep. */
    method ProcessAdvertiser(advertiser: Advertiser, feeds: int -> FeedStream, clock: Clock, dryRun: bool)
      returns (outcome: Outcome)
      requires repository.Valid()
      modifies repository
      ensures repository.Valid()
      ensures repository.State() == ProcessSpec(old(repository.State()), env, advertiser, feeds, clock, dryRun).0
      ensures outcome == ProcessSpec(old(repository.State()), env, advertiser, feeds, clock, dryRun).1
    {
      var current := advertiser;
      if !dryRun {
        var stored := repository.UpsertAdvertiser(advertiser, clock.now);
        if stored.None? {
          return Threw;
        }
        current := stored.value;
      }
      var feed := feeds(current.advertiserId);
      var batch, seenCount, changedCount, ok := ReadFeed(current.advertiserId, feed.records, clock, dryRun);
      if !ok {
        return Threw;
      }
      outcome := FinishAdvertiser(current.advertiserId, batch, seenCount, changedCount, feed.throws, clock, dryRun);
    }

    /** The end of ProcessAdvertiserAsync after the read loop: a throwing
        stream ends the advertiser; otherwise the remainder is upserted and the
        sweep runs, both only outside a dry run. */
    method FinishAdvertiser(advertiserId: int, batch: seq<Product>, seenCount: nat, changedCount: nat,
                            throws: bool, clock: Clock, dryRun: bool)
      returns (outcome: Outcome)
      requires repository.Valid()
      modifies repository
      ensures repository.Valid()
      ensures repository.State() == FinishSpec(Streamed(old(repository.State()), batch, seenCount, changedCount, true),
                                               throws, advertiserId, env.config, clock, dryRun).0
      ensures outcome == FinishSpec(Streamed(old(repository.State()), batch, seenCount, changedCount, true),
                                    throws, advertiserId, env.config, clock, dryRun).1
    {
      if throws {
        return Threw;
      }
      FinishCases(Streamed(repository.State(), batch, seenCount, changedCount, true), throws, advertiserId, env.config, clock, dryRun);
      var changed := changedCount;
      if |batch| > 0 && !dryRun {
        var saved := repository.UpsertProducts(batch, clock.now);
        if !saved {
          return Threw;
        }
        changed := changed + |batch|;
      }
      if env.config.treatMissingProductsAsInactive && !dryRun {
        repository.MarkMissingProductsInactive(advertiserId, clock.runTime);
      }
      outcome := Processed(seenCount, changed);
    }

    /** The read loop of ProcessAdvertiserAsync: each record becomes a
        product added to the batch; a batch that reaches the configured size
        is upserted (not in a dry run), counted and cleared. `ok` is false
        when a save threw, which ends the loop. */
    method ReadFeed(advertiserId: int, records: seq<ProductRecord>, clock: Clock, dryRun: bool)
      returns (batch: seq<Product>, seenCount: nat, changedCount: nat, ok: bool)
      requires repository.Valid()
      modifies repository
      ensures repository.Valid()
      ensures Streamed(repository.State(), batch, seenCount, changedCount, ok)
              == StreamSpec(old(repository.State()), BuildProducts(env, advertiserId, records, clock.runTime),
                            env.config.batchSize, clock.now, dryRun)
    {
      ghost var db := repository.State();
      ghost var ps := BuildProducts(env, advertiserId, records, clock.runTime);
      var batchSize := env.config.batchSize;
      batch, seenCount, changedCount, ok := [], 0, 0, true;
      for i := 0 to |records|
        invariant repository.Valid()
        invariant Streamed(repository.State(), batch, seenCount, changedCount, true)
                  == StreamSpec(db, ps[..i], batchSize, clock.now, dryRun)
      {
        var product := BuildProduct(env, advertiserId, records[i], clock.runTime);
        StreamStep(db, ps, i, batchSize, clock.now, dryRun);
        batch, seenCount, changedCount, ok := AddToBatch(batch, seenCount, changedCount, product, clock.now, dryRun);
        if !ok {
          StreamFailStays(db, ps, i + 1, batchSize, clock.now, dryRun);
          return;
        }
      }
      assert ps[..|ps|] == ps;
    }

    /** The body of the read loop for one product. */
    method AddToBatch(batch: seq<Product>, seenCount: nat, changedCount: nat, product: Product, now: Time, dryRun: bool)
      returns (batch': seq<Product>, seenCount': nat, changedCount': nat, ok: bool)
      requires repository.Valid()
      modifies repository
      ensures repository.Valid()
      ensures Streamed(repository.State(), batch', seenCount', changedCount', ok)
              == FlushStep(Streamed(old(repository.State()), batch, seenCount, changedCount, true),
                           product, env.config.batchSize, now, dryRun)
    {
      batch', seenCount', changedCount', ok := batch + [product], seenCount + 1, changedCount, true;
      if |batch'| >= env.config.batchSize {
        if !dryRun {
          ok := repository.UpsertProducts(batch', now);
          if !ok {
            return;
          }
        }
        changedCount' := changedCount' + |batch'|;
        batch' := [];
      }
    }
  }
}
