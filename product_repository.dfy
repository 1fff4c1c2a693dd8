/** The repository over the product, sync-run and advertiser tables. Each
    method is one unit of work ending in a save; its effect on the tables is
    the matching function of StoreModel. Clock readings are parameters. */
module Data {
  import opened Models
  import opened StoreModel

  class ProductRepository {
    var products: Store
    var syncRuns: map<int, SyncRun>
    var advertisers: map<int, Advertiser>
    var nextProductId: Identity
    var nextRunId: Identity
    var nextAdvertiserId: Identity

    function State(): Db
      reads this
    {
      Db(products, syncRuns, advertisers, nextProductId, nextRunId, nextAdvertiserId)
    }

    ghost predicate Valid()
      reads this
    {
      ValidDb(State())
    }

    /** A repository over empty tables. */
    constructor ()
      ensures Valid() && State() == EmptyDb
    {
      products, syncRuns, advertisers := map[], map[], map[];
      nextProductId, nextRunId, nextAdvertiserId := 1, 1, 1;
    }

    /** CreateSyncRunAsync: stores a new run started at `now`. */
    method CreateSyncRun(now: Time) returns (run: SyncRun)
      requires Valid()
      modifies this
      ensures Valid()
      ensures (State(), run) == CreateSyncRunSpec(old(State()), now)
      ensures run.runId >= 1 && run.runId !in old(syncRuns) && run.status == StatusRunning
    {
      CreateSyncRunIsFresh(State(), now);
      run := SyncRun(nextRunId, now, None, StatusRunning, None, 0, 0, 0);
      syncRuns := syncRuns[run.runId := run];
      nextRunId := nextRunId + 1;
    }

    /** UpdateSyncRunAsync: `stored` is the run as the caller's object then
        stands (a run with the unset id 0 is inserted and gets its id), or
        None when the save finds no row to update. */
    method UpdateSyncRun(run: SyncRun) returns (stored: Option<SyncRun>)
      requires Valid()
      modifies this
      ensures Valid()
      ensures (State(), stored) == UpdateSyncRunSpec(old(State()), run)
      ensures stored.Some? ==> stored.value.runId != 0 && syncRuns[stored.value.runId] == stored.value
    {
      UpdateSyncRunOverwrites(State(), run);
      if run.runId == 0 {
        var inserted := run.(runId := nextRunId);
        syncRuns := syncRuns[inserted.runId := inserted];
        nextRunId := nextRunId + 1;
        stored := Some(inserted);
      } else if run.runId in syncRuns {
        syncRuns := syncRuns[run.runId := run];
        stored := Some(run);
      } else {
        stored := None;
      }
    }

    /** UpsertProductsAsync: looks each product up by (advertiser, key) among
        the committed rows, adds it or edits the tracked row, then saves once.
        `ok` is false when the save violates the unique index; nothing of the
        batch is then committed. */
    method UpsertProducts(batch: seq<Product>, now: Time) returns (ok: bool)
      requires Valid()
      modifies this
      ensures Valid()
      ensures (State(), ok) == UpsertProductsSpec(old(State()), batch, now)
      ensures ok <==> !RepeatsNewKey(old(products), batch)
    {
      ghost var db := State();
      UpsertPreservesValid(db, batch, now);
      UpsertFailsOnlyOnRepeatedNewKey(db, batch, now);
      var tracked, pending := TrackBatch(products, batch, now);
      if !DistinctKeys(pending) {
        assert UpsertProductsSpec(db, batch, now) == (db, false);
        return false;
      }
      var inserted := NumberInserts(pending, nextProductId);
      UpsertCommits(db, batch, now);
      products := tracked + inserted;
      nextProductId := nextProductId + |pending|;
      ok := true;
      assert State() == UpsertProductsSpec(db, batch, now).0;
    }

    /** MarkMissingProductsInactiveAsync: tombstones, at `runTime`, the
        advertiser's active products last seen before `runTime`. */
    method MarkMissingProductsInactive(advertiserId: int, runTime: Time)
      requires Valid()
      modifies this
      ensures Valid()
      ensures State() == SweepSpec(old(State()), advertiserId, runTime)
    {
      SweepPreservesValid(State(), advertiserId, runTime);
      products := Sweep(products, advertiserId, runTime);
    }

    /** GetAdvertiserAsync: lookup by primary key. */
    method GetAdvertiser(advertiserId: int) returns (a: Option<Advertiser>)
      requires Valid()
      ensures a.Some? <==> advertiserId in advertisers
      ensures a.Some? ==> a.value == advertisers[advertiserId] && a.value.advertiserId == advertiserId
    {
      if advertiserId in advertisers {
        a := Some(advertisers[advertiserId]);
      } else {
        a := None;
      }
    }

    /** UpsertAdvertiserAsync: overwrites name, status and default commission
        text of the row with the advertiser's id and stamps the update time,
        or inserts the advertiser, under a generated id when its id is unset
        (0). `stored` is the advertiser as the caller's object then stands, or
        None when the save throws because the generated id is taken. */
    method UpsertAdvertiser(advertiser: Advertiser, now: Time) returns (stored: Option<Advertiser>)
      requires Valid()
      modifies this
      ensures Valid()
      ensures (State(), stored) == UpsertAdvertiserSpec(old(State()), advertiser, now)
      ensures stored.Some? ==> stored.value.advertiserId in advertisers && stored.value.advertiserId != 0
    {
      UpsertAdvertiserStores(State(), advertiser, now);
      var id := advertiser.advertiserId;
      if id in advertisers {
        var existing := advertisers[id];
        advertisers := advertisers[id := existing.(name := advertiser.name, status := advertiser.status,
                                                   defaultCommissionText := advertiser.defaultCommissionText,
                                                   updatedAt := now)];
        stored := Some(advertiser);
      } else if id != 0 {
        advertisers := advertisers[id := advertiser];
        stored := Some(advertiser);
      } else {
        var generated := nextAdvertiserId;
        nextAdvertiserId := nextAdvertiserId + 1;
        if generated in advertisers {
          return None;
        }
        stored := Some(advertiser.(advertiserId := generated));
        advertisers := advertisers[generated := stored.value];
      }
    }
  }

  /** The loop of UpsertProductsAsync: each product is looked up among the
      committed rows; a hit edits the tracked row, a miss is added. */
  method TrackBatch(committed: Store, batch: seq<Product>, now: Time) returns (tracked: Store, pending: seq<Product>)
    ensures (tracked, pending) == Track(committed, batch, now)
    ensures tracked.Keys == committed.Keys
    ensures forall m :: 0 <= m < |pending| ==> KeyOf(pending[m]) !in committed
  {
    tracked, pending := committed, [];
    for i := 0 to |batch|
      invariant (tracked, pending) == Track(committed, batch[..i], now)
    {
      assert batch[..i + 1][..i] == batch[..i];
      var product := batch[i];
      var key := KeyOf(product);
      if key in committed {
        var existing := tracked[key];
        if existing.contentHash != product.contentHash {
          tracked := tracked[key := Refreshed(existing, product, now)];
        } else {
          tracked := tracked[key := Sighted(existing, now)];
        }
      } else {
        pending := pending + [product];
      }
    }
    assert batch[..|batch|] == batch;
    PendingFacts(committed, batch, now);
    forall m | 0 <= m < |pending| ensures KeyOf(pending[m]) !in committed {
      KeysMembers(pending, KeyOf(pending[m]));
    }
  }

  /** The save's inserts: the identity column numbers the added rows in order. */
  method NumberInserts(pending: seq<Product>, nextId: int) returns (inserted: Store)
    requires DistinctKeys(pending)
    ensures inserted == Insertions(pending, nextId)
    ensures forall m :: 0 <= m < |pending| ==>
              KeyOf(pending[m]) in inserted && inserted[KeyOf(pending[m])] == pending[m].(id := nextId + m)
  {
    inserted := map[];
    for m := 0 to |pending|
      invariant inserted == Insertions(pending[..m], nextId)
    {
      assert pending[..m + 1][..m] == pending[..m];
      inserted := inserted[KeyOf(pending[m]) := pending[m].(id := nextId + m)];
    }
    assert pending[..|pending|] == pending;
    InsertionsFacts(pending, nextId);
  }
}
