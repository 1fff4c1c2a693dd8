/** The functional model of the database the repository writes: the product
    table keyed by (advertiser id, product key), the sync-run table, the
    advertiser table and the two identity counters, with the effect of every
    repository operation as a function of the old tables, and the properties
    the reconciliation engine rests on. */
module StoreModel {
  import opened Models

  type StoreKey = (int, string)
  type Store = map<StoreKey, Product>

  /** The unique index over (advertiser_id, product_key). */
  function KeyOf(p: Product): StoreKey {
    (p.advertiserId, p.productKey)
  }

  /** The next value of an identity column; the columns count from 1. */
  type Identity = n: int | 1 <= n witness 1

  datatype Db = Db(
    products: Store,
    syncRuns: map<int, SyncRun>,
    advertisers: map<int, Advertiser>,
    nextProductId: Identity,
    nextRunId: Identity,
    nextAdvertiserId: Identity)

  /** Every row is filed under its own key, product ids are a primary key that
      the identity counter has not yet handed out again, and likewise for runs.
      Advertiser ids may also be given explicitly, so the advertiser counter
      bounds nothing; but no row has id 0, which marks an unset key. */
  ghost predicate ValidDb(db: Db) {
    && (forall k :: k in db.products ==> KeyOf(db.products[k]) == k && 1 <= db.products[k].id < db.nextProductId)
    && (forall k1, k2 :: k1 in db.products && k2 in db.products && k1 != k2 ==>
          db.products[k1].id != db.products[k2].id)
    && (forall id :: id in db.syncRuns ==> db.syncRuns[id].runId == id && 1 <= id < db.nextRunId)
    && (forall id :: id in db.advertisers ==> db.advertisers[id].advertiserId == id && id != 0)
  }

  const EmptyDb := Db(map[], map[], map[], 1, 1, 1)

  // ---------------------------------------------------------------------
  // Upsert of a batch of products

  /** The hash-differs branch: content, tracking and extra fields and the hash
      are taken from the incoming product, the three timestamps become `now`
      and the product is no longer inactive. */
  function Refreshed(existing: Product, incoming: Product, now: Time): Product {
    existing.(feedProductId := incoming.feedProductId,
              sku := incoming.sku,
              productName := incoming.productName,
              productUrl := incoming.productUrl,
              imageUrl := incoming.imageUrl,
              price := incoming.price,
              currency := incoming.currency,
              category := incoming.category,
              subcategory := incoming.subcategory,
              commissionText := incoming.commissionText,
              commissionRate := incoming.commissionRate,
              trackingUrl := incoming.trackingUrl,
              trackingUrlSource := incoming.trackingUrlSource,
              extra := incoming.extra,
              contentHash := incoming.contentHash,
              lastChangedAt := now,
              lastUpdatedAt := now,
              lastSeenAt := now,
              inactiveAt := None)
  }

  /** The hash-equal branch: only the sighting time moves. */
  function Sighted(existing: Product, now: Time): Product {
    existing.(lastSeenAt := now)
  }

  /** What the upsert does to a row that is already stored. */
  function Merge(existing: Product, incoming: Product, now: Time): Product {
    if existing.contentHash != incoming.contentHash then Refreshed(existing, incoming, now)
    else Sighted(existing, now)
  }

  /** The loop of the upsert, before the save: `tracked` holds the committed
      rows with this batch's edits applied in order; `pending` the products
      handed to Add. The lookup goes to the committed rows, so a product added
      earlier in the batch is not found again. */
  function Track(committed: Store, batch: seq<Product>, now: Time): (r: (Store, seq<Product>))
    ensures r.0.Keys == committed.Keys
    decreases |batch|
  {
    if batch == [] then (committed, [])
    else
      var (tracked, pending) := Track(committed, batch[..|batch| - 1], now);
      var p := batch[|batch| - 1];
      if KeyOf(p) in committed then (tracked[KeyOf(p) := Merge(tracked[KeyOf(p)], p, now)], pending)
      else (tracked, pending + [p])
  }

  predicate DistinctKeys(ps: seq<Product>) {
    forall i, j :: 0 <= i < j < |ps| ==> KeyOf(ps[i]) != KeyOf(ps[j])
  }

  /** The rows the save inserts; the identity column numbers them from `nextId`. */
  function Insertions(pending: seq<Product>, nextId: int): Store
    decreases |pending|
  {
    if pending == [] then map[]
    else
      var p := pending[|pending| - 1];
      Insertions(pending[..|pending| - 1], nextId)[KeyOf(p) := p.(id := nextId + |pending| - 1)]
  }

  /** UpsertProductsAsync: the loop, then one save. The save is atomic; it fails
      on the unique index when two pending inserts share a key, and then
      nothing of the batch is committed. */
  function UpsertProductsSpec(db: Db, batch: seq<Product>, now: Time): (Db, bool) {
    var (tracked, pending) := Track(db.products, batch, now);
    if !DistinctKeys(pending) then (db, false)
    else (db.(products := tracked + Insertions(pending, db.nextProductId),
              nextProductId := db.nextProductId + |pending|), true)
  }

  // ---------------------------------------------------------------------
  // The inactive sweep, runs and advertisers

  predicate Stale(p: Product, advertiserId: int, runTime: Time) {
    p.advertiserId == advertiserId && p.lastSeenAt < runTime && p.inactiveAt.None?
  }

  /** MarkMissingProductsInactiveAsync: one set-based update. */
  function Sweep(products: Store, advertiserId: int, runTime: Time): (r: Store)
    ensures r.Keys == products.Keys
    // afterwards no product of the advertiser is both unseen and active
    ensures forall k :: k in r ==> !Stale(r[k], advertiserId, runTime)
    // only the tombstone moves, and only from null to the run time
    ensures forall k :: k in r ==> r[k].(inactiveAt := products[k].inactiveAt) == products[k]
    ensures forall k :: k in r && r[k].inactiveAt != products[k].inactiveAt ==>
              products[k].inactiveAt.None? && r[k].inactiveAt == Some(runTime)
    // other advertisers, products seen since the run began and earlier tombstones are untouched
    ensures forall k :: k in r ==>
              ((products[k].advertiserId != advertiserId || products[k].lastSeenAt >= runTime
                || products[k].inactiveAt.Some?) ==> r[k] == products[k])
  {
    map k | k in products :: if Stale(products[k], advertiserId, runTime)
                             then products[k].(inactiveAt := Some(runTime)) else products[k]
  }

  function SweepSpec(db: Db, advertiserId: int, runTime: Time): Db {
    db.(products := Sweep(db.products, advertiserId, runTime))
  }

  /** CreateSyncRunAsync: a new row in state "running", numbered by the identity column. */
  function CreateSyncRunSpec(db: Db, now: Time): (Db, SyncRun) {
    var run := SyncRun(db.nextRunId, now, None, StatusRunning, None, 0, 0, 0);
    (db.(syncRuns := db.syncRuns[run.runId := run], nextRunId := db.nextRunId + 1), run)
  }

  /** UpdateSyncRunAsync, with the run as the caller's object stands after it,
      or None when the save throws. DbSet.Update tracks a run whose key is
      unset (0) as new, so the save inserts it under the next identity value
      and writes that id back into the object; any other run overwrites the
      row with its id, and when there is no such row the save throws. */
  function UpdateSyncRunSpec(db: Db, run: SyncRun): (Db, Option<SyncRun>) {
    if run.runId == 0 then
      var inserted := run.(runId := db.nextRunId);
      (db.(syncRuns := db.syncRuns[inserted.runId := inserted], nextRunId := db.nextRunId + 1), Some(inserted))
    else if run.runId in db.syncRuns then (db.(syncRuns := db.syncRuns[run.runId := run]), Some(run))
    else (db, None)
  }

  /** UpsertAdvertiserAsync, with the advertiser as the caller's object stands
      after it, or None when the save throws. A row found by the id has its
      name, status and default commission text overwritten and its update time
      stamped. Otherwise the advertiser is added: under its own id, or, when
      the id is unset (0), under the next identity value, which is written back
      into the object. The identity column also accepts explicit ids without
      advancing, so that value may already be taken: the insert then violates
      the primary key and the save throws, the value being used up all the
      same. */
  function UpsertAdvertiserSpec(db: Db, a: Advertiser, now: Time): (Db, Option<Advertiser>) {
    if a.advertiserId in db.advertisers then
      var existing := db.advertisers[a.advertiserId];
      (db.(advertisers := db.advertisers[a.advertiserId := existing.(name := a.name, status := a.status,
                                                                     defaultCommissionText := a.defaultCommissionText,
                                                                     updatedAt := now)]),
       Some(a))
    else if a.advertiserId != 0 then (db.(advertisers := db.advertisers[a.advertiserId := a]), Some(a))
    else
      var generated := db.nextAdvertiserId;
      if generated in db.advertisers then (db.(nextAdvertiserId := generated + 1), None)
      else
        var inserted := a.(advertiserId := generated);
        (db.(advertisers := db.advertisers[generated := inserted], nextAdvertiserId := generated + 1), Some(inserted))
  }

  // ---------------------------------------------------------------------
  // Properties of the upsert

  /** The keys of a sequence of products. */
  function Keys(ps: seq<Product>): set<StoreKey>
    decreases |ps|
  {
    if ps == [] then {} else Keys(ps[..|ps| - 1]) + {KeyOf(ps[|ps| - 1])}
  }

  /** Two records of the batch share a key that is not yet stored: both become
      inserts and the unique index refuses the second. */
  predicate RepeatsNewKey(committed: Store, batch: seq<Product>) {
    exists i, j :: 0 <= i < j < |batch| && KeyOf(batch[i]) == KeyOf(batch[j]) && KeyOf(batch[j]) !in committed
  }

  /** What the upsert may do to a stored row that the batch names: identity and
      AI-summary fields kept, sighted now, tombstone kept or cleared. */
  predicate Touched(was: Product, now: Time, p: Product) {
    && p.id == was.id && p.advertiserId == was.advertiserId && p.productKey == was.productKey
    && p.aiSummary == was.aiSummary && p.aiSummaryStatus == was.aiSummaryStatus
    && p.aiSummaryUpdatedAt == was.aiSummaryUpdatedAt
    && p.lastSeenAt == now
    && (p.inactiveAt == was.inactiveAt || p.inactiveAt.None?)
  }

  lemma {:induction false} KeysMembers(ps: seq<Product>, k: StoreKey)
    ensures k in Keys(ps) <==> exists i :: 0 <= i < |ps| && KeyOf(ps[i]) == k
    decreases |ps|
  {
    if ps != [] {
      var b := ps[..|ps| - 1];
      KeysMembers(b, k);
      if k in Keys(b) {
        var i :| 0 <= i < |b| && KeyOf(b[i]) == k;
        assert ps[i] == b[i];
      }
      if exists i :: 0 <= i < |ps| && KeyOf(ps[i]) == k {
        var i :| 0 <= i < |ps| && KeyOf(ps[i]) == k;
        if i < |b| {
          assert b[i] == ps[i];
        }
      }
    }
  }

  lemma DistinctSnoc(ps: seq<Product>, p: Product)
    ensures DistinctKeys(ps + [p]) <==> DistinctKeys(ps) && KeyOf(p) !in Keys(ps)
  {
    KeysMembers(ps, KeyOf(p));
    var q := ps + [p];
    if DistinctKeys(q) {
      forall i, j | 0 <= i < j < |ps| ensures KeyOf(ps[i]) != KeyOf(ps[j]) {
        assert q[i] == ps[i] && q[j] == ps[j];
      }
      forall i | 0 <= i < |ps| ensures KeyOf(ps[i]) != KeyOf(p) {
        assert q[i] == ps[i] && q[|ps|] == p;
      }
    }
  }

  lemma RepeatsSnoc(committed: Store, b: seq<Product>, p: Product)
    ensures RepeatsNewKey(committed, b + [p]) <==>
              RepeatsNewKey(committed, b) || (KeyOf(p) !in committed && KeyOf(p) in Keys(b))
  {
    KeysMembers(b, KeyOf(p));
    var q := b + [p];
    if RepeatsNewKey(committed, q) {
      var i, j :| 0 <= i < j < |q| && KeyOf(q[i]) == KeyOf(q[j]) && KeyOf(q[j]) !in committed;
      if j < |b| {
        assert q[i] == b[i] && q[j] == b[j];
      } else {
        assert q[i] == b[i] && q[j] == p;
      }
    }
    if RepeatsNewKey(committed, b) {
      var i, j :| 0 <= i < j < |b| && KeyOf(b[i]) == KeyOf(b[j]) && KeyOf(b[j]) !in committed;
      assert q[i] == b[i] && q[j] == b[j];
    }
    if KeyOf(p) !in committed && KeyOf(p) in Keys(b) {
      var i :| 0 <= i < |b| && KeyOf(b[i]) == KeyOf(p);
      assert q[i] == b[i] && q[|b|] == p;
    }
  }

  /** The inserts of a batch are its records whose key is not stored, in order. */
  lemma PendingFacts(committed: Store, batch: seq<Product>, now: Time)
    ensures Keys(Track(committed, batch, now).1) == Keys(batch) - committed.Keys
    ensures forall m :: 0 <= m < |Track(committed, batch, now).1| ==>
              exists j :: 0 <= j < |batch| && Track(committed, batch, now).1[m] == batch[j]
    ensures DistinctKeys(Track(committed, batch, now).1) <==> !RepeatsNewKey(committed, batch)
  {
    PendingKeys(committed, batch, now);
    PendingFromBatch(committed, batch, now);
    PendingDistinct(committed, batch, now);
  }

  lemma {:induction false} PendingKeys(committed: Store, batch: seq<Product>, now: Time)
    ensures Keys(Track(committed, batch, now).1) == Keys(batch) - committed.Keys
    decreases |batch|
  {
    if batch != [] {
      var b, p := batch[..|batch| - 1], batch[|batch| - 1];
      PendingKeys(committed, b, now);
      var pb := Track(committed, b, now).1;
      assert (pb + [p])[..|pb|] == pb;
    }
  }

  lemma {:induction false} PendingFromBatch(committed: Store, batch: seq<Product>, now: Time)
    ensures forall m :: 0 <= m < |Track(committed, batch, now).1| ==>
              exists j :: 0 <= j < |batch| && Track(committed, batch, now).1[m] == batch[j]
    decreases |batch|
  {
    if batch != [] {
      var b, p := batch[..|batch| - 1], batch[|batch| - 1];
      PendingFromBatch(committed, b, now);
      var pb := Track(committed, b, now).1;
      var pend := Track(committed, batch, now).1;
      assert pend == if KeyOf(p) in committed then pb else pb + [p];
      forall m | 0 <= m < |pend| ensures exists j :: 0 <= j < |batch| && pend[m] == batch[j] {
        if m < |pb| {
          var j :| 0 <= j < |b| && pb[m] == b[j];
          assert pend[m] == batch[j];
        } else {
          assert pend[m] == batch[|batch| - 1];
        }
      }
    } else {
      assert Track(committed, batch, now).1 == [];
    }
  }

  lemma {:induction false} PendingDistinct(committed: Store, batch: seq<Product>, now: Time)
    ensures DistinctKeys(Track(committed, batch, now).1) <==> !RepeatsNewKey(committed, batch)
    decreases |batch|
  {
    if batch != [] {
      var b, p := batch[..|batch| - 1], batch[|batch| - 1];
      assert batch == b + [p];
      PendingDistinct(committed, b, now);
      PendingKeys(committed, b, now);
      RepeatsSnoc(committed, b, p);
      var pb := Track(committed, b, now).1;
      if KeyOf(p) !in committed {
        DistinctSnoc(pb, p);
      }
    }
  }

  lemma MergeTouches(was: Product, cur: Product, incoming: Product, now: Time)
    requires cur == was || Touched(was, now, cur)
    ensures Touched(was, now, Merge(cur, incoming, now))
  {
  }

  /** Rows the batch does not name are untouched; rows it names are touched. */
  lemma {:induction false} TrackTouches(committed: Store, batch: seq<Product>, now: Time)
    ensures forall k :: k in committed && k !in Keys(batch) ==> Track(committed, batch, now).0[k] == committed[k]
    ensures forall k :: k in committed && k in Keys(batch) ==> Touched(committed[k], now, Track(committed, batch, now).0[k])
    decreases |batch|
  {
    if batch != [] {
      var b, p := batch[..|batch| - 1], batch[|batch| - 1];
      TrackTouches(committed, b, now);
      var tb := Track(committed, b, now).0;
      if KeyOf(p) in committed {
        MergeTouches(committed[KeyOf(p)], tb[KeyOf(p)], p, now);
      }
    }
  }

  /** With distinct keys, each stored row the batch names is merged with its one record. */
  lemma {:induction false} TrackDistinct(committed: Store, batch: seq<Product>, now: Time)
    requires DistinctKeys(batch)
    ensures forall j :: 0 <= j < |batch| && KeyOf(batch[j]) in committed ==>
              Track(committed, batch, now).0[KeyOf(batch[j])] == Merge(committed[KeyOf(batch[j])], batch[j], now)
    decreases |batch|
  {
    if batch != [] {
      var b, p := batch[..|batch| - 1], batch[|batch| - 1];
      assert batch == b + [p];
      DistinctSnoc(b, p);
      TrackDistinct(committed, b, now);
      TrackTouches(committed, b, now);
      forall j | 0 <= j < |batch| && KeyOf(batch[j]) in committed
        ensures Track(committed, batch, now).0[KeyOf(batch[j])] == Merge(committed[KeyOf(batch[j])], batch[j], now)
      {
        if j < |b| {
          assert batch[j] == b[j];
          assert KeyOf(b[j]) != KeyOf(p);
        }
      }
    }
  }

  /** The inserted rows: each pending product under its own key, numbered in order. */
  lemma {:induction false} InsertionsFacts(pending: seq<Product>, nextId: int)
    requires DistinctKeys(pending)
    ensures Insertions(pending, nextId).Keys == Keys(pending)
    ensures forall m :: 0 <= m < |pending| ==>
              KeyOf(pending[m]) in Insertions(pending, nextId)
              && Insertions(pending, nextId)[KeyOf(pending[m])] == pending[m].(id := nextId + m)
    ensures forall k :: k in Insertions(pending, nextId) ==>
              KeyOf(Insertions(pending, nextId)[k]) == k
              && nextId <= Insertions(pending, nextId)[k].id < nextId + |pending|
    ensures forall k1, k2 :: k1 in Insertions(pending, nextId) && k2 in Insertions(pending, nextId) && k1 != k2 ==>
              Insertions(pending, nextId)[k1].id != Insertions(pending, nextId)[k2].id
    decreases |pending|
  {
    if pending != [] {
      var b, p := pending[..|pending| - 1], pending[|pending| - 1];
      assert pending == b + [p];
      DistinctSnoc(b, p);
      InsertionsFacts(b, nextId);
      forall m | 0 <= m < |pending|
        ensures KeyOf(pending[m]) in Insertions(pending, nextId)
        ensures Insertions(pending, nextId)[KeyOf(pending[m])] == pending[m].(id := nextId + m)
      {
        if m < |b| {
          assert pending[m] == b[m];
          assert KeyOf(b[m]) != KeyOf(p);
        }
      }
    }
  }

  /** The merged rows keep their key and id. */
  lemma {:induction false} TrackKeepsIdentity(committed: Store, batch: seq<Product>, now: Time)
    ensures forall k :: k in committed ==>
              Track(committed, batch, now).0[k].id == committed[k].id
              && KeyOf(Track(committed, batch, now).0[k]) == KeyOf(committed[k])
    decreases |batch|
  {
    if batch != [] {
      TrackKeepsIdentity(committed, batch[..|batch| - 1], now);
    }
  }

  /** A successful save: the merged rows plus the inserts. */
  lemma UpsertCommits(db: Db, batch: seq<Product>, now: Time)
    requires DistinctKeys(Track(db.products, batch, now).1)
    ensures var (tracked, pending) := Track(db.products, batch, now);
      UpsertProductsSpec(db, batch, now) ==
        (db.(products := tracked + Insertions(pending, db.nextProductId),
             nextProductId := db.nextProductId + |pending|), true)
  {
  }

  /** The save succeeds exactly when no new key repeats within the batch; a
      failed save commits nothing. */
  lemma UpsertFailsOnlyOnRepeatedNewKey(db: Db, batch: seq<Product>, now: Time)
    ensures UpsertProductsSpec(db, batch, now).1 <==> !RepeatsNewKey(db.products, batch)
    ensures !UpsertProductsSpec(db, batch, now).1 ==> UpsertProductsSpec(db, batch, now).0 == db
  {
    PendingFacts(db.products, batch, now);
  }

  // What a successful upsert does to the tables, for any batch.

  lemma UpsertKeepsOtherTables(db: Db, batch: seq<Product>, now: Time)
    ensures var s := UpsertProductsSpec(db, batch, now).0;
      && s.syncRuns == db.syncRuns && s.advertisers == db.advertisers && s.nextRunId == db.nextRunId
      && s.nextProductId >= db.nextProductId
  {
    if DistinctKeys(Track(db.products, batch, now).1) {
      UpsertCommits(db, batch, now);
    }
  }

  /** Afterwards the table holds exactly the old keys and the batch's keys. */
  lemma UpsertKeys(db: Db, batch: seq<Product>, now: Time)
    requires UpsertProductsSpec(db, batch, now).1
    ensures UpsertProductsSpec(db, batch, now).0.products.Keys == db.products.Keys + Keys(batch)
  {
    var pending := Track(db.products, batch, now).1;
    PendingFacts(db.products, batch, now);
    UpsertCommits(db, batch, now);
    InsertionsFacts(pending, db.nextProductId);
  }

  /** Rows the batch does not name are left as they were. */
  lemma UpsertLeavesUnnamedRows(db: Db, batch: seq<Product>, now: Time)
    requires UpsertProductsSpec(db, batch, now).1
    ensures var s := UpsertProductsSpec(db, batch, now).0;
      forall k :: k in db.products && k !in Keys(batch) ==> s.products[k] == db.products[k]
  {
    var pending := Track(db.products, batch, now).1;
    PendingFacts(db.products, batch, now);
    UpsertCommits(db, batch, now);
    InsertionsFacts(pending, db.nextProductId);
    TrackTouches(db.products, batch, now);
  }

  /** Stored rows the batch names keep their identity and AI summary, are
      sighted now, and keep or lose their tombstone. */
  lemma UpsertTouchesNamedRows(db: Db, batch: seq<Product>, now: Time)
    requires UpsertProductsSpec(db, batch, now).1
    ensures var s := UpsertProductsSpec(db, batch, now).0;
      forall k :: k in db.products && k in Keys(batch) ==> Touched(db.products[k], now, s.products[k])
  {
    var pending := Track(db.products, batch, now).1;
    PendingFacts(db.products, batch, now);
    UpsertCommits(db, batch, now);
    InsertionsFacts(pending, db.nextProductId);
    TrackTouches(db.products, batch, now);
  }

  /** Each new row is a record of the batch under that record's key, with an id
      the identity column assigned. */
  lemma UpsertInsertsFromBatch(db: Db, batch: seq<Product>, now: Time)
    requires UpsertProductsSpec(db, batch, now).1
    ensures var s := UpsertProductsSpec(db, batch, now).0;
      forall k :: k in s.products && k !in db.products ==>
        exists j :: 0 <= j < |batch| && KeyOf(batch[j]) == k && s.products[k] == batch[j].(id := s.products[k].id)
  {
    var tracked := Track(db.products, batch, now).0;
    var pending := Track(db.products, batch, now).1;
    PendingFacts(db.products, batch, now);
    UpsertCommits(db, batch, now);
    var ins := Insertions(pending, db.nextProductId);
    InsertionsFacts(pending, db.nextProductId);
    InsertedRowsComeFromBatch(pending, batch, ins, db.nextProductId);
    var s := UpsertProductsSpec(db, batch, now).0;
    assert s.products == tracked + ins;
    forall k | k in s.products && k !in db.products ensures k in ins && s.products[k] == ins[k] {
    }
  }

  lemma InsertedRowsComeFromBatch(pending: seq<Product>, batch: seq<Product>, ins: Store, nextId: int)
    requires DistinctKeys(pending) && ins == Insertions(pending, nextId)
    requires forall m :: 0 <= m < |pending| ==> exists j :: 0 <= j < |batch| && pending[m] == batch[j]
    ensures forall k :: k in ins ==>
              exists j :: 0 <= j < |batch| && KeyOf(batch[j]) == k && ins[k] == batch[j].(id := ins[k].id)
  {
    InsertionsFacts(pending, nextId);
    forall k | k in ins
      ensures exists j :: 0 <= j < |batch| && KeyOf(batch[j]) == k && ins[k] == batch[j].(id := ins[k].id)
    {
      KeysMembers(pending, k);
      var m :| 0 <= m < |pending| && KeyOf(pending[m]) == k;
      var j :| 0 <= j < |batch| && pending[m] == batch[j];
      assert ins[k] == pending[m].(id := nextId + m);
    }
  }

  /** Rows under their own keys with ids in [lo, hi), no id twice. */
  ghost predicate IdsIn(rows: Store, lo: int, hi: int) {
    && (forall k :: k in rows ==> KeyOf(rows[k]) == k && lo <= rows[k].id < hi)
    && (forall k1, k2 :: k1 in rows && k2 in rows && k1 != k2 ==> rows[k1].id != rows[k2].id)
  }

  lemma IdsInUnion(a: Store, b: Store, lo: int, mid: int, hi: int)
    requires lo <= mid <= hi && a.Keys !! b.Keys && IdsIn(a, lo, mid) && IdsIn(b, mid, hi)
    ensures IdsIn(a + b, lo, hi)
  {
    var u := a + b;
    forall k | k in u ensures KeyOf(u[k]) == k && lo <= u[k].id < hi {
      if k in b { assert u[k] == b[k]; } else { assert u[k] == a[k]; }
    }
    forall k1, k2 | k1 in u && k2 in u && k1 != k2 ensures u[k1].id != u[k2].id {
      if k1 in b { assert u[k1] == b[k1]; } else { assert u[k1] == a[k1]; }
      if k2 in b { assert u[k2] == b[k2]; } else { assert u[k2] == a[k2]; }
    }
  }

  /** The upsert keeps the table well formed: fresh ids for inserted rows. */
  lemma UpsertPreservesValid(db: Db, batch: seq<Product>, now: Time)
    requires ValidDb(db)
    ensures ValidDb(UpsertProductsSpec(db, batch, now).0)
  {
    var tracked := Track(db.products, batch, now).0;
    var pending := Track(db.products, batch, now).1;
    if DistinctKeys(pending) {
      PendingKeys(db.products, batch, now);
      UpsertCommits(db, batch, now);
      var ins := Insertions(pending, db.nextProductId);
      InsertionsFacts(pending, db.nextProductId);
      TrackKeepsIdentity(db.products, batch, now);
      assert IdsIn(db.products, 1, db.nextProductId);
      assert IdsIn(tracked, 1, db.nextProductId);
      assert IdsIn(ins, db.nextProductId, db.nextProductId + |pending|);
      IdsInUnion(tracked, ins, 1, db.nextProductId, db.nextProductId + |pending|);
    }
  }

  /** The three-way classification of one record of a batch with distinct keys:
      a new key is inserted with a fresh id, a changed hash refreshes the row
      and clears its tombstone, an equal hash only moves the sighting time. */
  lemma UpsertClassifies(db: Db, batch: seq<Product>, now: Time, j: int)
    requires DistinctKeys(batch) && 0 <= j < |batch|
    ensures UpsertProductsSpec(db, batch, now).1
    ensures var s := UpsertProductsSpec(db, batch, now).0.products; var k := KeyOf(batch[j]);
      && k in s
      && (k !in db.products ==> s[k] == batch[j].(id := s[k].id) && s[k].id >= db.nextProductId)
      && (k in db.products && db.products[k].contentHash != batch[j].contentHash ==>
            s[k] == Refreshed(db.products[k], batch[j], now) && s[k].inactiveAt.None?)
      && (k in db.products && db.products[k].contentHash == batch[j].contentHash ==>
            s[k] == db.products[k].(lastSeenAt := now))
  {
    var (tracked, pending) := Track(db.products, batch, now);
    PendingFacts(db.products, batch, now);
    assert !RepeatsNewKey(db.products, batch);
    InsertionsFacts(pending, db.nextProductId);
    TrackDistinct(db.products, batch, now);
    var k := KeyOf(batch[j]);
    if k !in db.products {
      KeysMembers(batch, k);
      KeysMembers(pending, k);
      var m :| 0 <= m < |pending| && KeyOf(pending[m]) == k;
      var j' :| 0 <= j' < |batch| && pending[m] == batch[j'];
      assert j' == j;
    }
  }

  /** The source's unchanged branch leaves the tombstone in place: a product
      marked inactive that comes back with the same content stays inactive. */
  lemma UnchangedProductStaysInactive(db: Db, p: Product, now: Time)
    requires KeyOf(p) in db.products && db.products[KeyOf(p)].contentHash == p.contentHash
    ensures UpsertProductsSpec(db, [p], now).1
    ensures UpsertProductsSpec(db, [p], now).0.products[KeyOf(p)].inactiveAt == db.products[KeyOf(p)].inactiveAt
    ensures UpsertProductsSpec(db, [p], now).0.products[KeyOf(p)].lastSeenAt == now
  {
    UpsertClassifies(db, [p], now, 0);
  }

  /** The changed branch revives: a stored product whose content changed is
      active again, with the new content and change time. */
  lemma ChangedProductRevives(db: Db, p: Product, now: Time)
    requires KeyOf(p) in db.products && db.products[KeyOf(p)].contentHash != p.contentHash
    ensures UpsertProductsSpec(db, [p], now).1
    ensures var q := UpsertProductsSpec(db, [p], now).0.products[KeyOf(p)];
      && q.inactiveAt.None? && q.contentHash == p.contentHash && q.productName == p.productName
      && q.price == p.price && q.lastChangedAt == now && q.id == db.products[KeyOf(p)].id
  {
    UpsertClassifies(db, [p], now, 0);
  }

  /** A batch whose every key is stored with the same hash only moves the
      sighting time of the rows it names. */
  lemma UpsertOfStoredContent(db: Db, batch: seq<Product>, now: Time)
    requires DistinctKeys(batch)
    requires forall j :: 0 <= j < |batch| ==>
               KeyOf(batch[j]) in db.products && db.products[KeyOf(batch[j])].contentHash == batch[j].contentHash
    ensures var (d, ok) := UpsertProductsSpec(db, batch, now);
      && ok
      && d.nextProductId == db.nextProductId
      && d.products.Keys == db.products.Keys
      && forall k :: k in db.products ==>
           d.products[k] == if k in Keys(batch) then db.products[k].(lastSeenAt := now) else db.products[k]
  {
    PendingFacts(db.products, batch, now);
    var pend := Track(db.products, batch, now).1;
    assert Keys(pend) == {};
    assert pend == [];
    TrackDistinct(db.products, batch, now);
    TrackTouches(db.products, batch, now);
    var tracked := Track(db.products, batch, now).0;
    assert Insertions(pend, db.nextProductId) == map[];
    forall k | k in db.products
      ensures tracked[k] == if k in Keys(batch) then db.products[k].(lastSeenAt := now) else db.products[k]
    {
      if k in Keys(batch) {
        KeysMembers(batch, k);
      }
    }
  }

  /** Upserting the same batch twice: the second pass inserts and changes
      nothing; it only moves the sighting time of the batch's rows. */
  lemma UpsertTwiceOnlyMovesLastSeen(db: Db, batch: seq<Product>, t1: Time, t2: Time)
    requires DistinctKeys(batch)
    ensures var (db1, ok1) := UpsertProductsSpec(db, batch, t1);
      var (db2, ok2) := UpsertProductsSpec(db1, batch, t2);
      && ok1 && ok2
      && db2.nextProductId == db1.nextProductId
      && db2.products.Keys == db1.products.Keys
      && forall k :: k in db1.products ==>
           db2.products[k] == if k in Keys(batch) then db1.products[k].(lastSeenAt := t2) else db1.products[k]
  {
    var (db1, ok1) := UpsertProductsSpec(db, batch, t1);
    forall j | 0 <= j < |batch| ensures KeyOf(batch[j]) in db1.products && db1.products[KeyOf(batch[j])].contentHash == batch[j].contentHash {
      UpsertClassifies(db, batch, t1, j);
    }
    UpsertFailsOnlyOnRepeatedNewKey(db, batch, t1);
    UpsertOfStoredContent(db1, batch, t2);
  }

  /** Applying the sweep twice is applying it once. */
  lemma SweepIdempotent(products: Store, advertiserId: int, runTime: Time)
    ensures Sweep(Sweep(products, advertiserId, runTime), advertiserId, runTime) == Sweep(products, advertiserId, runTime)
  {
    var once := Sweep(products, advertiserId, runTime);
    var twice := Sweep(once, advertiserId, runTime);
    forall k | k in once ensures twice[k] == once[k] {
      assert !Stale(once[k], advertiserId, runTime);
    }
  }

  lemma SweepPreservesValid(db: Db, advertiserId: int, runTime: Time)
    requires ValidDb(db)
    ensures ValidDb(SweepSpec(db, advertiserId, runTime))
  {
    var s := Sweep(db.products, advertiserId, runTime);
    forall k | k in s ensures s[k].id == db.products[k].id && KeyOf(s[k]) == KeyOf(db.products[k]) {
      assert s[k].(inactiveAt := db.products[k].inactiveAt) == db.products[k];
    }
  }

  /** A new run is stored under a fresh, positive id in state "running". */
  lemma CreateSyncRunIsFresh(db: Db, now: Time)
    requires ValidDb(db)
    ensures var (db', run) := CreateSyncRunSpec(db, now);
      && ValidDb(db')
      && run.runId >= 1 && run.runId !in db.syncRuns
      && run.status == StatusRunning && run.startedAt == now && run.finishedAt.None?
      && run.advertisersProcessed == 0 && run.productsSeen == 0 && run.productsChanged == 0
      && db'.syncRuns.Keys == db.syncRuns.Keys + {run.runId} && db'.syncRuns[run.runId] == run
      && db'.products == db.products && db'.advertisers == db.advertisers
  {
  }

  /** Updating a run with a stored id overwrites exactly that row; a run
      with the unset id 0 is inserted under a fresh id, which the caller's
      run then carries; any other id makes the save fail and changes nothing. */
  lemma UpdateSyncRunOverwrites(db: Db, run: SyncRun)
    requires ValidDb(db)
    ensures var (db', stored) := UpdateSyncRunSpec(db, run);
      && ValidDb(db')
      && (stored.None? <==> run.runId != 0 && run.runId !in db.syncRuns)
      && (stored.None? ==> db' == db)
      && (run.runId != 0 && stored.Some? ==>
            && stored.value == run
            && db'.syncRuns.Keys == db.syncRuns.Keys && db'.nextRunId == db.nextRunId)
      && (run.runId == 0 ==>
            && stored == Some(run.(runId := db.nextRunId))
            && db.nextRunId !in db.syncRuns
            && db'.syncRuns.Keys == db.syncRuns.Keys + {db.nextRunId}
            && db'.nextRunId == db.nextRunId + 1)
      && (stored.Some? ==> db'.syncRuns[stored.value.runId] == stored.value)
      && (forall id :: id in db.syncRuns && (stored.None? || id != stored.value.runId) ==>
            id in db'.syncRuns && db'.syncRuns[id] == db.syncRuns[id])
      && db'.products == db.products && db'.advertisers == db.advertisers
  {
  }

  /** After the advertiser upsert the advertiser's row holds the incoming
      name, status and commission text; an advertiser with an id keeps it, one
      with the unset id 0 is stored under the next identity value, and the
      save fails exactly when that value is already taken. Other advertisers
      and tables are unchanged. */
  lemma UpsertAdvertiserStores(db: Db, a: Advertiser, now: Time)
    requires ValidDb(db)
    ensures var (db', stored) := UpsertAdvertiserSpec(db, a, now);
      && ValidDb(db')
      && (stored.None? <==> a.advertiserId == 0 && db.nextAdvertiserId in db.advertisers)
      && (a.advertiserId != 0 ==> stored == Some(a) && db'.nextAdvertiserId == db.nextAdvertiserId)
      && (a.advertiserId == 0 ==> db'.nextAdvertiserId == db.nextAdvertiserId + 1)
      && (stored.None? ==> db'.advertisers == db.advertisers)
      && (stored.Some? ==>
            var id := stored.value.advertiserId;
            && id != 0
            && stored.value == a.(advertiserId := id)
            && (a.advertiserId == 0 ==> id == db.nextAdvertiserId && id !in db.advertisers)
            && db'.advertisers.Keys == db.advertisers.Keys + {id}
            && db'.advertisers[id].advertiserId == id
            && db'.advertisers[id].name == a.name && db'.advertisers[id].status == a.status
            && db'.advertisers[id].defaultCommissionText == a.defaultCommissionText
            && (id !in db.advertisers ==> db'.advertisers[id] == stored.value)
            && (id in db.advertisers ==> db'.advertisers[id].updatedAt == now)
            && (forall other :: other in db.advertisers && other != id ==> db'.advertisers[other] == db.advertisers[other]))
      && db'.products == db.products && db'.syncRuns == db.syncRuns
      && db'.nextProductId == db.nextProductId && db'.nextRunId == db.nextRunId
  {
  }
}
