/** The write pattern shared by the management pages: save the rewritten
    master-data list, then enqueue a sync item, as two separate awaited
    store calls. */
module PageWrites {
  import opened Results
  import opened Entities
  import opened OfflineStore

  /** What a page handler does to the store: the awaited writes, and whether
      the handler completes once they succeed (`false` when a later step throws). */
  datatype Plan = Plan(writes: seq<Write>, completes: bool)

  /** Save `blob` under `key`, then enqueue a pending item. */
  function SaveAndQueue(key: string, blob: Blob, entityType: string, operation: string, data: Payload): Plan {
    Plan([Save(key, blob), Enqueue(entityType, operation, data)], true)
  }

  /** A handler that does nothing to the store. */
  const NoWrites := Plan([], true)

  /** Runs a plan; the write at `failAt` (if any) rejects. */
  function RunPlan(s: Store, p: Plan, now: int, failAt: Option<nat>): (e: Effect<()>)
    requires Valid(s)
    ensures Valid(e.store)
    ensures e.result.Ok? <==> p.completes && (failAt.None? || failAt.value >= |p.writes|)
    ensures e.store == RunWrites(s, p.writes, now, failAt).store
  {
    var e := RunWrites(s, p.writes, now, failAt);
    if e.result.Ok? && !p.completes then Effect(e.store, Err(StorageError("handler threw"))) else e
  }

  /** Saving then enqueueing: on success the key holds the new list and exactly
      one pending item is added; if the save rejects nothing changes; if only
      the enqueue rejects, the list is saved but nothing is queued. */
  lemma SaveAndQueueEffect(s: Store, key: string, blob: Blob, entityType: string, operation: string, data: Payload, now: int, failAt: Option<nat>)
    requires Valid(s)
    ensures var e := RunPlan(s, SaveAndQueue(key, blob, entityType, operation, data), now, failAt);
      && (e.result.Ok? <==> failAt.None? || failAt.value >= 2)
      && (failAt == Some(0) ==> e.store == s)
      && (failAt != Some(0) ==> GetMasterData(e.store, key) == Some(blob))
      && (forall k | k != key :: GetMasterData(e.store, k) == GetMasterData(s, k))
      && e.store.transactions == s.transactions && e.store.nextTxId == s.nextTxId
      && (failAt == Some(1) ==> e.store.syncQueue == s.syncQueue && e.store.nextSyncId == s.nextSyncId)
      && (e.result.Ok? ==>
            && e.store.syncQueue == s.syncQueue[s.nextSyncId := SyncItem(entityType, operation, data, Pending, 0, now)]
            && e.store.nextSyncId == s.nextSyncId + 1)
  {
    var ws := SaveAndQueue(key, blob, entityType, operation, data).writes;
    var s1 := SaveMasterData(s, key, blob);
    assert ApplyWrites(s, ws[..0], now) == s;
    assert ApplyWrites(s, ws[..1], now) == ApplyWrites(s1, [], now) == s1;
    assert ApplyWrites(s, ws, now) == ApplyWrites(s1, ws[1..], now);
    assert ws[1..] == [Enqueue(entityType, operation, data)];
    assert ApplyWrites(s1, ws[1..], now) == ApplyWrites(QueueForSync(s1, entityType, operation, data, now), [], now);
    assert s.nextSyncId !in s.syncQueue;
  }
}
