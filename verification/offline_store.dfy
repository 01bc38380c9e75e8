/** The browser object store behind the offline client, as an abstract state:
    master data (key to whole-list value), the sales ledger with an
    auto-increment key generator, and the sync queue with its own generator.
    Request callbacks and database opening are not modelled; every operation
    is a pure function from store to store. */
module OfflineStore {
  import opened Results
  import opened Entities

  datatype SyncStatus = Pending | Synced | Failed

  /** A queued mutation; its id is the key under which the store holds it. */
  datatype SyncItem = SyncItem(
    entityType: string,
    operation: string,
    data: Payload,
    status: SyncStatus,
    attempts: int,
    createdAt: int)

  datatype Store = Store(
    masterData: map<string, Blob>,
    transactions: map<nat, TxRecord>,
    nextTxId: nat,
    syncQueue: map<nat, SyncItem>,
    nextSyncId: nat)

  /** A request of the store failed (the promise rejected). */
  datatype StorageError = StorageError(reason: string)

  /** The store after an operation, and whether the operation resolved or rejected. */
  datatype Effect<T> = Effect(store: Store, result: Result<T, StorageError>)

  /** Where a two-step operation fails, if it does. */
  datatype Fault = NoFault | FirstWriteFails | SecondWriteFails

  /** Key-generator invariant: generators start at 1 and every key lies below
      its generator, so a generated key is always fresh. */
  predicate Valid(s: Store) {
    && 1 <= s.nextTxId && 1 <= s.nextSyncId
    && (forall id | id in s.transactions :: 1 <= id < s.nextTxId)
    && (forall id | id in s.syncQueue :: 1 <= id < s.nextSyncId)
  }

  /** A freshly created database. */
  function EmptyStore(): (s: Store)
    ensures Valid(s)
    ensures s.masterData == map[] && s.transactions == map[] && s.syncQueue == map[]
  {
    Store(map[], map[], 1, map[], 1)
  }

  /** `getMasterData`: the stored value, or `None` (undefined) when the key was never written. */
  function GetMasterData(s: Store, key: string): (r: Option<Blob>)
    ensures r.Some? <==> key in s.masterData
  {
    if key in s.masterData then Some(s.masterData[key]) else None
  }

  /** `saveMasterData`: a put that replaces the whole value under `key`. */
  function SaveMasterData(s: Store, key: string, data: Blob): (s': Store)
    ensures GetMasterData(s', key) == Some(data)
    ensures forall k | k != key :: GetMasterData(s', k) == GetMasterData(s, k)
    ensures s'.masterData.Keys == s.masterData.Keys + {key}
    ensures s'.transactions == s.transactions && s'.nextTxId == s.nextTxId
    ensures s'.syncQueue == s.syncQueue && s'.nextSyncId == s.nextSyncId
    ensures Valid(s) ==> Valid(s')
  {
    s.(masterData := s.masterData[key := data])
  }

  /** The fields a caller may pass to `createTransaction`; absent ones are defaulted. */
  datatype TxInput = TxInput(
    items: seq<CartItem>,
    payments: seq<Payment>,
    total: int,
    subtotal: Option<int>,
    discount: Option<int>,
    tax: Option<int>,
    timestamp: Option<int>)

  function Max0(x: int): (r: int)
    ensures r >= 0 && r >= x && (r == x || r == 0)
  {
    if x < 0 then 0 else x
  }

  /** The record `createTransaction` stores: amounts clamped at zero, the subtotal
      defaulting to the total, discount and tax to zero, the time to `now`, and
      status completed. Stock and payments are not examined. */
  function NormalizeTx(input: TxInput, now: int): (r: TxRecord)
    ensures r.items == input.items && r.payments == input.payments
    ensures input.total >= 0 ==> r.total == input.total
    ensures input.total < 0 ==> r.total == 0
    ensures input.subtotal.None? ==> r.subtotal == r.total
    ensures input.subtotal.Some? && input.subtotal.value >= 0 ==> r.subtotal == input.subtotal.value
    ensures input.subtotal.Some? && input.subtotal.value < 0 ==> r.subtotal == 0
    ensures input.discount.None? ==> r.discount == 0
    ensures input.discount.Some? && input.discount.value >= 0 ==> r.discount == input.discount.value
    ensures input.discount.Some? && input.discount.value < 0 ==> r.discount == 0
    ensures input.tax.None? ==> r.tax == 0
    ensures input.tax.Some? && input.tax.value >= 0 ==> r.tax == input.tax.value
    ensures input.tax.Some? && input.tax.value < 0 ==> r.tax == 0
    ensures r.timestamp == (if input.timestamp.Some? then input.timestamp.value else now)
    ensures r.status == Completed
  {
    TxRecord(
      input.items,
      input.payments,
      Max0(input.total),
      Max0(input.subtotal.GetOr(input.total)),
      Max0(input.discount.GetOr(0)),
      Max0(input.tax.GetOr(0)),
      input.timestamp.GetOr(now),
      Completed)
  }

  /** `queueForSync`: adds one pending item with zero attempts under a fresh key. */
  function QueueForSync(s: Store, entityType: string, operation: string, data: Payload, now: int): (s': Store)
    requires Valid(s)
    ensures Valid(s')
    ensures s.nextSyncId !in s.syncQueue
    ensures s'.syncQueue.Keys == s.syncQueue.Keys + {s.nextSyncId}
    ensures s'.syncQueue[s.nextSyncId] == SyncItem(entityType, operation, data, Pending, 0, now)
    ensures forall id | id in s.syncQueue :: s'.syncQueue[id] == s.syncQueue[id]
    ensures s'.nextSyncId == s.nextSyncId + 1
    ensures s'.masterData == s.masterData
    ensures s'.transactions == s.transactions && s'.nextTxId == s.nextTxId
  {
    var item := SyncItem(entityType, operation, data, Pending, 0, now);
    s.(syncQueue := s.syncQueue[s.nextSyncId := item], nextSyncId := s.nextSyncId + 1)
  }

  /** `createTransaction`. The ledger add either rejects (`FirstWriteFails`,
      nothing changes) or stores the record under a fresh key and resolves with
      that key. The sync enqueue that follows runs in its own store transaction
      and is not awaited, so it can be lost (`SecondWriteFails`) while the call
      still resolves. */
  function CreateTransaction(s: Store, input: TxInput, now: int, fault: Fault): (e: Effect<nat>)
    requires Valid(s)
    ensures Valid(e.store)
    ensures fault == FirstWriteFails ==> e.store == s && e.result.Err?
    ensures fault != FirstWriteFails ==>
      var id := s.nextTxId;
      && e.result == Ok(id)
      && id !in s.transactions
      && (forall old_id | old_id in s.transactions :: old_id < id)
      && e.store.transactions == s.transactions[id := NormalizeTx(input, now)]
      && e.store.nextTxId == id + 1
      && e.store.masterData == s.masterData
    ensures fault == NoFault ==>
      && e.store.syncQueue.Keys == s.syncQueue.Keys + {s.nextSyncId}
      && e.store.syncQueue[s.nextSyncId]
         == SyncItem("transaction", "create", TransactionData(s.nextTxId, NormalizeTx(input, now)), Pending, 0, now)
      && (forall id | id in s.syncQueue :: e.store.syncQueue[id] == s.syncQueue[id])
    ensures fault != NoFault ==> e.store.syncQueue == s.syncQueue && e.store.nextSyncId == s.nextSyncId
  {
    var record := NormalizeTx(input, now);
    var id := s.nextTxId;
    var added := s.(transactions := s.transactions[id := record], nextTxId := id + 1);
    match fault
    case FirstWriteFails => Effect(s, Err(StorageError("transaction add failed")))
    case SecondWriteFails => Effect(added, Ok(id))
    case NoFault => Effect(QueueForSync(added, "transaction", "create", TransactionData(id, record), now), Ok(id))
  }

  /** `getTransaction`: the record under `id`, or `None` when absent. */
  function GetTransaction(s: Store, id: nat): (r: Option<TxRecord>)
    ensures r.Some? <==> id in s.transactions
  {
    if id in s.transactions then Some(s.transactions[id]) else None
  }

  /** The entries of `m` with keys in [lo, hi), in ascending key order, as a
      `getAll` over an auto-increment object store returns them. */
  function ListRange<T>(m: map<nat, T>, lo: nat, hi: nat): (r: seq<(nat, T)>)
    ensures forall k | 0 <= k < |r| :: lo <= r[k].0 < hi && r[k].0 in m && m[r[k].0] == r[k].1
    ensures forall i, j | 0 <= i < j < |r| :: r[i].0 < r[j].0
    decreases hi - lo
  {
    if lo >= hi then []
    else
      var rest := ListRange(m, lo + 1, hi);
      if lo in m then [(lo, m[lo])] + rest else rest
  }

  /** Nothing in range is missing from the listing. */
  lemma {:induction false} ListRangeComplete<T>(m: map<nat, T>, lo: nat, hi: nat, id: nat)
    requires id in m && lo <= id < hi
    ensures exists k | 0 <= k < |ListRange(m, lo, hi)| :: ListRange(m, lo, hi)[k].0 == id
    decreases hi - lo
  {
    var r := ListRange(m, lo, hi);
    if id == lo {
      assert r[0].0 == id;
    } else {
      ListRangeComplete(m, lo + 1, hi, id);
      var rest := ListRange(m, lo + 1, hi);
      var k :| 0 <= k < |rest| && rest[k].0 == id;
      if lo in m {
        assert r[k + 1].0 == id;
      } else {
        assert r[k].0 == id;
      }
    }
  }

  /** `getAllTransactions`: every stored sale, ascending by id. */
  function GetAllTransactions(s: Store): (r: seq<(nat, TxRecord)>)
    requires Valid(s)
    ensures forall k | 0 <= k < |r| :: r[k].0 in s.transactions && s.transactions[r[k].0] == r[k].1
    ensures forall i, j | 0 <= i < j < |r| :: r[i].0 < r[j].0
    ensures forall id | id in s.transactions :: exists k | 0 <= k < |r| :: r[k].0 == id
  {
    var r := ListRange(s.transactions, 1, s.nextTxId);
    assert forall id | id in s.transactions :: exists k | 0 <= k < |r| :: r[k].0 == id by {
      forall id | id in s.transactions ensures exists k | 0 <= k < |r| :: r[k].0 == id {
        ListRangeComplete(s.transactions, 1, s.nextTxId, id);
      }
    }
    r
  }

  /** `getSyncQueue`: every queued item with its id, ascending by id. */
  function GetSyncQueue(s: Store): (r: seq<(nat, SyncItem)>)
    requires Valid(s)
    ensures forall k | 0 <= k < |r| :: r[k].0 in s.syncQueue && s.syncQueue[r[k].0] == r[k].1
    ensures forall i, j | 0 <= i < j < |r| :: r[i].0 < r[j].0
    ensures forall id | id in s.syncQueue :: exists k | 0 <= k < |r| :: r[k].0 == id
  {
    var r := ListRange(s.syncQueue, 1, s.nextSyncId);
    assert forall id | id in s.syncQueue :: exists k | 0 <= k < |r| :: r[k].0 == id by {
      forall id | id in s.syncQueue ensures exists k | 0 <= k < |r| :: r[k].0 == id {
        ListRangeComplete(s.syncQueue, 1, s.nextSyncId, id);
      }
    }
    r
  }

  /** The fields of a partial update; `None` means the field is not given. */
  datatype ItemUpdate = ItemUpdate(
    entityType: Option<string>,
    operation: Option<string>,
    data: Option<Payload>,
    status: Option<SyncStatus>,
    attempts: Option<int>,
    createdAt: Option<int>)

  /** `{ ...item, ...updates }`: given fields override, the others are kept. */
  function Merge(item: SyncItem, u: ItemUpdate): (r: SyncItem)
    ensures r.entityType == (if u.entityType.Some? then u.entityType.value else item.entityType)
    ensures r.operation == (if u.operation.Some? then u.operation.value else item.operation)
    ensures r.data == (if u.data.Some? then u.data.value else item.data)
    ensures r.status == (if u.status.Some? then u.status.value else item.status)
    ensures r.attempts == (if u.attempts.Some? then u.attempts.value else item.attempts)
    ensures r.createdAt == (if u.createdAt.Some? then u.createdAt.value else item.createdAt)
  {
    SyncItem(
      u.entityType.GetOr(item.entityType),
      u.operation.GetOr(item.operation),
      u.data.GetOr(item.data),
      u.status.GetOr(item.status),
      u.attempts.GetOr(item.attempts),
      u.createdAt.GetOr(item.createdAt))
  }

  /** `updateSyncQueueItem`: merges the update into the item with that id, or
      rejects with 'Item not found'. */
  function UpdateSyncQueueItem(s: Store, id: nat, u: ItemUpdate): (r: Result<Store, string>)
    ensures id !in s.syncQueue <==> r == Err("Item not found")
    ensures r.Ok? ==>
      && r.value.syncQueue.Keys == s.syncQueue.Keys
      && r.value.syncQueue[id] == Merge(s.syncQueue[id], u)
      && (forall other | other in s.syncQueue && other != id :: r.value.syncQueue[other] == s.syncQueue[other])
      && r.value.nextSyncId == s.nextSyncId
      && r.value.masterData == s.masterData
      && r.value.transactions == s.transactions && r.value.nextTxId == s.nextTxId
    ensures r.Ok? && Valid(s) ==> Valid(r.value)
  {
    if id in s.syncQueue then Ok(s.(syncQueue := s.syncQueue[id := Merge(s.syncQueue[id], u)]))
    else Err("Item not found")
  }

  /** `deleteSyncQueueItem`: removes the item with that id, if any; the key
      generator is not rewound. */
  function DeleteSyncQueueItem(s: Store, id: nat): (s': Store)
    ensures s'.syncQueue.Keys == s.syncQueue.Keys - {id}
    ensures forall other | other in s'.syncQueue :: s'.syncQueue[other] == s.syncQueue[other]
    ensures s'.nextSyncId == s.nextSyncId
    ensures s'.masterData == s.masterData
    ensures s'.transactions == s.transactions && s'.nextTxId == s.nextTxId
    ensures Valid(s) ==> Valid(s')
  {
    s.(syncQueue := s.syncQueue - {id})
  }

  /** Ids are never reused: an item queued after a deletion gets a key
      different from the deleted one. */
  lemma DeletedIdNotReused(s: Store, id: nat, entityType: string, operation: string, data: Payload, now: int)
    requires Valid(s) && id in s.syncQueue
    ensures var s' := QueueForSync(DeleteSyncQueueItem(s, id), entityType, operation, data, now);
      id !in s'.syncQueue && s.nextSyncId > id
  {
  }

  /** One awaited store write performed by a page handler. */
  datatype Write = Save(key: string, blob: Blob) | Enqueue(entityType: string, operation: string, data: Payload)

  /** The sync items the writes enqueue, in order. */
  function Enqueued(ws: seq<Write>, now: int): (r: seq<SyncItem>)
    ensures |r| <= |ws|
    ensures forall k | 0 <= k < |r| :: r[k].status == Pending && r[k].attempts == 0
  {
    if |ws| == 0 then []
    else if ws[0].Enqueue? then [SyncItem(ws[0].entityType, ws[0].operation, ws[0].data, Pending, 0, now)] + Enqueued(ws[1..], now)
    else Enqueued(ws[1..], now)
  }

  /** The value the last `Save` to `key` in `ws` writes, if any. */
  function LastSave(ws: seq<Write>, key: string): Option<Blob> {
    if |ws| == 0 then None
    else
      var later := LastSave(ws[1..], key);
      if later.Some? then later
      else if ws[0].Save? && ws[0].key == key then Some(ws[0].blob)
      else None
  }

  function ApplyWrite(s: Store, w: Write, now: int): (s': Store)
    requires Valid(s)
    ensures Valid(s')
    ensures w.Enqueue? ==>
      && s'.nextSyncId == s.nextSyncId + 1 && s.nextSyncId in s'.syncQueue
      && s'.syncQueue[s.nextSyncId] == SyncItem(w.entityType, w.operation, w.data, Pending, 0, now)
    ensures w.Save? ==> s'.syncQueue == s.syncQueue && s'.nextSyncId == s.nextSyncId
  {
    match w
    case Save(key, blob) => SaveMasterData(s, key, blob)
    case Enqueue(t, op, data) => QueueForSync(s, t, op, data, now)
  }

  /** The writes performed one after another. The ledger is untouched, each key
      ends with its last saved value, existing queue items are unchanged, and the
      enqueued items occupy the next consecutive ids in write order. */
  function ApplyWrites(s: Store, ws: seq<Write>, now: int): (s': Store)
    requires Valid(s)
    ensures Valid(s')
    ensures s'.transactions == s.transactions && s'.nextTxId == s.nextTxId
    ensures forall key :: GetMasterData(s', key) == (if LastSave(ws, key).Some? then LastSave(ws, key) else GetMasterData(s, key))
    ensures s'.nextSyncId == s.nextSyncId + |Enqueued(ws, now)|
    ensures s.syncQueue.Keys <= s'.syncQueue.Keys
    ensures forall id | id in s.syncQueue :: s'.syncQueue[id] == s.syncQueue[id]
    ensures s'.syncQueue == QueueAfter(s.syncQueue, s.nextSyncId, ws, now)
    decreases |ws|
  {
    if |ws| == 0 then s else ApplyWrites(ApplyWrite(s, ws[0], now), ws[1..], now)
  }

  /** The queue after the writes, from the queue and the next fresh id alone:
      each enqueue stores its item under the next id and advances it. */
  function QueueAfter(q: map<nat, SyncItem>, next: nat, ws: seq<Write>, now: int): map<nat, SyncItem>
    decreases |ws|
  {
    if |ws| == 0 then q
    else if ws[0].Enqueue? then
      QueueAfter(q[next := SyncItem(ws[0].entityType, ws[0].operation, ws[0].data, Pending, 0, now)], next + 1, ws[1..], now)
    else QueueAfter(q, next, ws[1..], now)
  }

  /** Entries already in the queue are left alone by later writes. */
  lemma {:induction false} QueueAfterKeeps(q: map<nat, SyncItem>, next: nat, ws: seq<Write>, now: int, id: nat)
    requires id in q && id < next
    ensures id in QueueAfter(q, next, ws, now) && QueueAfter(q, next, ws, now)[id] == q[id]
    decreases |ws|
  {
    if |ws| > 0 {
      if ws[0].Enqueue? {
        var item := SyncItem(ws[0].entityType, ws[0].operation, ws[0].data, Pending, 0, now);
        QueueAfterKeeps(q[next := item], next + 1, ws[1..], now, id);
      } else {
        QueueAfterKeeps(q, next, ws[1..], now, id);
      }
    }
  }

  /** The `k`-th enqueued item is stored under the `k`-th id from `next`. */
  lemma {:induction false} QueueAfterAt(q: map<nat, SyncItem>, next: nat, ws: seq<Write>, now: int, k: nat)
    requires k < |Enqueued(ws, now)|
    ensures next + k in QueueAfter(q, next, ws, now)
    ensures QueueAfter(q, next, ws, now)[next + k] == Enqueued(ws, now)[k]
    decreases |ws|
  {
    if ws[0].Enqueue? {
      var item := SyncItem(ws[0].entityType, ws[0].operation, ws[0].data, Pending, 0, now);
      if k == 0 {
        QueueAfterKeeps(q[next := item], next + 1, ws[1..], now, next);
      } else {
        LaterEnqueuedShift(ws, now, k);
        QueueAfterAt(q[next := item], next + 1, ws[1..], now, k - 1);
      }
    } else {
      LaterEnqueuedShift(ws, now, k);
      QueueAfterAt(q, next, ws[1..], now, k);
    }
  }

  /** The `k`-th enqueued item lands at the `k`-th fresh id. */
  lemma ApplyWritesEnqueuedAt(s: Store, ws: seq<Write>, now: int, k: nat)
    requires Valid(s) && k < |Enqueued(ws, now)|
    ensures s.nextSyncId + k in ApplyWrites(s, ws, now).syncQueue
    ensures ApplyWrites(s, ws, now).syncQueue[s.nextSyncId + k] == Enqueued(ws, now)[k]
  {
    QueueAfterAt(s.syncQueue, s.nextSyncId, ws, now, k);
  }

  /** Past the head write, the enqueued items are those of the tail, shifted
      by one when the head itself enqueues. */
  lemma LaterEnqueuedShift(ws: seq<Write>, now: int, k: nat)
    requires k < |Enqueued(ws, now)| && (ws[0].Enqueue? ==> k > 0)
    ensures var k1 := if ws[0].Enqueue? then k - 1 else k;
      k1 < |Enqueued(ws[1..], now)| && Enqueued(ws, now)[k] == Enqueued(ws[1..], now)[k1]
  {
  }

  /** The writes that have run when the write at `failAt` (if any) rejects:
      the ones before it, or all of them. */
  function Performed(ws: seq<Write>, failAt: Option<nat>): (r: seq<Write>)
    ensures |r| <= |ws| && r == ws[..|r|]
    ensures failAt.Some? && failAt.value < |ws| ==> |r| == failAt.value
    ensures !(failAt.Some? && failAt.value < |ws|) ==> r == ws
  {
    if failAt.Some? && failAt.value < |ws| then ws[..failAt.value] else ws
  }

  /** A handler's sequence of awaited writes, where the write at index `failAt`
      (if any) rejects: the handler's promise rejects, every key reads its last
      save among the writes before the rejection (or its old value), the queue
      holds exactly the items those writes enqueued, under the next fresh ids,
      and nothing of the rejected write or the ones after it shows. */
  function RunWrites(s: Store, ws: seq<Write>, now: int, failAt: Option<nat>): (e: Effect<()>)
    requires Valid(s)
    ensures Valid(e.store)
    ensures e.result.Ok? <==> failAt.None? || failAt.value >= |ws|
    ensures var done := Performed(ws, failAt);
      && e.store.transactions == s.transactions && e.store.nextTxId == s.nextTxId
      && (forall key :: GetMasterData(e.store, key) ==
            (if LastSave(done, key).Some? then LastSave(done, key) else GetMasterData(s, key)))
      && e.store.syncQueue == QueueAfter(s.syncQueue, s.nextSyncId, done, now)
      && e.store.nextSyncId == s.nextSyncId + |Enqueued(done, now)|
    ensures e.store == ApplyWrites(s, Performed(ws, failAt), now)
  {
    var done := Performed(ws, failAt);
    Effect(ApplyWrites(s, done, now), if done == ws then Ok(()) else Err(StorageError("write failed")))
  }

  /** With no rejection, a run performs all of its writes. */
  lemma RunWritesComplete(s: Store, ws: seq<Write>, now: int)
    requires Valid(s)
    ensures RunWrites(s, ws, now, None).store == ApplyWrites(s, ws, now)
    ensures RunWrites(s, ws, now, None).result.Ok?
  {
    assert Performed(ws, None) == ws;
  }
}
