/** The sample-data loader: a fixed catalog (four categories, five products,
    three payment methods) written as three whole-list saves followed by one
    'create' queue item per entity, each write awaited in turn. */
module SampleData {
  import opened Results
  import opened Entities
  import opened OfflineStore

  const SampleCategories: seq<Category> := [
    Category(1, "Sembako", true),
    Category(2, "Minuman", true),
    Category(3, "Snack", true),
    Category(4, "Perawatan", true)
  ]

  const SampleProducts: seq<Product> := [
    Product(1, "Beras Premium", 1, true,
      [Variant(1, "Default", "BRS-001", Some("8991234567890"), 1, 15000, Some(13500), 12000, true)],
      [Unit(1, "kg", 1), Unit(2, "karung", 25)], 100),
    Product(2, "Minyak Goreng", 1, true,
      [Variant(2, "Default", "MYK-001", Some("8991234567891"), 1, 18000, Some(16500), 15000, true)],
      [Unit(1, "liter", 1)], 50),
    Product(3, "Gula Pasir", 1, true,
      [Variant(3, "Default", "GUL-001", Some("8991234567892"), 1, 14000, Some(12500), 11000, true)],
      [Unit(1, "kg", 1)], 75),
    Product(4, "Aqua Botol", 2, true,
      [Variant(4, "600ml", "AQU-600", Some("8991234567893"), 1, 3500, Some(3000), 2500, true),
       Variant(5, "1500ml", "AQU-1500", Some("8991234567894"), 1, 6000, Some(5500), 4500, true)],
      [Unit(1, "botol", 1), Unit(2, "dus", 24)], 200),
    Product(5, "Indomie Goreng", 3, true,
      [Variant(6, "Default", "IND-001", Some("8991234567895"), 1, 3000, Some(2700), 2400, true)],
      [Unit(1, "pcs", 1), Unit(2, "dus", 40)], 500)
  ]

  const SamplePaymentMethods: seq<PaymentMethod> := [
    PaymentMethod(1, "Cash", Cash, true),
    PaymentMethod(2, "QRIS", QrCode, true),
    PaymentMethod(3, "Bank Transfer", BankTransfer, true)
  ]

  /** One `queueForSync(entityType, operation, payload)` per payload, in order. */
  function EnqueueAll(entityType: string, operation: string, payloads: seq<Payload>): (ws: seq<Write>)
    ensures |ws| == |payloads|
    ensures forall k | 0 <= k < |ws| :: ws[k] == Enqueue(entityType, operation, payloads[k])
  {
    seq(|payloads|, k requires 0 <= k < |payloads| => Enqueue(entityType, operation, payloads[k]))
  }

  function CategoryPayloads(cs: seq<Category>): seq<Payload> {
    seq(|cs|, k requires 0 <= k < |cs| => CategoryData(cs[k]))
  }

  function ProductPayloads(ps: seq<Product>): seq<Payload> {
    seq(|ps|, k requires 0 <= k < |ps| => ProductData(ps[k]))
  }

  function MethodPayloads(ms: seq<PaymentMethod>): seq<Payload> {
    seq(|ms|, k requires 0 <= k < |ms| => PaymentMethodData(ms[k]))
  }

  /** The three saves, in source order. */
  function SampleSaves(): seq<Write> {
    [ Save("categories", Categories(SampleCategories)),
      Save("products", Products(SampleProducts)),
      Save("paymentMethods", PaymentMethods(SamplePaymentMethods)) ]
  }

  /** The payloads queued, in source order: categories, then products, then methods. */
  function SamplePayloads(): seq<Payload> {
    CategoryPayloads(SampleCategories) + ProductPayloads(SampleProducts) + MethodPayloads(SamplePaymentMethods)
  }

  function SampleEnqueues(): seq<Write> {
    EnqueueAll("category", "create", CategoryPayloads(SampleCategories))
    + EnqueueAll("product", "create", ProductPayloads(SampleProducts))
    + EnqueueAll("paymentMethod", "create", MethodPayloads(SamplePaymentMethods))
  }

  /** `loadSampleData`: the writes in order; if the write at `failAt` rejects,
      the earlier writes stay and the rest never run. */
  function LoadSampleData(s: Store, now: int, failAt: Option<nat>): (e: Effect<()>)
    requires Valid(s)
    ensures Valid(e.store)
    ensures e.result.Ok? <==> failAt.None? || failAt.value >= 15
  {
    RunWrites(s, SampleSaves() + SampleEnqueues(), now, failAt)
  }

  lemma {:induction false} EnqueuedAppend(a: seq<Write>, b: seq<Write>, now: int)
    ensures Enqueued(a + b, now) == Enqueued(a, now) + Enqueued(b, now)
    decreases |a|
  {
    if |a| == 0 {
      assert a + b == b;
    } else {
      assert (a + b)[1..] == a[1..] + b;
      EnqueuedAppend(a[1..], b, now);
    }
  }

  lemma {:induction false} LastSaveAppend(a: seq<Write>, b: seq<Write>, key: string)
    ensures LastSave(a + b, key) == (if LastSave(b, key).Some? then LastSave(b, key) else LastSave(a, key))
    decreases |a|
  {
    if |a| == 0 {
      assert a + b == b;
    } else {
      assert (a + b)[1..] == a[1..] + b;
      LastSaveAppend(a[1..], b, key);
    }
  }

  lemma {:induction false} SavesEnqueueNothing(ws: seq<Write>, now: int)
    requires forall k | 0 <= k < |ws| :: ws[k].Save?
    ensures Enqueued(ws, now) == []
    decreases |ws|
  {
    if |ws| > 0 {
      SavesEnqueueNothing(ws[1..], now);
    }
  }

  /** Queue-only writes enqueue one pending item per payload and save nothing. */
  lemma {:induction false} EnqueueAllEffect(t: string, op: string, ps: seq<Payload>, now: int, key: string)
    ensures |Enqueued(EnqueueAll(t, op, ps), now)| == |ps|
    ensures forall k | 0 <= k < |ps| :: Enqueued(EnqueueAll(t, op, ps), now)[k] == SyncItem(t, op, ps[k], Pending, 0, now)
    ensures LastSave(EnqueueAll(t, op, ps), key).None?
    decreases |ps|
  {
    if |ps| > 0 {
      var ws := EnqueueAll(t, op, ps);
      assert ws[1..] == EnqueueAll(t, op, ps[1..]);
      EnqueueAllEffect(t, op, ps[1..], now, key);
    }
  }

  /** The items the loader enqueues: one pending 'create' item per sample
      entity, carrying that entity, in the order of the source loops. */
  lemma SampleEnqueued(now: int)
    ensures |Enqueued(SampleSaves() + SampleEnqueues(), now)| == 12
    ensures forall k | 0 <= k < 4 ::
      Enqueued(SampleSaves() + SampleEnqueues(), now)[k] == SyncItem("category", "create", CategoryData(SampleCategories[k]), Pending, 0, now)
    ensures forall k | 0 <= k < 5 ::
      Enqueued(SampleSaves() + SampleEnqueues(), now)[4 + k] == SyncItem("product", "create", ProductData(SampleProducts[k]), Pending, 0, now)
    ensures forall k | 0 <= k < 3 ::
      Enqueued(SampleSaves() + SampleEnqueues(), now)[9 + k] == SyncItem("paymentMethod", "create", PaymentMethodData(SamplePaymentMethods[k]), Pending, 0, now)
  {
    var c := EnqueueAll("category", "create", CategoryPayloads(SampleCategories));
    var p := EnqueueAll("product", "create", ProductPayloads(SampleProducts));
    var m := EnqueueAll("paymentMethod", "create", MethodPayloads(SamplePaymentMethods));
    EnqueuedAppend(SampleSaves(), c + p + m, now);
    EnqueuedAppend(c + p, m, now);
    EnqueuedAppend(c, p, now);
    EnqueueAllEffect("category", "create", CategoryPayloads(SampleCategories), now, "");
    EnqueueAllEffect("product", "create", ProductPayloads(SampleProducts), now, "");
    EnqueueAllEffect("paymentMethod", "create", MethodPayloads(SamplePaymentMethods), now, "");
    SavesEnqueueNothing(SampleSaves(), now);
  }

  /** Which keys the loader writes: exactly the three sample lists, each
      replaced wholesale; any other key (promotions included) is untouched. */
  lemma SampleSaved(now: int, key: string)
    ensures LastSave(SampleSaves() + SampleEnqueues(), key) ==
      if key == "categories" then Some(Categories(SampleCategories))
      else if key == "products" then Some(Products(SampleProducts))
      else if key == "paymentMethods" then Some(PaymentMethods(SamplePaymentMethods))
      else None
  {
    var c := EnqueueAll("category", "create", CategoryPayloads(SampleCategories));
    var p := EnqueueAll("product", "create", ProductPayloads(SampleProducts));
    var m := EnqueueAll("paymentMethod", "create", MethodPayloads(SamplePaymentMethods));
    var sv := SampleSaves();
    assert sv[1..][1..][1..] == [];
    assert LastSave(sv[1..][1..], key) == (if key == "paymentMethods" then Some(PaymentMethods(SamplePaymentMethods)) else None);
    assert LastSave(sv[1..], key) == (if key == "paymentMethods" then Some(PaymentMethods(SamplePaymentMethods))
      else if key == "products" then Some(Products(SampleProducts)) else None);
    LastSaveAppend(sv, c + p + m, key);
    LastSaveAppend(c + p, m, key);
    LastSaveAppend(c, p, key);
    EnqueueAllEffect("category", "create", CategoryPayloads(SampleCategories), now, key);
    EnqueueAllEffect("product", "create", ProductPayloads(SampleProducts), now, key);
    EnqueueAllEffect("paymentMethod", "create", MethodPayloads(SamplePaymentMethods), now, key);
  }

  /** A successful load: the three lists read back exactly, promotions are as
      before, and the ledger is untouched. */
  lemma LoadSampleDataLists(s: Store, now: int)
    requires Valid(s)
    ensures var s' := LoadSampleData(s, now, None).store;
      && GetMasterData(s', "categories") == Some(Categories(SampleCategories))
      && GetMasterData(s', "products") == Some(Products(SampleProducts))
      && GetMasterData(s', "paymentMethods") == Some(PaymentMethods(SamplePaymentMethods))
      && GetMasterData(s', "promotions") == GetMasterData(s, "promotions")
      && s'.transactions == s.transactions
  {
    RunWritesComplete(s, SampleSaves() + SampleEnqueues(), now);
    SampleSaved(now, "categories");
    SampleSaved(now, "products");
    SampleSaved(now, "paymentMethods");
    SampleSaved(now, "promotions");
  }

  /** A successful load keeps the queue's existing items and puts twelve
      pending 'create' items at the next twelve ids, each carrying the entity
      stored in its list, in the order of the source loops. */
  lemma LoadSampleDataQueue(s: Store, now: int)
    requires Valid(s)
    ensures var s' := LoadSampleData(s, now, None).store;
      && s'.nextSyncId == s.nextSyncId + 12
      && (forall id | id in s.syncQueue :: s'.syncQueue[id] == s.syncQueue[id])
      && (forall id | s.nextSyncId <= id < s.nextSyncId + 4 :: id in s'.syncQueue
            && s'.syncQueue[id] == SyncItem("category", "create", CategoryData(SampleCategories[id - s.nextSyncId]), Pending, 0, now))
      && (forall id | s.nextSyncId + 4 <= id < s.nextSyncId + 9 :: id in s'.syncQueue
            && s'.syncQueue[id] == SyncItem("product", "create", ProductData(SampleProducts[id - s.nextSyncId - 4]), Pending, 0, now))
      && (forall id | s.nextSyncId + 9 <= id < s.nextSyncId + 12 :: id in s'.syncQueue
            && s'.syncQueue[id] == SyncItem("paymentMethod", "create", PaymentMethodData(SamplePaymentMethods[id - s.nextSyncId - 9]), Pending, 0, now))
  {
    RunWritesComplete(s, SampleSaves() + SampleEnqueues(), now);
    SampleQueueApplied(s, now, ApplyWrites(s, SampleSaves() + SampleEnqueues(), now));
  }

  /** The queue part of `LoadSampleDataQueue`, on the store after all writes. */
  lemma SampleQueueApplied(s: Store, now: int, s': Store)
    requires Valid(s)
    requires s' == ApplyWrites(s, SampleSaves() + SampleEnqueues(), now)
    ensures s'.nextSyncId == s.nextSyncId + 12
    ensures forall id | id in s.syncQueue :: s'.syncQueue[id] == s.syncQueue[id]
    ensures forall id | s.nextSyncId <= id < s.nextSyncId + 4 ::
      id in s'.syncQueue && s'.syncQueue[id] == SyncItem("category", "create", CategoryData(SampleCategories[id - s.nextSyncId]), Pending, 0, now)
    ensures forall id | s.nextSyncId + 4 <= id < s.nextSyncId + 9 ::
      id in s'.syncQueue && s'.syncQueue[id] == SyncItem("product", "create", ProductData(SampleProducts[id - s.nextSyncId - 4]), Pending, 0, now)
    ensures forall id | s.nextSyncId + 9 <= id < s.nextSyncId + 12 ::
      id in s'.syncQueue && s'.syncQueue[id] == SyncItem("paymentMethod", "create", PaymentMethodData(SamplePaymentMethods[id - s.nextSyncId - 9]), Pending, 0, now)
  {
    var ws := SampleSaves() + SampleEnqueues();
    SampleEnqueued(now);
    var e := Enqueued(ws, now);
    forall id | s.nextSyncId <= id < s.nextSyncId + 12
      ensures id in s'.syncQueue && s'.syncQueue[id] == e[id - s.nextSyncId]
    {
      ApplyWritesEnqueuedAt(s, ws, now, id - s.nextSyncId);
    }
  }

  /** The fixture is well formed: every product has a variant, non-negative
      stock and an existing category; variant ids and SKUs are unique across
      all products. */
  lemma SampleFixtureWellFormed()
    ensures forall i | 0 <= i < |SampleProducts| ::
      && |SampleProducts[i].variants| > 0
      && SampleProducts[i].stock >= 0
      && exists c | 0 <= c < |SampleCategories| :: SampleCategories[c].id == SampleProducts[i].categoryId
    ensures forall i, j, a, b |
      && 0 <= i < |SampleProducts| && 0 <= j < |SampleProducts|
      && 0 <= a < |SampleProducts[i].variants| && 0 <= b < |SampleProducts[j].variants|
      && (i, a) != (j, b) ::
      && SampleProducts[i].variants[a].id != SampleProducts[j].variants[b].id
      && SampleProducts[i].variants[a].sku != SampleProducts[j].variants[b].sku
  {
    assert SampleCategories[0].id == 1 && SampleCategories[1].id == 2 && SampleCategories[2].id == 3;
  }
}
