# Omni-device POS (sembako) — verified model of the offline client core

This project is a Dafny model of the data logic behind the point-of-sale web
client for a grocery shop. The client keeps its reference data (categories,
products, payment methods, promotions) and its sales ledger in the browser's
object store. Every change is also put on a sync queue, which a sync pass
later pushes to the backend. The model covers:

- the offline store: the master-data blobs, the auto-increment sales ledger
  and the sync queue (`OfflineStore`);
- the sync pass and its status bookkeeping (`SyncQueue`);
- the master-data read rule (`MasterDataCache`) and the sample-data loader
  (`SampleData`);
- the cart and its arithmetic (`Cart`);
- payment validation, price tiers, promotion eligibility and the checkout
  page (`PaymentValidation`, `PriceTier`, `PromoEngine`, `Checkout`);
- barcode lookup, product search and the POS page (`BarcodeResolver`,
  `ProductSelectors`, `PosPage`);
- the catalog store, the product form and the catalog page (`CatalogStore`,
  `CatalogForm`, `CatalogPage`);
- the inventory, receiving, payment-method and promotion pages (`Inventory`,
  `Receiving`, `PaymentMethodsPage`, `PromotionsPage`);
- net sales and refunds (`TransactionLedger`) and the report aggregates
  (`Reports`);
- the semicolon CSV codec, product export/import and report export
  (`CsvCodec`, `CsvExport`, `CsvImport`);
- the translation lookup (`I18n`), the keyboard-wedge barcode listener
  (`HidBarcode`), the idle lock (`IdleLock`) and the authentication gate
  (`AuthGate`).

Conventions used throughout:

- **The store is a value.** A store is an immutable record of maps and
  key-generator counters. Every store operation is a function from store to
  store. A rejected request is an explicit fault parameter, and its outcome
  is a `Result`.
- **Page handlers are write plans.** A page handler (a form submit, a
  toggle) is modelled as a `PageWrites.Plan`: the awaited store writes in
  order, and whether the handler reaches its end. `PageWrites.RunPlan`
  replays a plan against a store, with an optional index of the write that
  rejects. This is how the model shows that saving a blob and queueing its
  sync item are two separate steps: the first can persist without the
  second.
- **Outside inputs are parameters.** The clock (`now`), JavaScript's
  `Number()` conversion of form text (`number`), the remote sync call
  (`remote`) and the translation dictionary are parameters.
- **Amounts are integers.** Money is an integer number of rupiah. The 10%
  tax uses exact integer round-half-up in place of the floating-point
  `Math.round(x * 0.1)`.

## Model

| member | source | states |
|---|---|---|
| OfflineStore.GetMasterData | src/frontend/src/offline/storage.ts:43-53 | a key reads as absent exactly when it was never written |
| OfflineStore.SaveMasterData | src/frontend/src/offline/storage.ts:31-41 | after the put, the key reads back exactly the saved value and every other key reads as before; the ledger and the queue are untouched; the key-generator invariant is kept |
| OfflineStore.NormalizeTx | src/frontend/src/offline/storage.ts:65-74 | the stored record keeps items and payments; total, subtotal, discount and tax keep a non-negative value and become 0 for a negative one; subtotal defaults to the total, and discount and tax default to 0; the timestamp defaults to now; the status is completed |
| OfflineStore.QueueForSync | src/frontend/src/offline/storage.ts:113-136 | exactly one new pending item with zero attempts, under the next generated key; existing items, master data and the ledger are unchanged |
| OfflineStore.CreateTransaction | src/frontend/src/offline/storage.ts:55-87 | a rejected ledger add changes nothing; a successful add stores the normalised record under a fresh id greater than every earlier key and returns that id; the 'transaction'/'create' sync item holding the record and its id is added only when the separate queue write also succeeds; stock and payments are never checked |
| OfflineStore.GetTransaction | src/frontend/src/offline/storage.ts:89-99 | a sale is found exactly when its id is in the ledger |
| OfflineStore.GetAllTransactions | src/frontend/src/offline/storage.ts:101-111 | lists every stored sale exactly once, with its record, in ascending id order |
| OfflineStore.GetSyncQueue | src/frontend/src/offline/storage.ts:138-148 | lists every queued item exactly once, with its record, in ascending id order |
| OfflineStore.Merge | src/frontend/src/offline/storage.ts:163 | the shallow merge: each given field overrides the item's field, and every other field is kept |
| OfflineStore.UpdateSyncQueueItem | src/frontend/src/offline/storage.ts:150-174 | fails with 'Item not found' exactly when the id is absent; otherwise only that item changes, to the merge of the item and the update |
| OfflineStore.DeleteSyncQueueItem | src/frontend/src/offline/storage.ts:176-186 | removes exactly that key; the other items and the key generator are unchanged |
| OfflineStore.DeletedIdNotReused | src/frontend/src/offline/storage.ts:24-25 | an item queued after a deletion never gets the deleted id |
| OfflineStore.ApplyWrites | src/frontend/src/offline/storage.ts:31-41 | a sequence of saves and enqueues leaves the ledger untouched; each key reads its last saved value, or its old value if it was not saved; one new queue key per enqueue; existing items are unchanged |
| OfflineStore.ApplyWritesEnqueuedAt | src/frontend/src/offline/storage.ts:113-136 | the k-th enqueued item lands at the k-th fresh key, with its content |
| OfflineStore.RunWrites | src/frontend/src/features/catalog/CatalogPage.tsx:100-101 | writes awaited one after another: the handler resolves only if no write rejects; after a rejection at index i every key reads its last save among the first i writes or its old value, the queue gains exactly the items those writes enqueued at the next fresh ids, the ledger is untouched, and nothing of the i-th or later writes shows |
| SyncQueue.UpdateSyncStatus | src/frontend/src/offline/syncQueue.ts:44-64 | a missing id is a silent no-op; otherwise only that item's status changes |
| SyncQueue.IncrementAttempts | src/frontend/src/offline/syncQueue.ts:66-86 | a missing id is a silent no-op; otherwise only that item's attempts grow by exactly one |
| SyncQueue.UpdateSyncStatusIsMerge | src/frontend/src/offline/syncQueue.ts:51-57 | setting the status is the storage-level merge of a status-only update |
| SyncQueue.PendingIds | src/frontend/src/offline/syncQueue.ts:24-25 | exactly the ids whose status is pending, ascending |
| SyncQueue.Settle | src/frontend/src/offline/syncQueue.ts:27-35 | the queue after a pass: non-pending items unchanged; a pending item becomes synced with the same attempts on success, or failed with one more attempt on failure; no keys added or removed |
| SyncQueue.ProcessSyncQueue | src/frontend/src/offline/syncQueue.ts:23-36 | the loop visits exactly the initially pending ids in ascending order; a remote failure does not stop later items, and without a rejected catch-block write the result is `Settle`; a rejected 'failed' status or attempts write rejects the pass there: earlier items are settled, that item is left unchanged or 'failed' with its attempt uncounted, later items stay as they were; master data and ledger untouched |
| SyncQueue.SettlePending | src/frontend/src/offline/syncQueue.ts:27-35 | the row loop over the snapshot's pending ids, with the same settled, interrupted and untouched parts |
| SyncQueue.LaterUntouched | src/frontend/src/offline/syncQueue.ts:27-33 | when the pass stops at a position, every later pending item is still as the snapshot had it |
| SyncQueue.SecondPassNoChange | src/frontend/src/offline/syncQueue.ts:25 | a second pass over a settled queue changes nothing, whatever the remote answers |
| SyncQueue.FailedNeverReprocessed | src/frontend/src/offline/syncQueue.ts:25 | a failed item is left as it is by any number of later passes |
| SyncQueue.PassesAfterFirstAreIdle | src/frontend/src/offline/syncQueue.ts:25 | any sequence of passes equals the first pass alone |
| MasterDataCache.KeysDistinct | src/frontend/src/offline/masterDataCache.ts:6 | different domains use different store keys and query keys |
| MasterDataCache.UseMasterData | src/frontend/src/offline/masterDataCache.ts:7-10 | a stored value is returned unchanged, and an absent one reads as the empty list of that domain |
| MasterDataCache.ReadAfterSave | src/frontend/src/offline/masterDataCache.ts:8-9 | reading a domain after saving it returns the saved blob |
| MasterDataCache.ReadIndependent | src/frontend/src/offline/masterDataCache.ts:6-8 | saving one domain does not change what another domain reads |
| MasterDataCache.SavePreservesWellTyped | src/frontend/src/offline/masterDataCache.ts:8-9 | saving a blob of the domain's own kind keeps every domain's blob of the right kind |
| MasterDataCache.TypedReadAfterSave | src/frontend/src/offline/masterDataCache.ts:8-9 | each typed list reads back what was saved under its key |
| SampleData.LoadSampleData | src/frontend/src/features/admin/sampleData.ts:144-159 | the loader performs 15 awaited writes and resolves exactly when none of them rejects |
| SampleData.SampleEnqueued | src/frontend/src/features/admin/sampleData.ts:150-158 | twelve 'create' items in order: 4 categories, then 5 products, then 3 payment methods, each carrying the fixture entity |
| SampleData.SampleSaved | src/frontend/src/features/admin/sampleData.ts:145-147 | only 'categories', 'products' and 'paymentMethods' are written, each with its whole fixture list; 'promotions' is not written |
| SampleData.LoadSampleDataLists | src/frontend/src/features/admin/sampleData.ts:144-159 | in the store after a complete load, the three keys hold the fixtures, promotions and the ledger are unchanged |
| SampleData.LoadSampleDataQueue | src/frontend/src/features/admin/sampleData.ts:144-159 | after a complete load, existing queue items are kept and the twelve 'create' items sit at the next twelve queue keys in loop order |
| SampleData.SampleFixtureWellFormed | src/frontend/src/features/admin/sampleData.ts:4-137 | every sample product has a variant, non-negative stock and an existing category; variant ids and SKUs are unique |
| Cart.LineIdInjective | src/frontend/src/features/pos/cartStore.ts:56 | the line id text determines product id, variant id and time |
| Cart.FindPair | src/frontend/src/features/pos/cartStore.ts:42-44 | finds the first line for the (product, variant) pair, or none exactly when no line has it |
| Cart.AddItem | src/frontend/src/features/pos/cartStore.ts:41-68 | an existing pair gains one unit in place, with the length unchanged; a new pair appends one line with the id `productId-variantId-time`, the product's name, the variant's SKU and retail price, quantity 1, unit 'pcs', no note and no discount |
| Cart.AddItemPreservesInv | src/frontend/src/features/pos/cartStore.ts:41-68 | adding never creates a second line for the same pair, and keeps line ids unique |
| Cart.AddItemLineSum | src/frontend/src/features/pos/cartStore.ts:41-68 | adding a variant raises the line sum by exactly its retail price |
| Cart.UpdateQuantity | src/frontend/src/features/pos/cartStore.ts:70-80 | a quantity ≤ 0 removes the line; otherwise only that line's quantity is set |
| Cart.UpdateNote | src/frontend/src/features/pos/cartStore.ts:82-88 | only the line with that id gets the note |
| Cart.UpdateDiscount | src/frontend/src/features/pos/cartStore.ts:90-96 | only the line with that id gets the discount |
| Cart.RemoveItem | src/frontend/src/features/pos/cartStore.ts:98-100 | no line with that id remains; every other line remains, in order, as many times as before |
| Cart.ClearCart | src/frontend/src/features/pos/cartStore.ts:102-104 | an empty cart, no cart discount, tax off |
| Cart.SetCartDiscount | src/frontend/src/features/pos/cartStore.ts:106-108 | stores max(0, d) and nothing else |
| Cart.SetTaxEnabled | src/frontend/src/features/pos/cartStore.ts:110-112 | sets only the tax flag |
| Cart.Subtotal | src/frontend/src/features/pos/cartStore.ts:114-120 | the line sum (price × quantity − line discount) when it is not negative, and 0 when it is |
| Cart.RoundTenthNearest | src/frontend/src/features/pos/cartStore.ts:125 | the rounded tenth is the nearest integer to n/10, halves rounding up |
| Cart.Tax | src/frontend/src/features/pos/cartStore.ts:122-126 | zero when tax is off; otherwise the nearest integer to a tenth of subtotal minus cart discount (halves up) when that difference is not negative, and 0 when it is |
| Cart.Total | src/frontend/src/features/pos/cartStore.ts:128-131 | subtotal − cart discount + tax when not negative, and 0 when negative |
| Cart.TaxExample | src/frontend/src/features/pos/cartStore.ts:122-131 | a subtotal of 12345 with tax on gives tax 1235 and total 13580 |
| CartSnapshot.Merge | src/frontend/src/features/pos/cartStore.ts:114-131 | a merge copies the getter values of the object before it (the original object) or the plain values already copied |
| CartSnapshot.FieldsFrozenAfterFirstMerge | src/frontend/src/features/pos/cartStore.ts:114-131 | as written: after any run of merges the cart is the last one set, but the subtotal and total read are those of the original state |
| CartSnapshot.StaleTotalAfterAdd | src/frontend/src/features/pos/cartStore.ts:114-131 | as written: adding a 12345 line to the empty cart leaves the read subtotal and total at 0 |
| CartSnapshot.LiveSubtotalFollowsAdd | src/frontend/src/features/pos/cartStore.ts:114-120 | intended: the live subtotal rises by exactly the price of the line an add grows |
| PaymentValidation.ValidatePayment | src/frontend/src/features/checkout/paymentValidation.ts:6-20 | valid exactly when there is a payment and the amount paid covers the amount due; 'No payments added' is checked before 'Insufficient payment' |
| PaymentValidation.IgnoresPaymentContents | src/frontend/src/features/checkout/paymentValidation.ts:6-10 | only the emptiness of the list matters, not its amounts |
| PriceTier.SelectPriceTier | src/frontend/src/features/pos/priceTier.ts:3-5 | wholesale exactly when the quantity reaches the threshold |
| PriceTier.SelectPriceTierDefault | src/frontend/src/features/pos/priceTier.ts:3 | the default threshold is 12 |
| PriceTier.TierMonotone | src/frontend/src/features/pos/priceTier.ts:4 | a larger quantity never drops back to retail |
| PriceTier.GetPrice | src/frontend/src/features/pos/priceTier.ts:7-12 | the wholesale price only for the wholesale tier and a present, non-zero wholesale price; the retail price otherwise |
| PriceTier.PriceForQuantity | src/frontend/src/features/pos/priceTier.ts:3-12 | the price for a quantity combines both rules |
| PromoEngine.CheckPromoEligibility | src/frontend/src/features/promotions/promoEngine.ts:10-29 | eligible exactly when no check fails; otherwise the reason is the first failure in the order active, minimum purchase, start, end; an inactive promotion is always 'Promotion is not active' |
| PromoEngine.EligibleWindow | src/frontend/src/features/promotions/promoEngine.ts:15-26 | with every field set, eligibility is the minimum purchase plus the inclusive validity window |
| PromoEngine.ApplyPromotion | src/frontend/src/features/promotions/promoEngine.ts:31-38 | 'fixed' gives min(value, cart total), never more than the cart total; 'percentage' gives the exact proportion; any other type gives 0 |
| Checkout.Remaining | src/frontend/src/features/checkout/CheckoutPage.tsx:24-25 | remaining plus amount paid is the cart total |
| Checkout.AddPayment | src/frontend/src/features/checkout/CheckoutPage.tsx:27-42 | a missing method or amount, or an amount ≤ 0, is rejected with its message and leaves the payments; otherwise exactly one entry is appended and the inputs are reset |
| Checkout.AddPaymentReducesRemaining | src/frontend/src/features/checkout/CheckoutPage.tsx:24-39 | an accepted payment lowers the remaining amount by exactly its amount |
| Checkout.HandleComplete | src/frontend/src/features/checkout/CheckoutPage.tsx:44-64 | no sale without valid payments; the cart is cleared only after the sale is stored; the stored record has subtotal = total and discount = tax = 0 |
| Checkout.CheckoutDropsTax | src/frontend/src/features/checkout/CheckoutPage.tsx:52-56 | a taxed sale of 12345 is stored with subtotal 13580 and tax 0 |
| Checkout.HandleCompleteWithBreakdown | src/frontend/src/features/checkout/CheckoutPage.tsx:52-56 | corrected completion: the stored subtotal, discount and tax are the cart's, and they add up to the stored total |
| BarcodeResolver.FirstMatch | src/frontend/src/features/barcode/barcodeResolver.ts:2-9 | the first product, then the first of its variants, whose barcode equals the query exactly |
| BarcodeResolver.ResolveBarcode | src/frontend/src/features/barcode/barcodeResolver.ts:1-10 | null exactly when no variant has the barcode; otherwise a product from the list with one of its own variants carrying that barcode, the first in product then variant order |
| ProductSelectors.ActiveProducts | src/frontend/src/features/pos/productSelectors.ts:7-9 | exactly the active products, in their original order, each as many times as in the input |
| ProductSelectors.SearchProducts | src/frontend/src/features/pos/productSelectors.ts:11-20 | an order-preserving subsequence of the active products, holding exactly those whose lower-cased name, SKU or barcode contains the lower-cased query, each as many times as in the input |
| ProductSelectors.EmptyQueryMatchesAll | src/frontend/src/features/pos/productSelectors.ts:15 | the empty query returns every active product |
| ProductSelectors.NoBarcodeMatchesBySku | src/frontend/src/features/pos/productSelectors.ts:18 | a variant without a barcode matches only through its SKU |
| PosPage.DisplayedProducts | src/frontend/src/features/pos/PosPage.tsx:23 | the search result for a non-empty query, otherwise the first 20 active products |
| PosPage.FindProduct | src/frontend/src/features/pos/PosPage.tsx:41-48 | the first product that has a variant with exactly that barcode |
| PosPage.FindProductIsFirstMatch | src/frontend/src/features/pos/PosPage.tsx:41-48 | the page's lookup finds the same product as the resolver |
| PosPage.ScanBarcode | src/frontend/src/features/pos/PosPage.tsx:26-53 | not found exactly when no active product has a variant with the barcode, and then the cart is unchanged |
| PosPage.ScanAgreesWithResolver | src/frontend/src/features/pos/PosPage.tsx:26-53 | a scan adds the resolver's first match among the active products with that matching variant; an unknown barcode leaves the cart unchanged |
| PosPage.ClickProduct | src/frontend/src/features/pos/PosPage.tsx:104-107 | adds the first variant, and only if the product has one |
| PosPage.HandleCheckout | src/frontend/src/features/pos/PosPage.tsx:57-60 | checkout is refused exactly when the cart is empty |
| CatalogStore.ExportCatalogKeys | src/frontend/src/features/catalog/catalogStore.ts:1-3 | one key per product, in order: the SKU when non-empty, otherwise the decimal id |
| CatalogStore.PutAllMatchesReference | src/frontend/src/features/catalog/catalogStore.ts:5-13 | upserting into an empty list gives ids in order of first appearance, distinct, each holding the last entry with that id |
| CatalogStore.UpsertsMatchReference | src/frontend/src/features/catalog/catalogStore.ts:5-13 | the upsert result has the ids of products followed by updates in order of first appearance, without repeats, each entry the last one with its id |
| CatalogStore.UpsertEntries | src/frontend/src/features/catalog/catalogStore.ts:8-12 | with distinct product ids, each updated id holds its last update and each product not updated comes back unchanged |
| CatalogStore.UpsertPositions | src/frontend/src/features/catalog/catalogStore.ts:6-12 | existing ids keep their positions; new ids follow, not among the existing ones |
| CatalogForm.Pick | src/frontend/src/features/catalog/catalogFormModel.ts:12-40 | the chosen messages are a subsequence of the fixed order, contain every failing check's message and nothing else, and are empty exactly when nothing fails |
| CatalogForm.ValidateProductForm | src/frontend/src/features/catalog/catalogFormModel.ts:12-40 | the messages follow the check order and are all among the six form messages |
| CatalogForm.ValidateProductFormMessages | src/frontend/src/features/catalog/catalogFormModel.ts:12-40 | each message is present exactly when its check fails: blank name, missing or 0 category, blank SKU, retail price ≤ 0, cost < 0, a given wholesale price ≤ 0 |
| CatalogForm.ValidFormCharacterization | src/frontend/src/features/catalog/catalogFormModel.ts:12-40 | the form is valid exactly when every field is acceptable |
| PageWrites.RunPlan | src/frontend/src/features/catalog/CatalogPage.tsx:100-101 | a handler completes exactly when it reaches its end and no write rejects; the store holds the writes done before a rejection |
| PageWrites.SaveAndQueueEffect | src/frontend/src/features/catalog/CatalogPage.tsx:100-101 | save-then-enqueue: a rejected save changes nothing; a rejected enqueue keeps the save without a queue item; success has both, the item at the next queue key, other keys unchanged |
| CatalogPage.AddCategory | src/frontend/src/features/catalog/CatalogPage.tsx:44-52 | appends exactly one category and keeps the existing ones |
| CatalogPage.CategorySubmit | src/frontend/src/features/catalog/CatalogPage.tsx:40-62 | saves the extended list, then queues a 'category'/'create' item whose payload is the new entry |
| CatalogPage.CategorySubmitInStore | src/frontend/src/features/catalog/CatalogPage.tsx:40-62 | end to end: after a complete submit the stored categories are the old list plus the new entry, and the queue holds it |
| CatalogPage.BuildProduct | src/frontend/src/features/catalog/CatalogPage.tsx:72-93 | an edit keeps its id, the variant id and the stock; a new product has stock 0; one 'pcs' unit with conversion 1; exactly one variant, named 'Default', on unit 1, with the form's SKU, barcode, retail price, cost and active flag, and no wholesale price when that field is empty |
| CatalogPage.EditFields | src/frontend/src/features/catalog/CatalogPage.tsx:122-134 | the edit dialog shows the product's fields, numbers as decimal text, an absent barcode as '' and an absent or zero wholesale price as '' |
| CatalogPage.EditResubmitUnchanged | src/frontend/src/features/catalog/CatalogPage.tsx:72-134 | opening a product the dialog saved and submitting it unchanged saves the same product again |
| CatalogPage.ReplaceById | src/frontend/src/features/catalog/CatalogPage.tsx:96-97 | only the product with the edited id is replaced, in place |
| CatalogPage.ProductSubmit | src/frontend/src/features/catalog/CatalogPage.tsx:64-120 | no category selected gives no writes; an edit replaces in place and queues 'update', a new product is appended and queues 'create', both with the saved product |
| Inventory.LowStock | src/frontend/src/features/inventory/InventoryPage.tsx:20 | the products with stock below 10, in list order, each as many times as in the list |
| Inventory.AdjustStock | src/frontend/src/features/inventory/InventoryPage.tsx:28-32 | only the selected product's stock moves, by the signed change and without clamping; length and order are kept |
| Inventory.AdjustStockInverse | src/frontend/src/features/inventory/InventoryPage.tsx:28-32 | adjusting by −change undoes an adjustment by change |
| Inventory.Adjust | src/frontend/src/features/inventory/InventoryPage.tsx:22-51 | no selection writes nothing; otherwise the adjusted list is saved, then a 'stockAdjustment' item with product id, first variant id, change and reason is queued; a product without variants stops after the save |
| Receiving.AddItem | src/frontend/src/features/inventory/ReceivingPage.tsx:27-49 | an empty field, an unknown product or a product without a variant leaves the list; with every field filled and a known product that has a variant, exactly one item for its first variant, with the quantity and cost typed, is appended |
| Receiving.AddItemReceived | src/frontend/src/features/inventory/ReceivingPage.tsx:27-79 | an item added for a product not yet listed takes effect on submit: the product's stock grows by the quantity and its first variant's cost becomes the cost typed |
| Receiving.RemoveItem | src/frontend/src/features/inventory/ReceivingPage.tsx:51-53 | removes exactly the item at that index |
| Receiving.ApplyReceiving | src/frontend/src/features/inventory/ReceivingPage.tsx:65-79 | each product with a receiving item gains the first such item's quantity and that variant's cost; other variants and products are unchanged |
| Receiving.LaterDuplicateIgnored | src/frontend/src/features/inventory/ReceivingPage.tsx:66 | a later item for an already listed product has no effect |
| Receiving.Submit | src/frontend/src/features/inventory/ReceivingPage.tsx:55-95 | an empty supplier or item list writes nothing; otherwise the received products are saved, then a 'receiving' item is queued |
| Receiving.TotalCostAppend | src/frontend/src/features/inventory/ReceivingPage.tsx:97 | the total cost of a concatenation is the sum of the parts |
| Receiving.RemoveItemTotalCost | src/frontend/src/features/inventory/ReceivingPage.tsx:51-97 | removing an item lowers the total cost by exactly its quantity × cost |
| PaymentMethodsPage.NewMethod | src/frontend/src/features/payments/PaymentMethodsPage.tsx:24-31 | a new method is of the custom type with its own name |
| PaymentMethodsPage.CreateMethod | src/frontend/src/features/payments/PaymentMethodsPage.tsx:20-43 | appends exactly one method, keeps the others, and queues the same method |
| PaymentMethodsPage.CreateMethodInStore | src/frontend/src/features/payments/PaymentMethodsPage.tsx:16-43 | end to end on the store the page read: a rejected save changes nothing; otherwise the methods read back as the old list plus the new one; a rejected enqueue queues nothing; on success the new method is queued at the next key |
| PaymentMethodsPage.ToggleList | src/frontend/src/features/payments/PaymentMethodsPage.tsx:48-50 | negates `enabled` on the method with that id only; every other field and method is unchanged |
| PaymentMethodsPage.ToggleTwiceIdentity | src/frontend/src/features/payments/PaymentMethodsPage.tsx:48-50 | toggling twice restores the list |
| PaymentMethodsPage.ToggleEnabled | src/frontend/src/features/payments/PaymentMethodsPage.tsx:45-60 | saves the toggled list, then queues an 'update' whose payload is the clicked method negated, the same as the saved replacement |
| PromotionsPage.NewPromotion | src/frontend/src/features/promotions/PromotionsPage.tsx:29-39 | the type chosen ('percentage' or 'fixed'), the name and active flag of the form; an empty coupon is absent; the value is the number read; id and creation time are the clock; no minimum or dates |
| PromotionsPage.CreatePromotion | src/frontend/src/features/promotions/PromotionsPage.tsx:25-57 | appends exactly one promotion, keeps the others, and queues 'promotion'/'create' with the appended object |
| PromotionsPage.CreatePromotionInStore | src/frontend/src/features/promotions/PromotionsPage.tsx:25-57 | end to end on the store the page read: a rejected save changes nothing; otherwise the promotions read back as the old list plus the new one; a rejected enqueue queues nothing; on success the new promotion is queued at the next key |
| TransactionLedger.Contribution | src/frontend/src/features/transactions/transactionLedger.ts:2-9 | voided and fully refunded sales add 0, partly refunded add total − refunded, others add total |
| TransactionLedger.NetSalesAppend | src/frontend/src/features/transactions/transactionLedger.ts:1-10 | net sales of a concatenation is the sum of the parts |
| TransactionLedger.VoidRemovesContribution | src/frontend/src/features/transactions/transactionLedger.ts:3-4 | voiding a sale lowers net sales by exactly its former contribution |
| TransactionLedger.FirstRefundFor | src/frontend/src/features/transactions/transactionLedger.ts:14 | the first refund item for the product, none exactly when no item names it |
| TransactionLedger.ApplyRefundToInventory | src/frontend/src/features/transactions/transactionLedger.ts:12-23 | each product gains the first matching item's quantity; others are unchanged; length and order kept |
| TransactionLedger.SingleRefundIsAdjustment | src/frontend/src/features/transactions/transactionLedger.ts:12-23 | a one-item refund is the stock adjustment of the inventory page |
| Reports.CalculateDailySummary | src/frontend/src/features/reports/reportCalculations.ts:15-29 | count = number of sales, revenue = Σ totals, items = Σ quantities; the average times the count is the revenue, and 0 for no sales |
| Reports.SummaryAppend | src/frontend/src/features/reports/reportCalculations.ts:16-21 | revenue and items sold of a concatenation are the sums of the parts |
| Reports.ItemsSoldIsFlatQuantity | src/frontend/src/features/reports/reportCalculations.ts:18-21 | items sold is the quantity over all lines of all sales |
| Reports.GroupMatchesReference | src/frontend/src/features/reports/reportCalculations.ts:32-42 | one entry per distinct name, in first-seen order, with quantity = Σ qty and revenue = Σ price × qty for that name |
| Reports.GroupKeepsQuantity | src/frontend/src/features/reports/reportCalculations.ts:34-42 | grouping keeps the total quantity |
| Reports.SortPermutes | src/frontend/src/features/reports/reportCalculations.ts:51 | sorting is a permutation |
| Reports.SortIsSorted | src/frontend/src/features/reports/reportCalculations.ts:51 | sorted by revenue, non-increasing |
| Reports.SortIsStable | src/frontend/src/features/reports/reportCalculations.ts:51 | entries with equal revenue keep their relative order |
| Reports.CalculateProductSales | src/frontend/src/features/reports/reportCalculations.ts:31-52 | the result is a permutation of the grouped entries |
| Reports.ProductSalesCharacterization | src/frontend/src/features/reports/reportCalculations.ts:31-52 | the result is sorted by revenue and has exactly one entry per distinct item name, carrying that name's quantity and revenue |
| Reports.ProductSalesMatchItemsSold | src/frontend/src/features/reports/reportCalculations.ts:18-40 | the quantities of the product sales add up to the summary's items sold |
| CsvCodec.Escape | src/frontend/src/utils/csvParse.ts:7-14 | absent values become ''; text without ';', '"' or newline is unchanged; other text is wrapped in quotes |
| CsvCodec.ParseCsvLine | src/frontend/src/utils/csvParse.ts:58-83 | the character loop computes the quote-aware field split of the line, and at least one field |
| CsvCodec.ParseEscapedRow | src/frontend/src/utils/csvParse.ts:7-83 | parsing the ';'-join of escaped values returns the values, absent ones as '' |
| CsvCodec.QuotedText | src/frontend/src/utils/csvParse.ts:67-73 | inside quotes a doubled quote decodes to one quote, and the closing quote ends quoted mode and is dropped |
| CsvCodec.QuoteFreeLineIsSplit | src/frontend/src/utils/csvParse.ts:58-83 | a line without quotes parses to its split on ';', giving the number of ';' plus one fields |
| CsvExport.ProductCells | src/frontend/src/utils/csvParse.ts:16-28 | a product with a variant gives the cells name, category id, SKU, barcode, retail price, wholesale price, cost and 'true'/'false', in that order; an absent barcode and an absent or zero wholesale price are written as ''; a product without variants has no row |
| CsvExport.ProductLines | src/frontend/src/utils/csvParse.ts:4-30 | header line then one line per product, each the ';'-join of its escaped cells; an error if a product has no variant |
| CsvExport.ExportProductsCsv | src/frontend/src/utils/csvParse.ts:4-30 | the file is produced exactly when every product has a variant |
| CsvExport.ProductFileSplits | src/frontend/src/utils/csvParse.ts:16-30 | when no name, SKU or barcode holds a line break, splitting the file on newlines gives back the header line and one line per product |
| CsvExport.ProductRowsParse | src/frontend/src/utils/csvParse.ts:16-83 | each exported product line parses back to the product's cells |
| CsvExport.ProductHeaderParses | src/frontend/src/utils/csvParse.ts:5-30 | the header line parses back to the eight column names |
| CsvExport.RowValues | src/frontend/src/utils/csvExport.ts:23 | one value per header, in header order; a missing key gives none |
| CsvExport.ReportLines | src/frontend/src/utils/csvExport.ts:2-25 | empty data fails with 'No data to export'; otherwise the first row's keys, then one escaped line per row, rows + 1 lines in all |
| CsvExport.ReportRoundTrip | src/frontend/src/utils/csvExport.ts:7-25 | for newline-free keys and values, splitting the output on newlines gives the lines back, and each data line parses to its row's values in header order |
| CsvImport.Lines | src/frontend/src/utils/csvParse.ts:47 | the non-blank lines of the newline-split text, in order, each as many times as in the text |
| CsvImport.CheckRow | src/frontend/src/utils/csvParse.ts:125-148 | the first failing check in the order name, category, SKU, retail price, cost, each message exactly when its check is the first to fail |
| CsvImport.BuildProduct | src/frontend/src/utils/csvParse.ts:103-123 | trimmed name and SKU; category, retail price and cost read as numbers; the active flag of product and variant from the last column; the trimmed barcode, absent when empty; the wholesale price read when non-empty; product and variant id from the clock plus the row index; stock 0, one 'Default' variant on unit 1, one 'pcs' unit |
| CsvImport.ImportedRowExportsBack | src/frontend/src/utils/csvParse.ts:16-28 | importing a row of trimmed texts, canonical numbers and 'true'/'false', then exporting the product, gives back the same eight cells |
| CsvImport.ProcessRow | src/frontend/src/utils/csvParse.ts:94-148 | a row with a field count other than eight is rejected with its row label and both counts; otherwise it is rejected at its first failing check or accepted |
| CsvImport.OutcomesPartition | src/frontend/src/utils/csvParse.ts:94-150 | every data row is either accepted or reported |
| CsvImport.ProcessRows | src/frontend/src/utils/csvParse.ts:94-150 | the row loop collects exactly the accepted rows' products and the rejected rows' messages, each in file order |
| CsvImport.ImportProductsCsv | src/frontend/src/utils/csvParse.ts:45-164 | no non-blank line fails with 'File CSV kosong'; a header of other than eight fields gives one error, 0 imported, no writes; otherwise imported counts the accepted rows, which are appended after the product list read from the store (empty when absent) and saved, then queued one 'product'/'create' each, and nothing is written if none is accepted |
| CsvImport.ImportWritesEffect | src/frontend/src/utils/csvParse.ts:154-161 | after the import's writes on the store it read, the products read back as the stored list followed by the accepted products, and the k-th accepted product is queued at the k-th fresh key |
| I18n.TArray | src/frontend/src/i18n/t.ts:21-34 | a non-empty result is the array at the key's path, and `t` returns such a key unchanged |
| I18n.T | src/frontend/src/i18n/t.ts:4-18 | the string at the key's path when there is one; any result other than the key is such a string |
| I18n.WalkAppend | src/frontend/src/i18n/t.ts:8-15 | walking a concatenated path is walking its parts in turn |
| I18n.TFindsString | src/frontend/src/i18n/t.ts:4-18 | `t` returns the string found at the end of the key's segments, and `tArray` returns [] for it |
| I18n.TArrayFindsArray | src/frontend/src/i18n/t.ts:21-34 | `tArray` returns the array found at the key's path, and `t` returns the key itself |
| I18n.TranslateNested | src/frontend/src/i18n/t.ts:4-18 | a string stored under a dot-free path is what `t` returns for the joined path |
| I18n.MissingSegment | src/frontend/src/i18n/t.ts:9-30 | once a segment is missing, `t` returns the key and `tArray` returns [] |
| I18n.IndexIntoArray | src/frontend/src/i18n/t.ts:9-17 | an array element is reached by its index as a further segment |
| HidBarcode.Step | src/frontend/src/features/barcode/HidBarcodeListener.ts:9-19 | a code is emitted exactly on Enter with a non-empty buffer, and it is the buffer, which is then cleared; a key of UTF-16 length 1 is appended and arms the timer; other keys change nothing; the timer clears the buffer |
| HidBarcode.Utf16Length | src/frontend/src/features/barcode/HidBarcodeListener.ts:14 | the JavaScript length is at least the character count, and equal to it exactly when every character is in the Basic Multilingual Plane |
| HidBarcode.AstralKeyIgnored | src/frontend/src/features/barcode/HidBarcodeListener.ts:14 | a key of one character outside the Basic Multilingual Plane has length 2 and is ignored |
| HidBarcode.RunAppend | src/frontend/src/features/barcode/HidBarcodeListener.ts:8-20 | events processed in two runs give the same state and emitted codes as one run |
| HidBarcode.RunKeepsInv | src/frontend/src/features/barcode/HidBarcodeListener.ts:10-17 | a non-empty buffer always has its reset timer pending, and no emitted code is empty |
| HidBarcode.TypingBuffers | src/frontend/src/features/barcode/HidBarcodeListener.ts:14-17 | typed characters of the Basic Multilingual Plane are appended in order and nothing is emitted |
| HidBarcode.Scan | src/frontend/src/features/barcode/HidBarcodeListener.ts:9-17 | a code of Basic Multilingual Plane characters, typed and ended by Enter, is emitted once, exactly as typed |
| HidBarcode.TimeoutDropsPartialScan | src/frontend/src/features/barcode/HidBarcodeListener.ts:17-19 | characters before a timer expiry are dropped; the next scan emits only its own code (all characters in the Basic Multilingual Plane) |
| HidBarcode.NamedKeysIgnored | src/frontend/src/features/barcode/HidBarcodeListener.ts:14 | keys whose UTF-16 length is not 1, other than Enter, change nothing and emit nothing |
| IdleLock.Step | src/frontend/src/features/auth/IdleLock.tsx:12-43 | no identity means unlocked and no reaction to activity or ticks; a tick locks exactly when strictly more than 15 minutes passed since the last activity; activity records its time and unlocks; only activity or sign-out unlocks, and only an overdue tick locks |
| IdleLock.RunKeepsInv | src/frontend/src/features/auth/IdleLock.tsx:20-22 | only a signed-in session is ever locked |
| IdleLock.AttentiveNeverLocked | src/frontend/src/features/auth/IdleLock.tsx:25-37 | a user never idle longer than the timeout between activities stays unlocked |
| IdleLock.TicksKeepLock | src/frontend/src/features/auth/IdleLock.tsx:33-37 | ticks never unlock |
| IdleLock.IdleStaysLocked | src/frontend/src/features/auth/IdleLock.tsx:33-51 | after an overdue tick the children are hidden through any later ticks |
| AuthGate.Decide | src/frontend/src/features/auth/AuthGate.tsx:18-74 | loading exactly when initialising or signed in with the profile not fetched; sign-in exactly when not initialising and not signed in; profile setup exactly when signed in, fetched, not loading and the profile is null; children otherwise |

## Left out

- Object-store plumbing (opening the database, schema upgrade, request callbacks) is replaced by the abstract store value; every request is atomic by construction.
- Rejected storage requests are modelled where a handler's behaviour depends on them: the awaited writes of page handlers and of the sample loader (`failAt`), `createTransaction`'s add and enqueue, and the catch-block writes of the sync pass (`CatchFault`). SyncQueue.ProcessSyncQueue: a rejected initial queue read, or a 'synced' status write that rejects and is then retried as 'failed', are not separate faults; the second folds into a remote failure.
- The remote `syncItem` call is a placeholder in the source; its outcome is the `remote` oracle, one answer per item id in a pass.
- `Date.now()` is the parameter `now`; ids created from it are taken as given, and clashes between ids made in the same millisecond are not modelled.
- JavaScript `Number()` parsing of form and CSV text is the abstract `number` parameter. In the CSV import, NaN is `None`.
- CatalogPage.BuildProduct: a non-empty wholesale-price field that `Number()` turns into NaN is modelled as the number the parameter returns, not as NaN.
- Floating point: the report's average is an exact real, and the per-product `avgPrice` is not modelled. The percentage promotion is an exact real.
- Cart.Tax: computed as exact integer round-half-up of a tenth, not the binary floating-point `Math.round(x * 0.1)`, which can differ for amounts whose tenth is not exact in binary.
- Lower-casing in product search is ASCII only; Unicode case mapping is not modelled.
- I18n.Child: properties inherited from the JavaScript prototype (`toString`, `__proto__`, an array's `length`) are treated as missing. None of them is, or leads to, a string or a non-empty array, so `t` and `tArray` give the same results.
- Rendering, toasts, navigation, dialogs, react-query caching and zustand persistence (rehydration from local storage) are not modelled; page handlers are modelled only as list transformations plus their store writes.
- Cart.Subtotal, Cart.Tax and Cart.Total are modelled as the live derivations the getters intend; how the client actually holds them after a merge is the `CartSnapshot` model under Findings.
- Timers and window listeners are explicit events: `TimerFired` for the 100 ms barcode reset, and `Tick` and `Activity` for the idle lock. Their timing, as the 10-second interval, is left to the caller.
- The idle lock's unlock button calls the identity provider's login, which is outside the model; a sign-in shows only as an identity change.
- Camera scanning, the online indicator and the file download of the CSV exports are device I/O and are not modelled; the exports stop at the text content.
- The error messages' translations are not modelled; messages are the literal strings of the source.

## Findings

| source | as written | input that shows it | evidently intended | confidence | as-written member | corrected member |
|---|---|---|---|---|---|---|
| src/frontend/src/features/checkout/CheckoutPage.tsx:52-56 | the sale is created from items, payments and total only, so the ledger defaults its subtotal to the total and its discount and tax to 0 | one line of 12345 with tax on, paid 13580: the record stores subtotal 13580 and tax 0, although the cart charged 1235 tax on 12345 | pass the cart's subtotal, discount and tax, so that the record's breakdown adds up to its total | medium, not executed | Checkout.CheckoutDropsTax | Checkout.HandleCompleteWithBreakdown |
| src/frontend/src/features/pos/cartStore.ts:114-131 | `cartSubtotal`, `cartTax` and `cartTotal` are getters on the object given to the state library; its `set` merges over a copy of the object, which reads each getter once, against the state before the merge, and stores the value as a plain field | start from the empty cart and add one 12345 item: the cart holds the line, but `cartSubtotal` and `cartTotal` read 0, and stay at 0 through later changes | derive the three values from the current cart on every read (selectors or functions instead of getters in the state) | low: rests on the state library's merge behaviour, which is not part of this model; not executed | CartSnapshot.StaleTotalAfterAdd | CartSnapshot.LiveSubtotalFollowsAdd |
