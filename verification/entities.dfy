/** The records the point-of-sale client keeps offline: catalog entities, cart
    lines, payments, ledger records and the payloads carried by sync-queue items.
    Money amounts and quantities are whole numbers (Rupiah, pieces). */
module Entities {
  import opened Results

  datatype Category = Category(id: int, name: string, active: bool)

  /** A unit of sale and how many base units it holds. */
  datatype Unit = Unit(id: int, name: string, conversionToBase: int)

  /** A sellable variant; `barcode` and `wholesalePrice` may be absent. */
  datatype Variant = Variant(
    id: int,
    name: string,
    sku: string,
    barcode: Option<string>,
    baseUnitId: int,
    retailPrice: int,
    wholesalePrice: Option<int>,
    cost: int,
    active: bool)

  datatype Product = Product(
    id: int,
    name: string,
    categoryId: int,
    active: bool,
    variants: seq<Variant>,
    units: seq<Unit>,
    stock: int)

  /** The `methodType` tag of a payment method. */
  datatype MethodType = Cash | QrCode | BankTransfer | Custom(customName: string)

  datatype PaymentMethod = PaymentMethod(id: int, name: string, methodType: MethodType, enabled: bool)

  /** A promotion; `promoType` is the free-form type tag ('percentage' or 'fixed'
      when created through the promotions page). */
  datatype Promotion = Promotion(
    id: int,
    name: string,
    promoType: string,
    value: int,
    couponCode: Option<string>,
    active: bool,
    createdAt: int,
    minPurchaseAmount: Option<int>,
    validFrom: Option<int>,
    validTo: Option<int>)

  /** One line of the cart; `id` is a client-generated line identifier. */
  datatype CartItem = CartItem(
    id: string,
    productId: int,
    variantId: int,
    name: string,
    sku: string,
    price: int,
    quantity: int,
    unit: string,
    note: Option<string>,
    discount: int)

  datatype Payment = Payment(methodId: int, amount: int)

  /** Ledger status of a sale. Locally created sales are always `Completed`. */
  datatype TxStatus = Completed | Voided | PartiallyRefunded | FullyRefunded

  /** A sale as stored in the local ledger (without its store-assigned id). */
  datatype TxRecord = TxRecord(
    items: seq<CartItem>,
    payments: seq<Payment>,
    total: int,
    subtotal: int,
    discount: int,
    tax: int,
    timestamp: int,
    status: TxStatus)

  /** One line of a goods-receiving note. */
  datatype ReceivingItem = ReceivingItem(productId: int, variantId: int, quantity: int, cost: int)

  /** The `data` snapshot carried by a sync-queue item. */
  datatype Payload =
    | CategoryData(category: Category)
    | ProductData(product: Product)
    | PaymentMethodData(paymentMethod: PaymentMethod)
    | PromotionData(promotion: Promotion)
    | TransactionData(txId: nat, tx: TxRecord)
    | StockAdjustmentData(productId: int, variantId: int, change: int, reason: string, timestamp: int)
    | ReceivingData(supplier: string, items: seq<ReceivingItem>, timestamp: int)

  /** A master-data value: the whole list stored under one domain key. */
  datatype Blob =
    | Categories(categories: seq<Category>)
    | Products(products: seq<Product>)
    | PaymentMethods(methods: seq<PaymentMethod>)
    | Promotions(promotions: seq<Promotion>)
}
