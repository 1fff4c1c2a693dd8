/** The entities of the feed synchroniser: the raw feed record, the stored
    product, the sync run and the advertiser, plus the small value types
    they are built from. */
module Models {

  datatype Option<+T> = None | Some(value: T) {
    function GetOr(default: T): T {
      match this
      case Some(v) => v
      case None => default
    }
  }

  /** A UTC timestamp, as a count of ticks. */
  type Time = int

  /** System.Decimal: an integer mantissa and a decimal scale. The scale is
      part of the value's identity for serialisation, so 10 (mantissa 10,
      scale 0) and 10.00 (mantissa 1000, scale 2) are different values. */
  datatype Decimal = Decimal(mantissa: int, scale: nat)

  function Pow10(n: nat): (r: nat)
    ensures r >= 1
  {
    if n == 0 then 1 else 10 * Pow10(n - 1)
  }

  /** Numeric equality of two decimals, ignoring scale. */
  predicate SameNumber(a: Decimal, b: Decimal) {
    a.mantissa * Pow10(b.scale) == b.mantissa * Pow10(a.scale)
  }

  /** One row of a merchant feed, after column mapping. */
  datatype ProductRecord = ProductRecord(
    advertiserId: int,
    feedProductId: Option<string>,
    sku: Option<string>,
    productName: Option<string>,
    productUrl: Option<string>,
    imageUrl: Option<string>,
    price: Option<Decimal>,
    currency: Option<string>,
    category: Option<string>,
    subcategory: Option<string>,
    commissionText: Option<string>,
    commissionRate: Option<Decimal>,
    extraFields: map<string, string>)

  /** The nine fields the content hash is computed over, in serialisation order. */
  datatype Projection = Projection(
    productName: Option<string>,
    productUrl: Option<string>,
    imageUrl: Option<string>,
    price: Option<Decimal>,
    currency: Option<string>,
    category: Option<string>,
    subcategory: Option<string>,
    commissionText: Option<string>,
    commissionRate: Option<Decimal>)

  /** A stored product row. `extra` stands for the JSON text of the extra
      fields and is modelled by the dictionary it serialises. */
  datatype Product = Product(
    id: int,
    advertiserId: int,
    productKey: string,
    feedProductId: Option<string>,
    sku: Option<string>,
    productName: Option<string>,
    productUrl: Option<string>,
    imageUrl: Option<string>,
    price: Option<Decimal>,
    currency: Option<string>,
    category: Option<string>,
    subcategory: Option<string>,
    commissionText: Option<string>,
    commissionRate: Option<Decimal>,
    trackingUrl: Option<string>,
    trackingUrlSource: Option<string>,
    extra: Option<map<string, string>>,
    contentHash: string,
    lastSeenAt: Time,
    lastChangedAt: Time,
    lastUpdatedAt: Time,
    inactiveAt: Option<Time>,
    aiSummary: Option<string>,
    aiSummaryStatus: Option<string>,
    aiSummaryUpdatedAt: Option<Time>)

  const StatusRunning := "running"
  const StatusCompleted := "completed"
  const StatusFailed := "failed"

  datatype SyncRun = SyncRun(
    runId: int,
    startedAt: Time,
    finishedAt: Option<Time>,
    status: string,
    errorText: Option<string>,
    advertisersProcessed: int,
    productsSeen: int,
    productsChanged: int)

  datatype Advertiser = Advertiser(
    advertiserId: int,
    name: string,
    status: string,
    defaultCommissionText: Option<string>,
    updatedAt: Time)
}
