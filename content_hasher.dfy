/** Product identity and content fingerprint: the product key derived from
    SKU, feed id or normalised URL, and the hash over a fixed projection of
    nine content fields. */
module ContentHasher {
  import opened Models
  import opened Text

  /** The parts of a parsed absolute URI that the key uses. */
  datatype Uri = Uri(scheme: string, host: string, absolutePath: string, query: string, fragment: string)

  /** The library primitives the hasher stands on, taken as parameters:
      `digest` is SHA-256 over the UTF-8 bytes of the JSON serialisation of
      a projection, hex-encoded; `parseUri` is the absolute-URI parser,
      None where the Uri constructor throws. */
  datatype Primitives = Primitives(digest: Projection -> string, parseUri: string -> Option<Uri>)

  /** The assumption that serialisation plus SHA-256 never collide. */
  ghost predicate Injective(digest: Projection -> string) {
    forall p, q :: p != q ==> digest(p) != digest(q)
  }

  /** The fields the hash is computed over, in the order they are serialised. */
  function Project(r: ProductRecord): Projection {
    Projection(r.productName, r.productUrl, r.imageUrl, r.price, r.currency,
               r.category, r.subcategory, r.commissionText, r.commissionRate)
  }

  function ComputeHash(prims: Primitives, r: ProductRecord): string {
    prims.digest(Project(r))
  }

  /** Lower-cased host and absolute path of a parsable URL (query and fragment
      dropped), the whole text lower-cased otherwise, "" for blank text. */
  function NormalizeUrl(prims: Primitives, url: string): (r: string)
    ensures IsLowerCase(r)
    ensures IsNullOrWhiteSpace(Some(url)) ==> r == ""
    ensures !IsNullOrWhiteSpace(Some(url)) && prims.parseUri(url).None? ==> r == ToLower(url)
    ensures !IsNullOrWhiteSpace(Some(url)) && prims.parseUri(url).Some? ==>
              r == ToLower(prims.parseUri(url).value.host + prims.parseUri(url).value.absolutePath)
  {
    ToLowerIsLowerCase(url);
    if IsNullOrWhiteSpace(Some(url)) then ""
    else match prims.parseUri(url)
      case Some(u) => ToLowerIsLowerCase(u.host + u.absolutePath); ToLower(u.host + u.absolutePath)
      case None => ToLower(url)
  }

  /** The identifier half of the key: SKU, else feed product id, else normalised URL. */
  function Identifier(prims: Primitives, r: ProductRecord): string {
    if !IsNullOrWhiteSpace(r.sku) then r.sku.value
    else if !IsNullOrWhiteSpace(r.feedProductId) then r.feedProductId.value
    else NormalizeUrl(prims, r.productUrl.GetOr(""))
  }

  function GenerateProductKey(prims: Primitives, advertiserId: int, r: ProductRecord): (key: string)
    ensures !IsNullOrWhiteSpace(r.sku) ==> key == IntToString(advertiserId) + ":" + r.sku.value
    ensures IsNullOrWhiteSpace(r.sku) && !IsNullOrWhiteSpace(r.feedProductId) ==>
              key == IntToString(advertiserId) + ":" + r.feedProductId.value
    ensures IsNullOrWhiteSpace(r.sku) && IsNullOrWhiteSpace(r.feedProductId) ==>
              key == IntToString(advertiserId) + ":" + NormalizeUrl(prims, r.productUrl.GetOr(""))
  {
    IntToString(advertiserId) + ":" + Identifier(prims, r)
  }

  /** Keys of different advertisers never collide, and a key determines its identifier. */
  lemma ProductKeyInjective(prims: Primitives, a1: int, r1: ProductRecord, a2: int, r2: ProductRecord)
    requires GenerateProductKey(prims, a1, r1) == GenerateProductKey(prims, a2, r2)
    ensures a1 == a2
    ensures Identifier(prims, r1) == Identifier(prims, r2)
  {
    var s1, s2 := IntToString(a1), IntToString(a2);
    var key := GenerateProductKey(prims, a1, r1);
    IntToStringIsNumeral(a1);
    IntToStringIsNumeral(a2);
    assert key == s1 + ":" + Identifier(prims, r1);
    assert key == s2 + ":" + Identifier(prims, r2);
    FirstIndexAfterPrefix(s1, ':', Identifier(prims, r1));
    FirstIndexAfterPrefix(s2, ':', Identifier(prims, r2));
    assert s1 == key[..|s1|] == s2;
    IntToStringInjective(a1, a2);
    assert Identifier(prims, r1) == key[|s1| + 1..] == Identifier(prims, r2);
  }

  /** A usable SKU decides the key, whatever the other fields hold. */
  lemma SkuDecidesKey(prims: Primitives, advertiserId: int, r1: ProductRecord, r2: ProductRecord)
    requires !IsNullOrWhiteSpace(r1.sku) && r1.sku == r2.sku
    ensures GenerateProductKey(prims, advertiserId, r1) == GenerateProductKey(prims, advertiserId, r2)
  {
  }

  /** Content fields play no part in identity: records that agree on SKU, feed id
      and URL have the same key. */
  lemma KeyIgnoresContent(prims: Primitives, advertiserId: int, r1: ProductRecord, r2: ProductRecord)
    requires r1.sku == r2.sku && r1.feedProductId == r2.feedProductId && r1.productUrl == r2.productUrl
    ensures GenerateProductKey(prims, advertiserId, r1) == GenerateProductKey(prims, advertiserId, r2)
  {
  }

  /** The hash depends on the nine projected fields only. */
  lemma HashDependsOnlyOnProjection(prims: Primitives, r1: ProductRecord, r2: ProductRecord)
    requires r1.productName == r2.productName && r1.productUrl == r2.productUrl
    requires r1.imageUrl == r2.imageUrl && r1.price == r2.price && r1.currency == r2.currency
    requires r1.category == r2.category && r1.subcategory == r2.subcategory
    requires r1.commissionText == r2.commissionText && r1.commissionRate == r2.commissionRate
    ensures ComputeHash(prims, r1) == ComputeHash(prims, r2)
  {
  }

  /** Under collision-freedom, a difference in any projected field changes the hash. */
  lemma HashSeparatesContent(prims: Primitives, r1: ProductRecord, r2: ProductRecord)
    requires Injective(prims.digest)
    requires || r1.productName != r2.productName || r1.productUrl != r2.productUrl
             || r1.imageUrl != r2.imageUrl || r1.price != r2.price || r1.currency != r2.currency
             || r1.category != r2.category || r1.subcategory != r2.subcategory
             || r1.commissionText != r2.commissionText || r1.commissionRate != r2.commissionRate
    ensures ComputeHash(prims, r1) != ComputeHash(prims, r2)
  {
    assert Project(r1) != Project(r2);
  }

  /** The serialiser keeps the decimal scale: re-stating a price of 10 as 10.00
      changes the hash although the number is the same. */
  lemma HashSeesDecimalScale(prims: Primitives, r: ProductRecord)
    requires Injective(prims.digest)
    requires r.price == Some(Decimal(10, 0))
    ensures SameNumber(Decimal(10, 0), Decimal(1000, 2))
    ensures ComputeHash(prims, r) != ComputeHash(prims, r.(price := Some(Decimal(1000, 2))))
  {
    assert Pow10(2) == 100;
    HashSeparatesContent(prims, r, r.(price := Some(Decimal(1000, 2))));
  }

  /** With neither SKU, feed id nor URL, the key is the advertiser prefix alone. */
  lemma BlankIdentityKey(prims: Primitives, advertiserId: int, r: ProductRecord)
    requires IsNullOrWhiteSpace(r.sku) && IsNullOrWhiteSpace(r.feedProductId)
    requires IsNullOrWhiteSpace(r.productUrl)
    ensures GenerateProductKey(prims, advertiserId, r) == IntToString(advertiserId) + ":"
  {
    assert IsNullOrWhiteSpace(Some(r.productUrl.GetOr("")));
  }

  /** Query and fragment play no part: URLs that parse to the same host and path
      give the same key. */
  lemma UrlKeyIgnoresQuery(prims: Primitives, advertiserId: int, r1: ProductRecord, r2: ProductRecord)
    requires IsNullOrWhiteSpace(r1.sku) && IsNullOrWhiteSpace(r1.feedProductId)
    requires IsNullOrWhiteSpace(r2.sku) && IsNullOrWhiteSpace(r2.feedProductId)
    requires r1.productUrl.Some? && r2.productUrl.Some?
    requires !IsNullOrWhiteSpace(r1.productUrl) && !IsNullOrWhiteSpace(r2.productUrl)
    requires prims.parseUri(r1.productUrl.value).Some? && prims.parseUri(r2.productUrl.value).Some?
    requires prims.parseUri(r1.productUrl.value).value.host == prims.parseUri(r2.productUrl.value).value.host
    requires prims.parseUri(r1.productUrl.value).value.absolutePath == prims.parseUri(r2.productUrl.value).value.absolutePath
    ensures GenerateProductKey(prims, advertiserId, r1) == GenerateProductKey(prims, advertiserId, r2)
  {
  }
}
