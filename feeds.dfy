/** The merchant feed source: choosing the delimiter, mapping header names to
    record fields case-insensitively by candidate lists, parsing prices and
    commission rates, collecting extra columns, and stopping on cancellation.
    The CSV tokeniser and decimal.TryParse are parameters. */
module Feeds {
  import opened Models
  import opened Text

  /** A tokenised feed file: the header row (null when the file has none) and
      the data rows, each a list of fields in column order. */
  datatype CsvTable = CsvTable(headerRecord: Option<seq<string>>, rows: seq<seq<string>>)

  /** `readCsv(content, delimiter)` is the CSV reader configured with a header
      row and lenient handling of missing fields and bad data;
      `tryParseDecimal` is decimal.TryParse with any number style and the
      invariant culture (None where it returns false). */
  datatype FeedPrimitives = FeedPrimitives(
    readCsv: (string, string) -> CsvTable,
    tryParseDecimal: string -> Option<Decimal>)

  function Delimiter(feedPath: string): string {
    if EndsWith(feedPath, ".tsv") then "\t" else ","
  }

  // The candidate header names of each field, in priority order.
  const FeedProductIdColumns: seq<string> := ["product_id", "id", "aw_product_id"]
  const SkuColumns: seq<string> := ["sku", "merchant_product_id"]
  const ProductNameColumns: seq<string> := ["product_name", "name", "title"]
  const ProductUrlColumns: seq<string> := ["aw_deep_link", "product_url", "link", "url"]
  const ImageUrlColumns: seq<string> := ["aw_image_url", "image_url", "image"]
  const PriceColumns: seq<string> := ["search_price", "price", "rrp_price"]
  const CurrencyColumns: seq<string> := ["currency"]
  const CategoryColumns: seq<string> := ["merchant_category", "category"]
  const SubcategoryColumns: seq<string> := ["category_name", "subcategory"]
  const CommissionTextColumns: seq<string> := ["commission_group", "commission"]
  const CommissionRateColumns: seq<string> := ["commission_rate", "commission_amount"]

  // ---------------------------------------------------------------------
  // The column map: a case-insensitive dictionary from header to header.

  /** Keys are case-folded header names (the dictionary's comparer); each
      holds the header text last written under it. */
  type ColumnMap = map<string, string>

  /** The dictionary after writing map[h] = h for each header in turn. */
  function ColumnMapOf(headers: seq<string>): ColumnMap
    decreases |headers|
  {
    if headers == [] then map[]
    else ColumnMapOf(headers[..|headers| - 1])[Fold(headers[|headers| - 1]) := headers[|headers| - 1]]
  }

  /** The last header that equals `name` ignoring case. */
  function LastIgnoringCase(headers: seq<string>, name: string): Option<string>
    decreases |headers|
  {
    if headers == [] then None
    else if EqualsIgnoreCase(headers[|headers| - 1], name) then Some(headers[|headers| - 1])
    else LastIgnoringCase(headers[..|headers| - 1], name)
  }

  /** A lookup of `name` finds a column exactly when some header equals it
      ignoring case, and then finds the last such header. */
  lemma {:induction false} ColumnMapLookup(headers: seq<string>, name: string)
    ensures Fold(name) in ColumnMapOf(headers) <==> exists h :: h in headers && EqualsIgnoreCase(h, name)
    ensures Fold(name) in ColumnMapOf(headers) ==> Some(ColumnMapOf(headers)[Fold(name)]) == LastIgnoringCase(headers, name)
    decreases |headers|
  {
    if headers != [] {
      var b, h := headers[..|headers| - 1], headers[|headers| - 1];
      assert headers == b + [h];
      ColumnMapLookup(b, name);
      if EqualsIgnoreCase(h, name) {
        assert h in headers;
      } else if Fold(name) in ColumnMapOf(b) {
        var g :| g in b && EqualsIgnoreCase(g, name);
        assert g in headers;
      }
      if exists g :: g in headers && EqualsIgnoreCase(g, name) {
        var g :| g in headers && EqualsIgnoreCase(g, name);
        if g != h {
          assert g in b;
        }
      }
    }
  }

  /** Every value of the map is a header filed under its own fold. */
  lemma {:induction false} ColumnMapValues(headers: seq<string>)
    ensures forall k :: k in ColumnMapOf(headers) ==> ColumnMapOf(headers)[k] in headers && Fold(ColumnMapOf(headers)[k]) == k
    decreases |headers|
  {
    if headers != [] {
      ColumnMapValues(headers[..|headers| - 1]);
    }
  }

  /** BuildColumnMap */
  method BuildColumnMap(headers: seq<string>) returns (m: ColumnMap)
    ensures m == ColumnMapOf(headers)
  {
    m := map[];
    for i := 0 to |headers|
      invariant m == ColumnMapOf(headers[..i])
    {
      assert headers[..i + 1][..i] == headers[..i];
      m := m[Fold(headers[i]) := headers[i]];
    }
    assert headers[..|headers|] == headers;
  }

  // ---------------------------------------------------------------------
  // Fields of a row

  /** The position of the first header equal (ordinally) to `name`. */
  function HeaderIndex(headers: seq<string>, name: string): (i: nat)
    ensures i <= |headers|
    ensures i < |headers| ==> headers[i] == name
    ensures forall j :: 0 <= j < i ==> headers[j] != name
  {
    if headers == [] || headers[0] == name then 0 else 1 + HeaderIndex(headers[1..], name)
  }

  /** The reader's field by header name: the first column of that name, null
      when the row is too short to hold it. */
  function FieldByName(headers: seq<string>, row: seq<string>, name: string): Option<string> {
    var i := HeaderIndex(headers, name);
    if i < |headers| && i < |row| then Some(row[i]) else None
  }

  /** GetField's result: the first candidate the map knows decides; its
      column's value is returned even when that is null. */
  function FieldOf(m: ColumnMap, headers: seq<string>, row: seq<string>, candidates: seq<string>): Option<string>
    decreases |candidates|
  {
    if candidates == [] then None
    else if Fold(candidates[0]) in m then FieldByName(headers, row, m[Fold(candidates[0])])
    else FieldOf(m, headers, row, candidates[1..])
  }

  /** GetField */
  method GetField(m: ColumnMap, headers: seq<string>, row: seq<string>, candidates: seq<string>) returns (value: Option<string>)
    ensures value == FieldOf(m, headers, row, candidates)
  {
    for i := 0 to |candidates|
      invariant FieldOf(m, headers, row, candidates[i..]) == FieldOf(m, headers, row, candidates)
    {
      assert candidates[i..][1..] == candidates[i + 1..];
      var key := Fold(candidates[i]);
      if key in m {
        return FieldByName(headers, row, m[key]);
      }
    }
    return None;
  }

  /** Candidates are tried in order: a candidate that matches a header ignoring
      case shadows every later one, and unmatched candidates are skipped. */
  lemma {:induction false} FieldPriority(headers: seq<string>, row: seq<string>, candidates: seq<string>, j: nat)
    requires j < |candidates|
    requires exists h :: h in headers && EqualsIgnoreCase(h, candidates[j])
    requires forall i :: 0 <= i < j ==> forall h :: h in headers ==> !EqualsIgnoreCase(h, candidates[i])
    ensures LastIgnoringCase(headers, candidates[j]).Some?
    ensures FieldOf(ColumnMapOf(headers), headers, row, candidates) ==
              FieldByName(headers, row, LastIgnoringCase(headers, candidates[j]).value)
    decreases j
  {
    ColumnMapLookup(headers, candidates[j]);
    if j == 0 {
    } else {
      ColumnMapLookup(headers, candidates[0]);
      FieldPriority(headers, row, candidates[1..], j - 1);
    }
  }

  /** A field none of whose candidates matches a header is null. */
  lemma {:induction false} FieldAbsent(headers: seq<string>, row: seq<string>, candidates: seq<string>)
    requires forall i :: 0 <= i < |candidates| ==> forall h :: h in headers ==> !EqualsIgnoreCase(h, candidates[i])
    ensures FieldOf(ColumnMapOf(headers), headers, row, candidates).None?
    decreases |candidates|
  {
    if candidates != [] {
      ColumnMapLookup(headers, candidates[0]);
      FieldAbsent(headers, row, candidates[1..]);
    }
  }

  // ---------------------------------------------------------------------
  // Extra fields

  /** The extras of a row: every header that is not among the map's values,
      with its field (empty when null). */
  function ExtraFieldsOf(m: ColumnMap, headers: seq<string>, row: seq<string>): map<string, string> {
    map h | h in headers && h !in m.Values :: FieldByName(headers, row, h).GetOr("")
  }

  /** The extras among the first headers `hs`. */
  function ExtrasAmong(m: ColumnMap, hs: seq<string>, headers: seq<string>, row: seq<string>): map<string, string> {
    map h | h in hs && h !in m.Values :: FieldByName(headers, row, h).GetOr("")
  }

  lemma ExtrasAmongSnoc(m: ColumnMap, hs: seq<string>, header: string, headers: seq<string>, row: seq<string>)
    ensures ExtrasAmong(m, hs + [header], headers, row) ==
              if header in m.Values then ExtrasAmong(m, hs, headers, row)
              else ExtrasAmong(m, hs, headers, row)[header := FieldByName(headers, row, header).GetOr("")]
  {
    var before, after := ExtrasAmong(m, hs, headers, row), ExtrasAmong(m, hs + [header], headers, row);
    assert forall h :: h in hs + [header] <==> h in hs || h == header;
    if header in m.Values {
      assert after.Keys == before.Keys;
    } else {
      assert after.Keys == before.Keys + {header};
    }
  }

  /** The extras loop. */
  method SelectExtraFields(m: ColumnMap, headers: seq<string>, row: seq<string>) returns (extra: map<string, string>)
    ensures extra == ExtraFieldsOf(m, headers, row)
  {
    extra := map[];
    for i := 0 to |headers|
      invariant extra == ExtrasAmong(m, headers[..i], headers, row)
    {
      var header := headers[i];
      assert headers[..i + 1] == headers[..i] + [header];
      ExtrasAmongSnoc(m, headers[..i], header, headers, row);
      if header !in m.Values {
        extra := extra[header := FieldByName(headers, row, header).GetOr("")];
      }
    }
    assert headers[..|headers|] == headers;
  }

  /** Because every header is written into the map, a header lands in the
      extras exactly when the last header equal to it ignoring case is a
      different text. */
  lemma ExtrasAreCaseShadowedHeaders(headers: seq<string>, row: seq<string>, h: string)
    ensures h in ExtraFieldsOf(ColumnMapOf(headers), headers, row) <==>
              h in headers && LastIgnoringCase(headers, h) != Some(h)
  {
    var m := ColumnMapOf(headers);
    ColumnMapLookup(headers, h);
    ColumnMapValues(headers);
    if h in headers {
      assert EqualsIgnoreCase(h, h);
      if h in m.Values {
        var k :| k in m && m[k] == h;
        assert Fold(h) == k;
      }
    }
  }

  /** With no two headers equal ignoring case, nothing is extra: custom columns
      such as "custom_field1" are dropped. */
  lemma NoExtrasWithoutCaseVariants(headers: seq<string>, row: seq<string>)
    requires forall i, j :: 0 <= i < j < |headers| ==> !EqualsIgnoreCase(headers[i], headers[j])
    ensures ExtraFieldsOf(ColumnMapOf(headers), headers, row) == map[]
  {
    forall h | h in headers ensures LastIgnoringCase(headers, h) == Some(h) {
      var i :| 0 <= i < |headers| && headers[i] == h;
      LastIgnoringCaseUnique(headers, i);
    }
    forall h | h in ExtraFieldsOf(ColumnMapOf(headers), headers, row) ensures false {
      ExtrasAreCaseShadowedHeaders(headers, row, h);
    }
  }

  lemma {:induction false} LastIgnoringCaseUnique(headers: seq<string>, i: nat)
    requires i < |headers|
    requires forall a, b :: 0 <= a < b < |headers| ==> !EqualsIgnoreCase(headers[a], headers[b])
    ensures LastIgnoringCase(headers, headers[i]) == Some(headers[i])
    decreases |headers|
  {
    var n := |headers| - 1;
    if i < n {
      assert !EqualsIgnoreCase(headers[n], headers[i]);
      var b := headers[..n];
      assert b[i] == headers[i];
      LastIgnoringCaseUnique(b, i);
    }
  }

  /** A header that differs from a later one only in case is extra, with its own field. */
  lemma CaseVariantIsExtra(row: seq<string>)
    requires |row| == 2
    ensures ExtraFieldsOf(ColumnMapOf(["Color", "color"]), ["Color", "color"], row) == map["Color" := row[0]]
  {
    var headers := ["Color", "color"];
    assert Fold("Color") == "color" == Fold("color");
    assert ColumnMapOf(headers) == map["color" := "color"] by {
      assert headers[..1] == ["Color"];
      assert ColumnMapOf(headers[..1]) == map["color" := "Color"];
    }
    assert "Color" != "color";
    assert HeaderIndex(headers, "Color") == 0;
  }

  // ---------------------------------------------------------------------
  // Records

  function ParsePrice(prims: FeedPrimitives, s: Option<string>): Option<Decimal> {
    match s
    case Some(text) => prims.tryParseDecimal(text)
    case None => None
  }

  /** The commission rate is parsed after removing trailing '%' signs. */
  function ParseRate(prims: FeedPrimitives, s: Option<string>): Option<Decimal> {
    match s
    case Some(text) => prims.tryParseDecimal(TrimEnd(text, '%'))
    case None => None
  }

  /** The record built from one data row. */
  function RecordOf(prims: FeedPrimitives, advertiserId: int, m: ColumnMap, headers: seq<string>, row: seq<string>): ProductRecord {
    ProductRecord(
      advertiserId,
      FieldOf(m, headers, row, FeedProductIdColumns),
      FieldOf(m, headers, row, SkuColumns),
      FieldOf(m, headers, row, ProductNameColumns),
      FieldOf(m, headers, row, ProductUrlColumns),
      FieldOf(m, headers, row, ImageUrlColumns),
      ParsePrice(prims, FieldOf(m, headers, row, PriceColumns)),
      FieldOf(m, headers, row, CurrencyColumns),
      FieldOf(m, headers, row, CategoryColumns),
      FieldOf(m, headers, row, SubcategoryColumns),
      FieldOf(m, headers, row, CommissionTextColumns),
      ParseRate(prims, FieldOf(m, headers, row, CommissionRateColumns)),
      ExtraFieldsOf(m, headers, row))
  }

  /** How many rows are yielded: all of them, unless the token reads as
      cancelled from row `k` on, in which case the first `k`. */
  function UntilCancelled(rowCount: nat, cancelledAt: Option<nat>): (n: nat)
    ensures n <= rowCount
    ensures cancelledAt.None? ==> n == rowCount
    ensures cancelledAt.Some? ==> n == if cancelledAt.value < rowCount then cancelledAt.value else rowCount
  {
    match cancelledAt
    case None => rowCount
    case Some(k) => if k < rowCount then k else rowCount
  }

  /** The body of the read loop: one record from one row. */
  method ReadRecord(prims: FeedPrimitives, advertiserId: int, columnMap: ColumnMap, headers: seq<string>, row: seq<string>)
    returns (record: ProductRecord)
    ensures record == RecordOf(prims, advertiserId, columnMap, headers, row)
  {
    var feedProductId := GetField(columnMap, headers, row, FeedProductIdColumns);
    var sku := GetField(columnMap, headers, row, SkuColumns);
    var productName := GetField(columnMap, headers, row, ProductNameColumns);
    var productUrl := GetField(columnMap, headers, row, ProductUrlColumns);
    var imageUrl := GetField(columnMap, headers, row, ImageUrlColumns);
    var priceText := GetField(columnMap, headers, row, PriceColumns);
    var price: Option<Decimal> := None;
    if priceText.Some? {
      price := prims.tryParseDecimal(priceText.value);
    }
    assert price == ParsePrice(prims, priceText);
    var currency := GetField(columnMap, headers, row, CurrencyColumns);
    var category := GetField(columnMap, headers, row, CategoryColumns);
    var subcategory := GetField(columnMap, headers, row, SubcategoryColumns);
    var commissionText := GetField(columnMap, headers, row, CommissionTextColumns);
    var rateText := GetField(columnMap, headers, row, CommissionRateColumns);
    var commissionRate: Option<Decimal> := None;
    if rateText.Some? {
      commissionRate := prims.tryParseDecimal(TrimEnd(rateText.value, '%'));
    }
    assert commissionRate == ParseRate(prims, rateText);
    var extra := SelectExtraFields(columnMap, headers, row);
    record := ProductRecord(advertiserId, feedProductId, sku, productName, productUrl, imageUrl, price,
                            currency, category, subcategory, commissionText, commissionRate, extra);
  }

  /** ParseFeedAsync: one record per data row, in order, until cancellation. */
  method ParseFeed(prims: FeedPrimitives, advertiserId: int, feedPath: string, content: string, cancelledAt: Option<nat>)
    returns (records: seq<ProductRecord>)
    ensures var table := prims.readCsv(content, Delimiter(feedPath));
      var headers := table.headerRecord.GetOr([]);
      && |records| == UntilCancelled(|table.rows|, cancelledAt)
      && forall i :: 0 <= i < |records| ==>
           records[i] == RecordOf(prims, advertiserId, ColumnMapOf(headers), headers, table.rows[i])
  {
    var table := prims.readCsv(content, Delimiter(feedPath));
    var headers := table.headerRecord.GetOr([]);
    var columnMap := BuildColumnMap(headers);
    records := ReadRows(prims, advertiserId, columnMap, headers, table.rows, cancelledAt);
  }

  /** The read loop of ParseFeedAsync over the data rows. */
  method ReadRows(prims: FeedPrimitives, advertiserId: int, columnMap: ColumnMap, headers: seq<string>,
                  rows: seq<seq<string>>, cancelledAt: Option<nat>)
    returns (records: seq<ProductRecord>)
    ensures |records| == UntilCancelled(|rows|, cancelledAt)
    ensures forall i :: 0 <= i < |records| ==> records[i] == RecordOf(prims, advertiserId, columnMap, headers, rows[i])
  {
    records := [];
    var i := 0;
    while i < |rows|
      invariant i <= UntilCancelled(|rows|, cancelledAt)
      invariant |records| == i
      invariant forall j :: 0 <= j < i ==> records[j] == RecordOf(prims, advertiserId, columnMap, headers, rows[j])
    {
      if cancelledAt.Some? && cancelledAt.value <= i {
        break;
      }
      var record := ReadRecord(prims, advertiserId, columnMap, headers, rows[i]);
      RecordsSnoc(prims, advertiserId, columnMap, headers, rows, records, record);
      records := records + [record];
      i := i + 1;
    }
  }

  /** Appending the record of the next row keeps the records in step with the rows. */
  lemma RecordsSnoc(prims: FeedPrimitives, advertiserId: int, m: ColumnMap, headers: seq<string>,
                    rows: seq<seq<string>>, records: seq<ProductRecord>, record: ProductRecord)
    requires |records| < |rows|
    requires forall j :: 0 <= j < |records| ==> records[j] == RecordOf(prims, advertiserId, m, headers, rows[j])
    requires record == RecordOf(prims, advertiserId, m, headers, rows[|records|])
    ensures forall j :: 0 <= j < |records| + 1 ==>
              (records + [record])[j] == RecordOf(prims, advertiserId, m, headers, rows[j])
  {
  }

  /** GetFeedUrlAsync: feed discovery is not implemented and always answers null. */
  function GetFeedUrl(advertiserId: int): Option<string> {
    None
  }

  /** Path.Combine of a directory and a relative file name. */
  function PathCombine(directory: string, fileName: string): string {
    if directory == [] then fileName
    else if directory[|directory| - 1] == '/' then directory + fileName
    else directory + "/" + fileName
  }

  /** The file DownloadFeedAsync writes the feed to, given the working
      directory and the formatted download time: its name always ends in
      ".csv", also when the feed is a zip archive holding a ".tsv" entry. */
  function DownloadedFeedPath(workingDirectory: string, advertiserId: int, stamp: string): string {
    PathCombine(workingDirectory, "feed_" + IntToString(advertiserId) + "_" + stamp + ".csv")
  }

  /** Every downloaded feed is read with ',' as delimiter: the tab branch of
      the delimiter choice is never taken for a downloaded file. */
  lemma DownloadedFeedIsCommaSeparated(workingDirectory: string, advertiserId: int, stamp: string)
    ensures Delimiter(DownloadedFeedPath(workingDirectory, advertiserId, stamp)) == ","
  {
    var name := "feed_" + IntToString(advertiserId) + "_" + stamp + ".csv";
    var path := DownloadedFeedPath(workingDirectory, advertiserId, stamp);
    assert path[|path| - 4..] == ".csv" by {
      if workingDirectory == [] {
        assert path == name;
      } else if workingDirectory[|workingDirectory| - 1] == '/' {
        assert path == workingDirectory + name;
      } else {
        assert path == (workingDirectory + "/") + name;
      }
      assert name[|name| - 4..] == ".csv";
    }
    assert path[|path| - 4..][1] == 'c';
  }

  /** GetProductsAsync, given the URL the discovery step answered, the working
      directory, the download time and the downloaded content: nothing without
      a URL, otherwise the downloaded file parsed with ',' as delimiter. */
  method GetProducts(prims: FeedPrimitives, advertiserId: int, feedUrl: Option<string>,
                     workingDirectory: string, stamp: string, content: string, cancelledAt: Option<nat>)
    returns (records: seq<ProductRecord>)
    ensures IsNullOrEmpty(feedUrl) ==> records == []
    ensures !IsNullOrEmpty(feedUrl) ==>
              var table := prims.readCsv(content, ",");
              var headers := table.headerRecord.GetOr([]);
              && |records| == UntilCancelled(|table.rows|, cancelledAt)
              && forall i :: 0 <= i < |records| ==>
                   records[i] == RecordOf(prims, advertiserId, ColumnMapOf(headers), headers, table.rows[i])
  {
    if IsNullOrEmpty(feedUrl) {
      return [];
    }
    var feedPath := DownloadedFeedPath(workingDirectory, advertiserId, stamp);
    DownloadedFeedIsCommaSeparated(workingDirectory, advertiserId, stamp);
    records := ParseFeed(prims, advertiserId, feedPath, content, cancelledAt);
  }

  /** The shipped source yields no record for any advertiser. */
  lemma ShippedSourceYieldsNothing(advertiserId: int)
    ensures IsNullOrEmpty(GetFeedUrl(advertiserId))
  {
  }
}
