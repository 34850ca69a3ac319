/** The entities both translators read and write.

    XML side (SFCC inventory list): the XML reader delivers one event per
    closed `header` element and one per closed `record` element, carrying the
    attribute and child texts the translator looks at.

    Flat side (OCI NDJSON): toOCI writes one availability record per line;
    toSFCC reads lines that are blank, unparsable, or a parsed object. */
module Inventory {
  import opened Common

  /** The fields of a closed `record` element that toOCI reads. Numeric texts
      are given already parsed; `None` is an absent or empty element. */
  datatype XmlRecord = XmlRecord(
    productId: string,                // attribute `product-id`
    allocation: Option<int>,          // child `allocation`
    allocationTimestamp: Option<string>,
    handling: Option<string>,         // child `preorder-backorder-handling`
    backorderAllocation: Option<int>, // child `preorder-backorder-allocation`; None parses to NaN
    inStockDatetime: Option<string>,
    inStockDate: Option<string>)

  /** One event of the XML reader; the end of the sequence is the end event. */
  datatype XmlEvent =
    | Header(listId: Option<string>)  // attribute `list-id` of a closed `header`
    | Record(record: XmlRecord)

  /** A future built by toOCI; a `None` quantity is the NaN that parseInt
      yields for a missing `preorder-backorder-allocation`. */
  datatype OciFuture = OciFuture(quantity: Option<int>, expectedDate: Option<string>)

  /** One line of the NDJSON file written by toOCI. `recordId` stands for the
      fresh UUID: the ordinal of the record among those accepted. */
  datatype AvailabilityRecord = AvailabilityRecord(
    recordId: nat,
    onHand: int,
    sku: string,
    effectiveDate: string,
    safetyStockCount: int,
    locationId: string,
    futures: Option<seq<OciFuture>>)

  /** A future as toSFCC reads it from a parsed line. */
  datatype Future = Future(quantity: int, expectedDate: Option<string>)

  /** The properties of a parsed NDJSON object that toSFCC reads; `None` is a
      missing property. */
  datatype FlatObject = FlatObject(
    groupId: Option<string>,
    locationId: Option<string>,
    sku: Option<string>,
    onHand: Option<int>,
    ato: Option<int>,
    atf: Option<int>,
    effectiveDate: Option<string>,
    futures: Option<seq<Future>>)

  /** One line of the NDJSON file given to toSFCC. */
  datatype Line =
    | Blank                   // length 0: not parsed at all
    | Unparsable              // JSON.parse throws
    | Parsed(obj: FlatObject)
}
