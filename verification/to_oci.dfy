/** toOCI (src/translator.js:19-132): SFCC inventory XML to OCI NDJSON.

    The XML reader's events are a sequence; the end of the sequence is the
    reader's `end` event. The translator is a fold over that sequence with an
    explicit state: the location in scope, the SKU map, the two counters and
    whether the promise has been rejected. On `end` the map is written out,
    SKU group after SKU group.

    A rejection for a record without location does not stop the reader: the
    remaining events are still handled and the file is still written, only the
    promise stays rejected. The model therefore reports both the promise's
    outcome and the content written to the target. */
module ToOci {
  import opened Common
  import opened Inventory
  import opened SkuMap

  /** The options toOCI reads (src/translator.js:25, 33-34). */
  datatype Options = Options(safetyStock: Option<int>, skipOut: bool, override: bool)

  /** What toOCI takes from outside: the clock reading stamped on a record
      without `allocation-timestamp`, and the ISO-8601 conversion applied to an
      `in-stock-date`. */
  datatype Env = Env(now: string, toIso: string -> string)

  datatype State = State(
    location: Option<string>,
    skuMap: seq<SkuGroup>,
    recordsCount: nat,
    inventoriesCount: nat,
    rejected: bool)

  /** The promise's outcome and what was written to the target. */
  datatype OciRun = OciRun(result: Result<Counts, Rejection>, target: Target<seq<AvailabilityRecord>>)

  // ---------------------------------------------------------------------
  // Event handlers.

  /** `header.$['list-id'] || null`: an empty or missing list-id leaves no
      location in scope. */
  function LocationOf(listId: Option<string>): (loc: Option<string>)
    ensures loc.Some? <==> Truthy(listId)
    ensures loc.Some? ==> loc == listId
  {
    if Truthy(listId) then listId else None
  }

  /** Whether a record met with a location in scope is kept: it needs an
      allocation, and with `skipout` a non-zero one (src/translator.js:68-80). */
  predicate Admits(opts: Options, x: XmlRecord) {
    && x.allocation.Some?
    && !(opts.skipOut && x.allocation.value == 0)
  }

  /** The expected date of the single future (src/translator.js:95-98). */
  function ExpectedDate(env: Env, x: XmlRecord): (d: Option<string>)
    ensures Truthy(x.inStockDatetime) ==> d == x.inStockDatetime
    ensures !Truthy(x.inStockDatetime) && Truthy(x.inStockDate) ==> d == Some(env.toIso(x.inStockDate.value))
    ensures !Truthy(x.inStockDatetime) && !Truthy(x.inStockDate) ==> d == x.inStockDatetime
  {
    var d := x.inStockDatetime;
    if !Truthy(d) && Truthy(x.inStockDate) then Some(env.toIso(x.inStockDate.value)) else d
  }

  /** The availability record built for a kept XML record
      (src/translator.js:82-104). */
  function Build(opts: Options, env: Env, loc: string, x: XmlRecord, id: nat): (r: AvailabilityRecord)
    requires x.allocation.Some?
    ensures r.recordId == id && r.sku == x.productId && r.locationId == loc
    ensures r.onHand == x.allocation.value
    ensures r.safetyStockCount == if opts.safetyStock.Some? then opts.safetyStock.value else 0
    ensures r.effectiveDate == if Truthy(x.allocationTimestamp) then x.allocationTimestamp.value else env.now
    ensures r.futures.Some? <==> Truthy(x.handling) && x.handling.value != "none"
    ensures r.futures.Some? ==> r.futures.value == [OciFuture(x.backorderAllocation, ExpectedDate(env, x))]
  {
    var futures :=
      if Truthy(x.handling) && x.handling.value != "none"
      then Some([OciFuture(x.backorderAllocation, ExpectedDate(env, x))])
      else None;
    AvailabilityRecord(
      id,
      x.allocation.value,
      x.productId,
      if Truthy(x.allocationTimestamp) then x.allocationTimestamp.value else env.now,
      opts.safetyStock.GetOr(0),
      loc,
      futures)
  }

  /** `endElement: header` (src/translator.js:52-59). */
  function OnHeader(st: State, listId: Option<string>): State {
    st.(location := LocationOf(listId), inventoriesCount := st.inventoriesCount + 1)
  }

  /** `endElement: record` (src/translator.js:62-109). */
  function OnRecord(opts: Options, env: Env, st: State, x: XmlRecord): State {
    if st.location.None? then st.(rejected := true)
    else if x.allocation.None? then st
    else if opts.skipOut && x.allocation.value == 0 then st
    else
      var r := Build(opts, env, st.location.value, x, st.recordsCount);
      st.(skuMap := Put(st.skuMap, r), recordsCount := st.recordsCount + 1)
  }

  function Step(opts: Options, env: Env, st: State, e: XmlEvent): State {
    match e
    case Header(listId) => OnHeader(st, listId)
    case Record(x) => OnRecord(opts, env, st, x)
  }

  /** The state after the events `evs`, starting from the initial one
      (src/translator.js:35-42). */
  function Scan(opts: Options, env: Env, evs: seq<XmlEvent>): State {
    if evs == [] then State(None, [], 0, 0, false)
    else Step(opts, env, Scan(opts, env, evs[..|evs|-1]), evs[|evs|-1])
  }

  /** The whole of toOCI: the file checks, the fold, and the `end` handler that
      writes the map out (src/translator.js:20-28, 111-131). */
  function Translate(sourceExists: bool, targetExists: bool, opts: Options, env: Env, evs: seq<XmlEvent>): OciRun {
    match Precheck(sourceExists, targetExists, opts.override)
    case Some(why) => OciRun(Failure(why), Untouched)
    case None =>
      var st := Scan(opts, env, evs);
      OciRun(
        if st.rejected then Failure(NoLocation)
        else Success(Counts(st.recordsCount, st.inventoriesCount)),
        Written(Flatten(st.skuMap)))
  }

  // ---------------------------------------------------------------------
  // Reference: what the event sequence alone says.

  /** The location set by the last header of `evs`; None before any header. */
  function LocationAfter(evs: seq<XmlEvent>): Option<string> {
    if evs == [] then None
    else match evs[|evs|-1]
      case Header(listId) => LocationOf(listId)
      case Record(_) => LocationAfter(evs[..|evs|-1])
  }

  /** Event `i` is a record met with no location in scope. */
  predicate Orphan(evs: seq<XmlEvent>, i: int)
    requires 0 <= i < |evs|
  {
    evs[i].Record? && LocationAfter(evs[..i]).None?
  }

  function HeaderCount(evs: seq<XmlEvent>): nat {
    if evs == [] then 0
    else HeaderCount(evs[..|evs|-1]) + (if evs[|evs|-1].Header? then 1 else 0)
  }

  /** The records kept, in the order their events arrive: the output of a
      translator that wrote each record as it came instead of grouping. */
  function Arrivals(opts: Options, env: Env, evs: seq<XmlEvent>): seq<AvailabilityRecord> {
    if evs == [] then []
    else
      var prior := Arrivals(opts, env, evs[..|evs|-1]);
      var loc := LocationAfter(evs[..|evs|-1]);
      match evs[|evs|-1]
      case Header(_) => prior
      case Record(x) =>
        if loc.Some? && Admits(opts, x) then prior + [Build(opts, env, loc.value, x, |prior|)]
        else prior
  }

  // ---------------------------------------------------------------------
  // Properties.

  lemma LocationIsNonEmpty(evs: seq<XmlEvent>)
    ensures LocationAfter(evs).Some? ==> LocationAfter(evs).value != ""
  {
    if evs != [] {
      LocationIsNonEmpty(evs[..|evs|-1]);
    }
  }

  /** The location in scope after a prefix is the one set by its last header. */
  lemma {:induction false} ScanTracksLocation(opts: Options, env: Env, evs: seq<XmlEvent>)
    ensures Scan(opts, env, evs).location == LocationAfter(evs)
    decreases |evs|
  {
    if evs != [] {
      ScanTracksLocation(opts, env, evs[..|evs|-1]);
    }
  }

  /** `inventoriesCount` counts the header events. */
  lemma {:induction false} ScanCountsHeaders(opts: Options, env: Env, evs: seq<XmlEvent>)
    ensures Scan(opts, env, evs).inventoriesCount == HeaderCount(evs)
    decreases |evs|
  {
    if evs != [] {
      ScanCountsHeaders(opts, env, evs[..|evs|-1]);
    }
  }

  /** The map after a prefix groups the records kept so far, and
      `recordsCount` is their number. */
  lemma {:induction false} ScanGroupsArrivals(opts: Options, env: Env, evs: seq<XmlEvent>)
    ensures Scan(opts, env, evs).skuMap == Group(Arrivals(opts, env, evs))
    ensures Scan(opts, env, evs).recordsCount == |Arrivals(opts, env, evs)|
    decreases |evs|
  {
    if evs != [] {
      var p, e := evs[..|evs|-1], evs[|evs|-1];
      ScanGroupsArrivals(opts, env, p);
      ScanTracksLocation(opts, env, p);
      var prior := Arrivals(opts, env, p);
      match e
      case Header(_) =>
      case Record(x) =>
        if LocationAfter(p).Some? && Admits(opts, x) {
          var r := Build(opts, env, LocationAfter(p).value, x, |prior|);
          assert (prior + [r])[..|prior|] == prior;
        }
    }
  }

  /** The promise is rejected after a prefix exactly when some record of it
      met no location in scope. */
  lemma {:induction false} ScanRejectsOrphans(opts: Options, env: Env, evs: seq<XmlEvent>)
    ensures Scan(opts, env, evs).rejected <==> exists i :: 0 <= i < |evs| && Orphan(evs, i)
    decreases |evs|
  {
    if evs != [] {
      var p, e := evs[..|evs|-1], evs[|evs|-1];
      assert evs == p + [e];
      ScanRejectsOrphans(opts, env, p);
      ScanTracksLocation(opts, env, p);
      forall i | 0 <= i < |p|
        ensures Orphan(evs, i) == Orphan(p, i)
      {
        PrefixOfSnoc(p, e, i);
      }
      assert evs[..|p|] == p;
      if Scan(opts, env, p).rejected {
        var i :| 0 <= i < |p| && Orphan(p, i);
        assert Orphan(evs, i);
      } else if e.Record? && LocationAfter(p).None? {
        assert Orphan(evs, |p|);
      } else {
        assert !Orphan(evs, |p|);
      }
    }
  }

  /** Nothing is opened or written when a check fails. */
  lemma PrecheckFailureWritesNothing(sourceExists: bool, targetExists: bool, opts: Options, env: Env, evs: seq<XmlEvent>)
    requires !sourceExists || (targetExists && !opts.override)
    ensures Translate(sourceExists, targetExists, opts, env, evs).target == Untouched
    ensures Translate(sourceExists, targetExists, opts, env, evs).result
            == Failure(if !sourceExists then SourceMissing else TargetExists)
  {
  }

  /** The promise is rejected with NoLocation exactly when some record event
      (kept or not) comes before any header, or after a header whose list-id
      is empty, before the next header. */
  lemma RejectsOrphanRecords(sourceExists: bool, targetExists: bool, opts: Options, env: Env, evs: seq<XmlEvent>)
    requires sourceExists && (!targetExists || opts.override)
    ensures Translate(sourceExists, targetExists, opts, env, evs).result.Failure?
            <==> exists i :: 0 <= i < |evs| && Orphan(evs, i)
    ensures Translate(sourceExists, targetExists, opts, env, evs).result.Failure?
            ==> Translate(sourceExists, targetExists, opts, env, evs).result.error == NoLocation
  {
    ScanRejectsOrphans(opts, env, evs);
  }

  /** When the promise resolves, `recordsCount` is the number of records
      written and `inventoriesCount` the number of header events. */
  lemma CountsWhatItWrites(sourceExists: bool, targetExists: bool, opts: Options, env: Env, evs: seq<XmlEvent>)
    requires sourceExists && (!targetExists || opts.override)
    requires forall i :: 0 <= i < |evs| ==> !Orphan(evs, i)
    ensures Translate(sourceExists, targetExists, opts, env, evs).target.Written?
    ensures Translate(sourceExists, targetExists, opts, env, evs).result
            == Success(Counts(|Translate(sourceExists, targetExists, opts, env, evs).target.content|, HeaderCount(evs)))
  {
    var arr := Arrivals(opts, env, evs);
    ScanRejectsOrphans(opts, env, evs);
    ScanGroupsArrivals(opts, env, evs);
    ScanCountsHeaders(opts, env, evs);
    GroupedIsPermutation(arr);
    assert |multiset(Flatten(Group(arr)))| == |multiset(arr)|;
  }

  /** The file written is the kept records rearranged into SKU groups: the
      same records, equal SKUs adjacent, SKUs in first-seen order, and each
      SKU's records in arrival order. This holds whether or not the promise
      was rejected. */
  lemma WritesGroupedArrivals(sourceExists: bool, targetExists: bool, opts: Options, env: Env, evs: seq<XmlEvent>, k: string)
    requires sourceExists && (!targetExists || opts.override)
    ensures Translate(sourceExists, targetExists, opts, env, evs).target.Written?
    ensures var out := Translate(sourceExists, targetExists, opts, env, evs).target.content;
            var arr := Arrivals(opts, env, evs);
            && multiset(out) == multiset(arr)
            && Contiguous(out)
            && FirstSeen(out) == FirstSeen(arr)
            && Select(out, k) == Select(arr, k)
  {
    var arr := Arrivals(opts, env, evs);
    ScanGroupsArrivals(opts, env, evs);
    GroupedIsPermutation(arr);
    GroupedIsContiguous(arr);
    GroupedFollowsFirstSeen(arr);
    GroupedKeepsArrivalOrder(arr, k);
  }

  /** Every kept record carries a location, the run's safety stock and a
      distinct id (its arrival ordinal); with `skipout` none has a zero
      allocation. */
  lemma {:induction false} ArrivalsAreWellFormed(opts: Options, env: Env, evs: seq<XmlEvent>)
    ensures forall j :: 0 <= j < |Arrivals(opts, env, evs)| ==>
      var r := Arrivals(opts, env, evs)[j];
      && r.recordId == j
      && r.locationId != ""
      && r.safetyStockCount == opts.safetyStock.GetOr(0)
      && (opts.skipOut ==> r.onHand != 0)
    decreases |evs|
  {
    if evs != [] {
      var p := evs[..|evs|-1];
      ArrivalsAreWellFormed(opts, env, p);
      LocationIsNonEmpty(p);
    }
  }

  /** Event `i` is a record admitted with a location in scope, and `r` is
      the record built from it with id `j`. */
  predicate BuiltFrom(opts: Options, env: Env, evs: seq<XmlEvent>, i: int, r: AvailabilityRecord, j: nat)
    requires 0 <= i < |evs|
  {
    && evs[i].Record?
    && LocationAfter(evs[..i]).Some?
    && Admits(opts, evs[i].record)
    && r == Build(opts, env, LocationAfter(evs[..i]).value, evs[i].record, j)
  }

  /** Some event of `evs` is the one `r` was built from. */
  predicate FromSomeEvent(opts: Options, env: Env, evs: seq<XmlEvent>, r: AvailabilityRecord, j: nat) {
    exists i :: 0 <= i < |evs| && BuiltFrom(opts, env, evs, i, r, j)
  }

  /** The event a kept record comes from. */
  lemma {:induction false} ArrivalOrigin(opts: Options, env: Env, evs: seq<XmlEvent>, j: nat) returns (i: nat)
    requires j < |Arrivals(opts, env, evs)|
    ensures i < |evs| && BuiltFrom(opts, env, evs, i, Arrivals(opts, env, evs)[j], j)
    decreases |evs|
  {
    var p, e := evs[..|evs|-1], evs[|evs|-1];
    var prior := Arrivals(opts, env, p);
    assert evs == p + [e];
    if j < |prior| {
      i := ArrivalOrigin(opts, env, p, j);
      PrefixOfSnoc(p, e, i);
    } else {
      assert evs[..|p|] == p;
      i := |p|;
    }
  }

  /** Every kept record is the one built from some record event admitted
      with a location in scope, with that location and its arrival ordinal
      as id. */
  lemma ArrivalsComeFromEvents(opts: Options, env: Env, evs: seq<XmlEvent>)
    ensures forall j :: 0 <= j < |Arrivals(opts, env, evs)| ==> FromSomeEvent(opts, env, evs, Arrivals(opts, env, evs)[j], j)
  {
    forall j | 0 <= j < |Arrivals(opts, env, evs)|
      ensures FromSomeEvent(opts, env, evs, Arrivals(opts, env, evs)[j], j)
    {
      var i := ArrivalOrigin(opts, env, evs, j);
    }
  }

  /** A dropped record, one with no allocation or with a zero allocation
      under `skipout`, changes neither the map nor the counters. */
  lemma DroppedRecordChangesNothing(opts: Options, env: Env, evs: seq<XmlEvent>, x: XmlRecord)
    requires LocationAfter(evs).Some?
    requires !Admits(opts, x)
    ensures Arrivals(opts, env, evs + [Record(x)]) == Arrivals(opts, env, evs)
    ensures Scan(opts, env, evs + [Record(x)]) == Scan(opts, env, evs)
  {
    var evs' := evs + [Record(x)];
    assert evs'[..|evs|] == evs && evs'[|evs|] == Record(x);
    ScanTracksLocation(opts, env, evs);
  }
}
