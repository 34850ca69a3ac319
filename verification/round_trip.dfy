/** The two translators chained: the NDJSON file toOCI writes, read back by
    toSFCC. Every line toOCI writes carries the non-empty `locationId` of its
    list, and toSFCC takes any line with a truthy `locationId` for a header
    (src/translator.js:172). So the chain turns every record into an
    inventory list of its own and writes no `record` element at all: the
    records do not survive the round trip. */
module RoundTrip {
  import opened Common
  import opened Inventory
  import ToOci
  import ToSfcc
  import XmlWriter

  /** A future as `JSON.stringify` writes it and `JSON.parse` reads it back:
      a NaN quantity becomes `null`, which the `reduce` in toSFCC adds as 0;
      an undefined date is left out. */
  function AsFuture(f: OciFuture): Future {
    Future(f.quantity.GetOr(0), f.expectedDate)
  }

  /** One line of the file toOCI writes (src/translator.js:114), as toSFCC
      parses it. `recordId` and `safetyStockCount` are not read by toSFCC. */
  function AsLine(r: AvailabilityRecord): Line {
    Parsed(FlatObject(
      None,
      Some(r.locationId),
      Some(r.sku),
      Some(r.onHand),
      None,
      None,
      Some(r.effectiveDate),
      if r.futures.Some? then Some(seq(|r.futures.value|, i requires 0 <= i < |r.futures.value| => AsFuture(r.futures.value[i])))
      else None))
  }

  function AsLines(rs: seq<AvailabilityRecord>): (lines: seq<Line>)
    ensures |lines| == |rs|
    ensures forall i :: 0 <= i < |rs| ==> lines[i] == AsLine(rs[i])
  {
    seq(|rs|, i requires 0 <= i < |rs| => AsLine(rs[i]))
  }

  /** Lines that are all headers count as headers and write no record. */
  lemma {:induction false} AllHeaderLines(rev: ToSfcc.Revision, opts: ToSfcc.Options, lines: seq<Line>)
    requires forall i :: 0 <= i < |lines| ==> ToSfcc.IsHeaderLine(lines[i])
    ensures ToSfcc.HeaderLines(lines) == |lines|
    ensures ToSfcc.RecordLines(rev, opts, lines) == 0
    ensures ToSfcc.MalformedLines(lines) == 0
  {
    if lines != [] {
      AllHeaderLines(rev, opts, lines[..|lines|-1]);
    }
  }

  /** A line of a toOCI file is a header line for toSFCC. */
  lemma WrittenLineIsHeader(r: AvailabilityRecord)
    requires r.locationId != ""
    ensures ToSfcc.IsHeaderLine(AsLine(r))
    ensures ToSfcc.HeaderId(AsLine(r).obj) == r.locationId
  {
  }

  /** Every record in a file toOCI writes carries a non-empty location. */
  lemma WrittenRecordsHaveLocations(sourceExists: bool, targetExists: bool, ociOpts: ToOci.Options, env: ToOci.Env, evs: seq<XmlEvent>)
    requires sourceExists && (!targetExists || ociOpts.override)
    ensures ToOci.Translate(sourceExists, targetExists, ociOpts, env, evs).target.Written?
    ensures var out := ToOci.Translate(sourceExists, targetExists, ociOpts, env, evs).target.content;
            forall i :: 0 <= i < |out| ==> out[i].locationId != ""
  {
    var arr := ToOci.Arrivals(ociOpts, env, evs);
    ToOci.WritesGroupedArrivals(sourceExists, targetExists, ociOpts, env, evs, "");
    ToOci.ArrivalsAreWellFormed(ociOpts, env, evs);
    var out := ToOci.Translate(sourceExists, targetExists, ociOpts, env, evs).target.content;
    forall i | 0 <= i < |out|
      ensures out[i].locationId != ""
    {
      assert out[i] in multiset(arr);
      var j :| 0 <= j < |arr| && arr[j] == out[i];
    }
  }

  /** A last line that is a header reaches the closing run. */
  lemma LastHeaderEnds(rev: ToSfcc.Revision, opts: ToSfcc.Options, lines: seq<Line>)
    requires |lines| > 0 && ToSfcc.IsHeaderLine(lines[|lines|-1])
    ensures ToSfcc.Scan(rev, opts, lines, |lines|).ended
  {
    var k := |lines|;
    var prev := ToSfcc.Scan(rev, opts, lines, k - 1);
    var (body, flow) := ToSfcc.Handle(rev, opts, prev, lines[k - 1]);
    assert flow == ToSfcc.Reached;
  }

  /** toSFCC over header lines only: one list per line, no record, and a
      resolved promise unless there is no line at all. */
  lemma HeaderLinesOnly(rev: ToSfcc.Revision, sourceExists: bool, targetExists: bool, opts: ToSfcc.Options, lines: seq<Line>)
    requires sourceExists && (!targetExists || opts.override)
    requires forall i :: 0 <= i < |lines| ==> ToSfcc.IsHeaderLine(lines[i])
    ensures var run := ToSfcc.Translate(rev, sourceExists, targetExists, opts, lines);
            && run.target.Written?
            && XmlWriter.Opens(run.target.content, "record") == 0
            && XmlWriter.Opens(run.target.content, "inventory-list") == |lines|
            && (|lines| > 0 ==> run.settlement == ToSfcc.Resolved(Counts(0, |lines|)))
  {
    AllHeaderLines(rev, opts, lines);
    ToSfcc.ScanFollowsLines(rev, opts, lines, |lines|);
    ToSfcc.ScanCountsElements(rev, opts, lines, |lines|);
    assert lines[..|lines|] == lines;
    if |lines| > 0 {
      LastHeaderEnds(rev, opts, lines);
    }
  }

  /** toSFCC over the lines of records that all carry a location. */
  lemma LocatedRecordsBecomeLists(rev: ToSfcc.Revision, sourceExists: bool, targetExists: bool, sfccOpts: ToSfcc.Options, out: seq<AvailabilityRecord>)
    requires sourceExists && (!targetExists || sfccOpts.override)
    requires forall i :: 0 <= i < |out| ==> out[i].locationId != ""
    ensures var run := ToSfcc.Translate(rev, sourceExists, targetExists, sfccOpts, AsLines(out));
            && run.target.Written?
            && XmlWriter.Opens(run.target.content, "record") == 0
            && XmlWriter.Opens(run.target.content, "inventory-list") == |out|
            && (|out| > 0 ==> run.settlement == ToSfcc.Resolved(Counts(0, |out|)))
  {
    var lines := AsLines(out);
    forall i | 0 <= i < |lines|
      ensures ToSfcc.IsHeaderLine(lines[i])
    {
      WrittenLineIsHeader(out[i]);
    }
    HeaderLinesOnly(rev, sourceExists, targetExists, sfccOpts, lines);
  }

  /** toOCI then toSFCC, when the file checks of both runs pass: the
      document toSFCC writes holds one inventory list per record toOCI wrote
      and no `record` element, and when that file is not empty the promise
      resolves with those counts, whichever revision of toSFCC runs. */
  lemma RecordsComeBackAsHeaders(
      ociSource: bool, ociTarget: bool, ociOpts: ToOci.Options, env: ToOci.Env, evs: seq<XmlEvent>,
      rev: ToSfcc.Revision, sfccSource: bool, sfccTarget: bool, sfccOpts: ToSfcc.Options)
    requires ociSource && (!ociTarget || ociOpts.override)
    requires sfccSource && (!sfccTarget || sfccOpts.override)
    ensures ToOci.Translate(ociSource, ociTarget, ociOpts, env, evs).target.Written?
    ensures var out := ToOci.Translate(ociSource, ociTarget, ociOpts, env, evs).target.content;
            var run := ToSfcc.Translate(rev, sfccSource, sfccTarget, sfccOpts, AsLines(out));
            && run.target.Written?
            && XmlWriter.Opens(run.target.content, "record") == 0
            && XmlWriter.Opens(run.target.content, "inventory-list") == |out|
            && (|out| > 0 ==> run.settlement == ToSfcc.Resolved(Counts(0, |out|)))
  {
    WrittenRecordsHaveLocations(ociSource, ociTarget, ociOpts, env, evs);
    LocatedRecordsBecomeLists(rev, sfccSource, sfccTarget, sfccOpts,
                              ToOci.Translate(ociSource, ociTarget, ociOpts, env, evs).target.content);
  }
}
