/** toSFCC (src/translator.js:140-259): OCI NDJSON to SFCC inventory XML.

    The line reader's callback becomes a fold over the lines, the final line
    flagged. The state is the XML writer (its open-element stack and the
    tokens written so far), the `inventoryListOpened` flag, the two counters,
    whether the promise was rejected, and whether the document was ended.

    The handler is modelled in two revisions. `AsWritten` is the source as it
    stands. `Corrected` differs in exactly two places, both listed under
    Findings in README.md: a record dropped on the last line no longer skips
    the closing of the document, and `onHand` 0 is dropped only under
    `skipout`. */
module ToSfcc {
  import opened Common
  import opened Inventory
  import opened XmlWriter

  const Namespace := "http://www.demandware.com/xml/impex/inventory/2007-05-31"

  /** The options toSFCC reads (src/translator.js:146, 154). */
  datatype Options = Options(skipOut: bool, override: bool)

  datatype Revision = AsWritten | Corrected

  datatype State = State(
    writer: Writer,
    listOpen: bool,
    recordsCount: nat,
    inventoriesCount: nat,
    rejected: bool,
    ended: bool)

  /** How control leaves the `try` body for one line: on to the `if (last)`
      block, by a `return` in a drop branch, or by the `catch` after
      JSON.parse threw. */
  datatype Flow = Reached | Dropped | Threw

  /** A promise resolves, is rejected, or never settles. */
  datatype Settlement = Resolved(counts: Counts) | Rejected(reason: Rejection) | Pending

  datatype SfccRun = SfccRun(settlement: Settlement, target: Target<seq<Token>>)

  // ---------------------------------------------------------------------
  // Line classification and record content.

  /** A line with a truthy `groupId` or `locationId` is a header, whatever
      else it holds (src/translator.js:172). */
  predicate IsHeader(o: FlatObject) {
    Truthy(o.groupId) || Truthy(o.locationId)
  }

  /** `groupId || locationId` (src/translator.js:180). */
  function HeaderId(o: FlatObject): (id: string)
    requires IsHeader(o)
    ensures id != ""
    ensures Truthy(o.groupId) ==> id == o.groupId.value
    ensures !Truthy(o.groupId) ==> id == o.locationId.value
  {
    if Truthy(o.groupId) then o.groupId.value else o.locationId.value
  }

  /** The header description: the list id, a space, and `group` when the
      line has a `groupId` property at all, `location` otherwise
      (src/translator.js:181, 188). */
  function Description(o: FlatObject): (d: string)
    requires IsHeader(o)
    ensures |d| > |HeaderId(o)| + 1
    ensures d[..|HeaderId(o)| + 1] == HeaderId(o) + " "
    ensures d[|HeaderId(o)| + 1..] == "group" <==> o.groupId.Some?
  {
    var kind := if o.groupId.Some? then "group" else "location";
    var d := HeaderId(o) + " " + kind;
    assert d[..|HeaderId(o)| + 1] == HeaderId(o) + " ";
    assert d[|HeaderId(o)| + 1..] == kind;
    d
  }

  /** `!parsedLine.onHand`, the first drop test of a record line. As written,
      0 is falsy and so dropped; the corrected reading drops only a missing
      value, as the test's log message ("undefined allocation") says. */
  predicate NoAllocation(rev: Revision, onHand: Option<int>) {
    match rev
    case AsWritten => onHand.None? || onHand.value == 0
    case Corrected => onHand.None?
  }

  /** Whether a parsed line is a record that gets written
      (src/translator.js:194-207). */
  predicate WritesRecord(rev: Revision, opts: Options, line: Line) {
    && line.Parsed?
    && !IsHeader(line.obj)
    && Truthy(line.obj.sku)
    && !NoAllocation(rev, line.obj.onHand)
    && !(opts.skipOut && line.obj.onHand == Some(0))
  }

  predicate IsHeaderLine(line: Line) {
    line.Parsed? && IsHeader(line.obj)
  }

  /** The sum of the quantities, as a right fold: the reference for `Reduce`. */
  function Total(fs: seq<Future>): int {
    if fs == [] then 0 else fs[0].quantity + Total(fs[1..])
  }

  /** The `reduce` that sums the future quantities (src/translator.js:220),
      generalised from the start value 0 to any start value `acc`: the
      running total, left to right. */
  function Reduce(fs: seq<Future>, acc: int): (total: int)
    ensures total == acc + Total(fs)
  {
    if fs == [] then acc else Reduce(fs[1..], acc + fs[0].quantity)
  }

  function NumberOr(v: Option<int>): Value {
    if v.Some? then Number(v.value) else Undefined
  }

  function TextOr(v: Option<string>): Value {
    if v.Some? then Text(v.value) else Undefined
  }

  predicate HasFutures(o: FlatObject) {
    o.futures.Some? && o.futures.value != []
  }

  /** `preorder-backorder-handling`: `none` for an empty futures array,
      `backorder` otherwise (src/translator.js:216). */
  function Handling(o: FlatObject): string {
    if o.futures.Some? && |o.futures.value| == 0 then "none" else "backorder"
  }

  /** The children of a `record` element that are always written
      (src/translator.js:211-216). */
  function BaseFields(o: FlatObject): seq<Token>
    requires o.onHand.Some?
  {
    [Leaf("allocation", Number(o.onHand.value)),
     Leaf("ats", NumberOr(o.ato)),
     Leaf("stock-level", NumberOr(o.atf)),
     Leaf("allocation-timestamp", TextOr(o.effectiveDate)),
     Leaf("perpetual", Text("false")),
     Leaf("preorder-backorder-handling", Text(Handling(o)))]
  }

  /** The children written only for a non-empty futures array
      (src/translator.js:218-223). */
  function FutureFields(o: FlatObject): seq<Token> {
    if HasFutures(o) then
      [Leaf("preorder-backorder-allocation", Number(Reduce(o.futures.value, 0))),
       Leaf("in-stock-datetime", TextOr(o.futures.value[0].expectedDate))]
    else []
  }

  /** The tokens of one `record` element as the source writes it
      (src/translator.js:209-226). */
  function RecordTokens(o: FlatObject): seq<Token>
    requires Truthy(o.sku) && o.onHand.Some?
  {
    [Open("record", [Attr("product-id", o.sku.value)])] + BaseFields(o) + FutureFields(o) + [Close]
  }

  /** The children always written: `allocation` is `onHand`, `ats` and
      `stock-level` are `ato` and `atf`, the timestamp is `effectiveDate`,
      `perpetual` is false, and the handling is `none` exactly when `futures`
      is present and empty, `backorder` otherwise, absent `futures` included. */
  lemma RecordBaseContent(o: FlatObject)
    requires Truthy(o.sku) && o.onHand.Some?
    ensures var e := RecordTokens(o);
      && Field(e, "allocation") == Some(Number(o.onHand.value))
      && Field(e, "ats") == Some(NumberOr(o.ato))
      && Field(e, "stock-level") == Some(NumberOr(o.atf))
      && Field(e, "allocation-timestamp") == Some(TextOr(o.effectiveDate))
      && Field(e, "perpetual") == Some(Text("false"))
      && (Field(e, "preorder-backorder-handling") == Some(Text("none")) <==> o.futures == Some([]))
      && (Field(e, "preorder-backorder-handling") == Some(Text("backorder")) <==> o.futures != Some([]))
  {
    var e := RecordTokens(o);
    FieldAt(e, 1, "allocation");
    FieldAt(e, 2, "ats");
    FieldAt(e, 3, "stock-level");
    FieldAt(e, 4, "allocation-timestamp");
    FieldAt(e, 5, "perpetual");
    FieldAt(e, 6, "preorder-backorder-handling");
  }

  /** With a non-empty futures array the backorder allocation is the total
      of all quantities and the in-stock date-time the first one's expected
      date; without one neither element is written. */
  lemma RecordFutureContent(o: FlatObject)
    requires Truthy(o.sku) && o.onHand.Some?
    ensures var e := RecordTokens(o);
      && (HasFutures(o) ==> Field(e, "preorder-backorder-allocation") == Some(Number(Total(o.futures.value))))
      && (HasFutures(o) ==> Field(e, "in-stock-datetime") == Some(TextOr(o.futures.value[0].expectedDate)))
      && (!HasFutures(o) ==> Field(e, "preorder-backorder-allocation") == None)
      && (!HasFutures(o) ==> Field(e, "in-stock-datetime") == None)
  {
    var e := RecordTokens(o);
    if HasFutures(o) {
      FieldAt(e, 7, "preorder-backorder-allocation");
      FieldAt(e, 8, "in-stock-datetime");
    } else {
      FieldAbsent(e, "preorder-backorder-allocation");
      FieldAbsent(e, "in-stock-datetime");
    }
  }

  /** A record element opens one `record` and nothing else. */
  lemma RecordOpens(o: FlatObject, n: string)
    requires Truthy(o.sku) && o.onHand.Some?
    ensures Opens(RecordTokens(o), n) == if n == "record" then 1 else 0
  {
    var e := RecordTokens(o);
    var mid := e[1..];
    assert e == [e[0]] + mid;
    OpensOne(e[0], n);
    OpensNone(mid, n);
    OpensConcat([e[0]], mid, n);
  }

  function WriteBaseFields(w: Writer, o: FlatObject): (w': Writer)
    requires o.onHand.Some?
    ensures w'.stack == w.stack
    ensures w'.tokens == w.tokens + BaseFields(o)
  {
    var w1 := WriteElement(w, "allocation", Number(o.onHand.value));
    var w2 := WriteElement(w1, "ats", NumberOr(o.ato));
    var w3 := WriteElement(w2, "stock-level", NumberOr(o.atf));
    var w4 := WriteElement(w3, "allocation-timestamp", TextOr(o.effectiveDate));
    var w5 := WriteElement(w4, "perpetual", Text("false"));
    WriteElement(w5, "preorder-backorder-handling", Text(Handling(o)))
  }

  function WriteFutureFields(w: Writer, o: FlatObject): (w': Writer)
    ensures w'.stack == w.stack
    ensures w'.tokens == w.tokens + FutureFields(o)
  {
    if HasFutures(o) then
      var w1 := WriteElement(w, "preorder-backorder-allocation", Number(Reduce(o.futures.value, 0)));
      WriteElement(w1, "in-stock-datetime", TextOr(o.futures.value[0].expectedDate))
    else
      assert w.tokens + [] == w.tokens;
      w
  }

  /** Writes one `record` element through the writer, call by call as the
      source does: the tokens are the element's and the stack is back where
      it was. */
  function WriteRecord(w: Writer, o: FlatObject): (w': Writer)
    requires Truthy(o.sku) && o.onHand.Some?
    ensures w'.stack == w.stack
    ensures w'.tokens == w.tokens + RecordTokens(o)
  {
    var w1 := StartElement(w, "record", [Attr("product-id", o.sku.value)]);
    var w2 := WriteFutureFields(WriteBaseFields(w1, o), o);
    assert w2.stack[..|w2.stack| - 1] == w.stack;
    EndElement(w2)
  }

  // The writer calls for a record keep the stack in agreement with the
  // tokens.

  lemma BaseFieldsKeep(w: Writer, o: FlatObject)
    requires o.onHand.Some? && Consistent(w)
    ensures Consistent(WriteBaseFields(w, o))
  {
    var w1 := WriteElement(w, "allocation", Number(o.onHand.value));
    WriteKeeps(w, "allocation", Number(o.onHand.value));
    var w2 := WriteElement(w1, "ats", NumberOr(o.ato));
    WriteKeeps(w1, "ats", NumberOr(o.ato));
    var w3 := WriteElement(w2, "stock-level", NumberOr(o.atf));
    WriteKeeps(w2, "stock-level", NumberOr(o.atf));
    var w4 := WriteElement(w3, "allocation-timestamp", TextOr(o.effectiveDate));
    WriteKeeps(w3, "allocation-timestamp", TextOr(o.effectiveDate));
    var w5 := WriteElement(w4, "perpetual", Text("false"));
    WriteKeeps(w4, "perpetual", Text("false"));
    WriteKeeps(w5, "preorder-backorder-handling", Text(Handling(o)));
  }

  lemma FutureFieldsKeep(w: Writer, o: FlatObject)
    requires Consistent(w)
    ensures Consistent(WriteFutureFields(w, o))
  {
    if HasFutures(o) {
      var q := Number(Reduce(o.futures.value, 0));
      WriteKeeps(w, "preorder-backorder-allocation", q);
      WriteKeeps(WriteElement(w, "preorder-backorder-allocation", q),
                 "in-stock-datetime", TextOr(o.futures.value[0].expectedDate));
    }
  }

  lemma WriteRecordKeeps(w: Writer, o: FlatObject)
    requires Truthy(o.sku) && o.onHand.Some? && Consistent(w)
    ensures Consistent(WriteRecord(w, o))
  {
    var w1 := StartElement(w, "record", [Attr("product-id", o.sku.value)]);
    StartKeeps(w, "record", [Attr("product-id", o.sku.value)]);
    BaseFieldsKeep(w1, o);
    FutureFieldsKeep(WriteBaseFields(w1, o), o);
    EndKeeps(WriteFutureFields(WriteBaseFields(w1, o), o));
  }

  /** A record line that passed the drop tests (src/translator.js:209-228). */
  function AddRecord(st: State, o: FlatObject): (r: State)
    requires Inv(st) && !st.ended && Truthy(o.sku) && o.onHand.Some?
    ensures Inv(r) && !r.ended
    ensures r == st.(writer := r.writer, recordsCount := st.recordsCount + 1)
    ensures r.writer.tokens == st.writer.tokens + RecordTokens(o)
  {
    st.(writer := WriteRecord(st.writer, o), recordsCount := st.recordsCount + 1)
  }

  // ---------------------------------------------------------------------
  // The state machine.

  /** The open elements between lines: the root alone, or the root with an
      `inventory-list` and its `records` when a list is open. */
  function Shape(listOpen: bool): seq<string> {
    if listOpen then ["inventory", "inventory-list", "records"] else ["inventory"]
  }

  /** The state invariant: the writer's stack has the shape the flag says,
      and nothing once the document is ended. That the stack is also what the
      tokens replay to (`ScanConsistent`) and that the counters count the
      elements written (`ScanCountsElements`) are proved separately. */
  predicate Inv(st: State) {
    st.writer.stack == (if st.ended then [] else Shape(st.listOpen))
  }

  /** The document start and the root element (src/translator.js:151-164). */
  function Begin(): (st: State)
    ensures Inv(st) && !st.ended && !st.listOpen && !st.rejected
    ensures st.recordsCount == 0 && st.inventoriesCount == 0
  {
    var w := StartDocument("1.0", "UTF-8");
    var w := StartElement(w, "inventory", [Attr("xmlns", Namespace)]);
    State(w, false, 0, 0, false, false)
  }

  /** The end tags of an open list, if any. */
  function Closes(listOpen: bool): seq<Token> {
    if listOpen then [Close, Close] else []
  }

  /** Closes `records` and `inventory-list` when a list is open
      (src/translator.js:173-178, 237-242). */
  function CloseList(st: State): (r: State)
    requires Inv(st) && !st.ended
    ensures r.writer.stack == ["inventory"]
    ensures r.writer.tokens == st.writer.tokens + Closes(st.listOpen)
    ensures r == st.(writer := r.writer)
  {
    if st.listOpen then st.(writer := EndElement(EndElement(st.writer))) else st
  }

  /** How many elements named `n` a list opening opens. */
  function ListOpens(n: string): nat {
    if n == "inventory-list" || n == "header" || n == "records" then 1 else 0
  }

  /** The elements a header line writes once no list is open
      (src/translator.js:184-190): an `inventory-list` holding a complete
      `header` element, and an open `records` element. */
  function ListOpening(id: string, description: string): seq<Token> {
    [Open("inventory-list", []), Open("header", [Attr("list-id", id)]),
     Leaf("description", Text(description)), Close, Open("records", [])]
  }

  lemma ListOpeningOpens(id: string, description: string, n: string)
    ensures Opens(ListOpening(id, description), n) == ListOpens(n)
  {
    var e := ListOpening(id, description);
    assert e == [e[0]] + [e[1]] + [e[2], e[3]] + [e[4]];
    OpensOne(e[0], n);
    OpensOne(e[1], n);
    OpensNone([e[2], e[3]], n);
    OpensOne(e[4], n);
    OpensConcat([e[0]], [e[1]], n);
    OpensConcat([e[0]] + [e[1]], [e[2], e[3]], n);
    OpensConcat([e[0]] + [e[1]] + [e[2], e[3]], [e[4]], n);
  }

  /** Writes the list opening through the writer, call by call. */
  function WriteListOpening(w: Writer, id: string, description: string): (w': Writer)
    ensures w'.stack == w.stack + ["inventory-list", "records"]
    ensures w'.tokens == w.tokens + ListOpening(id, description)
  {
    var w1 := StartElement(w, "inventory-list", []);
    var w2 := StartElement(w1, "header", [Attr("list-id", id)]);
    var w3 := WriteElement(w2, "description", Text(description));
    var w4 := EndElement(w3);
    StartElement(w4, "records", [])
  }

  lemma ListOpeningKeeps(w: Writer, id: string, description: string)
    requires Consistent(w)
    ensures Consistent(WriteListOpening(w, id, description))
  {
    var w1 := StartElement(w, "inventory-list", []);
    StartKeeps(w, "inventory-list", []);
    var w2 := StartElement(w1, "header", [Attr("list-id", id)]);
    StartKeeps(w1, "header", [Attr("list-id", id)]);
    var w3 := WriteElement(w2, "description", Text(description));
    WriteKeeps(w2, "description", Text(description));
    var w4 := EndElement(w3);
    EndKeeps(w3);
    StartKeeps(w4, "records", []);
  }

  lemma CloseListKeeps(st: State)
    requires Inv(st) && !st.ended && Consistent(st.writer)
    ensures Consistent(CloseList(st).writer)
  {
    if st.listOpen {
      EndKeeps(st.writer);
      EndKeeps(EndElement(st.writer));
    }
  }

  /** The counters after a list is closed and a new one opened. */
  lemma ReopenCounts(ts: seq<Token>, listOpen: bool, id: string, description: string)
    ensures Opens(ts + Closes(listOpen) + ListOpening(id, description), "record") == Opens(ts, "record")
    ensures Opens(ts + Closes(listOpen) + ListOpening(id, description), "inventory-list")
            == Opens(ts, "inventory-list") + 1
  {
    var closes := Closes(listOpen);
    var opening := ListOpening(id, description);
    OpensNone(closes, "record");
    OpensNone(closes, "inventory-list");
    ListOpeningOpens(id, description, "record");
    ListOpeningOpens(id, description, "inventory-list");
    OpensConcat(ts, closes, "record");
    OpensConcat(ts, closes, "inventory-list");
    OpensConcat(ts + closes, opening, "record");
    OpensConcat(ts + closes, opening, "inventory-list");
  }

  /** A header line (src/translator.js:172-193): close the open list if any,
      open a new `inventory-list` with its `header` and an open `records`. */
  function OpenList(st: State, o: FlatObject): (r: State)
    requires Inv(st) && !st.ended && IsHeader(o)
    ensures Inv(r) && !r.ended && r.listOpen
    ensures r.inventoriesCount == st.inventoriesCount + 1
    ensures r.recordsCount == st.recordsCount && r.rejected == st.rejected
    ensures r.writer.tokens == st.writer.tokens + Closes(st.listOpen) + ListOpening(HeaderId(o), Description(o))
  {
    var c := CloseList(st);
    var w := WriteListOpening(c.writer, HeaderId(o), Description(o));
    st.(writer := w, listOpen := true, inventoriesCount := st.inventoriesCount + 1)
  }

  /** The closing run on the last line (src/translator.js:236-245): close an
      open list, then the root. */
  function Finish(st: State): (r: State)
    requires Inv(st) && !st.ended
    ensures Inv(r) && r.ended
    ensures r.recordsCount == st.recordsCount && r.inventoriesCount == st.inventoriesCount
    ensures r.rejected == st.rejected && r.listOpen == st.listOpen
    ensures r.writer.tokens == st.writer.tokens + Closes(st.listOpen) + [Close]
  {
    var c := CloseList(st);
    c.(writer := EndElement(c.writer), ended := true)
  }

  /** The closing run opens nothing. */
  lemma ClosingCounts(ts: seq<Token>, listOpen: bool)
    ensures Opens(ts + Closes(listOpen) + [Close], "record") == Opens(ts, "record")
    ensures Opens(ts + Closes(listOpen) + [Close], "inventory-list") == Opens(ts, "inventory-list")
  {
    var closing := Closes(listOpen) + [Close];
    OpensNone(closing, "record");
    OpensNone(closing, "inventory-list");
    OpensConcat(ts, closing, "record");
    OpensConcat(ts, closing, "inventory-list");
    assert ts + Closes(listOpen) + [Close] == ts + closing;
  }

  /** How the body for `line` ends: a parse error throws, a record line
      that is not written returns early, anything else runs to the end. */
  function FlowOf(rev: Revision, opts: Options, line: Line): Flow {
    if line.Unparsable? then Threw
    else if line.Parsed? && !IsHeader(line.obj) && Truthy(line.obj.sku) && !WritesRecord(rev, opts, line) then Dropped
    else Reached
  }

  /** The `try` body for one line (src/translator.js:168-234, 254-257). */
  function Handle(rev: Revision, opts: Options, st: State, line: Line): (h: (State, Flow))
    requires Inv(st) && !st.ended
    ensures Inv(h.0) && !h.0.ended
    ensures h.1 == FlowOf(rev, opts, line)
  {
    match line
    case Blank => (st, Reached)
    case Unparsable => (st.(rejected := true), Threw)
    case Parsed(o) =>
      if IsHeader(o) then (OpenList(st, o), Reached)
      else if Truthy(o.sku) then
        if NoAllocation(rev, o.onHand) then (st, Dropped)
        else if opts.skipOut && o.onHand.value == 0 then (st, Dropped)
        else (AddRecord(st, o), Reached)
      else (st, Reached)
  }

  lemma OpenListKeeps(st: State, o: FlatObject)
    requires Inv(st) && !st.ended && IsHeader(o) && Consistent(st.writer)
    ensures Consistent(OpenList(st, o).writer)
  {
    CloseListKeeps(st);
    ListOpeningKeeps(CloseList(st).writer, HeaderId(o), Description(o));
  }

  lemma HandleKeeps(rev: Revision, opts: Options, st: State, line: Line)
    requires Inv(st) && !st.ended && Consistent(st.writer)
    ensures Consistent(Handle(rev, opts, st, line).0.writer)
  {
    if IsHeaderLine(line) {
      OpenListKeeps(st, line.obj);
    } else if WritesRecord(rev, opts, line) {
      WriteRecordKeeps(st.writer, line.obj);
    }
  }

  /** The closing run leaves a balanced document. */
  lemma FinishBalances(st: State)
    requires Inv(st) && !st.ended && Consistent(st.writer)
    ensures Consistent(Finish(st).writer) && Balanced(Finish(st).writer.tokens)
  {
    CloseListKeeps(st);
    EndKeeps(CloseList(st).writer);
  }

  /** Whether the `if (last)` block runs after the body left by `flow`. */
  predicate ReachesLast(rev: Revision, flow: Flow) {
    flow == Reached || (rev == Corrected && flow == Dropped)
  }

  /** The line callback (src/translator.js:167-258). */
  function OnLine(rev: Revision, opts: Options, st: State, line: Line, last: bool): (r: State)
    requires Inv(st) && !st.ended
    ensures Inv(r)
    ensures !last ==> !r.ended
  {
    var (body, flow) := Handle(rev, opts, st, line);
    if last && ReachesLast(rev, flow) then Finish(body) else body
  }

  /** The state after the first `k` lines; the line at index |lines|-1 is
      the one flagged last. */
  function Scan(rev: Revision, opts: Options, lines: seq<Line>, k: nat): (st: State)
    requires k <= |lines|
    ensures Inv(st)
    ensures k < |lines| ==> !st.ended
  {
    if k == 0 then Begin()
    else OnLine(rev, opts, Scan(rev, opts, lines, k - 1), lines[k - 1], k == |lines|)
  }

  /** The whole of toSFCC: the file checks, then the lines. With no line at all
      the callback never runs and the promise never settles. */
  function Translate(rev: Revision, sourceExists: bool, targetExists: bool, opts: Options, lines: seq<Line>): SfccRun {
    match Precheck(sourceExists, targetExists, opts.override)
    case Some(why) => SfccRun(Rejected(why), Untouched)
    case None =>
      var st := Scan(rev, opts, lines, |lines|);
      SfccRun(
        if st.rejected then Rejected(MalformedLine)
        else if st.ended then Resolved(Counts(st.recordsCount, st.inventoriesCount))
        else Pending,
        Written(st.writer.tokens))
  }

  // ---------------------------------------------------------------------
  // Reference counts over the input lines.

  function RecordLines(rev: Revision, opts: Options, lines: seq<Line>): nat {
    if lines == [] then 0
    else RecordLines(rev, opts, lines[..|lines|-1]) + (if WritesRecord(rev, opts, lines[|lines|-1]) then 1 else 0)
  }

  function HeaderLines(lines: seq<Line>): nat {
    if lines == [] then 0
    else HeaderLines(lines[..|lines|-1]) + (if IsHeaderLine(lines[|lines|-1]) then 1 else 0)
  }

  function MalformedLines(lines: seq<Line>): nat {
    if lines == [] then 0
    else MalformedLines(lines[..|lines|-1]) + (if lines[|lines|-1].Unparsable? then 1 else 0)
  }

  // ---------------------------------------------------------------------
  // Properties.

  /** What the body for one line does to the counters and flags. */
  lemma HandleEffect(rev: Revision, opts: Options, st: State, line: Line)
    requires Inv(st) && !st.ended
    ensures Handle(rev, opts, st, line).0.recordsCount
            == st.recordsCount + (if WritesRecord(rev, opts, line) then 1 else 0)
    ensures Handle(rev, opts, st, line).0.inventoriesCount
            == st.inventoriesCount + (if IsHeaderLine(line) then 1 else 0)
    ensures Handle(rev, opts, st, line).0.listOpen == (st.listOpen || IsHeaderLine(line))
    ensures Handle(rev, opts, st, line).0.rejected == (st.rejected || line.Unparsable?)
  {
  }

  /** What one line does to the counters and flags, closing run included. */
  lemma OnLineEffect(rev: Revision, opts: Options, st: State, line: Line, last: bool)
    requires Inv(st) && !st.ended
    ensures OnLine(rev, opts, st, line, last).recordsCount
            == st.recordsCount + (if WritesRecord(rev, opts, line) then 1 else 0)
    ensures OnLine(rev, opts, st, line, last).inventoriesCount
            == st.inventoriesCount + (if IsHeaderLine(line) then 1 else 0)
    ensures OnLine(rev, opts, st, line, last).listOpen == (st.listOpen || IsHeaderLine(line))
    ensures OnLine(rev, opts, st, line, last).rejected == (st.rejected || line.Unparsable?)
  {
    HandleEffect(rev, opts, st, line);
  }

  /** Between lines, and at the end, the writer's stack is what its tokens
      replay to. */
  lemma {:induction false} ScanConsistent(rev: Revision, opts: Options, lines: seq<Line>, k: nat)
    requires k <= |lines|
    ensures Consistent(Scan(rev, opts, lines, k).writer)
  {
    if k == 0 {
      StartKeeps(StartDocument("1.0", "UTF-8"), "inventory", [Attr("xmlns", Namespace)]);
    } else {
      var prev := Scan(rev, opts, lines, k - 1);
      ScanConsistent(rev, opts, lines, k - 1);
      HandleKeeps(rev, opts, prev, lines[k - 1]);
      var body := Handle(rev, opts, prev, lines[k - 1]).0;
      if k == |lines| && ReachesLast(rev, Handle(rev, opts, prev, lines[k - 1]).1) {
        FinishBalances(body);
      }
    }
  }

  /** What the body for one line adds to the `record` and `inventory-list`
      elements of the document. */
  lemma HandleOpens(rev: Revision, opts: Options, st: State, line: Line)
    requires Inv(st) && !st.ended
    ensures Opens(Handle(rev, opts, st, line).0.writer.tokens, "record")
            == Opens(st.writer.tokens, "record") + (if WritesRecord(rev, opts, line) then 1 else 0)
    ensures Opens(Handle(rev, opts, st, line).0.writer.tokens, "inventory-list")
            == Opens(st.writer.tokens, "inventory-list") + (if IsHeaderLine(line) then 1 else 0)
  {
    if IsHeaderLine(line) {
      ReopenCounts(st.writer.tokens, st.listOpen, HeaderId(line.obj), Description(line.obj));
    } else if WritesRecord(rev, opts, line) {
      var o := line.obj;
      RecordOpens(o, "record");
      RecordOpens(o, "inventory-list");
      OpensConcat(st.writer.tokens, RecordTokens(o), "record");
      OpensConcat(st.writer.tokens, RecordTokens(o), "inventory-list");
    }
  }

  /** The same for the whole callback, closing run included. */
  lemma OnLineOpens(rev: Revision, opts: Options, st: State, line: Line, last: bool)
    requires Inv(st) && !st.ended
    ensures Opens(OnLine(rev, opts, st, line, last).writer.tokens, "record")
            == Opens(st.writer.tokens, "record") + (if WritesRecord(rev, opts, line) then 1 else 0)
    ensures Opens(OnLine(rev, opts, st, line, last).writer.tokens, "inventory-list")
            == Opens(st.writer.tokens, "inventory-list") + (if IsHeaderLine(line) then 1 else 0)
  {
    HandleOpens(rev, opts, st, line);
    var body := Handle(rev, opts, st, line).0;
    ClosingCounts(body.writer.tokens, body.listOpen);
  }

  /** Between lines, and at the end, `recordsCount` is the number of `record`
      elements in the document and `inventoriesCount` the number of
      `inventory-list` elements. */
  lemma {:induction false} ScanCountsElements(rev: Revision, opts: Options, lines: seq<Line>, k: nat)
    requires k <= |lines|
    ensures Opens(Scan(rev, opts, lines, k).writer.tokens, "record") == Scan(rev, opts, lines, k).recordsCount
    ensures Opens(Scan(rev, opts, lines, k).writer.tokens, "inventory-list") == Scan(rev, opts, lines, k).inventoriesCount
  {
    if k == 0 {
      BeginOpensNothing();
    } else {
      ScanCountsElements(rev, opts, lines, k - 1);
      StepCountsElements(rev, opts, Scan(rev, opts, lines, k - 1), lines[k - 1], k == |lines|);
    }
  }

  /** One line keeps the counters equal to the elements written. */
  lemma StepCountsElements(rev: Revision, opts: Options, st: State, line: Line, last: bool)
    requires Inv(st) && !st.ended
    requires Opens(st.writer.tokens, "record") == st.recordsCount
    requires Opens(st.writer.tokens, "inventory-list") == st.inventoriesCount
    ensures Opens(OnLine(rev, opts, st, line, last).writer.tokens, "record") == OnLine(rev, opts, st, line, last).recordsCount
    ensures Opens(OnLine(rev, opts, st, line, last).writer.tokens, "inventory-list")
            == OnLine(rev, opts, st, line, last).inventoriesCount
  {
    OnLineEffect(rev, opts, st, line, last);
    OnLineOpens(rev, opts, st, line, last);
  }

  lemma BeginOpensNothing()
    ensures Opens(Begin().writer.tokens, "record") == 0
    ensures Opens(Begin().writer.tokens, "inventory-list") == 0
  {
    var w := StartDocument("1.0", "UTF-8");
    var root := Open("inventory", [Attr("xmlns", Namespace)]);
    OpensOne(w.tokens[0], "record");
    OpensOne(w.tokens[0], "inventory-list");
    OpensOne(root, "record");
    OpensOne(root, "inventory-list");
    OpensConcat(w.tokens, [root], "record");
    OpensConcat(w.tokens, [root], "inventory-list");
  }

  /** The document is ended exactly when the last line's body lets the
      closing run happen. */
  lemma ScanEnds(rev: Revision, opts: Options, lines: seq<Line>)
    requires |lines| > 0
    ensures Scan(rev, opts, lines, |lines|).ended <==> ReachesLast(rev, FlowOf(rev, opts, lines[|lines|-1]))
  {
  }

  /** After any prefix of lines, `recordsCount` counts the record lines
      written. */
  lemma {:induction false} ScanCountsRecords(rev: Revision, opts: Options, lines: seq<Line>, k: nat)
    requires k <= |lines|
    ensures Scan(rev, opts, lines, k).recordsCount == RecordLines(rev, opts, lines[..k])
  {
    if k > 0 {
      ScanCountsRecords(rev, opts, lines, k - 1);
      PrefixStep(lines, k);
      OnLineEffect(rev, opts, Scan(rev, opts, lines, k - 1), lines[k - 1], k == |lines|);
    }
  }

  /** After any prefix of lines, `inventoriesCount` counts the header
      lines. */
  lemma {:induction false} ScanCountsHeaders(rev: Revision, opts: Options, lines: seq<Line>, k: nat)
    requires k <= |lines|
    ensures Scan(rev, opts, lines, k).inventoriesCount == HeaderLines(lines[..k])
  {
    if k > 0 {
      ScanCountsHeaders(rev, opts, lines, k - 1);
      PrefixStep(lines, k);
      OnLineEffect(rev, opts, Scan(rev, opts, lines, k - 1), lines[k - 1], k == |lines|);
    }
  }

  /** After any prefix of lines, a list is open exactly when a header line
      has been seen, and the promise is rejected exactly when a line failed
      to parse. */
  lemma {:induction false} ScanFlagsLines(rev: Revision, opts: Options, lines: seq<Line>, k: nat)
    requires k <= |lines|
    ensures Scan(rev, opts, lines, k).listOpen <==> HeaderLines(lines[..k]) > 0
    ensures Scan(rev, opts, lines, k).rejected <==> MalformedLines(lines[..k]) > 0
  {
    if k > 0 {
      ScanFlagsLines(rev, opts, lines, k - 1);
      PrefixStep(lines, k);
      OnLineEffect(rev, opts, Scan(rev, opts, lines, k - 1), lines[k - 1], k == |lines|);
    }
  }

  /** Both of the above. */
  lemma ScanFollowsLines(rev: Revision, opts: Options, lines: seq<Line>, k: nat)
    requires k <= |lines|
    ensures Scan(rev, opts, lines, k).recordsCount == RecordLines(rev, opts, lines[..k])
    ensures Scan(rev, opts, lines, k).inventoriesCount == HeaderLines(lines[..k])
    ensures Scan(rev, opts, lines, k).listOpen <==> HeaderLines(lines[..k]) > 0
    ensures Scan(rev, opts, lines, k).rejected <==> MalformedLines(lines[..k]) > 0
  {
    ScanCountsRecords(rev, opts, lines, k);
    ScanCountsHeaders(rev, opts, lines, k);
    ScanFlagsLines(rev, opts, lines, k);
  }

  /** When toSFCC resolves, its counts are those of the record lines written
      and of the header lines, and the document holds exactly as many
      `record` and `inventory-list` elements. */
  lemma CountsMatchLinesAndDocument(rev: Revision, sourceExists: bool, targetExists: bool, opts: Options, lines: seq<Line>)
    requires Translate(rev, sourceExists, targetExists, opts, lines).settlement.Resolved?
    ensures Translate(rev, sourceExists, targetExists, opts, lines).settlement.counts
            == Counts(RecordLines(rev, opts, lines), HeaderLines(lines))
    ensures Translate(rev, sourceExists, targetExists, opts, lines).target.Written?
    ensures Opens(Translate(rev, sourceExists, targetExists, opts, lines).target.content, "record")
            == RecordLines(rev, opts, lines)
    ensures Opens(Translate(rev, sourceExists, targetExists, opts, lines).target.content, "inventory-list")
            == HeaderLines(lines)
  {
    ScanFollowsLines(rev, opts, lines, |lines|);
    ScanCountsElements(rev, opts, lines, |lines|);
    assert lines[..|lines|] == lines;
  }

  /** Nothing is opened or written when a file check fails. */
  lemma PrecheckFailureWritesNothing(rev: Revision, sourceExists: bool, targetExists: bool, opts: Options, lines: seq<Line>)
    requires !sourceExists || (targetExists && !opts.override)
    ensures Translate(rev, sourceExists, targetExists, opts, lines).target == Untouched
    ensures Translate(rev, sourceExists, targetExists, opts, lines).settlement
            == Rejected(if !sourceExists then SourceMissing else TargetExists)
  {
  }

  /** In either revision, when the last line's body reaches the closing run
      the document ends balanced and the promise settles. */
  lemma LastLineClosesDocument(rev: Revision, sourceExists: bool, targetExists: bool, opts: Options, lines: seq<Line>)
    requires sourceExists && (!targetExists || opts.override)
    requires |lines| > 0 && ReachesLast(rev, FlowOf(rev, opts, lines[|lines|-1]))
    ensures Translate(rev, sourceExists, targetExists, opts, lines).target.Written?
    ensures Balanced(Translate(rev, sourceExists, targetExists, opts, lines).target.content)
    ensures Translate(rev, sourceExists, targetExists, opts, lines).settlement != Pending
  {
    ScanEnds(rev, opts, lines);
    ScanConsistent(rev, opts, lines, |lines|);
  }

  /** With the correction, any non-empty input whose last line parses ends in
      a balanced document, and the promise settles: resolved, or rejected
      when some line failed to parse. */
  lemma CorrectedClosesDocument(sourceExists: bool, targetExists: bool, opts: Options, lines: seq<Line>)
    requires sourceExists && (!targetExists || opts.override)
    requires |lines| > 0 && !lines[|lines|-1].Unparsable?
    ensures Translate(Corrected, sourceExists, targetExists, opts, lines).target.Written?
    ensures Balanced(Translate(Corrected, sourceExists, targetExists, opts, lines).target.content)
    ensures Translate(Corrected, sourceExists, targetExists, opts, lines).settlement != Pending
  {
    var k := |lines|;
    var prev := Scan(Corrected, opts, lines, k - 1);
    ScanConsistent(Corrected, opts, lines, k - 1);
    HandleKeeps(Corrected, opts, prev, lines[k - 1]);
    FinishBalances(Handle(Corrected, opts, prev, lines[k - 1]).0);
  }

  /** As written, a record dropped on the last line returns before the
      closing run: the root, and the open list if any, are never closed, and
      unless some line failed to parse the promise never settles. */
  lemma AsWrittenDroppedLastLineLeavesDocumentOpen(sourceExists: bool, targetExists: bool, opts: Options, lines: seq<Line>)
    requires sourceExists && (!targetExists || opts.override)
    requires |lines| > 0
    requires lines[|lines|-1].Parsed?
    requires !IsHeader(lines[|lines|-1].obj) && Truthy(lines[|lines|-1].obj.sku)
    requires !WritesRecord(AsWritten, opts, lines[|lines|-1])
    ensures Translate(AsWritten, sourceExists, targetExists, opts, lines).target.Written?
    ensures !Balanced(Translate(AsWritten, sourceExists, targetExists, opts, lines).target.content)
    ensures MalformedLines(lines) == 0 ==> Translate(AsWritten, sourceExists, targetExists, opts, lines).settlement == Pending
  {
    var k := |lines|;
    ScanEnds(AsWritten, opts, lines);
    ScanFlagsLines(AsWritten, opts, lines, k);
    ScanConsistent(AsWritten, opts, lines, k);
    assert lines[..k] == lines;
  }

  /** The smallest input showing it: a location header then a record without
      `onHand`. */
  lemma AsWrittenExample()
    ensures var header := Parsed(FlatObject(None, Some("loc1"), None, None, None, None, None, None));
            var record := Parsed(FlatObject(None, None, Some("A1"), None, None, None, None, None));
            var run := Translate(AsWritten, true, false, Options(false, false), [header, record]);
            run.settlement == Pending && run.target.Written? && !Balanced(run.target.content)
  {
    var header := Parsed(FlatObject(None, Some("loc1"), None, None, None, None, None, None));
    var record := Parsed(FlatObject(None, None, Some("A1"), None, None, None, None, None));
    var lines := [header, record];
    assert MalformedLines(lines[..1]) == 0;
    assert MalformedLines(lines) == 0;
    AsWrittenDroppedLastLineLeavesDocumentOpen(true, false, Options(false, false), lines);
  }

  /** As written, `skipout` changes nothing: a record with `onHand` 0 is
      never written, with or without it. */
  lemma AsWrittenSkipOutHasNoEffect(line: Line, override: bool)
    ensures WritesRecord(AsWritten, Options(true, override), line) == WritesRecord(AsWritten, Options(false, override), line)
    ensures line.Parsed? && line.obj.onHand == Some(0) ==> !WritesRecord(AsWritten, Options(false, override), line)
  {
  }

  /** With the correction, a record line with `onHand` 0 is written exactly
      when `skipout` is off; a missing `onHand` is dropped either way. */
  lemma CorrectedSkipPolicy(opts: Options, o: FlatObject)
    requires !IsHeader(o) && Truthy(o.sku)
    ensures o.onHand == Some(0) ==> (WritesRecord(Corrected, opts, Parsed(o)) <==> !opts.skipOut)
    ensures o.onHand.None? ==> !WritesRecord(Corrected, opts, Parsed(o))
    ensures o.onHand.Some? && o.onHand.value != 0 ==> WritesRecord(Corrected, opts, Parsed(o))
  {
  }

  /** A header line opens a list even when it also carries a `sku`: it
      counts one inventory, writes no record, and appends the closing of any
      open list, then a new list whose `header` element carries the line's
      `groupId || locationId` as list id and its description, then, on the
      last line, the closing of that list and of the root. */
  lemma HeaderLineWinsOverRecord(rev: Revision, opts: Options, st: State, o: FlatObject, last: bool)
    requires Inv(st) && !st.ended && IsHeader(o)
    ensures OnLine(rev, opts, st, Parsed(o), last).inventoriesCount == st.inventoriesCount + 1
    ensures OnLine(rev, opts, st, Parsed(o), last).recordsCount == st.recordsCount
    ensures OnLine(rev, opts, st, Parsed(o), last).writer.tokens
            == st.writer.tokens + Closes(st.listOpen) + ListOpening(HeaderId(o), Description(o))
               + (if last then [Close, Close, Close] else [])
  {
    var r := OpenList(st, o);
    if last {
      assert Closes(r.listOpen) + [Close] == [Close, Close, Close];
    } else {
      assert r.writer.tokens + [] == r.writer.tokens;
    }
  }

  /** A line that is neither a header nor a record, and an empty line,
      change nothing but still let the last line close the document. */
  lemma IgnoredLineOnlyCloses(rev: Revision, opts: Options, st: State, line: Line, last: bool)
    requires Inv(st) && !st.ended
    requires line.Blank? || (line.Parsed? && !IsHeader(line.obj) && !Truthy(line.obj.sku))
    ensures OnLine(rev, opts, st, line, last) == if last then Finish(st) else st
  {
  }
}
