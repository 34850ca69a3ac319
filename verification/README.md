# SFCC ⇄ OCI inventory translator, modelled in Dafny

This project models the translation engine of `src/translator.js`, which holds two single-pass translators.

- **toOCI** turns an SFCC inventory XML file into an OCI NDJSON file.
  - The XML reader's `header` and `record` events become a sequence of `XmlEvent`s. toOCI is a fold over that sequence.
  - The fold's state holds the location in scope, the SKU map, the two counters and whether the promise was rejected.
  - At the reader's `end` event, the SKU map is written out group after group.
  - The SKU map is a JavaScript `Map`. It is modelled as a sequence of `SkuGroup`s in key-insertion order (module `SkuMap`).
  - Its reference is the plain arrival sequence of kept records (`ToOci.Arrivals`).
- **toSFCC** turns an OCI NDJSON file into an SFCC inventory XML document.
  - The line reader's callback becomes a fold over the lines, with the final line flagged `last`.
  - The XML writer is modelled in module `XmlWriter`. It is a stack of open elements plus the token stream it has emitted: `Open`, `Leaf`, `Close` and the declaration.
  - Its reference is `Replay`, the open elements computed from the tokens alone.
  - The `inventoryListOpened` flag, the counters, the rejection flag and an `ended` flag complete the state.
  - The promise either resolves, is rejected, or stays `Pending`.
  - The handler is parameterised by a `Revision`. `AsWritten` follows the code as it stands. `Corrected` repairs the two defects listed under Findings, and nothing else.
- **RoundTrip** feeds the records toOCI writes back into toSFCC.

Both translators first make the same two file checks (`Common.Precheck`). These are modelled as booleans about the file system.

External inputs become parameters:
- the clock reading stamped on a record without a timestamp (`Env.now`);
- the `in-stock-date` to ISO-8601 conversion (`Env.toIso`).

The UUID of each availability record becomes its ordinal among the kept records (`recordId`).

Facts about the code that are easy to miss:
- toOCI writes no header line. Each record line carries its own `locationId` (`ToOci.Build`).
- toSFCC writes `preorder-backorder-handling` as `none` only for a present, empty `futures` array. An absent `futures` gives `backorder` (`ToSfcc.RecordBaseContent`).
- toSFCC drops a record with `onHand` 0 even without `skipout`. The code's own text points the other way: the drop test logs "undefined allocation" (src/translator.js:197), the `--skipout` option is described as "Skip out-of-stock products." (cli.js:28), and toOCI drops a zero allocation only under `skipout` (src/translator.js:68, 75). See Findings.
- Translating XML to NDJSON and back does not preserve records. Each toOCI line has a `locationId`, so toSFCC reads it as a header (`RoundTrip.RecordsComeBackAsHeaders`).

## Model

| member | source | states |
|---|---|---|
| Common.Precheck | src/translator.js:20-28 | The run goes ahead exactly when the source exists and the target is absent or `override` is set. A missing source is reported first, then an existing target. toSFCC makes the same checks at lines 141-149. |
| ToOci.LocationOf | src/translator.js:53 | A header sets a location exactly when its `list-id` is present and non-empty, and then the location is that `list-id`. |
| ToOci.ExpectedDate | src/translator.js:94-99 | The future's date is `in-stock-datetime` when that is truthy. Otherwise it is the converted `in-stock-date` when that is truthy. Otherwise it is left undefined. |
| ToOci.Build | src/translator.js:82-104 | A kept record has sku = product-id, locationId = the location in scope, onHand = the allocation, and safetyStockCount = `safetyStock` or 0. Its effectiveDate is the timestamp, or "now" when that is missing. `futures` is present iff the handling is present and not `none`, and then holds exactly one entry: the backorder allocation with the expected date. |
| ToOci.ScanTracksLocation | src/translator.js:37-54 | After any prefix of events, the location in scope is the one set by the last header. |
| ToOci.ScanCountsHeaders | src/translator.js:54 | `inventoriesCount` is the number of header events. |
| ToOci.ScanGroupsArrivals | src/translator.js:82-108 | The SKU map after any prefix is the grouping of the records kept so far, and `recordsCount` is their number. |
| ToOci.ScanRejectsOrphans | src/translator.js:63-66 | The promise is rejected after a prefix exactly when some record of it met no location in scope. |
| ToOci.PrecheckFailureWritesNothing | src/translator.js:20-28 | When a check fails, the target is untouched and the rejection names that check. |
| ToOci.RejectsOrphanRecords | src/translator.js:53-68 | toOCI rejects with NoLocation exactly when some record event comes before any header, or after a header with an empty `list-id` and before the next header. This holds whether or not the record would have been dropped, and it is the only rejection once the file checks pass. |
| ToOci.CountsWhatItWrites | src/translator.js:54-131 | When no record is orphaned, the promise resolves. `recordsCount` is then the number of records written and `inventoriesCount` the number of header events. |
| ToOci.WritesGroupedArrivals | src/translator.js:42-121 | The file holds the kept records, each as often as it was kept. Equal SKUs are adjacent, SKUs come in first-seen order, and each SKU's records keep their arrival order. This holds even when the promise is rejected. |
| ToOci.ArrivalsAreWellFormed | src/translator.js:75-92 | Every kept record has a non-empty location, the run's safety stock and a distinct id. Under `skipout`, no kept record has a zero allocation. |
| ToOci.ArrivalsComeFromEvents | src/translator.js:62-107 | Every kept record is the one built from a record event that had a location in scope and an allocation, and that was not skipped under `skipout`. |
| ToOci.DroppedRecordChangesNothing | src/translator.js:68-80 | A record with no allocation, or with a zero allocation under `skipout`, changes neither the map nor the counters. |
| SkuMap.Put | src/translator.js:83-107 | Putting a record keeps the key order, or appends its SKU when new. Only that SKU's list changes, by the record at its end. A valid map stays valid. |
| SkuMap.Group | src/translator.js:42-107 | The map built from a record sequence is valid. Its keys are the SKUs in first-seen order, and each key's list is the records with that SKU in arrival order. |
| SkuMap.GroupedIsPermutation | src/translator.js:112-121 | Writing the map out yields a permutation of the records put in. |
| SkuMap.GroupedIsContiguous | src/translator.js:112-121 | Writing the map out puts equal SKUs in one contiguous run. |
| SkuMap.GroupedFollowsFirstSeen | src/translator.js:112-121 | Writing the map out gives the SKUs in first-seen order. |
| SkuMap.GroupedKeepsArrivalOrder | src/translator.js:112-121 | Writing the map out keeps each SKU's records in arrival order. |
| XmlWriter.StartDocument | src/translator.js:163 | A new document is consistent and has no element open. |
| XmlWriter.StartKeeps | src/translator.js:164-210 | Opening an element keeps the stack equal to what the tokens replay to. |
| XmlWriter.EndKeeps | src/translator.js:176-244 | Closing an element keeps the stack equal to what the tokens replay to. |
| XmlWriter.WriteKeeps | src/translator.js:188-223 | Writing a leaf element keeps the stack equal to what the tokens replay to. |
| ToSfcc.HeaderId | src/translator.js:180 | The list id is the `groupId` when truthy, else the `locationId`, and is never empty. |
| ToSfcc.Description | src/translator.js:181-188 | The description is the list id, a space, then `group` exactly when the line has a `groupId` property. |
| ToSfcc.Reduce | src/translator.js:220 | The left fold that sums the future quantities equals its start value plus the right-fold total. |
| ToSfcc.RecordBaseContent | src/translator.js:209-216 | A written record's allocation is `onHand`, `ats` is `ato`, `stock-level` is `atf`, the timestamp is `effectiveDate`, and `perpetual` is false. The handling is `none` exactly when `futures` is present and empty, and `backorder` otherwise, including when `futures` is absent. |
| ToSfcc.RecordFutureContent | src/translator.js:218-224 | With a non-empty `futures`, the backorder allocation is the total of all quantities and the in-stock date-time is the first entry's date. Otherwise neither element is written. |
| ToSfcc.RecordOpens | src/translator.js:209-226 | A record writes exactly one `record` element and no other element. |
| ToSfcc.WriteRecord | src/translator.js:209-226 | The writer calls for a record emit exactly the record's tokens and leave the stack where it was. |
| ToSfcc.WriteRecordKeeps | src/translator.js:209-226 | Those calls keep the stack in agreement with the tokens. |
| ToSfcc.Begin | src/translator.js:151-164 | The run starts with only the root `inventory` open, no list open, and zero counters. |
| ToSfcc.CloseList | src/translator.js:173-178 | Closing an open list leaves exactly the root open, and changes nothing but the writer. |
| ToSfcc.OpenList | src/translator.js:172-193 | A header line closes any open list and opens `inventory-list`, a complete `header` and `records`. The stack is left as [inventory, inventory-list, records]. It counts one inventory. |
| ToSfcc.AddRecord | src/translator.js:209-228 | A written record adds its element, keeps the list shape and counts one record. |
| ToSfcc.Finish | src/translator.js:236-245 | The closing run closes an open list and the root, leaving no element open. The counters stay as they were. |
| ToSfcc.FinishBalances | src/translator.js:236-245 | From a consistent writer, the closing run leaves a balanced document. |
| ToSfcc.Handle | src/translator.js:168-257 | Between lines the stack is [inventory] with no list open, or [inventory, inventory-list, records] with one. The body ends with a throw for an unparsable line, a drop for a non-header line with a truthy `sku` that is not written, and otherwise runs to the end. |
| ToSfcc.HandleKeeps | src/translator.js:168-234 | The body for one line keeps the stack in agreement with the tokens. |
| ToSfcc.HandleEffect | src/translator.js:172-257 | One line adds a record exactly when it is written and an inventory exactly when it is a header. It opens a list when it is a header, and rejects when it does not parse. |
| ToSfcc.OnLine | src/translator.js:167-258 | The callback keeps the stack shape, and the document is not ended before the last line. |
| ToSfcc.Scan | src/translator.js:151-258 | After any prefix of lines, the stack has the shape the list flag says, and the document is ended only after the last line. |
| ToSfcc.ScanConsistent | src/translator.js:162-244 | After any prefix of lines, the writer's stack is exactly what its token stream replays to. |
| ToSfcc.ScanCountsElements | src/translator.js:193-228 | After any prefix of lines, `recordsCount` equals the `record` elements written and `inventoriesCount` equals the `inventory-list` elements written. |
| ToSfcc.ScanCountsRecords | src/translator.js:194-228 | After any prefix, `recordsCount` is the number of record lines written. |
| ToSfcc.ScanCountsHeaders | src/translator.js:172-193 | After any prefix, `inventoriesCount` is the number of header lines. |
| ToSfcc.ScanFlagsLines | src/translator.js:153-257 | After any prefix, a list is open exactly when a header line has been seen. The run is rejected exactly when a line failed to parse. |
| ToSfcc.ScanEnds | src/translator.js:236 | The document is ended exactly when the last line's body lets the closing run happen. |
| ToSfcc.CountsMatchLinesAndDocument | src/translator.js:193-251 | A resolved promise carries the number of written record lines and of header lines, and the document holds exactly that many `record` and `inventory-list` elements. |
| ToSfcc.PrecheckFailureWritesNothing | src/translator.js:141-157 | When a file check fails, toSFCC rejects and opens no target, and the rejection names that check. |
| ToSfcc.LastLineClosesDocument | src/translator.js:236-245 | In either revision, when the last line's body runs on to the `if (last)` block, the document ends balanced and the promise settles. |
| ToSfcc.CorrectedClosesDocument | src/translator.js:236-245 | With the correction, any non-empty input whose last line parses ends in a balanced document and a settled promise. |
| ToSfcc.AsWrittenDroppedLastLineLeavesDocumentOpen | src/translator.js:195-236 | As written, a record dropped on the last line leaves the document unbalanced. Unless some line failed to parse, the promise never settles. |
| ToSfcc.AsWrittenExample | src/translator.js:195-236 | A location header followed by a record without `onHand` leaves the document open and the promise pending. |
| ToSfcc.AsWrittenSkipOutHasNoEffect | src/translator.js:195-207 | As written, `skipout` never changes which lines are written, and a record with `onHand` 0 is never written. |
| ToSfcc.CorrectedSkipPolicy | src/translator.js:195-207 | With the correction, a record with `onHand` 0 is written exactly when `skipout` is off. A missing `onHand` is always dropped, and any other value is written. |
| ToSfcc.HeaderLineWinsOverRecord | src/translator.js:172-194 | A line with a truthy `groupId` or `locationId` is a header even when it also has a `sku`. It counts one inventory and writes no record. The tokens it appends are exactly: the closing of any open list, a new `inventory-list` whose `header` carries `groupId || locationId` as list id and its description, an open `records`, and on the last line the three closing tags. |
| ToSfcc.IgnoredLineOnlyCloses | src/translator.js:169-245 | An empty line, and a parsed line that is neither header nor record, change nothing. On the last line they still run the closing. |
| RoundTrip.WrittenRecordsHaveLocations | src/translator.js:91-115 | Whenever toOCI's file checks pass, every record in the file it writes carries a non-empty `locationId`. |
| RoundTrip.WrittenLineIsHeader | src/translator.js:115-180 | toSFCC reads such a line as a header whose list id is the record's location. |
| RoundTrip.RecordsComeBackAsHeaders | src/translator.js:113-193 | Whenever the file checks of both runs pass, with or without `override`, chaining toOCI into toSFCC gives one `inventory-list` per record and no `record` element. When the file is not empty, the promise resolves with 0 records and one inventory per record. |

## Left out

- File system and streams: `fs.existsSync` becomes two booleans. The read and write streams, the `finish` and `close` events, and byte output are not modelled. The target's content is the written sequence.
- The `xml-stream`, `line-reader` and `xml-writer` packages are not part of this model.
  - XML input is a sequence of already-extracted `header` and `record` events.
  - NDJSON input is a sequence of lines that are blank, unparsable, or parsed.
  - XML output is a token stream. The writer's text escaping, indentation and attribute serialisation are not modelled.
- `JSON.parse` and `JSON.stringify` are not modelled. A parsed line carries the properties toSFCC reads, and `Unparsable` stands for a line that throws.
  - Property values of the wrong JSON type (a string `onHand`, a `null` sku, a non-array `futures`) are not modelled.
  - `null` is treated as missing.
- ToOci.Build: a `record` element without a `product-id` attribute is not modelled. The source keys it as `undefined` in the SKU map (src/translator.js:82-83, 107) and writes it with no `sku`. In the model, `productId` is always a string.
- ToSfcc.RecordFutureContent: a future without a `quantity` property is not modelled. In the source it turns the `reduce` sum into NaN (src/translator.js:220), and NaN is written as the backorder allocation (src/translator.js:222). The model's `Future.quantity` is always an integer, so its sum is always the integer total.
- `parseInt` on non-numeric text is not modelled. A missing or empty allocation is `None`. A NaN backorder quantity is `None`, and becomes `null` (summed as 0) when toSFCC reads it back.
- JavaScript numbers are not modelled. They are doubles, so `parseInt` of an allocation above 2^53 and the `reduce` sum (src/translator.js:87, 101, 220) round. The model uses unbounded integers, which are exact there.
- `new Date().toISOString()` is evaluated once per record without a timestamp (src/translator.js:89). The model stamps every such record of a run with the one `Env.now`, so it does not model different clock readings within a run.
- `writeElement` of an undefined value is not modelled. The `xml-writer` package is not part of this model, and `Leaf(_, Undefined)` assumes it accepts an undefined `ato`, `atf`, `effectiveDate` or future `expectedDate`. If the package threw there instead, the `catch` (src/translator.js:254-257) would reject the promise and leave the `record` element open. The model does not cover that.
- `uuidv4()` is not modelled: `recordId` is the record's ordinal among the kept records, which is as distinct as a fresh UUID.
- The `in-stock-date` conversion is a parameter. Invalid dates, where the conversion throws, are not modelled.
- `process.env.DEBUG` logging is left out because it has no effect on the output.
- `cli.js` (argument parsing, dispatch, exit codes) is not part of this model. `safetyStock` is an optional integer option.
- Promise timing is not modelled. A promise is settled once, by its first reject or resolve.
  - In toOCI, a rejection does not stop the reader, so the file is still written (`ToOci.WritesGroupedArrivals` states the content in both cases).
  - In toSFCC, a line that fails to parse rejects the promise, and the remaining lines are still processed.
- An input file with no line at all is assumed never to call back, so toSFCC's promise stays `Pending`.
- ToSfcc.Description: a `groupId` of JSON `null` is read as missing. The code tests `groupId !== undefined` (src/translator.js:181), so `{"groupId": null, "locationId": "l"}` gets the description "l group", but the model writes "l location".
- ToSfcc.Scan: the element counts (`ScanCountsElements`) and the stack/token agreement (`ScanConsistent`) are proved as separate lemmas, not as part of the fold's own contract. The fold's contract states only the stack shape.

## Findings

| source | as written | input that shows it | evidently intended | confidence | as-written member | corrected member |
|---|---|---|---|---|---|---|
| src/translator.js:195-207, 236-253 | The drop branches for a record line `return` from the whole callback, so on the last line the `if (last)` block is skipped. The root and any open list are never closed, the write stream is never ended, and the promise never settles. | A location header line followed by the last line `{"sku":"A1"}` (no `onHand`). | A dropped record only skips writing that record, and the last line still closes the document and resolves the promise. | not executed; high | ToSfcc.AsWrittenDroppedLastLineLeavesDocumentOpen | ToSfcc.CorrectedClosesDocument |
| src/translator.js:195, 202 | `!parsedLine.onHand` is also true for `onHand` 0, so every zero-allocation record is dropped and the `skipout` test below it can never fire. | A record line `{"sku":"A1","onHand":0}` without `skipout`: it is dropped. | As in toOCI (src/translator.js:68, 75), only a missing allocation is always dropped, and a zero one is dropped only under `skipout`. | not executed; medium (dropping zero stock may be deliberate) | ToSfcc.AsWrittenSkipOutHasNoEffect | ToSfcc.CorrectedSkipPolicy |
