# Range log table

A Dafny model of the range log table of CockroachDB's admin UI. The table shows the audit trail of one range: the splits, replica additions and replica removals recorded by the storage layer. The model keeps the table's logic and drops its React rendering:

- **Event-type labels** (`EventType`). A numeric `RangeLogEventType` code becomes "Add", "Remove" or "Split". Every other code becomes "Unknown".
- **Range cells** (`RangeRef`). A range id becomes a cell: `Empty` for the sentinel 0, `Plain("r<id>")` for the page's own range, and `Link("#/reports/range/<id>", "r<id>")` for any other range.
- **Info lists** (`LogInfo`). The six optional pretty-info fields become "Title: value" lines (`LogInfo.EntryText`). The order is fixed and empty fields are left out.
- **Event ordering** (`OrderBy`). This models lodash's `_.orderBy(..., "desc")` for one integer key. It is a stable insertion sort, proved to be sorted, a permutation and stable. It is also the *only* sorted, stable arrangement, so any correct implementation of `_.orderBy` gives the same sequence.
- **Rows and outer state** (`LogTable`). Each sorted event becomes one row: store label `s<id>`, event label, two range cells checked against the same current range id, and the info list. The view is chosen in this order: the error, then the loading state while the log is absent, then the table with its fixed six-column header.
- **Decimal numerals** (`Decimal`). `toString()` of a non-negative id, with its parser. The labels and addresses above are built from it, so rows can be read back into the events they came from.
- `Seqs` and `Wrappers` are small helpers: mapping over sequences, and `Option`.

Two external conversions are passed in as function parameters:

- `millis` stands for `TimestampToMoment(ts).valueOf()`, a whole-millisecond count. Events within the same millisecond therefore tie, and the sort keeps their input order.
- `format` stands for `Print.Timestamp`.

Two details of the code:

- The loading state is chosen when the whole `log` is nil. A present log with no events gives a ready table with no rows: `_.isNil(log)` is false and `_.orderBy` returns `[]` for an empty or absent list.
- The error check is lodash's `_.isEmpty(lastError)`. Its consequence is under Findings.

## Model

| member | source | states |
|---|---|---|
| EventType.PrintLogEventType | pkg/ui/src/views/reports/containers/range/logTable.tsx:19-26 | every code gets one of the four labels; the label is "Unknown" exactly when the code is not add, remove or split |
| EventType.LabelRoundTrip | pkg/ui/src/views/reports/containers/range/logTable.tsx:19-26 | the label of a known code is read back as that code; the label of any other code reads back as no code |
| EventType.KnownLabelsDistinct | pkg/ui/src/views/reports/containers/range/logTable.tsx:21-23 | the three known codes have three different labels |
| Decimal.NatToString | pkg/ui/src/views/reports/containers/range/logTable.tsx:38 | an id prints as a canonical numeral: non-empty, all digits, no leading zero |
| Decimal.ParsePrinted | pkg/ui/src/views/reports/containers/range/logTable.tsx:38 | parsing a printed id gives back the id |
| Decimal.PrintParsed | pkg/ui/src/views/reports/containers/range/logTable.tsx:38 | printing a parsed numeral gives back the numeral |
| Decimal.NatToStringInjective | pkg/ui/src/views/reports/containers/range/logTable.tsx:38 | different ids print differently |
| Decimal.Tagged | pkg/ui/src/views/reports/containers/range/logTable.tsx:38 | a tag letter followed by a numeral: the text starts with the tag and the rest parses back to the id (`r<id>` for ranges, `s<id>` for stores) |
| RangeRef.RangeHref | pkg/ui/src/views/reports/containers/range/logTable.tsx:42 | the address starts with `#/reports/range/` and the rest parses back to the id |
| RangeRef.RenderRangeID | pkg/ui/src/views/reports/containers/range/logTable.tsx:29-46 | id 0 gives an empty cell whatever the current range; a nonzero id equal to the current range gives plain text `r<id>`; any other id gives a link to `#/reports/range/<id>` labelled `r<id>` |
| RangeRef.ReadRenderedCell | pkg/ui/src/views/reports/containers/range/logTable.tsx:29-46 | whatever the current range, reading the cell back gives the id it was rendered from, with 0 for the empty cell |
| RangeRef.LabelIgnoresCurrent | pkg/ui/src/views/reports/containers/range/logTable.tsx:37-44 | the current range decides only whether the cell is a link, never its text |
| RangeRef.RenderRangeIDInjective | pkg/ui/src/views/reports/containers/range/logTable.tsx:37-44 | two non-empty cells with the same text come from the same id |
| LogInfo.TitleInjective | pkg/ui/src/views/reports/containers/range/logTable.tsx:64-69 | the six titles are pairwise different, so a line's title names its field |
| LogInfo.RenderLogInfoDescriptor | pkg/ui/src/views/reports/containers/range/logTable.tsx:48-59 | an empty value gives no line; any other value gives exactly one line with that title and value |
| LogInfo.RenderLogInfo | pkg/ui/src/views/reports/containers/range/logTable.tsx:61-72 | at most six lines, each with a non-empty value equal to the field it names |
| LogInfo.RenderLogInfoInOrder | pkg/ui/src/views/reports/containers/range/logTable.tsx:61-72 | the lines follow the order Updated Range Descriptor, New Range Descriptor, Added Replica, Removed Replica, Reason, Details |
| LogInfo.RenderLogInfoComplete | pkg/ui/src/views/reports/containers/range/logTable.tsx:61-72 | a field has a line if and only if it is non-empty |
| LogInfo.InfoRoundTrip | pkg/ui/src/views/reports/containers/range/logTable.tsx:61-72 | reading the lines back gives the whole pretty info, so dropping empty fields loses nothing |
| LogInfo.NoInfoRendersNothing | pkg/ui/src/views/reports/containers/range/logTable.tsx:61-72 | with all six fields empty the list is empty |
| LogInfo.ReasonOnly | pkg/ui/src/views/reports/containers/range/logTable.tsx:68 | with only the reason set the list is exactly `[("Reason", reason)]` |
| OrderBy.Insert | pkg/ui/src/views/reports/containers/range/logTable.tsx:87-88 | inserting into a sorted sequence keeps it sorted and adds exactly that one element |
| OrderBy.OrderByDesc | pkg/ui/src/views/reports/containers/range/logTable.tsx:87-88 | the result has the input's length and multiset and is non-increasing in the key |
| OrderBy.OrderByDescStable | pkg/ui/src/views/reports/containers/range/logTable.tsx:87-88 | for every key, the elements with that key keep their input order |
| OrderBy.SortedWithSameTiesEqual | pkg/ui/src/views/reports/containers/range/logTable.tsx:87-88 | two sorted sequences that order each key's elements the same way are equal |
| OrderBy.OrderByDescUnique | pkg/ui/src/views/reports/containers/range/logTable.tsx:87-88 | any sorted sequence that keeps the input's tie order is the sort's result |
| LogTable.SequenceEvents | pkg/ui/src/views/reports/containers/range/logTable.tsx:87-88 | an absent log gives no events; a present log gives its events rearranged, newest first |
| LogTable.SequenceEventsStable | pkg/ui/src/views/reports/containers/range/logTable.tsx:87-88 | events with equal millisecond keys keep their order in the response |
| LogTable.RenderRow | pkg/ui/src/views/reports/containers/range/logTable.tsx:109-121 | the timestamp cell is the formatted timestamp; the store cell is 's' followed by a numeral that parses back to the store id; the event-type cell is `PrintLogEventType` of the code; the range and other-range cells are `RenderRangeID` of the two ids against the same current id (plain exactly when the id is nonzero and equal to it, empty exactly for id 0); the info cell is `RenderLogInfo` of the pretty info |
| LogTable.Render | pkg/ui/src/views/reports/containers/range/logTable.tsx:74-129 | with the corrected error check: the error view exactly when an error is present, carrying that error; the loading view exactly when there is no error and no log; otherwise the six-column header and one row per event |
| LogTable.ReadyRowsAreSortedEvents | pkg/ui/src/views/reports/containers/range/logTable.tsx:87-123 | in the ready state, row i renders the i-th sorted event, and the rows' timestamps do not increase |
| LogTable.RowRoundTrip | pkg/ui/src/views/reports/containers/range/logTable.tsx:110-121 | from a row one reads back the event's store id, known event type, both range ids and its whole pretty info |
| LogTable.ReadyRowsCoverEvents | pkg/ui/src/views/reports/containers/range/logTable.tsx:87-123 | reading the ready table's rows back gives every fetched event exactly once, rearranged |
| LogTable.RenderAsWritten | pkg/ui/src/views/reports/containers/range/logTable.tsx:77-107 | as written, the error view is shown exactly when lodash finds the error value non-empty, and carries that error; otherwise the view is what it would be with no error at all: loading while the log is absent, then the table |
| LogTable.AsWrittenIgnoresPlainErrors | pkg/ui/src/views/reports/containers/range/logTable.tsx:77 | as written, an error with no enumerable own properties renders as if there were no error; the corrected render shows it |
| LogTable.AsWrittenTimeoutKeepsLoading | pkg/ui/src/views/reports/containers/range/logTable.tsx:77-97 | as written, `new Error("timeout")` with no log gives the loading view; the corrected render gives the error view |
| LogTable.ExampleOrder | pkg/ui/src/views/reports/containers/range/logTable.tsx:87-88 | the later of two events comes first |
| LogTable.ExampleAddRow | pkg/ui/src/views/reports/containers/range/logTable.tsx:109-121 | an add on range 5 by store 2 with no other range renders as `s2`, `Add`, plain `r5`, empty, no info |
| LogTable.ExampleSplitRow | pkg/ui/src/views/reports/containers/range/logTable.tsx:109-121 | a split of range 5 into 6 by store 1 with reason "manual" renders as `s1`, `Split`, plain `r5`, a link to range 6, and one Reason line |
| LogTable.ExampleTwoEvents | pkg/ui/src/views/reports/containers/range/logTable.tsx:74-129 | the whole ready view for those two events on range 5's page: header, then the add row, then the split row |

## Left out

- React and JSX element construction, CSS class names, the row `key` attribute, the "Range Log" heading, the spinner asset and the `Loading` component are not modelled. The view is the abstract `View` value.
- `Print.Timestamp` and `TimestampToMoment` come from other files and are not part of this model. They are the parameters `format` and `millis`. When the timestamp is missing, `TimestampToMoment` reads the clock; that case is not modelled. So are invalid (NaN) sort keys.
- `FixLong` and the 64-bit `Long` type come from other files and are not part of this model. Range ids are `nat`, `Long.eq` is equality, and `toString()` is `Decimal.NatToString`. Negative ids are not modelled.
- `store_id` is modelled as `nat`, so negative store ids are not covered.
- The generated protobuf types and the fetch that supplies `log` and `lastError` are not part of this model. They are inputs.
- The numbers of the storage layer's `RangeLogEventType` enum (split 0, add 1, remove 2) come from a protobuf file that is not part of this model. No proof depends on them except that they are distinct.
- An absent (`null`/`undefined`) pretty-info field is the empty string. `_.isEmpty` treats both the same way.
- An absent `events` list inside a present log is the empty sequence. `_.orderBy` also returns `[]` for it.
- An event with no `pretty_info`, or with no inner `event` record, would make the code fail on a property access: `renderLogInfo` reads the pretty info, and the sort key and the cells read `event.event`. The model always has both records.
- `lastError` is modelled only as its set of enumerable own property names, which is all `_.isEmpty` looks at, and its message, which is kept for the error view. The error banner's text, and how React renders an `Error` object, are not modelled.
- lodash's own sorting algorithm is not modelled. An insertion sort stands in for it. `OrderBy.OrderByDescUnique` shows that any sorted, stable result equals it.

## Findings

| source | as written | input that shows it | evidently intended | confidence | as-written member | corrected member |
|---|---|---|---|---|---|---|
| pkg/ui/src/views/reports/containers/range/logTable.tsx:77 | The error branch is guarded by `!_.isEmpty(lastError)` and `lastError` is typed `Error`. lodash's `isEmpty` calls an object empty when it has no enumerable own properties. An `Error` made by `new Error(msg)` has none, since `message` and `stack` are not enumerable. | `lastError = new Error("timeout")` with `log` absent: the spinner is shown forever instead of the error (`LogTable.AsWrittenTimeoutKeepsLoading`). With `log` present, the table is shown and the error is hidden (`LogTable.AsWrittenIgnoresPlainErrors`). | Show the error view whenever an error is present. | medium; not executed; depends on the fetch layer storing real `Error` instances | LogTable.RenderAsWritten | LogTable.Render |
