/** The range log table: sorts a batch of range-log events newest first and
    turns each into a table row, or shows the error or loading state
    instead. */
module LogTable {
  import opened Wrappers
  import opened Decimal
  import opened EventType
  import opened RangeRef
  import opened LogInfo
  import opened OrderBy
  import opened Seqs

  /** A protobuf timestamp; only the external conversions below look inside. */
  datatype Timestamp = Timestamp(seconds: int, nanos: int)

  /** One entry of the range log as the storage layer records it. An
      `otherRangeId` of 0 means there is no related range. */
  datatype RangeLogEvent = RangeLogEvent(
    timestamp: Timestamp,
    storeId: nat,
    eventType: int,
    rangeId: nat,
    otherRangeId: nat)

  /** An event of the range log response together with its pretty info. */
  datatype Event = Event(event: RangeLogEvent, prettyInfo: PrettyInfo)

  /** The fetched range log; an absent event list is the empty list. */
  datatype RangeLogResponse = RangeLogResponse(events: seq<Event>)

  /** A JavaScript error value: its message and its enumerable own property
      names (a plain `new Error(msg)` has none). */
  datatype JsError = JsError(message: string, enumerableKeys: set<string>)

  /** The table's inputs: the page's range id, the log (absent while it is
      being fetched) and the last fetch error (absent when there is none). */
  datatype LogTableProps = LogTableProps(
    rangeId: nat,
    log: Option<RangeLogResponse>,
    lastError: Option<JsError>)

  datatype Row = Row(
    timestamp: string,
    store: string,
    eventType: string,
    range: Cell,
    otherRange: Cell,
    info: seq<InfoEntry>)

  /** The three mutually exclusive things the table shows. */
  datatype View =
    | ErrorView(error: JsError)
    | LoadingView
    | ReadyView(header: seq<string>, rows: seq<Row>)

  const HEADER: seq<string> := ["Timestamp", "Store", "Event Type", "Range", "Other Range", "Info"]

  /** The sort key of an event: `millis` stands for
      `TimestampToMoment(ts).valueOf()`, a whole-millisecond count, so events
      within the same millisecond tie. */
  function EventKey(millis: Timestamp -> int): Event -> int {
    (e: Event) => millis(e.event.timestamp)
  }

  /** `_.orderBy(log && log.events, key, "desc")`. */
  function SequenceEvents(log: Option<RangeLogResponse>, millis: Timestamp -> int): (r: seq<Event>)
    ensures log.None? ==> r == []
    ensures log.Some? ==> multiset(r) == multiset(log.value.events)
    ensures SortedDesc(r, EventKey(millis))
  {
    match log
    case None => []
    case Some(l) => OrderByDesc(l.events, EventKey(millis))
  }

  /** Events with equal timestamps keep their order in the response. */
  lemma SequenceEventsStable(l: RangeLogResponse, millis: Timestamp -> int)
    ensures KeepsTieOrder(l.events, SequenceEvents(Some(l), millis), EventKey(millis))
  {
    OrderByDescStable(l.events, EventKey(millis));
  }

  /** `s<id>`: the text of the Store cell. */
  function StoreLabel(storeId: nat): string {
    Tagged('s', storeId)
  }

  /** One table row; `format` stands for `Print.Timestamp`. Both range cells
      are rendered against the same current range id. */
  function RenderRow(e: Event, current: nat, format: Timestamp -> string): (r: Row)
    ensures r.range.Plain? <==> e.event.rangeId != 0 && e.event.rangeId == current
    ensures r.otherRange.Plain? <==> e.event.otherRangeId != 0 && e.event.otherRangeId == current
    ensures r.otherRange.Empty? <==> e.event.otherRangeId == 0
    ensures |r.store| > 1 && r.store[0] == 's' && ParseNat(r.store[1..]) == Some(e.event.storeId)
    ensures r.timestamp == format(e.event.timestamp)
    ensures r.eventType == PrintLogEventType(e.event.eventType)
    ensures r.range == RenderRangeID(e.event.rangeId, current)
    ensures r.otherRange == RenderRangeID(e.event.otherRangeId, current)
    ensures r.info == RenderLogInfo(e.prettyInfo)
  {
    Row(format(e.event.timestamp),
        StoreLabel(e.event.storeId),
        PrintLogEventType(e.event.eventType),
        RenderRangeID(e.event.rangeId, current),
        RenderRangeID(e.event.otherRangeId, current),
        RenderLogInfo(e.prettyInfo))
  }

  /** `_.map(events, ...)`: one row per event, in order. */
  function RenderRows(events: seq<Event>, current: nat, format: Timestamp -> string): (rows: seq<Row>)
    ensures |rows| == |events|
    ensures forall i :: 0 <= i < |rows| ==> rows[i] == RenderRow(events[i], current, format)
  {
    MapSeq((e: Event) => RenderRow(e, current, format), events)
  }

  /** Chooses what to show given the error to display, if any: the error
      first, then the loading state while the log is absent, then the
      table. */
  function SelectView(shownError: Option<JsError>, props: LogTableProps,
                      millis: Timestamp -> int, format: Timestamp -> string): (v: View)
  {
    if shownError.Some? then ErrorView(shownError.value)
    else
      var events := SequenceEvents(props.log, millis);
      if props.log.None? then LoadingView
      else ReadyView(HEADER, RenderRows(events, props.rangeId, format))
  }

  /** `render()`, with an error shown whenever one is present. */
  function Render(props: LogTableProps, millis: Timestamp -> int, format: Timestamp -> string): (v: View)
    ensures v.ErrorView? <==> props.lastError.Some?
    ensures props.lastError.Some? ==> v.error == props.lastError.value
    ensures v.LoadingView? <==> props.lastError.None? && props.log.None?
    ensures v.ReadyView? ==> v.header == HEADER && |v.rows| == |props.log.value.events|
  {
    SelectView(props.lastError, props, millis, format)
  }

  /** In the ready state the rows are the rendered events, newest first. */
  lemma ReadyRowsAreSortedEvents(props: LogTableProps, millis: Timestamp -> int, format: Timestamp -> string)
    requires props.lastError.None? && props.log.Some?
    ensures var v := Render(props, millis, format);
            var sorted := SequenceEvents(props.log, millis);
            && v.ReadyView?
            && |v.rows| == |sorted|
            && (forall i :: 0 <= i < |sorted| ==> v.rows[i] == RenderRow(sorted[i], props.rangeId, format))
            && (forall i, j :: 0 <= i < j < |sorted| ==> millis(sorted[i].event.timestamp) >= millis(sorted[j].event.timestamp))
  {
  }

  // Reading a row back: everything of the event except its timestamp.

  /** What a row shows of its event: the store, the event type code when it
      is a known one, both range ids and the pretty info. */
  datatype EventDigest = EventDigest(
    storeId: nat,
    knownType: Option<int>,
    rangeId: nat,
    otherRangeId: nat,
    info: PrettyInfo)

  function Digest(e: Event): EventDigest {
    EventDigest(e.event.storeId,
                if IsKnown(e.event.eventType) then Some(e.event.eventType) else None,
                e.event.rangeId, e.event.otherRangeId, e.prettyInfo)
  }

  function ParseStoreLabel(s: string): Option<nat> {
    if |s| > 0 && s[0] == 's' then ParseNat(s[1..]) else None
  }

  /** Reads a row's cells back; `None` if a cell is not in the shape the
      table renders. */
  function DecodeRow(r: Row): Option<EventDigest> {
    match (ParseStoreLabel(r.store), ReadRangeCell(r.range), ReadRangeCell(r.otherRange))
    case (Some(store), Some(range), Some(other)) =>
      Some(EventDigest(store, ParseLogEventType(r.eventType), range, other, InfoFromEntries(r.info)))
    case _ => None
  }

  /** A row loses nothing of its event but the timestamp's precision: the
      store, known event type, both range ids and the info are read back. */
  lemma RowRoundTrip(e: Event, current: nat, format: Timestamp -> string)
    ensures DecodeRow(RenderRow(e, current, format)) == Some(Digest(e))
  {
    ReadRenderedCell(e.event.rangeId, current);
    ReadRenderedCell(e.event.otherRangeId, current);
    InfoRoundTrip(e.prettyInfo);
    LabelRoundTrip(e.event.eventType);
  }

  /** The ready table shows every fetched event exactly once: reading the
      rows back gives the events' digests, rearranged. */
  lemma ReadyRowsCoverEvents(props: LogTableProps, millis: Timestamp -> int, format: Timestamp -> string)
    requires props.lastError.None? && props.log.Some?
    ensures var v := Render(props, millis, format);
            var sorted := SequenceEvents(props.log, millis);
            && v.ReadyView?
            && (forall i :: 0 <= i < |v.rows| ==> DecodeRow(v.rows[i]) == Some(Digest(sorted[i])))
            && multiset(MapSeq(Digest, sorted)) == multiset(MapSeq(Digest, props.log.value.events))
  {
    var sorted := SequenceEvents(props.log, millis);
    forall i | 0 <= i < |sorted| ensures DecodeRow(RenderRow(sorted[i], props.rangeId, format)) == Some(Digest(sorted[i])) {
      RowRoundTrip(sorted[i], props.rangeId, format);
    }
    MapPermutation(Digest, sorted, props.log.value.events);
  }

  // The error check as written: `!_.isEmpty(lastError)`.

  /** lodash's `_.isEmpty` on the error value: true for an absent value and
      for an object without enumerable own properties. */
  predicate LodashIsEmpty(e: Option<JsError>) {
    e.None? || e.value.enumerableKeys == {}
  }

  /** `render()` exactly as written: the error branch is guarded by
      `!_.isEmpty(lastError)`. */
  function RenderAsWritten(props: LogTableProps, millis: Timestamp -> int, format: Timestamp -> string): (v: View)
    ensures v.ErrorView? <==> !LodashIsEmpty(props.lastError)
    ensures v.ErrorView? ==> v.error == props.lastError.value
    ensures LodashIsEmpty(props.lastError) ==> v == Render(props.(lastError := None), millis, format)
  {
    SelectView(if LodashIsEmpty(props.lastError) then None else props.lastError, props, millis, format)
  }

  /** As written, an error without enumerable properties (every plain
      `new Error(msg)`) is ignored: the table renders as if there were no
      error. */
  lemma AsWrittenIgnoresPlainErrors(props: LogTableProps, millis: Timestamp -> int, format: Timestamp -> string)
    requires props.lastError.Some? && props.lastError.value.enumerableKeys == {}
    ensures RenderAsWritten(props, millis, format) == Render(props.(lastError := None), millis, format)
    ensures !RenderAsWritten(props, millis, format).ErrorView?
    ensures Render(props, millis, format) == ErrorView(props.lastError.value)
  {
  }

  /** A fetch that failed with `new Error("timeout")` before any log arrived
      leaves the table loading forever as written. */
  lemma AsWrittenTimeoutKeepsLoading(millis: Timestamp -> int, format: Timestamp -> string)
    ensures var props := LogTableProps(1, None, Some(JsError("timeout", {})));
            && RenderAsWritten(props, millis, format) == LoadingView
            && Render(props, millis, format) == ErrorView(JsError("timeout", {}))
  {
  }

  const T100: Timestamp := Timestamp(0, 100_000_000)
  const T200: Timestamp := Timestamp(0, 200_000_000)
  const EXAMPLE_SPLIT: Event := Event(RangeLogEvent(T100, 1, SPLIT, 5, 6), NO_INFO.(reason := "manual"))
  const EXAMPLE_ADD: Event := Event(RangeLogEvent(T200, 2, ADD, 5, 0), NO_INFO)

  lemma ExampleOrder(millis: Timestamp -> int)
    requires millis(T100) < millis(T200)
    ensures SequenceEvents(Some(RangeLogResponse([EXAMPLE_SPLIT, EXAMPLE_ADD])), millis)
            == [EXAMPLE_ADD, EXAMPLE_SPLIT]
  {
    var key := EventKey(millis);
    assert [EXAMPLE_SPLIT, EXAMPLE_ADD][1..] == [EXAMPLE_ADD];
    assert [EXAMPLE_ADD][1..] == [];
    assert OrderByDesc([EXAMPLE_ADD], key) == [EXAMPLE_ADD];
    assert OrderByDesc([EXAMPLE_SPLIT, EXAMPLE_ADD], key) == Insert(EXAMPLE_SPLIT, [EXAMPLE_ADD], key);
    assert [EXAMPLE_ADD][1..] == [];
  }

  lemma ExampleAddRow(format: Timestamp -> string)
    ensures RenderRow(EXAMPLE_ADD, 5, format) == Row(format(T200), "s2", "Add", Plain("r5"), Empty, [])
  {
    assert NatToString(2) == "2" && NatToString(5) == "5";
  }

  lemma ExampleSplitRow(format: Timestamp -> string)
    ensures RenderRow(EXAMPLE_SPLIT, 5, format)
            == Row(format(T100), "s1", "Split", Plain("r5"), Link("#/reports/range/6", "r6"),
                   [InfoEntry(Reason, "manual")])
  {
    assert NatToString(1) == "1" && NatToString(5) == "5" && NatToString(6) == "6";
    ReasonOnly("manual");
  }

  /** The end-to-end example: on the page of range 5, a split into range 6
      with reason "manual" and a later replica add show the add first, both
      range cells as plain "r5", and range 6 as a link. */
  lemma ExampleTwoEvents(millis: Timestamp -> int, format: Timestamp -> string)
    requires millis(T100) < millis(T200)
    ensures Render(LogTableProps(5, Some(RangeLogResponse([EXAMPLE_SPLIT, EXAMPLE_ADD])), None), millis, format)
            == ReadyView(HEADER, [
                 Row(format(T200), "s2", "Add", Plain("r5"), Empty, []),
                 Row(format(T100), "s1", "Split", Plain("r5"),
                     Link("#/reports/range/6", "r6"), [InfoEntry(Reason, "manual")])])
  {
    ExampleOrder(millis);
    ExampleAddRow(format);
    ExampleSplitRow(format);
  }
}
