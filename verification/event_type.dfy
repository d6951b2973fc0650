/** Labels for the storage layer's range-log event types. The event type
    arrives as the numeric value of a protobuf enum; codes outside the three
    known ones (later additions, corrupted data) fall back to "Unknown". */
module EventType {
  import opened Wrappers

  /** Values of the storage layer's `RangeLogEventType` enum. */
  const SPLIT: int := 0
  const ADD: int := 1
  const REMOVE: int := 2

  const UNKNOWN_LABEL: string := "Unknown"

  predicate IsKnown(code: int) {
    code == SPLIT || code == ADD || code == REMOVE
  }

  /** `printLogEventType`: total over every code, never fails. */
  function PrintLogEventType(code: int): (name: string)
    ensures name in {"Add", "Remove", "Split", "Unknown"}
    ensures name == UNKNOWN_LABEL <==> !IsKnown(code)
  {
    if code == ADD then "Add"
    else if code == REMOVE then "Remove"
    else if code == SPLIT then "Split"
    else UNKNOWN_LABEL
  }

  /** Reads a name back to the code it names; "Unknown" names no code. */
  function ParseLogEventType(name: string): (r: Option<int>)
    ensures r.Some? ==> IsKnown(r.value)
  {
    if name == "Add" then Some(ADD)
    else if name == "Remove" then Some(REMOVE)
    else if name == "Split" then Some(SPLIT)
    else None
  }

  /** Every known code is recovered from its name, and an unknown code's
      name recovers nothing. */
  lemma LabelRoundTrip(code: int)
    ensures IsKnown(code) ==> ParseLogEventType(PrintLogEventType(code)) == Some(code)
    ensures !IsKnown(code) ==> ParseLogEventType(PrintLogEventType(code)) == None
  {
  }

  /** Two known codes share a name only if they are the same code. */
  lemma KnownLabelsDistinct(a: int, b: int)
    requires IsKnown(a) && IsKnown(b)
    requires PrintLogEventType(a) == PrintLogEventType(b)
    ensures a == b
  {
    LabelRoundTrip(a);
    LabelRoundTrip(b);
  }
}
