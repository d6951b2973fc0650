/** The content of a "Range" or "Other Range" cell: nothing for the id 0,
    plain text for the range the page is about, and a link to the range's
    report page for any other range. */
module RangeRef {
  import opened Wrappers
  import opened Decimal

  datatype Cell = Empty | Plain(text: string) | Link(href: string, text: string)

  const RANGE_REPORT_PREFIX: string := "#/reports/range/"

  /** `r<id>`: the text shown for a range, linked or not. */
  function RangeLabel(id: nat): string {
    Tagged('r', id)
  }

  /** `#/reports/range/<id>`: the address of a range's report page. */
  function RangeHref(id: nat): (s: string)
    ensures |s| > |RANGE_REPORT_PREFIX| && s[..|RANGE_REPORT_PREFIX|] == RANGE_REPORT_PREFIX
    ensures ParseNat(s[|RANGE_REPORT_PREFIX|..]) == Some(id)
  {
    ParsePrinted(id);
    assert (RANGE_REPORT_PREFIX + NatToString(id))[|RANGE_REPORT_PREFIX|..] == NatToString(id);
    RANGE_REPORT_PREFIX + NatToString(id)
  }

  /** `renderRangeID(id)` with the page's own range id `current`. Id 0 is the
      "no range" sentinel; equality is checked only against `current`. */
  function RenderRangeID(id: nat, current: nat): (c: Cell)
    ensures c.Empty? <==> id == 0
    ensures c.Plain? <==> id != 0 && id == current
    ensures c.Link? <==> id != 0 && id != current
    ensures !c.Empty? ==> c.text == RangeLabel(id)
    ensures c.Link? ==> c.href == RangeHref(id)
  {
    if id == 0 then Empty
    else if current == id then Plain(RangeLabel(id))
    else Link(RangeHref(id), RangeLabel(id))
  }

  /** Reads the range id a cell shows; an empty cell reads as 0. A text that
      is not `r` followed by a numeral, or a link whose address disagrees
      with its text, is rejected. */
  function ReadRangeCell(c: Cell): Option<nat> {
    match c
    case Empty => Some(0)
    case Plain(text) => ParseRangeLabel(text)
    case Link(href, text) =>
      if ParseRangeLabel(text).Some? && href == RANGE_REPORT_PREFIX + text[1..]
      then ParseRangeLabel(text) else None
  }

  function ParseRangeLabel(text: string): (r: Option<nat>)
    ensures r.Some? ==> text == RangeLabel(r.value)
  {
    if |text| > 0 && text[0] == 'r' then
      match ParseNat(text[1..])
      case Some(n) =>
        PrintParsed(text[1..], n);
        assert text == ['r'] + text[1..];
        Some(n)
      case None => None
    else None
  }

  /** Every cell is read back as the id it was rendered from, whatever the
      current range is. */
  lemma ReadRenderedCell(id: nat, current: nat)
    ensures ReadRangeCell(RenderRangeID(id, current)) == Some(id)
  {
    if id != 0 {
      var l := RangeLabel(id);
      assert l == ['r'] + NatToString(id);
      assert l[1..] == NatToString(id);
      ParsePrinted(id);
    }
  }

  /** The current range only decides whether the cell is a link: the text is
      the same for every choice of current range. */
  lemma LabelIgnoresCurrent(id: nat, current1: nat, current2: nat)
    requires id != 0
    ensures RenderRangeID(id, current1).text == RenderRangeID(id, current2).text
  {
  }

  /** Two non-empty cells with the same text were rendered from the same id. */
  lemma RenderRangeIDInjective(id1: nat, id2: nat, current: nat)
    requires id1 != 0 && id2 != 0
    requires RenderRangeID(id1, current).text == RenderRangeID(id2, current).text
    ensures id1 == id2
  {
    ReadRenderedCell(id1, current);
    ReadRenderedCell(id2, current);
  }
}
