/** The "Info" cell: the descriptive fields of a range-log event, shown as a
    list of "Title: value" lines in a fixed order, leaving out the empty
    ones. */
module LogInfo {

  /** The six free-text fields of an event's pretty info. An absent field is
      the empty string. */
  datatype PrettyInfo = PrettyInfo(
    updatedDesc: string,
    newDesc: string,
    addedReplica: string,
    removedReplica: string,
    reason: string,
    details: string)

  /** Which of the six fields a list line shows. */
  datatype Field = UpdatedDesc | NewDesc | AddedReplica | RemovedReplica | Reason | Details

  /** One line of the list: the field and its value. The line shows
      `EntryText`, the field's title followed by ": " and the value. */
  datatype InfoEntry = InfoEntry(field: Field, value: string)

  /** The text of a list line, `{title}: {desc}`. */
  function EntryText(e: InfoEntry): string {
    Title(e.field) + ": " + e.value
  }

  /** The title shown in front of a field's value. */
  function Title(f: Field): (t: string)
    ensures |t| > 0
  {
    match f
    case UpdatedDesc => "Updated Range Descriptor"
    case NewDesc => "New Range Descriptor"
    case AddedReplica => "Added Replica"
    case RemovedReplica => "Removed Replica"
    case Reason => "Reason"
    case Details => "Details"
  }

  /** Display order of the fields. */
  function Slot(f: Field): (n: nat)
    ensures n < 6
  {
    match f
    case UpdatedDesc => 0
    case NewDesc => 1
    case AddedReplica => 2
    case RemovedReplica => 3
    case Reason => 4
    case Details => 5
  }

  function Get(info: PrettyInfo, f: Field): string {
    match f
    case UpdatedDesc => info.updatedDesc
    case NewDesc => info.newDesc
    case AddedReplica => info.addedReplica
    case RemovedReplica => info.removedReplica
    case Reason => info.reason
    case Details => info.details
  }

  function Set(info: PrettyInfo, f: Field, v: string): (r: PrettyInfo)
    ensures Get(r, f) == v
    ensures forall g :: g != f ==> Get(r, g) == Get(info, g)
  {
    match f
    case UpdatedDesc => info.(updatedDesc := v)
    case NewDesc => info.(newDesc := v)
    case AddedReplica => info.(addedReplica := v)
    case RemovedReplica => info.(removedReplica := v)
    case Reason => info.(reason := v)
    case Details => info.(details := v)
  }

  const NO_INFO: PrettyInfo := PrettyInfo("", "", "", "", "", "")

  /** Distinct fields have distinct titles, so a title names its field. */
  lemma TitleInjective(f: Field, g: Field)
    requires Title(f) == Title(g)
    ensures f == g
  {
    assert |Title(f)| == |Title(g)|;
  }

  /** `renderLogInfoDescriptor`: one list line, or nothing for an empty
      value (`null` renders no list item). */
  function RenderLogInfoDescriptor(f: Field, desc: string): (r: seq<InfoEntry>)
    ensures |r| == 0 <==> desc == ""
    ensures |r| <= 1
    ensures |r| == 1 ==> r[0] == InfoEntry(f, desc)
  {
    if |desc| == 0 then [] else [InfoEntry(f, desc)]
  }

  /** `renderLogInfo`: the six descriptors in declaration order. */
  function RenderLogInfo(info: PrettyInfo): (r: seq<InfoEntry>)
    ensures |r| <= 6
    ensures forall i :: 0 <= i < |r| ==> r[i].value != "" && r[i].value == Get(info, r[i].field)
  {
    RenderLogInfoDescriptor(UpdatedDesc, info.updatedDesc)
    + RenderLogInfoDescriptor(NewDesc, info.newDesc)
    + RenderLogInfoDescriptor(AddedReplica, info.addedReplica)
    + RenderLogInfoDescriptor(RemovedReplica, info.removedReplica)
    + RenderLogInfoDescriptor(Reason, info.reason)
    + RenderLogInfoDescriptor(Details, info.details)
  }

  /** The lines follow the fixed field order. */
  predicate InSlotOrder(es: seq<InfoEntry>) {
    forall i, j :: 0 <= i < j < |es| ==> Slot(es[i].field) < Slot(es[j].field)
  }

  predicate SlotsBelow(es: seq<InfoEntry>, n: nat) {
    forall i :: 0 <= i < |es| ==> Slot(es[i].field) < n
  }

  lemma AppendInOrder(prefix: seq<InfoEntry>, f: Field, desc: string)
    requires InSlotOrder(prefix) && SlotsBelow(prefix, Slot(f))
    ensures InSlotOrder(prefix + RenderLogInfoDescriptor(f, desc))
    ensures SlotsBelow(prefix + RenderLogInfoDescriptor(f, desc), Slot(f) + 1)
  {
  }

  /** The info list keeps the fixed order Updated Range Descriptor, New
      Range Descriptor, Added Replica, Removed Replica, Reason, Details. */
  lemma RenderLogInfoInOrder(info: PrettyInfo)
    ensures InSlotOrder(RenderLogInfo(info))
  {
    var p1 := RenderLogInfoDescriptor(UpdatedDesc, info.updatedDesc);
    var p2 := p1 + RenderLogInfoDescriptor(NewDesc, info.newDesc);
    var p3 := p2 + RenderLogInfoDescriptor(AddedReplica, info.addedReplica);
    var p4 := p3 + RenderLogInfoDescriptor(RemovedReplica, info.removedReplica);
    var p5 := p4 + RenderLogInfoDescriptor(Reason, info.reason);
    AppendInOrder([], UpdatedDesc, info.updatedDesc);
    assert [] + p1 == p1;
    AppendInOrder(p1, NewDesc, info.newDesc);
    AppendInOrder(p2, AddedReplica, info.addedReplica);
    AppendInOrder(p3, RemovedReplica, info.removedReplica);
    AppendInOrder(p4, Reason, info.reason);
    AppendInOrder(p5, Details, info.details);
  }

  /** Every non-empty field has its line, and an empty field has none. */
  lemma RenderLogInfoComplete(info: PrettyInfo, f: Field)
    ensures Get(info, f) != "" <==> exists i :: 0 <= i < |RenderLogInfo(info)| && RenderLogInfo(info)[i].field == f
  {
    var d1 := RenderLogInfoDescriptor(UpdatedDesc, info.updatedDesc);
    var d2 := RenderLogInfoDescriptor(NewDesc, info.newDesc);
    var d3 := RenderLogInfoDescriptor(AddedReplica, info.addedReplica);
    var d4 := RenderLogInfoDescriptor(RemovedReplica, info.removedReplica);
    var d5 := RenderLogInfoDescriptor(Reason, info.reason);
    var d6 := RenderLogInfoDescriptor(Details, info.details);
    var r := RenderLogInfo(info);
    if Get(info, f) != "" {
      var pre := match f
        case UpdatedDesc => [] case NewDesc => d1 case AddedReplica => d1 + d2
        case RemovedReplica => d1 + d2 + d3 case Reason => d1 + d2 + d3 + d4
        case Details => d1 + d2 + d3 + d4 + d5;
      var i := |pre|;
      assert r[i].field == f;
    }
  }

  // Inverse: read the info back from the list, a missing field giving "".

  function InfoFromEntries(es: seq<InfoEntry>): (info: PrettyInfo)
    decreases |es|
  {
    if |es| == 0 then NO_INFO
    else Set(InfoFromEntries(es[..|es| - 1]), es[|es| - 1].field, es[|es| - 1].value)
  }

  lemma {:induction false} InfoFromEntriesAppend(a: seq<InfoEntry>, e: InfoEntry)
    ensures InfoFromEntries(a + [e]) == Set(InfoFromEntries(a), e.field, e.value)
  {
    assert (a + [e])[..|a + [e]| - 1] == a;
  }

  /** Reading the rendered list gives back the info it was rendered from:
      dropping the empty fields loses nothing. */
  lemma InfoRoundTrip(info: PrettyInfo)
    ensures InfoFromEntries(RenderLogInfo(info)) == info
  {
    var p1 := RenderLogInfoDescriptor(UpdatedDesc, info.updatedDesc);
    var p2 := p1 + RenderLogInfoDescriptor(NewDesc, info.newDesc);
    var p3 := p2 + RenderLogInfoDescriptor(AddedReplica, info.addedReplica);
    var p4 := p3 + RenderLogInfoDescriptor(RemovedReplica, info.removedReplica);
    var p5 := p4 + RenderLogInfoDescriptor(Reason, info.reason);
    var p6 := p5 + RenderLogInfoDescriptor(Details, info.details);
    assert p6 == RenderLogInfo(info);
    var e1 := NO_INFO.(updatedDesc := info.updatedDesc);
    var e2 := e1.(newDesc := info.newDesc);
    var e3 := e2.(addedReplica := info.addedReplica);
    var e4 := e3.(removedReplica := info.removedReplica);
    var e5 := e4.(reason := info.reason);
    assert [] + p1 == p1;
    StepDescriptor([], UpdatedDesc, info.updatedDesc);
    assert InfoFromEntries(p1) == e1;
    StepDescriptor(p1, NewDesc, info.newDesc);
    assert InfoFromEntries(p2) == e2;
    StepDescriptor(p2, AddedReplica, info.addedReplica);
    assert InfoFromEntries(p3) == e3;
    StepDescriptor(p3, RemovedReplica, info.removedReplica);
    assert InfoFromEntries(p4) == e4;
    StepDescriptor(p4, Reason, info.reason);
    assert InfoFromEntries(p5) == e5;
    StepDescriptor(p5, Details, info.details);
  }

  lemma StepDescriptor(prefix: seq<InfoEntry>, f: Field, desc: string)
    ensures InfoFromEntries(prefix + RenderLogInfoDescriptor(f, desc))
            == (if desc == "" then InfoFromEntries(prefix) else Set(InfoFromEntries(prefix), f, desc))
  {
    if desc == "" {
      assert prefix + RenderLogInfoDescriptor(f, desc) == prefix;
    } else {
      InfoFromEntriesAppend(prefix, InfoEntry(f, desc));
    }
  }

  /** With every field empty the list is empty. */
  lemma NoInfoRendersNothing()
    ensures RenderLogInfo(NO_INFO) == []
  {
  }

  /** With only the reason set the list is exactly that one line. */
  lemma ReasonOnly(reason: string)
    requires reason != ""
    ensures RenderLogInfo(NO_INFO.(reason := reason)) == [InfoEntry(Reason, reason)]
  {
  }
}
