/** One serial record: a line of 5120 comma-separated integers, the first
    4096 the pulse-amplitude (PHA) histogram and the last 1024 the
    multi-channel-scalar (MCS) histogram. */
module Records {
  import opened Wrappers
  import opened Text

  /** Bins of the pulse-amplitude histogram. */
  const PhaSize: nat := 4096
  /** Bins of the multi-channel-scalar histogram. */
  const McsSize: nat := 1024
  /** Fields of an acceptable record. */
  const RecordSize: nat := PhaSize + McsSize

  /** What one received line does to the display. */
  datatype LineOutcome =
    | Accepted(pha: seq<int>, mcs: seq<int>)  // both histograms are replaced
    | WrongSize(count: nat)                   // dropped, the count is printed
    | BadField(index: nat)                    // `int` raises on this field

  /** The fields of a line: terminator stripped, then split on commas. */
  function Fields(line: string): seq<string> {
    Split(StripLineBreaks(line))
  }

  /** `[int(i) for i in fields]`: every field converted, in order, or the
      index of the first field `int` refuses (the comprehension stops there). */
  function ParseFields(fields: seq<string>): (r: Result<seq<int>, nat>)
    ensures r.Success? ==>
      |r.value| == |fields| &&
      forall i :: 0 <= i < |fields| ==> ParseInt(fields[i]) == Some(r.value[i])
    ensures r.Failure? ==>
      r.error < |fields| && ParseInt(fields[r.error]).None? &&
      forall i :: 0 <= i < r.error ==> ParseInt(fields[i]).Some?
    decreases |fields|
  {
    if fields == [] then Success([])
    else
      match ParseInt(fields[0])
      case None => Failure(0)
      case Some(v) =>
        match ParseFields(fields[1..])
        case Success(vs) => Success([v] + vs)
        case Failure(k) => Failure(k + 1)
  }

  /** The per-line work of the receive loop: parse every field, then accept
      the record only when there are exactly `RecordSize` values. */
  function ParseLine(line: string): (r: LineOutcome)
    ensures r.Accepted? ==>
      |r.pha| == PhaSize && |r.mcs| == McsSize &&
      ParseFields(Fields(line)) == Success(r.pha + r.mcs)
    ensures r.WrongSize? ==>
      r.count != RecordSize && ParseFields(Fields(line)).Success? && r.count == |Fields(line)|
    ensures r.BadField? ==> ParseFields(Fields(line)) == Failure(r.index)
  {
    match ParseFields(Fields(line))
    case Failure(k) => BadField(k)
    case Success(values) =>
      if |values| == RecordSize then
        assert values[0..PhaSize] + values[PhaSize..RecordSize] == values;
        Accepted(values[0..PhaSize], values[PhaSize..RecordSize])
      else WrongSize(|values|)
  }

  /** A line is accepted exactly when it has `RecordSize` fields and each is an
      integer; then the PHA histogram holds the first 4096 of them and the MCS
      histogram the remaining 1024, values and order unchanged. */
  lemma ParseLineAccepted(line: string)
    ensures ParseLine(line).Accepted? <==>
      |Fields(line)| == RecordSize &&
      forall i :: 0 <= i < |Fields(line)| ==> ParseInt(Fields(line)[i]).Some?
    ensures ParseLine(line).Accepted? ==>
      var o := ParseLine(line);
      |o.pha| == PhaSize && |o.mcs| == McsSize &&
      (forall i :: 0 <= i < PhaSize ==> ParseInt(Fields(line)[i]) == Some(o.pha[i])) &&
      (forall i :: 0 <= i < McsSize ==> ParseInt(Fields(line)[PhaSize + i]) == Some(o.mcs[i]))
  {
  }

  /** Accepted histograms, laid end to end, are exactly the parsed fields.
      This follows from the contract of `ParseLine`; it is kept as the named
      form of the property. */
  lemma AcceptedConcatenation(line: string)
    requires ParseLine(line).Accepted?
    ensures ParseFields(Fields(line)).Success?
    ensures ParseLine(line).pha + ParseLine(line).mcs == ParseFields(Fields(line)).value
  {
  }

  /** A line of integers is dropped as the wrong size exactly when the number
      of its fields, one more than its commas, is not `RecordSize`; the
      outcome carries that number. */
  lemma ParseLineWrongSize(line: string)
    ensures ParseLine(line).WrongSize? <==>
      |Fields(line)| != RecordSize &&
      forall i :: 0 <= i < |Fields(line)| ==> ParseInt(Fields(line)[i]).Some?
    ensures ParseLine(line).WrongSize? ==>
      ParseLine(line).count == |Fields(line)| == CountCommas(StripLineBreaks(line)) + 1
  {
    SplitCount(StripLineBreaks(line));
  }

  /** `int` raises exactly when some field is not an integer, and the
      outcome names the first such field. */
  lemma ParseLineBadField(line: string)
    ensures ParseLine(line).BadField? <==>
      exists i :: 0 <= i < |Fields(line)| && ParseInt(Fields(line)[i]).None?
    ensures ParseLine(line).BadField? ==>
      var k := ParseLine(line).index;
      k < |Fields(line)| && ParseInt(Fields(line)[k]).None? &&
      forall i :: 0 <= i < k ==> ParseInt(Fields(line)[i]).Some?
  {
  }

  /** A blank line is a single empty field, which `int` refuses. */
  lemma BlankLineRaises(terminator: string)
    requires AllLineBreaks(terminator)
    ensures ParseLine(terminator) == BadField(0)
  {
  }

  /** Each value printed in decimal, in order. */
  function ShowFields(values: seq<int>): (fields: seq<string>)
    ensures |fields| == |values|
    ensures forall i :: 0 <= i < |values| ==> fields[i] == ShowInt(values[i])
    decreases |values|
  {
    if values == [] then [] else [ShowInt(values[0])] + ShowFields(values[1..])
  }

  /** The line a device sends for `values`: each printed in decimal, separated
      by commas. */
  function FormatRecord(values: seq<int>): string {
    Join(ShowFields(values))
  }

  /** Printed integers read back as themselves. */
  lemma {:induction false} ParseFieldsShown(values: seq<int>)
    ensures ParseFields(ShowFields(values)) == Success(values)
    decreases |values|
  {
    if values != [] {
      var shown := ShowFields(values);
      ParseFieldsShown(values[1..]);
      assert shown[1..] == ShowFields(values[1..]);
      assert [values[0]] + values[1..] == values;
    }
  }

  /** Any 5120 integers, sent as one line with any terminator, are accepted
      and split into the two histograms unchanged. */
  lemma RecordRoundTrip(values: seq<int>, terminator: string)
    requires |values| == RecordSize
    requires AllLineBreaks(terminator)
    ensures ParseLine(FormatRecord(values) + terminator) ==
      Accepted(values[..PhaSize], values[PhaSize..])
  {
    var shown := ShowFields(values);
    forall i | 0 <= i < |shown|
      ensures NoComma(shown[i])
    {
      ShowIntShape(values[i]);
    }
    assert Join(shown) == shown[0] + "," + Join(shown[1..]);
    JoinLast(shown);
    ShowIntShape(values[|values| - 1]);
    StripTerminator(FormatRecord(values), terminator);
    SplitJoin(shown);
    ParseFieldsShown(values);
  }

  /** A join of several pieces ends with its last piece. */
  lemma {:induction false} JoinLast(parts: seq<string>)
    requires |parts| >= 1
    ensures |Join(parts)| >= |parts[|parts| - 1]|
    ensures Join(parts)[|Join(parts)| - |parts[|parts| - 1]|..] == parts[|parts| - 1]
    decreases |parts|
  {
    if |parts| > 1 {
      JoinLast(parts[1..]);
    }
  }
}
