/** The main window's state: the two plotted histograms, what was written to
    the serial port, what was printed, and the two parameter boxes; with the
    receive loop and the Reset and Update buttons that change it. */
module Panel {
  import opened Wrappers
  import opened Text
  import opened Records
  import opened Commands

  /** What the receive loop can change: the y-data of the two plots and the
      printed diagnostics. */
  datatype Display = Display(pha: seq<int>, mcs: seq<int>, console: seq<string>)

  /** A display after a batch of lines, and the index of the line whose field
      made `int` raise, if one did. */
  datatype Drained = Drained(display: Display, raised: Option<nat>)

  /** `[0] * n`. */
  function Zeros(n: nat): (r: seq<int>)
    ensures |r| == n
    ensures forall i :: 0 <= i < n ==> r[i] == 0
  {
    seq(n, _ => 0)
  }

  /** Both histograms have their plotted number of bins. */
  predicate Shaped(d: Display) {
    |d.pha| == PhaSize && |d.mcs| == McsSize
  }

  /** The two lines printed for a record of the wrong size: a message, then
      the field count in decimal, which reads back as the count. */
  function Diagnostic(count: nat): (r: seq<string>)
    ensures |r| == 2 && r[0] == "Data array is wrong size"
    ensures r[1] == ShowNat(count) && ParseInt(r[1]) == Some(count)
  {
    ["Data array is wrong size", ShowNat(count)]
  }

  /** One pass of the receive loop over the line at position `at`. An accepted
      record replaces both histograms; a record of the wrong size leaves them
      and prints its count; a bad field raises and leaves everything. */
  function Step(d: Display, line: string, at: nat): (r: Drained)
    ensures Shaped(d) ==> Shaped(r.display)
    ensures |d.console| <= |r.display.console| && r.display.console[..|d.console|] == d.console
    ensures r.raised.Some? <==> ParseLine(line).BadField?
    ensures r.raised.Some? ==> r == Drained(d, Some(at))
    ensures !ParseLine(line).Accepted? ==> r.display.pha == d.pha && r.display.mcs == d.mcs
    ensures ParseLine(line).Accepted? ==>
      r == Drained(d.(pha := ParseLine(line).pha, mcs := ParseLine(line).mcs), None)
    ensures ParseLine(line).WrongSize? ==>
      r == Drained(d.(console := d.console + Diagnostic(|Fields(line)|)), None)
  {
    ParseLineAccepted(line);
    match ParseLine(line)
    case Accepted(pha, mcs) => Drained(d.(pha := pha, mcs := mcs), None)
    case WrongSize(n) => Drained(d.(console := d.console + Diagnostic(n)), None)
    case BadField(_) => Drained(d, Some(at))
  }

  /** The receive loop over a batch of lines, in order, stopping at the first
      line on which `int` raises. */
  function Drain(d: Display, lines: seq<string>): (r: Drained)
    ensures r.raised.Some? ==>
      r.raised.value < |lines| && ParseLine(lines[r.raised.value]).BadField?
    decreases |lines|
  {
    if lines == [] then Drained(d, None)
    else
      var before := Drain(d, lines[..|lines| - 1]);
      if before.raised.Some? then before
      else Step(before.display, lines[|lines| - 1], |lines| - 1)
  }

  /** A batch that does not raise holds no line with a bad field. */
  lemma {:induction false} DrainNoRaiseNoBadField(d: Display, lines: seq<string>)
    requires Drain(d, lines).raised.None?
    ensures NoneRaises(lines)
    decreases |lines|
  {
    if lines != [] {
      var init := lines[..|lines| - 1];
      DrainNoRaiseLast(d, lines);
      DrainNoRaiseNoBadField(d, init);
      forall j | 0 <= j < |lines|
        ensures !ParseLine(lines[j]).BadField?
      {
        if j < |init| {
          assert lines[j] == init[j];
        }
      }
    }
  }

  /** A batch that does not raise did not raise before its last line, and
      its last line has no bad field. */
  lemma DrainNoRaiseLast(d: Display, lines: seq<string>)
    requires lines != [] && Drain(d, lines).raised.None?
    ensures Drain(d, lines[..|lines| - 1]).raised.None?
    ensures !ParseLine(lines[|lines| - 1]).BadField?
  {
    var before := Drain(d, lines[..|lines| - 1]);
    assert before.raised.None?;
    assert Step(before.display, lines[|lines| - 1], |lines| - 1).raised.None?;
  }

  /** Every batch keeps both histograms at their plotted lengths, and only
      appends to what was printed. */
  lemma {:induction false} DrainKeepsShape(d: Display, lines: seq<string>)
    requires Shaped(d)
    ensures Shaped(Drain(d, lines).display)
    ensures |d.console| <= |Drain(d, lines).display.console|
    ensures Drain(d, lines).display.console[..|d.console|] == d.console
    decreases |lines|
  {
    if lines != [] {
      var init := lines[..|lines| - 1];
      DrainKeepsShape(d, init);
      var mid := Drain(d, init).display.console;
      if Drain(d, init).raised.None? {
        var after := Drain(d, lines).display.console;
        assert after[..|mid|] == mid;
        assert after[..|d.console|] == after[..|mid|][..|d.console|];
      }
    }
  }

  /** Once a line has raised, the lines after it are not read. */
  lemma {:induction false} DrainRaisedStays(d: Display, lines: seq<string>, k: nat)
    requires k <= |lines|
    requires Drain(d, lines[..k]).raised.Some?
    ensures Drain(d, lines) == Drain(d, lines[..k])
    decreases |lines| - k
  {
    if k == |lines| {
      assert lines[..k] == lines;
    } else {
      var init := lines[..|lines| - 1];
      assert init[..k] == lines[..k];
      DrainRaisedStays(d, init, k);
    }
  }

  /** Line `k` is accepted and no later line of the batch is. */
  predicate LastAcceptedAt(lines: seq<string>, k: int) {
    0 <= k < |lines| && ParseLine(lines[k]).Accepted? &&
    forall j :: k < j < |lines| ==> !ParseLine(lines[j]).Accepted?
  }

  predicate NoneAccepted(lines: seq<string>) {
    forall j :: 0 <= j < |lines| ==> !ParseLine(lines[j]).Accepted?
  }

  predicate NoneRaises(lines: seq<string>) {
    forall j :: 0 <= j < |lines| ==> !ParseLine(lines[j]).BadField?
  }

  /** In a batch in which every field is an integer, nothing raises, and the
      histograms end up holding the split of the last accepted line. */
  lemma {:induction false} DrainShowsLastAccepted(d: Display, lines: seq<string>, k: nat)
    requires NoneRaises(lines)
    requires LastAcceptedAt(lines, k)
    ensures Drain(d, lines).raised == None
    ensures Drain(d, lines).display.pha == ParseLine(lines[k]).pha
    ensures Drain(d, lines).display.mcs == ParseLine(lines[k]).mcs
    decreases |lines|
  {
    var n := |lines|;
    var init := lines[..n - 1];
    PrefixKeeps(lines);
    var before := Drain(d, init);
    assert before.raised == None;
    var after := Step(before.display, lines[n - 1], n - 1);
    assert Drain(d, lines) == after;
    if k < n - 1 {
      DrainShowsLastAccepted(d, init, k);
    }
  }

  /** In a batch in which every field is an integer and no line is accepted,
      nothing raises and the histograms keep what they held before. */
  lemma {:induction false} DrainKeepsWhenNoneAccepted(d: Display, lines: seq<string>)
    requires NoneRaises(lines)
    requires NoneAccepted(lines)
    ensures Drain(d, lines).raised == None
    ensures Drain(d, lines).display.pha == d.pha && Drain(d, lines).display.mcs == d.mcs
    decreases |lines|
  {
    if lines != [] {
      var n := |lines|;
      var init := lines[..n - 1];
      PrefixKeeps(lines);
      DrainKeepsWhenNoneAccepted(d, init);
      var after := Step(Drain(d, init).display, lines[n - 1], n - 1);
      assert Drain(d, lines) == after;
    }
  }

  /** Dropping the last line of a batch keeps what is said of the others. */
  lemma PrefixKeeps(lines: seq<string>)
    requires lines != []
    ensures NoneRaises(lines) ==> NoneRaises(lines[..|lines| - 1])
    ensures NoneAccepted(lines) ==> NoneAccepted(lines[..|lines| - 1])
    ensures forall k :: LastAcceptedAt(lines, k) && k < |lines| - 1 ==>
      LastAcceptedAt(lines[..|lines| - 1], k) && !ParseLine(lines[|lines| - 1]).Accepted?
  {
    var init := lines[..|lines| - 1];
    assert forall j :: 0 <= j < |init| ==> init[j] == lines[j];
  }

  /** A record of the wrong size leaves both histograms and prints two
      lines: the message, then the number of the record's fields, which
      reads back as that number. */
  lemma WrongSizePrintsCount(d: Display, line: string, at: nat)
    requires ParseLine(line).WrongSize?
    ensures var printed := Step(d, line, at).display;
      printed.pha == d.pha && printed.mcs == d.mcs &&
      |printed.console| == |d.console| + 2 &&
      printed.console[..|d.console|] == d.console &&
      printed.console[|d.console|] == "Data array is wrong size" &&
      ParseInt(printed.console[|d.console| + 1]) == Some(|Fields(line)|)
  {
  }

  /** When line `k` is the first whose field `int` refuses, the batch raises
      there: the display is whatever the lines before it made it, and the
      lines after it are not read. */
  lemma DrainStopsAtBadField(d: Display, lines: seq<string>, k: nat)
    requires k < |lines|
    requires ParseLine(lines[k]).BadField?
    requires NoneRaises(lines[..k])
    ensures Drain(d, lines) == Drained(Drain(d, lines[..k]).display, Some(k))
  {
    assert Drain(d, lines[..k]).raised == None;
    assert lines[..k + 1][..k] == lines[..k];
    DrainRaisedStays(d, lines, k + 1);
  }

  /** The application's main window, reduced to the state its handlers touch. */
  class MainWindow {
    /** y-data of the pulse-amplitude plot. */
    var pha: seq<int>
    /** y-data of the multi-channel-scalar plot. */
    var mcs: seq<int>
    /** Every command written to the serial port, oldest first. */
    var sent: seq<string>
    /** Every line printed, oldest first. */
    var console: seq<string>
    /** Text of the piezo frequency box. */
    var freqText: string
    /** Text of the serial interval box. */
    var serText: string

    ghost predicate Valid()
      reads this
    {
      Shaped(View()) && |freqText| <= FreqMaxLength && |serText| <= IntervalMaxLength
    }

    function View(): Display
      reads this
    {
      Display(pha, mcs, console)
    }

    /** Both plots start at zero over their full range; nothing is sent or
        printed yet; the boxes hold their default texts. */
    constructor ()
      ensures Valid()
      ensures pha == Zeros(PhaSize) && mcs == Zeros(McsSize)
      ensures sent == [] && console == []
      ensures freqText == "10" && serText == "2"
    {
      pha := Zeros(PhaSize);
      mcs := Zeros(McsSize);
      sent := [];
      console := [];
      freqText := "10";
      serText := "2";
    }

    /** Drains the complete lines waiting on the port, in order. Returns the
        index of the line on which `int` raised, if one did; the lines before
        it have had their effect and the lines after it are not read. */
    method Receive(lines: seq<string>) returns (raised: Option<nat>)
      requires Valid()
      modifies this
      ensures Valid()
      ensures Drained(View(), raised) == Drain(old(View()), lines)
      ensures sent == old(sent) && freqText == old(freqText) && serText == old(serText)
    {
      raised := None;
      var i := 0;
      while i < |lines|
        invariant 0 <= i <= |lines|
        invariant Valid()
        invariant Drain(old(View()), lines[..i]) == Drained(View(), None)
        invariant sent == old(sent) && freqText == old(freqText) && serText == old(serText)
      {
        var line := lines[i];
        assert lines[..i + 1][..i] == lines[..i];
        ParseLineAccepted(line);
        match ParseLine(line) {
          case BadField(_) =>
            raised := Some(i);
            DrainRaisedStays(old(View()), lines, i + 1);
            return;
          case Accepted(p, m) =>
            pha, mcs := p, m;
          case WrongSize(n) =>
            console := console + Diagnostic(n);
        }
        i := i + 1;
      }
      assert lines[..i] == lines;
    }

    /** Zeroes both plots and tells the device to clear its counters. */
    method ResetPressed()
      requires Valid()
      modifies this
      ensures Valid()
      ensures pha == Zeros(PhaSize) && mcs == Zeros(McsSize)
      ensures sent == old(sent) + [ResetCommand]
      ensures console == old(console) && freqText == old(freqText) && serText == old(serText)
    {
      pha := Zeros(PhaSize);
      mcs := Zeros(McsSize);
      sent := sent + [ResetCommand];
    }

    /** Sends the two box texts verbatim as an update command; the plots are
        untouched. */
    method UpdatePressed()
      requires Valid()
      modifies this
      ensures Valid()
      ensures sent == old(sent) + [UpdateCommand(freqText, serText)]
      ensures |sent[|sent| - 1]| <= 2 + FreqMaxLength + IntervalMaxLength
      ensures pha == old(pha) && mcs == old(mcs) && console == old(console)
      ensures freqText == old(freqText) && serText == old(serText)
    {
      UpdateCommandBounds(freqText, serText);
      sent := sent + [UpdateCommand(freqText, serText)];
    }

    /** Text typed into the frequency box, cut at the box's length limit. */
    method EditFrequency(text: string)
      requires Valid()
      modifies this
      ensures Valid()
      ensures freqText == if |text| <= FreqMaxLength then text else text[..FreqMaxLength]
      ensures serText == old(serText) && sent == old(sent) && View() == old(View())
    {
      freqText := if |text| <= FreqMaxLength then text else text[..FreqMaxLength];
    }

    /** Text typed into the interval box, cut at the box's length limit. */
    method EditInterval(text: string)
      requires Valid()
      modifies this
      ensures Valid()
      ensures serText == if |text| <= IntervalMaxLength then text else text[..IntervalMaxLength]
      ensures freqText == old(freqText) && sent == old(sent) && View() == old(View())
    {
      serText := if |text| <= IntervalMaxLength then text else text[..IntervalMaxLength];
    }
  }
}
