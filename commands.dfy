/** The commands the panel writes to the microcontroller: `r` to clear the
    on-device counters and `u<freq>,<interval>` to set the piezo frequency
    and the serial interval. */
module Commands {
  import opened Text

  /** Clears the on-device histograms. */
  const ResetCommand: string := "r"

  /** Longest text the frequency box takes. */
  const FreqMaxLength: nat := 3
  /** Longest text the interval box takes. */
  const IntervalMaxLength: nat := 5

  /** The update command, built from the two text boxes verbatim: no numeric
      check, so any text (even an empty one) is sent as it stands. */
  function UpdateCommand(freq: string, interval: string): (cmd: string)
    ensures |cmd| == |freq| + |interval| + 2
    ensures cmd[0] == 'u' && cmd[|freq| + 1] == ','
    ensures cmd[1..|freq| + 1] == freq && cmd[|freq| + 2..] == interval
  {
    "u" + freq + "," + interval
  }

  /** One written update command, taken on its own, can be taken apart again:
      after the letter `u`, splitting on the comma gives back the two texts,
      provided neither holds a comma itself. Nothing is written between
      commands, so on the byte stream this holds only where the reader
      knows where the command starts and ends. */
  lemma UpdateCommandFields(freq: string, interval: string)
    requires NoComma(freq) && NoComma(interval)
    ensures |UpdateCommand(freq, interval)| >= 2
    ensures UpdateCommand(freq, interval)[0] == 'u'
    ensures Split(UpdateCommand(freq, interval)[1..]) == [freq, interval]
  {
    var cmd := UpdateCommand(freq, interval);
    assert cmd[1..] == freq + "," + interval;
    SplitAfterHead(freq, interval);
    SplitNoComma(interval);
  }

  /** Different comma-free settings give different commands. */
  lemma UpdateCommandInjective(f1: string, i1: string, f2: string, i2: string)
    requires NoComma(f1) && NoComma(i1) && NoComma(f2) && NoComma(i2)
    requires UpdateCommand(f1, i1) == UpdateCommand(f2, i2)
    ensures f1 == f2 && i1 == i2
  {
  }

  /** With the boxes at their length limits the command is at most ten
      characters. */
  lemma UpdateCommandBounds(freq: string, interval: string)
    requires |freq| <= FreqMaxLength && |interval| <= IntervalMaxLength
    ensures 2 <= |UpdateCommand(freq, interval)| <= 2 + FreqMaxLength + IntervalMaxLength
  {
  }
}
