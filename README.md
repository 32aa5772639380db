# Mössbauer control panel: record ingestion and command framing

This project models the logic inside the Mössbauer spectroscopy control panel (`gui.py`). The panel receives newline-terminated serial records from the instrument's microcontroller. Each record holds 5120 comma-separated integers. A record is checked and split into two plotted histograms: the 4096-bin pulse-amplitude spectrum (PHA) and the 1024-bin multi-channel-scalar spectrum (MCS). The panel sends two commands back to the device: `r`, which clears the on-device counters, and `u<freq>,<interval>`, which sets the piezo frequency and the serial interval.

Files and modules:

- `wrappers.dfy` (`Wrappers`): the `Option` and `Result` datatypes.
- `text.dfy` (`Text`): the string operations the parser uses. These are `rstrip('\r\n')`, `split(',')`, `int()` on an optional sign followed by decimal digits, and `str()` on integers. Each has its partner: the comma join, and a round trip between printing and parsing.
- `records.dfy` (`Records`): the per-line work of the receive loop. `ParseLine` returns `Accepted(pha, mcs)`, `WrongSize(count)` or `BadField(index)`. `FormatRecord` is the line a device sends for 5120 values. It is used to state the round trip.
- `commands.dfy` (`Commands`): the reset and update commands, and the limits on the text-box lengths.
- `panel.dfy` (`Panel`): the state of the main window as a class. The class fields are the plotted y-data `pha` and `mcs`, the log of written commands `sent`, the log of printed lines `console`, and the two box texts. The methods are `Receive` (the `while` loop), `ResetPressed`, `UpdatePressed` and the two box edits. `Receive` is proved against the specification function `Drain`, and the batch properties are lemmas about `Drain`.

The serial port is replaced by values. `Receive` takes the complete lines waiting on the port, already decoded, each with its terminator. Writes are appended to `sent`. `print` calls are appended to `console`.

Two behaviours of `gui.py` are worth stating outright:

- A non-integer field is not skipped. `int()` raises `ValueError` and nothing in `receive` catches it, so `Receive` stops at that line and returns its index. Lines before it keep their effect, and lines after it are not read. A blank line is a single empty field, so it raises as well (`BlankLineRaises`).
- Negative values are accepted like any other integer.

## Model

| member | source | states |
|---|---|---|
| Text.StripLineBreaks | gui.py:108 | The result is a prefix of the line that does not end in CR or LF, and every character removed is CR or LF. This is a character-set strip that takes any mix and any number of terminators, and it strips nothing else. |
| Text.StripTerminator | gui.py:108 | A text that does not end in a line break comes back unchanged whatever run of CR/LF follows it. |
| Text.StripIdempotent | gui.py:108 | Stripping a second time changes nothing. |
| Text.Split | gui.py:109 | `split(',')` returns at least one piece, and no piece holds a comma. Joining the pieces with commas gives back the text. The empty text gives one empty piece. |
| Text.SplitCount | gui.py:109 | A text with k commas splits into k + 1 fields. |
| Text.SplitJoin | gui.py:109 | Splitting undoes the comma join of comma-free pieces. |
| Text.ShowNat | gui.py:115 | `str(n)` of a count is a non-empty run of decimal digits whose value is n, with no leading zero unless n is 0. |
| Text.ShowInt | gui.py:109 | The device-side formatter of one record field, whose output `int()` reads. It gives `str(n)`: a minus sign exactly when n is negative, never a plus sign, then digits with no leading zero unless the magnitude is 0. `int()` reads it back as n. |
| Text.ParseInt | gui.py:109 | Definition of `int()` on one field. It succeeds exactly on digits or on a sign followed by digits, a negative result needs a leading `-`, and an accepted field holds no comma. `ParseShowInt` is its round trip with `ShowInt`, and `ParseIntPadded` gives the value of padded and signed texts. |
| Text.ParseIntSigned | gui.py:109 | A run of digits reads as its value, after `+` as the same value and after `-` as its negation. |
| Text.ParseIntPadded | gui.py:109 | `int()` ignores leading zeros and takes an optional sign: a run of zeros then `str(n)` reads as n, with `+` as n and with `-` as -n (so `int("007") == 7`, `int("+5") == 5`, `int("-0") == 0`). |
| Text.ParseShowInt | gui.py:109 | `int()` reads back every integer `str()` prints, negative ones included. |
| Records.ParseFields | gui.py:109 | The list comprehension either succeeds on every field, keeping their order and count, or fails on the first field that `int()` refuses. Every earlier field parses. |
| Records.ParseLine | gui.py:108-115 | Definition of the per-line work. An accepted line gives 4096 + 1024 values whose concatenation is the parsed field list. A wrong-size line carries its field count, which is not 5120. A bad field is the first failure of the field parse. `ParseLineAccepted`, `ParseLineWrongSize` and `ParseLineBadField` characterise it in terms of single fields. |
| Records.ParseLineAccepted | gui.py:109-112 | A line is accepted exactly when it has 5120 fields and every field is an integer. The PHA histogram then holds fields 0..4095 and the MCS histogram holds fields 4096..5119, with values and order unchanged. |
| Records.AcceptedConcatenation | gui.py:110-112 | For an accepted line, `pha + mcs` equals the parsed field list. This is the named form of a fact that the contract of `ParseLine` already gives. |
| Records.ParseLineWrongSize | gui.py:110-115 | A line of integers is dropped exactly when its field count is not 5120. The outcome carries that count, which is one more than the number of commas. |
| Records.ParseLineBadField | gui.py:109 | `int()` raises exactly when some field is not an integer, and the outcome names the first such field. |
| Records.BlankLineRaises | gui.py:108-109 | A line of only CR/LF characters is one empty field, and `int()` refuses it. |
| Records.ShowFields | gui.py:109 | The device-side printing of a record's values: one field per value, in order, each `str()` of its value. |
| Records.ParseFieldsShown | gui.py:109 | Printed integers, field by field, parse back to the same list. |
| Records.RecordRoundTrip | gui.py:107-112 | Any 5120 integers sent as one comma-separated line, with any CR/LF terminator, are accepted. They are split into the first 4096 and the last 1024, unchanged. |
| Commands.UpdateCommand | gui.py:131 | Definition of the update command: `u`, the frequency text, a comma and the interval text, laid out character by character. `UpdateCommandFields` is its inverse. |
| Commands.UpdateCommandFields | gui.py:131 | A single update command, taken on its own, is `u` followed by a text that splits on its comma into the two box texts, taken verbatim. |
| Commands.UpdateCommandInjective | gui.py:131 | Different comma-free box contents give different update commands. |
| Commands.UpdateCommandBounds | gui.py:52-56 | With the boxes capped at 3 and 5 characters, the update command is 2 to 10 characters long. |
| Panel.Zeros | gui.py:16 | `[0] * n` has n elements and all of them are zero. |
| Panel.Diagnostic | gui.py:114-115 | Definition of the two printed lines: the fixed message, then `str(count)`, which `int()` reads back as the count. |
| Panel.WrongSizePrintsCount | gui.py:113-115 | A wrong-size line leaves both histograms unchanged. It appends exactly two console lines: the message, then a line that reads back as that line's field count. |
| Panel.Step | gui.py:108-115 | One loop pass keeps the histogram lengths and only appends to the console. An accepted line installs its PHA and MCS split and prints nothing. A wrong-size line keeps both histograms and appends the diagnostic for its field count. A bad field raises and changes nothing. |
| Panel.Drain | gui.py:106-115 | Definition of the receive loop over a batch. It raises only at the index of a line with a bad field. The lemmas below state what it does to the display. |
| Panel.DrainNoRaiseNoBadField | gui.py:106-109 | A batch that does not raise holds no line with a bad field. |
| Panel.DrainKeepsShape | gui.py:106-115 | After any batch of lines, PHA still has 4096 bins and MCS 1024, and earlier console output is kept. |
| Panel.DrainRaisedStays | gui.py:106-109 | Once a line raises, later lines have no effect. |
| Panel.DrainShowsLastAccepted | gui.py:106-112 | Lines are consumed in order. After a batch with no bad field, nothing raises, and the histograms hold the split of the last accepted line. |
| Panel.DrainKeepsWhenNoneAccepted | gui.py:106-115 | After a batch with no bad field and no accepted line, nothing raises and both histograms keep their prior contents. |
| Panel.DrainStopsAtBadField | gui.py:106-109 | At the first line with a bad field, the batch raises at that line's index. The display is what the earlier lines made it. |
| Panel.MainWindow.constructor | gui.py:40-57 | PHA starts as 4096 zeros and MCS as 1024 zeros. Nothing has been sent or printed yet. The boxes hold `10` and `2`. |
| Panel.MainWindow.Receive | gui.py:105-115 | The loop leaves the display and the raised-line index exactly as `Drain` of the old display over the lines. The bin counts are kept. Nothing is sent and the boxes are untouched. |
| Panel.MainWindow.ResetPressed | gui.py:123-127 | PHA becomes `[0]*4096` and MCS becomes `[0]*1024`. Exactly `r` is appended to the sent log, and nothing else changes. |
| Panel.MainWindow.UpdatePressed | gui.py:129-131 | Exactly `u` + frequency text + `,` + interval text is appended to the sent log, with no numeric check. The histograms, the console and the boxes are untouched. |
| Panel.MainWindow.EditFrequency | gui.py:51-53 | The frequency box keeps at most 3 characters of what is typed. |
| Panel.MainWindow.EditInterval | gui.py:55-57 | The interval box keeps at most 5 characters of what is typed. |

## Left out

- Qt widgets, layouts, button wiring and plot rendering (gui.py:5-13, 18, 27-101). `setData(y=...)` is modelled as assigning the plotted y-data. The x-data `bins` never changes, so it is not modelled.
- The serial port object: opening it, `canReadLine`, `readLine`, byte decoding and `write`. These are I/O. The input is a sequence of decoded lines that each end with their terminator, and the output is the `sent` log.
- The exception itself: the `ValueError` from `int()` is modelled as `Receive` returning the index of the line that raised. The model does not follow the lines left unread in the port after that point, since they belong to the port's buffer.
- Text.ParseInt: models `int()` only on an optional `+`/`-` sign followed by ASCII decimal digits. It does not model surrounding whitespace, underscores or non-ASCII digits, which Python's `int()` also accepts. For those texts the source parses a field that the model reports as `BadField`.
- Panel.MainWindow.EditFrequency and Panel.MainWindow.EditInterval: these model the widgets' length limit as cutting the text at the limit. They do not model keyboard editing.
- Button label toggling in `connect_toggled` and `start_toggled` (gui.py:117-121) is presentation only and sends nothing.
- The start (`a<interval>`), stop (`o`), piezo enable (`e<freq>`) and disable (`d`) commands, and the file export. None of them is implemented in gui.py: the Save button has no handler (gui.py:60-61), so there is no export format to model.
- The `__main__` event loop (gui.py:133-138).
- The `sent` log keeps each write as its own entry, but gui.py:127 and gui.py:131 write no separator, so on the serial byte stream consecutive commands run together: `r` then `u10,2` arrives as `ru10,2`. The model does not say how the device splits that stream.
- Under PyQt5 5.5 and later, an exception that escapes a slot ends the application. The modelled window keeps accepting calls after `Receive` raises, so it allows more than the program does after a bad field.
- Text.ParseInt: since Python 3.11, `int()` refuses decimal texts longer than 4300 digits by default. The model accepts digit runs of any length, so for such fields the source raises and the model does not.
