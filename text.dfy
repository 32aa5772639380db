/** The string operations the record parser is built from: stripping the
    line terminator, splitting on commas, and reading and writing decimal
    integers. */
module Text {
  import opened Wrappers

  // ---------------------------------------------------------------------
  // Stripping the line terminator: `text.rstrip('\r\n')`
  // ---------------------------------------------------------------------

  /** The characters `rstrip('\r\n')` removes: a character set, not a suffix. */
  predicate IsLineBreak(c: char) {
    c == '\r' || c == '\n'
  }

  predicate AllLineBreaks(s: string) {
    forall i :: 0 <= i < |s| ==> IsLineBreak(s[i])
  }

  /** Drops every trailing carriage return and line feed, in any mix and any
      number, and nothing else: the result is a prefix of `s` that does not
      end in a line break, and everything cut off is a line break. */
  function StripLineBreaks(s: string): (r: string)
    ensures |r| <= |s| && r == s[..|r|]
    ensures r == [] || !IsLineBreak(r[|r| - 1])
    ensures forall i :: |r| <= i < |s| ==> IsLineBreak(s[i])
    decreases |s|
  {
    if s != [] && IsLineBreak(s[|s| - 1]) then StripLineBreaks(s[..|s| - 1]) else s
  }

  /** Whatever terminator follows a text that does not itself end in a line
      break, stripping gives back exactly that text. */
  lemma {:induction false} StripTerminator(text: string, terminator: string)
    requires text == [] || !IsLineBreak(text[|text| - 1])
    requires AllLineBreaks(terminator)
    ensures StripLineBreaks(text + terminator) == text
    decreases |terminator|
  {
    var s := text + terminator;
    if terminator == [] {
      assert s == text;
    } else {
      var shorter := terminator[..|terminator| - 1];
      assert s[..|s| - 1] == text + shorter;
      StripTerminator(text, shorter);
    }
  }

  /** Stripping twice is stripping once. */
  lemma StripIdempotent(s: string)
    ensures StripLineBreaks(StripLineBreaks(s)) == StripLineBreaks(s)
  {
  }

  // ---------------------------------------------------------------------
  // Splitting on commas: `text.split(',')`
  // ---------------------------------------------------------------------

  /** `','.join(parts)`. */
  function Join(parts: seq<string>): string {
    if |parts| == 0 then ""
    else if |parts| == 1 then parts[0]
    else parts[0] + "," + Join(parts[1..])
  }

  predicate NoComma(s: string) {
    ',' !in s
  }

  function CountCommas(s: string): nat {
    if s == [] then 0 else (if s[0] == ',' then 1 else 0) + CountCommas(s[1..])
  }

  /** `s.split(',')`: never empty, the pieces joined by commas give back `s`,
      and no piece holds a comma. The empty string splits into one empty piece. */
  function Split(s: string): (r: seq<string>)
    ensures |r| >= 1
    ensures Join(r) == s
    ensures forall i :: 0 <= i < |r| ==> NoComma(r[i])
    ensures s == [] ==> r == [""]
    decreases |s|
  {
    if s == [] then [""]
    else
      var rest := Split(s[1..]);
      if s[0] == ',' then
        assert Join([""] + rest) == "," + Join(rest) by {
          assert ([""] + rest)[1..] == rest;
        }
        [""] + rest
      else
        var r := [[s[0]] + rest[0]] + rest[1..];
        assert Join(r) == [s[0]] + Join(rest) by {
          if |rest| > 1 {
            assert r[1..] == rest[1..];
          }
        }
        r
  }

  /** A text with k commas splits into k + 1 pieces. */
  lemma {:induction false} SplitCount(s: string)
    ensures |Split(s)| == CountCommas(s) + 1
    decreases |s|
  {
    if s != [] {
      SplitCount(s[1..]);
    }
  }

  /** A comma-free head splits off as one piece. */
  lemma {:induction false} SplitAfterHead(head: string, tail: string)
    requires NoComma(head)
    ensures Split(head + "," + tail) == [head] + Split(tail)
    decreases |head|
  {
    var s := head + "," + tail;
    if head == [] {
      assert s[1..] == tail;
    } else {
      assert s[1..] == head[1..] + "," + tail;
      SplitAfterHead(head[1..], tail);
      assert [head[0]] + head[1..] == head;
    }
  }

  /** A comma-free text is a single piece. */
  lemma SplitNoComma(s: string)
    requires NoComma(s)
    ensures Split(s) == [s]
  {
  }

  /** Splitting undoes joining comma-free pieces. */
  lemma {:induction false} SplitJoin(parts: seq<string>)
    requires |parts| >= 1
    requires forall i :: 0 <= i < |parts| ==> NoComma(parts[i])
    ensures Split(Join(parts)) == parts
    decreases |parts|
  {
    if |parts| == 1 {
      SplitNoComma(parts[0]);
    } else {
      SplitAfterHead(parts[0], Join(parts[1..]));
      SplitJoin(parts[1..]);
      assert [parts[0]] + parts[1..] == parts;
    }
  }

  // ---------------------------------------------------------------------
  // Decimal integers: `int(field)` and `str(n)`
  // ---------------------------------------------------------------------

  predicate IsDigit(c: char) {
    '0' <= c <= '9'
  }

  predicate AllDigits(s: string) {
    forall i :: 0 <= i < |s| ==> IsDigit(s[i])
  }

  function DigitValue(c: char): nat
    requires IsDigit(c)
  {
    c as int - '0' as int
  }

  function DigitChar(d: nat): (c: char)
    requires d < 10
    ensures IsDigit(c) && DigitValue(c) == d
  {
    ('0' as int + d) as char
  }

  /** The number a run of decimal digits denotes, most significant first. */
  function DigitsValue(ds: string): nat
    requires AllDigits(ds)
    decreases |ds|
  {
    if ds == [] then 0 else DigitsValue(ds[..|ds| - 1]) * 10 + DigitValue(ds[|ds| - 1])
  }

  /** One or more decimal digits, leading zeros allowed. */
  function ParseNat(ds: string): Option<nat> {
    if ds != [] && AllDigits(ds) then Some(DigitsValue(ds)) else None
  }

  /** `int(field)` restricted to an optional sign followed by decimal digits;
      every other text makes `int` raise, here `None`. */
  function ParseInt(field: string): (r: Option<int>)
    ensures r.Some? <==>
      (field != [] && AllDigits(field)) ||
      (|field| >= 2 && (field[0] == '-' || field[0] == '+') && AllDigits(field[1..]))
    ensures r.Some? && r.value < 0 ==> field[0] == '-'
    ensures r.Some? ==> NoComma(field)
  {
    if field != [] && (field[0] == '-' || field[0] == '+') then
      match ParseNat(field[1..])
      case None => None
      case Some(v) =>
        var signed: int := if field[0] == '-' then -(v as int) else v;
        Some(signed)
    else
      match ParseNat(field)
      case None => None
      case Some(v) =>
        var unsigned: int := v;
        Some(unsigned)
  }

  /** Leading zeros add nothing to the value of a run of digits. */
  lemma {:induction false} DigitsValuePadded(z: string, ds: string)
    requires forall i :: 0 <= i < |z| ==> z[i] == '0'
    requires AllDigits(ds)
    ensures AllDigits(z + ds) && DigitsValue(z + ds) == DigitsValue(ds)
    decreases |z| + |ds|
  {
    if ds == [] {
      assert z + ds == z;
      if z != [] {
        DigitsValuePadded(z[..|z| - 1], []);
        assert z[..|z| - 1] + [] == z[..|z| - 1];
      }
    } else {
      assert (z + ds)[..|z + ds| - 1] == z + ds[..|ds| - 1];
      DigitsValuePadded(z, ds[..|ds| - 1]);
    }
  }

  /** `int` ignores leading zeros and takes an optional sign:
      `int("007") == 7`, `int("+5") == 5`, `int("-0") == 0`. */
  lemma ParseIntPadded(z: string, n: nat)
    requires forall i :: 0 <= i < |z| ==> z[i] == '0'
    ensures ParseInt(z + ShowNat(n)) == Some(n)
    ensures ParseInt("+" + z + ShowNat(n)) == Some(n)
    ensures ParseInt("-" + z + ShowNat(n)) == Some(-(n as int))
  {
    var ds := z + ShowNat(n);
    DigitsValuePadded(z, ShowNat(n));
    assert "+" + z + ShowNat(n) == "+" + ds;
    assert "-" + z + ShowNat(n) == "-" + ds;
    ParseIntSigned(ds, n);
  }

  /** A run of digits reads as its value, after a `+` as the same value and
      after a `-` as its negation. */
  lemma ParseIntSigned(ds: string, v: nat)
    requires ParseNat(ds) == Some(v)
    ensures ParseInt(ds) == Some(v)
    ensures ParseInt("+" + ds) == Some(v)
    ensures ParseInt("-" + ds) == Some(-(v as int))
  {
    assert ("+" + ds)[1..] == ds;
    assert ("-" + ds)[1..] == ds;
  }

  /** `str(n)` for a natural number: non-empty decimal digits that denote `n`,
      with no leading zero unless `n` is zero itself. */
  function ShowNat(n: nat): (r: string)
    ensures r != [] && AllDigits(r)
    ensures DigitsValue(r) == n
    ensures |r| == 1 || r[0] != '0'
  {
    if n < 10 then [DigitChar(n)]
    else
      var r := ShowNat(n / 10) + [DigitChar(n % 10)];
      assert r[..|r| - 1] == ShowNat(n / 10);
      r
  }

  /** `str(n)` for any integer, as the device formats each field of a
      record: a minus sign exactly for negative numbers, no plus sign, then
      the digits of the magnitude without leading zeros; `int` reads it back
      as `n`. */
  function ShowInt(n: int): (r: string)
    ensures r != [] && (r[0] == '-' <==> n < 0)
    ensures r[0] == '-' ==> |r| >= 2 && AllDigits(r[1..]) && r[1] != '0'
    ensures r[0] != '-' ==> AllDigits(r) && (|r| == 1 || r[0] != '0')
    ensures ParseInt(r) == Some(n)
  {
    if n < 0 then
      assert ("-" + ShowNat(-n))[1..] == ShowNat(-n);
      "-" + ShowNat(-n)
    else ShowNat(n)
  }

  /** What `str` writes, `int` reads back. */
  lemma ParseShowInt(n: int)
    ensures ParseInt(ShowInt(n)) == Some(n)
  {
  }

  /** A printed integer holds no comma and ends in a digit, so it can stand
      as a field and as the last field before a line terminator. */
  lemma ShowIntShape(n: int)
    ensures NoComma(ShowInt(n))
    ensures !IsLineBreak(ShowInt(n)[|ShowInt(n)| - 1])
  {
  }
}
