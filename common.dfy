/** Vocabulary shared by every component: optional values, results, the
    exception kinds the card core throws, and the .NET character and string
    predicates its validations rely on. */
module Common {

  datatype Option<+T> = None | Some(value: T)

  /** A value, or the exception that would have been thrown instead. */
  datatype Result<+T> = Success(value: T) | Failure(error: Error)

  /** A step that either completes or throws. */
  datatype Outcome = Pass | Fail(error: Error)

  /** The exception kinds of the core, each with the message it carries. */
  datatype Error =
    | ArgumentNull(paramName: string)        // ArgumentNullException
    | Argument(message: string)              // ArgumentException
    | InvalidOperation(message: string)      // InvalidOperationException
    | ArgumentOutOfRange                     // ArgumentOutOfRangeException (the DateTime constructor, Task.Delay)
    | KeyNotFound(message: string)           // KeyNotFoundException
    | Format                                 // FormatException raised by int.Parse
    | Cryptographic                          // the AES key could not be installed
    | DbUpdate(message: string)              // a constraint rejected SaveChanges
    | Publish                                // the message transport failed
    | Canceled                               // OperationCanceledException: the host stopped a wait

  /** char.IsWhiteSpace: the Unicode separators plus the C0 controls 9..13 and U+0085. */
  predicate IsWhiteSpace(c: char) {
    var u := c as int;
    (0x09 <= u <= 0x0D) || u == 0x20 || u == 0x85 || u == 0xA0 || u == 0x1680
    || (0x2000 <= u <= 0x200A) || u == 0x2028 || u == 0x2029 || u == 0x202F
    || u == 0x205F || u == 0x3000
  }

  /** string.IsNullOrWhiteSpace on a non-null string: empty, or whitespace only. */
  predicate IsBlank(s: string) {
    forall i :: 0 <= i < |s| ==> IsWhiteSpace(s[i])
  }

  /** The first code point of each run of ten decimal digits (general category Nd)
      of the Basic Multilingual Plane, the plane a .NET char can hold. */
  const DecimalDigitRuns: seq<int> := [
    0x0030, 0x0660, 0x06F0, 0x07C0, 0x0966, 0x09E6, 0x0A66, 0x0AE6, 0x0B66, 0x0BE6,
    0x0C66, 0x0CE6, 0x0D66, 0x0DE6, 0x0E50, 0x0ED0, 0x0F20, 0x1040, 0x1090, 0x17E0,
    0x1810, 0x1946, 0x19D0, 0x1A80, 0x1A90, 0x1B50, 0x1BB0, 0x1C40, 0x1C50, 0xA620,
    0xA8D0, 0xA900, 0xA9D0, 0xA9F0, 0xAA50, 0xABF0, 0xFF10]

  /** char.IsDigit: any Unicode decimal digit, not only '0'..'9'. */
  predicate IsUnicodeDigit(c: char) {
    exists k :: 0 <= k < |DecimalDigitRuns| && DecimalDigitRuns[k] <= c as int < DecimalDigitRuns[k] + 10
  }

  /** Every decimal digit a char can hold lies inside the Basic Multilingual Plane. */
  lemma DigitIsBmp(c: char)
    requires IsUnicodeDigit(c)
    ensures c as int <= 0xFFFF
  {
    var k :| 0 <= k < |DecimalDigitRuns| && DecimalDigitRuns[k] <= c as int < DecimalDigitRuns[k] + 10;
    assert DecimalDigitRuns[k] in DecimalDigitRuns;
    assert forall x :: x in DecimalDigitRuns ==> x <= 0xFF10;
  }

  /** The characters int.Parse accepts as a one-character number. */
  predicate IsAsciiDigit(c: char) {
    '0' <= c <= '9'
  }

  function DigitValue(c: char): (d: int)
    requires IsAsciiDigit(c)
    ensures 0 <= d <= 9
  {
    c as int - '0' as int
  }

  function DigitChar(d: int): (c: char)
    requires 0 <= d <= 9
    ensures IsAsciiDigit(c) && DigitValue(c) == d
  {
    (d + '0' as int) as char
  }

  /** int.ToString() for a non-negative value: its shortest decimal numeral. */
  function NatToString(n: nat): (s: string)
    ensures |s| >= 1
    ensures forall i :: 0 <= i < |s| ==> IsAsciiDigit(s[i])
  {
    if n < 10 then [DigitChar(n)] else NatToString(n / 10) + [DigitChar(n % 10)]
  }

  /** The value of a numeral of decimal digits, read most significant first. */
  function NumeralValue(s: string): nat
    requires forall i :: 0 <= i < |s| ==> IsAsciiDigit(s[i])
  {
    if s == [] then 0 else NumeralValue(s[..|s| - 1]) * 10 + DigitValue(s[|s| - 1])
  }

  /** String.Length: the number of UTF-16 code units, two for a character
      outside the Basic Multilingual Plane. */
  function Utf16Length(s: string): (n: nat)
    ensures n >= |s|
  {
    if s == [] then 0 else Utf16Length(s[..|s| - 1]) + (if s[|s| - 1] as int > 0xFFFF then 2 else 1)
  }

  /** Every character fits one UTF-16 code unit. */
  predicate IsBmp(s: string) {
    forall i :: 0 <= i < |s| ==> s[i] as int <= 0xFFFF
  }

  /** Text of the Basic Multilingual Plane has as many code units as characters,
      and only such text does. */
  lemma {:induction false} Utf16LengthBmp(s: string)
    ensures Utf16Length(s) == |s| <==> IsBmp(s)
  {
    if s != [] {
      var p := s[..|s| - 1];
      Utf16LengthBmp(p);
      assert forall i :: 0 <= i < |p| ==> p[i] == s[i];
    }
  }

  function Min(a: int, b: int): int { if a <= b then a else b }

  function Max(a: int, b: int): int { if a >= b then a else b }

  lemma {:induction false} NatToStringValue(n: nat)
    ensures NumeralValue(NatToString(n)) == n
  {
    if n >= 10 {
      var s := NatToString(n);
      assert s[..|s| - 1] == NatToString(n / 10);
      NatToStringValue(n / 10);
    }
  }

  /** A numeral is three digits long exactly for the values 100..999. */
  lemma {:induction false} NatToStringThreeDigits(n: nat)
    requires 100 <= n <= 999
    ensures |NatToString(n)| == 3
  {
    assert 10 <= n / 10 <= 99;
    assert 1 <= n / 100 <= 9;
    assert NatToString(n / 100) == [DigitChar(n / 100)];
  }
}
