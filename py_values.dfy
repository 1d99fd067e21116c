/** The Python values and built-ins the subtitle pipeline relies on: the values
    a search record holds, `int()` applied to them, the decimal text that
    `format` writes for an int, and list indexing with negative indices.
    The program runs under Python 2, so `int()` follows Python 2's parser for
    byte strings. */
module PyValues {

  /** A value stored in a search record: `None`, a string, or an int. */
  datatype Value = Null | Text(s: string) | Num(n: int)

  /** The Python exceptions the pipeline can raise. */
  datatype Error = TypeError | ValueError | IndexError | KeyError

  datatype Result<T> = Success(value: T) | Failure(error: Error)

  /** A Python dict from field name to value. */
  type Record = map<string, Value>

  /** The characters C's `isspace` accepts: space, tab, newline, vertical tab,
      form feed and carriage return. */
  predicate IsSpace(c: char) {
    c == ' ' || '\t' <= c <= '\r'
  }

  predicate IsDigit(c: char) {
    '0' <= c <= '9'
  }

  /** A non-empty run of ASCII digits. */
  predicate IsDigits(s: string) {
    |s| > 0 && forall i :: 0 <= i < |s| ==> IsDigit(s[i])
  }

  /** `s` without its leading white space. */
  function TrimLeft(s: string): string
  {
    if s != [] && IsSpace(s[0]) then TrimLeft(s[1..]) else s
  }

  /** `s` without its trailing white space. */
  function TrimRight(s: string): string
  {
    if s != [] && IsSpace(s[|s| - 1]) then TrimRight(s[..|s| - 1]) else s
  }

  function DigitValue(c: char): nat
    requires IsDigit(c)
  {
    c as int - '0' as int
  }

  /** The value of a run of decimal digits, most significant first. */
  function DigitsValue(s: string): nat
    requires forall i :: 0 <= i < |s| ==> IsDigit(s[i])
  {
    if s == [] then 0
    else DigitsValue(s[..|s| - 1]) * 10 + DigitValue(s[|s| - 1])
  }

  /** Python 2 `int(s)` for a byte string `s` in base 10: optional leading
      white space, an optional sign that may itself be followed by white
      space, at least one digit, optional trailing white space. Anything else
      raises ValueError. */
  function ParseDecimal(s: string): (r: Result<int>)
    ensures r.Failure? ==> r.error == ValueError
  {
    var t := TrimRight(TrimLeft(s));
    if t != [] && (t[0] == '+' || t[0] == '-') then
      var body := TrimLeft(t[1..]);
      if IsDigits(body) then
        Success(if t[0] == '-' then -(DigitsValue(body) as int) else DigitsValue(body))
      else Failure(ValueError)
    else if IsDigits(t) then Success(DigitsValue(t))
    else Failure(ValueError)
  }

  /** Python `int(v)`: `int(None)` raises TypeError, an int is itself, a
      string is parsed. */
  function PyInt(v: Value): (r: Result<int>)
    ensures v.Null? <==> r == Failure(TypeError)
    ensures v.Num? ==> r == Success(v.n)
  {
    match v
    case Null => Failure(TypeError)
    case Num(n) => Success(n)
    case Text(s) => ParseDecimal(s)
  }

  function DigitChar(d: nat): char
    requires d < 10
  {
    ('0' as int + d) as char
  }

  function NatToDecimal(n: nat): (s: string)
    ensures IsDigits(s)
    ensures |s| > 1 ==> s[0] != '0'
  {
    if n < 10 then [DigitChar(n)] else NatToDecimal(n / 10) + [DigitChar(n % 10)]
  }

  /** The text `"{0}".format(n)` writes for an int: its decimal digits, with a
      leading `-` when negative. */
  function IntToDecimal(n: int): (s: string)
    ensures |s| > 0 && IsDigit(s[|s| - 1])
    ensures (s[0] == '-') <==> n < 0
  {
    if n < 0 then "-" + NatToDecimal(-n) else NatToDecimal(n)
  }

  /** The text `"{0}".format(v)` writes for a record value. */
  function Str(v: Value): string {
    match v
    case Null => "None"
    case Text(s) => s
    case Num(n) => IntToDecimal(n)
  }

  /** Python `xs[i]` on a list of length `n`: the position it reads, or
      IndexError. Negative indices count from the end. */
  function PyIndex(n: nat, i: int): (r: Result<nat>)
    ensures r.Success? <==> -(n as int) <= i < n
    ensures r.Success? ==> r.value < n && r.value % n == i % n
    ensures r.Failure? ==> r.error == IndexError
  {
    if 0 <= i < n then Success(i)
    else if -(n as int) <= i < 0 then Success(n + i)
    else Failure(IndexError)
  }

  lemma {:induction false} NatToDecimalValue(n: nat)
    ensures DigitsValue(NatToDecimal(n)) == n
  {
    if n >= 10 {
      var s := NatToDecimal(n);
      assert s[..|s| - 1] == NatToDecimal(n / 10);
      NatToDecimalValue(n / 10);
    }
  }

  lemma ParseDigits(d: string)
    requires IsDigits(d)
    ensures ParseDecimal(d) == Success(DigitsValue(d))
    ensures ParseDecimal("-" + d) == Success(-(DigitsValue(d) as int))
  {
    assert !IsSpace(d[0]) && !IsSpace(d[|d| - 1]);
    assert TrimLeft(d) == d;
    assert TrimRight(d) == d;
    var m := "-" + d;
    assert m[1..] == d && m[|m| - 1] == d[|d| - 1];
    assert TrimLeft(m) == m;
    assert TrimRight(m) == m;
  }

  /** `int(str(n)) == n`: the decimal text written for an int parses back to
      that int. */
  lemma IntToDecimalRoundTrip(n: int)
    ensures ParseDecimal(IntToDecimal(n)) == Success(n)
  {
    if n < 0 {
      NatToDecimalValue(-n);
      ParseDigits(NatToDecimal(-n));
    } else {
      NatToDecimalValue(n);
      ParseDigits(NatToDecimal(n));
    }
  }
}
