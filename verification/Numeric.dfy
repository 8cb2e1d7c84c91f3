/** Option values, white space and the decimal integer codec of Go's strconv, base 10 and 64 bits wide.
    Byte strings are sequences of characters. */
module Numeric {

  datatype Option<+T> = None | Some(value: T)

  const INT64_LIMIT := 0x8000_0000_0000_0000

  // unicode.IsSpace
  predicate IsSpace(c: char) {
    var n := c as int;
    9 <= n <= 13 || n == 32 || n == 0x85 || n == 0xA0 || n == 0x1680 || 0x2000 <= n <= 0x200A ||
    n == 0x2028 || n == 0x2029 || n == 0x202F || n == 0x205F || n == 0x3000
  }

  // strings.TrimSpace
  function TrimLeft(s: string): string {
    if s != "" && IsSpace(s[0]) then TrimLeft(s[1..]) else s
  }

  function TrimRight(s: string): string {
    if s != "" && IsSpace(s[|s| - 1]) then TrimRight(s[..|s| - 1]) else s
  }

  function TrimSpace(s: string): string {
    TrimRight(TrimLeft(s))
  }

  predicate IsDigit(c: char) {
    '0' <= c <= '9'
  }

  function DigitChar(d: nat): char
    requires d < 10
  {
    ('0' as int + d) as char
  }

  // The decimal digits of n, most significant first.
  function Digits(n: nat): (s: string)
    ensures s != "" && forall i :: 0 <= i < |s| ==> IsDigit(s[i])
  {
    if n < 10 then [DigitChar(n)] else Digits(n / 10) + [DigitChar(n % 10)]
  }

  // strconv.FormatInt(n, 10)
  function FormatInt(n: int): string {
    if n < 0 then "-" + Digits(-n) else Digits(n)
  }

  // The number a digit string denotes; None for the empty string and for anything else.
  function DigitsValue(s: string): Option<nat> {
    if s == "" || !IsDigit(s[|s| - 1]) then None
    else
      var d: nat := s[|s| - 1] as int - '0' as int;
      if |s| == 1 then Some(d)
      else match DigitsValue(s[..|s| - 1])
        case None => None
        case Some(v) => Some(10 * v + d)
  }

  // strconv.ParseInt(s, 10, 64) and strconv.Atoi: one optional sign, at least one digit, in range.
  function ParseInt64(s: string): (r: Option<int>)
    ensures r.Some? ==> -INT64_LIMIT <= r.value < INT64_LIMIT
  {
    if s != "" && s[0] == '-' then
      match DigitsValue(s[1..])
      case Some(v) => var n: int := v; if n <= INT64_LIMIT then Some(0 - n) else None
      case None => None
    else
      match DigitsValue(if s != "" && s[0] == '+' then s[1..] else s)
      case Some(v) => if v < INT64_LIMIT then Some(v) else None
      case None => None
  }

  lemma {:induction false} DigitsRoundTrip(n: nat)
    ensures DigitsValue(Digits(n)) == Some(n)
  {
    if n >= 10 {
      DigitsRoundTrip(n / 10);
      var s := Digits(n);
      assert s[..|s| - 1] == Digits(n / 10);
    }
  }

  // Parsing inverts formatting exactly on the 64-bit integers and fails on all others.
  lemma {:induction false} ParseFormat(n: int)
    ensures ParseInt64(FormatInt(n)) == if -INT64_LIMIT <= n < INT64_LIMIT then Some(n) else None
  {
    var s := FormatInt(n);
    if n < 0 {
      DigitsRoundTrip(-n);
      assert s[1..] == Digits(-n);
    } else {
      DigitsRoundTrip(n);
      assert IsDigit(s[0]);
    }
  }
}
