/** Java value semantics the model relies on: nullable references, the 32- and
    64-bit integer ranges, how a long is written into a string, how
    Long.parseLong reads one back, and String.isBlank. */
module Lang {

  /** A nullable Java reference: None stands for null. */
  datatype Option<+T> = None | Some(value: T)

  const MIN_LONG: int := -0x8000_0000_0000_0000
  const MAX_LONG: int := 0x7FFF_FFFF_FFFF_FFFF

  /** Java's long. */
  type Long = x: int | MIN_LONG <= x <= MAX_LONG

  const MIN_INT: int := -0x8000_0000
  const MAX_INT: int := 0x7FFF_FFFF

  /** Java's int. */
  type Int = x: int | MIN_INT <= x <= MAX_INT

  predicate IsDigit(c: char) {
    '0' <= c <= '9'
  }

  predicate AllDigits(s: string) {
    forall i :: 0 <= i < |s| ==> IsDigit(s[i])
  }

  function DigitChar(d: nat): (c: char)
    requires d < 10
    ensures IsDigit(c) && c as int - '0' as int == d
  {
    (d + '0' as int) as char
  }

  /** The value of a non-empty run of decimal digits; leading zeros are allowed. */
  function DigitsValue(s: string): nat
    requires AllDigits(s)
  {
    if s == [] then 0 else DigitsValue(s[..|s| - 1]) * 10 + (s[|s| - 1] as int - '0' as int)
  }

  /** The decimal digits of n, without leading zeros. */
  function NatToString(n: nat): (s: string)
    ensures s != [] && AllDigits(s)
    ensures n > 0 ==> s[0] != '0'
  {
    if n < 10 then [DigitChar(n)] else NatToString(n / 10) + [DigitChar(n % 10)]
  }

  /** Long.toString, which is also what `"..." + n` produces for a long n. */
  function LongToString(n: Long): (s: string)
    ensures s != [] && SeparatorFree(s)
    ensures s[0] == '-' <==> n < 0
  {
    if n < 0 then "-" + NatToString(-(n as int)) else NatToString(n)
  }

  /** Whether s holds no path separator, so that it is a single path component. */
  predicate SeparatorFree(s: string) {
    forall i :: 0 <= i < |s| ==> s[i] != '/'
  }

  /** `"..." + id` for a boxed Long: a null id is written "null". */
  function IdString(id: Option<Long>): (s: string)
    ensures s != [] && SeparatorFree(s)
  {
    match id
    case None => "null"
    case Some(n) => LongToString(n)
  }

  /** `"..." + s` for a String: a null string is written "null". */
  function JavaString(s: Option<string>): (r: string)
    ensures s.Some? ==> r == s.value
    ensures s.None? ==> r == "null"
  {
    match s
    case None => "null"
    case Some(v) => v
  }

  /** Only null and the string "null" are written the same way. */
  lemma JavaStringInjective(a: Option<string>, b: Option<string>)
    ensures JavaString(a) == JavaString(b)
            <==> a == b || (a == None && b == Some("null")) || (a == Some("null") && b == None)
  {
  }

  /** Long.parseLong over ASCII digits: an optional '-' or '+', then at least one
      digit, and a value within the range of a long. None stands for the
      NumberFormatException thrown on any other input. */
  function ParseLong(s: string): (r: Option<Long>)
    ensures r.Some? ==> s != [] && (IsDigit(s[0]) || s[0] == '-' || s[0] == '+')
    ensures r.Some? ==> forall i :: 1 <= i < |s| ==> IsDigit(s[i])
    ensures r.Some? && s[0] == '-' ==> r.value <= 0
  {
    if |s| >= 2 && s[0] == '-' && AllDigits(s[1..]) then
      var v: int := 0 - DigitsValue(s[1..]) as int;
      if MIN_LONG <= v then Some(v) else None
    else if |s| >= 2 && s[0] == '+' && AllDigits(s[1..]) then
      var v := DigitsValue(s[1..]);
      if v <= MAX_LONG then Some(v) else None
    else if |s| >= 1 && AllDigits(s) then
      var v := DigitsValue(s);
      if v <= MAX_LONG then Some(v) else None
    else
      None
  }

  /** Reading back the digits NatToString writes gives the number again. */
  lemma {:induction false} NatToStringValue(n: nat)
    ensures DigitsValue(NatToString(n)) == n
  {
    if n >= 10 {
      NatToStringValue(n / 10);
      var s := NatToString(n);
      assert s[..|s| - 1] == NatToString(n / 10);
    }
  }

  /** Long.parseLong(Long.toString(n)) == n for every long n. */
  lemma {:induction false} LongRoundTrip(n: Long)
    ensures ParseLong(LongToString(n)) == Some(n)
  {
    var s := LongToString(n);
    if n < 0 {
      var t := NatToString(-(n as int));
      NatToStringValue(-(n as int));
      assert s == "-" + t && s[1..] == t;
      assert |s| >= 2 && s[0] == '-' && AllDigits(s[1..]);
    } else {
      NatToStringValue(n);
      assert s == NatToString(n) && IsDigit(s[0]);
      assert !(s[0] == '-' || s[0] == '+');
    }
  }

  /** Writing a nullable id into a path component and parsing it back gives the
      id again, null included: "null" is not a number, so it parses to null. */
  lemma IdRoundTrip(id: Option<Long>)
    ensures ParseLong(IdString(id)) == id
  {
    match id
    case None =>
      assert !IsDigit("null"[0]);
    case Some(n) =>
      LongRoundTrip(n);
  }

  /** Two ids that are written the same are the same id. */
  lemma IdStringInjective(a: Option<Long>, b: Option<Long>)
    requires IdString(a) == IdString(b)
    ensures a == b
  {
    IdRoundTrip(a);
    IdRoundTrip(b);
  }

  /** A name holding a character that is not a digit, other than a leading sign,
      is not a long. */
  lemma ParseLongRejects(s: string, i: nat)
    requires 0 < i < |s| && !IsDigit(s[i])
    ensures ParseLong(s) == None
  {
  }

  /** Character.isWhitespace: the Unicode space separators except the three
      no-break spaces, the line and paragraph separators, and the control
      characters U+0009..U+000D and U+001C..U+001F. */
  predicate IsWhitespace(c: char) {
    var k := c as int;
    (0x09 <= k <= 0x0D) || (0x1C <= k <= 0x20)
    || k == 0x1680 || (0x2000 <= k <= 0x2006) || (0x2008 <= k <= 0x200A)
    || k == 0x2028 || k == 0x2029 || k == 0x205F || k == 0x3000
  }

  /** String.isBlank: empty, or whitespace only. */
  predicate IsBlank(s: string) {
    forall i :: 0 <= i < |s| ==> IsWhitespace(s[i])
  }
}
