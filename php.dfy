/** The PHP built-ins the server side relies on, on strings: `empty`, `trim`, `preg_match`'s `$`
    anchor and case-insensitive hex classes, and `intval`/`abs` for `absint`. */
module Php {
  import opened Text

  /** `empty($s)` for a string: true for '' and '0' only. */
  predicate Empty(s: string) {
    s == "" || s == "0"
  }

  /** The characters `trim()` strips by default: space, \t, \n, \r, \0 and \x0B. */
  predicate IsTrimChar(c: char) {
    c == ' ' || c == '\t' || c == '\n' || c == '\r' || c == '\0' || c == '\U{000B}'
  }

  function TrimLeft(s: string): (r: string)
    ensures |r| <= |s|
    ensures r != [] ==> !IsTrimChar(r[0])
  {
    if s != [] && IsTrimChar(s[0]) then TrimLeft(s[1..]) else s
  }

  function TrimRight(s: string): (r: string)
    ensures |r| <= |s|
    ensures r != [] ==> !IsTrimChar(r[|r| - 1]) && r[0] == s[0]
  {
    if s != [] && IsTrimChar(s[|s| - 1]) then TrimRight(s[..|s| - 1]) else s
  }

  /** `trim($s)`. */
  function Trim(s: string): (r: string)
    ensures r != [] ==> !IsTrimChar(r[0]) && !IsTrimChar(r[|r| - 1])
  {
    TrimRight(TrimLeft(s))
  }

  /** `[a-f0-9]` under the `/i` flag. */
  predicate IsHexCI(c: char) {
    IsDigit(c) || ('a' <= c <= 'f') || ('A' <= c <= 'F')
  }

  predicate AllHexCI(s: string) {
    forall i :: 0 <= i < |s| ==> IsHexCI(s[i])
  }

  /** `preg_match('/^X$/', $s)` for a pattern X that matches exactly the strings `body` accepts:
      PCRE's `$` also matches before one final "\n". */
  predicate DollarMatch(s: string, body: string -> bool) {
    body(s) || (s != [] && s[|s| - 1] == '\n' && body(s[..|s| - 1]))
  }

  /** `(int)` / `intval()` of a decimal string: optional leading whitespace and sign, then the
      longest run of digits; 0 when there are none. */
  function IntvalString(s: string): int {
    var t := SkipIntSpace(s);
    if t != [] && t[0] == '-' then -DecimalValue(DigitPrefix(t[1..]))
    else if t != [] && t[0] == '+' then DecimalValue(DigitPrefix(t[1..]))
    else DecimalValue(DigitPrefix(t))
  }

  /** The whitespace `intval` skips before the number: space, \t, \n, \r, \x0B and \f. */
  function SkipIntSpace(s: string): (r: string)
    ensures |r| <= |s|
  {
    if s != [] && (s[0] == ' ' || s[0] == '\t' || s[0] == '\n' || s[0] == '\r' || s[0] == '\U{000B}' || s[0] == '\U{000C}')
    then SkipIntSpace(s[1..]) else s
  }

  function DigitPrefix(s: string): (r: string)
    ensures |r| <= |s| && forall i :: 0 <= i < |r| ==> IsDigit(r[i])
  {
    if s != [] && IsDigit(s[0]) then [s[0]] + DigitPrefix(s[1..]) else ""
  }

  /** The text of every non-negative integer reads back as that integer. */
  lemma IntvalOfNatString(n: nat)
    ensures IntvalString(NatToString(n)) == n
  {
    var s := NatToString(n);
    assert SkipIntSpace(s) == s by {
      assert IsDigit(s[0]);
    }
    DigitPrefixAll(s);
    NatToStringValue(n);
  }

  lemma {:induction false} DigitPrefixAll(s: string)
    requires forall i :: 0 <= i < |s| ==> IsDigit(s[i])
    ensures DigitPrefix(s) == s
  {
    if s != [] {
      DigitPrefixAll(s[1..]);
    }
  }

  /** The sign of `DecimalValue` over digits. */
  lemma {:induction false} DecimalValueNonNegative(s: string)
    requires forall i :: 0 <= i < |s| ==> IsDigit(s[i])
    ensures DecimalValue(s) >= 0
  {
    if s != [] {
      DecimalValueNonNegative(s[..|s| - 1]);
    }
  }

  /** `abs($n)`. */
  function Abs(n: int): nat {
    if n < 0 then -n else n
  }

  // ---------------------------------------------------------------- values and loose comparison

  /** A PHP value as the settings code sees it: option values, form fields and block attributes.
      Arrays are lists. */
  datatype Value = Null | Bool(b: bool) | Int(i: int) | Str(s: string) | Arr(items: seq<Value>)

  predicate IsIntSpace(c: char) {
    c == ' ' || c == '\t' || c == '\n' || c == '\r' || c == '\U{000B}' || c == '\U{000C}'
  }

  /** The sign and digits after `intval`'s leading whitespace. */
  function Unsigned(t: string): string {
    if t != [] && (t[0] == '-' || t[0] == '+') then t[1..] else t
  }

  /** An integer numeric string in PHP 8: optional surrounding whitespace, an optional sign and at
      least one digit. */
  predicate IsIntegerString(s: string) {
    var u := Unsigned(SkipIntSpace(s));
    var d := DigitPrefix(u);
    d != [] && forall i :: |d| <= i < |u| ==> IsIntSpace(u[i])
  }

  /** `(bool) $v`. */
  predicate Truthy(v: Value) {
    match v
    case Null => false
    case Bool(b) => b
    case Int(i) => i != 0
    case Str(s) => !Empty(s)
    case Arr(items) => items != []
  }

  /** `intval($v)`. */
  function Intval(v: Value): int {
    match v
    case Null => 0
    case Bool(b) => if b then 1 else 0
    case Int(i) => i
    case Str(s) => IntvalString(s)
    case Arr(items) => if items == [] then 0 else 1
  }

  /** `absint($v)`: `abs(intval($v))`. */
  function AbsInt(v: Value): nat {
    Abs(Intval(v))
  }

  /** `(string) $v` for scalars; an array converts to 'Array'. */
  function ToText(v: Value): string {
    match v
    case Null => ""
    case Bool(b) => if b then "1" else ""
    case Int(i) => IntToString(i)
    case Str(s) => s
    case Arr(_) => "Array"
  }

  /** `$v == $s` in PHP 8 for a string `s`. */
  predicate LooseEqualsString(v: Value, s: string) {
    match v
    case Null => s == ""
    case Bool(b) => b == !Empty(s)
    case Int(i) => if IsIntegerString(s) then i == IntvalString(s) else IntToString(i) == s
    case Str(t) => if IsIntegerString(t) && IsIntegerString(s) then IntvalString(t) == IntvalString(s) else t == s
    case Arr(_) => false
  }

  /** `$v == $n` in PHP 8 for an integer `n`. */
  predicate LooseEqualsInt(v: Value, n: int) {
    match v
    case Null => n == 0
    case Bool(b) => b == (n != 0)
    case Int(i) => i == n
    case Str(t) => if IsIntegerString(t) then IntvalString(t) == n else t == IntToString(n)
    case Arr(_) => false
  }

  /** `in_array($v, $haystack)` (loose) over a list of strings. */
  predicate InArray(v: Value, haystack: seq<string>) {
    exists i :: 0 <= i < |haystack| && LooseEqualsString(v, haystack[i])
  }

  /** A word that does not start like a number (after whitespace and sign) is compared by plain
      string equality, whatever it is compared with. */
  lemma WordComparesExactly(t: string, s: string)
    requires s != [] && !IsIntSpace(s[0]) && s[0] != '-' && s[0] != '+' && !IsDigit(s[0])
    ensures LooseEqualsString(Str(t), s) <==> t == s
  {
    assert SkipIntSpace(s) == s;
    assert Unsigned(s) == s;
    assert DigitPrefix(s) == "";
  }

  // ---------------------------------------------------------------- hex and substrings

  /** The value of a hex digit of either case. */
  function HexCIValue(c: char): (v: nat)
    ensures v < 16
  {
    if '0' <= c <= '9' then c as int - '0' as int
    else if 'a' <= c <= 'f' then c as int - 'a' as int + 10
    else if 'A' <= c <= 'F' then c as int - 'A' as int + 10
    else 0
  }

  /** `hexdec($s)`: the hex digits of `s` read as a number; any other character is ignored. */
  function HexDec(s: string): nat
    decreases |s|
  {
    if s == [] then 0
    else if IsHexCI(s[|s| - 1]) then 16 * HexDec(s[..|s| - 1]) + HexCIValue(s[|s| - 1])
    else HexDec(s[..|s| - 1])
  }

  /** `substr($s, $start, $length)` for non-negative arguments. */
  function Substr(s: string, start: nat, length: nat): (r: string)
    ensures |r| <= length
  {
    if start >= |s| then "" else s[start..if start + length <= |s| then start + length else |s|]
  }

  /** `str_replace($c, '', $s)` for one character. */
  function Without(s: string, c: char): (r: string)
    ensures c !in r
    decreases |s|
  {
    if s == [] then "" else (if s[0] == c then "" else [s[0]]) + Without(s[1..], c)
  }

  lemma {:induction false} WithoutAbsent(s: string, c: char)
    requires c !in s
    ensures Without(s, c) == s
    decreases |s|
  {
    if s != [] {
      WithoutAbsent(s[1..], c);
    }
  }
}
