/** The few PHP string primitives the modelled code relies on. */
module PhpStrings {
  import opened Wrappers

  /** PHP's truthiness of a string: only `''` and `'0'` are falsy. */
  predicate Truthy(s: string) {
    s != "" && s != "0"
  }

  /** `strpos( $s, $prefix ) === 0`. */
  predicate HasPrefix(s: string, prefix: string) {
    |prefix| <= |s| && s[..|prefix|] == prefix
  }

  function LowerChar(c: char): char {
    if 'A' <= c <= 'Z' then (c as int + 32) as char else c
  }

  function UpperChar(c: char): char {
    if 'a' <= c <= 'z' then (c as int - 32) as char else c
  }

  /** `strtolower`, on ASCII letters only (PHP's behaviour in the C locale). */
  function ToLower(s: string): (r: string)
    ensures |r| == |s|
  {
    seq(|s|, i requires 0 <= i < |s| => LowerChar(s[i]))
  }

  /** `strtoupper`, on ASCII letters only. */
  function ToUpper(s: string): (r: string)
    ensures |r| == |s|
  {
    seq(|s|, i requires 0 <= i < |s| => UpperChar(s[i]))
  }

  /** `strtr( $s, $from, $to )` with one-character `$from` and `$to`. */
  function ReplaceChar(s: string, from: char, to: char): (r: string)
    ensures |r| == |s|
  {
    seq(|s|, i requires 0 <= i < |s| => if s[i] == from then to else s[i])
  }

  predicate IsDigit(c: char) {
    '0' <= c <= '9'
  }

  predicate AllDigits(s: string) {
    forall i :: 0 <= i < |s| ==> IsDigit(s[i])
  }

  /** The number a string of decimal digits denotes. */
  function DigitsValue(s: string): nat
    requires AllDigits(s)
  {
    if s == [] then 0 else 10 * DigitsValue(s[..|s| - 1]) + (s[|s| - 1] as int - '0' as int)
  }

  /**
   * PHP array-key normalisation: a string that is a canonical decimal
   * integer (`"0"`, `"42"`, `"-7"`, but not `"007"`, `"+1"` or `" 1"`) is
   * stored and looked up as that integer; any other string stays a string.
   */
  function IntegerKey(s: string): (k: Option<int>)
    ensures |s| > 0 && !IsDigit(s[0]) && s[0] != '-' ==> k.None?
  {
    if s == "0" then Some(0)
    else if |s| > 0 && '1' <= s[0] <= '9' && AllDigits(s) then Some(DigitsValue(s))
    else if |s| > 1 && s[0] == '-' && '1' <= s[1] <= '9' && AllDigits(s[1..]) then Some(0 - DigitsValue(s[1..]) as int)
    else None
  }
}
