/**
 * Character and string helpers used on both sides of the system: decimal
 * digits, ASCII lower-casing, the whitespace classes of JavaScript's
 * String.prototype.trim and of .NET's string.IsNullOrWhiteSpace, JavaScript's
 * trim itself, and String.prototype.includes.
 */
module Text {

  // ---------------------------------------------------------------------------
  // Decimal digits
  // ---------------------------------------------------------------------------

  predicate IsDigit(c: char) {
    '0' <= c <= '9'
  }

  function DigitChar(d: nat): (c: char)
    requires d < 10
    ensures IsDigit(c) && DigitValue(c) == d
  {
    ('0' as int + d) as char
  }

  function DigitValue(c: char): int {
    c as int - '0' as int
  }

  predicate AllDigits(s: string) {
    forall i :: 0 <= i < |s| ==> IsDigit(s[i])
  }

  /** The value of a string of decimal digits, most significant first. */
  function DecimalValue(s: string): (n: nat)
    requires AllDigits(s)
  {
    if s == [] then 0 else DecimalValue(s[..|s| - 1]) * 10 + DigitValue(s[|s| - 1])
  }

  /** The shortest decimal text of n, as .NET and JavaScript print a non-negative integer. */
  function NatToDecimal(n: nat): (s: string)
    ensures 1 <= |s| && AllDigits(s)
    ensures 1 < |s| ==> s[0] != '0'
    decreases n
  {
    if n < 10 then [DigitChar(n)] else NatToDecimal(n / 10) + [DigitChar(n % 10)]
  }

  /** Reading back the decimal text of n gives n. */
  lemma {:induction false} NatToDecimalRoundTrip(n: nat)
    ensures DecimalValue(NatToDecimal(n)) == n
    decreases n
  {
    var s := NatToDecimal(n);
    if n >= 10 {
      NatToDecimalRoundTrip(n / 10);
      assert s[..|s| - 1] == NatToDecimal(n / 10);
    }
  }

  /** The decimal text of an integer as C# string interpolation writes it ('-' before negatives). */
  function IntToDecimal(n: int): (s: string)
    ensures 1 <= |s|
    ensures n >= 0 ==> s == NatToDecimal(n)
    ensures n < 0 ==> s == "-" + NatToDecimal(-n)
  {
    if n < 0 then "-" + NatToDecimal(-n) else NatToDecimal(n)
  }

  /** Distinct integers have distinct decimal texts. */
  lemma IntToDecimalInjective(m: int, n: int)
    requires IntToDecimal(m) == IntToDecimal(n)
    ensures m == n
  {
    if m >= 0 && n >= 0 {
      NatToDecimalRoundTrip(m);
      NatToDecimalRoundTrip(n);
    } else if m < 0 && n < 0 {
      assert NatToDecimal(-m) == IntToDecimal(m)[1..];
      assert NatToDecimal(-n) == IntToDecimal(n)[1..];
      NatToDecimalRoundTrip(-m);
      NatToDecimalRoundTrip(-n);
    }
  }

  // ---------------------------------------------------------------------------
  // Case
  // ---------------------------------------------------------------------------

  /** Lower-case one character; only the ASCII letters A-Z change. */
  function LowerChar(c: char): (l: char)
    ensures 'A' <= c <= 'Z' ==> l as int == c as int + 32
    ensures !('A' <= c <= 'Z') ==> l == c
  {
    if 'A' <= c <= 'Z' then (c as int + 32) as char else c
  }

  /** String lower-casing (JavaScript toLowerCase, C# ToLower) restricted to ASCII letters. */
  function Lower(s: string): (l: string)
    ensures |l| == |s|
    ensures forall i :: 0 <= i < |s| ==> l[i] == LowerChar(s[i])
  {
    seq(|s|, i requires 0 <= i < |s| => LowerChar(s[i]))
  }

  // ---------------------------------------------------------------------------
  // Whitespace
  // ---------------------------------------------------------------------------

  /** The WhiteSpace and LineTerminator code points that JavaScript's trim removes. */
  predicate IsJsWhiteSpace(c: char) {
    var n := c as int;
    n == 0x09 || n == 0x0A || n == 0x0B || n == 0x0C || n == 0x0D || n == 0x20 || n == 0xA0
    || n == 0x1680 || (0x2000 <= n <= 0x200A) || n == 0x2028 || n == 0x2029 || n == 0x202F
    || n == 0x205F || n == 0x3000 || n == 0xFEFF
  }

  /** The code points for which .NET's Char.IsWhiteSpace holds (U+0085 but not U+FEFF). */
  predicate IsDotNetWhiteSpace(c: char) {
    var n := c as int;
    (0x09 <= n <= 0x0D) || n == 0x20 || n == 0x85 || n == 0xA0
    || n == 0x1680 || (0x2000 <= n <= 0x200A) || n == 0x2028 || n == 0x2029 || n == 0x202F
    || n == 0x205F || n == 0x3000
  }

  /**
   * .NET string.IsNullOrWhiteSpace on a non-null string: a scan that stops at
   * the first character Char.IsWhiteSpace rejects.
   */
  predicate IsNullOrWhiteSpace(s: string): (b: bool)
    ensures s == [] ==> b
    ensures b <==> forall i :: 0 <= i < |s| ==> IsDotNetWhiteSpace(s[i])
  {
    s == [] || (IsDotNetWhiteSpace(s[0]) && IsNullOrWhiteSpace(s[1..]))
  }

  /** Every character of s is JavaScript whitespace (the empty string included). */
  predicate IsJsBlank(s: string) {
    forall i :: 0 <= i < |s| ==> IsJsWhiteSpace(s[i])
  }

  /** Drop leading JavaScript whitespace. */
  function TrimStart(s: string): (t: string)
    ensures |t| <= |s| && t == s[|s| - |t|..]
    ensures IsJsBlank(s[..|s| - |t|])
    ensures t != [] ==> !IsJsWhiteSpace(t[0])
  {
    if s != [] && IsJsWhiteSpace(s[0]) then
      var t := TrimStart(s[1..]);
      assert s[..|s| - |t|] == [s[0]] + s[1..][..|s| - 1 - |t|];
      t
    else s
  }

  /** Drop trailing JavaScript whitespace. */
  function TrimEnd(s: string): (t: string)
    ensures |t| <= |s| && t == s[..|t|]
    ensures IsJsBlank(s[|t|..])
    ensures t != [] ==> !IsJsWhiteSpace(t[|t| - 1])
  {
    if s != [] && IsJsWhiteSpace(s[|s| - 1]) then
      var t := TrimEnd(s[..|s| - 1]);
      assert s[|t|..] == s[..|s| - 1][|t|..] + [s[|s| - 1]];
      t
    else s
  }

  /**
   * JavaScript String.prototype.trim: never longer than s, and neither
   * starting nor ending with whitespace.
   */
  function Trim(s: string): (t: string)
    ensures |t| <= |s|
    ensures t != [] ==> !IsJsWhiteSpace(t[0]) && !IsJsWhiteSpace(t[|t| - 1])
  {
    var u := TrimStart(s);
    var t := TrimEnd(u);
    assert t != [] ==> u != [] && t[0] == u[..|t|][0] == u[0];
    t
  }

  /** The trimmed string is empty exactly when the string is all whitespace. */
  lemma TrimEmptyIffBlank(s: string)
    ensures Trim(s) == [] <==> IsJsBlank(s)
  {
    var t := TrimStart(s);
    if !IsJsBlank(s) {
      var i :| 0 <= i < |s| && !IsJsWhiteSpace(s[i]);
      assert i >= |s| - |t|;
      assert t != [];
    }
  }

  // ---------------------------------------------------------------------------
  // Substring search
  // ---------------------------------------------------------------------------

  /** part occurs in s starting at index i. */
  predicate OccursAt(s: string, part: string, i: int) {
    0 <= i && i + |part| <= |s| && s[i..i + |part|] == part
  }

  /** JavaScript String.prototype.includes: does part occur anywhere in s? */
  function Includes(s: string, part: string): (b: bool)
    ensures b <==> exists i :: OccursAt(s, part, i)
    decreases |s|
  {
    if |part| <= |s| && s[..|part|] == part then
      assert OccursAt(s, part, 0);
      true
    else if s == [] then
      false
    else
      IncludesShift(s, part);
      Includes(s[1..], part)
  }

  /** An occurrence in s other than at 0 is an occurrence in s[1..], and conversely. */
  lemma IncludesShift(s: string, part: string)
    requires s != [] && !OccursAt(s, part, 0)
    ensures (exists i :: OccursAt(s, part, i)) <==> (exists i :: OccursAt(s[1..], part, i))
  {
    if i :| OccursAt(s, part, i) {
      assert i > 0;
      assert s[1..][i - 1..i - 1 + |part|] == s[i..i + |part|];
      assert OccursAt(s[1..], part, i - 1);
    }
    if i :| OccursAt(s[1..], part, i) {
      assert s[1..][i..i + |part|] == s[i + 1..i + 1 + |part|];
      assert OccursAt(s, part, i + 1);
    }
  }
}
