/**
 * The JavaScript number behaviour the handlers depend on: `parseInt`, the
 * NaN/Infinity results of `Math.max`, `Math.min`, `Math.ceil` and division,
 * and the decimal text of an integer.
 */
module JsNumbers {
  import opened Wrappers
  import opened JsText

  /** An integral JavaScript number, or one of the two non-finite values the handlers can produce. */
  datatype Number = Finite(n: int) | NaN | Infinity

  predicate IsDecimalDigit(c: char) {
    '0' <= c <= '9'
  }

  predicate IsHexDigit(c: char) {
    IsDecimalDigit(c) || 'a' <= c <= 'f' || 'A' <= c <= 'F'
  }

  predicate IsRadixDigit(c: char, hex: bool) {
    if hex then IsHexDigit(c) else IsDecimalDigit(c)
  }

  function DigitValue(c: char): (d: nat)
    requires IsHexDigit(c)
    ensures d < 16
    ensures IsDecimalDigit(c) ==> d < 10
  {
    if IsDecimalDigit(c) then c as int - '0' as int
    else if 'a' <= c <= 'f' then c as int - 'a' as int + 10
    else c as int - 'A' as int + 10
  }

  /** The decimal digit character for `d`. */
  function DigitChar(d: nat): (c: char)
    requires d < 10
    ensures IsDecimalDigit(c) && DigitValue(c) == d
  {
    ('0' as int + d) as char
  }

  /** The number of leading characters of `s` that are digits of the radix. */
  function DigitRun(s: string, hex: bool): (k: nat)
    ensures k <= |s|
    ensures forall i :: 0 <= i < k ==> IsRadixDigit(s[i], hex)
    ensures k < |s| ==> !IsRadixDigit(s[k], hex)
  {
    if s == [] || !IsRadixDigit(s[0], hex) then 0 else 1 + DigitRun(s[1..], hex)
  }

  /** The value of a string of digits in base 10 or 16, most significant first. */
  function DigitsValue(s: string, hex: bool): (v: nat)
    requires forall i :: 0 <= i < |s| ==> IsRadixDigit(s[i], hex)
  {
    if s == [] then 0
    else
      assert IsRadixDigit(s[|s| - 1], hex);
      DigitsValue(s[..|s| - 1], hex) * (if hex then 16 else 10) + DigitValue(s[|s| - 1])
  }

  /**
   * `parseInt(s)` with no radix: leading white space is skipped, one sign is
   * read, and the rest is read by `ParseUnsigned`; no digits at all gives NaN
   * (here `None`).
   */
  function ParseInt(s: string): (r: Option<int>)
    ensures TrimStart(s) == [] ==> r.None?
    ensures r.Some? && r.value < 0 ==> TrimStart(s)[0] == '-'
  {
    var t := TrimStart(s);
    if |t| > 0 && t[0] == '-' then
      match ParseUnsigned(t[1..])
      case None => None
      case Some(v) => Some(-(v as int))
    else if |t| > 0 && t[0] == '+' then
      ParseUnsigned(t[1..])
    else
      ParseUnsigned(t)
  }

  /** The unsigned part of `parseInt`: a `0x`/`0X` prefix selects base 16, then the longest run of digits is the value. */
  function ParseUnsigned(u: string): (r: Option<nat>)
    ensures r.None? <==> (if HasHexPrefix(u) then DigitRun(u[2..], true) else DigitRun(u, false)) == 0
  {
    var hex := HasHexPrefix(u);
    var digits := if hex then u[2..] else u;
    var k := DigitRun(digits, hex);
    if k == 0 then None else Some(DigitsValue(digits[..k], hex))
  }

  /** The empty string has no digits: `parseInt("")` is NaN. */
  lemma ParseIntEmpty()
    ensures ParseInt("") == None
  {
    assert TrimStart("") == "";
  }

  predicate HasHexPrefix(u: string) {
    |u| >= 2 && u[0] == '0' && (u[1] == 'x' || u[1] == 'X')
  }

  /** The decimal text of a natural number, without leading zeros. */
  function ShowNat(n: nat): (s: string)
    ensures |s| >= 1
    ensures forall i :: 0 <= i < |s| ==> IsDecimalDigit(s[i])
    ensures |s| >= 2 ==> s[0] != '0'
  {
    if n < 10 then [DigitChar(n)] else ShowNat(n / 10) + [DigitChar(n % 10)]
  }

  /** The decimal text of an integer, as `String(n)` writes it. */
  function ShowInt(n: int): string {
    if n < 0 then "-" + ShowNat(-n) else ShowNat(n)
  }

  /** Reading back the decimal text of a natural number gives the number. */
  lemma {:induction false} DigitsValueShowNat(n: nat)
    ensures DigitsValue(ShowNat(n), false) == n
  {
    if n >= 10 {
      var s := ShowNat(n);
      DigitsValueShowNat(n / 10);
      assert s[..|s| - 1] == ShowNat(n / 10);
    }
  }

  /** A run of digits that fills the whole string is the whole string. */
  lemma {:induction false} DigitRunAll(s: string, hex: bool)
    requires forall i :: 0 <= i < |s| ==> IsRadixDigit(s[i], hex)
    ensures DigitRun(s, hex) == |s|
  {
    if s != [] {
      DigitRunAll(s[1..], hex);
    }
  }

  /** The unsigned reader takes back the decimal text of a natural number. */
  lemma ParseUnsignedShowNat(m: nat)
    ensures ParseUnsigned(ShowNat(m)) == Some(m)
  {
    var d := ShowNat(m);
    assert !HasHexPrefix(d);
    DigitRunAll(d, false);
    assert d[..|d|] == d;
    DigitsValueShowNat(m);
  }

  /** `parseInt` reads back what `String` writes, for every integer. */
  lemma ParseIntShowInt(n: int)
    ensures ParseInt(ShowInt(n)) == Some(n)
  {
    var m: nat := if n < 0 then -n else n;
    var s := ShowInt(n);
    ParseUnsignedShowNat(m);
    assert !IsSpace(s[0]);
    assert TrimStart(s) == s;
    if n < 0 {
      assert s[1..] == ShowNat(m);
    } else {
      assert s[0] != '-' && s[0] != '+';
    }
  }

  /** `parseInt` stops at the first character that is not a digit: `"12abc"` reads as 12. */
  lemma ParseIntStopsAtNonDigit()
    ensures ParseInt("12abc") == Some(12)
  {
    var a := "12abc";
    assert !IsSpace(a[0]) && a[0] != '-' && a[0] != '+';
    assert TrimStart(a) == a;
    assert DigitRun("12abc", false) == 2 by {
      assert "12abc"[1..] == "2abc" && "2abc"[1..] == "abc";
    }
    assert "12abc"[..2] == "12";
    assert "12"[..1] == "1" && "1"[..0] == "";
    assert DigitsValue("1", false) == 1;
  }

  /** Text with no digit at the front is NaN. */
  lemma ParseIntNoDigits()
    ensures ParseInt("abc") == None
    ensures ParseInt("") == None
  {
    var a := "abc";
    assert a[0] == 'a' && !IsSpace(a[0]) && !IsRadixDigit(a[0], false);
    assert TrimStart(a) == a;
    assert !HasHexPrefix(a);
    assert DigitRun(a, false) == 0;
  }

  /** A `0x` prefix reads the rest in base 16. */
  lemma ParseIntHex()
    ensures ParseInt("0x1F") == Some(31)
  {
    var a := "0x1F";
    assert !IsSpace(a[0]) && a[0] != '-' && a[0] != '+';
    assert TrimStart(a) == a;
    assert HasHexPrefix("0x1F");
    assert "0x1F"[2..] == "1F";
    assert DigitRun("1F", true) == 2 by {
      assert "1F"[1..] == "F" && "F"[1..] == "";
    }
    assert "1F"[..2] == "1F" && "1F"[..1] == "1" && "1"[..0] == "";
    assert DigitsValue("1", true) == 1;
  }

  /** `Math.max(a, b)`: NaN when either is NaN. */
  function Max(a: Option<int>, b: Option<int>): (r: Option<int>)
    ensures r.Some? <==> a.Some? && b.Some?
    ensures r.Some? ==> r.value >= a.value && r.value >= b.value
    ensures r.Some? ==> r.value == a.value || r.value == b.value
  {
    if a.None? || b.None? then None else Some(if a.value >= b.value then a.value else b.value)
  }

  /** `Math.min(a, b)`: NaN when either is NaN. */
  function Min(a: Option<int>, b: Option<int>): (r: Option<int>)
    ensures r.Some? <==> a.Some? && b.Some?
    ensures r.Some? ==> r.value <= a.value && r.value <= b.value
    ensures r.Some? ==> r.value == a.value || r.value == b.value
  {
    if a.None? || b.None? then None else Some(if a.value <= b.value then a.value else b.value)
  }

  /** The exact ceiling of the rational `a / b`, for a non-zero integer divisor. */
  function CeilDiv(a: int, b: int): (r: int)
    requires b != 0
    ensures b > 0 ==> (r - 1) * b < a <= r * b
    ensures b < 0 ==> r * b <= a < (r - 1) * b
  {
    if b > 0 then -((-a) / b) else a / b
  }

  /** `Math.ceil(total / limit)` for a count and a possibly-NaN integer limit. */
  function CeilRatio(total: nat, limit: Option<int>): (r: Number)
    ensures limit.None? ==> r == NaN
    ensures limit == Some(0) ==> r == (if total == 0 then NaN else Infinity)
    ensures limit.Some? && limit.value > 0 ==> r.Finite? && (r.n - 1) * limit.value < total <= r.n * limit.value
  {
    match limit
    case None => NaN
    case Some(l) =>
      if l == 0 then (if total == 0 then NaN else Infinity)
      else Finite(CeilDiv(total, l))
  }

  /** JavaScript `a < b` for an integer-or-NaN left side: any comparison with NaN is false. */
  predicate Less(a: Option<int>, b: Number) {
    a.Some? && match b
               case Finite(n) => a.value < n
               case NaN => false
               case Infinity => true
  }

  /** `(a - 1) * b` on integer-or-NaN operands. */
  function SkipCount(page: Option<int>, limit: Option<int>): (r: Option<int>)
    ensures r.Some? <==> page.Some? && limit.Some?
    ensures r.Some? && page.value >= 1 && limit.value >= 0 ==> r.value >= 0
  {
    if page.None? || limit.None? then None
    else
      assert page.value >= 1 && limit.value >= 0 ==> (page.value - 1) * limit.value >= 0 by {
        if page.value >= 1 && limit.value >= 0 {
          MulNonNegative(page.value - 1, limit.value);
        }
      }
      Some((page.value - 1) * limit.value)
  }

  lemma MulNonNegative(a: int, b: int)
    requires a >= 0 && b >= 0
    ensures a * b >= 0
  {
  }
}
