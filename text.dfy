/**
 * The few pieces of Python's string handling the ingestion pipeline relies on:
 * `str.strip()`, `int()` on a string, `str()` of a non-negative int and
 * `", ".join(...)`.
 */
module Text {
  import opened Wrappers

  /** Python's `str.isspace()`: the characters `str.strip()` removes. */
  predicate IsSpace(c: char) {
    var n := c as int;
    || (0x09 <= n <= 0x0D) || (0x1C <= n <= 0x20) || n == 0x85 || n == 0xA0
    || n == 0x1680 || (0x2000 <= n <= 0x200A) || n == 0x2028 || n == 0x2029
    || n == 0x202F || n == 0x205F || n == 0x3000
  }

  /**
   * The whitespace `int()` skips around its literal. CPython keeps every ASCII
   * character of the string as it is, turns every other `isspace()` character
   * into a blank, and then skips only " \t\n\v\f\r"; so the separators
   * U+001C..U+001F, which `str.strip()` removes, make `int()` fail.
   */
  predicate IsIntSpace(c: char) {
    IsSpace(c) && !(0x1C <= c as int <= 0x1F)
  }

  /** Which whitespace a trim removes: that of `str.strip()` or that of `int()`. */
  datatype Blanks = StrBlanks | IntBlanks

  predicate IsBlank(w: Blanks, c: char) {
    match w
    case StrBlanks => IsSpace(c)
    case IntBlanks => IsIntSpace(c)
  }

  /** Removes leading whitespace. */
  function TrimStart(s: string, w: Blanks): (r: string)
    ensures |r| <= |s| && r == s[|s| - |r|..]
    ensures r == [] || !IsBlank(w, r[0])
  {
    if s != [] && IsBlank(w, s[0]) then TrimStart(s[1..], w) else s
  }

  /** What `TrimStart` drops is whitespace. */
  lemma {:induction false} TrimStartDropsSpace(s: string, w: Blanks)
    ensures forall i :: 0 <= i < |s| - |TrimStart(s, w)| ==> IsBlank(w, s[i])
  {
    if s != [] && IsBlank(w, s[0]) {
      TrimStartDropsSpace(s[1..], w);
    }
  }

  /** Removes trailing whitespace. */
  function TrimEnd(s: string, w: Blanks): (r: string)
    ensures |r| <= |s| && r == s[..|r|]
    ensures r == [] || !IsBlank(w, r[|r| - 1])
  {
    if s != [] && IsBlank(w, s[|s| - 1]) then TrimEnd(s[..|s| - 1], w) else s
  }

  /** What `TrimEnd` drops is whitespace. */
  lemma {:induction false} TrimEndDropsSpace(s: string, w: Blanks)
    ensures forall i :: |TrimEnd(s, w)| <= i < |s| ==> IsBlank(w, s[i])
  {
    if s != [] && IsBlank(w, s[|s| - 1]) {
      TrimEndDropsSpace(s[..|s| - 1], w);
    }
  }

  /** Removes whitespace at both ends. */
  function Trim(s: string, w: Blanks): (r: string)
    ensures |r| <= |s|
  {
    TrimEnd(TrimStart(s, w), w)
  }

  /** Python's `str.strip()` without arguments. */
  function Strip(s: string): (r: string)
    ensures |r| <= |s|
  {
    Trim(s, StrBlanks)
  }

  /** `Trim` leaves no whitespace at either end, and leaves a trimmed string as it is. */
  lemma TrimTrimmed(s: string, w: Blanks)
    ensures var r := Trim(s, w); r == [] || (!IsBlank(w, r[0]) && !IsBlank(w, r[|r| - 1]))
    ensures (s == [] || (!IsBlank(w, s[0]) && !IsBlank(w, s[|s| - 1]))) ==> Trim(s, w) == s
  {
  }

  /** A string trims to nothing exactly when every character of it is whitespace. */
  lemma TrimBlank(s: string, w: Blanks)
    ensures Trim(s, w) == [] <==> forall i :: 0 <= i < |s| ==> IsBlank(w, s[i])
  {
    var t := TrimStart(s, w);
    var k := |s| - |t|;
    TrimStartDropsSpace(s, w);
    TrimEndDropsSpace(t, w);
    if Trim(s, w) == [] {
      assert t == [];
    } else {
      var j := k;
      assert s[j] == Trim(s, w)[0];
    }
  }

  /** Every non-whitespace character of `s` survives trimming. */
  lemma TrimKeeps(s: string, w: Blanks, i: int)
    requires 0 <= i < |s| && !IsBlank(w, s[i])
    ensures s[i] in Trim(s, w)
  {
    var t := TrimStart(s, w);
    var k := |s| - |t|;
    TrimStartDropsSpace(s, w);
    TrimEndDropsSpace(t, w);
    assert i >= k;
    assert t[i - k] == s[i];
    assert i - k < |Trim(s, w)|;
    assert Trim(s, w)[i - k] == s[i];
  }

  predicate IsDigit(c: char) {
    '0' <= c <= '9'
  }

  predicate AllDigits(s: string) {
    forall i :: 0 <= i < |s| ==> IsDigit(s[i])
  }

  function DigitChar(d: nat): (c: char)
    requires d < 10
    ensures IsDigit(c) && c as int - '0' as int == d
  {
    "0123456789"[d]
  }

  /** The decimal value of a string of ASCII digits, most significant first. */
  function DigitsValue(s: string): nat
    requires AllDigits(s)
  {
    if s == [] then 0 else DigitsValue(s[..|s| - 1]) * 10 + (s[|s| - 1] as int - '0' as int)
  }

  /** Python's `str(n)` for a non-negative int: decimal digits, no leading zero. */
  function NatToString(n: nat): (s: string)
    ensures |s| > 0
  {
    if n < 10 then [DigitChar(n)] else NatToString(n / 10) + [DigitChar(n % 10)]
  }

  /** `NatToString` writes decimal digits without a leading zero. */
  lemma {:induction false} NatToStringDigits(n: nat)
    ensures AllDigits(NatToString(n))
    ensures |NatToString(n)| > 1 ==> NatToString(n)[0] != '0'
  {
    if n >= 10 {
      NatToStringDigits(n / 10);
    }
  }

  /** `NatToString` is read back by `DigitsValue`. */
  lemma {:induction false} DigitsValueOfNatToString(n: nat)
    ensures AllDigits(NatToString(n)) && DigitsValue(NatToString(n)) == n
  {
    NatToStringDigits(n);
    if n >= 10 {
      var s := NatToString(n);
      assert s[..|s| - 1] == NatToString(n / 10);
      DigitsValueOfNatToString(n / 10);
    }
  }

  /** What `int()` accepts after the sign: digits, single underscores between digits. */
  predicate IsDecimalLiteral(t: string) {
    && |t| > 0 && IsDigit(t[0])
    && (|t| == 1 || (if t[1] == '_' then |t| > 2 && IsDecimalLiteral(t[2..]) else IsDecimalLiteral(t[1..])))
  }

  /** A decimal literal is made of digits and underscores. */
  lemma {:induction false} DecimalLiteralChars(t: string)
    requires IsDecimalLiteral(t)
    ensures forall i :: 0 <= i < |t| ==> IsDigit(t[i]) || t[i] == '_'
  {
    if |t| > 1 {
      if t[1] == '_' {
        DecimalLiteralChars(t[2..]);
        assert forall i :: 2 <= i < |t| ==> t[2..][i - 2] == t[i];
      } else {
        DecimalLiteralChars(t[1..]);
        assert forall i :: 1 <= i < |t| ==> t[1..][i - 1] == t[i];
      }
    }
  }

  /** A non-empty run of digits is a decimal literal. */
  lemma {:induction false} DigitsAreDecimalLiteral(t: string)
    requires |t| > 0 && AllDigits(t)
    ensures IsDecimalLiteral(t)
  {
    if |t| > 1 {
      assert AllDigits(t[1..]) by {
        assert forall i :: 0 <= i < |t| - 1 ==> t[1..][i] == t[i + 1];
      }
      DigitsAreDecimalLiteral(t[1..]);
    }
  }

  /** The characters of `t` other than `_`, in order. */
  function RemoveUnderscores(t: string): (r: string)
    ensures |r| <= |t|
  {
    if t == [] then [] else (if t[0] == '_' then [] else [t[0]]) + RemoveUnderscores(t[1..])
  }

  /** Dropping the underscores of digits and underscores leaves digits; digits alone are kept. */
  lemma {:induction false} RemoveUnderscoresDigits(t: string)
    ensures (forall i :: 0 <= i < |t| ==> IsDigit(t[i]) || t[i] == '_') ==> AllDigits(RemoveUnderscores(t))
    ensures AllDigits(t) ==> RemoveUnderscores(t) == t
  {
    if t != [] {
      RemoveUnderscoresDigits(t[1..]);
      assert forall i :: 1 <= i < |t| ==> t[1..][i - 1] == t[i];
    }
  }

  /** The value of a decimal literal: its digits read with the underscores left out. */
  function LiteralValue(t: string): nat
    requires IsDecimalLiteral(t)
  {
    DecimalLiteralChars(t);
    RemoveUnderscoresDigits(t);
    DigitsValue(RemoveUnderscores(t))
  }

  /** An optional sign, then a decimal literal. */
  function ParseSigned(t: string): Option<int> {
    var body := if |t| > 0 && (t[0] == '+' || t[0] == '-') then t[1..] else t;
    if !IsDecimalLiteral(body) then None
    else if |t| > 0 && t[0] == '-' then Some(0 - LiteralValue(body))
    else Some(LiteralValue(body))
  }

  /**
   * Python's `int(s)` in base 10 on a string: the whitespace of `IsIntSpace`
   * around it is ignored, then an optional sign, then a decimal literal;
   * anything else is the `ValueError` case, here `None`.
   */
  function ParseInt(s: string): Option<int> {
    ParseSigned(Trim(s, IntBlanks))
  }

  /** A run of digits has no whitespace to trim. */
  lemma DigitsTrimmed(s: string)
    requires |s| > 0 && AllDigits(s)
    ensures Trim(s, IntBlanks) == s
  {
    assert !IsBlank(IntBlanks, s[0]) && !IsBlank(IntBlanks, s[|s| - 1]);
    TrimTrimmed(s, IntBlanks);
  }

  /** `int()` reads a non-empty run of ASCII digits as its decimal value. */
  lemma ParseIntOfDigits(s: string)
    requires |s| > 0 && AllDigits(s)
    ensures ParseInt(s) == Some(DigitsValue(s) as int)
  {
    DigitsTrimmed(s);
    DigitsAreDecimalLiteral(s);
    RemoveUnderscoresDigits(s);
    assert ParseSigned(s) == Some(LiteralValue(s) as int);
  }

  /** `int(str(n)) == n`: the pipeline's own number formatting parses back. */
  lemma ParseIntOfNatToString(n: nat)
    ensures ParseInt(NatToString(n)) == Some(n)
  {
    DigitsValueOfNatToString(n);
    ParseIntOfDigits(NatToString(n));
  }

  /** A character that is no whitespace, digit, sign or underscore makes `int()` fail. */
  lemma ParseIntRejects(s: string, i: int)
    requires 0 <= i < |s|
    requires !IsIntSpace(s[i]) && !IsDigit(s[i]) && s[i] !in "+-_"
    ensures ParseInt(s) == None
  {
    TrimKeeps(s, IntBlanks, i);
    var t := Trim(s, IntBlanks);
    var j :| 0 <= j < |t| && t[j] == s[i];
    var body := if |t| > 0 && (t[0] == '+' || t[0] == '-') then t[1..] else t;
    if |t| > 0 && (t[0] == '+' || t[0] == '-') {
      assert j > 0;
      assert body[j - 1] == s[i];
    } else {
      assert body[j] == s[i];
    }
    if IsDecimalLiteral(body) {
      DecimalLiteralChars(body);
    }
  }

  /**
   * The information separators U+001C..U+001F are whitespace to `str.strip()`
   * but not to `int()`: a cell that starts with one strips as if it were not
   * there, yet `int()` rejects it ("\x1c5" strips to "5" but does not parse).
   */
  lemma SeparatorsFailInt(s: string)
    requires |s| > 0 && 0x1C <= s[0] as int <= 0x1F
    ensures IsSpace(s[0]) && Strip(s) == Strip(s[1..])
    ensures ParseInt(s) == None
  {
    ParseIntRejects(s, 0);
  }

  /** Python's `sep.join(parts)`. */
  function Join(parts: seq<string>, sep: string): string {
    if |parts| == 0 then ""
    else if |parts| == 1 then parts[0]
    else parts[0] + sep + Join(parts[1..], sep)
  }

  /** Python's `needle in hay` on strings. */
  predicate Contains(hay: string, needle: string) {
    exists i :: 0 <= i <= |hay| && needle <= hay[i..]
  }

  /** Every part occurs in the joined string. */
  lemma {:induction false} JoinContains(parts: seq<string>, sep: string, k: int)
    requires 0 <= k < |parts|
    ensures Contains(Join(parts, sep), parts[k])
  {
    var joined := Join(parts, sep);
    if |parts| == 1 {
      assert parts[k] <= joined[0..];
    } else if k == 0 {
      assert parts[0] <= joined[0..];
    } else {
      JoinContains(parts[1..], sep, k - 1);
      var rest := Join(parts[1..], sep);
      var i :| 0 <= i <= |rest| && parts[k] <= rest[i..];
      var off := |parts[0] + sep|;
      assert joined == parts[0] + sep + rest;
      assert joined[off + i..] == rest[i..];
    }
  }

  /** `s.endswith(suffix)`. */
  predicate EndsWith(s: string, suffix: string) {
    |suffix| <= |s| && s[|s| - |suffix|..] == suffix
  }
}
