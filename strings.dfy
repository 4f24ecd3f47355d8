/** Text helpers with the meaning the helpdesk's string handling relies on:
    decimal rendering of integers (`str(n)`), digit strings (`str.isdigit`),
    the integer literals `int()` reads,
    whitespace stripping (`str.strip`), slicing a prefix (`s[:n]`), the last
    path component (`s.rsplit("/", 1)[-1]`) and lower-casing (`str.lower`). */
module Strings {
  import opened Wrappers

  predicate IsDigit(c: char) { '0' <= c <= '9' }

  /** `str.isdigit()` restricted to ASCII digits: non-empty and all digits. */
  predicate IsDigits(s: string) {
    |s| > 0 && forall i :: 0 <= i < |s| ==> IsDigit(s[i])
  }

  function DigitChar(d: nat): (c: char)
    requires d < 10
    ensures IsDigit(c) && (c as int) - ('0' as int) == d
  {
    ['0', '1', '2', '3', '4', '5', '6', '7', '8', '9'][d]
  }

  /** `str(n)` for a non-negative integer. */
  function NatToString(n: nat): (s: string)
    ensures IsDigits(s)
    decreases n
  {
    if n < 10 then [DigitChar(n)] else NatToString(n / 10) + [DigitChar(n % 10)]
  }

  /** The value of a string of decimal digits (`int(s)` when `s.isdigit()`). */
  function DigitsValue(s: string): (n: nat)
    requires forall i :: 0 <= i < |s| ==> IsDigit(s[i])
    decreases |s|
  {
    if s == [] then 0
    else
      assert IsDigit(s[|s| - 1]);
      10 * DigitsValue(s[..|s| - 1]) + ((s[|s| - 1] as int) - ('0' as int))
  }

  /** Parsing a rendered number gives the number back. */
  lemma {:induction false} DigitsValueOfNatToString(n: nat)
    ensures DigitsValue(NatToString(n)) == n
    decreases n
  {
    var s := NatToString(n);
    if n >= 10 {
      DigitsValueOfNatToString(n / 10);
      assert s[..|s| - 1] == NatToString(n / 10);
    } else {
      assert s[..|s| - 1] == [];
    }
  }

  /** Distinct numbers render as distinct strings: `str(pk)` codes never collide. */
  lemma NatToStringInjective(a: nat, b: nat)
    requires NatToString(a) == NatToString(b)
    ensures a == b
  {
    DigitsValueOfNatToString(a);
    DigitsValueOfNatToString(b);
  }

  /** `str(i)` for any integer: a minus sign before the magnitude when negative. */
  function IntToString(i: int): (s: string)
    ensures i >= 0 ==> IsDigits(s)
    ensures i < 0 ==> |s| > 1 && s[0] == '-' && IsDigits(s[1..])
  {
    if i < 0 then "-" + NatToString(-i) else NatToString(i)
  }

  /** The characters `str.isspace()` accepts, which `str.strip()` and
      `int()` remove: the ASCII controls, the spaces and separators of the
      Unicode character database. */
  predicate IsSpace(c: char) {
    c == ' ' || c == '\t' || c == '\n' || c == '\r' || c == '\U{000B}' || c == '\U{000C}'
    || c == '\U{001C}' || c == '\U{001D}' || c == '\U{001E}' || c == '\U{001F}'
    || c == '\U{0085}' || c == '\U{00A0}' || c == '\U{1680}' || '\U{2000}' <= c <= '\U{200A}'
    || c == '\U{2028}' || c == '\U{2029}' || c == '\U{202F}' || c == '\U{205F}' || c == '\U{3000}'
  }

  function StripLeft(s: string): string
  {
    if s != [] && IsSpace(s[0]) then StripLeft(s[1..]) else s
  }

  function StripRight(s: string): string
  {
    if s != [] && IsSpace(s[|s| - 1]) then StripRight(s[..|s| - 1]) else s
  }

  /** `s.strip()`: leading and trailing whitespace removed. */
  function Strip(s: string): string
  {
    StripRight(StripLeft(s))
  }

  /** `StripLeft` removes exactly the leading whitespace. */
  lemma {:induction false} StripLeftSuffix(s: string)
    ensures var r := StripLeft(s);
      |r| <= |s| && r == s[|s| - |r|..]
      && (r != [] ==> !IsSpace(r[0]))
      && (forall i :: 0 <= i < |s| - |r| ==> IsSpace(s[i]))
      && ((forall i :: 0 <= i < |s| ==> IsSpace(s[i])) ==> r == [])
  {
    if s != [] && IsSpace(s[0]) {
      StripLeftSuffix(s[1..]);
    }
  }

  /** `StripRight` removes exactly the trailing whitespace. */
  lemma {:induction false} StripRightPrefix(s: string)
    ensures var r := StripRight(s);
      |r| <= |s| && r == s[..|r|]
      && (r != [] ==> !IsSpace(r[|r| - 1]))
      && forall i :: |r| <= i < |s| ==> IsSpace(s[i])
  {
    if s != [] && IsSpace(s[|s| - 1]) {
      StripRightPrefix(s[..|s| - 1]);
    }
  }

  /** The result of `strip` is no longer than its input, has no whitespace at
      either end, and is empty exactly when the input is all whitespace. */
  lemma StripBounds(s: string)
    ensures var r := Strip(s);
      |r| <= |s| && (r != [] ==> !IsSpace(r[0]) && !IsSpace(r[|r| - 1]))
      && (r == [] <==> forall i :: 0 <= i < |s| ==> IsSpace(s[i]))
  {
    var l := StripLeft(s);
    StripLeftSuffix(s);
    StripRightPrefix(l);
    var r := StripRight(l);
    if r != [] {
      assert r[0] == l[0];
    }
  }

  /** Stripping twice is stripping once. */
  lemma StripIdempotent(s: string)
    ensures Strip(Strip(s)) == Strip(s)
  {
    var t := Strip(s);
    StripBounds(s);
    if t != [] {
      assert StripLeft(t) == t;
      assert StripRight(t) == t;
    }
  }

  /** A string without whitespace at either end is its own strip. */
  lemma StripUnpadded(s: string)
    requires s != [] && !IsSpace(s[0]) && !IsSpace(s[|s| - 1])
    ensures Strip(s) == s
  {
  }

  /** The digits `int()` reads: ASCII digits, a single `_` allowed between
      two of them. */
  predicate IsIntLiteral(s: string) {
    |s| > 0 && IsDigit(s[0]) && IsDigit(s[|s| - 1])
    && (forall i :: 0 <= i < |s| ==> IsDigit(s[i]) || s[i] == '_')
    && (forall i :: 0 <= i < |s| - 1 ==> !(s[i] == '_' && s[i + 1] == '_'))
  }

  /** `s` with its underscores removed. */
  function DropUnderscores(s: string): (r: string)
    ensures |r| <= |s|
    ensures (forall i :: 0 <= i < |s| ==> IsDigit(s[i]) || s[i] == '_') ==> forall i :: 0 <= i < |r| ==> IsDigit(r[i])
    ensures '_' !in s ==> r == s
  {
    if s == [] then [] else (if s[0] == '_' then [] else [s[0]]) + DropUnderscores(s[1..])
  }

  /** `int(t)` for a text `t` with nothing left to strip: one optional sign,
      then an integer literal; None where `int()` raises ValueError. */
  function IntValue(t: string): (r: Option<int>)
    ensures IsDigits(t) ==> r == Some(DigitsValue(t))
    ensures r.Some? ==> t != "" && (r.value < 0 ==> t[0] == '-')
    ensures !IsIntLiteral(t) && !(|t| > 1 && (t[0] == '+' || t[0] == '-') && IsIntLiteral(t[1..])) ==> r.None?
  {
    if |t| > 1 && (t[0] == '+' || t[0] == '-') && IsIntLiteral(t[1..]) then
      var v: int := DigitsValue(DropUnderscores(t[1..]));
      Some(if t[0] == '-' then -v else v)
    else if IsIntLiteral(t) then
      assert IsDigits(t) ==> '_' !in t;
      Some(DigitsValue(DropUnderscores(t)))
    else None
  }

  /** `int()` reads a sign before a digit string as that sign. */
  lemma IntValueSigned(t: string, d: string)
    requires |t| > 1 && (t[0] == '+' || t[0] == '-') && t[1..] == d && IsDigits(d)
    ensures IntValue(t) == Some(if t[0] == '-' then -(DigitsValue(d) as int) else DigitsValue(d))
  {
    DigitsAreIntLiteral(d);
  }

  /** A digit string is an integer literal without underscores. */
  lemma DigitsAreIntLiteral(d: string)
    requires IsDigits(d)
    ensures IsIntLiteral(d) && DropUnderscores(d) == d
  {
    assert '_' !in d;
  }

  /** A digit string has nothing to strip. */
  lemma StripDigits(s: string)
    ensures IsDigits(s) ==> Strip(s) == s
  {
    if IsDigits(s) {
      StripUnpadded(s);
    }
  }

  /** `s[:n]`: at most the first `n` characters. */
  function Take(s: string, n: nat): (r: string)
    ensures |r| == if |s| <= n then |s| else n
    ensures r == s[..|r|]
  {
    if |s| <= n then s else s[..n]
  }

  /** Index of the last occurrence of `c` in `s`, or -1 (`str.rfind`). */
  function LastIndexOf(s: string, c: char): (i: int)
    ensures -1 <= i < |s|
    ensures i >= 0 ==> s[i] == c
    ensures forall j :: i < j < |s| ==> s[j] != c
  {
    if s == [] then -1
    else if s[|s| - 1] == c then |s| - 1
    else LastIndexOf(s[..|s| - 1], c)
  }

  /** `s.rsplit("/", 1)[-1]`: what follows the last slash, or all of `s`. */
  function AfterLastSlash(s: string): (r: string)
    ensures '/' !in r && |r| <= |s|
    ensures '/' !in s ==> r == s
    ensures '/' in s ==> |r| < |s|
  {
    var i := LastIndexOf(s, '/');
    LastIndexOfFound(s, '/');
    s[i + 1..]
  }

  /** The last component is a suffix of `s`, and a slash precedes it when `s` has one. */
  lemma AfterLastSlashIsSuffix(s: string)
    ensures var r := AfterLastSlash(s);
      r == s[|s| - |r|..] && ('/' in s ==> s[|s| - |r| - 1] == '/')
  {
    LastIndexOfFound(s, '/');
  }

  /** The last component of `dir + "/" + name` is `name` when `name` holds no slash. */
  lemma AfterLastSlashOfPath(dir: string, name: string)
    requires '/' !in name
    ensures AfterLastSlash(dir + "/" + name) == name
  {
    var s := dir + "/" + name;
    var r := AfterLastSlash(s);
    AfterLastSlashIsSuffix(s);
    assert s[|dir|] == '/';
    assert s[|s| - |name|..] == name;
  }

  lemma LastIndexOfFound(s: string, c: char)
    ensures c in s ==> LastIndexOf(s, c) >= 0
  {
    if c in s {
      var j :| 0 <= j < |s| && s[j] == c;
      assert LastIndexOf(s, c) >= j;
    }
  }

  /** ASCII `str.lower()`. */
  function LowerChar(c: char): (d: char)
  {
    if 'A' <= c <= 'Z' then (c as int + 32) as char else c
  }

  function Lower(s: string): (r: string)
    ensures |r| == |s|
    ensures forall i :: 0 <= i < |s| ==> r[i] == LowerChar(s[i])
  {
    if s == [] then [] else [LowerChar(s[0])] + Lower(s[1..])
  }
}
