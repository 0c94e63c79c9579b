/**
 * The string conventions of Python that the bot relies on: `str()` of an
 * integer, `int()` of a decimal string, `str.split(sep)` and
 * `str.split(sep, 1)`. Strings are sequences of characters.
 */
module Text {
  import opened Wrappers

  predicate IsDigit(c: char) {
    '0' <= c <= '9'
  }

  predicate AllDigits(s: string) {
    forall i :: 0 <= i < |s| ==> IsDigit(s[i])
  }

  function DigitChar(d: nat): (c: char)
    requires d < 10
    ensures IsDigit(c) && c as int - '0' as int == d
  {
    ('0' as int + d) as char
  }

  function DigitValue(c: char): nat
    requires IsDigit(c)
  {
    c as int - '0' as int
  }

  /** `str(n)` for a non-negative integer: its decimal digits, with no leading zero. */
  function NatToString(n: nat): (s: string)
    ensures |s| >= 1 && AllDigits(s)
    ensures s[0] == '0' ==> n == 0
    decreases n
  {
    if n < 10 then [DigitChar(n)] else NatToString(n / 10) + [DigitChar(n % 10)]
  }

  /** `str(n)` for any integer: a minus sign before the digits of a negative one. */
  function IntToString(n: int): (s: string)
    ensures |s| >= 1
    ensures n < 0 <==> s[0] == '-'
    ensures n >= 0 ==> s == NatToString(n) && AllDigits(s)
    ensures n < 0 ==> s[1..] == NatToString(-n) && AllDigits(s[1..])
  {
    if n < 0 then "-" + NatToString(-n) else NatToString(n)
  }

  /** The value of a string of decimal digits; leading zeros are read as Python's `int()` reads them. */
  function DigitsValue(s: string): nat
    requires AllDigits(s)
    decreases |s|
  {
    if s == [] then 0 else DigitsValue(s[..|s| - 1]) * 10 + DigitValue(s[|s| - 1])
  }

  /**
   * `int(s)` restricted to plain decimal digits: a non-empty digit string
   * yields its value, anything else fails (where Python raises ValueError).
   */
  function ParseNat(s: string): (r: Option<nat>)
    ensures r.Some? <==> s != [] && AllDigits(s)
  {
    if s != [] && AllDigits(s) then Some(DigitsValue(s)) else None
  }

  /** `int(str(n)) == n`: printing a non-negative integer and parsing it back is the identity. */
  lemma {:induction false} ParseNatToString(n: nat)
    ensures ParseNat(NatToString(n)) == Some(n)
    decreases n
  {
    if n >= 10 {
      ParseNatToString(n / 10);
      var s := NatToString(n);
      assert s[..|s| - 1] == NatToString(n / 10);
      assert DigitsValue(s) == DigitsValue(NatToString(n / 10)) * 10 + n % 10;
    }
  }

  /** Different integers print differently, so comparing `str(n)` with a key compares `n` with its value. */
  lemma IntToStringInjective(a: int, b: int)
    ensures IntToString(a) == IntToString(b) ==> a == b
  {
    if IntToString(a) == IntToString(b) {
      if a < 0 && b < 0 {
        assert NatToString(-a) == IntToString(a)[1..] == IntToString(b)[1..] == NatToString(-b);
        ParseNatToString(-a);
        ParseNatToString(-b);
      } else if a >= 0 && b >= 0 {
        ParseNatToString(a);
        ParseNatToString(b);
      }
    }
  }

  /** Position of the first occurrence of `c` in `s`, if there is one. */
  function IndexOf(s: string, c: char): (r: Option<nat>)
    ensures r.Some? ==> r.value < |s| && s[r.value] == c && forall j :: 0 <= j < r.value ==> s[j] != c
    ensures r.None? <==> c !in s
    decreases |s|
  {
    if s == [] then None
    else if s[0] == c then Some(0)
    else match IndexOf(s[1..], c)
      case None => None
      case Some(i) => Some(i + 1)
  }

  /** Concatenation of the parts with `sep` between neighbours: `sep.join(parts)`. */
  function Join(parts: seq<string>, sep: char): string
    requires |parts| >= 1
  {
    if |parts| == 1 then parts[0] else parts[0] + [sep] + Join(parts[1..], sep)
  }

  /** `s.split(sep)`: every field between separators, at least one. */
  function Split(s: string, sep: char): (parts: seq<string>)
    ensures |parts| >= 1
    ensures |parts| >= 2 <==> sep in s
    ensures forall i :: 0 <= i < |parts| ==> sep !in parts[i]
    decreases |s|
  {
    match IndexOf(s, sep)
    case None => [s]
    case Some(i) => [s[..i]] + Split(s[i + 1..], sep)
  }

  /** `s.split(sep, 1)`: the text before the first separator and everything after it. */
  function SplitOnce(s: string, sep: char): (parts: seq<string>)
    ensures 1 <= |parts| <= 2
    ensures |parts| == 2 <==> sep in s
    ensures sep !in parts[0]
    ensures Join(parts, sep) == s
  {
    match IndexOf(s, sep)
    case None => [s]
    case Some(i) => [s[..i], s[i + 1..]]
  }

  /** Joining the fields of `s.split(sep)` with `sep` gives back `s`. */
  lemma {:induction false} JoinSplit(s: string, sep: char)
    ensures Join(Split(s, sep), sep) == s
    decreases |s|
  {
    match IndexOf(s, sep)
    case None =>
    case Some(i) =>
      JoinSplit(s[i + 1..], sep);
      assert s == s[..i] + [sep] + s[i + 1..];
  }

  /** The first separator of prefix + [sep] + rest is the one after a separator-free prefix. */
  lemma IndexAfterPrefix(prefix: string, sep: char, rest: string)
    requires sep !in prefix
    ensures IndexOf(prefix + [sep] + rest, sep) == Some(|prefix|)
  {
    var s := prefix + [sep] + rest;
    assert s[|prefix|] == sep;
    assert forall j :: 0 <= j < |prefix| ==> s[j] == prefix[j];
  }

  /** Splitting at a separator after a separator-free prefix yields that prefix, then the fields of the rest. */
  lemma SplitAfterPrefix(prefix: string, sep: char, rest: string)
    requires sep !in prefix
    ensures Split(prefix + [sep] + rest, sep) == [prefix] + Split(rest, sep)
  {
    var s := prefix + [sep] + rest;
    IndexAfterPrefix(prefix, sep, rest);
    assert s[..|prefix|] == prefix;
    assert s[|prefix| + 1..] == rest;
  }

  /** Splitting once after a separator-free prefix yields that prefix and everything after the separator. */
  lemma SplitOnceAfterPrefix(prefix: string, sep: char, rest: string)
    requires sep !in prefix
    ensures SplitOnce(prefix + [sep] + rest, sep) == [prefix, rest]
  {
    var s := prefix + [sep] + rest;
    IndexAfterPrefix(prefix, sep, rest);
    assert s[..|prefix|] == prefix;
    assert s[|prefix| + 1..] == rest;
  }

  /** The first field of field + rest is `field` when `field` has no separator and rest is empty or starts with one. */
  lemma FirstField(field: string, rest: string, sep: char)
    requires sep !in field
    requires rest == [] || rest[0] == sep
    ensures Split(field + rest, sep)[0] == field
  {
    if rest == [] {
      assert field + rest == field;
    } else {
      assert field + rest == field + [sep] + rest[1..];
      IndexAfterPrefix(field, sep, rest[1..]);
      assert (field + rest)[..|field|] == field;
    }
  }

  /** The second field of `s.split(sep)` is whatever stands between the first and the second separator. */
  lemma SecondField(first: string, field: string, rest: string, sep: char)
    requires sep !in first && sep !in field
    requires rest == [] || rest[0] == sep
    ensures |Split(first + [sep] + field + rest, sep)| >= 2
    ensures Split(first + [sep] + field + rest, sep)[1] == field
  {
    assert first + [sep] + field + rest == first + [sep] + (field + rest);
    SplitAfterPrefix(first, sep, field + rest);
    FirstField(field, rest, sep);
  }

  /** The length of the text after the last `sep`; the whole length when `sep` does not occur. */
  function TailLength(s: string, sep: char): (n: nat)
    ensures n <= |s|
    ensures sep !in s[|s| - n..]
    ensures n < |s| ==> s[|s| - n - 1] == sep
    decreases |s|
  {
    if s == [] || s[|s| - 1] == sep then 0
    else
      var init := s[..|s| - 1];
      var m := TailLength(init, sep);
      assert s[|s| - (m + 1)..] == init[|init| - m..] + [s[|s| - 1]];
      m + 1
  }

  /** After a separator, a separator-free tail is exactly what follows the last separator. */
  lemma {:induction false} TailLengthAfterSep(head: string, sep: char, tail: string)
    requires sep !in tail
    ensures TailLength(head + [sep] + tail, sep) == |tail|
    decreases |tail|
  {
    var s := head + [sep] + tail;
    if tail != [] {
      assert s[|s| - 1] == tail[|tail| - 1];
      assert s[..|s| - 1] == head + [sep] + tail[..|tail| - 1];
      TailLengthAfterSep(head, sep, tail[..|tail| - 1]);
    }
  }

  /**
   * A text ending in a separator and a separator-free field splits there in
   * one way only: both the field and what precedes the separator are fixed.
   */
  lemma LastFieldUnique(x: string, s: string, y: string, t: string, sep: char)
    requires sep !in s && sep !in t
    requires x + [sep] + s == y + [sep] + t
    ensures s == t && x == y
  {
    var w := x + [sep] + s;
    TailLengthAfterSep(x, sep, s);
    TailLengthAfterSep(y, sep, t);
    assert s == w[|w| - |s|..];
    assert t == w[|w| - |t|..];
    assert x == w[..|x|];
    assert y == (y + [sep] + t)[..|y|];
  }
}
