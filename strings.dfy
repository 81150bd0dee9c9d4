/**
 * String functions that the C runtime (strstr, strchr, atoi), pfc::string8 and
 * Python's str (split, lower, comparison, int) provide to the code being modelled.
 * Strings are sequences of Unicode scalar values; the source's byte-level UTF-8
 * handling does not matter for any of the ASCII markers searched for here.
 */
module Strings {
  import opened Common

  /** `pat` occurs in `s` starting at index `i`. */
  predicate OccursAt(s: string, pat: string, i: nat) {
    i + |pat| <= |s| && s[i..i + |pat|] == pat
  }

  /** Index of the first occurrence of `pat` in `s` (C `strstr`). */
  function IndexOf(s: string, pat: string): (r: Option<nat>)
    ensures r.Some? ==> OccursAt(s, pat, r.value)
    ensures r.Some? ==> forall j :: 0 <= j < r.value ==> !OccursAt(s, pat, j)
    ensures r.None? ==> forall j :: 0 <= j <= |s| ==> !OccursAt(s, pat, j)
    decreases |s|
  {
    if pat <= s then Some(0)
    else if s == [] then None
    else
      match IndexOf(s[1..], pat)
      case None =>
        assert forall j :: 1 <= j <= |s| ==> (OccursAt(s, pat, j) <==> OccursAt(s[1..], pat, j - 1));
        None
      case Some(k) =>
        assert forall j :: 1 <= j <= k ==> (OccursAt(s, pat, j) <==> OccursAt(s[1..], pat, j - 1));
        Some(k + 1)
  }

  /** An occurrence with none before it is the one `IndexOf` finds. */
  lemma IndexOfUnique(s: string, pat: string, k: nat)
    requires OccursAt(s, pat, k)
    requires forall j :: 0 <= j < k ==> !OccursAt(s, pat, j)
    ensures IndexOf(s, pat) == Some(k)
  {
  }

  predicate Contains(s: string, pat: string) {
    IndexOf(s, pat).Some?
  }

  /** Index of the first `c` in `s` (C `strchr`). */
  function IndexOfChar(s: string, c: char): (r: Option<nat>)
    ensures r.Some? ==> r.value < |s| && s[r.value] == c && c !in s[..r.value]
    ensures r.None? ==> c !in s
  {
    if s == [] then None
    else if s[0] == c then Some(0)
    else
      match IndexOfChar(s[1..], c)
      case None => None
      case Some(k) =>
        assert s[..k + 1] == [s[0]] + s[1..][..k];
        Some(k + 1)
  }

  /** The first `c` is the one `IndexOfChar` finds. */
  lemma {:induction false} IndexOfCharUnique(s: string, c: char, k: nat)
    requires k < |s| && s[k] == c
    requires forall i :: 0 <= i < k ==> s[i] != c
    ensures IndexOfChar(s, c) == Some(k)
  {
    if k > 0 {
      IndexOfCharUnique(s[1..], c, k - 1);
    }
  }

  /** `IndexOfChar` finds the first `c`, wherever the string is cut. */
  lemma {:induction false} IndexOfCharAppend(a: string, b: string, c: char)
    requires c !in a
    ensures IndexOfChar(a + b, c) == if c in b then Some(|a| + IndexOfChar(b, c).value) else None
  {
    if a != [] {
      assert (a + b)[0] == a[0];
      assert (a + b)[1..] == a[1..] + b;
      IndexOfCharAppend(a[1..], b, c);
    } else {
      assert a + b == b;
    }
  }

  /** Index of the last `c` in `s` (Python `str.rfind` for one character). */
  function LastIndexOfChar(s: string, c: char): (r: Option<nat>)
    ensures r.Some? ==> r.value < |s| && s[r.value] == c
  {
    if s == [] then None
    else if s[|s| - 1] == c then Some(|s| - 1)
    else LastIndexOfChar(s[..|s| - 1], c)
  }

  /** No `c` follows the one found; none found means there is none. */
  lemma {:induction false} LastIndexOfCharLast(s: string, c: char)
    ensures var r := LastIndexOfChar(s, c);
      (r.Some? ==> c !in s[r.value + 1..]) && (r.None? ==> c !in s)
  {
    if s != [] && s[|s| - 1] != c {
      var t := s[..|s| - 1];
      LastIndexOfCharLast(t, c);
      assert s == t + [s[|s| - 1]];
      match LastIndexOfChar(t, c)
      case None =>
      case Some(k) =>
        assert s[k + 1..] == t[k + 1..] + [s[|s| - 1]];
    }
  }

  // ---------------------------------------------------------------------
  // Decimal numbers

  predicate IsDigit(c: char) { '0' <= c <= '9' }

  function DigitValue(c: char): (r: nat)
    requires IsDigit(c)
    ensures r < 10
  {
    (c as int - '0' as int)
  }

  function DigitChar(d: nat): (c: char)
    requires d < 10
    ensures IsDigit(c) && DigitValue(c) == d
  {
    ('0' as int + d) as char
  }

  predicate AllDigits(s: string) { forall i :: 0 <= i < |s| ==> IsDigit(s[i]) }

  /** The value of a string of decimal digits, most significant first. */
  function DigitsValue(s: string): (r: nat)
    requires AllDigits(s)
  {
    if s == [] then 0 else DigitsValue(s[..|s| - 1]) * 10 + DigitValue(s[|s| - 1])
  }

  /** Decimal rendering of a natural number, without leading zeros (C `%d`, Python `str`). */
  function NatToString(n: nat): (s: string)
    ensures |s| > 0 && AllDigits(s)
    ensures DigitsValue(s) == n
    ensures s[0] != '0' || n == 0
  {
    if n < 10 then [DigitChar(n)]
    else
      var s := NatToString(n / 10) + [DigitChar(n % 10)];
      assert s[..|s| - 1] == NatToString(n / 10);
      s
  }

  function IntToString(n: int): (s: string)
    ensures |s| > 0
    ensures n >= 0 ==> s == NatToString(n)
  {
    if n >= 0 then NatToString(n) else "-" + NatToString(-n)
  }

  /** The longest prefix of `s` made of decimal digits. */
  function LeadingDigits(s: string): (r: string)
    ensures r <= s && AllDigits(r)
    ensures |r| < |s| ==> !IsDigit(s[|r|])
  {
    if s != [] && IsDigit(s[0]) then [s[0]] + LeadingDigits(s[1..]) else []
  }

  /** The characters C's `isspace` accepts. */
  predicate IsCSpace(c: char) {
    c == ' ' || c == '\t' || c == '\n' || c == '\r' || c == 11 as char || c == 12 as char
  }

  function SkipCSpace(s: string): (r: string)
    ensures |r| <= |s| && r == s[|s| - |r|..]
    ensures r != [] ==> !IsCSpace(r[0])
  {
    if s != [] && IsCSpace(s[0]) then SkipCSpace(s[1..]) else s
  }

  /**
   * C `atoi`: skips leading white space, takes an optional sign and the digits that
   * follow, and stops at the first other character; no digits give 0.
   * The overflow the C standard leaves undefined is not modelled: the value is unbounded.
   */
  function Atoi(s: string): int {
    var t := SkipCSpace(s);
    if t != [] && t[0] == '-' then -(DigitsValue(LeadingDigits(t[1..])) as int)
    else if t != [] && t[0] == '+' then DigitsValue(LeadingDigits(t[1..]))
    else DigitsValue(LeadingDigits(t))
  }

  lemma {:induction false} LeadingDigitsOfDigits(d: string, rest: string)
    requires AllDigits(d)
    requires rest == [] || !IsDigit(rest[0])
    ensures LeadingDigits(d + rest) == d
  {
    if d != [] {
      assert (d + rest)[1..] == d[1..] + rest;
      LeadingDigitsOfDigits(d[1..], rest);
    }
  }

  /** `atoi` reads back what `NatToString` writes, whatever non-digit follows. */
  lemma AtoiOfNatToString(n: nat, rest: string)
    requires rest == [] || !IsDigit(rest[0])
    ensures Atoi(NatToString(n) + rest) == n
  {
    AtoiOfDigits(NatToString(n), rest);
  }

  /** `atoi` of digits followed by a non-digit is their value. */
  lemma AtoiOfDigits(d: string, rest: string)
    requires d != [] && AllDigits(d)
    requires rest == [] || !IsDigit(rest[0])
    ensures Atoi(d + rest) == DigitsValue(d)
  {
    var s := d + rest;
    assert s[0] == d[0] && IsDigit(d[0]);
    NoSpaceToSkip(s);
    LeadingDigitsOfDigits(d, rest);
  }

  lemma NoSpaceToSkip(s: string)
    requires s != [] && !IsCSpace(s[0])
    ensures SkipCSpace(s) == s
  {
  }

  // ---------------------------------------------------------------------
  // Python's str.split(sep) for a one-character separator

  /**
   * Python `s.split(c)`: the pieces between the occurrences of `c`, so always one more
   * piece than there are occurrences, and empty pieces are kept.
   */
  function Split(s: string, c: char): (parts: seq<string>)
    ensures |parts| >= 1
    ensures forall i :: 0 <= i < |parts| ==> c !in parts[i]
    decreases |s|
  {
    match IndexOfChar(s, c)
    case None => [s]
    case Some(k) => [s[..k]] + Split(s[k + 1..], c)
  }

  lemma SplitAppend(a: string, c: char, b: string)
    requires c !in a
    ensures Split(a + [c] + b, c) == [a] + Split(b, c)
  {
    var s := a + [c] + b;
    assert s == a + ([c] + b);
    assert IndexOfChar([c] + b, c) == Some(0);
    IndexOfCharAppend(a, [c] + b, c);
    assert s[..|a|] == a;
    assert s[|a| + 1..] == b;
  }

  lemma SplitNone(s: string, c: char)
    requires c !in s
    ensures Split(s, c) == [s]
  {
  }

  /** The piece Python's `s.split(c)[0]` gives is the text up to the first `c`. */
  lemma SplitHead(s: string, c: char)
    ensures Split(s, c)[0] == if c in s then s[..IndexOfChar(s, c).value] else s
  {
  }

  // ---------------------------------------------------------------------
  // Case and order

  /** ASCII lower-casing (Python `str.lower` on the ASCII range). */
  function LowerChar(c: char): char {
    if 'A' <= c <= 'Z' then (c as int + 32) as char else c
  }

  function Lower(s: string): (r: string)
    ensures |r| == |s|
    ensures forall i :: 0 <= i < |s| ==> r[i] == LowerChar(s[i])
  {
    if s == [] then [] else [LowerChar(s[0])] + Lower(s[1..])
  }

  /** Python's string order: code point by code point, a proper prefix first. */
  predicate LexLeq(a: string, b: string) {
    if a == [] then true
    else if b == [] then false
    else if a[0] != b[0] then a[0] < b[0]
    else LexLeq(a[1..], b[1..])
  }

  lemma LexLeqRefl(a: string)
    ensures LexLeq(a, a)
  {
  }

  lemma LexLeqTotal(a: string, b: string)
    ensures LexLeq(a, b) || LexLeq(b, a)
  {
  }

  lemma LexLeqTransitive(a: string, b: string, c: string)
    requires LexLeq(a, b) && LexLeq(b, c)
    ensures LexLeq(a, c)
  {
  }

  // ---------------------------------------------------------------------
  // Python's int(s) for a str, base 10

  /** The white space `int` ignores around the number (its ASCII part). */
  predicate IsPySpace(c: char) {
    IsCSpace(c) || 0x1c as char <= c <= 0x1f as char
  }

  function StripLeadingSpace(s: string): (r: string)
    ensures |r| <= |s| && r == s[|s| - |r|..]
    ensures r == [] || !IsPySpace(r[0])
  {
    if s != [] && IsPySpace(s[0]) then StripLeadingSpace(s[1..]) else s
  }

  function StripTrailingSpace(s: string): (r: string)
    ensures |r| <= |s| && r == s[..|r|]
    ensures r == [] || !IsPySpace(r[|r| - 1])
    ensures s != [] && !IsPySpace(s[0]) ==> r != []
  {
    if s != [] && IsPySpace(s[|s| - 1]) then StripTrailingSpace(s[..|s| - 1]) else s
  }

  /** `s.strip()` for the white space above. */
  function StripPySpace(s: string): string {
    StripTrailingSpace(StripLeadingSpace(s))
  }

  /** Decimal digits with single underscores between them, as `int` accepts after the sign. */
  predicate PyDigits(s: string)
    decreases |s|
  {
    s != [] && IsDigit(s[0]) &&
    (|s| == 1 || PyDigits(s[1..]) || (s[1] == '_' && PyDigits(s[2..])))
  }

  lemma {:induction false} DigitsArePyDigits(d: string)
    requires d != [] && AllDigits(d)
    ensures PyDigits(d)
  {
    if |d| > 1 {
      DigitsArePyDigits(d[1..]);
    }
  }

  /** The digits of `s` in order; for a text `PyDigits` accepts, it without its underscores. */
  function DigitsOnly(s: string): (r: string)
    ensures AllDigits(r)
  {
    if s == [] then []
    else (if IsDigit(s[0]) then [s[0]] else []) + DigitsOnly(s[1..])
  }

  /**
   * Python `int(s)`: white space around, an optional `+` or `-`, then digits in which
   * single underscores may separate digits. Anything else is a `ValueError`, here `None`.
   * Leading zeros are allowed.
   */
  function PyInt(s: string): (r: Option<int>) {
    var t := StripPySpace(s);
    if t != [] && (t[0] == '+' || t[0] == '-') then
      var body := t[1..];
      if PyDigits(body) then
        var v: int := DigitsValue(DigitsOnly(body));
        Some(if t[0] == '-' then -v else v)
      else None
    else if PyDigits(t) then Some(DigitsValue(DigitsOnly(t)))
    else None
  }

  lemma {:induction false} DigitsOnlyOfDigits(d: string)
    requires AllDigits(d)
    ensures DigitsOnly(d) == d
  {
    if d != [] {
      DigitsOnlyOfDigits(d[1..]);
    }
  }

  lemma StripNothing(s: string)
    requires s != [] && !IsPySpace(s[0]) && !IsPySpace(s[|s| - 1])
    ensures StripPySpace(s) == s
  {
    assert StripLeadingSpace(s) == s;
  }

  /** `int` of plain decimal digits is their value. */
  lemma PyIntOfDigits(d: string)
    requires d != [] && AllDigits(d)
    ensures PyInt(d) == Some(DigitsValue(d))
  {
    assert IsDigit(d[0]) && IsDigit(d[|d| - 1]);
    StripNothing(d);
    DigitsArePyDigits(d);
    DigitsOnlyOfDigits(d);
  }

  /** `int` reads back what `str` writes for a natural number. */
  lemma PyIntOfNatToString(n: nat)
    ensures PyInt(NatToString(n)) == Some(n)
  {
    PyIntOfDigits(NatToString(n));
  }

  /** A text that starts with neither white space, a sign nor a digit is no number. */
  lemma PyIntRejects(s: string)
    requires s != [] && !IsPySpace(s[0]) && !IsDigit(s[0]) && s[0] != '+' && s[0] != '-'
    ensures PyInt(s) == None
  {
    assert StripLeadingSpace(s) == s;
    var t := StripPySpace(s);
    assert t[0] == s[0];
  }

  /** Without a `-` in the text, `int` gives no negative number. */
  lemma PyIntUnsigned(s: string)
    requires '-' !in s && PyInt(s).Some?
    ensures PyInt(s).value >= 0
  {
    var l := StripLeadingSpace(s);
    var t := StripTrailingSpace(l);
    if t != [] {
      assert t[0] == l[0];
      assert l[0] == s[|s| - |l|];
    }
  }

  // ---------------------------------------------------------------------
  // Trimming

  /** pfc `skip_trailing_char(c)`: drops every trailing occurrence of `c`. */
  function TrimTrailing(s: string, c: char): (r: string)
    ensures r <= s
    ensures r == [] || r[|r| - 1] != c
    ensures forall i :: |r| <= i < |s| ==> s[i] == c
  {
    if s != [] && s[|s| - 1] == c then TrimTrailing(s[..|s| - 1], c) else s
  }
}
