/** String helpers with the meaning of the Python built-ins the application
    leans on: `str.strip`, `str.lower`, `str.startswith`, `str.split`,
    `str.join`, `str(int)` and `int(str)`.  Characters are compared by code
    point; only the ASCII part of Python's Unicode tables is modelled. */
module Text {
  import opened Wrappers

  /** `str.isspace` on the ASCII range: tab, line feed, vertical tab, form
      feed, carriage return, the four separators 0x1c-0x1f and space. */
  predicate IsSpace(c: char) {
    c == ' ' || (9 <= c as int <= 13) || (28 <= c as int <= 31)
  }

  predicate Blank(s: string) {
    forall i :: 0 <= i < |s| ==> IsSpace(s[i])
  }

  /** `str.lstrip()` with no argument. */
  function TrimLeft(s: string): (r: string)
    ensures |r| <= |s| && r == s[|s| - |r|..]
    ensures Blank(s[..|s| - |r|])
    ensures |r| == 0 || !IsSpace(r[0])
    ensures r == "" <==> Blank(s)
  {
    if |s| > 0 && IsSpace(s[0]) then
      var r := TrimLeft(s[1..]);
      assert s[1..][..|s[1..]| - |r|] == s[1..|s| - |r|];
      assert forall i :: 1 <= i < |s| ==> s[1..][i - 1] == s[i];
      r
    else s
  }

  /** `str.rstrip()` with no argument. */
  function TrimRight(s: string): (r: string)
    ensures |r| <= |s| && r == s[..|r|]
    ensures Blank(s[|r|..])
    ensures |r| == 0 || !IsSpace(r[|r| - 1])
    ensures r == "" <==> Blank(s)
  {
    if |s| > 0 && IsSpace(s[|s| - 1]) then
      var r := TrimRight(s[..|s| - 1]);
      assert s[..|s| - 1][..|r|] == s[..|r|];
      assert forall i :: 0 <= i < |s| - 1 ==> s[..|s| - 1][i] == s[i];
      r
    else s
  }

  /** `str.strip()` with no argument. */
  function Strip(s: string): string {
    TrimRight(TrimLeft(s))
  }

  /** `not s.strip()` holds exactly when every character of `s` is white space. */
  lemma {:induction false} StripEmptyIffBlank(s: string)
    ensures Strip(s) == "" <==> Blank(s)
  {
    var l := TrimLeft(s);
    assert Blank(l) <==> l == "";
  }

  /** `str.lower()` on the ASCII letters. */
  function Lower(s: string): (r: string)
    ensures |r| == |s|
    ensures forall i :: 0 <= i < |s| ==>
      r[i] == (if 'A' <= s[i] <= 'Z' then (s[i] as int + 32) as char else s[i])
  {
    if |s| == 0 then ""
    else [if 'A' <= s[0] <= 'Z' then (s[0] as int + 32) as char else s[0]] + Lower(s[1..])
  }

  predicate StartsWith(s: string, prefix: string) {
    |prefix| <= |s| && s[..|prefix|] == prefix
  }

  /** `sep.join(xs)`. */
  function Join(sep: string, xs: seq<string>): string
  {
    if |xs| == 0 then ""
    else if |xs| == 1 then xs[0]
    else xs[0] + sep + Join(sep, xs[1..])
  }

  /** `s.split(c)` for a one-character separator: the pieces between the
      occurrences of `c`, always at least one. */
  function Split(s: string, c: char): (parts: seq<string>)
    ensures |parts| >= 1
    ensures forall i :: 0 <= i < |parts| ==> c !in parts[i]
  {
    if |s| == 0 then [""]
    else
      var rest := Split(s[1..], c);
      if s[0] == c then [""] + rest
      else [[s[0]] + rest[0]] + rest[1..]
  }

  /** Joining the pieces of a split with the separator gives the string back. */
  lemma {:induction false} JoinSplit(s: string, c: char)
    ensures Join([c], Split(s, c)) == s
  {
    if |s| > 0 {
      var rest := Split(s[1..], c);
      JoinSplit(s[1..], c);
      if s[0] == c {
        assert Split(s, c) == [""] + rest;
        assert ([""] + rest)[1..] == rest;
      } else {
        var parts := Split(s, c);
        assert parts == [[s[0]] + rest[0]] + rest[1..];
        if |rest| == 1 {
          assert parts == [[s[0]] + rest[0]];
        } else {
          assert parts[1..] == rest[1..];
          assert Join([c], rest) == rest[0] + [c] + Join([c], rest[1..]);
        }
      }
    }
  }

  /** Splitting a piece free of the separator, followed by more text. */
  lemma {:induction false} SplitPrefix(p: string, c: char, tail: string)
    requires c !in p
    ensures Split(p + tail, c) == [p + Split(tail, c)[0]] + Split(tail, c)[1..]
  {
    if |p| > 0 {
      assert (p + tail)[1..] == p[1..] + tail;
      assert (p + tail)[0] == p[0];
      SplitPrefix(p[1..], c, tail);
      assert [p[0]] + (p[1..] + Split(tail, c)[0]) == p + Split(tail, c)[0];
    } else {
      assert p + tail == tail;
      var parts := Split(tail, c);
      assert parts == [parts[0]] + parts[1..];
      assert p + parts[0] == parts[0];
    }
  }

  /** Splitting a join of separator-free pieces gives the pieces back. */
  lemma {:induction false} SplitJoin(parts: seq<string>, c: char)
    requires |parts| >= 1
    requires forall i :: 0 <= i < |parts| ==> c !in parts[i]
    ensures Split(Join([c], parts), c) == parts
  {
    if |parts| == 1 {
      SplitPrefix(parts[0], c, "");
      assert parts[0] + "" == parts[0];
      assert Split("", c) == [""];
    } else {
      var rest := Join([c], parts[1..]);
      SplitJoin(parts[1..], c);
      assert Join([c], parts) == parts[0] + ([c] + rest);
      SplitPrefix(parts[0], c, [c] + rest);
      assert ([c] + rest)[1..] == rest;
      assert Split([c] + rest, c) == [""] + parts[1..];
      assert parts[0] + "" == parts[0];
      assert parts == [parts[0]] + parts[1..];
    }
  }

  /** Number of occurrences of `c` in `s`. */
  function Count(c: char, s: string): nat
  {
    if |s| == 0 then 0 else (if s[0] == c then 1 else 0) + Count(c, s[1..])
  }

  lemma {:induction false} CountAppend(c: char, a: string, b: string)
    ensures Count(c, a + b) == Count(c, a) + Count(c, b)
  {
    if |a| > 0 {
      assert (a + b)[1..] == a[1..] + b;
      CountAppend(c, a[1..], b);
    } else {
      assert a + b == b;
    }
  }

  lemma {:induction false} CountAbsent(c: char, s: string)
    requires c !in s
    ensures Count(c, s) == 0
  {
    if |s| > 0 {
      CountAbsent(c, s[1..]);
    }
  }

  /** Occurrences of `c` in a join: those in the pieces plus those in the
      separators between them. */
  lemma {:induction false} CountJoin(c: char, sep: string, xs: seq<string>, m: nat)
    requires |xs| > 0
    requires forall i :: 0 <= i < |xs| ==> Count(c, xs[i]) == m
    ensures Count(c, Join(sep, xs)) == m * |xs| + Count(c, sep) * (|xs| - 1)
  {
    if |xs| == 1 {
      assert Join(sep, xs) == xs[0];
    } else {
      var rest := Join(sep, xs[1..]);
      CountJoin(c, sep, xs[1..], m);
      assert Join(sep, xs) == xs[0] + sep + rest;
      CountAppend(c, xs[0], sep);
      CountAppend(c, xs[0] + sep, rest);
      Regroup(m, Count(c, sep), |xs|);
    }
  }

  lemma {:induction false} Regroup(m: int, a: int, n: int)
    ensures m + a + (m * (n - 1) + a * (n - 2)) == m * n + a * (n - 1)
  {
    assert m * (n - 1) == m * n - m;
    assert a * (n - 2) == a * (n - 1) - a;
  }

  // ---------------------------------------------------------------- integers

  predicate IsDigit(c: char) {
    '0' <= c <= '9'
  }

  predicate AllDigits(s: string) {
    forall i :: 0 <= i < |s| ==> IsDigit(s[i])
  }

  function DigitChar(d: nat): char
    requires d < 10
  {
    ('0' as int + d) as char
  }

  /** The number a string of decimal digits denotes. */
  function DigitsValue(s: string): nat
    requires AllDigits(s)
  {
    if |s| == 0 then 0
    else DigitsValue(s[..|s| - 1]) * 10 + (s[|s| - 1] as int - '0' as int)
  }

  /** `str(n)` for a natural number: the shortest decimal numeral. */
  function NatToString(n: nat): (r: string)
    ensures |r| > 0 && AllDigits(r)
    ensures r[0] != '0' || n == 0
  {
    if n < 10 then [DigitChar(n)]
    else NatToString(n / 10) + [DigitChar(n % 10)]
  }

  lemma {:induction false} NatToStringValue(n: nat)
    ensures DigitsValue(NatToString(n)) == n
  {
    if n >= 10 {
      var s := NatToString(n);
      assert s[..|s| - 1] == NatToString(n / 10);
      NatToStringValue(n / 10);
    }
  }

  /** `str(i)` for any integer. */
  function IntToString(i: int): (r: string)
    ensures |r| > 0
    ensures '-' in r <==> i < 0
  {
    if i < 0 then "-" + NatToString(-i) else NatToString(i)
  }

  /** The digits of a Python integer literal: digits, with single
      underscores allowed between two digits. */
  predicate DigitBody(b: string) {
    && |b| > 0
    && IsDigit(b[0])
    && IsDigit(b[|b| - 1])
    && DigitsOrUnderscores(b)
    && forall i :: 0 <= i < |b| && b[i] == '_' ==> i + 1 < |b| && IsDigit(b[i + 1])
  }

  predicate DigitsOrUnderscores(b: string) {
    forall i :: 0 <= i < |b| ==> IsDigit(b[i]) || b[i] == '_'
  }

  function RemoveUnderscores(b: string): (r: string)
    requires DigitsOrUnderscores(b)
    ensures AllDigits(r)
    ensures AllDigits(b) ==> r == b
  {
    if |b| == 0 then ""
    else (if b[0] == '_' then "" else [b[0]]) + RemoveUnderscores(b[1..])
  }

  /** `int(s)` in base ten: `None` where Python raises `ValueError`.
      Surrounding white space is ignored and one sign is allowed. */
  function ParseInt(s: string): Option<int>
  {
    var t := Strip(s);
    var negative := |t| > 0 && t[0] == '-';
    var body := if |t| > 0 && (t[0] == '-' || t[0] == '+') then t[1..] else t;
    if !DigitBody(body) then None
    else
      var magnitude: int := DigitsValue(RemoveUnderscores(body));
      Some(if negative then -magnitude else magnitude)
  }

  /** Text that neither starts nor ends with white space is its own strip. */
  lemma {:induction false} StripUnspaced(s: string)
    requires |s| > 0 && !IsSpace(s[0]) && !IsSpace(s[|s| - 1])
    ensures Strip(s) == s
  {
    assert TrimLeft(s) == s;
  }

  lemma {:induction false} DigitsAreBody(d: string)
    requires |d| > 0 && AllDigits(d)
    ensures DigitBody(d) && RemoveUnderscores(d) == d
  {
  }

  /** `int(d) == value of d` for a plain numeral. */
  lemma {:induction false} ParseDigits(d: string)
    requires |d| > 0 && AllDigits(d)
    ensures ParseInt(d) == Some(DigitsValue(d))
  {
    StripUnspaced(d);
    DigitsAreBody(d);
  }

  /** `int('-' + d) == -(value of d)` for a plain numeral. */
  lemma {:induction false} ParseNegatedDigits(d: string)
    requires |d| > 0 && AllDigits(d)
    ensures ParseInt("-" + d) == Some(-(DigitsValue(d) as int))
  {
    var s := "-" + d;
    assert s[|s| - 1] == d[|d| - 1];
    StripUnspaced(s);
    assert s[1..] == d;
    DigitsAreBody(d);
  }

  /** `int(str(i)) == i`. */
  lemma {:induction false} ParseIntToString(i: int)
    ensures ParseInt(IntToString(i)) == Some(i)
  {
    if i < 0 {
      var d := NatToString(-i);
      assert IntToString(i) == "-" + d;
      NatToStringValue(-i);
      assert DigitsValue(d) == -i;
      ParseNegatedDigits(d);
    } else {
      var d := NatToString(i);
      assert IntToString(i) == d;
      NatToStringValue(i);
      ParseDigits(d);
    }
  }
}
