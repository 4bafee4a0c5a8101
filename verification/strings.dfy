/**
 The string operations of Go's `strings` and `strconv` packages and of Python's `str`
 that the models below rely on, on Dafny strings (sequences of Unicode scalar values).
 */
module Strings {
  import opened Wrappers

  /** Go's strings.HasPrefix and Python's str.startswith. */
  predicate HasPrefix(s: string, p: string) {
    |p| <= |s| && s[..|p|] == p
  }

  /** `sub` occurs in `s` starting at position `i`. */
  predicate OccursAt(s: string, sub: string, i: int) {
    0 <= i <= |s| - |sub| && s[i..i + |sub|] == sub
  }

  /** Python's `sub in s`: `sub` occurs as a contiguous piece of `s`. */
  predicate Contains(s: string, sub: string) {
    exists i | 0 <= i <= |s| - |sub| :: OccursAt(s, sub, i)
  }

  /** Position of the first `c` in `s`, or |s| when there is none. */
  function IndexOf(s: string, c: char): (i: nat)
    ensures i <= |s|
    ensures i < |s| ==> s[i] == c
    ensures forall j :: 0 <= j < i ==> s[j] != c
  {
    if |s| == 0 then 0 else if s[0] == c then 0 else 1 + IndexOf(s[1..], c)
  }

  /** Number of occurrences of `c` in `s`. */
  function Count(s: string, c: char): nat {
    if |s| == 0 then 0 else (if s[0] == c then 1 else 0) + Count(s[1..], c)
  }

  /** Go's strings.Split(s, string(c)) and Python's s.split(c): the pieces between the
      occurrences of `c`; always at least one piece, the empty string giving [""]. */
  function Split(s: string, c: char): (parts: seq<string>)
    ensures |parts| >= 1
    decreases |s|
  {
    var i := IndexOf(s, c);
    if i == |s| then [s] else [s[..i]] + Split(s[i + 1..], c)
  }

  /** Go's strings.Join. */
  function Join(parts: seq<string>, sep: string): string {
    if |parts| == 0 then ""
    else if |parts| == 1 then parts[0]
    else parts[0] + sep + Join(parts[1..], sep)
  }

  /** Splitting on `c` and joining with `c` gives back the string. */
  lemma {:induction false} JoinSplit(s: string, c: char)
    ensures Join(Split(s, c), [c]) == s
    decreases |s|
  {
    var i := IndexOf(s, c);
    if i < |s| {
      JoinSplit(s[i + 1..], c);
      assert s == s[..i] + [c] + s[i + 1..];
    }
  }

  /** One piece per occurrence of `c`, plus one. */
  lemma {:induction false} SplitLength(s: string, c: char)
    ensures |Split(s, c)| == Count(s, c) + 1
    decreases |s|
  {
    var i := IndexOf(s, c);
    CountPrefixFree(s, c, i);
    if i < |s| {
      SplitLength(s[i + 1..], c);
    }
  }

  /** Helper: skipping a stretch of `s` free of `c` does not change the count. */
  lemma {:induction false} CountPrefixFree(s: string, c: char, i: nat)
    requires i <= |s|
    requires forall j :: 0 <= j < i ==> s[j] != c
    ensures Count(s, c) == Count(s[i..], c)
    ensures i < |s| && s[i] == c ==> Count(s, c) == 1 + Count(s[i + 1..], c)
  {
    if i > 0 {
      CountPrefixFree(s[1..], c, i - 1);
      assert s[1..][i - 1..] == s[i..];
      if i < |s| {
        assert s[1..][i - 1 + 1..] == s[i + 1..];
      }
    } else if |s| > 0 && s[0] == c {
      assert s[1..] == s[i + 1..];
    }
  }

  predicate IsDigit(ch: char) {
    '0' <= ch <= '9'
  }

  predicate AllDigits(s: string) {
    forall k :: 0 <= k < |s| ==> IsDigit(s[k])
  }

  /** The decimal value of a string of ASCII digits. */
  function DigitsValue(s: string): nat
    requires AllDigits(s)
    decreases |s|
  {
    if |s| == 0 then 0
    else DigitsValue(s[..|s| - 1]) * 10 + (s[|s| - 1] as int - '0' as int)
  }

  /** Go's strconv.Atoi on a non-empty run of ASCII digits, the only strings it is handed
      here; None stands for its error on anything else. Python's int() accepts more, see
      PyInt. */
  function ParseNat(s: string): Option<nat> {
    if |s| > 0 && AllDigits(s) then Some(DigitsValue(s)) else None
  }

  function DigitChar(d: nat): (ch: char)
    requires d < 10
    ensures IsDigit(ch) && ch as int - '0' as int == d
  {
    ('0' as int + d) as char
  }

  /** Go's fmt "%d" / strconv.FormatUint for a non-negative integer. */
  function NatToString(n: nat): (s: string)
    ensures |s| >= 1 && AllDigits(s)
  {
    if n < 10 then [DigitChar(n)] else NatToString(n / 10) + [DigitChar(n % 10)]
  }

  /** Printing a number in decimal and parsing it back gives the number. */
  lemma {:induction false} ParsePrinted(n: nat)
    ensures ParseNat(NatToString(n)) == Some(n)
  {
    var s := NatToString(n);
    if n >= 10 {
      ParsePrinted(n / 10);
      assert s[..|s| - 1] == NatToString(n / 10);
      assert s[|s| - 1] == DigitChar(n % 10);
      assert DigitsValue(s) == (n / 10) * 10 + n % 10;
    }
  }

  /** Python's str.isspace: the characters int() ignores at either end. */
  predicate PySpace(ch: char) {
    || '\t' <= ch <= '\r' || '\U{1C}' <= ch <= ' ' || ch == '\U{85}' || ch == '\U{A0}' || ch == '\U{1680}'
    || '\U{2000}' <= ch <= '\U{200A}' || ch == '\U{2028}' || ch == '\U{2029}' || ch == '\U{202F}'
    || ch == '\U{205F}' || ch == '\U{3000}'
  }

  /** Python's str.strip(): `s` without its leading and trailing white space. */
  function PyStrip(s: string): (t: string)
    ensures |t| <= |s|
    ensures |t| > 0 ==> !PySpace(t[0]) && !PySpace(t[|t| - 1])
    decreases |s|
  {
    if |s| > 0 && PySpace(s[0]) then PyStrip(s[1..])
    else if |s| > 0 && PySpace(s[|s| - 1]) then PyStrip(s[..|s| - 1])
    else s
  }

  /** The value of a decimal literal as int() reads it: ASCII digits, where a single
      underscore may stand between two digits; None when `s` is not of that form. */
  function Literal(s: string): Option<nat>
    decreases |s|
  {
    if |s| == 0 || !IsDigit(s[|s| - 1]) then None
    else
      var d := s[|s| - 1] as int - '0' as int;
      if |s| == 1 then Some(d)
      else if IsDigit(s[|s| - 2]) then
        match Literal(s[..|s| - 1]) case None => None case Some(v) => Some(v * 10 + d)
      else if s[|s| - 2] == '_' then
        match Literal(s[..|s| - 2]) case None => None case Some(v) => Some(v * 10 + d)
      else None
  }

  /** Python's int(s) on a string in base 10: white space around, an optional sign, then
      digits with single underscores between them; None stands for the ValueError it
      raises on anything else. Digits of other scripts, which int() also reads, are not
      part of this model. */
  function PyInt(s: string): Option<int> {
    var t := PyStrip(s);
    if |t| > 0 && t[0] == '-' then
      match Literal(t[1..]) case None => None case Some(v) => Some(-(v as int))
    else if |t| > 0 && t[0] == '+' then
      match Literal(t[1..]) case None => None case Some(v) => Some(v)
    else
      match Literal(t) case None => None case Some(v) => Some(v)
  }

  /** Without underscores a literal is a run of digits, read as DigitsValue reads it. */
  lemma {:induction false} LiteralDigits(s: string)
    requires |s| > 0 && AllDigits(s)
    ensures Literal(s) == Some(DigitsValue(s))
    decreases |s|
  {
    if |s| > 1 {
      var init := s[..|s| - 1];
      assert AllDigits(init) by {
        forall k | 0 <= k < |init| ensures IsDigit(init[k]) { assert init[k] == s[k]; }
      }
      assert IsDigit(s[|s| - 2]) by { assert s[|s| - 2] == s[|s| - 2]; }
      LiteralDigits(init);
    }
  }

  /** A string that neither starts nor ends in white space is what strip() returns. */
  lemma PyStripNoSpace(s: string)
    requires |s| > 0 && !PySpace(s[0]) && !PySpace(s[|s| - 1])
    ensures PyStrip(s) == s
  {
  }

  /** On a non-empty run of ASCII digits int() gives their decimal value. */
  lemma PyIntDigits(s: string)
    requires |s| > 0 && AllDigits(s)
    ensures PyInt(s) == ParseNat(s) == Some(DigitsValue(s))
  {
    assert IsDigit(s[0]) && IsDigit(s[|s| - 1]);
    PyStripNoSpace(s);
    LiteralDigits(s);
  }

  /** On a single character int() succeeds exactly for a digit: white space alone and a
      sign alone leave no digits. */
  lemma PyIntOneChar(c: char)
    ensures PyInt([c]) == ParseNat([c])
    ensures PyInt([c]) == if IsDigit(c) then Some(c as int - '0' as int) else None
  {
    if IsDigit(c) {
      PyIntDigits([c]);
      assert DigitsValue([c]) == DigitsValue([c][..0]) * 10 + (c as int - '0' as int);
    } else if PySpace(c) {
      assert [c][1..] == [];
    } else {
      PyStripNoSpace([c]);
      assert [c][1..] == [];
    }
  }

  /** A sign before a run of ASCII digits is read as the number's sign. */
  lemma PyIntSigned(d: string)
    requires |d| > 0 && AllDigits(d)
    ensures PyInt("-" + d).Some? && PyInt("-" + d).value == -(DigitsValue(d) as int)
    ensures PyInt("+" + d) == Some(DigitsValue(d))
  {
    assert IsDigit(d[|d| - 1]);
    LiteralDigits(d);
    var m, p := "-" + d, "+" + d;
    assert m[0] == '-' && m[|m| - 1] == d[|d| - 1] && m[1..] == d;
    assert p[0] == '+' && p[|p| - 1] == d[|d| - 1] && p[1..] == d;
    PyStripNoSpace(m);
    PyStripNoSpace(p);
  }

  /** Python's str(n) for any integer: a minus sign before the digits of a negative one. */
  function IntToString(n: int): string {
    if n < 0 then "-" + NatToString(-n) else NatToString(n)
  }

  /** int() reads back every integer str() prints. */
  lemma PyIntPrinted(n: int)
    ensures PyInt(IntToString(n)) == Some(n)
  {
    var k: nat := if n < 0 then -n else n;
    ParsePrinted(k);
    if n < 0 {
      PyIntSigned(NatToString(k));
    } else {
      PyIntDigits(NatToString(k));
    }
  }

  /** int() takes a signed number where Atoi-style parsing fails. */
  lemma PyIntAcceptsSigned()
    ensures PyInt("-1") == Some(-1) && ParseNat("-1") == None
  {
    assert AllDigits("1") && DigitsValue("1") == 1;
    PyIntSigned("1");
    assert "-" + "1" == "-1";
    assert ParseNat("-1") == None by { assert !IsDigit("-1"[0]); }
  }

  /** int() ignores white space around the number. */
  lemma PyIntAcceptsPadded()
    ensures PyInt(" 7\n") == Some(7) && ParseNat(" 7\n") == None
  {
    assert " 7\n"[1..] == "7\n" && "7\n"[..1] == "7";
    assert PyStrip(" 7\n") == "7";
    assert AllDigits("7") && DigitsValue("7") == 7;
    LiteralDigits("7");
    assert ParseNat(" 7\n") == None by { assert !IsDigit(" 7\n"[0]); }
  }

  /** int() reads an underscore between two digits as nothing. */
  lemma PyIntAcceptsUnderscore()
    ensures PyInt("1_0") == Some(10) && ParseNat("1_0") == None
  {
    PyStripNoSpace("1_0");
    assert "1_0"[..1] == "1";
    assert Literal("1") == Some(1);
    assert ParseNat("1_0") == None by { assert !IsDigit("1_0"[1]); }
  }

  /** Doubled or leading underscores, a lone sign and the empty string are a ValueError. */
  lemma PyIntRejects()
    ensures PyInt("1__0") == None && PyInt("_1") == None && PyInt("+") == None && PyInt("") == None
  {
    PyStripNoSpace("1__0");
    PyStripNoSpace("_1");
    assert "_1"[..0] == "";
    PyStripNoSpace("+");
    assert "+"[1..] == "";
  }

  /** Python's str.lower on ASCII letters; every other character is kept. */
  function LowerChar(ch: char): char {
    if 'A' <= ch <= 'Z' then (ch as int + 32) as char else ch
  }

  function ToLower(s: string): (r: string)
    ensures |r| == |s|
    ensures forall k :: 0 <= k < |s| ==> r[k] == LowerChar(s[k])
  {
    if |s| == 0 then "" else [LowerChar(s[0])] + ToLower(s[1..])
  }

  /** Lower-casing a string without ASCII capitals leaves it as it is. */
  lemma ToLowerNoCapitals(s: string)
    requires forall k :: 0 <= k < |s| ==> !('A' <= s[k] <= 'Z')
    ensures ToLower(s) == s
  {
  }

  /** A string lacking one of the characters of `sub` does not contain `sub`. */
  lemma MissingCharNotContained(s: string, sub: string, c: char)
    requires c in sub && c !in s
    ensures !Contains(s, sub)
  {
    var j :| 0 <= j < |sub| && sub[j] == c;
    forall i | 0 <= i <= |s| - |sub|
      ensures !OccursAt(s, sub, i)
    {
      assert s[i..i + |sub|][j] == s[i + j];
    }
  }

  /** A string with exactly one separator splits into the two pieces around it. */
  lemma SplitAtOne(p: string, q: string, c: char)
    requires c !in p && c !in q
    ensures Split(p + [c] + q, c) == [p, q]
  {
    var s := p + [c] + q;
    assert s[|p|] == c;
    assert forall j :: 0 <= j < |p| ==> s[j] == p[j];
    assert IndexOf(s, c) == |p|;
    assert s[|p| + 1..] == q;
    assert s[..|p|] == p;
  }

  /** Joining pieces free of `c` with `c` and splitting on `c` gives the pieces back. */
  lemma {:induction false} SplitJoin(parts: seq<string>, c: char)
    requires |parts| >= 1
    requires forall k :: 0 <= k < |parts| ==> c !in parts[k]
    ensures Split(Join(parts, [c]), c) == parts
  {
    if |parts| == 1 {
      assert IndexOf(parts[0], c) == |parts[0]|;
    } else {
      var rest := Join(parts[1..], [c]);
      SplitJoin(parts[1..], c);
      var s := parts[0] + [c] + rest;
      assert s[|parts[0]|] == c;
      assert forall j :: 0 <= j < |parts[0]| ==> s[j] == parts[0][j];
      assert IndexOf(s, c) == |parts[0]|;
      assert s[|parts[0]| + 1..] == rest;
      assert s[..|parts[0]|] == parts[0];
      assert parts == [parts[0]] + parts[1..];
    }
  }

  /** The prefix of a sequence up to its length is the sequence. */
  lemma FullPrefix<T>(s: seq<T>)
    ensures s[..|s|] == s
  {
  }

  /** Concatenation is associative. */
  lemma AppendAssoc<T>(a: seq<T>, b: seq<T>, c: seq<T>)
    ensures (a + b) + c == a + (b + c)
  {
  }
}
