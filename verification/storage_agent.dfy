/**
 The host-name sanitiser `beautify` of old_pkg/storageagent/client.go. A storage host name
 may hold letters, digits, spaces, periods, dashes and underscores, must begin with a
 letter or an underscore, and must not begin or end with a space. The sanitiser trims
 white space (Go's strings.TrimSpace), puts `_` in front of a name that does not begin with
 a letter or `_` (the expression `^[a-zA-Z_]`), and replaces every character outside
 `[a-zA-Z0-9 \-._]` by `_`.
 */
module StorageAgent {

  /** Go's unicode.IsSpace: the ASCII white space, U+0085, U+00A0 and the other characters
      Unicode gives the White_Space property. */
  predicate IsSpace(c: char) {
    c == '\t' || c == '\n' || c == '\U{B}' || c == '\U{C}' || c == '\r' || c == ' '
    || c == '\U{85}' || c == '\U{A0}' || c == '\U{1680}'
    || ('\U{2000}' <= c <= '\U{200A}')
    || c == '\U{2028}' || c == '\U{2029}' || c == '\U{202F}' || c == '\U{205F}' || c == '\U{3000}'
  }


  function TrimLeft(s: string): (r: string)
    ensures |r| <= |s| && r == s[|s| - |r|..]
    ensures |r| > 0 ==> !IsSpace(r[0])
    ensures forall k :: 0 <= k < |s| - |r| ==> IsSpace(s[k])
    decreases |s|
  {
    if |s| > 0 && IsSpace(s[0]) then TrimLeft(s[1..]) else s
  }

  function TrimRight(s: string): (r: string)
    ensures |r| <= |s| && r == s[..|r|]
    ensures |r| > 0 ==> !IsSpace(r[|r| - 1])
    ensures forall k :: |r| <= k < |s| ==> IsSpace(s[k])
    decreases |s|
  {
    if |s| > 0 && IsSpace(s[|s| - 1]) then TrimRight(s[..|s| - 1]) else s
  }

  /** `r` is `s` without its first `i` characters and the ones after them, all of which
      are white space. */
  predicate TrimmedAt(s: string, r: string, i: int) {
    && 0 <= i <= |s| - |r| && r == s[i..i + |r|]
    && (forall k :: 0 <= k < i ==> IsSpace(s[k]))
    && (forall k :: i + |r| <= k < |s| ==> IsSpace(s[k]))
  }

  /** strings.TrimSpace: white space is removed from both ends, and only there. */
  function TrimSpace(s: string): (r: string)
    ensures |r| > 0 ==> !IsSpace(r[0]) && !IsSpace(r[|r| - 1])
    ensures exists i :: TrimmedAt(s, r, i)
  {
    var l := TrimLeft(s);
    var r := TrimRight(l);
    assert TrimmedAt(s, r, |s| - |l|);
    r
  }

  /** A string with white space at neither end is its own trimming. */
  lemma TrimSpaceKeeps(s: string)
    requires |s| > 0 ==> !IsSpace(s[0]) && !IsSpace(s[|s| - 1])
    ensures TrimSpace(s) == s
  {
  }

  /** Trimming removes the white space around a string that has none at its ends. */
  lemma {:induction false} TrimSpaceAround(a: string, x: string, b: string)
    requires forall k :: 0 <= k < |a| ==> IsSpace(a[k])
    requires forall k :: 0 <= k < |b| ==> IsSpace(b[k])
    requires |x| > 0 && !IsSpace(x[0]) && !IsSpace(x[|x| - 1])
    ensures TrimSpace(a + x + b) == x
  {
    var s := a + x + b;
    var i :| TrimmedAt(s, TrimSpace(s), i);
    assert s[|a|..|a| + |x|] == x;
  }

  /** `^[a-zA-Z_]`. */
  predicate ValidStart(c: char) {
    'a' <= c <= 'z' || 'A' <= c <= 'Z' || c == '_'
  }

  /** A character of `[a-zA-Z0-9 \-._]`, which the replacement keeps. */
  predicate ValidLetter(c: char) {
    'a' <= c <= 'z' || 'A' <= c <= 'Z' || '0' <= c <= '9' || c == ' ' || c == '-' || c == '.' || c == '_'
  }

  /** ReplaceAllString with the one-character expression `[^a-zA-Z0-9 \-._]` and `_`. */
  function ReplaceInvalid(s: string): (r: string)
    ensures |r| == |s|
    ensures forall k :: 0 <= k < |s| ==> r[k] == if ValidLetter(s[k]) then s[k] else '_'
  {
    if |s| == 0 then "" else [if ValidLetter(s[0]) then s[0] else '_'] + ReplaceInvalid(s[1..])
  }

  function Beautify(hostName: string): string {
    var trimmed := TrimSpace(hostName);
    var prefixed := if |trimmed| > 0 && ValidStart(trimmed[0]) then trimmed else "_" + trimmed;
    ReplaceInvalid(prefixed)
  }

  /** A name that follows the three rules. */
  predicate ValidHostName(s: string) {
    && |s| > 0 && ValidStart(s[0]) && s[|s| - 1] != ' '
    && forall k :: 0 <= k < |s| ==> ValidLetter(s[k])
  }

  /** The replacement leaves only valid characters and keeps a valid first character and
      a last character other than a space. */
  lemma ReplaceGivesValid(s: string)
    requires |s| > 0 && ValidStart(s[0]) && s[|s| - 1] != ' '
    ensures ValidHostName(ReplaceInvalid(s))
  {
    var r := ReplaceInvalid(s);
    assert r[0] == s[0];
    assert r[|s| - 1] == s[|s| - 1] || r[|s| - 1] == '_';
  }

  /** The sanitised name follows the rules. */
  lemma BeautifyIsValid(hostName: string)
    ensures ValidHostName(Beautify(hostName))
  {
    var trimmed := TrimSpace(hostName);
    var prefixed := if |trimmed| > 0 && ValidStart(trimmed[0]) then trimmed else "_" + trimmed;
    assert prefixed[|prefixed| - 1] != ' ' by {
      if |trimmed| > 0 {
        assert prefixed[|prefixed| - 1] == trimmed[|trimmed| - 1];
      }
    }
    ReplaceGivesValid(prefixed);
  }

  /** The name is trimmed, gets one `_` in front when it does not begin with a letter or
      `_`, and keeps every other character, each valid one as it was and each invalid one
      turned into `_`. */
  lemma BeautifyShape(hostName: string)
    ensures var t := TrimSpace(hostName);
            var p := if |t| > 0 && ValidStart(t[0]) then 0 else 1;
            && |Beautify(hostName)| == |t| + p
            && (p == 1 ==> Beautify(hostName)[0] == '_')
            && forall k :: 0 <= k < |t| ==>
                 Beautify(hostName)[k + p] == if ValidLetter(t[k]) then t[k] else '_'
  {
    var t := TrimSpace(hostName);
    if !(|t| > 0 && ValidStart(t[0])) {
      assert forall k :: 0 <= k < |t| ==> ("_" + t)[k + 1] == t[k];
    }
  }

  /** A name that already follows the rules is returned unchanged. */
  lemma BeautifyKeepsValid(hostName: string)
    requires ValidHostName(hostName)
    ensures Beautify(hostName) == hostName
  {
    assert !IsSpace(hostName[0]);
    TrimSpaceKeeps(hostName);
  }

  /** Sanitising twice is sanitising once. */
  lemma BeautifyIdempotent(hostName: string)
    ensures Beautify(Beautify(hostName)) == Beautify(hostName)
  {
    BeautifyIsValid(hostName);
    BeautifyKeepsValid(Beautify(hostName));
  }

  /** Every character of a valid name survives the replacement. */
  lemma ReplaceKeepsValid(s: string)
    requires forall k :: 0 <= k < |s| ==> ValidLetter(s[k])
    ensures ReplaceInvalid(s) == s
  {
  }

  /** A name beginning with neither a letter nor `_`, with no invalid character and no
      white space at its ends, only gets `_` in front. */
  lemma BeautifyPrefixes(hostName: string)
    requires |hostName| > 0 && !ValidStart(hostName[0]) && !IsSpace(hostName[0]) && !IsSpace(hostName[|hostName| - 1])
    requires forall k :: 0 <= k < |hostName| ==> ValidLetter(hostName[k])
    ensures Beautify(hostName) == "_" + hostName
  {
    TrimSpaceKeeps(hostName);
    ReplaceKeepsValid("_" + hostName);
  }

  /** The unit test's example of an address, which gets `_` in front. */
  lemma BeautifyAddressExample(ip: string)
    requires |ip| == 7 && ip[0] == '1' && ip[1] == '.' && ip[2] == '2' && ip[3] == '.'
    requires ip[4] == '3' && ip[5] == '.' && ip[6] == '4'
    ensures Beautify(ip) == "_1.2.3.4"
  {
    BeautifyPrefixes(ip);
  }
}
