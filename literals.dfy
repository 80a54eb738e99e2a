/** The literal formatter of index.js: `trim` and `literal`, which turn a raw
    string into the source text of a JavaScript literal. */
module Literals {

  /** The characters of the JavaScript regular-expression class `\s`:
      WhiteSpace (tab, vertical tab, form feed, space, no-break space,
      byte-order mark and the Unicode space separators) and LineTerminator. */
  predicate IsSpace(c: char) {
    || c == '\t' || c == '\n' || c == '\U{000B}' || c == '\U{000C}' || c == '\r'
    || c == ' ' || c == '\U{00A0}' || c == '\U{1680}'
    || ('\U{2000}' <= c <= '\U{200A}')
    || c == '\U{2028}' || c == '\U{2029}' || c == '\U{202F}' || c == '\U{205F}'
    || c == '\U{3000}' || c == '\U{FEFF}'
  }

  /** `str.replace(/^\s+/g, '')`: the input without its leading whitespace. */
  function TrimStart(s: string): (r: string)
    ensures |r| <= |s|
  {
    if s != [] && IsSpace(s[0]) then TrimStart(s[1..]) else s
  }

  /** `TrimStart` drops the leading whitespace, and nothing else. */
  lemma {:induction false} TrimStartSpec(s: string)
    ensures |TrimStart(s)| <= |s| && TrimStart(s) == s[|s| - |TrimStart(s)|..]
    ensures forall i :: 0 <= i < |s| - |TrimStart(s)| ==> IsSpace(s[i])
    ensures TrimStart(s) != [] ==> !IsSpace(TrimStart(s)[0])
  {
    if s != [] && IsSpace(s[0]) {
      TrimStartSpec(s[1..]);
      assert forall i :: 1 <= i < |s| ==> s[i] == s[1..][i - 1];
    }
  }

  /** `str.replace(/\s+$/g, '')`: the input without its trailing whitespace. */
  function TrimEnd(s: string): (r: string)
    ensures |r| <= |s|
  {
    if s != [] && IsSpace(s[|s| - 1]) then TrimEnd(s[..|s| - 1]) else s
  }

  /** `TrimEnd` drops the trailing whitespace, and nothing else. */
  lemma {:induction false} TrimEndSpec(s: string)
    ensures |TrimEnd(s)| <= |s| && TrimEnd(s) == s[..|TrimEnd(s)|]
    ensures forall i :: |TrimEnd(s)| <= i < |s| ==> IsSpace(s[i])
    ensures TrimEnd(s) != [] ==> !IsSpace(TrimEnd(s)[|TrimEnd(s)| - 1])
  {
    if s != [] && IsSpace(s[|s| - 1]) {
      TrimEndSpec(s[..|s| - 1]);
    }
  }

  /** Number of whitespace characters `Trim` removes from the front of `s`. */
  function TrimOffset(s: string): nat {
    |s| - |TrimStart(s)|
  }

  /** `trim(str)` (index.js:8-11) on a string. The falsy check of the source
      returns `''` for the empty string, which is also what trimming gives;
      absent values never reach `trim` in this model. */
  function Trim(s: string): string {
    TrimEnd(TrimStart(s))
  }

  /** `Trim` returns the input without its leading and trailing whitespace:
      a slice of the input, everything cut off around it is whitespace, and
      it neither starts nor ends with whitespace. */
  lemma {:induction false} TrimSpec(s: string)
    ensures TrimOffset(s) + |Trim(s)| <= |s|
    ensures Trim(s) == s[TrimOffset(s)..TrimOffset(s) + |Trim(s)|]
    ensures forall i :: 0 <= i < TrimOffset(s) ==> IsSpace(s[i])
    ensures forall i :: TrimOffset(s) + |Trim(s)| <= i < |s| ==> IsSpace(s[i])
    ensures Trim(s) != [] ==> !IsSpace(Trim(s)[0]) && !IsSpace(Trim(s)[|Trim(s)| - 1])
  {
    TrimStartSpec(s);
    TrimEndSpec(TrimStart(s));
    var u := TrimStart(s);
    var r := Trim(s);
    if r != [] {
      assert r[0] == u[0];
    }
    forall i | TrimOffset(s) + |r| <= i < |s|
      ensures IsSpace(s[i])
    {
      assert s[i] == u[i - TrimOffset(s)];
    }
  }

  /** The empty string, and only a string of whitespace, trims to empty. */
  lemma {:induction false} TrimEmptyIffAllSpace(s: string)
    ensures Trim(s) == "" <==> forall i :: 0 <= i < |s| ==> IsSpace(s[i])
  {
    TrimSpec(s);
  }

  /** Trimming twice is trimming once. */
  lemma {:induction false} TrimIdempotent(s: string)
    ensures Trim(Trim(s)) == Trim(s)
  {
    TrimSpec(s);
    var t := Trim(s);
    if t != [] {
      assert TrimStart(t) == t;
      assert TrimEnd(t) == t;
    }
  }

  /** A character that `escape` prefixes with a backslash or rewrites. */
  predicate Special(c: char) {
    c == '\\' || c == '"' || c == '\0'
  }

  /** The escape of one character, first `/[\\"]/g` to `\\$&`, then
      `/\u0000/g` to `\\0` (index.js:16-17, 20). */
  function EscapeChar(c: char): string {
    if c == '\\' || c == '"' then ['\\', c]
    else if c == '\0' then ['\\', '0']
    else [c]
  }

  /** The text `esc` of index.js:20. The first replacement never introduces a
      NUL, so the two replacements act character by character. */
  function Escape(s: string): string {
    if s == [] then [] else EscapeChar(s[0]) + Escape(s[1..])
  }

  /** Reads back the body of a double-quoted literal: a backslash takes the
      next character literally, except that a backslash and `0` stand for NUL. */
  function Unescape(e: string): string {
    if e == [] then []
    else if e[0] == '\\' && |e| >= 2 then [if e[1] == '0' then '\0' else e[1]] + Unescape(e[2..])
    else [e[0]] + Unescape(e[1..])
  }

  /** `Unescape` inverts `Escape`. */
  lemma {:induction false} UnescapeEscape(s: string)
    ensures Unescape(Escape(s)) == s
  {
    if s != [] {
      UnescapeEscape(s[1..]);
      var e := Escape(s);
      assert e == EscapeChar(s[0]) + Escape(s[1..]);
      if Special(s[0]) {
        assert e[2..] == Escape(s[1..]);
      } else {
        assert e[1..] == Escape(s[1..]);
      }
      assert s == [s[0]] + s[1..];
    }
  }

  /** Escaping changes nothing exactly when there is nothing to escape. */
  lemma {:induction false} EscapeIdentity(s: string)
    ensures Escape(s) == s <==> forall i :: 0 <= i < |s| ==> !Special(s[i])
  {
    if s != [] {
      var e := Escape(s[1..]);
      EscapeIdentity(s[1..]);
      EscapeLength(s[1..]);
      if Special(s[0]) {
        assert |Escape(s)| == 2 + |e|;
      } else {
        assert Escape(s) == [s[0]] + e;
        assert s == [s[0]] + s[1..];
        if e != s[1..] {
          assert Escape(s)[1..] == e;
        }
        if forall i :: 0 <= i < |s[1..]| ==> !Special(s[1..][i]) {
          forall i | 0 <= i < |s|
            ensures !Special(s[i])
          {
            if i > 0 {
              assert s[i] == s[1..][i - 1];
            }
          }
        } else {
          var j :| 0 <= j < |s[1..]| && Special(s[1..][j]);
          assert s[j + 1] == s[1..][j];
        }
      }
    }
  }

  /** Escaping never shortens its input. */
  lemma {:induction false} EscapeLength(s: string)
    ensures |Escape(s)| >= |s|
  {
    if s != [] {
      EscapeLength(s[1..]);
    }
  }

  /** The escaped text contains a backslash exactly when the input holds a
      backslash, a double quote or a NUL. */
  lemma {:induction false} EscapeHasBackslash(s: string)
    ensures '\\' in Escape(s) <==> exists i :: 0 <= i < |s| && Special(s[i])
  {
    if s != [] {
      EscapeHasBackslash(s[1..]);
      assert Escape(s) == EscapeChar(s[0]) + Escape(s[1..]);
      if exists i :: 0 <= i < |s[1..]| && Special(s[1..][i]) {
        var i :| 0 <= i < |s[1..]| && Special(s[1..][i]);
        assert Special(s[i + 1]);
      }
      if exists i :: 0 <= i < |s| && Special(s[i]) {
        var i :| 0 <= i < |s| && Special(s[i]);
        if i > 0 {
          assert Special(s[1..][i - 1]);
        }
      }
    }
  }

  /** The escaped text contains a single quote exactly when the input does. */
  lemma {:induction false} EscapeHasQuote(s: string)
    ensures '\'' in Escape(s) <==> '\'' in s
  {
    if s != [] {
      EscapeHasQuote(s[1..]);
      assert Escape(s) == EscapeChar(s[0]) + Escape(s[1..]);
      assert s == [s[0]] + s[1..];
    }
  }

  predicate IsDigit(c: char) {
    '0' <= c <= '9'
  }

  /** `\d+`: a non-empty run of ASCII digits. */
  predicate Digits(s: string) {
    |s| > 0 && forall i :: 0 <= i < |s| ==> IsDigit(s[i])
  }

  /** `\d+(\.\d+)?`: digits, optionally followed by a dot and more digits. */
  predicate Unsigned(u: string) {
    || Digits(u)
    || exists k :: 0 < k < |u| && u[k] == '.' && Digits(u[..k]) && Digits(u[k + 1..])
  }

  /** The pattern `/^\-?\d+(\.\d+)?$/` of index.js:15, read as a set of strings. */
  predicate NumberPattern(s: string) {
    if |s| > 0 && s[0] == '-' then Unsigned(s[1..]) else Unsigned(s)
  }

  /** A possibly empty run of digits, scanned left to right. */
  predicate DigitRun(u: string) {
    u == [] || (IsDigit(u[0]) && DigitRun(u[1..]))
  }

  /** What may follow the first digit of the integer part: more digits, then
      optionally a dot and a non-empty run of digits. */
  predicate IntRest(u: string) {
    if u == [] then true
    else if IsDigit(u[0]) then IntRest(u[1..])
    else u[0] == '.' && |u| > 1 && DigitRun(u[1..])
  }

  /** An unsigned number, scanned left to right. */
  predicate UnsignedScan(u: string) {
    |u| > 0 && IsDigit(u[0]) && IntRest(u[1..])
  }

  /** `esc.match(rgxnumber)` (index.js:15, 21), scanned left to right the way
      the regular expression matches. */
  predicate IsNumeric(s: string) {
    if |s| > 0 && s[0] == '-' then UnsignedScan(s[1..]) else UnsignedScan(s)
  }

  lemma {:induction false} DigitRunAll(u: string)
    ensures DigitRun(u) <==> forall i :: 0 <= i < |u| ==> IsDigit(u[i])
  {
    if u != [] {
      DigitRunAll(u[1..]);
      assert forall i :: 1 <= i < |u| ==> u[i] == u[1..][i - 1];
    }
  }

  /** The scanner of the part after the first digit agrees with the pattern. */
  lemma {:induction false} IntRestPattern(u: string)
    ensures IntRest(u) <==>
      || DigitRun(u)
      || exists k :: 0 <= k < |u| && u[k] == '.' && DigitRun(u[..k]) && Digits(u[k + 1..])
  {
    if u != [] {
      IntRestPattern(u[1..]);
      DigitRunAll(u[1..]);
      if IsDigit(u[0]) {
        if IntRest(u) {
          if !DigitRun(u[1..]) {
            var k :| 0 <= k < |u[1..]| && u[1..][k] == '.' && DigitRun(u[1..][..k]) && Digits(u[1..][k + 1..]);
            assert u[..k + 1][1..] == u[1..][..k];
            assert u[k + 2..] == u[1..][k + 1..];
            assert u[k + 1] == '.' && DigitRun(u[..k + 1]) && Digits(u[k + 2..]);
          }
        } else {
          forall k | 0 <= k < |u| && u[k] == '.' && DigitRun(u[..k])
            ensures !Digits(u[k + 1..])
          {
            assert k != 0;
            assert u[..k][1..] == u[1..][..k - 1];
            assert u[k + 1..] == u[1..][k..];
          }
        }
      } else {
        if u[0] == '.' && |u| > 1 && DigitRun(u[1..]) {
          assert u[..0] == [];
          assert DigitRun(u[..0]) && Digits(u[0 + 1..]);
        }
        if exists k :: 0 <= k < |u| && u[k] == '.' && DigitRun(u[..k]) && Digits(u[k + 1..]) {
          var k :| 0 <= k < |u| && u[k] == '.' && DigitRun(u[..k]) && Digits(u[k + 1..]);
          if k > 0 {
            DigitRunHead(u[..k]);
            assert false;
          }
          assert u[1..] == u[k + 1..];
        }
      }
    }
  }

  lemma {:induction false} DigitRunHead(v: string)
    requires DigitRun(v) && v != []
    ensures IsDigit(v[0])
  {
  }

  /** Every unsigned number the scanner accepts matches the pattern. */
  lemma {:induction false} UnsignedScanSound(u: string)
    requires UnsignedScan(u)
    ensures Unsigned(u)
  {
    var t := u[1..];
    IntRestPattern(t);
    if DigitRun(t) {
      assert u[1..] == t;
      DigitRunAll(u);
    } else {
      var k :| 0 <= k < |t| && t[k] == '.' && DigitRun(t[..k]) && Digits(t[k + 1..]);
      assert u[..k + 1][1..] == t[..k];
      DigitRunAll(u[..k + 1]);
      assert u[k + 2..] == t[k + 1..];
      assert u[k + 1] == '.' && Digits(u[..k + 1]) && Digits(u[k + 2..]);
    }
  }

  /** Every string matching the pattern is accepted by the scanner. */
  lemma {:induction false} UnsignedScanComplete(u: string)
    requires Unsigned(u)
    ensures UnsignedScan(u)
  {
    var t := u[1..];
    IntRestPattern(t);
    if Digits(u) {
      DigitRunAll(u);
      assert u[1..] == t;
    } else {
      var k :| 0 < k < |u| && u[k] == '.' && Digits(u[..k]) && Digits(u[k + 1..]);
      DigitRunAll(u[..k]);
      assert u[..k][1..] == t[..k - 1];
      assert t[k..] == u[k + 1..];
      assert t[k - 1] == '.' && DigitRun(t[..k - 1]) && Digits(t[k - 1 + 1..]);
    }
  }

  /** The left-to-right scanner and the pattern accept the same unsigned numbers. */
  lemma {:induction false} UnsignedScanPattern(u: string)
    ensures UnsignedScan(u) <==> Unsigned(u)
  {
    if UnsignedScan(u) {
      UnsignedScanSound(u);
    }
    if Unsigned(u) {
      UnsignedScanComplete(u);
    }
  }

  /** The scanner decides exactly the pattern. */
  lemma {:induction false} IsNumericPattern(s: string)
    ensures IsNumeric(s) <==> NumberPattern(s)
  {
    if |s| > 0 && s[0] == '-' {
      UnsignedScanPattern(s[1..]);
    } else {
      UnsignedScanPattern(s);
    }
  }

  lemma {:induction false} IntRestChars(u: string)
    requires IntRest(u)
    ensures forall i :: 0 <= i < |u| ==> IsDigit(u[i]) || u[i] == '.'
  {
    if u != [] {
      if IsDigit(u[0]) {
        IntRestChars(u[1..]);
      } else {
        DigitRunAll(u[1..]);
      }
      assert forall i :: 1 <= i < |u| ==> u[i] == u[1..][i - 1];
    }
  }

  /** A numeric text is made of digits, `-` and `.` only. */
  lemma {:induction false} NumericChars(s: string)
    requires IsNumeric(s)
    ensures forall i :: 0 <= i < |s| ==> IsDigit(s[i]) || s[i] == '-' || s[i] == '.'
  {
    var u := if |s| > 0 && s[0] == '-' then s[1..] else s;
    IntRestChars(u[1..]);
    assert forall i :: 1 <= i < |u| ==> u[i] == u[1..][i - 1];
    if |s| > 0 && s[0] == '-' {
      assert forall i :: 1 <= i < |s| ==> s[i] == u[i - 1];
    }
  }

  /** Escaping preserves whether a text is numeric, and leaves a numeric
      text unchanged. */
  lemma {:induction false} EscapeNumeric(t: string)
    ensures IsNumeric(Escape(t)) <==> IsNumeric(t)
    ensures IsNumeric(t) ==> Escape(t) == t
  {
    EscapeIdentity(t);
    EscapeHasBackslash(t);
    if IsNumeric(t) {
      NumericChars(t);
    }
    if IsNumeric(Escape(t)) {
      NumericChars(Escape(t));
    }
  }

  /** `literal(raw)` (index.js:18-28). */
  function Literal(raw: string): string {
    var t := Trim(raw);
    var esc := Escape(t);
    if IsNumeric(esc) then esc
    else if '\'' in esc || '\\' in esc then "\"" + esc + "\""
    else "'" + t + "'"
  }

  /** The trimmed input holds a character that the single-quoted form cannot carry. */
  predicate NeedsDoubleQuotes(t: string) {
    exists i :: 0 <= i < |t| && (t[i] == '\'' || Special(t[i]))
  }

  /** A numeric text is returned unquoted and equal to the trimmed input. */
  lemma {:induction false} LiteralNumeric(raw: string)
    requires IsNumeric(Trim(raw))
    ensures Literal(raw) == Trim(raw)
  {
    EscapeNumeric(Trim(raw));
  }

  /** A non-numeric text holding `'`, `\`, `"` or NUL is double-quoted with
      its body escaped. */
  lemma {:induction false} LiteralDoubleQuoted(raw: string)
    requires !IsNumeric(Trim(raw)) && NeedsDoubleQuotes(Trim(raw))
    ensures Literal(raw) == "\"" + Escape(Trim(raw)) + "\""
  {
    var t := Trim(raw);
    EscapeNumeric(t);
    EscapeHasQuote(t);
    EscapeHasBackslash(t);
    var i :| 0 <= i < |t| && (t[i] == '\'' || Special(t[i]));
    if t[i] == '\'' {
      assert '\'' in t;
    }
  }

  /** Any other text is the trimmed input in single quotes, and that input
      holds none of `'`, `\`, `"` and NUL. */
  lemma {:induction false} LiteralSingleQuoted(raw: string)
    requires !IsNumeric(Trim(raw)) && !NeedsDoubleQuotes(Trim(raw))
    ensures Literal(raw) == "'" + Trim(raw) + "'"
    ensures forall i :: 0 <= i < |Trim(raw)| ==> Trim(raw)[i] != '\'' && !Special(Trim(raw)[i])
  {
    var t := Trim(raw);
    EscapeNumeric(t);
    EscapeHasQuote(t);
    EscapeHasBackslash(t);
  }

  /** The empty string, or any string of whitespace, formats as `''`. */
  lemma {:induction false} LiteralBlank(raw: string)
    requires forall i :: 0 <= i < |raw| ==> IsSpace(raw[i])
    ensures Literal(raw) == "''"
  {
    TrimEmptyIffAllSpace(raw);
  }

  /** The model's reader of a formatted literal: the body of a
      double-quoted literal unescaped by `Unescape` (a backslash takes the
      next character, and `\0` is NUL whatever follows it), the body of a
      single-quoted one as it stands, and a numeric literal as its own
      text. */
  function ReadLiteral(r: string): string {
    if |r| >= 2 && r[0] == '"' && r[|r| - 1] == '"' then Unescape(r[1..|r| - 1])
    else if |r| >= 2 && r[0] == '\'' && r[|r| - 1] == '\'' then r[1..|r| - 1]
    else r
  }

  /** The model's reader gets the trimmed input back from the literal. */
  lemma {:induction false} LiteralRoundTrip(raw: string)
    ensures ReadLiteral(Literal(raw)) == Trim(raw)
  {
    var t := Trim(raw);
    if IsNumeric(t) {
      LiteralNumeric(raw);
      NumericChars(t);
      assert |t| > 0 ==> t[0] != '"' && t[0] != '\'';
    } else if NeedsDoubleQuotes(t) {
      LiteralDoubleQuoted(raw);
      ReadDoubleQuoted(Escape(t));
      UnescapeEscape(t);
    } else {
      LiteralSingleQuoted(raw);
      ReadSingleQuoted(t);
    }
  }

  lemma {:induction false} ReadDoubleQuoted(e: string)
    ensures ReadLiteral("\"" + e + "\"") == Unescape(e)
  {
    var r := "\"" + e + "\"";
    assert r[1..|r| - 1] == e;
  }

  lemma {:induction false} ReadSingleQuoted(t: string)
    ensures ReadLiteral("'" + t + "'") == t
  {
    var r := "'" + t + "'";
    assert r[1..|r| - 1] == t;
  }
}
