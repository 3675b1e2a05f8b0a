/** The Python string operations the system relies on: `str.strip()`,
    `str.lstrip(chars)`, `str.splitlines()`, `str.split(sep)`,
    `sep.join(parts)` and the decimal formatting of an `int` in an f-string.
    Strings are sequences of Unicode code points, as Python's are. */
module Text {

  /** The characters Python's `str.isspace()` accepts, which is the set that
      `str.strip()` without arguments removes. */
  predicate IsSpace(c: char)
  {
    || '\t' <= c <= '\r'
    || '\U{001C}' <= c <= '\U{001F}'
    || c == ' ' || c == '\U{0085}' || c == '\U{00A0}' || c == '\U{1680}'
    || '\U{2000}' <= c <= '\U{200A}'
    || c == '\U{2028}' || c == '\U{2029}' || c == '\U{202F}' || c == '\U{205F}' || c == '\U{3000}'
  }

  /** The characters at which `str.splitlines()` ends a line ("\r\n" counts
      as one boundary: see BreakWidth). */
  predicate IsLineBreak(c: char)
  {
    || '\n' <= c <= '\r'
    || '\U{001C}' <= c <= '\U{001E}'
    || c == '\U{0085}' || c == '\U{2028}' || c == '\U{2029}'
  }

  /** The truth value of a string in a condition: not empty. */
  predicate NonEmpty(s: string)
  {
    s != ""
  }

  ghost predicate NoLineBreaks(s: string)
  {
    forall i :: 0 <= i < |s| ==> !IsLineBreak(s[i])
  }

  // ---------------------------------------------------------------- strip

  /** `s.lstrip()`: the suffix of `s` that starts at its first non-space. */
  function StripStart(s: string): (r: string)
    ensures |r| <= |s| && r == s[|s| - |r|..]
    ensures r == "" || !IsSpace(r[0])
    ensures forall i :: 0 <= i < |s| - |r| ==> IsSpace(s[i])
  {
    if s != "" && IsSpace(s[0]) then StripStart(s[1..]) else s
  }

  /** `s.rstrip()`: the prefix of `s` that ends at its last non-space. */
  function StripEnd(s: string): (r: string)
    ensures |r| <= |s| && r == s[..|r|]
    ensures r == "" || !IsSpace(r[|r| - 1])
    ensures forall i :: |r| <= i < |s| ==> IsSpace(s[i])
  {
    if s != "" && IsSpace(s[|s| - 1]) then StripEnd(s[..|s| - 1]) else s
  }

  /** `s.strip()`. */
  function Strip(s: string): (r: string)
    ensures |r| <= |s|
    ensures r == "" || (!IsSpace(r[0]) && !IsSpace(r[|r| - 1]))
  {
    var front := StripStart(s);
    var r := StripEnd(front);
    assert r != "" ==> r[0] == front[0];
    r
  }

  /** Stripping leaves nothing exactly when the string is all whitespace. */
  lemma StripEmptyIff(s: string)
    ensures Strip(s) == "" <==> forall i :: 0 <= i < |s| ==> IsSpace(s[i])
  {
    var front := StripStart(s);
    if Strip(s) == "" {
      assert front == "";
    }
  }

  /** A non-empty stripped string has whitespace at neither end. */
  lemma StripEnds(s: string)
    requires Strip(s) != ""
    ensures var r := Strip(s); !IsSpace(r[0]) && !IsSpace(r[|r| - 1])
  {
  }

  /** `s.strip()` leaves a stripped string as it is. */
  lemma StripIdempotent(s: string)
    ensures Strip(Strip(s)) == Strip(s)
  {
    var r := Strip(s);
    assert StripStart(r) == r;
    assert StripEnd(r) == r;
  }

  /** A non-empty string with no whitespace at either end. */
  predicate Trimmed(s: string)
  {
    s != "" && !IsSpace(s[0]) && !IsSpace(s[|s| - 1])
  }

  lemma StripOfTrimmed(s: string)
    requires Trimmed(s)
    ensures Strip(s) == s
  {
    StripOfUnpadded(s);
  }

  lemma StripOfUnpadded(s: string)
    requires s == "" || (!IsSpace(s[0]) && !IsSpace(s[|s| - 1]))
    ensures Strip(s) == s
  {
    assert StripStart(s) == s;
  }

  /** The characters `lstrip("0123456789.)-•* ")` removes: the digits, the
      full stop, the closing parenthesis, the hyphen, the bullet U+2022, the
      asterisk and the space. */
  predicate IsListMarker(c: char)
  {
    '0' <= c <= '9' || c == '.' || c == ')' || c == '-' || c == '\U{2022}' || c == '*' || c == ' '
  }

  /** `s.lstrip("0123456789.)-•* ")`: the suffix of `s` from its first
      character that is not a list marker. */
  function StripListMarkers(s: string): (r: string)
    ensures |r| <= |s| && r == s[|s| - |r|..]
    ensures r == "" || !IsListMarker(r[0])
    ensures forall i :: 0 <= i < |s| - |r| ==> IsListMarker(s[i])
  {
    if s != "" && IsListMarker(s[0]) then StripListMarkers(s[1..]) else s
  }

  /** Cutting off leading markers keeps the last character, if any is left. */
  lemma StripListMarkersKeepsEnd(s: string)
    requires StripListMarkers(s) != ""
    ensures var r := StripListMarkers(s); r[|r| - 1] == s[|s| - 1]
  {
  }

  // ---------------------------------------------------------------- lines

  /** The index of the first line break in `s`, or `|s|` if there is none. */
  function LineEnd(s: string): (n: nat)
    ensures n <= |s|
    ensures forall i :: 0 <= i < n ==> !IsLineBreak(s[i])
    ensures n < |s| ==> IsLineBreak(s[n])
  {
    if s == "" then 0
    else if IsLineBreak(s[0]) then 0
    else 1 + LineEnd(s[1..])
  }

  /** LineEnd is pinned down by its contract. */
  lemma LineEndAt(s: string, n: nat)
    requires n <= |s|
    requires forall i :: 0 <= i < n ==> !IsLineBreak(s[i])
    requires n < |s| ==> IsLineBreak(s[n])
    ensures LineEnd(s) == n
  {
  }

  /** How many characters the line boundary at `s[n]` takes: two for "\r\n". */
  function BreakWidth(s: string, n: nat): (w: nat)
    requires n < |s|
    ensures 1 <= w <= |s| - n
  {
    if s[n] == '\r' && n + 1 < |s| && s[n + 1] == '\n' then 2 else 1
  }

  /** `s.splitlines()`: the lines of `s` without their line breaks; a final
      line break does not start an empty last line. */
  function SplitLines(s: string): (lines: seq<string>)
    ensures forall k :: 0 <= k < |lines| ==> NoLineBreaks(lines[k])
    ensures lines == [] <==> s == ""
    decreases |s|
  {
    if s == "" then []
    else
      var n := LineEnd(s);
      if n == |s| then [s]
      else [s[..n]] + SplitLines(s[n + BreakWidth(s, n)..])
  }

  /** `sep.join(parts)`. */
  function Join(parts: seq<string>, sep: string): string
  {
    if |parts| == 0 then ""
    else if |parts| == 1 then parts[0]
    else parts[0] + sep + Join(parts[1..], sep)
  }

  /** Joining one more part in front. */
  lemma JoinCons(first: string, rest: seq<string>, sep: string)
    requires rest != []
    ensures Join([first] + rest, sep) == first + sep + Join(rest, sep)
  {
    assert ([first] + rest)[1..] == rest;
  }

  /** A line ended by "\n" is the first line, whatever follows. */
  lemma SplitLinesCons(line: string, rest: string)
    requires NoLineBreaks(line)
    ensures SplitLines(line + "\n" + rest) == [line] + SplitLines(rest)
  {
    var s := line + "\n" + rest;
    LineEndAt(s, |line|);
    assert s[..|line|] == line;
    assert s[|line| + 1..] == rest;
  }

  /** Splitting "\n"-joined lines into lines gives the lines back, provided
      none holds a line break and the last one is not empty. */
  lemma {:induction false} SplitLinesOfJoin(lines: seq<string>)
    requires forall k :: 0 <= k < |lines| ==> NoLineBreaks(lines[k])
    requires lines != [] ==> lines[|lines| - 1] != ""
    ensures SplitLines(Join(lines, "\n")) == lines
  {
    if |lines| == 1 {
      LineEndAt(lines[0], |lines[0]|);
    } else if |lines| > 1 {
      var rest := lines[1..];
      assert [lines[0]] + rest == lines;
      JoinCons(lines[0], rest, "\n");
      SplitLinesCons(lines[0], Join(rest, "\n"));
      SplitLinesOfJoin(rest);
    }
  }

  // ---------------------------------------------------------------- split

  /** The index of the first `c` in `s`, or `|s|` if there is none. */
  function IndexOf(s: string, c: char): (n: nat)
    ensures n <= |s|
    ensures forall i :: 0 <= i < n ==> s[i] != c
    ensures n < |s| ==> s[n] == c
  {
    if s == "" then 0
    else if s[0] == c then 0
    else 1 + IndexOf(s[1..], c)
  }

  /** `s.split(sep)`: the pieces between the occurrences of `sep`; there is
      always at least one, and "".split(",") is [""]. */
  function SplitOn(s: string, sep: char): (pieces: seq<string>)
    ensures |pieces| >= 1
    ensures forall k :: 0 <= k < |pieces| ==> sep !in pieces[k]
    decreases |s|
  {
    var n := IndexOf(s, sep);
    if n == |s| then [s]
    else [s[..n]] + SplitOn(s[n + 1..], sep)
  }

  /** IndexOf is pinned down by its contract. */
  lemma IndexOfAt(s: string, c: char, n: nat)
    requires n <= |s|
    requires forall i :: 0 <= i < n ==> s[i] != c
    requires n < |s| ==> s[n] == c
    ensures IndexOf(s, c) == n
  {
  }

  /** A piece ended by the separator is the first piece, whatever follows. */
  lemma SplitOnCons(piece: string, rest: string, sep: char)
    requires sep !in piece
    ensures SplitOn(piece + [sep] + rest, sep) == [piece] + SplitOn(rest, sep)
  {
    var s := piece + [sep] + rest;
    IndexOfAt(s, sep, |piece|);
    assert s[..|piece|] == piece;
    assert s[|piece| + 1..] == rest;
  }

  /** Splitting the separator-joined pieces gives the pieces back, provided
      none holds the separator. */
  lemma {:induction false} SplitOnOfJoin(parts: seq<string>, sep: char)
    requires parts != []
    requires forall k :: 0 <= k < |parts| ==> sep !in parts[k]
    ensures SplitOn(Join(parts, [sep]), sep) == parts
  {
    if |parts| == 1 {
      IndexOfAt(parts[0], sep, |parts[0]|);
    } else {
      var rest := parts[1..];
      assert [parts[0]] + rest == parts;
      JoinCons(parts[0], rest, [sep]);
      SplitOnCons(parts[0], Join(rest, [sep]), sep);
      SplitOnOfJoin(rest, sep);
    }
  }

  /** A slice holds no character its string does not. */
  lemma SliceKeepsOut(s: string, c: char, lo: nat, hi: nat)
    requires lo <= hi <= |s| && c !in s
    ensures c !in s[lo..hi]
  {
    forall i | 0 <= i < hi - lo
      ensures s[lo..hi][i] != c
    {
      assert s[lo..hi][i] == s[lo + i];
    }
  }

  /** Stripping adds no character. */
  lemma StripKeepsOut(s: string, c: char)
    requires c !in s
    ensures c !in Strip(s)
  {
    var front := StripStart(s);
    SliceKeepsOut(s, c, |s| - |front|, |s|);
    var r := StripEnd(front);
    SliceKeepsOut(front, c, 0, |r|);
  }

  /** Joining the pieces with the separator gives back the string. */
  lemma {:induction false} JoinOfSplitOn(s: string, sep: char)
    ensures Join(SplitOn(s, sep), [sep]) == s
    decreases |s|
  {
    var n := IndexOf(s, sep);
    if n < |s| {
      var piece, after := s[..n], s[n + 1..];
      assert s == piece + [sep] + after;
      SplitOnCons(piece, after, sep);
      JoinCons(piece, SplitOn(after, sep), [sep]);
      JoinOfSplitOn(after, sep);
    }
  }

  // ---------------------------------------------------------------- integers

  function DigitChar(d: nat): (c: char)
    requires d < 10
    ensures '0' <= c <= '9'
  {
    ('0' as int + d) as char
  }

  /** The decimal digits of `n`, most significant first, without leading zeros. */
  function NatToString(n: nat): (r: string)
    ensures |r| >= 1
    ensures forall i :: 0 <= i < |r| ==> '0' <= r[i] <= '9'
  {
    if n < 10 then [DigitChar(n)] else NatToString(n / 10) + [DigitChar(n % 10)]
  }

  /** `str(i)` for a Python `int`. */
  function IntToString(i: int): (r: string)
    ensures |r| >= 1
    ensures forall k :: 0 <= k < |r| ==> '0' <= r[k] <= '9' || (k == 0 && r[k] == '-')
  {
    if i < 0 then "-" + NatToString(-i) else NatToString(i)
  }

  /** The number a string of decimal digits denotes. */
  function DigitsValue(s: string): int
  {
    if s == "" then 0 else DigitsValue(s[..|s| - 1]) * 10 + (s[|s| - 1] as int - '0' as int)
  }

  /** The digits NatToString writes denote the number formatted. */
  lemma {:induction false} NatToStringDenotes(n: nat)
    ensures DigitsValue(NatToString(n)) == n
  {
    if n >= 10 {
      var front := NatToString(n / 10);
      assert (front + [DigitChar(n % 10)])[..|front|] == front;
      NatToStringDenotes(n / 10);
    }
  }
}
