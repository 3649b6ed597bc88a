/** The string operations the wizard applies to user text: Python's
    `str.strip()`, the slice `s[:n]`, `str.split(sep)`, and the body preview
    shown in the confirmation summary. Strings are sequences of Unicode
    scalar values, which is what Python's `len` and indexing count. */
module Text {

  /** Python's `str.isspace()` for one character: the code points that
      `str.strip()` with no argument removes. */
  predicate IsSpace(c: char) {
    var n := c as int;
    || (0x09 <= n <= 0x0D) || (0x1C <= n <= 0x20)
    || n == 0x85 || n == 0xA0 || n == 0x1680
    || (0x2000 <= n <= 0x200A)
    || n == 0x2028 || n == 0x2029 || n == 0x202F || n == 0x205F || n == 0x3000
  }

  /** The number of whitespace characters at the start of `s`. */
  function LeadingSpaces(s: string): (n: nat)
    ensures n <= |s|
    ensures forall k :: 0 <= k < n ==> IsSpace(s[k])
    ensures n < |s| ==> !IsSpace(s[n])
  {
    if |s| > 0 && IsSpace(s[0]) then
      var m := LeadingSpaces(s[1..]);
      assert forall k :: 1 <= k < 1 + m ==> s[k] == s[1..][k - 1];
      1 + m
    else
      0
  }

  /** The number of whitespace characters at the end of `s`. */
  function TrailingSpaces(s: string): (n: nat)
    ensures n <= |s|
    ensures forall k :: |s| - n <= k < |s| ==> IsSpace(s[k])
    ensures n < |s| ==> !IsSpace(s[|s| - 1 - n])
  {
    if |s| > 0 && IsSpace(s[|s| - 1]) then
      var init := s[..|s| - 1];
      var m := TrailingSpaces(init);
      assert forall k :: |init| - m <= k < |init| ==> s[k] == init[k];
      1 + m
    else
      0
  }

  /** `r` is the part of `s` starting at `i`, and everything of `s` before
      and after it is whitespace. */
  predicate TrimmedAt(s: string, r: string, i: int)
  {
    && 0 <= i <= |s| - |r| && r == s[i..i + |r|]
    && (forall k :: 0 <= k < i ==> IsSpace(s[k]))
    && (forall k :: i + |r| <= k < |s| ==> IsSpace(s[k]))
  }

  /** Python's `s.strip()`: `s` without its leading and trailing whitespace. */
  function Strip(s: string): (r: string)
    ensures |r| > 0 ==> !IsSpace(r[0]) && !IsSpace(r[|r| - 1])
    ensures exists i :: TrimmedAt(s, r, i)
  {
    var i := LeadingSpaces(s);
    var t := s[i..];
    var n := TrailingSpaces(t);
    var r := t[..|t| - n];
    assert r == s[i..i + |r|];
    assert forall k :: i + |r| <= k < |s| ==> s[k] == t[k - i];
    assert TrimmedAt(s, r, i);
    r
  }

  /** Stripping removes only whitespace, so a character that is not
      whitespace occurs in the stripped text exactly when it occurs in the
      original. */
  lemma StripKeepsNonSpace(s: string, c: char)
    requires !IsSpace(c)
    ensures c in Strip(s) <==> c in s
  {
    var i := LeadingSpaces(s);
    var t := s[i..];
    var n := TrailingSpaces(t);
    var r := Strip(s);
    assert r == t[..|t| - n];
    if c in s {
      var k :| 0 <= k < |s| && s[k] == c;
      assert i <= k;
      assert t[k - i] == c;
      assert k - i < |t| - n;
      assert r[k - i] == c;
    }
    if c in r {
      var k :| 0 <= k < |r| && r[k] == c;
      assert s[i + k] == c;
    }
  }

  /** Text that neither starts nor ends with whitespace is left as it is. */
  lemma StripTrimmed(s: string)
    requires |s| > 0 ==> !IsSpace(s[0]) && !IsSpace(s[|s| - 1])
    ensures Strip(s) == s
  {
    assert LeadingSpaces(s) == 0;
    assert s[0..] == s;
    assert TrailingSpaces(s) == 0;
    assert s[..|s|] == s;
  }

  /** Stripping twice is stripping once. */
  lemma StripIdempotent(s: string)
    ensures Strip(Strip(s)) == Strip(s)
  {
    StripTrimmed(Strip(s));
  }

  /** Python's slice `s[:n]` for a non-negative `n`: the first `n` characters,
      or all of `s` when it is shorter. */
  function Take(s: string, n: nat): (r: string)
    ensures |r| == if |s| < n then |s| else n
    ensures r <= s
  {
    if |s| <= n then s else s[..n]
  }

  /** The number of body characters the summary shows (bot.py, line 118). */
  const PreviewLength: nat := 300

  /** The marker appended to a truncated preview. */
  const Ellipsis: string := "..."

  /** The body preview of the confirmation summary: the first 300 characters
      of the body, followed by "..." when the body is longer than that. */
  function Preview(body: string): (p: string)
    ensures |body| <= PreviewLength ==> p == body
    ensures |body| > PreviewLength ==> p == body[..PreviewLength] + Ellipsis
  {
    Take(body, PreviewLength) + (if |body| > PreviewLength then Ellipsis else "")
  }

  /** What a reader of the preview can rely on: it never exceeds 303
      characters, it starts with the body's first characters, and any
      preview shorter than the cap plus the marker is the whole body. */
  lemma PreviewFaithful(body: string)
    ensures |Preview(body)| <= PreviewLength + |Ellipsis|
    ensures |body| > PreviewLength <==> |Preview(body)| == PreviewLength + |Ellipsis|
    ensures |Preview(body)| < PreviewLength + |Ellipsis| ==> Preview(body) == body
    ensures forall k :: 0 <= k < |body| && k < PreviewLength ==> Preview(body)[k] == body[k]
    ensures |body| > PreviewLength ==> Preview(body)[PreviewLength..] == Ellipsis
  {
  }

  /** A line boundary of Python's `str.splitlines()`: line feed, carriage
      return, vertical tab, form feed, the three separators 0x1C-0x1E,
      NEXT LINE, LINE SEPARATOR and PARAGRAPH SEPARATOR. */
  predicate IsLineBreak(c: char) {
    var n := c as int;
    || (0x0A <= n <= 0x0D) || (0x1C <= n <= 0x1E)
    || n == 0x85 || n == 0x2028 || n == 0x2029
  }

  /** The index of the first line boundary in `s`, or `|s|` when there is none. */
  function FirstBreak(s: string): (b: nat)
    ensures b <= |s|
    ensures forall k :: 0 <= k < b ==> !IsLineBreak(s[k])
    ensures b < |s| ==> IsLineBreak(s[b])
  {
    if |s| == 0 || IsLineBreak(s[0]) then 0
    else
      var m := FirstBreak(s[1..]);
      assert forall k :: 1 <= k < 1 + m ==> s[k] == s[1..][k - 1];
      1 + m
  }

  /** Where the first line of a non-empty `s` ends, its terminator included;
      "\r\n" is one terminator. */
  function FirstLineEnd(s: string): (e: nat)
    requires |s| > 0
    ensures 0 < e <= |s|
  {
    var b := FirstBreak(s);
    if b == |s| then |s|
    else if s[b] == '\r' && b + 1 < |s| && s[b + 1] == '\n' then b + 2
    else b + 1
  }

  /** Python's `len(s.splitlines())`. */
  function LineCount(s: string): nat
    decreases |s|
  {
    if |s| == 0 then 0 else 1 + LineCount(s[FirstLineEnd(s)..])
  }

  /** Every line boundary of `s` is its final terminator: the text does not
      go on after a line break. */
  predicate SingleLine(s: string) {
    forall k :: 0 <= k < |s| && IsLineBreak(s[k]) ==>
      k == |s| - 1 || (k == |s| - 2 && s[k] == '\r' && s[k + 1] == '\n')
  }

  /** Every character of `s` is printable ASCII (space to tilde). */
  predicate PrintableAscii(s: string) {
    forall k :: 0 <= k < |s| ==> 0x20 <= s[k] as int < 0x7F
  }

  /** Printable ASCII text has no line boundary at all. */
  lemma PrintableSingleLine(s: string)
    requires PrintableAscii(s)
    ensures forall k :: 0 <= k < |s| ==> !IsLineBreak(s[k])
    ensures SingleLine(s)
  {
    forall k | 0 <= k < |s|
      ensures !IsLineBreak(s[k])
    {
      assert 0x20 <= s[k] as int < 0x7F;
    }
  }

  /** `SingleLine` is exactly Python's `len(s.splitlines()) <= 1`. */
  lemma SingleLineIffOneLine(s: string)
    ensures SingleLine(s) <==> LineCount(s) <= 1
  {
    if |s| > 0 {
      var e := FirstLineEnd(s);
      var b := FirstBreak(s);
      assert LineCount(s) == 1 + LineCount(s[e..]);
      assert LineCount(s[e..]) == 0 <==> e == |s|;
      if SingleLine(s) && b < |s| {
        assert b == |s| - 1 || (b == |s| - 2 && s[b] == '\r' && s[b + 1] == '\n');
      }
      if e == |s| && b < |s| {
        forall k | 0 <= k < |s| && IsLineBreak(s[k])
          ensures k == |s| - 1 || (k == |s| - 2 && s[k] == '\r' && s[k + 1] == '\n')
        {
          assert b <= k;
        }
      }
    }
  }

  /** Python's `s.split(sep)` with a one-character separator: the pieces of
      `s` between occurrences of `sep`; the empty string gives one empty
      piece. */
  function Split(s: string, sep: char): (parts: seq<string>)
    ensures |parts| >= 1
    ensures forall i :: 0 <= i < |parts| ==> sep !in parts[i]
  {
    if |s| == 0 then
      [""]
    else
      var rest := Split(s[1..], sep);
      if s[0] == sep then [""] + rest
      else [[s[0]] + rest[0]] + rest[1..]
  }

  /** Python's `sep.join(parts)`. */
  function Join(parts: seq<string>, sep: char): string
    requires |parts| >= 1
  {
    if |parts| == 1 then parts[0] else parts[0] + [sep] + Join(parts[1..], sep)
  }

  /** Joining the pieces of a split gives back the original text. */
  lemma {:induction false} JoinSplit(s: string, sep: char)
    ensures Join(Split(s, sep), sep) == s
  {
    if |s| > 0 {
      var rest := Split(s[1..], sep);
      JoinSplit(s[1..], sep);
      if s[0] != sep {
        var parts := Split(s, sep);
        assert parts[1..] == rest[1..];
        if |rest| > 1 {
          assert rest[0] + [sep] + Join(rest[1..], sep) == s[1..];
          assert parts[0] + [sep] + Join(parts[1..], sep) == [s[0]] + s[1..];
        }
      }
      assert s == [s[0]] + s[1..];
    }
  }

  /** Splitting a join of separator-free pieces gives back the pieces. */
  lemma {:induction false} SplitJoin(parts: seq<string>, sep: char)
    requires |parts| >= 1
    requires forall i :: 0 <= i < |parts| ==> sep !in parts[i]
    ensures Split(Join(parts, sep), sep) == parts
  {
    if |parts| == 1 {
      SplitPiece(parts[0], sep);
    } else {
      var tail := Join(parts[1..], sep);
      SplitJoin(parts[1..], sep);
      assert Join(parts, sep) == parts[0] + ([sep] + tail);
      SplitPrefix(parts[0], [sep] + tail, sep);
      assert ([sep] + tail)[1..] == tail;
      assert parts == [parts[0]] + parts[1..];
    }
  }

  /** A separator-free piece splits into itself. */
  lemma {:induction false} SplitPiece(p: string, sep: char)
    requires sep !in p
    ensures Split(p, sep) == [p]
  {
    if |p| > 0 {
      SplitPiece(p[1..], sep);
      assert p == [p[0]] + p[1..];
    }
  }

  /** A separator-free prefix is glued onto the first piece of what follows. */
  lemma {:induction false} SplitPrefix(p: string, t: string, sep: char)
    requires sep !in p
    requires |t| > 0 && t[0] == sep
    ensures Split(p + t, sep) == [p] + Split(t[1..], sep)
  {
    if |p| > 0 {
      assert (p + t)[1..] == p[1..] + t;
      SplitPrefix(p[1..], t, sep);
      assert p == [p[0]] + p[1..];
    } else {
      assert p + t == t;
    }
  }

  /** A split yields at least two pieces exactly when the separator occurs. */
  lemma {:induction false} SplitHasSecondPiece(s: string, sep: char)
    ensures |Split(s, sep)| >= 2 <==> sep in s
  {
    if |s| > 0 {
      SplitHasSecondPiece(s[1..], sep);
      assert s == [s[0]] + s[1..];
    }
  }
}
