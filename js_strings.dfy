/** The string operations of the JavaScript runtime that the site's code
    relies on: `trim`, `split` on one character, `startsWith`, `includes`,
    `substring`, the `\s` and `\d` character classes, and decimal digit
    strings as `parseInt(_, 10)` reads them. Strings are sequences of UTF-16
    code units; every character the site's code tests is in the Basic
    Multilingual Plane, so a `char` stands for one code unit. */
module JsStrings {

  /** LineTerminator of ECMAScript: what `.` in a regular expression does not match. */
  predicate IsLineTerminator(c: char) {
    c == '\n' || c == '\r' || c == '\U{2028}' || c == '\U{2029}'
  }

  /** WhiteSpace or LineTerminator of ECMAScript: what `\s` matches and what
      `String.prototype.trim` strips. */
  predicate IsWhitespace(c: char) {
    || IsLineTerminator(c)
    || c == '\t' || c == '\U{000B}' || c == '\U{000C}' || c == ' '
    || c == '\U{00A0}' || c == '\U{1680}' || ('\U{2000}' <= c <= '\U{200A}')
    || c == '\U{202F}' || c == '\U{205F}' || c == '\U{3000}' || c == '\U{FEFF}'
  }

  /** What `\d` matches: the ASCII digits only. */
  predicate IsDigit(c: char) {
    '0' <= c <= '9'
  }

  predicate AllDigits(s: string) {
    forall k :: 0 <= k < |s| ==> IsDigit(s[k])
  }

  predicate AllWhitespace(s: string) {
    forall k :: 0 <= k < |s| ==> IsWhitespace(s[k])
  }

  /** The end of the longest run of whitespace that starts at `i`. */
  function WhitespaceRunEnd(s: string, i: nat): (j: nat)
    requires i <= |s|
    ensures i <= j <= |s|
    ensures forall k :: i <= k < j ==> IsWhitespace(s[k])
    ensures j == |s| || !IsWhitespace(s[j])
    decreases |s| - i
  {
    if i < |s| && IsWhitespace(s[i]) then WhitespaceRunEnd(s, i + 1) else i
  }

  /** The end of the longest run of ASCII digits that starts at `i`. */
  function DigitRunEnd(s: string, i: nat): (j: nat)
    requires i <= |s|
    ensures i <= j <= |s|
    ensures AllDigits(s[i..j])
    ensures j == |s| || !IsDigit(s[j])
    decreases |s| - i
  {
    if i < |s| && IsDigit(s[i]) then DigitRunEnd(s, i + 1) else i
  }

  /** A digit run that stops at `m` ends at `m`. */
  lemma {:induction false} DigitRunEndAt(s: string, i: nat, m: nat)
    requires i <= m <= |s|
    requires AllDigits(s[i..m])
    requires m == |s| || !IsDigit(s[m])
    ensures DigitRunEnd(s, i) == m
    decreases m - i
  {
    if i < m {
      assert IsDigit(s[i..m][0]);
      assert s[i + 1..m] == s[i..m][1..];
      DigitRunEndAt(s, i + 1, m);
    }
  }

  /** `s.trimStart()`: the suffix of `s` after its leading whitespace. */
  function TrimStart(s: string): (r: string)
    ensures |r| <= |s| && r == s[|s| - |r|..]
    ensures AllWhitespace(s[..|s| - |r|])
    ensures r == [] || !IsWhitespace(r[0])
  {
    s[WhitespaceRunEnd(s, 0)..]
  }

  /** `s.trimEnd()`: the prefix of `s` before its trailing whitespace. */
  function TrimEnd(s: string): (r: string)
    ensures |r| <= |s| && r == s[..|r|]
    ensures AllWhitespace(s[|r|..])
    ensures r == [] || !IsWhitespace(r[|r| - 1])
  {
    if s != [] && IsWhitespace(s[|s| - 1]) then TrimEnd(s[..|s| - 1]) else s
  }

  /** `s.trim()`. */
  function Trim(s: string): (r: string)
    ensures r == [] || (!IsWhitespace(r[0]) && !IsWhitespace(r[|r| - 1]))
  {
    TrimEnd(TrimStart(s))
  }

  /** A string with no whitespace at either end is its own trim. */
  lemma TrimUnpadded(s: string)
    requires s == [] || (!IsWhitespace(s[0]) && !IsWhitespace(s[|s| - 1]))
    ensures Trim(s) == s
  {
  }

  /** A whitespace run that stops at `m` ends at `m`. */
  lemma {:induction false} WhitespaceRunEndAt(s: string, i: nat, m: nat)
    requires i <= m <= |s|
    requires AllWhitespace(s[i..m])
    requires m == |s| || !IsWhitespace(s[m])
    ensures WhitespaceRunEnd(s, i) == m
    decreases m - i
  {
    if i < m {
      assert IsWhitespace(s[i..m][0]);
      assert s[i + 1..m] == s[i..m][1..];
      WhitespaceRunEndAt(s, i + 1, m);
    }
  }

  /** Trimming removes exactly the whitespace padding around an unpadded core. */
  lemma TrimPadded(pre: string, core: string, post: string)
    requires AllWhitespace(pre) && AllWhitespace(post)
    requires core == [] || (!IsWhitespace(core[0]) && !IsWhitespace(core[|core| - 1]))
    ensures core != [] ==> Trim(pre + core + post) == core
    ensures core == [] ==> Trim(pre + core + post) == []
  {
    var s := pre + core + post;
    if core != [] {
      assert s[..|pre|] == pre;
      assert s[|pre|] == core[0];
      WhitespaceRunEndAt(s, 0, |pre|);
      assert TrimStart(s) == core + post;
      TrimEndPadded(core, post);
    } else {
      assert s[0..|s|] == pre + post;
      WhitespaceRunEndAt(s, 0, |s|);
    }
  }

  lemma TrimEndPadded(core: string, post: string)
    requires AllWhitespace(post)
    requires core != [] && !IsWhitespace(core[|core| - 1])
    ensures TrimEnd(core + post) == core
    decreases |post|
  {
    if post != [] {
      assert (core + post)[..|core + post| - 1] == core + post[..|post| - 1];
      TrimEndPadded(core, post[..|post| - 1]);
    } else {
      assert core + post == core;
    }
  }

  /** `s.startsWith(prefix)`. */
  predicate StartsWith(s: string, prefix: string) {
    |prefix| <= |s| && s[..|prefix|] == prefix
  }

  /** `s.includes(sub)`: `sub` occurs somewhere in `s`. */
  predicate Contains(s: string, sub: string)
    decreases |s|
  {
    StartsWith(s, sub) || (s != [] && Contains(s[1..], sub))
  }

  /** `sub` occurs in `s` at index `i`. */
  predicate OccursAt(s: string, sub: string, i: nat) {
    i + |sub| <= |s| && s[i..i + |sub|] == sub
  }

  /** `s.includes(sub)` holds exactly when `sub` occurs at some index of `s`. */
  lemma {:induction false} ContainsAt(s: string, sub: string)
    ensures Contains(s, sub) <==> exists i: nat :: OccursAt(s, sub, i)
    decreases |s|
  {
    if StartsWith(s, sub) {
      assert OccursAt(s, sub, 0);
    }
    if s != [] {
      ContainsAt(s[1..], sub);
      if Contains(s[1..], sub) {
        var i: nat :| OccursAt(s[1..], sub, i);
        assert OccursAt(s, sub, i + 1);
      }
      if exists i: nat :: OccursAt(s, sub, i) {
        var i: nat :| OccursAt(s, sub, i);
        if i > 0 {
          assert OccursAt(s[1..], sub, i - 1);
        }
      }
    }
  }

  /** `s.substring(start)`: a start past the end gives the empty string. */
  function Substring(s: string, start: nat): (r: string)
    ensures start <= |s| ==> s == s[..start] + r
    ensures start >= |s| ==> r == []
  {
    if start <= |s| then s[start..] else []
  }

  /** `parts.join(sep)` for a separator of one character. */
  function Join(parts: seq<string>, sep: char): string {
    if parts == [] then []
    else if |parts| == 1 then parts[0]
    else parts[0] + [sep] + Join(parts[1..], sep)
  }

  /** `s.split(sep)` for a separator of one character: the pieces between
      the occurrences of `sep`, always at least one. */
  function Split(s: string, sep: char): (parts: seq<string>)
    ensures |parts| >= 1
    ensures forall i :: 0 <= i < |parts| ==> sep !in parts[i]
    ensures Join(parts, sep) == s
    decreases |s|
  {
    if s == [] then [[]]
    else
      var rest := Split(s[1..], sep);
      if s[0] == sep then
        assert [s[0]] + s[1..] == s;
        [[]] + rest
      else
        var first := [s[0]] + rest[0];
        assert sep !in first by {
          forall k | 0 <= k < |first| ensures first[k] != sep {
            if k > 0 { assert first[k] == rest[0][k - 1]; }
          }
        }
        var parts := [first] + rest[1..];
        JoinWithFirstChar(s[0], rest, sep);
        assert [s[0]] + s[1..] == s;
        parts
  }

  /** Putting a character in front of the first piece puts it in front of
      the join. */
  lemma JoinWithFirstChar(c: char, parts: seq<string>, sep: char)
    requires |parts| >= 1
    ensures Join([[c] + parts[0]] + parts[1..], sep) == [c] + Join(parts, sep)
  {
    var longer := [[c] + parts[0]] + parts[1..];
    if |parts| > 1 {
      assert longer[1..] == parts[1..];
      assert Join(parts, sep) == parts[0] + [sep] + Join(parts[1..], sep);
    }
  }

  /** Splitting a string made by joining separator-free pieces gives back the pieces. */
  lemma {:induction false} SplitJoin(parts: seq<string>, sep: char)
    requires |parts| >= 1
    requires forall i :: 0 <= i < |parts| ==> sep !in parts[i]
    ensures Split(Join(parts, sep), sep) == parts
    decreases |parts|, |parts[0]|
  {
    var p := parts[0];
    if p == [] {
      if |parts| == 1 {
      } else {
        assert Join(parts, sep) == [sep] + Join(parts[1..], sep);
        assert ([sep] + Join(parts[1..], sep))[1..] == Join(parts[1..], sep);
        SplitJoin(parts[1..], sep);
        assert parts == [[]] + parts[1..];
      }
    } else {
      var shorter := [p[1..]] + parts[1..];
      assert p[0] != sep by { assert p[0] in p; }
      ShorterKeepsNoSeparator(parts, sep);
      SplitJoin(shorter, sep);
      JoinWithoutFirstChar(parts, sep);
      assert [p[0]] + p[1..] == p;
      assert shorter[1..] == parts[1..];
    }
  }

  /** Dropping the first character of the first piece keeps every piece free
      of the separator. */
  lemma ShorterKeepsNoSeparator(parts: seq<string>, sep: char)
    requires |parts| >= 1 && parts[0] != []
    requires forall i :: 0 <= i < |parts| ==> sep !in parts[i]
    ensures var shorter := [parts[0][1..]] + parts[1..];
      forall i :: 0 <= i < |shorter| ==> sep !in shorter[i]
  {
    var p := parts[0];
    var shorter := [p[1..]] + parts[1..];
    forall i | 0 <= i < |shorter| ensures sep !in shorter[i] {
      if i == 0 {
        forall k | 0 <= k < |p[1..]| ensures p[1..][k] != sep {
          assert p[1..][k] in p;
        }
      } else {
        assert shorter[i] == parts[i];
      }
    }
  }

  /** Joining pieces whose first piece is not empty: the first character of
      that piece, then the join with that character dropped. */
  lemma JoinWithoutFirstChar(parts: seq<string>, sep: char)
    requires |parts| >= 1 && parts[0] != []
    ensures var s := Join(parts, sep);
      s != [] && s[0] == parts[0][0] && s[1..] == Join([parts[0][1..]] + parts[1..], sep)
  {
    var p := parts[0];
    var shorter := [p[1..]] + parts[1..];
    var s := Join(parts, sep);
    if |parts| == 1 {
      assert s == p;
    } else {
      assert s == p + [sep] + Join(parts[1..], sep);
      assert shorter[1..] == parts[1..];
      assert Join(shorter, sep) == p[1..] + [sep] + Join(parts[1..], sep);
    }
  }

  /** `s.split('\n')[0]`: the text up to the first line feed. */
  function FirstLine(s: string): (line: string)
    ensures '\n' !in line
  {
    Split(s, '\n')[0]
  }

  /** The first line of a string is a prefix of it. */
  lemma FirstLineIsPrefix(s: string)
    ensures StartsWith(s, FirstLine(s))
  {
    var parts := Split(s, '\n');
    if |parts| > 1 {
      assert s == parts[0] + ['\n'] + Join(parts[1..], '\n');
    }
  }

  /** Whatever follows the first line feed plays no part in the first line. */
  lemma FirstLineOf(line: string, rest: string)
    requires '\n' !in line
    ensures FirstLine(line + ['\n'] + rest) == line
  {
    var tail := Split(rest, '\n');
    var parts := [line] + tail;
    assert Join(parts, '\n') == line + ['\n'] + rest by {
      assert parts[1..] == tail;
    }
    forall i | 0 <= i < |parts| ensures '\n' !in parts[i] {
      if i > 0 { assert parts[i] == tail[i - 1]; }
    }
    SplitJoin(parts, '\n');
  }

  /** The value of a decimal digit. */
  function DigitValue(c: char): (d: nat)
    requires IsDigit(c)
    ensures d < 10
  {
    c as int - '0' as int
  }

  /** `parseInt(ds, 10)` for a non-empty string of ASCII digits
      (0 for the empty string, which `parseInt` never receives here). */
  function DecimalValue(ds: string): nat
    requires AllDigits(ds)
  {
    if ds == [] then 0 else DecimalValue(ds[..|ds| - 1]) * 10 + DigitValue(ds[|ds| - 1])
  }

  /** The decimal notation of `n`, as `String(n)` writes it. */
  function DecimalString(n: nat): (ds: string)
    ensures ds != [] && AllDigits(ds)
    ensures DecimalValue(ds) == n
  {
    var last := ('0' as int + n % 10) as char;
    if n < 10 then
      [last]
    else
      var front := DecimalString(n / 10);
      var ds := front + [last];
      assert ds[..|ds| - 1] == front;
      ds
  }

  /** `s.toLowerCase()` for the ASCII letters; every other character is kept. */
  function ToLowerAscii(s: string): (r: string)
    ensures |r| == |s|
    ensures forall k :: 0 <= k < |s| ==> r[k] == (if 'A' <= s[k] <= 'Z' then (s[k] as int + 32) as char else s[k])
  {
    if s == [] then []
    else [if 'A' <= s[0] <= 'Z' then (s[0] as int + 32) as char else s[0]] + ToLowerAscii(s[1..])
  }

  /** Canonical letter case for a regular expression with the `i` flag: the
      ASCII and Latin-1 lower-case letters map to their capitals (except
      U+00DF and U+00FF, whose capitals lie outside Latin-1 and so stay put
      here); every other character is its own canon. */
  function CaseCanon(c: char): char {
    if 'a' <= c <= 'z' then (c as int - 32) as char
    else if '\U{00E0}' <= c <= '\U{00FE}' && c != '\U{00F7}' then (c as int - 32) as char
    else c
  }

  /** Does `s` match the literal `pattern` character by character, with or
      without the `i` flag? */
  predicate MatchesLiteral(s: string, pattern: string, ignoreCase: bool)
    requires |s| == |pattern|
  {
    forall k :: 0 <= k < |s| ==> (if ignoreCase then CaseCanon(s[k]) == CaseCanon(pattern[k]) else s[k] == pattern[k])
  }

  /** `marker` matches `s` at index `k`. */
  predicate LiteralAt(s: string, marker: string, ignoreCase: bool, k: nat) {
    k + |marker| <= |s| && MatchesLiteral(s[k..k + |marker|], marker, ignoreCase)
  }

  /** The first index at or after `i` where `marker` matches, if any. */
  function FindLiteral(s: string, marker: string, ignoreCase: bool, i: nat): (r: nat)
    requires i <= |s|
    ensures i <= r <= |s| + 1
    ensures r <= |s| ==> LiteralAt(s, marker, ignoreCase, r)
    ensures forall k :: i <= k < r ==> !LiteralAt(s, marker, ignoreCase, k)
    decreases |s| - i
  {
    if i + |marker| > |s| then |s| + 1
    else if MatchesLiteral(s[i..i + |marker|], marker, ignoreCase) then i
    else FindLiteral(s, marker, ignoreCase, i + 1)
  }

  // `s.replace(re, '')` for a regular expression `re` made of the literal
  // `marker` followed by `\s*` (with the `i` flag when `ignoreCase`): the first
  // occurrence of the marker, with the whitespace after it, is removed;
  // without an occurrence `s` is returned unchanged.
  function RemoveFirstMarker(s: string, marker: string, ignoreCase: bool): (r: string)
    ensures FindLiteral(s, marker, ignoreCase, 0) > |s| ==> r == s
  {
    var at := FindLiteral(s, marker, ignoreCase, 0);
    if at > |s| then s
    else s[..at] + s[WhitespaceRunEnd(s, at + |marker|)..]
  }

  /** With an occurrence, the text before the first one stays, and the
      marker and the whole whitespace run after it go. */
  lemma RemoveFirstMarkerRemoves(s: string, marker: string, ignoreCase: bool, at: nat)
    requires at == FindLiteral(s, marker, ignoreCase, 0) && at <= |s|
    ensures exists e ::
      && at + |marker| <= e <= |s|
      && RemoveFirstMarker(s, marker, ignoreCase) == s[..at] + s[e..]
      && (forall k :: at + |marker| <= k < e ==> IsWhitespace(s[k]))
      && (e == |s| || !IsWhitespace(s[e]))
  {
    var e := WhitespaceRunEnd(s, at + |marker|);
    assert RemoveFirstMarker(s, marker, ignoreCase) == s[..at] + s[e..];
  }
}
