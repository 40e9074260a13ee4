/**
 * The small part of Python's `str` behaviour that the parser and the merge
 * engine rely on, written out over `seq<char>`: the whitespace and
 * line-break classes, `strip`, `splitlines`, `join`, `lower` (ASCII only),
 * `startswith`, substring search and `replace(old, "")`.
 */
module Text {
  import opened Wrappers

  /** `str.isspace()`, and `\s` in a `str` pattern: the characters CPython treats as whitespace. */
  predicate IsSpace(c: char) {
    ('\t' <= c <= '\r') || ('\U{1C}' <= c <= '\U{1F}') || c == ' ' || c == '\U{85}'
    || c == '\U{A0}' || c == '\U{1680}' || ('\U{2000}' <= c <= '\U{200A}')
    || c == '\U{2028}' || c == '\U{2029}' || c == '\U{202F}' || c == '\U{205F}' || c == '\U{3000}'
  }

  /** The line boundaries of `str.splitlines()` (the pair "\r\n" is handled by `BreakLength`). */
  predicate IsLineBreak(c: char) {
    c == '\n' || c == '\r' || c == '\U{0B}' || c == '\U{0C}' || c == '\U{1C}' || c == '\U{1D}'
    || c == '\U{1E}' || c == '\U{85}' || c == '\U{2028}' || c == '\U{2029}'
  }

  /** ASCII letters and digits: `[A-Za-z0-9]`. */
  predicate IsAsciiAlnum(c: char) {
    ('a' <= c <= 'z') || ('A' <= c <= 'Z') || ('0' <= c <= '9')
  }

  /** `\w`, restricted to ASCII: letters, digits and underscore. */
  predicate IsWordChar(c: char) {
    IsAsciiAlnum(c) || c == '_'
  }

  /** A physical line: no line-break character in it. */
  predicate IsLine(s: string) {
    forall i :: 0 <= i < |s| ==> !IsLineBreak(s[i])
  }

  /** Only "\n" separates lines: no other line-break character occurs. */
  predicate OnlyNewlineBreaks(s: string) {
    forall i :: 0 <= i < |s| ==> IsLineBreak(s[i]) ==> s[i] == '\n'
  }

  predicate AllSpace(s: string) {
    forall i :: 0 <= i < |s| ==> IsSpace(s[i])
  }

  /** Neither end of `s` is whitespace: what `strip` leaves. */
  predicate Stripped(s: string) {
    s == [] || (!IsSpace(s[0]) && !IsSpace(s[|s| - 1]))
  }

  lemma {:induction false} LineBreakIsSpace(c: char)
    ensures IsLineBreak(c) ==> IsSpace(c)
  {
  }

  /** `str.lstrip()`. */
  function LStrip(s: string): string {
    if s != [] && IsSpace(s[0]) then LStrip(s[1..]) else s
  }

  /** `str.rstrip()`. */
  function RStrip(s: string): string {
    if s != [] && IsSpace(s[|s| - 1]) then RStrip(s[..|s| - 1]) else s
  }

  /** `str.strip()`. */
  function Strip(s: string): string {
    RStrip(LStrip(s))
  }

  /** `lstrip` removes a prefix of whitespace and stops at a character that is not whitespace. */
  lemma {:induction false} LStripSpec(s: string)
    ensures |LStrip(s)| <= |s| && LStrip(s) == s[|s| - |LStrip(s)|..]
    ensures AllSpace(s[..|s| - |LStrip(s)|])
    ensures LStrip(s) != [] ==> !IsSpace(LStrip(s)[0])
  {
    if s != [] && IsSpace(s[0]) {
      LStripSpec(s[1..]);
      var r := LStrip(s[1..]);
      assert s[1..][..|s| - 1 - |r|] == s[1..|s| - |r|];
    }
  }

  /** `rstrip` removes a suffix of whitespace and stops at a character that is not whitespace. */
  lemma {:induction false} RStripSpec(s: string)
    ensures |RStrip(s)| <= |s| && RStrip(s) == s[..|RStrip(s)|]
    ensures AllSpace(s[|RStrip(s)|..])
    ensures RStrip(s) != [] ==> !IsSpace(RStrip(s)[|RStrip(s)| - 1])
  {
    if s != [] && IsSpace(s[|s| - 1]) {
      RStripSpec(s[..|s| - 1]);
      var r := RStrip(s[..|s| - 1]);
      assert s[|r|..] == s[..|s| - 1][|r|..] + [s[|s| - 1]];
    }
  }

  /** `strip` leaves an infix of `s` whose ends are not whitespace, with only whitespace around it. */
  lemma {:induction false} StripSpec(s: string)
    ensures Stripped(Strip(s)) && |Strip(s)| <= |s|
    ensures exists a, b :: 0 <= a <= b <= |s| && Strip(s) == s[a..b] && AllSpace(s[..a]) && AllSpace(s[b..])
  {
    LStripSpec(s);
    var l := LStrip(s);
    RStripSpec(l);
    var a := |s| - |l|;
    var b := a + |RStrip(l)|;
    assert s[a..b] == l[..|RStrip(l)|];
    assert s[b..] == l[|RStrip(l)|..];
    if RStrip(l) != [] {
      assert RStrip(l)[0] == l[0];
    }
  }

  /** `str.lstrip("\n")`. */
  function LStripNewlines(s: string): string {
    if s != [] && s[0] == '\n' then LStripNewlines(s[1..]) else s
  }

  lemma {:induction false} StripStripped(s: string)
    requires Stripped(s)
    ensures Strip(s) == s
  {
    if s != [] {
      assert LStrip(s) == s;
    }
  }

  /** Stripping ignores whitespace added at either end. */
  lemma {:induction false} StripPadded(a: string, s: string, b: string)
    requires AllSpace(a) && AllSpace(b)
    ensures Strip(a + s + b) == Strip(s)
  {
    LStripPadded(a, s + b);
    assert a + s + b == a + (s + b);
    var l := LStrip(s + b);
    if LStrip(s) == [] {
      LStripSpec(s);
      assert s[..|s|] == s;
      assert AllSpace(s);
      assert AllSpace(s + b);
      LStripAllSpace(s + b);
      LStripAllSpace(s);
    } else {
      LStripKeepsTail(s, b);
      RStripPadded(LStrip(s), b);
    }
  }

  lemma {:induction false} LStripPadded(a: string, s: string)
    requires AllSpace(a)
    ensures LStrip(a + s) == LStrip(s)
  {
    if a != [] {
      assert (a + s)[1..] == a[1..] + s;
      LStripPadded(a[1..], s);
    } else {
      assert a + s == s;
    }
  }

  lemma {:induction false} LStripAllSpace(s: string)
    requires AllSpace(s)
    ensures LStrip(s) == []
  {
    if s != [] {
      assert AllSpace(s[1..]) by {
        forall i | 0 <= i < |s[1..]| ensures IsSpace(s[1..][i]) {
          assert s[1..][i] == s[i + 1];
        }
      }
      LStripAllSpace(s[1..]);
    }
  }

  lemma {:induction false} StripAllSpace(s: string)
    requires AllSpace(s)
    ensures Strip(s) == []
  {
    LStripAllSpace(s);
  }

  lemma {:induction false} LStripKeepsTail(s: string, b: string)
    requires LStrip(s) != []
    ensures LStrip(s + b) == LStrip(s) + b
  {
    if s != [] && IsSpace(s[0]) {
      assert (s + b)[1..] == s[1..] + b;
      LStripKeepsTail(s[1..], b);
    } else {
      assert (s + b)[0] == s[0];
    }
  }

  lemma {:induction false} RStripPadded(s: string, b: string)
    requires AllSpace(b)
    ensures RStrip(s + b) == RStrip(s)
  {
    if b != [] {
      assert (s + b)[..|s + b| - 1] == s + b[..|b| - 1];
      assert IsSpace((s + b)[|s + b| - 1]);
      RStripPadded(s, b[..|b| - 1]);
    } else {
      assert s + b == s;
    }
  }

  /** `s.startswith(p)`. */
  predicate StartsWith(s: string, p: string) {
    |p| <= |s| && s[..|p|] == p
  }

  /** `str.lower()` on ASCII letters; every other character is left as it is. */
  function ToLowerChar(c: char): (r: char)
    ensures 'A' <= c <= 'Z' ==> r as int == c as int + 32
    ensures !('A' <= c <= 'Z') ==> r == c
  {
    if 'A' <= c <= 'Z' then (c as int + 32) as char else c
  }

  function Lower(s: string): (r: string)
    ensures |r| == |s|
    ensures forall i :: 0 <= i < |s| ==> r[i] == ToLowerChar(s[i])
  {
    seq(|s|, i requires 0 <= i < |s| => ToLowerChar(s[i]))
  }

  /** `w` occurs in `s` starting at index `j`. */
  predicate OccursAt(s: string, w: string, j: nat) {
    j + |w| <= |s| && s[j..j + |w|] == w
  }

  /** The first index at or after `from` where `w` occurs in `s`, as `str.find(w, from)`. */
  function FindFrom(s: string, w: string, from: nat): (r: Option<nat>)
    decreases |s| - from
    ensures r.Some? ==> from <= r.value && OccursAt(s, w, r.value)
    ensures r.Some? ==> forall j :: from <= j < r.value ==> !OccursAt(s, w, j)
    ensures r.None? ==> forall j :: from <= j ==> !OccursAt(s, w, j)
  {
    if from + |w| > |s| then None
    else if s[from..from + |w|] == w then Some(from)
    else FindFrom(s, w, from + 1)
  }

  /** `w in s` for strings: `w` is a substring of `s`. */
  predicate Contains(s: string, w: string) {
    FindFrom(s, w, 0).Some?
  }

  lemma {:induction false} ContainsAt(s: string, w: string, i: nat)
    requires OccursAt(s, w, i)
    ensures Contains(s, w)
  {
  }

  /** `s.replace(w, "")`: occurrences removed left to right, without re-scanning the result. */
  function RemoveAll(s: string, w: string): (r: string)
    requires w != []
    decreases |s|
    ensures |r| <= |s|
    ensures !Contains(s, w) ==> r == s
  {
    if |s| < |w| then s
    else if s[..|w|] == w then
      assert Contains(s, w) by { ContainsAt(s, w, 0); }
      RemoveAll(s[|w|..], w)
    else
      var rest := RemoveAll(s[1..], w);
      assert !Contains(s, w) ==> !Contains(s[1..], w) by {
        if Contains(s[1..], w) {
          var j := FindFrom(s[1..], w, 0).value;
          assert s[j + 1..j + 1 + |w|] == s[1..][j..j + |w|];
          assert OccursAt(s, w, j + 1);
          ContainsAt(s, w, j + 1);
        }
      }
      assert !Contains(s, w) ==> [s[0]] + s[1..] == s;
      [s[0]] + rest
  }

  /** `sep.join(parts)`. */
  function Join(sep: string, parts: seq<string>): (r: string)
    ensures parts != [] ==> |r| >= |parts[|parts| - 1]|
  {
    if |parts| == 0 then ""
    else if |parts| == 1 then parts[0]
    else parts[0] + sep + Join(sep, parts[1..])
  }

  lemma {:induction false} JoinAppend(sep: string, parts: seq<string>, last: string)
    requires parts != []
    ensures Join(sep, parts + [last]) == Join(sep, parts) + sep + last
  {
    if |parts| > 1 {
      assert (parts + [last])[1..] == parts[1..] + [last];
      JoinAppend(sep, parts[1..], last);
    }
  }

  /** Index of the first line break of `s`, or `|s|` when there is none. */
  function LineEnd(s: string): (i: nat)
    ensures i <= |s|
    ensures i < |s| ==> IsLineBreak(s[i])
  {
    if s == [] || IsLineBreak(s[0]) then 0
    else 1 + LineEnd(s[1..])
  }

  /** What comes before the first line break is a line. */
  lemma {:induction false} LineEndIsLine(s: string)
    ensures IsLine(s[..LineEnd(s)])
  {
    if s != [] && !IsLineBreak(s[0]) {
      LineEndIsLine(s[1..]);
      assert s[..LineEnd(s)] == [s[0]] + s[1..][..LineEnd(s[1..])];
    }
  }

  /** Length of the line boundary at `i`: "\r\n" counts as one boundary of two characters. */
  function BreakLength(s: string, i: nat): (n: nat)
    requires i < |s|
    ensures 1 <= n <= 2 && i + n <= |s|
  {
    if s[i] == '\r' && i + 1 < |s| && s[i + 1] == '\n' then 2 else 1
  }

  /** `str.splitlines()`: no trailing empty line after a final boundary, and `[]` for `""`. */
  function SplitLines(s: string): seq<string>
    decreases |s|
  {
    if s == [] then []
    else
      var i := LineEnd(s);
      if i == |s| then [s]
      else [s[..i]] + SplitLines(s[i + BreakLength(s, i)..])
  }

  /** `splitlines` yields lines without breaks, and at least one of them for a non-empty text. */
  lemma {:induction false} SplitLinesAreLines(s: string)
    decreases |s|
    ensures forall k :: 0 <= k < |SplitLines(s)| ==> IsLine(SplitLines(s)[k])
    ensures s != [] <==> SplitLines(s) != []
  {
    if s != [] {
      LineEndIsLine(s);
      var i := LineEnd(s);
      if i < |s| {
        SplitLinesAreLines(s[i + BreakLength(s, i)..]);
      } else {
        assert s[..i] == s;
      }
    }
  }

  /** `s.split(sep)` for a one-character separator: always at least one part. */
  function SplitOn(s: string, sep: char): (parts: seq<string>)
    ensures |parts| >= 1
  {
    if s == [] then [""]
    else
      var rest := SplitOn(s[1..], sep);
      if s[0] == sep then [""] + rest else [[s[0]] + rest[0]] + rest[1..]
  }

  lemma {:induction false} SplitNoSeparator(s: string, sep: char)
    requires forall i :: 0 <= i < |s| ==> s[i] != sep
    ensures SplitOn(s, sep) == [s]
  {
    if s != [] {
      SplitNoSeparator(s[1..], sep);
      assert [s[0]] + s[1..] == s;
    }
  }

  lemma {:induction false} SplitFirstSeparator(x: string, sep: char, y: string)
    requires forall i :: 0 <= i < |x| ==> x[i] != sep
    ensures SplitOn(x + [sep] + y, sep) == [x] + SplitOn(y, sep)
  {
    if x == [] {
      assert x + [sep] + y == [sep] + y;
      assert ([sep] + y)[1..] == y;
    } else {
      assert (x + [sep] + y)[1..] == x[1..] + [sep] + y;
      SplitFirstSeparator(x[1..], sep, y);
      assert [x[0]] + x[1..] == x;
    }
  }
  // ---------------------------------------------------------------------
  // Facts about substring search, `lstrip("\n")` and `splitlines` of joined text

  /** `w` is absent from `s` exactly when it occurs at no index. */
  lemma {:induction false} NotContainsIff(s: string, w: string)
    ensures !Contains(s, w) <==> forall j :: !OccursAt(s, w, j)
  {
    if Contains(s, w) {
      assert OccursAt(s, w, FindFrom(s, w, 0).value);
    }
  }

  /** A slice of a slice is a slice. */
  lemma {:induction false} SliceOfSlice(s: string, a: nat, b: nat, c: nat, d: nat)
    requires a <= b <= |s| && c <= d <= b - a
    ensures s[a..b][c..d] == s[a + c..a + d]
  {
    assert forall k :: 0 <= k < d - c ==> s[a..b][c..d][k] == s[a + c..a + d][k];
  }

  /** A slice of `x + y` that lies within one of the two. */
  lemma {:induction false} ConcatSlices(x: string, y: string, c: nat, d: nat)
    requires c <= d <= |x| + |y|
    ensures d <= |x| ==> (x + y)[c..d] == x[c..d]
    ensures |x| <= c ==> (x + y)[c..d] == y[c - |x|..d - |x|]
  {
    if d <= |x| {
      assert forall k :: 0 <= k < d - c ==> (x + y)[c..d][k] == x[c..d][k];
    }
    if |x| <= c {
      assert forall k :: 0 <= k < d - c ==> (x + y)[c..d][k] == y[c - |x|..d - |x|][k];
    }
  }

  /** A slice of a string without `w` is without `w`. */
  lemma {:induction false} SliceNotContains(s: string, w: string, a: nat, b: nat)
    requires a <= b <= |s| && !Contains(s, w)
    ensures !Contains(s[a..b], w)
  {
    NotContainsIff(s, w);
    forall j: nat ensures !OccursAt(s[a..b], w, j) {
      if j + |w| <= b - a {
        SliceOfSlice(s, a, b, j, j + |w|);
        assert !OccursAt(s, w, a + j);
      }
    }
    NotContainsIff(s[a..b], w);
  }

  /** An occurrence in `x + "\n" + y` lies in `x`, lies in `y`, or covers the newline. */
  lemma {:induction false} AroundNewline(x: string, y: string, w: string, j: nat)
    requires OccursAt(x + "\n" + y, w, j)
    ensures || OccursAt(x, w, j)
            || (j > |x| && OccursAt(y, w, j - |x| - 1))
            || (j <= |x| < j + |w| && w[|x| - j] == '\n')
  {
    var s := x + "\n" + y;
    if j + |w| <= |x| {
      ConcatSlices(x, "\n" + y, j, j + |w|);
      assert x + ("\n" + y) == s;
    } else if j > |x| {
      ConcatSlices(x + "\n", y, j, j + |w|);
      assert s[j..j + |w|] == w;
      assert |x + "\n"| == |x| + 1;
      assert y[j - |x| - 1..j - |x| - 1 + |w|] == w;
    } else {
      assert s[j..j + |w|][|x| - j] == s[|x|];
    }
  }

  /** A word without a line break is absent from lines joined by "\n" when it is absent from every line. */
  lemma {:induction false} JoinNotContains(parts: seq<string>, w: string)
    requires w != [] && IsLine(w) && forall k :: 0 <= k < |parts| ==> !Contains(parts[k], w)
    ensures !Contains(Join("\n", parts), w)
  {
    if |parts| > 1 {
      JoinNotContains(parts[1..], w);
      var x := parts[0];
      var y := Join("\n", parts[1..]);
      assert Join("\n", parts) == x + "\n" + y;
      NotContainsIff(x, w);
      NotContainsIff(y, w);
      forall j: nat ensures !OccursAt(x + "\n" + y, w, j) {
        if OccursAt(x + "\n" + y, w, j) {
          AroundNewline(x, y, w, j);
        }
      }
      NotContainsIff(x + "\n" + y, w);
    }
  }

  /** A word without line breaks is not created by putting a newline on each side of a text. */
  lemma {:induction false} PaddedNotContains(x: string, w: string)
    requires w != [] && IsLine(w) && !Contains(x, w)
    ensures !Contains("\n" + x + "\n", w)
  {
    var parts := ["", x, ""];
    JoinNotContains(parts, w);
    assert parts[1..] == [x, ""];
    assert Join("\n", parts[1..]) == x + "\n" + "";
    assert Join("\n", parts) == "" + "\n" + Join("\n", parts[1..]);
    assert "" + "\n" + (x + "\n" + "") == "\n" + x + "\n";
  }

  /** Stripping leading newlines is unaffected by what follows once something other than a newline is reached. */
  lemma {:induction false} LStripNewlinesAppend(x: string, y: string)
    requires LStripNewlines(x) != [] || y == [] || y[0] != '\n'
    ensures LStripNewlines(x + y) == LStripNewlines(x) + y
  {
    if x == [] {
      assert x + y == y;
    } else if x[0] == '\n' {
      assert (x + y)[1..] == x[1..] + y;
      LStripNewlinesAppend(x[1..], y);
    }
  }

  /** A non-empty string without line breaks is one line. */
  lemma {:induction false} SplitLinesOfLine(s: string)
    requires s != [] && IsLine(s)
    ensures SplitLines(s) == [s]
  {
  }

  /** The first line of `x + z` is that of `x` when `x` already holds a line break. */
  lemma {:induction false} LineEndAppend(x: string, z: string)
    requires LineEnd(x) < |x|
    ensures LineEnd(x + z) == LineEnd(x)
  {
    if !IsLineBreak(x[0]) {
      assert (x + z)[1..] == x[1..] + z;
      LineEndAppend(x[1..], z);
    }
  }

  /** The first line of `x + z` is `x` when `x` is a line and `z` starts with a line break. */
  lemma {:induction false} LineEndAtBreak(x: string, z: string)
    requires IsLine(x) && z != [] && IsLineBreak(z[0])
    ensures LineEnd(x + z) == |x|
  {
    if x != [] {
      assert (x + z)[1..] == x[1..] + z;
      LineEndAtBreak(x[1..], z);
    } else {
      assert x + z == z;
    }
  }

  /** `s` does not end with a line break. */
  predicate NoTrailingBreak(s: string) {
    s == [] || !IsLineBreak(s[|s| - 1])
  }

  /** The lines a part contributes to a "\n"-joined text: an empty part still makes an empty line. */
  function LinesOf(s: string): seq<string> {
    if s == [] then [""] else SplitLines(s)
  }

  /** `splitlines` past the first boundary. */
  lemma {:induction false} SplitLinesAt(s: string, i: nat, b: nat)
    requires s != [] && i == LineEnd(s) && i < |s| && b == BreakLength(s, i)
    ensures SplitLines(s) == [s[..i]] + SplitLines(s[i + b..])
  {
  }

  /** The first line of `x + "\n" + y` when `x` holds a boundary that is not its last character. */
  lemma {:induction false} InnerBreak(x: string, y: string)
    requires x != [] && NoTrailingBreak(x) && LineEnd(x) < |x|
    ensures var i := LineEnd(x);
      var b := BreakLength(x, i);
      && i + b < |x|
      && LineEnd(x + "\n" + y) == i
      && BreakLength(x + "\n" + y, i) == b
      && (x + "\n" + y)[..i] == x[..i]
      && (x + "\n" + y)[i + b..] == x[i + b..] + "\n" + y
      && NoTrailingBreak(x[i + b..])
  {
    LineEndAppend(x, "\n" + y);
    assert x + ("\n" + y) == x + "\n" + y;
  }

  lemma {:induction false} SplitLinesAfterNewline(y: string)
    ensures SplitLines("\n" + y) == [""] + SplitLines(y)
  {
    SplitLinesAt("\n" + y, 0, 1);
    assert ("\n" + y)[1..] == y;
  }

  /** A line followed by "\n" is the first line. */
  lemma {:induction false} SplitLinesAfterLine(x: string, y: string)
    requires x != [] && LineEnd(x) == |x|
    ensures SplitLines(x + "\n" + y) == [x] + SplitLines(y)
  {
    var s := x + "\n" + y;
    LineEndIsLine(x);
    assert x[..|x|] == x;
    LineEndAtBreak(x, "\n" + y);
    assert x + ("\n" + y) == s;
    SplitLinesAt(s, |x|, 1);
    assert s[..|x|] == x;
    assert s[|x| + 1..] == y;
  }

  /** One step of `SplitLinesCons`: the first line of `x`, then the rest as the induction gives it. */
  lemma {:induction false} SplitLinesInnerStep(x: string, y: string, i: nat, b: nat, x': string, s: string)
    requires s == x + "\n" + y && x != [] && i == LineEnd(x) && i < |x| && b == BreakLength(x, i)
    requires i + b < |x| && x' == x[i + b..]
    requires LineEnd(s) == i && BreakLength(s, i) == b && s[..i] == x[..i] && s[i + b..] == x' + "\n" + y
    requires SplitLines(x' + "\n" + y) == SplitLines(x') + SplitLines(y)
    ensures SplitLines(s) == SplitLines(x) + SplitLines(y)
  {
    SplitLinesAt(s, i, b);
    SplitLinesAt(x, i, b);
    ConcatAssoc([x[..i]], SplitLines(x'), SplitLines(y));
  }

  lemma {:induction false} ConcatAssoc<T>(a: seq<T>, b: seq<T>, c: seq<T>)
    ensures a + (b + c) == (a + b) + c
  {
  }

  /** `(x + "\n" + y).splitlines()` is the lines of `x`, then those of `y`, when `x` does not end with a break. */
  lemma {:induction false} SplitLinesCons(x: string, y: string)
    requires NoTrailingBreak(x)
    decreases |x|
    ensures SplitLines(x + "\n" + y) == LinesOf(x) + SplitLines(y)
  {
    if x == [] {
      SplitLinesAfterNewline(y);
    } else if LineEnd(x) == |x| {
      SplitLinesAfterLine(x, y);
    } else {
      InnerBreak(x, y);
      var i := LineEnd(x);
      var b := BreakLength(x, i);
      SplitLinesCons(x[i + b..], y);
      SplitLinesInnerStep(x, y, i, b, x[i + b..], x + "\n" + y);
    }
  }

  /** Every line of a "\n"-joined text is a line of one of its parts, when no part but the last ends with a break. */
  lemma {:induction false} SplitLinesOfJoin(parts: seq<string>)
    requires forall k :: 0 <= k < |parts| ==> NoTrailingBreak(parts[k])
    ensures forall l :: l in SplitLines(Join("\n", parts)) ==> exists k :: 0 <= k < |parts| && l in LinesOf(parts[k])
  {
    if |parts| == 1 {
      assert parts[0] == [] || SplitLines(parts[0]) == LinesOf(parts[0]);
    } else if |parts| > 1 {
      SplitLinesOfJoin(parts[1..]);
      SplitLinesCons(parts[0], Join("\n", parts[1..]));
      forall l | l in SplitLines(Join("\n", parts)) ensures exists k :: 0 <= k < |parts| && l in LinesOf(parts[k]) {
        if l !in LinesOf(parts[0]) {
          var k :| 0 <= k < |parts| - 1 && l in LinesOf(parts[1..][k]);
          assert parts[1..][k] == parts[k + 1];
        }
      }
    }
  }

  /** Joining lines in which only "\n" breaks keeps that so. */
  lemma {:induction false} JoinOnlyNewlines(parts: seq<string>)
    requires forall k :: 0 <= k < |parts| ==> OnlyNewlineBreaks(parts[k])
    ensures OnlyNewlineBreaks(Join("\n", parts))
  {
    if |parts| > 1 {
      JoinOnlyNewlines(parts[1..]);
      assert OnlyNewlineBreaks(parts[0]);
      var x := parts[0];
      var y := Join("\n", parts[1..]);
      assert Join("\n", parts) == x + "\n" + y;
      forall i | 0 <= i < |x + "\n" + y| && IsLineBreak((x + "\n" + y)[i]) ensures (x + "\n" + y)[i] == '\n' {
        if i > |x| {
          assert (x + "\n" + y)[i] == y[i - |x| - 1];
        }
      }
    }
  }

  /**
   * `"\n".join(s.splitlines()) == s` when "\n" is the only line break in
   * `s` and `s` does not end with it.
   */
  lemma {:induction false} JoinSplitLines(s: string)
    requires OnlyNewlineBreaks(s) && NoTrailingBreak(s)
    decreases |s|
    ensures Join("\n", SplitLines(s)) == s
  {
    if s != [] {
      var i := LineEnd(s);
      if i < |s| {
        var y := s[i + 1..];
        AfterFirstNewline(s, i);
        NewlineAround(s, i);
        SplitLinesAt(s, i, 1);
        JoinSplitLines(y);
        SplitLinesAreLines(y);
        JoinCons("\n", s[..i], SplitLines(y));
      }
    }
  }

  /** In a text whose only break is "\n" and which does not end with one, the first break is followed by more text of the same kind. */
  lemma {:induction false} AfterFirstNewline(s: string, i: nat)
    requires OnlyNewlineBreaks(s) && NoTrailingBreak(s)
    requires s != [] && i == LineEnd(s) && i < |s|
    ensures i + 1 < |s| && BreakLength(s, i) == 1
    ensures s[i] == '\n' && OnlyNewlineBreaks(s[i + 1..]) && NoTrailingBreak(s[i + 1..])
  {
    var y := s[i + 1..];
    assert i != |s| - 1;
    assert OnlyNewlineBreaks(y) by {
      forall k | 0 <= k < |y| && IsLineBreak(y[k]) ensures y[k] == '\n' {
        assert y[k] == s[i + 1 + k];
      }
    }
    assert y[|y| - 1] == s[|s| - 1];
  }

  lemma {:induction false} NewlineAround(s: string, i: nat)
    requires i < |s| && s[i] == '\n'
    ensures s == s[..i] + "\n" + s[i + 1..]
  {
    SplitAround(s, i);
    ConcatAssoc(s[..i], [s[i]], s[i + 1..]);
  }

  /** A sequence is what comes before position `i`, the element there, and what comes after. */
  lemma {:induction false} SplitAround<T>(s: seq<T>, i: nat)
    requires i < |s|
    ensures s == s[..i] + ([s[i]] + s[i + 1..])
  {
  }

  /** A non-empty sequence is its front and its last element. */
  lemma {:induction false} FrontAndLast<T>(s: seq<T>)
    requires s != []
    ensures s == s[..|s| - 1] + [s[|s| - 1]]
  {
  }

  lemma {:induction false} PairOfSingles<T>(x: T, y: T)
    ensures [x] + [y] == [x, y]
  {
  }

  /** Writing back the element a sequence already holds changes nothing. */
  lemma {:induction false} UpdateSame<T>(s: seq<T>, k: nat)
    requires k < |s|
    ensures s[k := s[k]] == s
  {
  }

  lemma {:induction false} JoinOne(sep: string, x: string)
    ensures Join(sep, [x]) == x
  {
  }

  /** A "\n"-joined text starts where its first part does. */
  lemma {:induction false} JoinFirst(parts: seq<string>)
    requires parts != [] && parts[0] != []
    ensures Join("\n", parts) != [] && Join("\n", parts)[0] == parts[0][0]
  {
  }

  /** A "\n"-joined text ends where its last part does. */
  lemma {:induction false} JoinLast(parts: seq<string>)
    requires parts != [] && parts[|parts| - 1] != []
    ensures Join("\n", parts) != []
    ensures Join("\n", parts)[|Join("\n", parts)| - 1] == parts[|parts| - 1][|parts[|parts| - 1]| - 1]
  {
    if |parts| > 1 {
      JoinLast(parts[1..]);
    }
  }

  /** `sep.join([x] + rest)` for a non-empty `rest`. */
  lemma {:induction false} JoinCons(sep: string, x: string, rest: seq<string>)
    requires rest != []
    ensures Join(sep, [x] + rest) == x + sep + Join(sep, rest)
  {
    assert ([x] + rest)[1..] == rest;
  }
}
