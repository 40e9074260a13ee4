/**
 * The two line classifiers of the help parser, written as hand-coded matchers
 * that give the result Python's backtracking `re.match` gives on one physical
 * line (a line without line-break characters, which is all the parser ever
 * passes them).
 *
 *   command: ^\s{0,6}([A-Za-z0-9][\w:.\-/]*)\s{2,}(.+?)\s*$
 *   option:  ^\s{0,6}(-{1,2}[^\s,]+(?:\s*,\s*-{1,2}[^\s,]+)*)(?:\s{2,}(.+?))?\s*$
 *
 * Each matcher comes with a grammar-level description of the lines it accepts
 * and lemmas tying the two together in both directions.
 */
module Patterns {
  import opened Wrappers
  import opened Text
  import opened Types

  /** Number of whitespace characters at the start of `s`. */
  function LeadingSpaces(s: string): (n: nat)
    ensures n <= |s| && AllSpace(s[..n])
    ensures n < |s| ==> !IsSpace(s[n])
  {
    LStripSpec(s);
    |s| - |LStrip(s)|
  }

  /** `[\w:.\-/]`: the characters a command name may continue with. */
  predicate IsNameChar(c: char) {
    IsWordChar(c) || c == ':' || c == '.' || c == '-' || c == '/'
  }

  lemma {:induction false} AlnumIsNotSpace(c: char)
    ensures IsAsciiAlnum(c) ==> !IsSpace(c)
  {
  }

  lemma {:induction false} SpaceIsNotNameChar(c: char)
    ensures IsSpace(c) ==> !IsNameChar(c)
  {
  }

  /** `[^\s,]`: the characters of one flag spelling. */
  predicate IsFlagChar(c: char) {
    !IsSpace(c) && c != ','
  }

  /** End of the run of name characters starting at `i`. */
  function NameEnd(s: string, i: nat): (j: nat)
    requires i <= |s|
    decreases |s| - i
    ensures i <= j <= |s|
    ensures forall m :: i <= m < j ==> IsNameChar(s[m])
    ensures j < |s| ==> !IsNameChar(s[j])
  {
    if i < |s| && IsNameChar(s[i]) then NameEnd(s, i + 1) else i
  }

  /** End of the run of flag characters starting at `i`. */
  function FlagRunEnd(s: string, i: nat): (j: nat)
    requires i <= |s|
    decreases |s| - i
    ensures i <= j <= |s|
    ensures forall m :: i <= m < j ==> IsFlagChar(s[m])
    ensures j < |s| ==> !IsFlagChar(s[j])
  {
    if i < |s| && IsFlagChar(s[i]) then FlagRunEnd(s, i + 1) else i
  }

  /** End of the run of whitespace starting at `i`. */
  function SpaceRunEnd(s: string, i: nat): (j: nat)
    requires i <= |s|
    decreases |s| - i
    ensures i <= j <= |s|
    ensures forall m :: i <= m < j ==> IsSpace(s[m])
    ensures j < |s| ==> !IsSpace(s[j])
  {
    if i < |s| && IsSpace(s[i]) then SpaceRunEnd(s, i + 1) else i
  }
}

/** `_COMMAND_PATTERN` and `_match_command_line`. */
module CommandPattern {
  import opened Wrappers
  import opened Text
  import opened Types
  import opened Patterns

  /** `[A-Za-z0-9][\w:.\-/]*`. */
  predicate IsCommandName(name: string) {
    |name| >= 1 && IsAsciiAlnum(name[0]) && forall i :: 1 <= i < |name| ==> IsNameChar(name[i])
  }

  /**
   * What may follow the name: `\s{2,}(.+?)\s*$` matches exactly the tails
   * that start with two whitespace characters and have at least one more
   * character (the lazy group may take a lone space, giving an empty description).
   */
  predicate CommandTail(rest: string) {
    |rest| >= 3 && IsSpace(rest[0]) && IsSpace(rest[1])
  }

  /** `line` is at most six whitespace characters, then `name` at index `k`, then an acceptable tail. */
  predicate CommandLineShape(line: string, k: nat, name: string) {
    k <= 6 && k + |name| <= |line| && AllSpace(line[..k]) && line[k..k + |name|] == name
    && IsCommandName(name) && CommandTail(line[k + |name|..])
  }

  /** `_match_command_line`: the name group, and the description group stripped. */
  function MatchCommandLine(line: string): (r: Option<CommandInfo>)
    requires IsLine(line)
  {
    var k := LeadingSpaces(line);
    if k > 6 || k == |line| || !IsAsciiAlnum(line[k]) then None
    else
      var j := NameEnd(line, k + 1);
      if CommandTail(line[j..]) then Some(CommandInfo(line[k..j], Strip(line[j..]))) else None
  }

  /** A match has the shape: at most six leading spaces, a command name, a tail of two spaces and more. */
  lemma {:induction false} MatchCommandLineSound(line: string)
    requires IsLine(line) && MatchCommandLine(line).Some?
    ensures LeadingSpaces(line) <= 6
    ensures IsCommandName(MatchCommandLine(line).value.name)
    ensures line[LeadingSpaces(line)..LeadingSpaces(line) + |MatchCommandLine(line).value.name|]
            == MatchCommandLine(line).value.name
    ensures CommandTail(line[LeadingSpaces(line) + |MatchCommandLine(line).value.name|..])
    ensures MatchCommandLine(line).value.description
            == Strip(line[LeadingSpaces(line) + |MatchCommandLine(line).value.name|..])
  {
    var k := LeadingSpaces(line);
    var j := NameEnd(line, k + 1);
    assert MatchCommandLine(line) == Some(CommandInfo(line[k..j], Strip(line[j..])));
  }

  /** Every line of the right shape matches, with that name and the stripped tail as description. */
  lemma {:induction false} MatchCommandLineComplete(line: string, k: nat, name: string)
    requires IsLine(line) && CommandLineShape(line, k, name)
    ensures MatchCommandLine(line) == Some(CommandInfo(name, Strip(line[k + |name|..])))
  {
    var j := k + |name|;
    assert line[k] == name[0];
    assert line[j..][0] == line[j];
    AlnumIsNotSpace(line[k]);
    SpaceIsNotNameChar(line[j]);
    IndentIsLeadingSpaces(line, k);
    NameRunEnds(line, k, name);
    MatchCommandLineAt(line, k, j);
  }

  lemma {:induction false} MatchCommandLineAt(line: string, k: nat, j: nat)
    requires IsLine(line) && k < j <= |line| && k <= 6 && IsAsciiAlnum(line[k])
    requires LeadingSpaces(line) == k && NameEnd(line, k + 1) == j && CommandTail(line[j..])
    ensures MatchCommandLine(line) == Some(CommandInfo(line[k..j], Strip(line[j..])))
  {
  }

  lemma {:induction false} IndentIsLeadingSpaces(line: string, k: nat)
    requires k < |line| && AllSpace(line[..k]) && !IsSpace(line[k])
    ensures LeadingSpaces(line) == k
  {
  }

  lemma {:induction false} NameRunEnds(line: string, k: nat, name: string)
    requires k + |name| < |line| && |name| >= 1 && line[k..k + |name|] == name
    requires forall i :: 1 <= i < |name| ==> IsNameChar(name[i])
    requires !IsNameChar(line[k + |name|])
    ensures NameEnd(line, k + 1) == k + |name|
  {
  }

  /**
   * A help line laid out as an indent of at most six spaces, a command name,
   * a gap of two or more spaces and a stripped description is read back as
   * that name and description (an empty one when the gap is three or more
   * spaces and nothing follows).
   */
  lemma {:induction false} FormattedCommandLine(indent: string, name: string, gap: string, description: string)
    requires |indent| <= 6 && AllSpace(indent) && IsLine(indent) && IsCommandName(name)
    requires |gap| >= 2 && AllSpace(gap) && IsLine(gap) && |gap| + |description| >= 3
    requires Stripped(description) && IsLine(description)
    ensures IsLine(indent + name + gap + description)
    ensures MatchCommandLine(indent + name + gap + description) == Some(CommandInfo(name, description))
  {
    var line := indent + name + gap + description;
    var k := |indent|;
    assert line[..k] == indent;
    assert line[k..k + |name|] == name;
    assert line[k + |name|..] == gap + description;
    NameIsLine(name);
    assert IsLine(line) by {
      forall i | 0 <= i < |line| ensures !IsLineBreak(line[i]) {
        if i < k { assert line[i] == indent[i]; }
        else if i < k + |name| { assert line[i] == name[i - k]; }
        else if i < k + |name| + |gap| { assert line[i] == gap[i - k - |name|]; }
        else { assert line[i] == description[i - k - |name| - |gap|]; }
      }
    }
    MatchCommandLineComplete(line, k, name);
    StripPadded(gap, description, []);
    assert gap + description + [] == gap + description;
    StripStripped(description);
  }

  /** Command names hold no line break. */
  lemma {:induction false} NameIsLine(name: string)
    requires IsCommandName(name)
    ensures IsLine(name)
  {
  }

  /** The layout of a typical help line. */
  lemma {:induction false} CloneLine()
    ensures IsLine("  " + "clone" + "   " + "Clone a repository")
    ensures MatchCommandLine("  " + "clone" + "   " + "Clone a repository") == Some(CommandInfo("clone", "Clone a repository"))
  {
    ClonePieces();
    FormattedCommandLine("  ", "clone", "   ", "Clone a repository");
  }

  /** The pieces of `CloneLine` meet the layout's conditions. */
  lemma {:induction false} ClonePieces()
    ensures IsCommandName("clone")
    ensures Stripped("Clone a repository") && IsLine("Clone a repository")
    ensures AllSpace("  ") && IsLine("  ") && AllSpace("   ") && IsLine("   ")
  {
  }

  /** A name with three spaces after it and nothing else: the lazy description group takes a space, stripped to "". */
  lemma {:induction false} NameOnlyLine()
    ensures IsLine("  " + "sync" + "   " + "")
    ensures MatchCommandLine("  " + "sync" + "   " + "") == Some(CommandInfo("sync", ""))
  {
    FormattedCommandLine("  ", "sync", "   ", "");
  }
}

/** `_OPTION_PATTERN` and `_match_option_line`. */
module OptionPattern {
  import opened Wrappers
  import opened Text
  import opened Types
  import opened Patterns

  /** `-{1,2}[^\s,]+` can match a spelling starting at `i`; the spelling is then the whole run. */
  predicate SpellingAt(s: string, i: nat) {
    i < |s| && s[i] == '-' && FlagRunEnd(s, i) >= i + 2
  }

  /** After a spelling ending at `e`, `\s*,\s*` leads to the start of the next spelling, if there is a comma. */
  function NextSpelling(s: string, e: nat): (r: Option<nat>)
    requires e <= |s|
    ensures r.Some? ==> e < r.value <= |s|
  {
    var a := SpaceRunEnd(s, e);
    if a < |s| && s[a] == ',' then Some(SpaceRunEnd(s, a + 1)) else None
  }

  /** `(?:\s{2,}(.+?))?\s*$` matches `rest`: all whitespace, or two whitespace characters first. */
  predicate OptionTail(rest: string) {
    AllSpace(rest) || (|rest| >= 2 && IsSpace(rest[0]) && IsSpace(rest[1]))
  }

  /** A comma-separated chain of spellings runs from `i` to `p`. */
  predicate ChainTo(s: string, i: nat, p: nat)
    requires i <= |s|
    decreases |s| - i
    ensures ChainTo(s, i, p) ==> i < p <= |s|
  {
    SpellingAt(s, i) &&
    var e := FlagRunEnd(s, i);
    e == p || (NextSpelling(s, e).Some? && ChainTo(s, NextSpelling(s, e).value, p))
  }

  /**
   * The end of the flags group: the greedy `*` takes as many further spellings
   * as it can, and backtracks over them until the tail after the group is acceptable.
   */
  function FlagsEnd(s: string, i: nat): (r: Option<nat>)
    requires i <= |s|
    decreases |s| - i
    ensures r.Some? ==> i < r.value <= |s|
  {
    if !SpellingAt(s, i) then None
    else
      var e := FlagRunEnd(s, i);
      var longer := match NextSpelling(s, e)
        case Some(j) => FlagsEnd(s, j)
        case None => None;
      if longer.Some? then longer
      else if OptionTail(s[e..]) then Some(e) else None
  }

  /** `FlagsEnd` finds exactly the last chain end with an acceptable tail. */
  lemma {:induction false} FlagsEndSound(s: string, i: nat)
    requires i <= |s| && FlagsEnd(s, i).Some?
    decreases |s| - i
    ensures var p := FlagsEnd(s, i).value; ChainTo(s, i, p) && OptionTail(s[p..])
  {
    var e := FlagRunEnd(s, i);
    match NextSpelling(s, e)
    case Some(j) =>
      if FlagsEnd(s, j).Some? {
        FlagsEndSound(s, j);
      }
    case None =>
  }

  lemma {:induction false} FlagsEndLongest(s: string, i: nat, q: nat)
    requires i <= |s| && q <= |s| && ChainTo(s, i, q) && OptionTail(s[q..])
    decreases |s| - i
    ensures FlagsEnd(s, i).Some? && q <= FlagsEnd(s, i).value
  {
    var e := FlagRunEnd(s, i);
    if e != q {
      var j := NextSpelling(s, e).value;
      FlagsEndLongest(s, j, q);
    } else {
      match NextSpelling(s, e)
      case Some(j) =>
        if FlagsEnd(s, j).Some? {
          FlagsEndSound(s, j);
        }
      case None =>
    }
  }

  /** `_match_option_line`: the flags group, and the description group (or "") stripped. */
  function MatchOptionLine(line: string): (r: Option<OptionInfo>)
    requires IsLine(line)
  {
    var k := LeadingSpaces(line);
    if k > 6 then None
    else match FlagsEnd(line, k)
      case None => None
      case Some(p) => Some(OptionInfo(line[k..p], Strip(line[p..])))
  }

  /** A match: at most six leading spaces, the longest chain of spellings with an acceptable tail, the tail stripped. */
  lemma {:induction false} MatchOptionLineSound(line: string)
    requires IsLine(line) && MatchOptionLine(line).Some?
    ensures LeadingSpaces(line) <= 6 && FlagsEnd(line, LeadingSpaces(line)).Some?
    ensures var k, p := LeadingSpaces(line), FlagsEnd(line, LeadingSpaces(line)).value;
      && MatchOptionLine(line).value == OptionInfo(line[k..p], Strip(line[p..]))
      && ChainTo(line, k, p) && OptionTail(line[p..])
      && forall q :: p < q <= |line| && ChainTo(line, k, q) ==> !OptionTail(line[q..])
  {
    var k := LeadingSpaces(line);
    var p := FlagsEnd(line, k).value;
    MatchOptionLineAt(line, k, p);
    FlagsEndSound(line, k);
    forall q | p < q <= |line| && ChainTo(line, k, q) ensures !OptionTail(line[q..]) {
      if OptionTail(line[q..]) {
        FlagsEndLongest(line, k, q);
      }
    }
  }

  /** Every line that starts with at most six spaces and a chain of spellings with an acceptable tail matches. */
  lemma {:induction false} MatchOptionLineComplete(line: string, q: nat)
    requires IsLine(line) && LeadingSpaces(line) <= 6 && q <= |line|
    requires ChainTo(line, LeadingSpaces(line), q) && OptionTail(line[q..])
    ensures MatchOptionLine(line).Some?
    ensures |MatchOptionLine(line).value.flags| >= q - LeadingSpaces(line)
  {
    FlagsEndLongest(line, LeadingSpaces(line), q);
  }

  /** Without a description part (only whitespace after the flags) the description is empty. */
  lemma {:induction false} MatchOptionLineNoDescription(line: string)
    requires IsLine(line) && MatchOptionLine(line).Some?
    requires AllSpace(line[LeadingSpaces(line) + |MatchOptionLine(line).value.flags|..])
    ensures MatchOptionLine(line).value.description == ""
  {
    var k := LeadingSpaces(line);
    var p := FlagsEnd(line, k).value;
    MatchOptionLineAt(line, k, p);
    StripAllSpace(line[p..]);
  }

  lemma {:induction false} MatchOptionLineAt(line: string, k: nat, p: nat)
    requires IsLine(line) && LeadingSpaces(line) == k <= 6 && FlagsEnd(line, k) == Some(p)
    ensures MatchOptionLine(line) == Some(OptionInfo(line[k..p], Strip(line[p..])))
  {
  }

  /** `-{1,2}[^\s,]+` as a whole string: a dash, then at least one more character, none of them whitespace or a comma. */
  predicate IsSpelling(t: string) {
    |t| >= 2 && t[0] == '-' && forall i :: 0 <= i < |t| ==> IsFlagChar(t[i])
  }

  lemma {:induction false} CommaIsNotSpace(c: char)
    ensures IsSpace(c) ==> c != ','
  {
  }

  /** Whitespace, a run of flag characters and whitespace again hold no comma. */
  lemma {:induction false} NoCommaAround(x: string, f: string, y: string)
    requires AllSpace(x) && AllSpace(y) && forall i :: 0 <= i < |f| ==> IsFlagChar(f[i])
    ensures forall i :: 0 <= i < |x + f + y| ==> (x + f + y)[i] != ','
  {
    forall i | 0 <= i < |x + f + y| ensures (x + f + y)[i] != ',' {
      if i < |x| {
        CommaIsNotSpace(x[i]);
        assert (x + f + y)[i] == x[i];
      } else if i < |x| + |f| {
        assert (x + f + y)[i] == f[i - |x|];
      } else {
        CommaIsNotSpace(y[i - |x| - |f|]);
        assert (x + f + y)[i] == y[i - |x| - |f|];
      }
    }
  }

  /** A spelling with whitespace around it has no comma in it and strips to the spelling. */
  lemma {:induction false} PaddedSpelling(s: string, b: nat, j: nat, a: nat)
    requires b <= j <= a <= |s| && AllSpace(s[b..j]) && SpellingAt(s, j)
    requires FlagRunEnd(s, j) <= a && AllSpace(s[FlagRunEnd(s, j)..a])
    ensures forall i :: 0 <= i < |s[b..a]| ==> s[b..a][i] != ','
    ensures Strip(s[b..a]) == s[j..FlagRunEnd(s, j)]
    ensures IsSpelling(s[j..FlagRunEnd(s, j)])
  {
    var e := FlagRunEnd(s, j);
    var f := s[j..e];
    assert forall i :: 0 <= i < |f| ==> IsFlagChar(f[i]);
    assert IsSpelling(f);
    assert s[b..a] == s[b..j] + f + s[e..a];
    NoCommaAround(s[b..j], f, s[e..a]);
    StripPadded(s[b..j], f, s[e..a]);
    StripStripped(f);
  }

  /** Each comma-separated part of a chain (after an optional run of spaces) strips to one spelling. */
  lemma {:induction false} ChainSpellings(s: string, b: nat, j: nat, p: nat)
    requires b <= j <= |s| && AllSpace(s[b..j]) && ChainTo(s, j, p)
    decreases |s| - j
    ensures forall piece :: piece in SplitOn(s[b..p], ',') ==> IsSpelling(Strip(piece))
  {
    var e := FlagRunEnd(s, j);
    if e == p {
      PaddedSpelling(s, b, j, p);
      SplitNoSeparator(s[b..p], ',');
    } else {
      var a := SpaceRunEnd(s, e);
      var j2 := NextSpelling(s, e).value;
      ChainStep(s, j, p);
      PaddedSpelling(s, b, j, a);
      ChainSpellings(s, a + 1, j2, p);
      SplitAfterComma(s, b, a, p);
      var rest := SplitOn(s[a + 1..p], ',');
      assert forall piece :: piece in rest ==> IsSpelling(Strip(piece));
      assert SplitOn(s[b..p], ',') == [s[b..a]] + rest;
    }
  }

  /** A chain that goes on past its first spelling: the comma, the spaces around it, and the rest of the chain. */
  lemma {:induction false} ChainStep(s: string, j: nat, p: nat)
    requires j <= |s| && ChainTo(s, j, p) && FlagRunEnd(s, j) != p
    ensures var e := FlagRunEnd(s, j);
      var a := SpaceRunEnd(s, e);
      && SpellingAt(s, j) && NextSpelling(s, e).Some?
      && e <= a < |s| && s[a] == ',' && a + 1 <= NextSpelling(s, e).value <= |s|
      && AllSpace(s[e..a]) && AllSpace(s[a + 1..NextSpelling(s, e).value])
      && ChainTo(s, NextSpelling(s, e).value, p)
  {
    var e := FlagRunEnd(s, j);
    SpaceRunIsSpace(s, e);
    SpaceRunIsSpace(s, SpaceRunEnd(s, e) + 1);
  }

  lemma {:induction false} SpaceRunIsSpace(s: string, i: nat)
    requires i <= |s|
    ensures AllSpace(s[i..SpaceRunEnd(s, i)])
  {
  }

  lemma {:induction false} SplitAfterComma(s: string, b: nat, a: nat, p: nat)
    requires b <= a < p <= |s| && s[a] == ','
    requires forall i :: 0 <= i < |s[b..a]| ==> s[b..a][i] != ','
    ensures SplitOn(s[b..p], ',') == [s[b..a]] + SplitOn(s[a + 1..p], ',')
  {
    assert s[b..p] == s[b..a] + [','] + s[a + 1..p];
    SplitFirstSeparator(s[b..a], ',', s[a + 1..p]);
  }

  /** The flags of a match start with a dash, and every comma-separated spelling is a flag spelling. */
  lemma {:induction false} MatchOptionLineSpellings(line: string)
    requires IsLine(line) && MatchOptionLine(line).Some?
    ensures var flags := MatchOptionLine(line).value.flags;
      && flags != [] && flags[0] == '-'
      && forall piece :: piece in SplitOn(flags, ',') ==> IsSpelling(Strip(piece))
  {
    var k := LeadingSpaces(line);
    var p := FlagsEnd(line, k).value;
    MatchOptionLineAt(line, k, p);
    FlagsEndSound(line, k);
    ChainSpellings(line, k, k, p);
  }
}
