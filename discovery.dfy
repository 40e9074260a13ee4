/**
 * The help-text scanner: a section-scoped pass driven by a `collecting`
 * flag, a loose fallback pass, and a de-duplication that keeps the first
 * entry for each key. Each pass is a method with a loop, proved equal to a
 * specification function over the first `i` lines; the lemmas state what
 * those functions promise.
 */
module Discovery {
  import opened Wrappers
  import opened Text
  import opened Types
  import opened CommandPattern
  import opened OptionPattern

  const CommandSectionHeaders: seq<string> :=
    ["available commands", "commands", "command groups", "management commands", "subcommands"]
  const OptionSectionHeaders: seq<string> := ["options", "flags"]

  /** The trimmed, lower-cased line starts with one of the headers. */
  predicate IsHeaderLine(line: string, headers: seq<string>) {
    exists h :: h in headers && StartsWith(Lower(Strip(line)), h)
  }

  predicate IsCommandHeader(line: string) {
    IsHeaderLine(line, CommandSectionHeaders)
  }

  predicate IsOptionHeader(line: string) {
    IsHeaderLine(line, OptionSectionHeaders)
  }

  /** `not line.strip()`: nothing but whitespace. */
  predicate IsBlank(line: string) {
    AllSpace(line)
  }

  lemma {:induction false} BlankIsStrippedAway(line: string)
    ensures IsBlank(line) <==> Strip(line) == []
  {
    if IsBlank(line) {
      StripAllSpace(line);
    } else {
      LStripSpec(line);
      RStripSpec(LStrip(line));
      if Strip(line) == [] {
        assert line == line[..|line| - |LStrip(line)|] + LStrip(line);
      }
    }
  }

  /** No line of whitespace starts with a header. */
  lemma {:induction false} BlankIsNoHeader(line: string, headers: seq<string>)
    requires forall h :: h in headers ==> h != []
    ensures IsBlank(line) ==> !IsHeaderLine(line, headers)
  {
    if IsBlank(line) {
      StripAllSpace(line);
    }
  }

  // ---------------------------------------------------------------------
  // The section-scoped pass

  /** How one line changes the `collecting` flag. */
  function Step(collecting: bool, line: string, isHeader: string -> bool): bool {
    if isHeader(line) then true
    else if collecting && IsBlank(line) then false
    else collecting
  }

  /** The `collecting` flag once the first `i` lines have been scanned. */
  function Collecting(lines: seq<string>, isHeader: string -> bool, i: nat): bool
    requires i <= |lines|
  {
    if i == 0 then false else Step(Collecting(lines, isHeader, i - 1), lines[i - 1], isHeader)
  }

  /** Line `i` is handed to the matcher: collecting, and neither a header nor blank. */
  predicate Collects(lines: seq<string>, isHeader: string -> bool, i: nat)
    requires i < |lines|
  {
    Collecting(lines, isHeader, i) && !isHeader(lines[i]) && !IsBlank(lines[i])
  }

  /** The matcher can be applied to every line. */
  ghost predicate Applicable<T>(matcher: string --> Option<T>, lines: seq<string>) {
    forall i :: 0 <= i < |lines| ==> matcher.requires(lines[i])
  }

  /** What `if entry: yield entry` contributes. */
  function Yield<T>(entry: Option<T>): seq<T> {
    if entry.Some? then [entry.value] else []
  }

  /** The entries the section pass yields from the first `n` lines. */
  function SectionScan<T>(lines: seq<string>, isHeader: string -> bool, matcher: string --> Option<T>, n: nat): seq<T>
    requires n <= |lines| && Applicable(matcher, lines)
  {
    if n == 0 then []
    else
      SectionScan(lines, isHeader, matcher, n - 1)
      + (if Collects(lines, isHeader, n - 1) then Yield(matcher(lines[n - 1])) else [])
  }

  /** The loop shared by `_extract_command_sections` and `_extract_option_sections`. */
  method ExtractSections<T>(lines: seq<string>, isHeader: string -> bool, matcher: string --> Option<T>)
    returns (found: seq<T>)
    requires Applicable(matcher, lines)
    ensures found == SectionScan(lines, isHeader, matcher, |lines|)
  {
    var collecting := false;
    found := [];
    for i := 0 to |lines|
      invariant collecting == Collecting(lines, isHeader, i)
      invariant found == SectionScan(lines, isHeader, matcher, i)
    {
      var line := lines[i];
      if isHeader(line) {
        collecting := true;
        continue;
      }
      BlankIsStrippedAway(line);
      if collecting && Strip(line) == [] {
        collecting := false;
        continue;
      }
      if collecting {
        var entry := matcher(line);
        if entry.Some? {
          found := found + [entry.value];
        }
      }
    }
  }

  method ExtractCommandSections(lines: seq<string>) returns (commands: seq<CommandInfo>)
    requires forall i :: 0 <= i < |lines| ==> IsLine(lines[i])
    ensures commands == SectionScan(lines, IsCommandHeader, MatchCommandLine, |lines|)
  {
    commands := ExtractSections(lines, IsCommandHeader, MatchCommandLine);
  }

  method ExtractOptionSections(lines: seq<string>) returns (options: seq<OptionInfo>)
    requires forall i :: 0 <= i < |lines| ==> IsLine(lines[i])
    ensures options == SectionScan(lines, IsOptionHeader, MatchOptionLine, |lines|)
  {
    options := ExtractSections(lines, IsOptionHeader, MatchOptionLine);
  }

  /** Header `h` opened a section that no blank line has closed before line `i`. */
  predicate OpenSince(lines: seq<string>, isHeader: string -> bool, h: nat, i: nat)
    requires h < i <= |lines|
  {
    isHeader(lines[h]) && forall j :: h < j < i ==> !IsBlank(lines[j])
  }

  /** The scanner is collecting exactly when some earlier header has not been followed by a blank line. */
  lemma {:induction false} CollectingIff(lines: seq<string>, isHeader: string -> bool, i: nat)
    requires i <= |lines|
    ensures Collecting(lines, isHeader, i) <==> exists h: nat :: h < i && OpenSince(lines, isHeader, h, i)
  {
    if i > 0 {
      CollectingIff(lines, isHeader, i - 1);
      var line := lines[i - 1];
      if isHeader(line) {
        assert OpenSince(lines, isHeader, i - 1, i);
      } else if IsBlank(line) {
        forall h: nat | h < i ensures !OpenSince(lines, isHeader, h, i) {
          if h < i - 1 {
            assert !(forall j :: h < j < i ==> !IsBlank(lines[j]));
          }
        }
      } else {
        if Collecting(lines, isHeader, i - 1) {
          var h: nat :| h < i - 1 && OpenSince(lines, isHeader, h, i - 1);
          assert OpenSince(lines, isHeader, h, i);
        }
        forall h: nat | h < i && OpenSince(lines, isHeader, h, i) ensures OpenSince(lines, isHeader, h, i - 1) {
        }
      }
    }
  }

  /** Lines before the first header never yield an entry. */
  lemma {:induction false} NothingBeforeFirstHeader<T>(
    lines: seq<string>, isHeader: string -> bool, matcher: string --> Option<T>, n: nat)
    requires n <= |lines| && Applicable(matcher, lines)
    requires forall j :: 0 <= j < n ==> !isHeader(lines[j])
    ensures SectionScan(lines, isHeader, matcher, n) == []
  {
    if n > 0 {
      NothingBeforeFirstHeader(lines, isHeader, matcher, n - 1);
      IdleBeforeFirstHeader(lines, isHeader, n - 1);
      assert !Collects(lines, isHeader, n - 1);
    }
  }

  /** Before the first header the scanner is not collecting. */
  lemma {:induction false} IdleBeforeFirstHeader(lines: seq<string>, isHeader: string -> bool, n: nat)
    requires n <= |lines|
    requires forall j :: 0 <= j < n ==> !isHeader(lines[j])
    ensures !Collecting(lines, isHeader, n)
  {
    if n > 0 {
      IdleBeforeFirstHeader(lines, isHeader, n - 1);
    }
  }

  /** A blank line ends the section: nothing is collected until the next header. */
  lemma {:induction false} BlankStopsCollecting(lines: seq<string>, isHeader: string -> bool, b: nat, i: nat)
    requires b < i <= |lines| && IsBlank(lines[b])
    requires forall j :: b <= j < i ==> !isHeader(lines[j])
    ensures !Collecting(lines, isHeader, i)
  {
    CollectingIff(lines, isHeader, i);
    forall h: nat | h < i ensures !OpenSince(lines, isHeader, h, i) {
      if h < b {
        assert !(forall j :: h < j < i ==> !IsBlank(lines[j]));
      }
    }
  }

  /** Lines that are not blank, whether or not they match, keep a section open. */
  lemma {:induction false} CollectingContinues(lines: seq<string>, isHeader: string -> bool, i: nat, k: nat)
    requires i <= k <= |lines| && Collecting(lines, isHeader, i)
    requires forall j :: i <= j < k ==> !IsBlank(lines[j])
    ensures Collecting(lines, isHeader, k)
  {
    if k > i {
      CollectingContinues(lines, isHeader, i, k - 1);
    }
  }

  /** Every entry of the section pass is the match of one collected line: not a header, not blank, inside a section. */
  lemma {:induction false} SectionScanSound<T>(
    lines: seq<string>, isHeader: string -> bool, matcher: string --> Option<T>, n: nat, x: T)
    requires n <= |lines| && Applicable(matcher, lines)
    requires x in SectionScan(lines, isHeader, matcher, n)
    ensures exists i :: 0 <= i < n && Collects(lines, isHeader, i) && matcher(lines[i]) == Some(x)
  {
    if x !in SectionScan(lines, isHeader, matcher, n - 1) {
      assert Collects(lines, isHeader, n - 1) && matcher(lines[n - 1]) == Some(x);
    } else {
      SectionScanSound(lines, isHeader, matcher, n - 1, x);
    }
  }

  /** Every collected line that matches contributes its entry. */
  lemma {:induction false} SectionScanComplete<T>(
    lines: seq<string>, isHeader: string -> bool, matcher: string --> Option<T>, i: nat, n: nat)
    requires i < n <= |lines| && Applicable(matcher, lines)
    requires Collects(lines, isHeader, i) && matcher(lines[i]).Some?
    ensures matcher(lines[i]).value in SectionScan(lines, isHeader, matcher, n)
  {
    if i < n - 1 {
      SectionScanComplete(lines, isHeader, matcher, i, n - 1);
    }
  }

  // ---------------------------------------------------------------------
  // The loose pass

  /** `"usage" in line.lower()`. */
  predicate MentionsUsage(line: string) {
    Contains(Lower(line), "usage")
  }

  /** The entries the loose pass yields from the first `n` lines. */
  function LooseScan<T>(lines: seq<string>, matcher: string --> Option<T>, n: nat): seq<T>
    requires n <= |lines| && Applicable(matcher, lines)
  {
    if n == 0 then []
    else
      LooseScan(lines, matcher, n - 1)
      + (if MentionsUsage(lines[n - 1]) then [] else Yield(matcher(lines[n - 1])))
  }

  /** The loop shared by `_extract_loose_commands` and `_extract_loose_options`. */
  method ExtractLoose<T>(lines: seq<string>, matcher: string --> Option<T>) returns (found: seq<T>)
    requires Applicable(matcher, lines)
    ensures found == LooseScan(lines, matcher, |lines|)
  {
    found := [];
    for i := 0 to |lines|
      invariant found == LooseScan(lines, matcher, i)
    {
      var line := lines[i];
      if Contains(Lower(line), "usage") {
        continue;
      }
      var entry := matcher(line);
      if entry.Some? {
        found := found + [entry.value];
      }
    }
  }

  method ExtractLooseCommands(lines: seq<string>) returns (commands: seq<CommandInfo>)
    requires forall i :: 0 <= i < |lines| ==> IsLine(lines[i])
    ensures commands == LooseScan(lines, MatchCommandLine, |lines|)
  {
    commands := ExtractLoose(lines, MatchCommandLine);
  }

  method ExtractLooseOptions(lines: seq<string>) returns (options: seq<OptionInfo>)
    requires forall i :: 0 <= i < |lines| ==> IsLine(lines[i])
    ensures options == LooseScan(lines, MatchOptionLine, |lines|)
  {
    options := ExtractLoose(lines, MatchOptionLine);
  }

  /** Every entry of the loose pass is the match of one line that does not mention "usage". */
  lemma {:induction false} LooseScanSound<T>(lines: seq<string>, matcher: string --> Option<T>, n: nat, x: T)
    requires n <= |lines| && Applicable(matcher, lines)
    requires x in LooseScan(lines, matcher, n)
    ensures exists i :: 0 <= i < n && !MentionsUsage(lines[i]) && matcher(lines[i]) == Some(x)
  {
    if x !in LooseScan(lines, matcher, n - 1) {
      assert !MentionsUsage(lines[n - 1]) && matcher(lines[n - 1]) == Some(x);
    } else {
      LooseScanSound(lines, matcher, n - 1, x);
    }
  }

  /** Every line that matches and does not mention "usage" contributes its entry. */
  lemma {:induction false} LooseScanComplete<T>(lines: seq<string>, matcher: string --> Option<T>, i: nat, n: nat)
    requires i < n <= |lines| && Applicable(matcher, lines)
    requires !MentionsUsage(lines[i]) && matcher(lines[i]).Some?
    ensures matcher(lines[i]).value in LooseScan(lines, matcher, n)
  {
    if i < n - 1 {
      LooseScanComplete(lines, matcher, i, n - 1);
    }
  }

  // ---------------------------------------------------------------------
  // De-duplication

  /** The keys of the entries of `xs`. */
  function KeysOf<T, K(==)>(xs: seq<T>, key: T -> K): set<K> {
    set i | 0 <= i < |xs| :: key(xs[i])
  }

  /** What the de-duplication loop has kept after the first `n` entries. */
  function Deduped<T, K(==)>(xs: seq<T>, key: T -> K, n: nat): seq<T>
    requires n <= |xs|
  {
    if n == 0 then []
    else
      var kept := Deduped(xs, key, n - 1);
      if key(xs[n - 1]) in KeysOf(kept, key) then kept else kept + [xs[n - 1]]
  }

  /** Entry `i` is the first one with its key. */
  predicate FirstOfKey<T, K(==)>(xs: seq<T>, key: T -> K, i: nat)
    requires i < |xs|
  {
    forall j :: 0 <= j < i ==> key(xs[j]) != key(xs[i])
  }

  /** The reference definition: the entries among the first `n` that are first of their key, in order. */
  function FirstOccurrences<T, K(==)>(xs: seq<T>, key: T -> K, n: nat): seq<T>
    requires n <= |xs|
  {
    if n == 0 then []
    else FirstOccurrences(xs, key, n - 1) + (if FirstOfKey(xs, key, n - 1) then [xs[n - 1]] else [])
  }

  /** The loop shared by `_dedupe_commands` and `_dedupe_options`; `seen` is the dict of keys kept so far. */
  method DedupeBy<T, K(==)>(items: seq<T>, key: T -> K) returns (ordered: seq<T>)
    ensures ordered == Deduped(items, key, |items|)
  {
    var seen: map<K, bool> := map[];
    ordered := [];
    for i := 0 to |items|
      invariant ordered == Deduped(items, key, i)
      invariant seen.Keys == KeysOf(ordered, key)
    {
      var item := items[i];
      if key(item) in seen {
        continue;
      }
      KeysOfAppend(ordered, item, key);
      seen := seen[key(item) := true];
      ordered := ordered + [item];
    }
  }

  function CommandName(c: CommandInfo): string {
    c.name
  }

  function OptionFlags(o: OptionInfo): string {
    o.flags
  }

  method DedupeCommands(commands: seq<CommandInfo>) returns (ordered: seq<CommandInfo>)
    ensures ordered == Deduped(commands, CommandName, |commands|)
  {
    ordered := DedupeBy(commands, CommandName);
  }

  method DedupeOptions(options: seq<OptionInfo>) returns (ordered: seq<OptionInfo>)
    ensures ordered == Deduped(options, OptionFlags, |options|)
  {
    ordered := DedupeBy(options, OptionFlags);
  }

  /** The kept entries carry exactly the keys of the first `n` entries. */
  lemma {:induction false} DedupedKeys<T, K>(xs: seq<T>, key: T -> K, n: nat)
    requires n <= |xs|
    ensures KeysOf(Deduped(xs, key, n), key) == KeysOf(xs[..n], key)
  {
    if n > 0 {
      DedupedKeys(xs, key, n - 1);
      var kept := Deduped(xs, key, n - 1);
      assert xs[..n] == xs[..n - 1] + [xs[n - 1]];
      KeysOfAppend(xs[..n - 1], xs[n - 1], key);
      if key(xs[n - 1]) !in KeysOf(kept, key) {
        KeysOfAppend(kept, xs[n - 1], key);
      }
    }
  }

  lemma {:induction false} KeysOfAppend<T, K>(xs: seq<T>, x: T, key: T -> K)
    ensures KeysOf(xs + [x], key) == KeysOf(xs, key) + {key(x)}
  {
    var ys := xs + [x];
    assert forall i :: 0 <= i < |xs| ==> ys[i] == xs[i];
    assert ys[|xs|] == x;
  }

  lemma {:induction false} KeyOfFirstOccurrence<T, K>(xs: seq<T>, key: T -> K, i: nat)
    requires i < |xs|
    ensures key(xs[i]) in KeysOf(xs[..i], key) <==> !FirstOfKey(xs, key, i)
  {
    if !FirstOfKey(xs, key, i) {
      var j :| 0 <= j < i && key(xs[j]) == key(xs[i]);
      assert xs[..i][j] == xs[j];
    }
  }

  /** The de-duplication keeps exactly the first entry for each key, in input order. */
  lemma {:induction false} DedupedIsFirstOccurrences<T, K>(xs: seq<T>, key: T -> K, n: nat)
    requires n <= |xs|
    ensures Deduped(xs, key, n) == FirstOccurrences(xs, key, n)
  {
    if n > 0 {
      DedupedIsFirstOccurrences(xs, key, n - 1);
      DedupedKeys(xs, key, n - 1);
      KeyOfFirstOccurrence(xs, key, n - 1);
    }
  }

  /** No two entries of `r` share a key. */
  predicate DistinctKeys<T, K(==)>(r: seq<T>, key: T -> K) {
    forall a, b :: 0 <= a < b < |r| ==> key(r[a]) != key(r[b])
  }

  /** No two kept entries share a key. */
  lemma {:induction false} DedupedDistinct<T, K>(xs: seq<T>, key: T -> K, n: nat)
    requires n <= |xs|
    ensures DistinctKeys(Deduped(xs, key, n), key)
  {
    if n > 0 {
      DedupedDistinct(xs, key, n - 1);
      var kept := Deduped(xs, key, n - 1);
      if key(xs[n - 1]) !in KeysOf(kept, key) {
        var r := kept + [xs[n - 1]];
        forall a, b | 0 <= a < b < |r| ensures key(r[a]) != key(r[b]) {
          if b == |kept| {
            assert r[a] == kept[a];
            assert key(kept[a]) in KeysOf(kept, key);
            assert r[b] == xs[n - 1];
          } else {
            assert r[a] == kept[a] && r[b] == kept[b];
            assert key(kept[a]) != key(kept[b]);
          }
        }
      }
    }
  }

  /** Every kept entry is one of the input entries. */
  lemma {:induction false} DedupedSubset<T, K>(xs: seq<T>, key: T -> K, n: nat)
    requires n <= |xs|
    ensures forall x :: x in Deduped(xs, key, n) ==> x in xs[..n]
  {
    if n > 0 {
      DedupedSubset(xs, key, n - 1);
      assert xs[..n] == xs[..n - 1] + [xs[n - 1]];
    }
  }

  // ---------------------------------------------------------------------
  // discover_commands and discover_options

  /**
   * `discover_commands` and `discover_options` once the text is split into
   * lines: the section pass, the loose pass only if that found nothing, then
   * the de-duplication by `key`.
   */
  function Discover<T, K(==)>(lines: seq<string>, isHeader: string -> bool, matcher: string --> Option<T>, key: T -> K): seq<T>
    requires Applicable(matcher, lines)
  {
    var sections := SectionScan(lines, isHeader, matcher, |lines|);
    var found := if sections == [] then LooseScan(lines, matcher, |lines|) else sections;
    Deduped(found, key, |found|)
  }

  /**
   * The loose pass is consulted only when the section pass found nothing, and
   * the result is the first entry for each key of whichever pass is used.
   */
  lemma {:induction false} DiscoverGating<T, K>(lines: seq<string>, isHeader: string -> bool, matcher: string --> Option<T>, key: T -> K)
    requires Applicable(matcher, lines)
    ensures var sections := SectionScan(lines, isHeader, matcher, |lines|);
      sections != [] ==> Discover(lines, isHeader, matcher, key) == FirstOccurrences(sections, key, |sections|)
    ensures var sections := SectionScan(lines, isHeader, matcher, |lines|);
      var loose := LooseScan(lines, matcher, |lines|);
      sections == [] ==> Discover(lines, isHeader, matcher, key) == FirstOccurrences(loose, key, |loose|)
  {
    var sections := SectionScan(lines, isHeader, matcher, |lines|);
    var loose := LooseScan(lines, matcher, |lines|);
    DedupedIsFirstOccurrences(sections, key, |sections|);
    DedupedIsFirstOccurrences(loose, key, |loose|);
  }

  /** No two discovered entries share a key. */
  lemma {:induction false} DiscoverDistinct<T, K>(lines: seq<string>, isHeader: string -> bool, matcher: string --> Option<T>, key: T -> K)
    requires Applicable(matcher, lines)
    ensures DistinctKeys(Discover(lines, isHeader, matcher, key), key)
  {
    var sections := SectionScan(lines, isHeader, matcher, |lines|);
    var found := if sections == [] then LooseScan(lines, matcher, |lines|) else sections;
    DedupedDistinct(found, key, |found|);
    assert Discover(lines, isHeader, matcher, key) == Deduped(found, key, |found|);
  }

  /**
   * Every discovered entry is the match of one physical line: a collected
   * line when the section pass found something, otherwise a line that does
   * not mention "usage".
   */
  lemma {:induction false} DiscoverPerLine<T, K>(lines: seq<string>, isHeader: string -> bool, matcher: string --> Option<T>, key: T -> K, x: T)
    requires Applicable(matcher, lines) && x in Discover(lines, isHeader, matcher, key)
    ensures exists i :: (0 <= i < |lines| && matcher(lines[i]) == Some(x)
      && if SectionScan(lines, isHeader, matcher, |lines|) != [] then Collects(lines, isHeader, i) else !MentionsUsage(lines[i]))
  {
    var sections := SectionScan(lines, isHeader, matcher, |lines|);
    var found := if sections == [] then LooseScan(lines, matcher, |lines|) else sections;
    DedupedSubset(found, key, |found|);
    assert found[..|found|] == found;
    if sections == [] {
      LooseScanSound(lines, matcher, |lines|, x);
    } else {
      SectionScanSound(lines, isHeader, matcher, |lines|, x);
    }
  }

  function DiscoverCommands(helpText: string): seq<CommandInfo> {
    if helpText == [] then []
    else
      SplitLinesAreLines(helpText);
      Discover(SplitLines(helpText), IsCommandHeader, MatchCommandLine, CommandName)
  }

  function DiscoverOptions(helpText: string): seq<OptionInfo> {
    if helpText == [] then []
    else
      SplitLinesAreLines(helpText);
      Discover(SplitLines(helpText), IsOptionHeader, MatchOptionLine, OptionFlags)
  }

  lemma DiscoverEmpty()
    ensures DiscoverCommands("") == [] && DiscoverOptions("") == []
  {
  }

  /** The discovered command names are pairwise distinct. */
  lemma {:induction false} DiscoverCommandsDistinct(helpText: string)
    ensures var r := DiscoverCommands(helpText);
      forall a, b :: 0 <= a < b < |r| ==> r[a].name != r[b].name
  {
    if helpText != [] {
      SplitLinesAreLines(helpText);
      DiscoverDistinct(SplitLines(helpText), IsCommandHeader, MatchCommandLine, CommandName);
    }
  }

  /** The discovered option flag strings are pairwise distinct. */
  lemma {:induction false} DiscoverOptionsDistinct(helpText: string)
    ensures var r := DiscoverOptions(helpText);
      forall a, b :: 0 <= a < b < |r| ==> r[a].flags != r[b].flags
  {
    if helpText != [] {
      SplitLinesAreLines(helpText);
      DiscoverDistinct(SplitLines(helpText), IsOptionHeader, MatchOptionLine, OptionFlags);
    }
  }

  /** Every discovered command is the match of a single physical line of the help text. */
  lemma {:induction false} DiscoverCommandsPerLine(helpText: string, c: CommandInfo)
    requires c in DiscoverCommands(helpText)
    ensures exists i :: 0 <= i < |SplitLines(helpText)| && IsLine(SplitLines(helpText)[i]) && MatchCommandLine(SplitLines(helpText)[i]) == Some(c)
  {
    SplitLinesAreLines(helpText);
    DiscoverPerLine(SplitLines(helpText), IsCommandHeader, MatchCommandLine, CommandName, c);
  }

  /** Every discovered option is the match of a single physical line, so its flags are well-formed spellings. */
  lemma {:induction false} DiscoverOptionsPerLine(helpText: string, o: OptionInfo)
    requires o in DiscoverOptions(helpText)
    ensures exists i :: 0 <= i < |SplitLines(helpText)| && IsLine(SplitLines(helpText)[i]) && MatchOptionLine(SplitLines(helpText)[i]) == Some(o)
    ensures o.flags != [] && o.flags[0] == '-'
    ensures forall piece :: piece in SplitOn(o.flags, ',') ==> IsSpelling(Strip(piece))
  {
    var lines := SplitLines(helpText);
    SplitLinesAreLines(helpText);
    DiscoverPerLine(lines, IsOptionHeader, MatchOptionLine, OptionFlags, o);
    var i :| 0 <= i < |lines| && MatchOptionLine(lines[i]) == Some(o);
    MatchOptionLineSpellings(lines[i]);
  }
}
