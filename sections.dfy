/**
 * The managed region's body as an ordered map from CLI label to section
 * text: the heading that opens a section, the split of a body into
 * sections, and the merge of a new body into an existing one.
 */
module CliSections {
  import opened Wrappers
  import opened Text

  const HeadingPrefix: string := "## External CLI tools for `"

  predicate NoBacktick(s: string) {
    forall i :: 0 <= i < |s| ==> s[i] != '`'
  }

  /**
   * `CLI_HEADING_PATTERN.match(line.strip())`: the label between the
   * backticks, when the trimmed line is the prefix, a non-empty run without
   * backticks and a closing backtick.
   */
  function HeadingLabel(line: string): Option<string> {
    var s := Strip(line);
    var n := |HeadingPrefix|;
    if |s| >= n + 2 && s[..n] == HeadingPrefix && s[|s| - 1] == '`' && NoBacktick(s[n..|s| - 1])
    then Some(s[n..|s| - 1])
    else None
  }

  /** The heading pattern in both directions. */
  lemma {:induction false} HeadingLabelIff(line: string, cli: string)
    ensures HeadingLabel(line) == Some(cli)
      <==> cli != [] && NoBacktick(cli) && Strip(line) == HeadingPrefix + cli + "`"
  {
    var s := Strip(line);
    var n := |HeadingPrefix|;
    var t := HeadingPrefix + cli + "`";
    if s == t {
      assert s[..n] == HeadingPrefix;
      assert s[n..|s| - 1] == cli;
    }
    if HeadingLabel(line) == Some(cli) {
      assert s == s[..n] + s[n..|s| - 1] + [s[|s| - 1]];
    }
  }

  // ---------------------------------------------------------------------
  // _split_cli_sections

  /** The loop state of `_split_cli_sections`: the label order, the lines kept per label, the current label. */
  datatype SplitState = SplitState(order: seq<string>, sections: map<string, seq<string>>, current: Option<string>)

  const Start: SplitState := SplitState([], map[], None)

  /** What one line does to the loop state. */
  function SplitStep(st: SplitState, line: string): SplitState {
    match HeadingLabel(line)
    case Some(cli) =>
      var sections :=
        if st.current.Some? && st.current.value in st.sections
        then st.sections[st.current.value := st.sections[st.current.value] + [""]]
        else st.sections;
      var order := if cli in st.order then st.order else st.order + [cli];
      var body := if cli in sections then sections[cli] else [];
      SplitState(order, sections[cli := body + [line]], Some(cli))
    case None =>
      if st.current.Some? && st.current.value in st.sections
      then st.(sections := st.sections[st.current.value := st.sections[st.current.value] + [line]])
      else st
  }

  /** The loop state after scanning `lines` from `st`. */
  function SplitFrom(st: SplitState, lines: seq<string>): SplitState
    decreases |lines|
  {
    if lines == [] then st
    else SplitStep(SplitFrom(st, lines[..|lines| - 1]), lines[|lines| - 1])
  }

  /** The result of `_split_cli_sections`: the label order and each label's text. */
  datatype Sections = Sections(order: seq<string>, bodies: map<string, string>)

  /** `{k: "\n".join(v).strip() for k, v in sections.items()}`. */
  function Flatten(sections: map<string, seq<string>>): map<string, string> {
    map k | k in sections :: Strip(Join("\n", sections[k]))
  }

  /** The lines `_split_cli_sections` scans. */
  function BlockLines(block: string): seq<string> {
    if Strip(block) != [] then SplitLines(Strip(block)) else []
  }

  function SplitSections(block: string): Sections {
    var st := SplitFrom(Start, BlockLines(block));
    Sections(st.order, Flatten(st.sections))
  }

  method SplitCliSections(block: string) returns (r: Sections)
    ensures r == SplitSections(block)
  {
    var stripped := Strip(block);
    var lines := if stripped != [] then SplitLines(stripped) else [];
    var order: seq<string> := [];
    var sections: map<string, seq<string>> := map[];
    var current: Option<string> := None;
    for i := 0 to |lines|
      invariant SplitState(order, sections, current) == SplitFrom(Start, lines[..i])
    {
      assert lines[..i + 1][..i] == lines[..i];
      ghost var before := SplitState(order, sections, current);
      var line := lines[i];
      var heading := HeadingLabel(line);
      if heading.Some? {
        var cli := heading.value;
        if current.Some? && current.value in sections {
          sections := sections[current.value := sections[current.value] + [""]];
        }
        current := Some(cli);
        if cli !in order {
          order := order + [cli];
        }
        var body := if cli in sections then sections[cli] else [];
        sections := sections[cli := body + [line]];
        assert SplitState(order, sections, current) == SplitStep(before, line);
        continue;
      }
      if current.Some? && current.value in sections {
        sections := sections[current.value := sections[current.value] + [line]];
      }
      assert SplitState(order, sections, current) == SplitStep(before, line);
    }
    assert lines[..|lines|] == lines;
    var flattened := map k | k in sections :: Strip(Join("\n", sections[k]));
    r := Sections(order, flattened);
  }

  ghost predicate NoDuplicates(s: seq<string>) {
    forall a, b :: 0 <= a < b < |s| ==> s[a] != s[b]
  }

  /** The order lists each section once, and exactly the sections there are. */
  ghost predicate OrderMatchesKeys(order: seq<string>, keys: set<string>) {
    NoDuplicates(order) && (forall l :: l in order <==> l in keys)
  }

  /** What every loop state reached from the start satisfies. */
  ghost predicate SplitInvariant(st: SplitState) {
    OrderMatchesKeys(st.order, st.sections.Keys)
    && (st.current.Some? <==> st.order != [])
    && (st.current.Some? ==> st.current.value in st.sections)
  }

  lemma {:induction false} SplitStepKeepsInvariant(st: SplitState, line: string)
    requires SplitInvariant(st)
    ensures SplitInvariant(SplitStep(st, line))
  {
    match HeadingLabel(line)
    case Some(cli) =>
      var r := SplitStep(st, line);
      if cli !in st.order {
        forall a, b | 0 <= a < b < |r.order| ensures r.order[a] != r.order[b] {
          if b == |st.order| {
            assert r.order[a] == st.order[a];
          } else {
            assert r.order[a] == st.order[a] && r.order[b] == st.order[b];
          }
        }
      }
    case None =>
  }

  lemma {:induction false} SplitFromKeepsInvariant(st: SplitState, lines: seq<string>)
    requires SplitInvariant(st)
    decreases |lines|
    ensures SplitInvariant(SplitFrom(st, lines))
  {
    if lines != [] {
      SplitFromKeepsInvariant(st, lines[..|lines| - 1]);
      SplitStepKeepsInvariant(SplitFrom(st, lines[..|lines| - 1]), lines[|lines| - 1]);
    }
  }

  /** The split lists each label once, and its order holds exactly the labels that have a body. */
  lemma {:induction false} SplitSectionsOrder(block: string)
    ensures OrderMatchesKeys(SplitSections(block).order, SplitSections(block).bodies.Keys)
  {
    SplitFromKeepsInvariant(Start, BlockLines(block));
  }

  /** Scanning `a + b` is scanning `a`, then `b` from where `a` left off. */
  lemma {:induction false} SplitFromAppend(st: SplitState, a: seq<string>, b: seq<string>)
    decreases |b|
    ensures SplitFrom(st, a + b) == SplitFrom(SplitFrom(st, a), b)
  {
    if b == [] {
      assert a + b == a;
    } else {
      assert (a + b)[..|a + b| - 1] == a + b[..|b| - 1];
      SplitFromAppend(st, a, b[..|b| - 1]);
    }
  }

  /** Lines before the first heading leave no trace: the scan result is that of the lines from the first heading on. */
  lemma {:induction false} SplitIgnoresPreamble(lines: seq<string>, h: nat)
    requires h <= |lines| && forall j :: 0 <= j < h ==> HeadingLabel(lines[j]).None?
    ensures SplitFrom(Start, lines) == SplitFrom(Start, lines[h..])
  {
    PreambleIsIgnored(lines[..h]);
    assert lines == lines[..h] + lines[h..];
    SplitFromAppend(Start, lines[..h], lines[h..]);
  }

  lemma {:induction false} PreambleIsIgnored(pre: seq<string>)
    requires forall j :: 0 <= j < |pre| ==> HeadingLabel(pre[j]).None?
    decreases |pre|
    ensures SplitFrom(Start, pre) == Start
  {
    if pre != [] {
      PreambleIsIgnored(pre[..|pre| - 1]);
    }
  }

  /**
   * A heading line starts or extends its label's section: a new label is
   * appended to the order, a seen label keeps its place and its lines grow
   * by the heading. The section that was current first gains one empty
   * line (before the heading, when it is the heading's own label). No
   * other section changes.
   */
  lemma {:induction false} SplitStepHeading(st: SplitState, line: string, cli: string)
    requires SplitInvariant(st) && HeadingLabel(line) == Some(cli)
    ensures var r := SplitStep(st, line);
      && r.current == Some(cli)
      && r.order == (if cli in st.order then st.order else st.order + [cli])
      && cli in r.sections
      && (cli in st.sections && st.current != Some(cli) ==> r.sections[cli] == st.sections[cli] + [line])
      && (st.current == Some(cli) ==> r.sections[cli] == st.sections[cli] + ["", line])
      && (cli !in st.sections ==> r.sections[cli] == [line])
      && (st.current.Some? && st.current.value != cli ==>
            st.current.value in r.sections && r.sections[st.current.value] == st.sections[st.current.value] + [""])
      && forall k :: k in st.sections && k != cli && Some(k) != st.current ==> k in r.sections && r.sections[k] == st.sections[k]
  {
  }

  /** Any other line joins the current section, if there is one; nothing else changes. */
  lemma {:induction false} SplitStepBody(st: SplitState, line: string)
    requires SplitInvariant(st) && HeadingLabel(line).None?
    ensures var r := SplitStep(st, line);
      && r.order == st.order && r.current == st.current
      && r.sections.Keys == st.sections.Keys
      && (st.current.Some? ==> r.sections[st.current.value] == st.sections[st.current.value] + [line])
      && forall k :: k in st.sections && Some(k) != st.current ==> r.sections[k] == st.sections[k]
  {
  }

  /** Lines without a heading all join the current section, in order; nothing else changes. */
  lemma {:induction false} SplitFromBody(st: SplitState, lines: seq<string>)
    requires st.current.Some? && st.current.value in st.sections
    requires forall k :: 0 <= k < |lines| ==> HeadingLabel(lines[k]).None?
    decreases |lines|
    ensures SplitFrom(st, lines)
      == st.(sections := st.sections[st.current.value := st.sections[st.current.value] + lines])
  {
    var c := st.current.value;
    if lines == [] {
      assert st.sections[c] + lines == st.sections[c];
      assert st.sections[c := st.sections[c]] == st.sections;
    } else {
      var init := lines[..|lines| - 1];
      SplitFromBody(st, init);
      assert HeadingLabel(lines[|lines| - 1]).None?;
      assert lines == init + [lines[|lines| - 1]];
      assert st.sections[c] + init + [lines[|lines| - 1]] == st.sections[c] + lines;
    }
  }

  // ---------------------------------------------------------------------
  // _merge_tools_blocks

  /** The labels of `incoming` not in `order`, in `incoming`'s order. */
  function NewLabels(order: seq<string>, incoming: seq<string>): seq<string> {
    if incoming == [] then []
    else
      var last := incoming[|incoming| - 1];
      NewLabels(order, incoming[..|incoming| - 1]) + (if last in order then [] else [last])
  }

  /** The merge loop after the first `n` labels of `incoming.order`. */
  function MergeInto(existing: Sections, incoming: Sections, n: nat): Sections
    requires n <= |incoming.order| && forall l :: l in incoming.order ==> l in incoming.bodies
  {
    if n == 0 then existing
    else
      var prev := MergeInto(existing, incoming, n - 1);
      var cli := incoming.order[n - 1];
      Sections(
        if cli in prev.order then prev.order else prev.order + [cli],
        prev.bodies[cli := incoming.bodies[cli]])
  }

  /** `[sections[label].strip() for label in order if label in sections]`. */
  function OrderedBodies(order: seq<string>, bodies: map<string, string>): seq<string> {
    if order == [] then []
    else
      var cli := order[|order| - 1];
      OrderedBodies(order[..|order| - 1], bodies) + (if cli in bodies then [Strip(bodies[cli])] else [])
  }

  /** The merged sections of `existing` and `incoming`, each split first. */
  function Merged(existing: string, incoming: string): Sections {
    var e := SplitSections(existing);
    var n := SplitSections(incoming);
    SplitSectionsOrder(incoming);
    MergeInto(e, n, |n.order|)
  }

  /** `_merge_tools_blocks`: the merged sections joined by blank lines, stripped, with one final newline. */
  function MergeBlocks(existing: string, incoming: string): string {
    Strip(Join("\n\n", OrderedBodies(Merged(existing, incoming).order, Merged(existing, incoming).bodies))) + "\n"
  }

  method MergeToolsBlocks(existing: string, incoming: string) returns (r: string)
    ensures r == MergeBlocks(existing, incoming)
  {
    var e := SplitCliSections(existing);
    var n := SplitCliSections(incoming);
    SplitSectionsOrder(incoming);
    var m := MergeSections(e, n);
    r := Strip(Join("\n\n", OrderedBodies(m.order, m.bodies))) + "\n";
  }

  /** The loop of `_merge_tools_blocks`: each incoming label, in order, replaces or joins the existing sections. */
  method MergeSections(e: Sections, n: Sections) returns (m: Sections)
    requires forall l :: l in n.order ==> l in n.bodies
    ensures m == MergeInto(e, n, |n.order|)
  {
    var order := e.order;
    var sections := e.bodies;
    for i := 0 to |n.order|
      invariant Sections(order, sections) == MergeInto(e, n, i)
    {
      var cli := n.order[i];
      if cli !in order {
        order := order + [cli];
      }
      sections := sections[cli := n.bodies[cli]];
    }
    m := Sections(order, sections);
  }

  /** Existing labels keep their order and come first; new labels follow in the incoming order. */
  lemma {:induction false} MergeIntoOrder(existing: Sections, incoming: Sections, n: nat)
    requires n <= |incoming.order| && forall l :: l in incoming.order ==> l in incoming.bodies
    requires NoDuplicates(incoming.order)
    ensures MergeInto(existing, incoming, n).order == existing.order + NewLabels(existing.order, incoming.order[..n])
  {
    if n > 0 {
      MergeIntoOrder(existing, incoming, n - 1);
      var cli := incoming.order[n - 1];
      assert incoming.order[..n][..n - 1] == incoming.order[..n - 1];
      NewLabelsMembers(existing.order, incoming.order[..n - 1]);
      NotEarlier(incoming.order, n - 1);
    }
  }

  /** In a list without duplicates, an element does not occur before its position. */
  lemma {:induction false} NotEarlier(s: seq<string>, i: nat)
    requires NoDuplicates(s) && i < |s|
    ensures s[i] !in s[..i]
  {
    forall j | 0 <= j < i ensures s[..i][j] != s[i] {
      assert s[..i][j] == s[j];
    }
  }

  lemma {:induction false} NewLabelsMembers(order: seq<string>, incoming: seq<string>)
    ensures forall l :: l in NewLabels(order, incoming) <==> l in incoming && l !in order
  {
    if incoming != [] {
      NewLabelsMembers(order, incoming[..|incoming| - 1]);
      assert incoming == incoming[..|incoming| - 1] + [incoming[|incoming| - 1]];
    }
  }

  /** Merging into an order without repeats gives an order without repeats, holding exactly the merged labels. */
  lemma {:induction false} MergeIntoKeys(existing: Sections, incoming: Sections, n: nat)
    requires n <= |incoming.order| && forall l :: l in incoming.order ==> l in incoming.bodies
    requires OrderMatchesKeys(existing.order, existing.bodies.Keys)
    ensures OrderMatchesKeys(MergeInto(existing, incoming, n).order, MergeInto(existing, incoming, n).bodies.Keys)
  {
    if n > 0 {
      MergeIntoKeys(existing, incoming, n - 1);
      var prev := MergeInto(existing, incoming, n - 1);
      var cli := incoming.order[n - 1];
      if cli !in prev.order {
        var o := prev.order + [cli];
        forall a, b | 0 <= a < b < |o| ensures o[a] != o[b] {
          if b == |prev.order| {
            assert o[a] == prev.order[a];
          } else {
            assert o[a] == prev.order[a] && o[b] == prev.order[b];
          }
        }
      }
    }
  }

  /** Every incoming label takes the incoming body; every other existing label keeps its body. */
  lemma {:induction false} MergeIntoBodies(existing: Sections, incoming: Sections, n: nat)
    requires n <= |incoming.order| && forall l :: l in incoming.order ==> l in incoming.bodies
    ensures var m := MergeInto(existing, incoming, n);
      && (forall l :: l in m.bodies <==> l in existing.bodies || l in incoming.order[..n])
      && (forall l :: l in incoming.order[..n] ==> m.bodies[l] == incoming.bodies[l])
      && (forall l :: l in existing.bodies && l !in incoming.order[..n] ==> m.bodies[l] == existing.bodies[l])
  {
    MergeIntoDomain(existing, incoming, n);
    MergeIntoTaken(existing, incoming, n);
    MergeIntoKept(existing, incoming, n);
  }

  lemma {:induction false} MergeIntoDomain(existing: Sections, incoming: Sections, n: nat)
    requires n <= |incoming.order| && forall l :: l in incoming.order ==> l in incoming.bodies
    ensures forall l :: l in MergeInto(existing, incoming, n).bodies <==> l in existing.bodies || l in incoming.order[..n]
  {
    if n > 0 {
      MergeIntoDomain(existing, incoming, n - 1);
      assert incoming.order[..n] == incoming.order[..n - 1] + [incoming.order[n - 1]];
    }
  }

  lemma {:induction false} MergeIntoTaken(existing: Sections, incoming: Sections, n: nat)
    requires n <= |incoming.order| && forall l :: l in incoming.order ==> l in incoming.bodies
    ensures forall l :: l in incoming.order[..n] ==>
      l in MergeInto(existing, incoming, n).bodies && MergeInto(existing, incoming, n).bodies[l] == incoming.bodies[l]
  {
    if n > 0 {
      MergeIntoTaken(existing, incoming, n - 1);
      assert incoming.order[..n] == incoming.order[..n - 1] + [incoming.order[n - 1]];
    }
  }

  lemma {:induction false} MergeIntoKept(existing: Sections, incoming: Sections, n: nat)
    requires n <= |incoming.order| && forall l :: l in incoming.order ==> l in incoming.bodies
    ensures forall l :: l in existing.bodies && l !in incoming.order[..n] ==>
      l in MergeInto(existing, incoming, n).bodies && MergeInto(existing, incoming, n).bodies[l] == existing.bodies[l]
  {
    if n > 0 {
      MergeIntoKept(existing, incoming, n - 1);
      assert incoming.order[..n] == incoming.order[..n - 1] + [incoming.order[n - 1]];
    }
  }

  /** The merge of two well-formed splits: order, uniqueness and bodies. */
  lemma {:induction false} MergeIntoSpec(e: Sections, n: Sections)
    requires OrderMatchesKeys(e.order, e.bodies.Keys) && OrderMatchesKeys(n.order, n.bodies.Keys)
    ensures MergeInto(e, n, |n.order|).order == e.order + NewLabels(e.order, n.order)
    ensures OrderMatchesKeys(MergeInto(e, n, |n.order|).order, MergeInto(e, n, |n.order|).bodies.Keys)
    ensures forall l :: l in n.order ==>
      (l in MergeInto(e, n, |n.order|).bodies && MergeInto(e, n, |n.order|).bodies[l] == n.bodies[l])
    ensures forall l :: l in e.order && l !in n.order ==>
      (l in MergeInto(e, n, |n.order|).bodies && MergeInto(e, n, |n.order|).bodies[l] == e.bodies[l])
  {
    assert n.order[..|n.order|] == n.order;
    MergeIntoOrder(e, n, |n.order|);
    MergeIntoKeys(e, n, |n.order|);
    MergeIntoBodies(e, n, |n.order|);
  }

}
