/**
 * `inject_tools_section` given a block written by `render_tools_section`.
 * The merge replaces the rendered CLI's section and keeps every other
 * section; a document that already ends with the rendered block is kept as
 * it is; and a document without markers stops changing after the second
 * injection of the same block, or after the first with the kept text
 * right-stripped (`InjectTrimmed`).
 */
module Reinjection {
  import opened Wrappers
  import opened Text
  import opened Types
  import opened CliSections
  import opened ToolsRegion
  import opened Render
  import opened BlockReadBack

  /** The lines of one section of `cli`: its heading first, and no heading after it. */
  ghost predicate OneHeading(cli: string, lines: seq<string>) {
    && lines != [] && HeadingLabel(lines[0]) == Some(cli)
    && forall k :: 1 <= k < |lines| ==> HeadingLabel(lines[k]).None?
  }

  /**
   * `body` is the text of one section of `cli`, as a region holds it: stripped,
   * free of the end marker, a heading for `cli` followed by lines that are no
   * heading, and splitting into that single section.
   */
  ghost predicate SectionBody(cli: string, body: string) {
    && body != [] && Stripped(body) && !Contains(body, ToolsEnd)
    && OneHeading(cli, SplitLines(body))
    && SplitSections(body) == Sections([cli], map[cli := body])
  }

  /** `block` is the region around `body`, and `body` is one section of `cli`. */
  ghost predicate ReadsBack(cli: string, block: string, body: string) {
    SectionBody(cli, body) && block == Region(body)
  }

  /** A rendered block is the region around its body lines, which split into the one section of the CLI. */
  lemma {:induction false} RenderedReadsBack(cli: string, commands: seq<CommandInfo>, options: Option<seq<OptionInfo>>,
                                             helpExcerpt: Option<string>, fullHelpPath: Option<string>,
                                             helpPathDisplay: Option<string>, truncated: bool)
    requires QuietRendering(cli, commands, options, helpExcerpt, fullHelpPath, helpPathDisplay, truncated)
    ensures ReadsBack(cli, Rendered(cli, commands, options, helpExcerpt, fullHelpPath, helpPathDisplay, truncated),
                      Join("\n", BodyLines(cli, commands, options, helpExcerpt, fullHelpPath, helpPathDisplay, truncated)))
  {
    var block := Rendered(cli, commands, options, helpExcerpt, fullHelpPath, helpPathDisplay, truncated);
    var rest := RestLines(cli, commands, options, helpExcerpt, fullHelpPath, helpPathDisplay, truncated);
    RestEnds(cli, commands, options, helpExcerpt, fullHelpPath, helpPathDisplay, truncated);
    RenderFraming(cli, commands, options, helpExcerpt, fullHelpPath, helpPathDisplay, truncated);
    QuietReadsBack(cli, rest, block);
  }

  /** The region around a heading for `cli` and quiet lines up to the closing note reads back as one section of `cli`. */
  lemma {:induction false} QuietReadsBack(cli: string, rest: seq<string>, block: string)
    requires cli != [] && NoBacktick(cli) && PlainText(cli)
    requires AllQuiet(rest) && rest != [] && rest[|rest| - 1] == NotesLine(cli)
    requires block == Region(Join("\n", [HeadingLine(cli)] + rest))
    ensures ReadsBack(cli, block, Join("\n", [HeadingLine(cli)] + rest))
  {
    var body := Join("\n", [HeadingLine(cli)] + rest);
    ReadBackOf(cli, rest, block);
    BodyTextShape(cli, rest);
    QuietOneHeading(cli, rest);
    HeadingShape(cli);
    JoinFirst([HeadingLine(cli)] + rest);
  }

  /** A heading for `cli` and quiet lines after it, up to the closing note, are one section of `cli`. */
  lemma {:induction false} QuietOneHeading(cli: string, rest: seq<string>)
    requires cli != [] && NoBacktick(cli) && PlainText(cli)
    requires AllQuiet(rest) && rest != [] && rest[|rest| - 1] == NotesLine(cli)
    ensures OneHeading(cli, SplitLines(Join("\n", [HeadingLine(cli)] + rest)))
  {
    var body := Join("\n", [HeadingLine(cli)] + rest);
    BodyTextShape(cli, rest);
    BodyLinesShape(cli, rest);
    HeadingShape(cli);
    StripStripped(body);
  }

  /** The inner text of a block that reads back is its body, whatever the fallback. */
  lemma {:induction false} ReadsBackInner(cli: string, block: string, body: string, fallback: string)
    requires ReadsBack(cli, block, body)
    ensures StripOuterToolsMarkers(block, fallback) == body
  {
    RegionReadBack(body);
  }

  // ---------------------------------------------------------------------
  // The merge with a single-section block

  /**
   * Merging a block that is the single section of `cli` gives that label its
   * new body, keeps every other label and body, and appends `cli` to the
   * order only when it was not there.
   */
  lemma {:induction false} MergeSingle(existing: string, cli: string, body: string)
    requires SplitSections(body) == Sections([cli], map[cli := body])
    ensures var e := SplitSections(existing);
      Merged(existing, body)
        == Sections(if cli in e.order then e.order else e.order + [cli], e.bodies[cli := body])
  {
    var n := SplitSections(body);
    assert MergeInto(SplitSections(existing), n, 0) == SplitSections(existing);
  }

  /** A block holding only the section of `cli` is replaced outright by the incoming section of `cli`. */
  lemma {:induction false} MergeReplacesOnly(existing: string, cli: string, body: string)
    requires SplitSections(existing).order == [cli]
    requires SplitSections(body) == Sections([cli], map[cli := body]) && Stripped(body)
    ensures MergeBlocks(existing, body) == body + "\n"
  {
    MergeSingle(existing, cli, body);
    var m := Merged(existing, body);
    assert m.order == [cli] && cli in m.bodies && m.bodies[cli] == body;
    assert m.order[..0] == [];
    StripStripped(body);
    assert OrderedBodies(m.order, m.bodies) == [body];
  }

  /**
   * A block holding only the section of `other` keeps that section, and the
   * incoming section of `cli` follows it after a blank line.
   */
  lemma {:induction false} MergeAddsSection(existing: string, other: string, cli: string, body: string)
    requires SplitSections(existing) == Sections([other], map[other := existing])
    requires existing != [] && Stripped(existing) && other != cli
    requires SplitSections(body) == Sections([cli], map[cli := body]) && body != [] && Stripped(body)
    ensures MergeBlocks(existing, body) == existing + "\n\n" + body + "\n"
  {
    MergeSingle(existing, cli, body);
    var m := Merged(existing, body);
    assert m.order == [other, cli];
    OrderedPair(other, cli, m.bodies);
    StripStripped(existing);
    StripStripped(body);
    JoinPair(existing, body);
    StrippedAround(existing, "\n\n", body);
    StripStripped(existing + "\n\n" + body);
  }

  /** The merged bodies of two labels, in order. */
  lemma {:induction false} OrderedPair(a: string, b: string, bodies: map<string, string>)
    requires a in bodies && b in bodies
    ensures OrderedBodies([a, b], bodies) == [Strip(bodies[a]), Strip(bodies[b])]
  {
    assert [a, b][..1] == [a] && [a][..0] == [];
    assert OrderedBodies([a], bodies) == OrderedBodies([], bodies) + [Strip(bodies[a])];
    assert OrderedBodies([a, b], bodies) == OrderedBodies([a], bodies) + [Strip(bodies[b])];
  }

  lemma {:induction false} JoinPair(x: string, y: string)
    ensures Join("\n\n", [x, y]) == x + "\n\n" + y
  {
    assert [x, y][1..] == [y];
  }

  /** A stripped text with a newline appended strips back to itself. */
  lemma {:induction false} StripNewlineAfter(s: string)
    requires Stripped(s)
    ensures Strip(s + "\n") == s
  {
    assert AllSpace([]) && AllSpace("\n");
    StripPadded([], s, "\n");
    assert [] + s + "\n" == s + "\n";
    StripStripped(s);
  }

  /** Stripped, non-empty ends keep a text stripped whatever lies between them. */
  lemma {:induction false} StrippedAround(x: string, sep: string, y: string)
    requires x != [] && y != [] && Stripped(x) && Stripped(y)
    ensures Stripped(x + sep + y)
  {
    var s := x + sep + y;
    assert s[0] == x[0] && s[|s| - 1] == y[|y| - 1];
  }

  // ---------------------------------------------------------------------
  // Injecting a rendered block

  /**
   * A document without markers keeps its text, less leading newlines, and
   * the rendered block follows it unchanged, after a blank line when the
   * document has any text.
   */
  lemma {:induction false} InjectIntoUnmarkedKeepsBlock(content: string, cli: string, block: string, body: string)
    requires ReadsBack(cli, block, body)
    requires !Contains(content, ToolsStart) && !Contains(content, ToolsEnd)
    ensures InjectToolsSection(content, block) == LStripNewlines(content) + Separator(Strip(content)) + block
  {
    ReadsBackInner(cli, block, body, Strip(content));
    InjectIntoUnmarked(content, block);
    StripStripped(body);
  }

  /**
   * A document whose first region holds only the section of `cli` loses
   * that region, and the rendered block takes its place at the end of what
   * remains.
   */
  lemma {:induction false} InjectReplacesSection(pre: string, mid: string, post: string, cli: string, block: string, body: string)
    requires ReadsBack(cli, block, body)
    requires !Contains(pre, ToolsStart) && !Contains(mid, ToolsEnd)
    requires SplitSections(Strip(mid)).order == [cli]
    ensures var rest := RStrip(pre + RemoveRegions(post));
      InjectToolsSection(pre + ToolsStart + mid + ToolsEnd + post, block) == rest + Separator(rest) + block
  {
    var content := pre + ToolsStart + mid + ToolsEnd + post;
    InjectReplacesRegion(pre, mid, post, block);
    ReadsBackInner(cli, block, body, Strip(content));
    MergeReplacesOnly(Strip(mid), cli, body);
    StripNewlineAfter(body);
  }

  /**
   * A document whose first region holds only the section of another CLI
   * keeps that section, and the rendered section follows it, after a blank
   * line, in the one region at the end.
   */
  lemma {:induction false} InjectAddsSection(pre: string, mid: string, post: string, other: string, cli: string,
                                             block: string, body: string)
    requires ReadsBack(cli, block, body) && other != cli
    requires !Contains(pre, ToolsStart) && !Contains(mid, ToolsEnd)
    requires Strip(mid) != [] && SplitSections(Strip(mid)) == Sections([other], map[other := Strip(mid)])
    ensures var rest := RStrip(pre + RemoveRegions(post));
      InjectToolsSection(pre + ToolsStart + mid + ToolsEnd + post, block)
        == rest + Separator(rest) + Region(Strip(mid) + "\n\n" + body)
  {
    var content := pre + ToolsStart + mid + ToolsEnd + post;
    var kept := Strip(mid);
    InjectReplacesRegion(pre, mid, post, block);
    ReadsBackInner(cli, block, body, Strip(content));
    StripSpec(mid);
    MergeAddsSection(kept, other, cli, body);
    StrippedAround(kept, "\n\n", body);
    StripNewlineAfter(kept + "\n\n" + body);
  }

  // ---------------------------------------------------------------------
  // Injecting the same block again

  /** Appending "\n\n" or nothing creates no marker. */
  lemma {:induction false} SeparatorNotContains(x: string, text: string, w: string)
    requires w != [] && IsLine(w) && !Contains(x, w)
    ensures !Contains(x + Separator(text), w)
  {
    if text != [] {
      var parts := [x, "", ""];
      assert !Contains("", w);
      JoinNotContains(parts, w);
      JoinCons("\n", x, ["", ""]);
      JoinCons("\n", "", [""]);
      assert [x] + ["", ""] == parts;
      assert x + "\n" + ("" + "\n" + "") == x + Separator(text);
    } else {
      assert x + Separator(text) == x;
    }
  }

  /** `rstrip` leaves text that `rstrip` keeps as it is. */
  lemma {:induction false} RStripTwice(s: string)
    ensures RStrip(RStrip(s)) == RStrip(s)
  {
    RStripSpec(s);
  }

  /** The region around `body`, cut at its markers. */
  lemma {:induction false} RegionParts(pre: string, body: string)
    ensures pre + Region(body) == pre + ToolsStart + ("\n" + body + "\n") + ToolsEnd + "\n"
  {
  }

  /** Padding a stripped body with a newline on each side and stripping it again gives the body. */
  lemma {:induction false} StripNewlinePadded(body: string)
    requires Stripped(body)
    ensures Strip("\n" + body + "\n") == body
  {
    assert AllSpace("\n");
    StripPadded("\n", body, "\n");
    StripStripped(body);
  }

  /**
   * Text without a start marker followed by the rendered block: injecting
   * the block keeps the text, less trailing whitespace, and the block.
   */
  lemma {:induction false} InjectAfterText(pre: string, cli: string, block: string, body: string)
    requires ReadsBack(cli, block, body)
    requires !Contains(pre, ToolsStart)
    ensures InjectToolsSection(pre + block, block) == RStrip(pre) + Separator(RStrip(pre)) + block
  {
    MarkersShaped();
    var mid := "\n" + body + "\n";
    RegionParts(pre, body);
    PaddedNotContains(body, ToolsEnd);
    StripNewlinePadded(body);
    InjectReplacesSection(pre, mid, "\n", cli, block, body);
    NoAngleNoMarker("\n", ToolsStart);
    RemoveNoRegion("\n");
    assert AllSpace("\n");
    RStripPadded(pre, "\n");
  }

  /**
   * A text that `rstrip` keeps, without a start marker, followed by its
   * separator and the rendered block, is a fixpoint of injecting that block.
   */
  lemma {:induction false} InjectFixpoint(rest: string, cli: string, block: string, body: string)
    requires ReadsBack(cli, block, body)
    requires RStrip(rest) == rest && !Contains(rest, ToolsStart)
    ensures InjectToolsSection(rest + Separator(rest) + block, block) == rest + Separator(rest) + block
  {
    Separated(rest, rest);
    InjectAfterText(rest + Separator(rest), cli, block, body);
  }

  /** A separator after text without a start marker adds no marker and only trailing whitespace. */
  lemma {:induction false} Separated(x: string, text: string)
    requires !Contains(x, ToolsStart)
    ensures !Contains(x + Separator(text), ToolsStart) && RStrip(x + Separator(text)) == RStrip(x)
  {
    MarkersShaped();
    SeparatorNotContains(x, text, ToolsStart);
    assert AllSpace(Separator(text));
    RStripPadded(x, Separator(text));
  }

  /** `lstrip("\n")` leaves a suffix. */
  lemma {:induction false} LStripNewlinesSuffix(s: string)
    ensures |LStripNewlines(s)| <= |s| && LStripNewlines(s) == s[|s| - |LStripNewlines(s)|..]
  {
    if s != [] && s[0] == '\n' {
      LStripNewlinesSuffix(s[1..]);
    }
  }

  /** What `lstrip("\n")` and `rstrip` leave of a text without `w` is without `w`. */
  lemma {:induction false} TrimmedNotContains(s: string, w: string)
    requires !Contains(s, w)
    ensures !Contains(LStripNewlines(s), w) && !Contains(RStrip(LStripNewlines(s)), w)
  {
    var l := LStripNewlines(s);
    LStripNewlinesSuffix(s);
    SliceNotContains(s, w, |s| - |l|, |s|);
    assert s[|s| - |l|..|s|] == l;
    RStripSpec(l);
    SliceNotContains(l, w, 0, |RStrip(l)|);
  }

  /**
   * Injecting a rendered block into a document without markers, then
   * injecting it again, gives the document's text with surrounding
   * whitespace trimmed, then the block.
   */
  lemma {:induction false} InjectTwice(content: string, cli: string, block: string, body: string)
    requires ReadsBack(cli, block, body)
    requires !Contains(content, ToolsStart) && !Contains(content, ToolsEnd)
    ensures var rest := RStrip(LStripNewlines(content));
      InjectToolsSection(InjectToolsSection(content, block), block) == rest + Separator(rest) + block
  {
    var l := LStripNewlines(content);
    InjectIntoUnmarkedKeepsBlock(content, cli, block, body);
    TrimmedNotContains(content, ToolsStart);
    Separated(l, Strip(content));
    InjectAfterText(l + Separator(Strip(content)), cli, block, body);
  }

  /** From the second injection of a rendered block on, the document no longer changes. */
  lemma {:induction false} InjectSettles(content: string, cli: string, block: string, body: string)
    requires ReadsBack(cli, block, body)
    requires !Contains(content, ToolsStart) && !Contains(content, ToolsEnd)
    ensures var twice := InjectToolsSection(InjectToolsSection(content, block), block);
      InjectToolsSection(twice, block) == twice
  {
    InjectTwice(content, cli, block, body);
    TrimmedNotContains(content, ToolsStart);
    RStripTwice(LStripNewlines(content));
    InjectFixpoint(RStrip(LStripNewlines(content)), cli, block, body);
  }

  // ---------------------------------------------------------------------
  // The corrected injection

  /** `strip` ignores what `rstrip` removes. */
  lemma {:induction false} StripOfRStrip(s: string)
    ensures Strip(RStrip(s)) == Strip(s)
  {
    RStripSpec(s);
    var t := s[|RStrip(s)|..];
    assert "" + RStrip(s) + t == s;
    StripPadded("", RStrip(s), t);
  }

  /** Text that strips to nothing is whitespace only, and `rstrip` removes all of it. */
  lemma {:induction false} BlankRStrip(s: string)
    requires Strip(s) == []
    ensures RStrip(s) == []
  {
    StripSpec(s);
    var a, b :| 0 <= a <= b <= |s| && Strip(s) == s[a..b] && AllSpace(s[..a]) && AllSpace(s[b..]);
    assert AllSpace(s) by {
      forall i | 0 <= i < |s| ensures IsSpace(s[i]) {
        if i < a {
          assert s[..a][i] == s[i];
        } else {
          assert s[b..][i - b] == s[i];
        }
      }
    }
    RStripPadded("", s);
    assert "" + s == s;
  }

  /**
   * The text the corrected function keeps before the region: `rstrip` keeps
   * it, it is empty exactly when the document strips to nothing, and it has
   * a start marker only if the document has one.
   */
  lemma {:induction false} TrimmedText(c: string)
    ensures var t := LStripNewlines(RStrip(c));
      && RStrip(t) == t
      && Separator(Strip(c)) == Separator(t)
      && (!Contains(c, ToolsStart) ==> !Contains(t, ToolsStart))
  {
    var r := RStrip(c);
    var t := LStripNewlines(r);
    RStripSpec(c);
    LStripNewlinesSuffix(r);
    if t != [] {
      assert t[|t| - 1] == r[|r| - 1];
    }
    StripOfRStrip(c);
    if Strip(c) != [] {
      LStripNewlinesKeepsText(r);
    } else {
      BlankRStrip(c);
    }
    if !Contains(c, ToolsStart) {
      SliceNotContains(c, ToolsStart, 0, |r|);
      assert c[0..|r|] == r;
      SliceNotContains(r, ToolsStart, |r| - |t|, |r|);
      assert r[|r| - |t|..|r|] == t;
    }
  }

  /** A region at the end of a text puts both markers in it. */
  lemma {:induction false} RegionHasMarkers(x: string, body: string)
    ensures Contains(x + Region(body), ToolsStart) && Contains(x + Region(body), ToolsEnd)
  {
    var s := x + Region(body);
    assert s[|x|..|x| + |ToolsStart|] == ToolsStart;
    ContainsAt(s, ToolsStart, |x|);
    var e := |x| + |ToolsStart| + 1 + |body| + 1;
    assert s[e..e + |ToolsEnd|] == ToolsEnd;
    ContainsAt(s, ToolsEnd, e);
  }

  /**
   * The corrected function puts a rendered block after the text of an
   * unmarked document, less leading newlines and trailing whitespace.
   */
  lemma {:induction false} InjectTrimmedUnmarked(content: string, cli: string, block: string, body: string)
    requires ReadsBack(cli, block, body)
    requires !Contains(content, ToolsStart) && !Contains(content, ToolsEnd)
    ensures var t := LStripNewlines(RStrip(content));
      InjectTrimmed(content, block) == t + Separator(t) + block
  {
    ReadsBackInner(cli, block, body, Strip(content));
    StripStripped(body);
    RegionStartsWithMarker(body);
    StripOfRStrip(content);
    LStripBeforeMarker(RStrip(content), Separator(Strip(content)), block);
    TrimmedText(content);
  }

  /** With the correction, injecting the same block once more leaves the document unchanged. */
  lemma {:induction false} InjectTrimmedIdempotent(content: string, cli: string, block: string, body: string)
    requires ReadsBack(cli, block, body)
    requires !Contains(content, ToolsStart) && !Contains(content, ToolsEnd)
    ensures var once := InjectTrimmed(content, block);
      InjectTrimmed(once, block) == once
  {
    var t := LStripNewlines(RStrip(content));
    InjectTrimmedUnmarked(content, cli, block, body);
    TrimmedText(content);
    RegionHasMarkers(t + Separator(t), body);
    InjectFixpoint(t, cli, block, body);
  }

  /** The rendered block settles as `InjectSettles` says. */
  lemma {:induction false} InjectRenderedSettles(content: string, cli: string, commands: seq<CommandInfo>,
                                                 options: Option<seq<OptionInfo>>, helpExcerpt: Option<string>,
                                                 fullHelpPath: Option<string>, helpPathDisplay: Option<string>,
                                                 truncated: bool)
    requires QuietRendering(cli, commands, options, helpExcerpt, fullHelpPath, helpPathDisplay, truncated)
    requires !Contains(content, ToolsStart) && !Contains(content, ToolsEnd)
    ensures var block := Rendered(cli, commands, options, helpExcerpt, fullHelpPath, helpPathDisplay, truncated);
      var twice := InjectToolsSection(InjectToolsSection(content, block), block);
      InjectToolsSection(twice, block) == twice
  {
    RenderedReadsBack(cli, commands, options, helpExcerpt, fullHelpPath, helpPathDisplay, truncated);
    InjectSettles(content, cli, Rendered(cli, commands, options, helpExcerpt, fullHelpPath, helpPathDisplay, truncated),
                  Join("\n", BodyLines(cli, commands, options, helpExcerpt, fullHelpPath, helpPathDisplay, truncated)));
  }
}
