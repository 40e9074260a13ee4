/**
 * Reading back what `render_tools_section` writes, the way
 * `inject_tools_section` reads an existing document: the inner text of the
 * rendered block, split into CLI sections, is a single section labelled by
 * the CLI whose text is everything between the two marker lines.
 */
module BlockReadBack {
  import opened Wrappers
  import opened Text
  import opened Types
  import opened CliSections
  import opened ToolsRegion
  import opened Render

  /** A field the block can carry verbatim: one line, and no '<' that could open a marker. */
  predicate PlainText(s: string) {
    IsLine(s) && NoAngle(s)
  }

  /** Printable ASCII other than '<': a cheap way to see that a literal is plain. */
  predicate PlainAscii(s: string) {
    forall i :: 0 <= i < |s| ==> ' ' <= s[i] <= '~' && s[i] != '<'
  }

  lemma {:induction false} PlainLiteral(s: string)
    requires PlainAscii(s)
    ensures PlainText(s)
  {
  }

  /** No line of `s` is a CLI heading. */
  ghost predicate NoHeadingLines(s: string) {
    forall l :: l in LinesOf(s) ==> HeadingLabel(l).None?
  }

  /**
   * A part of the body that cannot disturb the read-back: it does not end
   * with a break, breaks its lines only with "\n", holds no end marker, and
   * none of its lines is a heading.
   */
  ghost predicate QuietPart(p: string) {
    NoTrailingBreak(p) && OnlyNewlineBreaks(p) && !Contains(p, ToolsEnd) && NoHeadingLines(p)
  }

  ghost predicate AllQuiet(parts: seq<string>) {
    forall k :: 0 <= k < |parts| ==> QuietPart(parts[k])
  }

  /**
   * What the read-back needs of the renderer's inputs: a label without
   * backticks, fields that are plain lines, and an excerpt that breaks its
   * lines with "\n", holds no end marker and no heading line.
   */
  ghost predicate ReadableInputs(cli: string, commands: seq<CommandInfo>, options: Option<seq<OptionInfo>>,
                                 helpExcerpt: Option<string>, pathLabel: Option<string>)
  {
    && cli != [] && NoBacktick(cli) && PlainText(cli)
    && (forall c :: c in commands ==> PlainText(c.name) && PlainText(c.description))
    && (forall o :: o in OptionList(options) ==> PlainText(o.flags) && PlainText(o.description))
    && (pathLabel.Some? ==> PlainText(pathLabel.value))
    && (Truthy(helpExcerpt) ==>
          var e := Strip(helpExcerpt.value);
          OnlyNewlineBreaks(e) && !Contains(e, ToolsEnd) && NoHeadingLines(e))
  }

  /**
   * What the read-back needs of a rendering, line by line: a non-empty label
   * that is a single line without '<' or backticks, and lines after the
   * heading that are all quiet. `ReadableInputs` is one way to meet it.
   */
  ghost predicate QuietRendering(cli: string, commands: seq<CommandInfo>, options: Option<seq<OptionInfo>>,
                                 helpExcerpt: Option<string>, fullHelpPath: Option<string>,
                                 helpPathDisplay: Option<string>, truncated: bool)
  {
    && cli != [] && NoBacktick(cli) && PlainText(cli)
    && AllQuiet(RestLines(cli, commands, options, helpExcerpt, fullHelpPath, helpPathDisplay, truncated))
  }

  // ---------------------------------------------------------------------
  // Single lines

  lemma {:induction false} AppendKeeps(a: string, b: string)
    ensures IsLine(a) && IsLine(b) ==> IsLine(a + b)
    ensures NoAngle(a) && NoAngle(b) ==> NoAngle(a + b)
  {
    if IsLine(a) && IsLine(b) {
      forall i | 0 <= i < |a + b| ensures !IsLineBreak((a + b)[i]) {
        if i >= |a| {
          assert (a + b)[i] == b[i - |a|];
        }
      }
    }
    if NoAngle(a) && NoAngle(b) {
      forall i | 0 <= i < |a + b| ensures (a + b)[i] != '<' {
        if i >= |a| {
          assert (a + b)[i] == b[i - |a|];
        }
      }
    }
  }

  lemma {:induction false} PlainAppend(a: string, b: string)
    requires PlainText(a) && PlainText(b)
    ensures PlainText(a + b)
  {
    AppendKeeps(a, b);
  }

  /** A line is no heading when, past a first character that is not whitespace, it departs from the heading prefix. */
  lemma {:induction false} NotHeadingAt(l: string, i: nat)
    requires l != [] && !IsSpace(l[0]) && i < |HeadingPrefix| && i < |l| && l[i] != HeadingPrefix[i]
    ensures HeadingLabel(l).None?
  {
    assert LStrip(l) == l;
    RStripSpec(l);
    var s := Strip(l);
    if |s| >= |HeadingPrefix| + 2 {
      assert s[i] == l[i];
      assert s[..|HeadingPrefix|][i] == s[i];
    }
  }

  lemma {:induction false} PlainNoEnd(l: string)
    requires NoAngle(l)
    ensures !Contains(l, ToolsEnd)
  {
    MarkersShaped();
    NoAngleNoMarker(l, ToolsEnd);
  }

  lemma {:induction false} LineQuiet(l: string)
    requires IsLine(l) && !Contains(l, ToolsEnd) && HeadingLabel(l).None?
    ensures QuietPart(l)
  {
    if l == [] {
      assert LinesOf(l) == [""];
      assert Strip("") == "";
    } else {
      SplitLinesOfLine(l);
      assert LinesOf(l) == [l];
    }
  }

  /** A plain line that opens with neither whitespace nor '#'. */
  lemma {:induction false} PlainStartQuiet(l: string)
    requires PlainText(l) && l != [] && !IsSpace(l[0]) && l[0] != '#'
    ensures QuietPart(l)
  {
    NotHeadingAt(l, 0);
    PlainNoEnd(l);
    LineQuiet(l);
  }

  lemma {:induction false} EmptyQuiet()
    ensures QuietPart("")
  {
    assert Strip("") == "";
    LineQuiet("");
  }

  lemma {:induction false} IntroQuiet(cli: string)
    requires PlainText(cli)
    ensures QuietPart(IntroLine(cli))
  {
    IntroPieces();
    PlainAppend("When interaction with `", cli);
    PlainAppend("When interaction with `" + cli, IntroTail);
    PlainStartQuiet(IntroLine(cli));
  }

  lemma {:induction false} IntroPieces()
    ensures PlainText("When interaction with `") && PlainText(IntroTail)
  {
    PlainLiteral("When interaction with `");
    IntroTailPlain();
  }

  lemma {:induction false} IntroTailPlain()
    ensures PlainText(IntroTail)
  {
    PlainLiteral("` is required, you can ");
    PlainLiteral("utilize the following tools:");
    PlainAppend("` is required, you can ", "utilize the following tools:");
  }

  /** `### name` opens with '#', but its third character is not the prefix's space. */
  lemma {:induction false} CommandHeadingQuiet(name: string)
    requires PlainText(name)
    ensures QuietPart("### " + name)
  {
    var l := "### " + name;
    PlainLiteral("### ");
    PlainAppend("### ", name);
    assert l[2] == '#' && HeadingPrefix[2] == ' ';
    NotHeadingAt(l, 2);
    PlainNoEnd(l);
    LineQuiet(l);
  }

  lemma {:induction false} DescriptionQuiet(description: string)
    requires PlainText(description)
    ensures QuietPart("Description: " + description)
  {
    PlainLiteral("Description: ");
    PlainAppend("Description: ", description);
    PlainStartQuiet("Description: " + description);
  }

  lemma {:induction false} InvocationQuiet(cli: string, name: string)
    requires PlainText(cli) && PlainText(name)
    ensures QuietPart("Invocation: `" + cli + " " + name + " ...`")
  {
    PlainLiteral("Invocation: `");
    PlainLiteral(" ");
    PlainLiteral(" ...`");
    PlainAppend("Invocation: `", cli);
    PlainAppend("Invocation: `" + cli, " ");
    PlainAppend("Invocation: `" + cli + " ", name);
    PlainAppend("Invocation: `" + cli + " " + name, " ...`");
    PlainStartQuiet("Invocation: `" + cli + " " + name + " ...`");
  }

  lemma {:induction false} OptionQuiet(option: OptionInfo)
    requires PlainText(option.flags) && PlainText(option.description)
    ensures QuietPart(OptionLine(option))
  {
    var a := "- `" + option.flags;
    PlainLiteral("- `");
    PlainLiteral("`");
    assert PlainText("` \U{2014} ");
    PlainAppend("- `", option.flags);
    if option.description != "" {
      PlainAppend(a, "` \U{2014} ");
      PlainAppend(a + "` \U{2014} ", option.description);
    } else {
      PlainAppend(a, "`");
    }
    PlainStartQuiet(OptionLine(option));
  }

  /** A saved-help line: a literal opening with 'F', the label, and a closing literal. */
  lemma {:induction false} SavedAtQuiet(a: string, path: string, b: string)
    requires PlainText(a) && PlainText(path) && PlainText(b) && a != [] && a[0] == 'F'
    ensures QuietPart(a + path + b)
  {
    PlainAppend(a, path);
    PlainAppend(a + path, b);
    PlainStartQuiet(a + path + b);
  }

  /**
   * The closing note's only '<' opens "<command>", whose second character
   * is not the end marker's.
   */
  lemma {:induction false} NotesQuiet(cli: string)
    requires PlainText(cli)
    ensures QuietPart(NotesLine(cli))
  {
    NotesPieces();
    PlainAppend(NotesHead, cli);
    PlainAppend(NotesHead + cli, " ");
    var p := NotesHead + cli + " ";
    NotesTailShape();
    AppendKeeps(p, NotesTail);
    TailNoEnd(p, NotesTail);
    assert NotesLine(cli)[0] == 'N';
    NotHeadingAt(NotesLine(cli), 0);
    LineQuiet(NotesLine(cli));
  }

  lemma {:induction false} NotesPieces()
    ensures PlainText(NotesHead) && PlainText(" ")
  {
    PlainLiteral("Notes: Arguments and flags ");
    PlainLiteral("vary by command; run `");
    PlainLiteral(" ");
    PlainAppend("Notes: Arguments and flags ", "vary by command; run `");
  }

  lemma {:induction false} NotesTailShape()
    ensures IsLine(NotesTail) && |NotesTail| >= 2 && NotesTail[0] == '<'
    ensures NoAngle(NotesTail[1..]) && NotesTail[1] != ToolsEnd[1]
  {
    var rest := "command> --help` for details.";
    NotesRestPlain();
    assert IsLine("<");
    AppendKeeps("<", rest);
    assert NotesTail[1..] == rest;
  }

  lemma {:induction false} NotesRestPlain()
    ensures PlainText("command> --help` for details.")
  {
    PlainLiteral("command> --help` for details.");
  }

  /** A '<' past a text without one starts no end marker when the next character differs from the marker's. */
  lemma {:induction false} TailNoEnd(p: string, t: string)
    requires NoAngle(p) && |t| >= 2 && t[0] == '<' && NoAngle(t[1..]) && t[1] != ToolsEnd[1]
    ensures !Contains(p + t, ToolsEnd)
  {
    var s := p + t;
    MarkersShaped();
    forall j: nat ensures !OccursAt(s, ToolsEnd, j) {
      if OccursAt(s, ToolsEnd, j) {
        CharOfOccurrence(s, ToolsEnd, j, j);
        if j == |p| {
          CharOfOccurrence(s, ToolsEnd, j, j + 1);
        }
      }
    }
    NotContainsIff(s, ToolsEnd);
  }

  /** The stripped excerpt ends with something other than whitespace. */
  lemma {:induction false} ExcerptQuiet(e: string)
    requires OnlyNewlineBreaks(Strip(e)) && !Contains(Strip(e), ToolsEnd) && NoHeadingLines(Strip(e))
    ensures QuietPart(Strip(e))
  {
    StripSpec(e);
    var s := Strip(e);
    if s != [] {
      LineBreakIsSpace(s[|s| - 1]);
    }
  }

  // ---------------------------------------------------------------------
  // Lists of lines

  lemma {:induction false} AllQuietAppend(a: seq<string>, b: seq<string>)
    requires AllQuiet(a) && AllQuiet(b)
    ensures AllQuiet(a + b)
  {
    forall k | 0 <= k < |a + b| ensures QuietPart((a + b)[k]) {
      if k >= |a| {
        assert (a + b)[k] == b[k - |a|];
      } else {
        assert (a + b)[k] == a[k];
      }
    }
  }

  lemma {:induction false} OptionLinesQuiet(options: seq<OptionInfo>)
    requires forall o :: o in options ==> PlainText(o.flags) && PlainText(o.description)
    decreases |options|
    ensures AllQuiet(OptionLines(options))
  {
    if options != [] {
      var last := options[|options| - 1];
      assert last in options;
      assert forall o :: o in options[..|options| - 1] ==> o in options;
      OptionLinesQuiet(options[..|options| - 1]);
      OptionQuiet(last);
      AllQuietAppend(OptionLines(options[..|options| - 1]), [OptionLine(last)]);
    }
  }

  lemma {:induction false} CommandHeadQuiet(cli: string, command: CommandInfo)
    requires PlainText(cli) && PlainText(command.name) && PlainText(command.description)
    ensures AllQuiet(CommandHead(cli, command))
  {
    CommandHeadingQuiet(command.name);
    InvocationQuiet(cli, command.name);
    var invocation := ["Invocation: `" + cli + " " + command.name + " ...`"];
    if command.description != "" {
      DescriptionQuiet(command.description);
      AllQuietAppend(["### " + command.name], ["Description: " + command.description]);
      AllQuietAppend(["### " + command.name] + ["Description: " + command.description], invocation);
    } else {
      AllQuietAppend(["### " + command.name] + [], invocation);
    }
  }

  lemma {:induction false} CommandLinesQuiet(cli: string, command: CommandInfo, options: seq<OptionInfo>)
    requires PlainText(cli) && PlainText(command.name) && PlainText(command.description)
    requires forall o :: o in options ==> PlainText(o.flags) && PlainText(o.description)
    ensures AllQuiet(CommandLines(cli, command, options))
  {
    CommandHeadQuiet(cli, command);
    EmptyQuiet();
    if options != [] {
      PlainLiteral("Common options:");
      PlainStartQuiet("Common options:");
      OptionLinesQuiet(options);
      AllQuietAppend(["Common options:"], OptionLines(options));
    }
    AllQuietAppend(CommandHead(cli, command), OptionBlock(options));
    AllQuietAppend(CommandHead(cli, command) + OptionBlock(options), [""]);
  }

  lemma {:induction false} CommandsLinesQuiet(cli: string, commands: seq<CommandInfo>, options: seq<OptionInfo>)
    requires PlainText(cli)
    requires forall c :: c in commands ==> PlainText(c.name) && PlainText(c.description)
    requires forall o :: o in options ==> PlainText(o.flags) && PlainText(o.description)
    decreases |commands|
    ensures AllQuiet(CommandsLines(cli, commands, options))
  {
    if commands != [] {
      var last := commands[|commands| - 1];
      assert last in commands;
      assert forall c :: c in commands[..|commands| - 1] ==> c in commands;
      CommandsLinesQuiet(cli, commands[..|commands| - 1], options);
      CommandLinesQuiet(cli, last, options);
      AllQuietAppend(CommandsLines(cli, commands[..|commands| - 1], options), CommandLines(cli, last, options));
    }
  }

  lemma {:induction false} ExcerptLinesQuiet(helpExcerpt: Option<string>, pathLabel: Option<string>, truncated: bool)
    requires pathLabel.Some? ==> PlainText(pathLabel.value)
    requires Truthy(helpExcerpt) ==>
      var e := Strip(helpExcerpt.value);
      OnlyNewlineBreaks(e) && !Contains(e, ToolsEnd) && NoHeadingLines(e)
    ensures AllQuiet(ExcerptLines(helpExcerpt, pathLabel, truncated))
  {
    if Truthy(helpExcerpt) {
      FenceQuiet();
      ExcerptQuiet(helpExcerpt.value);
      SavedQuiet(pathLabel, truncated);
      AllQuietAppend(["Help excerpt:", "```", Strip(helpExcerpt.value), "```"], SavedNote(pathLabel, truncated));
    }
  }

  lemma {:induction false} FenceQuiet()
    ensures QuietPart("Help excerpt:") && QuietPart("```")
  {
    PlainLiteral("Help excerpt:");
    PlainLiteral("```");
    PlainStartQuiet("Help excerpt:");
    PlainStartQuiet("```");
  }

  /** The line saying where the full help is, if any. */
  lemma {:induction false} SavedQuiet(pathLabel: Option<string>, truncated: bool)
    requires pathLabel.Some? ==> PlainText(pathLabel.value)
    ensures AllQuiet(SavedNote(pathLabel, truncated))
  {
    if truncated {
      if Truthy(pathLabel) {
        NotePrefixesPlain();
        PathNoteQuiet("Full help is available at `", pathLabel.value);
      } else {
        TruncatedQuiet();
      }
    } else if Truthy(pathLabel) {
      NotePrefixesPlain();
      PathNoteQuiet("Full help saved at `", pathLabel.value);
    }
  }

  lemma {:induction false} NotePrefixesPlain()
    ensures PlainText("Full help is available at `") && PlainText("Full help saved at `")
  {
    PlainLiteral("Full help is available at `");
    PlainLiteral("Full help saved at `");
  }

  /** A note that names the saved help: a plain prefix starting with 'F', the path in backticks. */
  lemma {:induction false} PathNoteQuiet(prefix: string, path: string)
    requires PlainText(prefix) && prefix != [] && prefix[0] == 'F' && PlainText(path)
    ensures QuietPart(prefix + path + "`.")
  {
    PlainLiteral("`.");
    SavedAtQuiet(prefix, path, "`.");
  }

  lemma {:induction false} TruncatedQuiet()
    ensures QuietPart(TruncatedNote)
  {
    TruncatedPlain();
    assert TruncatedNote[0] == 'F';
    PlainStartQuiet(TruncatedNote);
  }

  lemma {:induction false} TruncatedPlain()
    ensures PlainText(TruncatedNote)
  {
    TruncatedPieces();
    PlainAppend("Full help was truncated; ", "re-run with a higher limit ");
    PlainAppend("Full help was truncated; " + "re-run with a higher limit ", "or provide --help-output.");
  }

  lemma {:induction false} TruncatedPieces()
    ensures PlainText("Full help was truncated; ") && PlainText("re-run with a higher limit ")
    ensures PlainText("or provide --help-output.")
  {
    PlainLiteral("Full help was truncated; ");
    TruncatedAdvicePlain();
  }

  lemma {:induction false} TruncatedAdvicePlain()
    ensures PlainText("re-run with a higher limit ") && PlainText("or provide --help-output.")
  {
    PlainLiteral("re-run with a higher limit ");
    PlainLiteral("or provide --help-output.");
  }

  /** Given plain inputs, every line after the heading is quiet, so the rendering is quiet. */
  lemma {:induction false} RestQuiet(cli: string, commands: seq<CommandInfo>, options: Option<seq<OptionInfo>>,
                                     helpExcerpt: Option<string>, fullHelpPath: Option<string>,
                                     helpPathDisplay: Option<string>, truncated: bool)
    requires ReadableInputs(cli, commands, options, helpExcerpt, PathLabel(helpPathDisplay, fullHelpPath))
    ensures AllQuiet(RestLines(cli, commands, options, helpExcerpt, fullHelpPath, helpPathDisplay, truncated))
    ensures QuietRendering(cli, commands, options, helpExcerpt, fullHelpPath, helpPathDisplay, truncated)
  {
    var pathLabel := PathLabel(helpPathDisplay, fullHelpPath);
    IntroQuiet(cli);
    CommandsLinesQuiet(cli, commands, OptionList(options));
    ExcerptLinesQuiet(helpExcerpt, pathLabel, truncated);
    NotesQuiet(cli);
    RestShapeQuiet(IntroLine(cli), CommandsLines(cli, commands, OptionList(options)),
                   ExcerptLines(helpExcerpt, pathLabel, truncated), NotesLine(cli));
  }

  lemma {:induction false} RestShapeQuiet(intro: string, commandLines: seq<string>, excerptLines: seq<string>, notes: string)
    requires QuietPart(intro) && AllQuiet(commandLines) && AllQuiet(excerptLines) && QuietPart(notes)
    ensures AllQuiet([intro, ""] + commandLines + excerptLines + [notes])
  {
    EmptyQuiet();
    AllQuietAppend([intro, ""], commandLines);
    AllQuietAppend([intro, ""] + commandLines, excerptLines);
    AllQuietAppend([intro, ""] + commandLines + excerptLines, [notes]);
  }

  // ---------------------------------------------------------------------
  // The block

  /** The heading is a stripped line, without '<', that the split reads as the CLI's label. */
  lemma {:induction false} HeadingShape(cli: string)
    requires cli != [] && NoBacktick(cli) && PlainText(cli)
    ensures var h := HeadingLine(cli);
      && h != [] && h[0] == '#' && IsLine(h) && Stripped(h)
      && !Contains(h, ToolsEnd) && HeadingLabel(h) == Some(cli)
  {
    var h := HeadingLine(cli);
    PlainLiteral(HeadingPrefix);
    PlainLiteral("`");
    PlainAppend(HeadingPrefix, cli);
    PlainAppend(HeadingPrefix + cli, "`");
    PlainNoEnd(h);
    assert h[0] == '#' && h[|h| - 1] == '`';
    StripStripped(h);
    HeadingLabelIff(h, cli);
  }

  /**
   * The text between the markers: the heading line, "\n", then the rest
   * joined by "\n"; stripped, free of the end marker, and the rest breaks
   * its lines only with "\n".
   */
  lemma {:induction false} BodyTextShape(cli: string, rest: seq<string>)
    requires cli != [] && NoBacktick(cli) && PlainText(cli)
    requires AllQuiet(rest) && rest != [] && rest[|rest| - 1] == NotesLine(cli)
    ensures var body := Join("\n", [HeadingLine(cli)] + rest);
      && body == HeadingLine(cli) + "\n" + Join("\n", rest)
      && Stripped(body) && !Contains(body, ToolsEnd)
      && Join("\n", rest) != [] && OnlyNewlineBreaks(Join("\n", rest)) && NoTrailingBreak(Join("\n", rest))
  {
    var h := HeadingLine(cli);
    var parts := [h] + rest;
    HeadingShape(cli);
    JoinCons("\n", h, rest);
    MarkersShaped();
    forall k | 0 <= k < |parts| ensures !Contains(parts[k], ToolsEnd) {
      if k > 0 {
        assert parts[k] == rest[k - 1];
      }
    }
    JoinNotContains(parts, ToolsEnd);
    assert NotesLine(cli)[|NotesLine(cli)| - 1] == '.';
    JoinFirst(parts);
    JoinLast(parts);
    JoinLast(rest);
    forall k | 0 <= k < |rest| ensures OnlyNewlineBreaks(rest[k]) {
      assert QuietPart(rest[k]);
    }
    JoinOnlyNewlines(rest);
  }

  /** The lines the split scans: the heading, then the lines of the rest, none of them a heading. */
  lemma {:induction false} BodyLinesShape(cli: string, rest: seq<string>)
    requires cli != [] && NoBacktick(cli) && PlainText(cli)
    requires AllQuiet(rest) && rest != [] && rest[|rest| - 1] == NotesLine(cli)
    ensures var lines := SplitLines(Join("\n", rest));
      && BlockLines(Join("\n", [HeadingLine(cli)] + rest)) == [HeadingLine(cli)] + lines
      && (forall k :: 0 <= k < |lines| ==> HeadingLabel(lines[k]).None?)
  {
    var h := HeadingLine(cli);
    var body := Join("\n", [h] + rest);
    var lines := SplitLines(Join("\n", rest));
    HeadingShape(cli);
    BodyTextShape(cli, rest);
    StripStripped(body);
    SplitLinesOfLine(h);
    SplitLinesCons(h, Join("\n", rest));
    forall k | 0 <= k < |rest| ensures NoTrailingBreak(rest[k]) {
      assert QuietPart(rest[k]);
    }
    SplitLinesOfJoin(rest);
    forall k | 0 <= k < |lines| ensures HeadingLabel(lines[k]).None? {
      assert lines[k] in lines;
      var m :| 0 <= m < |rest| && lines[k] in LinesOf(rest[m]);
      assert QuietPart(rest[m]);
    }
  }

  /** Scanning the heading and then lines without headings yields one section holding them all. */
  lemma {:induction false} ScanOneSection(cli: string, h: string, lines: seq<string>)
    requires HeadingLabel(h) == Some(cli)
    requires forall k :: 0 <= k < |lines| ==> HeadingLabel(lines[k]).None?
    ensures SplitFrom(Start, [h] + lines) == SplitState([cli], map[cli := [h] + lines], Some(cli))
  {
    SplitFromAppend(Start, [h], lines);
    ScanHeading(cli, h);
    var st := SplitState([cli], map[cli := [h]], Some(cli));
    SplitFromBody(st, lines);
    assert map[cli := [h]][cli := [h] + lines] == map[cli := [h] + lines];
  }

  lemma {:induction false} ScanHeading(cli: string, h: string)
    requires HeadingLabel(h) == Some(cli)
    ensures SplitFrom(Start, [h]) == SplitState([cli], map[cli := [h]], Some(cli))
  {
    assert [h][..0] == [];
    assert SplitFrom(Start, [h]) == SplitStep(Start, h);
    var r := SplitStep(Start, h);
    assert r.order == [cli] && r.current == Some(cli);
    assert r.sections.Keys == {cli} && r.sections[cli] == [h];
  }

  /**
   * The inner text of the rendered block, split as the merge splits it,
   * is one section: the CLI's label, holding everything between the
   * markers.
   */
  lemma {:induction false} RenderReadBack(cli: string, commands: seq<CommandInfo>, options: Option<seq<OptionInfo>>,
                                          helpExcerpt: Option<string>, fullHelpPath: Option<string>,
                                          helpPathDisplay: Option<string>, truncated: bool)
    requires QuietRendering(cli, commands, options, helpExcerpt, fullHelpPath, helpPathDisplay, truncated)
    ensures var block := Rendered(cli, commands, options, helpExcerpt, fullHelpPath, helpPathDisplay, truncated);
      var body := Join("\n", BodyLines(cli, commands, options, helpExcerpt, fullHelpPath, helpPathDisplay, truncated));
      && ExtractToolsBlock(block) == body
      && SplitSections(ExtractToolsBlock(block)) == Sections([cli], map[cli := body])
  {
    var rest := RestLines(cli, commands, options, helpExcerpt, fullHelpPath, helpPathDisplay, truncated);
    RestEnds(cli, commands, options, helpExcerpt, fullHelpPath, helpPathDisplay, truncated);
    RenderFraming(cli, commands, options, helpExcerpt, fullHelpPath, helpPathDisplay, truncated);
    ReadBackOf(cli, rest, Rendered(cli, commands, options, helpExcerpt, fullHelpPath, helpPathDisplay, truncated));
  }

  /** `RenderReadBack` over the lines after the heading, whatever they are, as long as they are quiet. */
  lemma {:induction false} ReadBackOf(cli: string, rest: seq<string>, block: string)
    requires cli != [] && NoBacktick(cli) && PlainText(cli)
    requires AllQuiet(rest) && rest != [] && rest[|rest| - 1] == NotesLine(cli)
    requires block == Region(Join("\n", [HeadingLine(cli)] + rest))
    ensures var body := Join("\n", [HeadingLine(cli)] + rest);
      && ExtractToolsBlock(block) == body
      && SplitSections(ExtractToolsBlock(block)) == Sections([cli], map[cli := body])
  {
    BodyTextShape(cli, rest);
    RegionReadBack(Join("\n", [HeadingLine(cli)] + rest));
    SplitOfBody(cli, rest);
  }

  /** The body splits into one section, the CLI's, holding the whole body. */
  lemma {:induction false} SplitOfBody(cli: string, rest: seq<string>)
    requires cli != [] && NoBacktick(cli) && PlainText(cli)
    requires AllQuiet(rest) && rest != [] && rest[|rest| - 1] == NotesLine(cli)
    ensures var body := Join("\n", [HeadingLine(cli)] + rest);
      SplitSections(body) == Sections([cli], map[cli := body])
  {
    var h := HeadingLine(cli);
    var lines := SplitLines(Join("\n", rest));
    BodyTextShape(cli, rest);
    BodyLinesShape(cli, rest);
    HeadingShape(cli);
    ScanOneSection(cli, h, lines);
    SectionText(h, rest, lines);
    OneSection(Join("\n", [h] + rest), [h] + lines, cli);
  }

  lemma {:induction false} OneSection(block: string, lines: seq<string>, cli: string)
    requires BlockLines(block) == lines
    requires SplitFrom(Start, lines) == SplitState([cli], map[cli := lines], Some(cli))
    requires Strip(Join("\n", lines)) == block
    ensures SplitSections(block) == Sections([cli], map[cli := block])
  {
    assert Flatten(map[cli := lines]) == map[cli := block];
  }

  /** The section's lines, joined and stripped, are the body again. */
  lemma {:induction false} SectionText(h: string, rest: seq<string>, lines: seq<string>)
    requires lines == SplitLines(Join("\n", rest))
    requires Join("\n", rest) != [] && OnlyNewlineBreaks(Join("\n", rest)) && NoTrailingBreak(Join("\n", rest))
    requires Stripped(h + "\n" + Join("\n", rest)) && Join("\n", [h] + rest) == h + "\n" + Join("\n", rest)
    ensures Strip(Join("\n", [h] + lines)) == Join("\n", [h] + rest)
  {
    SplitLinesAreLines(Join("\n", rest));
    JoinCons("\n", h, lines);
    JoinSplitLines(Join("\n", rest));
    StripStripped(h + "\n" + Join("\n", rest));
  }
}
