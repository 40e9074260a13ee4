/**
 * `render_tools_section`: the Markdown block, between the two markers,
 * that tells an agent which subcommands and options a CLI has. One line
 * per entry of a list, joined by "\n", with a final newline.
 */
module Render {
  import opened Wrappers
  import opened Text
  import opened Types
  import opened CliSections
  import opened ToolsRegion

  // ---------------------------------------------------------------------
  // The lines

  function HeadingLine(cli: string): string {
    HeadingPrefix + cli + "`"
  }

  function IntroLine(cli: string): string {
    "When interaction with `" + cli + IntroTail
  }

  // The longer sentences below are written as concatenations of short
  // literals: the proofs that they are plain lines check each short literal
  // character by character, which the verifier does cheaply, and then join
  // them; the same check on one long literal does not fit its budget.

  const IntroTail: string := "` is required, you can " + "utilize the following tools:"

  /** The words after the label in the closing note; the only '<' the block writes itself is here. */
  const NotesTail: string := "<" + "command> --help` for details."

  const NotesHead: string := "Notes: Arguments and flags " + "vary by command; run `"

  function NotesLine(cli: string): string {
    NotesHead + cli + " " + NotesTail
  }

  /** The start marker, the heading, the introduction and an empty line. */
  function Header(cli: string): seq<string> {
    [ToolsStart, HeadingLine(cli), IntroLine(cli), ""]
  }

  /** One entry of the option list, with an em dash before the description when there is one. */
  function OptionLine(option: OptionInfo): string {
    if option.description != "" then "- `" + option.flags + "` \U{2014} " + option.description
    else "- `" + option.flags + "`"
  }

  function OptionLines(options: seq<OptionInfo>): seq<string>
    decreases |options|
  {
    if options == [] then []
    else OptionLines(options[..|options| - 1]) + [OptionLine(options[|options| - 1])]
  }

  /** The heading, the description when there is one, and the invocation of one command. */
  function CommandHead(cli: string, command: CommandInfo): seq<string> {
    ["### " + command.name]
    + (if command.description != "" then ["Description: " + command.description] else [])
    + ["Invocation: `" + cli + " " + command.name + " ...`"]
  }

  /** "Common options:" and one line per option, or nothing when there are no options. */
  function OptionBlock(options: seq<OptionInfo>): seq<string> {
    if options == [] then [] else ["Common options:"] + OptionLines(options)
  }

  /** The lines of one command: every command lists the same options, then an empty line. */
  function CommandLines(cli: string, command: CommandInfo, options: seq<OptionInfo>): seq<string> {
    CommandHead(cli, command) + OptionBlock(options) + [""]
  }

  function CommandsLines(cli: string, commands: seq<CommandInfo>, options: seq<OptionInfo>): seq<string>
    decreases |commands|
  {
    if commands == [] then []
    else CommandsLines(cli, commands[..|commands| - 1], options) + CommandLines(cli, commands[|commands| - 1], options)
  }

  /** The truth value of an optional string in Python: present and not empty. */
  predicate Truthy(s: Option<string>) {
    s.Some? && s.value != ""
  }

  /**
   * `help_path_display or (str(full_help_path) if full_help_path else None)`,
   * with the path given by its string form.
   */
  function PathLabel(helpPathDisplay: Option<string>, fullHelpPath: Option<string>): Option<string> {
    if Truthy(helpPathDisplay) then helpPathDisplay else fullHelpPath
  }

  /** The excerpt in a code fence and the line saying where the full help is, when there is an excerpt. */
  function ExcerptLines(helpExcerpt: Option<string>, pathLabel: Option<string>, truncated: bool): seq<string> {
    if !Truthy(helpExcerpt) then []
    else ["Help excerpt:", "```", Strip(helpExcerpt.value), "```"] + SavedNote(pathLabel, truncated)
  }

  /** Where the full help is: the path when there is one, and a warning instead of it for a truncated excerpt. */
  function SavedNote(pathLabel: Option<string>, truncated: bool): seq<string> {
    if truncated then
      if Truthy(pathLabel) then ["Full help is available at `" + pathLabel.value + "`."]
      else [TruncatedNote]
    else if Truthy(pathLabel) then ["Full help saved at `" + pathLabel.value + "`."]
    else []
  }

  /** What the block says of a truncated help text it cannot point to (in pieces, as the sentences above). */
  const TruncatedNote: string := "Full help was truncated; " + "re-run with a higher limit " + "or provide --help-output."

  /** `options or []`. */
  function OptionList(options: Option<seq<OptionInfo>>): seq<OptionInfo> {
    if options.Some? then options.value else []
  }

  /** The list `render_tools_section` joins. */
  function RenderLines(cli: string, commands: seq<CommandInfo>, options: Option<seq<OptionInfo>>,
                       helpExcerpt: Option<string>, fullHelpPath: Option<string>,
                       helpPathDisplay: Option<string>, truncated: bool): seq<string>
  {
    Header(cli) + CommandsLines(cli, commands, OptionList(options))
    + ExcerptLines(helpExcerpt, PathLabel(helpPathDisplay, fullHelpPath), truncated)
    + [NotesLine(cli), ToolsEnd]
  }

  function Rendered(cli: string, commands: seq<CommandInfo>, options: Option<seq<OptionInfo>>,
                    helpExcerpt: Option<string>, fullHelpPath: Option<string>,
                    helpPathDisplay: Option<string>, truncated: bool): string
  {
    Join("\n", RenderLines(cli, commands, options, helpExcerpt, fullHelpPath, helpPathDisplay, truncated)) + "\n"
  }

  // ---------------------------------------------------------------------
  // render_tools_section

  method RenderToolsSection(cli: string, commands: seq<CommandInfo>, options: Option<seq<OptionInfo>>,
                            helpExcerpt: Option<string>, fullHelpPath: Option<string>,
                            helpPathDisplay: Option<string>, truncated: bool) returns (r: string)
    ensures r == Rendered(cli, commands, options, helpExcerpt, fullHelpPath, helpPathDisplay, truncated)
  {
    var optionsList := if options.Some? then options.value else [];
    var lines := [ToolsStart, HeadingLine(cli), IntroLine(cli), ""];
    lines := AppendCommands(lines, cli, commands, optionsList);
    lines := AppendExcerpt(lines, helpExcerpt, fullHelpPath, helpPathDisplay, truncated);
    lines := lines + [NotesLine(cli), ToolsEnd];
    r := Join("\n", lines) + "\n";
  }

  /** The loop over the commands. */
  method AppendCommands(lines0: seq<string>, cli: string, commands: seq<CommandInfo>, optionsList: seq<OptionInfo>)
    returns (lines: seq<string>)
    ensures lines == lines0 + CommandsLines(cli, commands, optionsList)
  {
    lines := lines0;
    for i := 0 to |commands|
      invariant lines == lines0 + CommandsLines(cli, commands[..i], optionsList)
    {
      ghost var before := lines;
      assert commands[..i + 1][..i] == commands[..i];
      assert CommandsLines(cli, commands[..i + 1], optionsList)
        == CommandsLines(cli, commands[..i], optionsList) + CommandLines(cli, commands[i], optionsList);
      lines := AppendCommand(lines, cli, commands[i], optionsList);
      ConcatAssoc(lines0, CommandsLines(cli, commands[..i], optionsList), CommandLines(cli, commands[i], optionsList));
    }
    assert commands[..|commands|] == commands;
  }

  /** The body of the loop over the commands. */
  method AppendCommand(lines0: seq<string>, cli: string, command: CommandInfo, optionsList: seq<OptionInfo>)
    returns (lines: seq<string>)
    ensures lines == lines0 + CommandLines(cli, command, optionsList)
  {
    lines := lines0 + ["### " + command.name];
    if command.description != "" {
      lines := lines + ["Description: " + command.description];
    }
    lines := lines + ["Invocation: `" + cli + " " + command.name + " ...`"];
    assert lines == lines0 + CommandHead(cli, command);
    ghost var head := lines;
    if optionsList != [] {
      lines := lines + ["Common options:"];
      lines := AppendOptions(lines, optionsList);
    }
    assert lines == head + OptionBlock(optionsList);
    lines := lines + [""];
    ConcatAssoc(lines0, CommandHead(cli, command), OptionBlock(optionsList));
    ConcatAssoc(lines0, CommandHead(cli, command) + OptionBlock(optionsList), [""]);
  }

  /** The inner loop over the options. */
  method AppendOptions(lines0: seq<string>, optionsList: seq<OptionInfo>) returns (lines: seq<string>)
    ensures lines == lines0 + OptionLines(optionsList)
  {
    lines := lines0;
    for k := 0 to |optionsList|
      invariant lines == lines0 + OptionLines(optionsList[..k])
    {
      assert optionsList[..k + 1][..k] == optionsList[..k];
      var option := optionsList[k];
      assert OptionLines(optionsList[..k + 1]) == OptionLines(optionsList[..k]) + [OptionLine(option)];
      if option.description != "" {
        lines := lines + ["- `" + option.flags + "` \U{2014} " + option.description];
      } else {
        lines := lines + ["- `" + option.flags + "`"];
      }
    }
    assert optionsList[..|optionsList|] == optionsList;
  }

  /** The `if help_excerpt:` part. */
  method AppendExcerpt(lines0: seq<string>, helpExcerpt: Option<string>, fullHelpPath: Option<string>,
                       helpPathDisplay: Option<string>, truncated: bool) returns (lines: seq<string>)
    ensures lines == lines0 + ExcerptLines(helpExcerpt, PathLabel(helpPathDisplay, fullHelpPath), truncated)
  {
    lines := lines0;
    if Truthy(helpExcerpt) {
      lines := lines + ["Help excerpt:"];
      lines := lines + ["```"];
      lines := lines + [Strip(helpExcerpt.value)];
      lines := lines + ["```"];
      ghost var fenced := lines;
      var pathLabel := if Truthy(helpPathDisplay) then helpPathDisplay else fullHelpPath;
      var saved: seq<string> := [];
      if truncated {
        if Truthy(pathLabel) {
          saved := ["Full help is available at `" + pathLabel.value + "`."];
        } else {
          saved := [TruncatedNote];
        }
      } else if Truthy(pathLabel) {
        saved := ["Full help saved at `" + pathLabel.value + "`."];
      }
      lines := lines + saved;
      assert fenced == lines0 + ["Help excerpt:", "```", Strip(helpExcerpt.value), "```"];
    }
  }

  // ---------------------------------------------------------------------
  // The shape of the block

  /** Everything between the two marker lines. */
  function BodyLines(cli: string, commands: seq<CommandInfo>, options: Option<seq<OptionInfo>>,
                     helpExcerpt: Option<string>, fullHelpPath: Option<string>,
                     helpPathDisplay: Option<string>, truncated: bool): seq<string>
  {
    [HeadingLine(cli)] + RestLines(cli, commands, options, helpExcerpt, fullHelpPath, helpPathDisplay, truncated)
  }

  /** Everything after the heading line and before the end marker. */
  function RestLines(cli: string, commands: seq<CommandInfo>, options: Option<seq<OptionInfo>>,
                     helpExcerpt: Option<string>, fullHelpPath: Option<string>,
                     helpPathDisplay: Option<string>, truncated: bool): seq<string>
  {
    [IntroLine(cli), ""] + CommandsLines(cli, commands, OptionList(options))
    + ExcerptLines(helpExcerpt, PathLabel(helpPathDisplay, fullHelpPath), truncated)
    + [NotesLine(cli)]
  }

  /** The list joined is the start marker, the body lines and the end marker. */
  lemma {:induction false} RenderLinesFramed(cli: string, commands: seq<CommandInfo>, options: Option<seq<OptionInfo>>,
                                             helpExcerpt: Option<string>, fullHelpPath: Option<string>,
                                             helpPathDisplay: Option<string>, truncated: bool)
    ensures RenderLines(cli, commands, options, helpExcerpt, fullHelpPath, helpPathDisplay, truncated)
      == [ToolsStart] + BodyLines(cli, commands, options, helpExcerpt, fullHelpPath, helpPathDisplay, truncated) + [ToolsEnd]
  {
    var intro := [IntroLine(cli), ""];
    assert Header(cli) == [ToolsStart, HeadingLine(cli)] + intro;
    Reframe(ToolsStart, HeadingLine(cli), intro, CommandsLines(cli, commands, OptionList(options)),
            ExcerptLines(helpExcerpt, PathLabel(helpPathDisplay, fullHelpPath), truncated), NotesLine(cli), ToolsEnd);
  }

  /** Regrouping a framed list: the first and last elements outside, the rest inside. */
  lemma {:induction false} Reframe<T>(a: T, b: T, x: seq<T>, c: seq<T>, e: seq<T>, n: T, z: T)
    ensures [a, b] + x + c + e + [n, z] == [a] + ([b] + (x + c + e + [n])) + [z]
  {
  }

  /**
   * The block opens with the start marker and the CLI's heading and closes
   * with the note and the end marker; between the marker lines, joined by
   * "\n", is everything else.
   */
  lemma {:induction false} RenderFraming(cli: string, commands: seq<CommandInfo>, options: Option<seq<OptionInfo>>,
                                         helpExcerpt: Option<string>, fullHelpPath: Option<string>,
                                         helpPathDisplay: Option<string>, truncated: bool)
    ensures var lines := RenderLines(cli, commands, options, helpExcerpt, fullHelpPath, helpPathDisplay, truncated);
      && |lines| >= 6
      && lines[0] == ToolsStart && lines[1] == HeadingLine(cli) && lines[2] == IntroLine(cli)
      && lines[|lines| - 2] == NotesLine(cli) && lines[|lines| - 1] == ToolsEnd
    ensures var body := BodyLines(cli, commands, options, helpExcerpt, fullHelpPath, helpPathDisplay, truncated);
      Rendered(cli, commands, options, helpExcerpt, fullHelpPath, helpPathDisplay, truncated)
        == ToolsStart + "\n" + Join("\n", body) + "\n" + ToolsEnd + "\n"
  {
    var rest := RestLines(cli, commands, options, helpExcerpt, fullHelpPath, helpPathDisplay, truncated);
    var body := BodyLines(cli, commands, options, helpExcerpt, fullHelpPath, helpPathDisplay, truncated);
    RenderLinesFramed(cli, commands, options, helpExcerpt, fullHelpPath, helpPathDisplay, truncated);
    RestEnds(cli, commands, options, helpExcerpt, fullHelpPath, helpPathDisplay, truncated);
    FramedEnds(ToolsStart, HeadingLine(cli), rest, ToolsEnd);
    JoinFramed(ToolsStart, body, ToolsEnd);
  }

  /** The lines after the heading open with the introduction and end with the note. */
  lemma {:induction false} RestEnds(cli: string, commands: seq<CommandInfo>, options: Option<seq<OptionInfo>>,
                                    helpExcerpt: Option<string>, fullHelpPath: Option<string>,
                                    helpPathDisplay: Option<string>, truncated: bool)
    ensures var rest := RestLines(cli, commands, options, helpExcerpt, fullHelpPath, helpPathDisplay, truncated);
      |rest| >= 3 && rest[0] == IntroLine(cli) && rest[|rest| - 1] == NotesLine(cli)
  {
  }

  /** Indexing `[a, h] + rest + [b]` at its ends. */
  lemma {:induction false} FramedEnds(a: string, h: string, rest: seq<string>, b: string)
    requires |rest| >= 3
    ensures var lines := [a] + ([h] + rest) + [b];
      && |lines| >= 6 && lines[0] == a && lines[1] == h && lines[2] == rest[0]
      && lines[|lines| - 2] == rest[|rest| - 1] && lines[|lines| - 1] == b
  {
  }

  /** Joining a list between a first and a last entry. */
  lemma {:induction false} JoinFramed(a: string, mids: seq<string>, b: string)
    requires mids != []
    ensures Join("\n", [a] + mids + [b]) == a + "\n" + Join("\n", mids) + "\n" + b
  {
    assert [a] + mids + [b] == [a] + (mids + [b]);
    JoinCons("\n", a, mids + [b]);
    JoinAppend("\n", mids, b);
  }

  /** The option list has one line per option, in order. */
  lemma {:induction false} OptionLinesSpec(options: seq<OptionInfo>)
    decreases |options|
    ensures |OptionLines(options)| == |options|
    ensures forall k :: 0 <= k < |options| ==> OptionLines(options)[k] == OptionLine(options[k])
  {
    if options != [] {
      OptionLinesSpec(options[..|options| - 1]);
    }
  }

  /** The lines for `a + b` are those for `a`, then those for `b`. */
  lemma {:induction false} CommandsLinesAppend(cli: string, a: seq<CommandInfo>, b: seq<CommandInfo>, options: seq<OptionInfo>)
    decreases |b|
    ensures CommandsLines(cli, a + b, options) == CommandsLines(cli, a, options) + CommandsLines(cli, b, options)
  {
    if b == [] {
      assert a + b == a;
    } else {
      CommandsLinesAppend(cli, a, b[..|b| - 1], options);
      CommandsLinesSnoc(cli, a, b, options);
    }
  }

  lemma {:induction false} CommandsLinesSnoc(cli: string, a: seq<CommandInfo>, b: seq<CommandInfo>, options: seq<OptionInfo>)
    requires b != []
    requires CommandsLines(cli, a + b[..|b| - 1], options)
      == CommandsLines(cli, a, options) + CommandsLines(cli, b[..|b| - 1], options)
    ensures CommandsLines(cli, a + b, options) == CommandsLines(cli, a, options) + CommandsLines(cli, b, options)
  {
    var last := CommandLines(cli, b[|b| - 1], options);
    assert (a + b)[..|a + b| - 1] == a + b[..|b| - 1];
    assert (a + b)[|a + b| - 1] == b[|b| - 1];
    ConcatAssoc(CommandsLines(cli, a, options), CommandsLines(cli, b[..|b| - 1], options), last);
  }

  /**
   * Command `i`'s lines, with the whole option list, follow those of the
   * commands before it: every command repeats the options.
   */
  lemma {:induction false} CommandSectionAt(cli: string, commands: seq<CommandInfo>, options: seq<OptionInfo>, i: nat)
    requires i < |commands|
    ensures var n := |CommandsLines(cli, commands[..i], options)|;
      var section := CommandLines(cli, commands[i], options);
      n + |section| <= |CommandsLines(cli, commands, options)|
      && CommandsLines(cli, commands, options)[n..n + |section|] == section
  {
    var before := CommandsLines(cli, commands[..i], options);
    var section := CommandLines(cli, commands[i], options);
    var after := CommandsLines(cli, commands[i + 1..], options);
    SplitAround(commands, i);
    CommandsLinesAppend(cli, commands[..i], [commands[i]] + commands[i + 1..], options);
    CommandsLinesAppend(cli, [commands[i]], commands[i + 1..], options);
    CommandsLinesSingle(cli, commands[i], options);
    MiddleSlice(before, section, after);
  }

  lemma {:induction false} MiddleSlice<T>(x: seq<T>, y: seq<T>, z: seq<T>)
    ensures (x + (y + z))[|x|..|x| + |y|] == y
  {
  }

  lemma {:induction false} CommandsLinesSingle(cli: string, command: CommandInfo, options: seq<OptionInfo>)
    ensures CommandsLines(cli, [command], options) == CommandLines(cli, command, options)
  {
    assert [command][..0] == [];
  }

  /**
   * The lines of one command: its "### " heading, a "Description:" line
   * exactly when the description is not empty, the invocation, then
   * "Common options:" and every option in order when there are options, and
   * an empty line.
   */
  lemma {:induction false} CommandSectionShape(cli: string, command: CommandInfo, options: seq<OptionInfo>)
    ensures var s := CommandLines(cli, command, options);
      var n := if command.description != "" then 3 else 2;
      && |s| == n + (if options == [] then 0 else 1 + |options|) + 1
      && s[0] == "### " + command.name
      && (s[1] == "Description: " + command.description <==> command.description != "")
      && s[n - 1] == "Invocation: `" + cli + " " + command.name + " ...`"
      && (options != [] ==>
            && s[n] == "Common options:"
            && forall k :: 0 <= k < |options| ==> s[n + 1 + k] == OptionLine(options[k]))
      && s[|s| - 1] == ""
  {
    var head := CommandHead(cli, command);
    var block := OptionBlock(options);
    CommandHeadShape(cli, command);
    OptionBlockShape(options);
    ThreeParts(head, block, "");
  }

  /** The heading, the description line when there is a description, the invocation. */
  lemma {:induction false} CommandHeadShape(cli: string, command: CommandInfo)
    ensures var h := CommandHead(cli, command);
      && |h| == (if command.description != "" then 3 else 2)
      && h[0] == "### " + command.name
      && (h[1] == "Description: " + command.description <==> command.description != "")
      && h[|h| - 1] == "Invocation: `" + cli + " " + command.name + " ...`"
  {
    var inv := "Invocation: `" + cli + " " + command.name + " ...`";
    assert inv[0] == 'I';
    assert ("Description: " + command.description)[0] == 'D';
  }

  /** "Common options:" and the options in order, or nothing. */
  lemma {:induction false} OptionBlockShape(options: seq<OptionInfo>)
    ensures var b := OptionBlock(options);
      && |b| == (if options == [] then 0 else 1 + |options|)
      && (options != [] ==> b[0] == "Common options:" && forall k :: 0 <= k < |options| ==> b[1 + k] == OptionLine(options[k]))
  {
    OptionLinesSpec(options);
  }

  /** Indexing into `a + b + [c]`. */
  lemma {:induction false} ThreeParts<T>(a: seq<T>, b: seq<T>, c: T)
    ensures var s := a + b + [c];
      && |s| == |a| + |b| + 1
      && (forall i :: 0 <= i < |a| ==> s[i] == a[i])
      && (forall j :: 0 <= j < |b| ==> s[|a| + j] == b[j])
      && s[|s| - 1] == c
  {
  }
}
