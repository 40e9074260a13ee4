# mcp-it core, modelled in Dafny

mcp-it reads the `--help` output of a command-line tool. From it, it collects the tool's subcommands and its options. It then writes them into an `AGENTS.md` document as a Markdown block, which sits between the markers `<!-- tools start -->` and `<!-- tools end -->`. This project models the three parts of that pipeline and proves what each one promises.

- **Help-text parser** (`command_discovery.py`). A help line is classified by two hand-coded matchers, one per regular expression: command lines and option lines. A section pass is driven by a `collecting` flag. It turns on at a section header and turns off at a blank line. When the section pass yields nothing, a loose pass runs instead and skips every line that mentions "usage". Finally, a de-duplication keeps the first entry for each name or flags string. The two passes and the de-duplication are loops in the source. Here they are methods with loop invariants, each proved equal to a specification function. The lemmas are stated about those functions.
- **Block renderer** (`agents.py`, `render_tools_section`). It is a method that appends lines, proved equal to the function `Rendered`. Lemmas about the block cover:
  - its framing;
  - where each command's section sits;
  - the layout of each command's lines;
  - that the block reads back: extracting its inner text and splitting it into CLI sections gives exactly one section, the rendered CLI's.
- **Region merge** (`agents.py`):
  - `_extract_tools_block`, `_strip_outer_tools_markers` and `inject_tools_section` are functions.
  - `_split_cli_sections` and `_merge_tools_blocks` are methods with loops, proved against the functions `SplitSections` and `MergeBlocks`.
  - Lemmas state the result for each kind of document:
    - one without markers;
    - one with only one kind of marker;
    - one with both markers but no start marker followed by an end marker;
    - one with a managed region.
  - They also state the merge's order and body invariants.
  - End to end, a region may hold the sections of several CLIs, separated by blank lines. It splits back into exactly those sections. Injecting one CLI's block replaces that CLI's section in place and keeps the others. Injecting a new CLI's block appends its section. Injecting a block whose section the region already holds leaves the document unchanged.
  - An unmarked document stops changing from the second injection of the same block on.
- **Records** (`types.py`). `CommandInfo` and `OptionInfo` are datatypes whose descriptions default to `""`.

Characters follow Python's `str` rules where the parser depends on them:
- whitespace is exactly the characters `str.isspace` accepts;
- line breaks are exactly the ones `str.splitlines` splits on, with `\r\n` as one break.

Word characters (`\w`) and `lower()` are taken as ASCII only.

Where the project's documented behaviour and the code disagree, the model follows the code:
- **Re-injecting once is not idempotent.** Injecting the same block into the document that the first injection produced can change it again. Take `"# My Project\n"`:
  - The first injection keeps the trailing newline, giving `"# My Project\n\n\n"` before the region.
  - The second injection right-strips the text before the region, so it changes the document again.
  - `ToolsRegion.InjectTwiceDiffers` proves this for every block.
  - What does hold is that the document stops changing from the second injection on (`Reinjection.InjectSettles`).
  - It is stable only in one form: right-stripped text, then exactly the `"\n\n"` separator, then the region last (`Reinjection.InjectFixpoint`). This is a property of the code, not a convenience of the proof. On re-injection the region branch moves a region that has text after it to the end of the document. It also turns any other separator, such as a single newline, into `"\n\n"`. So a document holding its managed region in another place or after another separator can change once more.
  - With the text right-stripped before a new region, as the region branch already does, one re-injection leaves the document unchanged (`ToolsRegion.InjectTrimmed`, `Reinjection.InjectTrimmedIdempotent`).
- **The fallback is the document.** When the block has no marker pair, or its inner text is empty, the document's own stripped text is used as the new inner text (`_strip_outer_tools_markers(tools_block, fallback=content.strip())`).
- **`normalized_content` is never assigned.** This makes every call raise; see Findings. The rest of the model binds it to `content`.

## Model

| member | source | states |
|---|---|---|
| Discovery.DiscoverCommands | src/mcp_it/command_discovery.py:59-70 | `discover_commands`: takes the help text; returns `[]` for empty text, else the de-duplicated section pass over `splitlines()` or, when that is empty, the de-duplicated loose pass |
| Discovery.DiscoverOptions | src/mcp_it/command_discovery.py:73-82 | `discover_options`: the same with the option headers and option matcher |
| CommandPattern.MatchCommandLine | src/mcp_it/command_discovery.py:141-147 | `_match_command_line`: takes one line, returns the name and stripped description or nothing; `requires IsLine` because it is only applied to the lines `splitlines()` returns, which hold no line break (`Text.SplitLinesAreLines`, called in `Discovery.DiscoverCommands`) |
| OptionPattern.MatchOptionLine | src/mcp_it/command_discovery.py:150-156 | `_match_option_line`: takes one line, returns the flags and stripped description (or `""`) or nothing; `requires IsLine` for the same reason, discharged in `Discovery.DiscoverOptions` |
| ToolsRegion.ExtractToolsBlock | src/mcp_it/agents.py:101-109 | `_extract_tools_block`: takes a document, returns the text between the first start marker and the first end marker after it, stripped, or `""` |
| ToolsRegion.StripOuterToolsMarkers | src/mcp_it/agents.py:112-114 | `_strip_outer_tools_markers`: takes a block and a fallback, returns the block's inner text, or the fallback when that is empty |
| ToolsRegion.InjectAsWritten | src/mcp_it/agents.py:67-88 | `inject_tools_section` as written: `InjectFromBinding` with nothing bound to `normalized_content` |
| ToolsRegion.InjectToolsSection | src/mcp_it/agents.py:67-88 | `inject_tools_section` with `normalized_content` bound to `content`: takes a document and a block, returns the new document |
| ToolsRegion.InjectTrimmed | src/mcp_it/agents.py:67-88 | the corrected `inject_tools_section`: as `InjectToolsSection`, but the text kept before a new region is right-stripped |
| Render.Rendered | src/mcp_it/agents.py:12-64 | `render_tools_section`: takes the CLI label, commands, options, excerpt, path and truncation flag, returns the block's lines joined by "\n" with a final newline |
| CliSections.SplitSections | src/mcp_it/agents.py:117-139 | `_split_cli_sections`: takes a block, returns the labels in first-heading order and each label's lines joined and stripped |
| CliSections.MergeBlocks | src/mcp_it/agents.py:142-152 | `_merge_tools_blocks`: takes the existing and incoming blocks, returns the merged sections' bodies joined by blank lines, stripped, with one final newline |
| Types.CommandInfoDefault | src/mcp_it/types.py:5-9 | a command built from a name alone has that name and the description `""` |
| Types.OptionInfoDefault | src/mcp_it/types.py:13-17 | an option built from flags alone has those flags and the description `""` |
| Types.CommandInfoEquality | src/mcp_it/types.py:4-9 | two commands are equal exactly when their names and descriptions are equal |
| Types.OptionInfoEquality | src/mcp_it/types.py:12-17 | two options are equal exactly when their flags and descriptions are equal |
| Patterns.LeadingSpaces | src/mcp_it/command_discovery.py:21 | the indent count is a run of whitespace ending at the first character that is not whitespace |
| CommandPattern.MatchCommandLineSound | src/mcp_it/command_discovery.py:141-147 | a matched line has at most six leading whitespace characters, then a name that starts with an ASCII letter or digit and continues with word characters or `:.-/`, then two whitespace characters and more; the description is that tail stripped |
| CommandPattern.MatchCommandLineComplete | src/mcp_it/command_discovery.py:21 | every line of that shape matches, with that name and the stripped tail as the description |
| CommandPattern.MatchCommandLineAt | src/mcp_it/command_discovery.py:141-147 | the match at a given indent and name end is the name slice and the stripped rest |
| CommandPattern.FormattedCommandLine | src/mcp_it/command_discovery.py:20-21 | a line of indent (at most six), command name, gap (two or more) and stripped description parses back to exactly that name and description |
| CommandPattern.CloneLine | src/mcp_it/command_discovery.py:20 | `"  clone   Clone a repository"` parses to `clone` / `Clone a repository` |
| CommandPattern.NameOnlyLine | src/mcp_it/command_discovery.py:21 | a name followed by three spaces and nothing else matches, with an empty description |
| OptionPattern.FlagsEndSound | src/mcp_it/command_discovery.py:22-27 | the flags group found is a comma-separated chain of spellings followed by an acceptable tail |
| OptionPattern.FlagsEndLongest | src/mcp_it/command_discovery.py:22-27 | no longer chain with an acceptable tail exists (the greedy group backtracks only as far as needed) |
| OptionPattern.MatchOptionLineSound | src/mcp_it/command_discovery.py:150-156 | a matched option line has at most six leading whitespace characters; its flags are the longest acceptable chain and its description is the rest stripped |
| OptionPattern.MatchOptionLineComplete | src/mcp_it/command_discovery.py:22-27 | every line holding an acceptable chain after at most six whitespace characters matches, with flags at least that long |
| OptionPattern.MatchOptionLineNoDescription | src/mcp_it/command_discovery.py:155-156 | with nothing but whitespace after the flags, the description is `""` |
| OptionPattern.MatchOptionLineAt | src/mcp_it/command_discovery.py:150-156 | the match at a given indent and flags end is the flags slice and the stripped rest |
| OptionPattern.ChainSpellings | src/mcp_it/command_discovery.py:24 | every comma-separated piece of a chain, stripped, is one spelling: one or two dashes, then characters that are neither whitespace nor commas |
| OptionPattern.MatchOptionLineSpellings | src/mcp_it/command_discovery.py:22-27 | matched flags start with `-` and every comma-separated piece, stripped, is a spelling |
| Discovery.BlankIsStrippedAway | src/mcp_it/command_discovery.py:93 | `not line.strip()` holds exactly for lines of whitespace only |
| Discovery.BlankIsNoHeader | src/mcp_it/command_discovery.py:88-95 | a blank line is never a section header |
| Discovery.ExtractSections | src/mcp_it/command_discovery.py:85-118 | the loop with the `collecting` flag yields exactly the section-scan specification |
| Discovery.ExtractCommandSections | src/mcp_it/command_discovery.py:85-100 | command section pass, with the command headers of lines 8-14 |
| Discovery.ExtractOptionSections | src/mcp_it/command_discovery.py:103-118 | option section pass, with the option headers of lines 15-18 |
| Discovery.CollectingIff | src/mcp_it/command_discovery.py:86-95 | collecting is on at a line exactly when some earlier header has no blank line between it and this line |
| Discovery.NothingBeforeFirstHeader | src/mcp_it/command_discovery.py:85-100 | lines before the first header yield nothing |
| Discovery.BlankStopsCollecting | src/mcp_it/command_discovery.py:93-95 | after a blank line, nothing is collected until the next header |
| Discovery.CollectingContinues | src/mcp_it/command_discovery.py:93-100 | lines that are not blank, whether they match or not, keep collection on |
| Discovery.SectionScanSound | src/mcp_it/command_discovery.py:85-100 | every entry yielded is the match of one collected line that is neither a header nor blank |
| Discovery.SectionScanComplete | src/mcp_it/command_discovery.py:85-100 | every matching collected line yields its entry |
| Discovery.ExtractLoose | src/mcp_it/command_discovery.py:121-138 | the loose loop yields exactly the loose-scan specification |
| Discovery.ExtractLooseCommands | src/mcp_it/command_discovery.py:121-128 | loose command pass |
| Discovery.ExtractLooseOptions | src/mcp_it/command_discovery.py:131-138 | loose option pass |
| Discovery.LooseScanSound | src/mcp_it/command_discovery.py:121-128 | every loose entry is the match of one line that does not mention "usage" in any case |
| Discovery.LooseScanComplete | src/mcp_it/command_discovery.py:121-128 | every matching line without "usage" yields its entry |
| Discovery.DedupeBy | src/mcp_it/command_discovery.py:159-178 | the loop over `seen`/`ordered` computes the de-duplication specification |
| Discovery.DedupeCommands | src/mcp_it/command_discovery.py:159-167 | de-duplication of commands by name |
| Discovery.DedupeOptions | src/mcp_it/command_discovery.py:170-178 | de-duplication of options by flags |
| Discovery.DedupedKeys | src/mcp_it/command_discovery.py:159-167 | the kept keys are exactly the keys of the input |
| Discovery.DedupedIsFirstOccurrences | src/mcp_it/command_discovery.py:159-167 | the result is the input's entries that are first for their key, in input order |
| Discovery.DedupedDistinct | src/mcp_it/command_discovery.py:159-167 | kept keys are pairwise distinct |
| Discovery.DedupedSubset | src/mcp_it/command_discovery.py:159-167 | every kept entry comes from the input |
| Discovery.DiscoverGating | src/mcp_it/command_discovery.py:64-70 | a non-empty section pass gives its first occurrences; otherwise the loose pass's first occurrences |
| Discovery.DiscoverDistinct | src/mcp_it/command_discovery.py:59-82 | discovered keys are pairwise distinct |
| Discovery.DiscoverPerLine | src/mcp_it/command_discovery.py:59-82 | every discovered entry is the match of a single line, collected or free of "usage" according to the pass that produced it |
| Discovery.DiscoverEmpty | src/mcp_it/command_discovery.py:59-76 | empty help text yields no commands and no options |
| Discovery.DiscoverCommandsDistinct | src/mcp_it/command_discovery.py:59-70 | discovered command names are pairwise distinct |
| Discovery.DiscoverOptionsDistinct | src/mcp_it/command_discovery.py:73-82 | discovered option flags are pairwise distinct |
| Discovery.DiscoverCommandsPerLine | src/mcp_it/command_discovery.py:64-70 | each discovered command is the match of one physical line of `splitlines()` |
| Discovery.DiscoverOptionsPerLine | src/mcp_it/command_discovery.py:78-82 | each discovered option is the match of one physical line; its flags start with `-` and split into spellings |
| CliSections.HeadingLabelIff | src/mcp_it/agents.py:9 | a line is a heading for a label exactly when the label is non-empty, has no backtick, and the stripped line is the heading text around it |
| CliSections.SplitCliSections | src/mcp_it/agents.py:117-139 | the loop over lines with `current_label`, `order` and `sections` computes the split specification |
| CliSections.SplitFromKeepsInvariant | src/mcp_it/agents.py:123-136 | the loop keeps `order` free of duplicates, keeps it equal to the keys, and keeps the current label among them |
| CliSections.SplitSectionsOrder | src/mcp_it/agents.py:117-139 | the label order has no duplicates and holds exactly the keys of the map |
| CliSections.SplitIgnoresPreamble | src/mcp_it/agents.py:135 | lines before the first heading do not change the split |
| CliSections.PreambleIsIgnored | src/mcp_it/agents.py:135-136 | lines with no heading and no current label leave the state as it started |
| CliSections.SplitStepHeading | src/mcp_it/agents.py:124-133 | a heading makes its label current and adds it to the order once; the section that was current gains a `""` line; the heading is appended to its label's lines (after that `""` when the label was already current, as the only line of a new label); other labels are untouched |
| CliSections.SplitStepBody | src/mcp_it/agents.py:135-136 | a line that is not a heading goes to the current label only |
| CliSections.SplitFromBody | src/mcp_it/agents.py:135-136 | a run of lines that are not headings is appended to the current label |
| CliSections.MergeToolsBlocks | src/mcp_it/agents.py:142-152 | the result is the merged sections' bodies joined by blank lines, stripped, with one final newline |
| CliSections.MergeSections | src/mcp_it/agents.py:146-149 | the merge loop computes the merge specification: labels appended when new, bodies replaced |
| CliSections.MergeIntoOrder | src/mcp_it/agents.py:146-148 | existing labels keep their order and come first; new labels follow in incoming order |
| CliSections.NewLabelsMembers | src/mcp_it/agents.py:147-148 | the appended labels are exactly the incoming ones not already present |
| CliSections.MergeIntoKeys | src/mcp_it/agents.py:146-149 | the merged order has no duplicates and matches the merged keys |
| CliSections.MergeIntoBodies | src/mcp_it/agents.py:149 | incoming labels take incoming bodies; other existing labels keep theirs |
| CliSections.MergeIntoSpec | src/mcp_it/agents.py:142-151 | order, uniqueness and bodies of a full merge together |
| ToolsRegion.FirstPairAt | src/mcp_it/agents.py:101-109 | with no start marker before and no end marker inside, the first pair is the one around the middle text: its inner text is that text stripped, and removing regions keeps what precedes it |
| ToolsRegion.BetweenNeedsMarkers | src/mcp_it/agents.py:101-109 | inner text is non-empty only when both markers occur, and it is stripped |
| ToolsRegion.BetweenHasNoClose | src/mcp_it/agents.py:103 | the lazy group never contains the end marker |
| ToolsRegion.FirstRegion | src/mcp_it/agents.py:76-79 | in a document whose first region holds `mid`, the inner text is `mid` stripped and removing regions keeps the rest |
| ToolsRegion.RegionReadBack | src/mcp_it/agents.py:81 | a region written around a stripped body without an end marker extracts back to that body |
| ToolsRegion.ExtractNeedsMarkers | src/mcp_it/agents.py:101-109 | extracted inner text is stripped and needs both markers |
| ToolsRegion.ExtractHasNoEnd | src/mcp_it/agents.py:101-109 | extracted inner text holds no end marker |
| ToolsRegion.InjectFromBinding | src/mcp_it/agents.py:67-88 | the function from line 76 on, with `normalized_content` bound or not: it fails, with an unbound `normalized_content`, exactly when nothing is bound to it |
| ToolsRegion.AsWrittenNeverInjects | src/mcp_it/agents.py:76-88 | the code as written never returns a document, while the corrected one always ends with a region |
| ToolsRegion.InjectEndsWithRegion | src/mcp_it/agents.py:81-88 | every result ends with `start marker, "\n", inner, "\n", end marker, "\n"` |
| ToolsRegion.InjectIntoUnmarked | src/mcp_it/agents.py:69-88 | a document without markers keeps its text, less leading newlines, followed by a blank line when it has text, then the block's inner text (or the document's stripped text as fallback) in a new region |
| ToolsRegion.InjectWithStrayMarker | src/mcp_it/agents.py:83-88 | with only one kind of marker, every start marker is removed, then every end marker from what is left, then the text is stripped and the region appended as for an unmarked document |
| ToolsRegion.InjectWithUnpairedMarkers | src/mcp_it/agents.py:76-81 | with both markers but every end marker before the first start marker, the region branch finds no inner text and removes nothing: the document, right-stripped, its separator, and a region holding the merge of nothing with the block's inner text |
| ToolsRegion.InjectReplacesRegion | src/mcp_it/agents.py:76-81 | with a region, every region is removed, trailing whitespace trimmed, and the merge of old and new inner text appended as one region |
| ToolsRegion.InjectIntoSampleDocument | src/mcp_it/agents.py:87-88 | `"# My Project\n"` becomes `"# My Project\n\n\n"` followed by the region |
| ToolsRegion.InjectTwiceDiffers | src/mcp_it/agents.py:76-88 | for every block, injecting into `"# My Project\n"` a second time changes the document |
| Render.RenderToolsSection | src/mcp_it/agents.py:12-64 | the appending method returns exactly the rendered block |
| Render.AppendCommands | src/mcp_it/agents.py:31-43 | the command loop appends every command's lines, in input order |
| Render.AppendCommand | src/mcp_it/agents.py:32-43 | one command's lines are appended |
| Render.AppendOptions | src/mcp_it/agents.py:38-42 | the option loop appends one line per option, in order, with the em dash only before a non-empty description |
| Render.AppendExcerpt | src/mcp_it/agents.py:45-57 | the excerpt lines and the truncated / available / saved note are appended as the branches say |
| Render.RenderLinesFramed | src/mcp_it/agents.py:24-62 | the line list is the start marker, the body lines, then the end marker |
| Render.RenderFraming | src/mcp_it/agents.py:24-64 | the first lines are the start marker, the heading and the introduction; the last are the notes line and the end marker; the block is those lines joined by "\n" with a final newline |
| Render.RestEnds | src/mcp_it/agents.py:27-61 | after the heading come the introduction first and the notes line last |
| Render.OptionLinesSpec | src/mcp_it/agents.py:38-42 | one option line per option, in order |
| Render.CommandsLinesAppend | src/mcp_it/agents.py:31-43 | the lines of a concatenation of commands are the concatenation of their lines |
| Render.CommandSectionAt | src/mcp_it/agents.py:31-43 | the i-th command's lines appear contiguously after those of the commands before it |
| Render.CommandSectionShape | src/mcp_it/agents.py:32-43 | a command's lines are its `### ` heading, a `Description:` line exactly when the description is non-empty, the invocation, `Common options:` and every option in order when there are options, then an empty line |
| BlockReadBack.HeadingShape | src/mcp_it/agents.py:26 | the rendered heading is a stripped line that the heading pattern reads as the CLI label |
| BlockReadBack.RestQuiet | src/mcp_it/agents.py:27-61 | given plain inputs, no line after the heading is a heading, contains the end marker or breaks a line other than with "\n", so the rendering is quiet |
| BlockReadBack.SplitOfBody | src/mcp_it/agents.py:117-139 | the body text splits into one section, the CLI's, holding the whole body |
| BlockReadBack.RenderReadBack | src/mcp_it/agents.py:101-139 | for a quiet rendering, the extracted inner text of a rendered block is its body, and splitting it gives the order `[cli]` with the body as the CLI's section |
| Reinjection.RenderedReadsBack | src/mcp_it/agents.py:12-64 | for a quiet rendering, a rendered block is the region around its body, and the body is the one section of the CLI |
| Reinjection.MergeSingle | src/mcp_it/agents.py:142-151 | merging a single-section block gives its label the new body, keeps every other label and body, and appends the label only when absent |
| Reinjection.MergeReplacesOnly | src/mcp_it/agents.py:142-152 | a block holding only that CLI's section is replaced by the new section |
| Reinjection.MergeAddsSection | src/mcp_it/agents.py:142-152 | a block holding another CLI's section keeps it, and the new section follows after a blank line |
| Reinjection.InjectIntoUnmarkedKeepsBlock | src/mcp_it/agents.py:83-88 | the rendered block is appended to an unmarked document unchanged |
| Reinjection.InjectReplacesSection | src/mcp_it/agents.py:76-81 | a region holding only this CLI's section is replaced by the rendered block at the end of the remaining text |
| Reinjection.InjectAddsSection | src/mcp_it/agents.py:76-81 | a region holding another CLI's section keeps that section, with the new one after it in one region |
| Reinjection.InjectAfterText | src/mcp_it/agents.py:76-81 | text without a start marker followed by the rendered block becomes that text right-stripped, its separator, and the block |
| Reinjection.InjectFixpoint | src/mcp_it/agents.py:76-81 | right-stripped text, its separator and the rendered block form a fixpoint of injecting that block |
| Reinjection.InjectTwice | src/mcp_it/agents.py:67-88 | two injections into an unmarked document give its text trimmed at both ends, a separator, and the block |
| Reinjection.InjectSettles | src/mcp_it/agents.py:67-88 | from the second injection of the block on, the document no longer changes |
| Reinjection.InjectRenderedSettles | src/mcp_it/agents.py:12-88 | the same for a block produced by `render_tools_section` with a quiet rendering |
| Reinjection.InjectTrimmedUnmarked | src/mcp_it/agents.py:83-88 | with the kept text right-stripped, a rendered block is appended to an unmarked document after its text, less leading newlines and trailing whitespace, and its separator |
| Reinjection.InjectTrimmedIdempotent | src/mcp_it/agents.py:67-88 | with the kept text right-stripped, injecting the same rendered block a second time into what the first injection gave leaves it unchanged, for every document without markers |
| SectionRegions.SplitJoined | src/mcp_it/agents.py:117-139 | bodies of distinct labels joined by blank lines split into exactly those labels, in order, each with its own body |
| SectionRegions.MergeReplacesAmong | src/mcp_it/agents.py:142-152 | merging one label's new section into several gives the same list with that body replaced in place, with a final newline |
| SectionRegions.MergeAddsAmong | src/mcp_it/agents.py:142-152 | merging a new label's section into several gives the list with the new body appended, with a final newline |
| SectionRegions.InjectReplacesAmong | src/mcp_it/agents.py:76-81 | in a document whose first region holds several sections, injecting one of their CLIs' blocks removes every region and appends one region with that section replaced and the others kept in order |
| SectionRegions.InjectAddsAmong | src/mcp_it/agents.py:76-81 | the same with a block for a CLI not yet in the region: its section follows the others |
| SectionRegions.InjectReplacesAfterText | src/mcp_it/agents.py:76-81 | text without a start marker followed by a region of several sections: the text right-stripped, its separator, and the region with the one section replaced |
| SectionRegions.InjectAddsAfterText | src/mcp_it/agents.py:76-81 | the same with the new CLI's section appended |
| SectionRegions.InjectFixpointAmong | src/mcp_it/agents.py:76-81 | right-stripped text, its separator and a region of several sections are a fixpoint of injecting a block whose section is already one of them |
| SectionRegions.InjectTwoClis | src/mcp_it/agents.py:67-88 | injecting the blocks of two different CLIs into an unmarked document gives its trimmed text, a separator, and one region holding the first section, a blank line, then the second |
| SectionRegions.TwoClisSettle | src/mcp_it/agents.py:67-88 | re-injecting either of the two blocks into that document leaves it unchanged |

## Left out

- `collect_help_text` (`command_discovery.py:30-56`) runs subprocesses. Its output is the `helpText` parameter of `Discovery.DiscoverCommands` and `Discovery.DiscoverOptions`.
- `load_agents_md` and `write_agents` (`agents.py:91-98`) read and write files. The document is the `content` parameter of `ToolsRegion.InjectToolsSection`.
- `cli.py` is not part of this model. It holds argument handling, path resolution, sidecar files and the excerpt truncation before rendering.
- Python's regular-expression engine is not modelled. Each pattern is a hand-written matcher with lemmas in both directions.
- `\w` and `lower()` are ASCII only. A non-ASCII letter in a command name, or a non-ASCII upper-case header, is read differently from Python.
- `Path` arguments of `render_tools_section` are given by their string form, as `Option<string>`.
- BlockReadBack.RenderReadBack, Reinjection.RenderedReadsBack, Reinjection.InjectRenderedSettles: hold for a quiet rendering, as `BlockReadBack.QuietRendering` states:
  - the label is non-empty, a single line with no `<`, and has no backtick;
  - no line after the heading is a heading, contains the end marker, or breaks a line other than with "\n".

  The source reads back a different section only when a rendered line breaks those line rules. For the label, `<` is excluded only as a cheap sufficient test for "no end marker in the heading"; a label with `<` is left unproved. `BlockReadBack.RestQuiet` shows that plain inputs give a quiet rendering (`BlockReadBack.ReadableInputs`: every field a single line with no `<`, and an excerpt with "\n" breaks, no end marker and no heading line). Fields with `<`, such as the flags `--output=<file>`, can still give a quiet rendering, but the model proves no such case.
- Reinjection.InjectSettles: needs a document without markers. The idempotence the documentation states for a single re-injection is false; `ToolsRegion.InjectTwiceDiffers` shows it.
- Reinjection.MergeAddsSection: stated for an existing region holding one section. `SectionRegions.MergeAddsAmong` states it for several.

## Findings

| source | as written | input that shows it | evidently intended | confidence | as-written member | corrected member |
|---|---|---|---|---|---|---|
| src/mcp_it/agents.py:76-88 | `normalized_content` is read on line 76, but it is only assigned on line 85. Python therefore treats it as a local, and every call raises `UnboundLocalError`. | any call, e.g. `inject_tools_section("", block)` | `normalized_content = content` before line 76 | not executed | ToolsRegion.AsWrittenNeverInjects | ToolsRegion.InjectToolsSection |
| src/mcp_it/agents.py:83-88 | Without a region, the text before the new region keeps its trailing newlines. The next injection takes the region branch and right-strips that text, so the document changes a second time. | `inject_tools_section("# My Project\n", block)`, then the same block again | `normalized_content.rstrip()` on line 88, so that a single re-injection leaves the document unchanged | not executed | ToolsRegion.InjectTwiceDiffers | ToolsRegion.InjectTrimmed |
