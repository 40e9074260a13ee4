/**
 * The managed region of an instructions document: the two marker strings,
 * the inner text of the first region, the removal of every region, and
 * `inject_tools_section`, which appends a fresh region holding either the
 * block's inner text or, when the document already has a region, the merge
 * of the old inner text with the new one.
 */
module ToolsRegion {
  import opened Wrappers
  import opened Text
  import opened CliSections

  const ToolsStart: string := "<!-- tools start -->"
  const ToolsEnd: string := "<!-- tools end -->"

  /** A marker opens with '<', holds no other '<' and no line break. */
  predicate MarkerShaped(w: string) {
    w != [] && w[0] == '<' && (forall k :: 1 <= k < |w| ==> w[k] != '<') && IsLine(w)
  }

  lemma {:induction false} MarkersShaped()
    ensures MarkerShaped(ToolsStart) && MarkerShaped(ToolsEnd)
  {
  }

  /** No '<' anywhere in `s`. */
  predicate NoAngle(s: string) {
    forall i :: 0 <= i < |s| ==> s[i] != '<'
  }

  /** Inside an occurrence of `w` at `j`, the text is `w`. */
  lemma {:induction false} CharOfOccurrence(s: string, w: string, j: nat, k: nat)
    ensures OccursAt(s, w, j) && j <= k < j + |w| ==> s[k] == w[k - j]
  {
    if OccursAt(s, w, j) && j <= k < j + |w| {
      assert s[j..j + |w|][k - j] == s[k];
    }
  }

  /** A text without '<' holds no marker. */
  lemma {:induction false} NoAngleNoMarker(s: string, w: string)
    requires MarkerShaped(w) && NoAngle(s)
    ensures !Contains(s, w)
  {
    forall j: nat ensures !OccursAt(s, w, j) {
      CharOfOccurrence(s, w, j, j);
    }
    NotContainsIff(s, w);
  }

  /**
   * The search for a marker from `from` stops at `p` when the marker occurs
   * at `p` and no copy of it lies wholly in `s[from..p]`: a copy starting
   * earlier and reaching past `p` would hold the '<' at `p` after its start.
   */
  lemma {:induction false} FirstMarkerAt(s: string, w: string, from: nat, p: nat)
    requires MarkerShaped(w) && from <= p && OccursAt(s, w, p) && !Contains(s[from..p], w)
    ensures FindFrom(s, w, from) == Some(p)
  {
    NotContainsIff(s[from..p], w);
    CharOfOccurrence(s, w, p, p);
    forall j | from <= j < p ensures !OccursAt(s, w, j) {
      if j + |w| <= p {
        SliceOfSlice(s, from, p, j - from, j - from + |w|);
        assert !OccursAt(s[from..p], w, j - from);
      } else {
        CharOfOccurrence(s, w, j, p);
      }
    }
  }

  /** Where the parts of `pre + open + mid + close + post` lie. */
  lemma {:induction false} PairParts(pre: string, open: string, mid: string, close: string, post: string, s: string)
    requires s == pre + open + mid + close + post
    ensures var a := |pre| + |open|;
      var j := a + |mid|;
      && s[..|pre|] == pre
      && OccursAt(s, open, |pre|)
      && s[a..j] == mid
      && OccursAt(s, close, j)
      && s[j + |close|..] == post
  {
  }

  /**
   * The text between the first `open` and the first `close` after it (a
   * lazy `open(.*?)close` search), stripped; "" when there is no such pair.
   */
  function Between(content: string, open: string, close: string): string {
    match FindFrom(content, open, 0)
    case None => ""
    case Some(i) =>
      match FindFrom(content, close, i + |open|)
      case None => ""
      case Some(j) => Strip(content[i + |open|..j])
  }

  /**
   * Every pair removed, from an `open` to the first `close` after it,
   * scanning on after the removed `close` (a `sub` with that pattern).
   */
  function RemovePairs(s: string, open: string, close: string): string
    requires close != []
    decreases |s|
  {
    match FindFrom(s, open, 0)
    case None => s
    case Some(i) =>
      match FindFrom(s, close, i + |open|)
      case None => s
      case Some(j) => s[..i] + RemovePairs(s[j + |close|..], open, close)
  }

  /** The two searches stop at `p` and `j` when nothing earlier matches. */
  lemma {:induction false} PairFound(s: string, open: string, close: string, p: nat, j: nat)
    requires MarkerShaped(open) && MarkerShaped(close) && p + |open| <= j
    requires OccursAt(s, open, p) && !Contains(s[0..p], open)
    requires OccursAt(s, close, j) && !Contains(s[p + |open|..j], close)
    ensures FindFrom(s, open, 0) == Some(p)
    ensures FindFrom(s, close, p + |open|) == Some(j)
  {
    FirstMarkerAt(s, open, 0, p);
    FirstMarkerAt(s, close, p + |open|, j);
  }

  /** The pair the searches find decides both functions. */
  lemma {:induction false} PairAt(s: string, open: string, close: string, p: nat, j: nat)
    requires close != []
    requires FindFrom(s, open, 0) == Some(p) && FindFrom(s, close, p + |open|) == Some(j)
    ensures p + |open| <= j && j + |close| <= |s|
    ensures Between(s, open, close) == Strip(s[p + |open|..j])
    ensures RemovePairs(s, open, close) == s[..p] + RemovePairs(s[j + |close|..], open, close)
  {
    PairBetween(s, open, close, p, j);
    PairRemoved(s, open, close, p, j);
  }

  lemma {:induction false} PairBetween(s: string, open: string, close: string, p: nat, j: nat)
    requires FindFrom(s, open, 0) == Some(p) && FindFrom(s, close, p + |open|) == Some(j)
    ensures p + |open| <= j && j + |close| <= |s|
    ensures Between(s, open, close) == Strip(s[p + |open|..j])
  {
    assert OccursAt(s, close, j);
  }

  lemma {:induction false} PairRemoved(s: string, open: string, close: string, p: nat, j: nat)
    requires close != []
    requires FindFrom(s, open, 0) == Some(p) && FindFrom(s, close, p + |open|) == Some(j)
    ensures RemovePairs(s, open, close) == s[..p] + RemovePairs(s[j + |close|..], open, close)
  {
    assert OccursAt(s, close, j);
  }

  /**
   * In `pre + open + mid + close + post`, with no `open` in `pre` and no
   * `close` in `mid`, the first pair is the one around `mid`.
   */
  lemma {:induction false} FirstPairAt(pre: string, open: string, mid: string, close: string, post: string)
    requires MarkerShaped(open) && MarkerShaped(close)
    requires !Contains(pre, open) && !Contains(mid, close)
    ensures var s := pre + open + mid + close + post;
      && Between(s, open, close) == Strip(mid)
      && RemovePairs(s, open, close) == pre + RemovePairs(post, open, close)
  {
    var s := pre + open + mid + close + post;
    PairParts(pre, open, mid, close, post, s);
    FirstPairIn(s, open, close, pre, mid, post, |pre|, |pre| + |open| + |mid|);
  }

  /** `FirstPairAt` with the text given by where its parts lie. */
  lemma {:induction false} FirstPairIn(s: string, open: string, close: string, pre: string, mid: string, post: string, p: nat, j: nat)
    requires MarkerShaped(open) && MarkerShaped(close)
    requires !Contains(pre, open) && !Contains(mid, close)
    requires p == |pre| && j == p + |open| + |mid| && j + |close| <= |s|
    requires s[..p] == pre && OccursAt(s, open, p) && s[p + |open|..j] == mid
    requires OccursAt(s, close, j) && s[j + |close|..] == post
    ensures Between(s, open, close) == Strip(mid)
    ensures RemovePairs(s, open, close) == pre + RemovePairs(post, open, close)
  {
    assert s[0..p] == s[..p];
    PairFound(s, open, close, p, j);
    PairAt(s, open, close, p, j);
  }

  /** The pair found holds no `close`: the lazy match stops at the first one. */
  lemma {:induction false} BetweenHasNoClose(content: string, open: string, close: string)
    requires close != []
    ensures !Contains(Between(content, open, close), close)
  {
    match FindFrom(content, open, 0)
    case None =>
    case Some(i) =>
      var a := i + |open|;
      match FindFrom(content, close, a)
      case None =>
      case Some(j) =>
        var t := content[a..j];
        forall k: nat ensures !OccursAt(t, close, k) {
          if k + |close| <= |t| {
            SliceOfSlice(content, a, j, k, k + |close|);
            assert !OccursAt(content, close, a + k);
          }
        }
        NotContainsIff(t, close);
        StripNotContains(t, close);
  }

  /** A pair is found only between an `open` and a `close`, and what it holds is stripped. */
  lemma {:induction false} BetweenNeedsMarkers(content: string, open: string, close: string)
    ensures Between(content, open, close) != [] ==> Contains(content, open) && Contains(content, close)
    ensures Stripped(Between(content, open, close))
  {
    BetweenStripped(content, open, close);
    match FindFrom(content, open, 0)
    case None =>
    case Some(i) =>
      ContainsAt(content, open, i);
      match FindFrom(content, close, i + |open|)
      case None =>
      case Some(j) =>
        ContainsAt(content, close, j);
  }

  lemma {:induction false} BetweenStripped(content: string, open: string, close: string)
    ensures Stripped(Between(content, open, close))
  {
    match FindFrom(content, open, 0)
    case None =>
    case Some(i) =>
      match FindFrom(content, close, i + |open|)
      case None =>
      case Some(j) =>
        StripSpec(content[i + |open|..j]);
  }

  /** Stripping cannot create a word. */
  lemma {:induction false} StripNotContains(s: string, w: string)
    requires !Contains(s, w)
    ensures !Contains(Strip(s), w)
  {
    StripSpec(s);
    var a, b :| 0 <= a <= b <= |s| && Strip(s) == s[a..b];
    SliceNotContains(s, w, a, b);
  }

  // ---------------------------------------------------------------------
  // _extract_tools_block, _strip_outer_tools_markers, the region pattern

  /**
   * `_extract_tools_block`: the text between the first start marker and the
   * first end marker after it, stripped; "" when there is no such pair.
   */
  function ExtractToolsBlock(content: string): string {
    Between(content, ToolsStart, ToolsEnd)
  }

  /** `_strip_outer_tools_markers`: the inner text of the block, or `fallback` when that is empty. */
  function StripOuterToolsMarkers(text: string, fallback: string): string {
    var inner := ExtractToolsBlock(text);
    if inner != [] then inner else fallback
  }

  /** `block_pattern.sub("", content)`: every region removed. */
  function RemoveRegions(s: string): string {
    RemovePairs(s, ToolsStart, ToolsEnd)
  }

  /** The region written for inner text `body`. */
  function Region(body: string): string {
    ToolsStart + "\n" + body + "\n" + ToolsEnd + "\n"
  }

  /**
   * In a text whose first region holds `mid`, the inner text is `mid`
   * stripped, and removing regions keeps what precedes that region and goes
   * on after it.
   */
  lemma {:induction false} FirstRegion(pre: string, mid: string, post: string)
    requires !Contains(pre, ToolsStart) && !Contains(mid, ToolsEnd)
    ensures ExtractToolsBlock(pre + ToolsStart + mid + ToolsEnd + post) == Strip(mid)
    ensures RemoveRegions(pre + ToolsStart + mid + ToolsEnd + post) == pre + RemoveRegions(post)
  {
    MarkersShaped();
    FirstPairAt(pre, ToolsStart, mid, ToolsEnd, post);
  }

  /** A region reads back as its body, when the body is stripped and holds no end marker. */
  lemma {:induction false} RegionReadBack(body: string)
    requires Stripped(body) && !Contains(body, ToolsEnd)
    ensures ExtractToolsBlock(Region(body)) == body
  {
    MarkersShaped();
    var mid := "\n" + body + "\n";
    assert Region(body) == "" + ToolsStart + mid + ToolsEnd + "\n";
    assert !Contains("", ToolsStart);
    PaddedNotContains(body, ToolsEnd);
    FirstRegion("", mid, "\n");
    assert AllSpace("\n");
    StripPadded("\n", body, "\n");
    StripStripped(body);
  }

  /** Inner text is found only between a start marker and an end marker, and it is stripped. */
  lemma {:induction false} ExtractNeedsMarkers(content: string)
    ensures ExtractToolsBlock(content) != [] ==> Contains(content, ToolsStart) && Contains(content, ToolsEnd)
    ensures Stripped(ExtractToolsBlock(content))
  {
    BetweenNeedsMarkers(content, ToolsStart, ToolsEnd);
  }

  /** The inner text never holds the end marker. */
  lemma {:induction false} ExtractHasNoEnd(content: string)
    ensures !Contains(ExtractToolsBlock(content), ToolsEnd)
  {
    BetweenHasNoClose(content, ToolsStart, ToolsEnd);
  }

  /** Text without a start marker has no region to remove. */
  lemma {:induction false} RemoveNoRegion(s: string)
    requires !Contains(s, ToolsStart)
    ensures RemoveRegions(s) == s
  {
  }

  // ---------------------------------------------------------------------
  // inject_tools_section

  /** `"\n\n"` between non-empty text and the region, nothing otherwise. */
  function Separator(text: string): string {
    if text != [] then "\n\n" else ""
  }

  /**
   * `inject_tools_section` from the test for a managed region (line 76) on,
   * with the local `normalized_content` in the given state: `None` while
   * nothing has been assigned to it, which Python reports when the test
   * reads it, `Some(n)` once it is bound to `n`. The malformed-marker
   * branch rebinds it to the sanitized text before the region is appended.
   */
  function InjectFromBinding(content: string, toolsBlock: string, normalized: Option<string>): (r: Result<string, InjectError>)
    ensures r.Err? <==> normalized.None?
    ensures r.Err? ==> r.error == UnboundLocal("normalized_content")
  {
    var toolsInner := StripOuterToolsMarkers(toolsBlock, Strip(content));
    match normalized
    case None => Err(UnboundLocal("normalized_content"))
    case Some(n) =>
      if Contains(n, ToolsStart) && Contains(n, ToolsEnd) then
        var existingInner := ExtractToolsBlock(n);
        var mergedInner := MergeBlocks(existingInner, toolsInner);
        var withoutBlocks := RStrip(RemoveRegions(n));
        Ok(withoutBlocks + Separator(withoutBlocks) + Region(Strip(mergedInner)))
      else
        var rebound :=
          if Contains(n, ToolsStart) || Contains(n, ToolsEnd)
          then Strip(RemoveAll(RemoveAll(n, ToolsStart), ToolsEnd))
          else n;
        Ok(LStripNewlines(rebound + Separator(Strip(rebound)) + Region(Strip(toolsInner))))
  }

  /** What stops `inject_tools_section` as written. */
  datatype InjectError = UnboundLocal(name: string)

  /**
   * `inject_tools_section` as written: `normalized_content` is assigned only
   * in the malformed-marker branch, which makes it a local of the whole
   * function, and nothing is assigned to it before line 76 reads it.
   */
  function InjectAsWritten(content: string, toolsBlock: string): Result<string, InjectError> {
    InjectFromBinding(content, toolsBlock, None)
  }

  /**
   * `inject_tools_section` with `normalized_content = content` before line
   * 76, the binding the code evidently intends.
   */
  function InjectToolsSection(content: string, toolsBlock: string): string {
    InjectFromBinding(content, toolsBlock, Some(content)).value
  }

  /**
   * `inject_tools_section` with the binding restored and the text kept
   * before a new region right-stripped (`normalized_content.rstrip()` on
   * line 88), as line 79 already right-strips the text it keeps around a
   * managed region. With it, one re-injection leaves a document unchanged.
   */
  function InjectTrimmed(content: string, toolsBlock: string): string {
    if Contains(content, ToolsStart) && Contains(content, ToolsEnd) then InjectToolsSection(content, toolsBlock)
    else
      var kept :=
        if Contains(content, ToolsStart) || Contains(content, ToolsEnd)
        then Strip(RemoveAll(RemoveAll(content, ToolsStart), ToolsEnd))
        else content;
      var toolsInner := StripOuterToolsMarkers(toolsBlock, Strip(content));
      LStripNewlines(RStrip(kept) + Separator(Strip(kept)) + Region(Strip(toolsInner)))
  }

  lemma {:induction false} RegionStartsWithMarker(body: string)
    ensures Region(body) != [] && Region(body)[0] == '<'
  {
  }

  /** As written, no call yields a document; with the binding restored, every call yields one ending in a region. */
  lemma {:induction false} AsWrittenNeverInjects(content: string, toolsBlock: string)
    ensures InjectAsWritten(content, toolsBlock) == Err(UnboundLocal("normalized_content"))
    ensures exists prefix: string, body: string :: InjectToolsSection(content, toolsBlock) == prefix + Region(body)
  {
    InjectEndsWithRegion(content, toolsBlock);
  }

  /** Every result of the corrected function ends with exactly the region it builds. */
  lemma {:induction false} InjectEndsWithRegion(content: string, toolsBlock: string)
    ensures exists prefix: string, body: string :: InjectToolsSection(content, toolsBlock) == prefix + Region(body)
  {
    var r := InjectToolsSection(content, toolsBlock);
    var toolsInner := StripOuterToolsMarkers(toolsBlock, Strip(content));
    if Contains(content, ToolsStart) && Contains(content, ToolsEnd) {
      var withoutBlocks := RStrip(RemoveRegions(content));
      var body := Strip(MergeBlocks(ExtractToolsBlock(content), toolsInner));
      assert r == (withoutBlocks + Separator(withoutBlocks)) + Region(body);
    } else {
      var sanitized :=
        if Contains(content, ToolsStart) || Contains(content, ToolsEnd)
        then Strip(RemoveAll(RemoveAll(content, ToolsStart), ToolsEnd))
        else content;
      var x := sanitized + Separator(Strip(sanitized));
      var body := Strip(toolsInner);
      RegionStartsWithMarker(body);
      LStripNewlinesAppend(x, Region(body));
      assert r == LStripNewlines(x) + Region(body);
    }
  }

  /** `lstrip("\n")` leaves something of a text that holds more than whitespace. */
  lemma {:induction false} LStripNewlinesKeepsText(s: string)
    requires Strip(s) != []
    ensures LStripNewlines(s) != []
  {
    if s != [] && s[0] == '\n' {
      if LStripNewlines(s[1..]) == [] {
        LStripNewlinesEmpty(s[1..]);
        assert AllSpace(s);
        StripAllSpace(s);
      }
    } else if s == [] {
      StripAllSpace(s);
    }
  }

  lemma {:induction false} LStripNewlinesEmpty(s: string)
    requires LStripNewlines(s) == []
    ensures AllSpace(s)
  {
    if s != [] {
      LStripNewlinesEmpty(s[1..]);
    }
  }

  /**
   * A document without markers is kept, less its leading newlines, and the
   * block's inner text follows in a new region, after a blank line when the
   * document has any text.
   */
  lemma {:induction false} InjectIntoUnmarked(content: string, toolsBlock: string)
    requires !Contains(content, ToolsStart) && !Contains(content, ToolsEnd)
    ensures InjectToolsSection(content, toolsBlock)
      == LStripNewlines(content) + Separator(Strip(content))
         + Region(Strip(StripOuterToolsMarkers(toolsBlock, Strip(content))))
  {
    var r := Region(Strip(StripOuterToolsMarkers(toolsBlock, Strip(content))));
    RegionStartsWithMarker(Strip(StripOuterToolsMarkers(toolsBlock, Strip(content))));
    LStripBeforeMarker(content, Separator(Strip(content)), r);
  }

  /**
   * `lstrip("\n")` of a text, its separator and a region that opens with '<'
   * touches only the text.
   */
  lemma {:induction false} LStripBeforeMarker(x: string, sep: string, r: string)
    requires sep == Separator(Strip(x)) && r != [] && r[0] == '<'
    ensures LStripNewlines(x + sep + r) == LStripNewlines(x) + sep + r
  {
    if Strip(x) != [] {
      LStripNewlinesKeepsText(x);
    }
    LStripNewlinesAppend(x, sep + r);
    assert x + sep + r == x + (sep + r);
  }

  /**
   * A document with only one kind of marker has every start marker removed,
   * then every end marker in what is left (a removal can bring two halves
   * of a marker together), then its surrounding whitespace, and takes a new
   * region as an unmarked document would.
   */
  lemma {:induction false} InjectWithStrayMarker(content: string, toolsBlock: string)
    requires Contains(content, ToolsStart) != Contains(content, ToolsEnd)
    ensures var cleaned := Strip(RemoveAll(RemoveAll(content, ToolsStart), ToolsEnd));
      InjectToolsSection(content, toolsBlock)
        == cleaned + Separator(cleaned) + Region(Strip(StripOuterToolsMarkers(toolsBlock, Strip(content))))
  {
    var cleaned := Strip(RemoveAll(RemoveAll(content, ToolsStart), ToolsEnd));
    var body := Strip(StripOuterToolsMarkers(toolsBlock, Strip(content)));
    StripSpec(RemoveAll(RemoveAll(content, ToolsStart), ToolsEnd));
    StripStripped(cleaned);
    RegionStartsWithMarker(body);
    LStripBeforeMarker(cleaned, Separator(cleaned), Region(body));
    StrippedHasNoLeadingNewline(cleaned);
  }

  /**
   * A document holding both markers but no region: every end marker comes
   * before the first start marker (`pre` ends where that start marker
   * begins, and no end marker follows it). The region branch is still
   * taken, but there is no inner text to find and nothing to remove, so
   * the whole document, less trailing whitespace, is kept and a region
   * holding the merge of nothing with the block's inner text is appended.
   */
  lemma {:induction false} InjectWithUnpairedMarkers(pre: string, post: string, toolsBlock: string)
    requires !Contains(pre, ToolsStart) && Contains(pre, ToolsEnd) && !Contains(post, ToolsEnd)
    ensures var content := pre + ToolsStart + post;
      && ExtractToolsBlock(content) == ""
      && RemoveRegions(content) == content
      && InjectToolsSection(content, toolsBlock)
           == RStrip(content) + Separator(RStrip(content))
              + Region(Strip(MergeBlocks("", StripOuterToolsMarkers(toolsBlock, Strip(content)))))
  {
    UnpairedMarkers(pre, post);
  }

  /** Both markers occur, but no start marker is followed by an end marker. */
  lemma {:induction false} UnpairedMarkers(pre: string, post: string)
    requires !Contains(pre, ToolsStart) && Contains(pre, ToolsEnd) && !Contains(post, ToolsEnd)
    ensures var content := pre + ToolsStart + post;
      && Contains(content, ToolsStart) && Contains(content, ToolsEnd)
      && ExtractToolsBlock(content) == "" && RemoveRegions(content) == content
  {
    MarkersShaped();
    NoPairAfterPrefix(pre, ToolsStart, post, ToolsEnd);
  }

  /** `UnpairedMarkers` for any markers `o` and `c`. */
  lemma {:induction false} NoPairAfterPrefix(pre: string, o: string, post: string, c: string)
    requires MarkerShaped(o) && c != [] && !Contains(pre, o) && Contains(pre, c) && !Contains(post, c)
    ensures var s := pre + o + post;
      && Contains(s, o) && Contains(s, c) && Between(s, o, c) == "" && RemovePairs(s, o, c) == s
  {
    var s := pre + o + post;
    FirstAfterPrefix(pre, o, post);
    assert Contains(s, c) by {
      ContainedInPrefix(pre, o + post, c);
      assert s == pre + (o + post);
    }
    NotFoundAfter(pre + o, post, c);
    NoPairFound(s, o, c, |pre|);
  }

  /** A first `o` with no `c` after it: nothing between, nothing removed. */
  lemma {:induction false} NoPairFound(s: string, o: string, c: string, i: nat)
    requires c != [] && FindFrom(s, o, 0) == Some(i) && FindFrom(s, c, i + |o|).None?
    ensures Contains(s, o) && Between(s, o, c) == "" && RemovePairs(s, o, c) == s
  {
  }

  /** A marker right after text that does not hold it is the first one found. */
  lemma {:induction false} FirstAfterPrefix(pre: string, w: string, post: string)
    requires MarkerShaped(w) && !Contains(pre, w)
    ensures FindFrom(pre + w + post, w, 0) == Some(|pre|)
  {
    var s := pre + w + post;
    assert s[0..|pre|] == pre;
    assert s[|pre|..|pre| + |w|] == w;
    FirstMarkerAt(s, w, 0, |pre|);
  }

  /** What a prefix holds, the whole text holds. */
  lemma {:induction false} ContainedInPrefix(x: string, y: string, w: string)
    requires Contains(x, w)
    ensures Contains(x + y, w)
  {
    var e := FindFrom(x, w, 0).value;
    ConcatSlices(x, y, e, e + |w|);
    ContainsAt(x + y, w, e);
  }

  /** A search that starts where `y` starts finds nothing that `y` does not hold. */
  lemma {:induction false} NotFoundAfter(x: string, y: string, w: string)
    requires !Contains(y, w)
    ensures FindFrom(x + y, w, |x|).None?
  {
    NotContainsIff(y, w);
    forall j: nat | |x| <= j ensures !OccursAt(x + y, w, j) {
      if j + |w| <= |x + y| {
        ConcatSlices(x, y, j, j + |w|);
        assert !OccursAt(y, w, j - |x|);
      }
    }
  }

  /** Stripped text has no leading newline to lose. */
  lemma {:induction false} StrippedHasNoLeadingNewline(s: string)
    requires Stripped(s)
    ensures LStripNewlines(s) == s
  {
    if s != [] {
      LineBreakIsSpace(s[0]);
    }
  }

  /**
   * A document whose first region holds `mid`: that region goes, the text
   * around it stays (later regions removed too, trailing whitespace
   * trimmed), and one region holding the merge of `mid` with the block's
   * inner text is appended, after a blank line when any text remains.
   */
  lemma {:induction false} InjectReplacesRegion(pre: string, mid: string, post: string, toolsBlock: string)
    requires !Contains(pre, ToolsStart) && !Contains(mid, ToolsEnd)
    ensures var content := pre + ToolsStart + mid + ToolsEnd + post;
      var rest := RStrip(pre + RemoveRegions(post));
      InjectToolsSection(content, toolsBlock)
        == rest + Separator(rest)
           + Region(Strip(MergeBlocks(Strip(mid), StripOuterToolsMarkers(toolsBlock, Strip(content)))))
  {
    var content := pre + ToolsStart + mid + ToolsEnd + post;
    PairParts(pre, ToolsStart, mid, ToolsEnd, post, content);
    ContainsAt(content, ToolsStart, |pre|);
    ContainsAt(content, ToolsEnd, |pre| + |ToolsStart| + |mid|);
    FirstRegion(pre, mid, post);
  }

  // ---------------------------------------------------------------------
  // Injecting twice

  const SampleDocument: string := "# My Project\n"

  lemma {:induction false} SampleDocumentShape()
    ensures NoAngle(SampleDocument) && Strip(SampleDocument) == "# My Project"
    ensures !Contains(SampleDocument, ToolsStart) && !Contains(SampleDocument, ToolsEnd)
    ensures LStripNewlines(SampleDocument) == SampleDocument
  {
    MarkersShaped();
    assert LStrip(SampleDocument) == SampleDocument;
    assert SampleDocument[..12] == "# My Project";
    NoAngleNoMarker(SampleDocument, ToolsStart);
    NoAngleNoMarker(SampleDocument, ToolsEnd);
  }

  /** "# My Project\n" keeps its heading, gains two empty lines and then the region. */
  lemma {:induction false} InjectIntoSampleDocument(toolsBlock: string)
    ensures InjectToolsSection(SampleDocument, toolsBlock)
      == "# My Project\n\n\n" + Region(Strip(StripOuterToolsMarkers(toolsBlock, "# My Project")))
  {
    SampleDocumentShape();
    InjectIntoUnmarked(SampleDocument, toolsBlock);
  }

  /**
   * Injecting a block into "# My Project\n" and then injecting it again never
   * gives back the first result, whatever the block: the first call keeps
   * the document's trailing newline before the blank line, the second
   * trims it.
   */
  lemma {:induction false} InjectTwiceDiffers(toolsBlock: string)
    ensures var once := InjectToolsSection(SampleDocument, toolsBlock);
      InjectToolsSection(once, toolsBlock) != once
  {
    var inner := StripOuterToolsMarkers(toolsBlock, "# My Project");
    var body := Strip(inner);
    InjectIntoSampleDocument(toolsBlock);
    var pre := "# My Project\n\n\n";
    var once := pre + Region(body);
    // the inner text holds no end marker, so the region is the first one
    MarkersShaped();
    SampleHeadShape();
    if ExtractToolsBlock(toolsBlock) != [] {
      ExtractHasNoEnd(toolsBlock);
    }
    StripNotContains(inner, ToolsEnd);
    PaddedNotContains(body, ToolsEnd);
    var mid := "\n" + body + "\n";
    RegionAround(pre, body, once);
    InjectReplacesRegion(pre, mid, "\n", toolsBlock);
    var merged := Strip(MergeBlocks(Strip(mid), StripOuterToolsMarkers(toolsBlock, Strip(once))));
    SecondRest(pre);
    SecondDiffers(body, merged);
  }

  /** Neither the heading nor the text the first call puts before its region holds a marker. */
  lemma {:induction false} SampleHeadShape()
    ensures !Contains("# My Project", ToolsEnd)
    ensures !Contains("# My Project\n\n\n", ToolsStart)
  {
    MarkersShaped();
    assert NoAngle("# My Project");
    assert NoAngle("# My Project\n\n\n");
    NoAngleNoMarker("# My Project", ToolsEnd);
    NoAngleNoMarker("# My Project\n\n\n", ToolsStart);
  }

  /** A document ending in a region, split at the region's markers. */
  lemma {:induction false} RegionAround(pre: string, body: string, s: string)
    requires s == pre + Region(body)
    ensures s == pre + ToolsStart + ("\n" + body + "\n") + ToolsEnd + "\n"
  {
  }

  /** What the second call keeps of the first result. */
  lemma {:induction false} SecondRest(pre: string)
    requires pre == "# My Project\n\n\n"
    ensures var rest := RStrip(pre + RemoveRegions("\n"));
      rest == "# My Project" && Separator(rest) == "\n\n"
  {
    MarkersShaped();
    NoAngleNoMarker("\n", ToolsStart);
    RemoveNoRegion("\n");
    assert pre + "\n" == "# My Project" + "\n\n\n\n";
    assert AllSpace("\n\n\n\n");
    RStripPadded("# My Project", "\n\n\n\n");
    assert "# My Project"[..|"# My Project"| - 1] == "# My Projec";
  }

  /** The two results part at index 14: a marker's '<' in one, a newline in the other. */
  lemma {:induction false} SecondDiffers(body: string, merged: string)
    ensures "# My Project" + "\n\n" + Region(merged) != "# My Project\n\n\n" + Region(body)
  {
    RegionStartsWithMarker(merged);
    var twice := "# My Project" + "\n\n" + Region(merged);
    var once := "# My Project\n\n\n" + Region(body);
    assert twice[14] == Region(merged)[0];
    assert once[14] == '\n';
  }
}
