/**
 * A managed region that holds the sections of several CLIs, one after the
 * other and separated by blank lines, as repeated injections of rendered
 * blocks leave it. The region splits back into exactly those sections;
 * injecting the block of one of its CLIs replaces that section in place and
 * keeps every other one; injecting the block of a new CLI appends its
 * section; and injecting a block whose section the region already holds
 * leaves the document as it is.
 */
module SectionRegions {
  import opened Wrappers
  import opened Text
  import opened CliSections
  import opened ToolsRegion
  import opened BlockReadBack
  import opened Reinjection

  /** Bodies `bs` labelled `cs`: one label per body, no label twice, each body one section of its label. */
  ghost predicate Labelled(cs: seq<string>, bs: seq<string>) {
    && |cs| == |bs| && cs != [] && NoDuplicates(cs)
    && forall i :: 0 <= i < |bs| ==> SectionBody(cs[i], bs[i])
  }

  /** The map from each label to its body. */
  function BodyMap(cs: seq<string>, bs: seq<string>): map<string, string>
    requires |cs| == |bs|
  {
    if cs == [] then map[]
    else BodyMap(cs[..|cs| - 1], bs[..|bs| - 1])[cs[|cs| - 1] := bs[|bs| - 1]]
  }

  /** With distinct labels, the map holds exactly the labels, each with its own body. */
  lemma {:induction false} BodyMapAt(cs: seq<string>, bs: seq<string>)
    requires |cs| == |bs| && NoDuplicates(cs)
    ensures forall l :: l in BodyMap(cs, bs) <==> l in cs
    ensures forall i :: 0 <= i < |cs| ==> BodyMap(cs, bs)[cs[i]] == bs[i]
  {
    if cs != [] {
      var n := |cs| - 1;
      BodyMapAt(cs[..n], bs[..n]);
      FrontAndLast(cs);
      forall i | 0 <= i < n ensures BodyMap(cs, bs)[cs[i]] == bs[i] {
        assert cs[i] != cs[n];
        assert cs[..n][i] == cs[i] && bs[..n][i] == bs[i];
      }
    }
  }

  lemma {:induction false} LabelledOne(c: string, b: string)
    requires SectionBody(c, b)
    ensures Labelled([c], [b])
  {
  }

  /** The first `|bs| - 1` bodies, with their labels, are labelled too. */
  lemma {:induction false} LabelledInit(cs: seq<string>, bs: seq<string>)
    requires Labelled(cs, bs) && |cs| > 1
    ensures Labelled(cs[..|cs| - 1], bs[..|bs| - 1])
  {
    var n := |cs| - 1;
    forall i | 0 <= i < n ensures SectionBody(cs[..n][i], bs[..n][i]) {
      assert cs[..n][i] == cs[i] && bs[..n][i] == bs[i];
    }
  }

  // ---------------------------------------------------------------------
  // The text of the region

  /** The lines of the bodies joined by blank lines: each body's lines, with one empty line between bodies. */
  ghost function JoinedLines(bs: seq<string>): seq<string>
    requires bs != []
  {
    if |bs| == 1 then SplitLines(bs[0])
    else JoinedLines(bs[..|bs| - 1]) + [""] + SplitLines(bs[|bs| - 1])
  }

  /** Stripped bodies joined by blank lines make a stripped text whose lines are the joined lines. */
  lemma {:induction false} JoinedText(bs: seq<string>)
    requires bs != [] && forall i :: 0 <= i < |bs| ==> bs[i] != [] && Stripped(bs[i])
    ensures Join("\n\n", bs) != [] && Stripped(Join("\n\n", bs))
    ensures SplitLines(Join("\n\n", bs)) == JoinedLines(bs)
  {
    if |bs| > 1 {
      var n := |bs| - 1;
      var init := bs[..n];
      forall i | 0 <= i < n ensures init[i] != [] && Stripped(init[i]) {
        assert init[i] == bs[i];
      }
      JoinedText(init);
      FrontAndLast(bs);
      JoinAppend("\n\n", init, bs[n]);
      BlankLineBetween(Join("\n\n", init), bs[n]);
    }
  }

  /** Two stripped texts around a blank line: still stripped, and their lines with an empty line between. */
  lemma {:induction false} BlankLineBetween(x: string, b: string)
    requires x != [] && Stripped(x) && b != [] && Stripped(b)
    ensures Stripped(x + "\n\n" + b)
    ensures SplitLines(x + "\n\n" + b) == SplitLines(x) + [""] + SplitLines(b)
  {
    assert x + "\n\n" + b == x + "\n" + ("\n" + b);
    LineBreakIsSpace(x[|x| - 1]);
    SplitLinesCons(x, "\n" + b);
    SplitLinesAfterNewline(b);
    ConcatAssoc(SplitLines(x), [""], SplitLines(b));
    StrippedAround(x, "\n\n", b);
  }

  /** Bodies without the end marker, joined by blank lines, hold no end marker. */
  lemma {:induction false} JoinedNoEnd(bs: seq<string>)
    requires forall i :: 0 <= i < |bs| ==> !Contains(bs[i], ToolsEnd)
    ensures !Contains(Join("\n\n", bs), ToolsEnd)
  {
    if |bs| == 0 {
      assert !Contains("", ToolsEnd);
    } else if |bs| == 1 {
      assert Join("\n\n", bs) == bs[0];
    } else {
      var n := |bs| - 1;
      var init := bs[..n];
      forall i | 0 <= i < n ensures !Contains(init[i], ToolsEnd) {
        assert init[i] == bs[i];
      }
      JoinedNoEnd(init);
      FrontAndLast(bs);
      JoinAppend("\n\n", init, bs[n]);
      NoEndAroundBlankLine(Join("\n\n", init), bs[n]);
    }
  }

  lemma {:induction false} NoEndAroundBlankLine(x: string, b: string)
    requires !Contains(x, ToolsEnd) && !Contains(b, ToolsEnd)
    ensures !Contains(x + "\n\n" + b, ToolsEnd)
  {
    MarkersShaped();
    var parts := [x, "", b];
    assert !Contains("", ToolsEnd);
    JoinNotContains(parts, ToolsEnd);
    assert Join("\n", ["", b]) == "" + "\n" + b by {
      JoinCons("\n", "", [b]);
      assert [""] + [b] == ["", b];
    }
    assert Join("\n", parts) == x + "\n" + Join("\n", ["", b]) by {
      JoinCons("\n", x, ["", b]);
      assert [x] + ["", b] == parts;
    }
    assert x + "\n" + ("" + "\n" + b) == x + "\n\n" + b;
  }

  /** What labelled bodies joined by blank lines are, as the text of a region. */
  lemma {:induction false} JoinedFacts(cs: seq<string>, bs: seq<string>)
    requires Labelled(cs, bs)
    ensures Join("\n\n", bs) != [] && Stripped(Join("\n\n", bs)) && !Contains(Join("\n\n", bs), ToolsEnd)
    ensures SplitLines(Join("\n\n", bs)) == JoinedLines(bs)
  {
    forall i | 0 <= i < |bs| ensures bs[i] != [] && Stripped(bs[i]) && !Contains(bs[i], ToolsEnd) {
      assert SectionBody(cs[i], bs[i]);
    }
    JoinedText(bs);
    JoinedNoEnd(bs);
  }

  // ---------------------------------------------------------------------
  // The split of the region

  /** The loop state of `_split_cli_sections` after the joined lines: the blank lines stay with the section before them. */
  ghost function ScanOf(cs: seq<string>, bs: seq<string>): SplitState
    requires |cs| == |bs| && cs != []
  {
    if |cs| == 1 then SplitState(cs, map[cs[0] := SplitLines(bs[0])], Some(cs[0]))
    else
      var n := |cs| - 1;
      var st := ScanOf(cs[..n], bs[..n]);
      SplitState(st.order + [cs[n]],
                 st.sections[cs[n - 1] := SplitLines(bs[n - 1]) + ["", ""]][cs[n] := SplitLines(bs[n])],
                 Some(cs[n]))
  }

  lemma {:induction false} ScanOfShape(cs: seq<string>, bs: seq<string>)
    requires |cs| == |bs| && cs != []
    ensures ScanOf(cs, bs).order == cs && ScanOf(cs, bs).current == Some(cs[|cs| - 1])
    ensures forall l :: l in ScanOf(cs, bs).sections <==> l in cs
    ensures ScanOf(cs, bs).sections[cs[|cs| - 1]] == SplitLines(bs[|bs| - 1])
  {
    if |cs| > 1 {
      var n := |cs| - 1;
      ScanOfShape(cs[..n], bs[..n]);
      FrontAndLast(cs);
      assert cs[n - 1] == cs[..n][n - 1];
    }
  }

  /** An empty line, then the lines of a new section, after a current section `p` holding `prev`. */
  lemma {:induction false} ScanNext(st: SplitState, p: string, prev: seq<string>, c: string, lines: seq<string>)
    requires st.current == Some(p) && p in st.sections && st.sections[p] == prev
    requires c != p && c !in st.sections && c !in st.order
    requires OneHeading(c, lines)
    ensures SplitFrom(st, [""] + lines)
      == SplitState(st.order + [c], st.sections[p := prev + ["", ""]][c := lines], Some(c))
  {
    assert Strip("") == "";
    assert [""][..0] == [];
    var st1 := st.(sections := st.sections[p := prev + [""]]);
    assert SplitFrom(st, [""]) == st1;
    var h, rest := lines[0], lines[1..];
    assert lines == [h] + rest;
    assert [h][..0] == [];
    var m := st.sections[p := prev + ["", ""]];
    assert prev + [""] + [""] == prev + ["", ""];
    var st2 := SplitState(st.order + [c], m[c := [h]], Some(c));
    assert HeadingLabel(h) == Some(c);
    assert st1.sections[p := st1.sections[p] + [""]] == m;
    assert [] + [h] == [h];
    assert SplitFrom(st1, [h]) == SplitStep(st1, h) == st2;
    forall k | 0 <= k < |rest| ensures HeadingLabel(rest[k]).None? {
      assert rest[k] == lines[k + 1];
    }
    SplitFromBody(st2, rest);
    assert m[c := [h]][c := [h] + rest] == m[c := lines];
    SplitFromAppend(st1, [h], rest);
    SplitFromAppend(st, [""], lines);
  }

  /** Scanning the joined lines reaches `ScanOf`. */
  lemma {:induction false} ScanJoined(cs: seq<string>, bs: seq<string>)
    requires Labelled(cs, bs)
    decreases |cs|
    ensures SplitFrom(Start, JoinedLines(bs)) == ScanOf(cs, bs)
  {
    if |cs| == 1 {
      var lines := SplitLines(bs[0]);
      assert SectionBody(cs[0], bs[0]);
      assert lines == [lines[0]] + lines[1..];
      forall k | 0 <= k < |lines[1..]| ensures HeadingLabel(lines[1..][k]).None? {
        assert lines[1..][k] == lines[k + 1];
      }
      ScanOneSection(cs[0], lines[0], lines[1..]);
    } else {
      var n := |cs| - 1;
      LabelledInit(cs, bs);
      ScanJoined(cs[..n], bs[..n]);
      ScanOfShape(cs[..n], bs[..n]);
      var st := ScanOf(cs[..n], bs[..n]);
      assert cs[n - 1] == cs[..n][n - 1] && bs[n - 1] == bs[..n][n - 1];
      assert cs[n] !in cs[..n] by {
        forall i | 0 <= i < n ensures cs[..n][i] != cs[n] {
          assert cs[..n][i] == cs[i];
        }
      }
      assert SectionBody(cs[n], bs[n]);
      ScanNext(st, cs[n - 1], SplitLines(bs[n - 1]), cs[n], SplitLines(bs[n]));
      ConcatAssoc(JoinedLines(bs[..n]), [""], SplitLines(bs[n]));
      SplitFromAppend(Start, JoinedLines(bs[..n]), [""] + SplitLines(bs[n]));
    }
  }

  lemma {:induction false} FlattenUpdate(m: map<string, seq<string>>, k: string, v: seq<string>)
    ensures Flatten(m[k := v]) == Flatten(m)[k := Strip(Join("\n", v))]
  {
  }

  /** The lines of a section, joined and stripped, are the section again. */
  lemma {:induction false} SectionLinesText(c: string, b: string)
    requires SectionBody(c, b)
    ensures Strip(Join("\n", SplitLines(b))) == b
  {
    var lines := SplitLines(b);
    StripStripped(b);
    assert BlockLines(b) == lines;
    assert lines == [lines[0]] + lines[1..];
    forall k | 0 <= k < |lines[1..]| ensures HeadingLabel(lines[1..][k]).None? {
      assert lines[1..][k] == lines[k + 1];
    }
    ScanOneSection(c, lines[0], lines[1..]);
    assert Flatten(map[c := lines])[c] == Strip(Join("\n", lines));
  }

  /** Two empty lines after a section change nothing once the text is stripped. */
  lemma {:induction false} BlankLinesAfter(lines: seq<string>)
    requires lines != []
    ensures Strip(Join("\n", lines + ["", ""])) == Strip(Join("\n", lines))
  {
    JoinAppend("\n", lines, "");
    JoinAppend("\n", lines + [""], "");
    assert lines + [""] + [""] == lines + ["", ""];
    var x := Join("\n", lines);
    assert Join("\n", lines + ["", ""]) == [] + x + "\n\n";
    assert AllSpace([]) && AllSpace("\n\n");
    StripPadded([], x, "\n\n");
  }

  /** Each label's lines in `ScanOf`, joined and stripped, are its body. */
  lemma {:induction false} FlattenScan(cs: seq<string>, bs: seq<string>)
    requires Labelled(cs, bs)
    decreases |cs|
    ensures Flatten(ScanOf(cs, bs).sections) == BodyMap(cs, bs)
  {
    if |cs| == 1 {
      SectionLinesText(cs[0], bs[0]);
      FlattenOne(cs[0], SplitLines(bs[0]), bs[0]);
      BodyMapOne(cs, bs);
      ScanOfStep(cs, bs);
    } else {
      LabelledInit(cs, bs);
      FlattenScan(cs[..|cs| - 1], bs[..|cs| - 1]);
      FlattenScanTail(cs, bs);
    }
  }

  /** The step of `FlattenScan`: the last label's lines and the two empty lines closing the one before it. */
  lemma {:induction false} FlattenScanTail(cs: seq<string>, bs: seq<string>)
    requires Labelled(cs, bs) && |cs| > 1
    requires var n := |cs| - 1; Flatten(ScanOf(cs[..n], bs[..n]).sections) == BodyMap(cs[..n], bs[..n])
    ensures Flatten(ScanOf(cs, bs).sections) == BodyMap(cs, bs)
  {
    var n := |cs| - 1;
    var lp, lc := SplitLines(bs[n - 1]), SplitLines(bs[n]);
    assert Strip(Join("\n", lp + ["", ""])) == bs[n - 1] by {
      assert SectionBody(cs[n - 1], bs[n - 1]);
      SectionLinesText(cs[n - 1], bs[n - 1]);
      BlankLinesAfter(lp);
    }
    assert Strip(Join("\n", lc)) == bs[n] by {
      assert SectionBody(cs[n], bs[n]);
      SectionLinesText(cs[n], bs[n]);
    }
    FlattenScanJoin(cs, bs, lp, lc);
  }

  /** `FlattenStep` at the last two labels, once their lines are known to read back as their bodies. */
  lemma {:induction false} FlattenScanJoin(cs: seq<string>, bs: seq<string>, lp: seq<string>, lc: seq<string>)
    requires |cs| == |bs| && |cs| > 1
    requires var n := |cs| - 1; Flatten(ScanOf(cs[..n], bs[..n]).sections) == BodyMap(cs[..n], bs[..n])
    requires var n := |cs| - 1; lp == SplitLines(bs[n - 1]) && lc == SplitLines(bs[n])
    requires var n := |cs| - 1; Strip(Join("\n", lp + ["", ""])) == bs[n - 1] && Strip(Join("\n", lc)) == bs[n]
    ensures Flatten(ScanOf(cs, bs).sections) == BodyMap(cs, bs)
  {
    var n := |cs| - 1;
    LastEntry(cs[..n], bs[..n], cs[n - 1], bs[n - 1]);
    FlattenStep(ScanOf(cs[..n], bs[..n]).sections, BodyMap(cs[..n], bs[..n]), cs[n - 1], lp, bs[n - 1], cs[n], lc, bs[n]);
    ScanOfStep(cs, bs);
    BodyMapStep(cs, bs);
  }

  /** The last label of a non-empty list has the last body. */
  lemma {:induction false} LastEntry(cs: seq<string>, bs: seq<string>, c: string, b: string)
    requires |cs| == |bs| && cs != [] && cs[|cs| - 1] == c && bs[|bs| - 1] == b
    ensures c in BodyMap(cs, bs) && BodyMap(cs, bs)[c] == b
  {
    BodyMapStep(cs, bs);
  }

  /** One unfolding of `ScanOf`. */
  lemma {:induction false} ScanOfStep(cs: seq<string>, bs: seq<string>)
    requires |cs| == |bs| && cs != []
    ensures |cs| == 1 ==> ScanOf(cs, bs).sections == map[cs[0] := SplitLines(bs[0])]
    ensures |cs| > 1 ==> var n := |cs| - 1;
      ScanOf(cs, bs).sections
        == ScanOf(cs[..n], bs[..n]).sections[cs[n - 1] := SplitLines(bs[n - 1]) + ["", ""]][cs[n] := SplitLines(bs[n])]
  {
  }

  /** One unfolding of `BodyMap`. */
  lemma {:induction false} BodyMapStep(cs: seq<string>, bs: seq<string>)
    requires |cs| == |bs| && cs != []
    ensures var n := |cs| - 1; BodyMap(cs, bs) == BodyMap(cs[..n], bs[..n])[cs[n] := bs[n]]
  {
  }

  lemma {:induction false} FlattenOne(c: string, lines: seq<string>, b: string)
    requires Strip(Join("\n", lines)) == b
    ensures Flatten(map[c := lines]) == map[c := b]
  {
  }

  lemma {:induction false} BodyMapOne(cs: seq<string>, bs: seq<string>)
    requires |cs| == |bs| == 1
    ensures BodyMap(cs, bs) == map[cs[0] := bs[0]]
  {
    assert cs[..0] == [] && bs[..0] == [];
  }

  /** Closing the section `p` with two empty lines and opening `c` keeps the text of `p` and gives `c` its own. */
  lemma {:induction false} FlattenStep(sections: map<string, seq<string>>, bodies: map<string, string>,
                                       p: string, lp: seq<string>, bp: string, c: string, lc: seq<string>, bc: string)
    requires Flatten(sections) == bodies && p in bodies && bodies[p] == bp
    requires Strip(Join("\n", lp + ["", ""])) == bp && Strip(Join("\n", lc)) == bc
    ensures Flatten(sections[p := lp + ["", ""]][c := lc]) == bodies[c := bc]
  {
    FlattenUpdate(sections, p, lp + ["", ""]);
    FlattenUpdate(sections[p := lp + ["", ""]], c, lc);
    assert bodies[p := bp] == bodies;
  }

  /** The region of labelled bodies splits into exactly those sections, in order. */
  lemma {:induction false} SplitJoined(cs: seq<string>, bs: seq<string>)
    requires Labelled(cs, bs)
    ensures SplitSections(Join("\n\n", bs)) == Sections(cs, BodyMap(cs, bs))
  {
    JoinedFacts(cs, bs);
    StripStripped(Join("\n\n", bs));
    ScanJoined(cs, bs);
    ScanOfShape(cs, bs);
    FlattenScan(cs, bs);
  }

  // ---------------------------------------------------------------------
  // The merge with one more section

  /** `OrderedBodies` lists the bodies the map gives the labels, when they are stripped. */
  lemma {:induction false} OrderedAll(cs: seq<string>, m: map<string, string>, bs: seq<string>)
    requires |cs| == |bs|
    requires forall i :: 0 <= i < |cs| ==> cs[i] in m && m[cs[i]] == bs[i] && Stripped(bs[i])
    ensures OrderedBodies(cs, m) == bs
  {
    if cs != [] {
      var n := |cs| - 1;
      forall i | 0 <= i < n ensures cs[..n][i] in m && m[cs[..n][i]] == bs[..n][i] && Stripped(bs[..n][i]) {
        assert cs[..n][i] == cs[i] && bs[..n][i] == bs[i];
      }
      OrderedAll(cs[..n], m, bs[..n]);
      StripStripped(bs[n]);
      FrontAndLast(bs);
    }
  }

  /** The merged text of labelled bodies, with a final newline, when the merge gives each label its body. */
  lemma {:induction false} MergedText(existing: string, incoming: string, cs: seq<string>, bs: seq<string>)
    requires Labelled(cs, bs)
    requires Merged(existing, incoming) == Sections(cs, BodyMap(cs, bs))
    ensures MergeBlocks(existing, incoming) == Join("\n\n", bs) + "\n"
  {
    BodyMapAt(cs, bs);
    forall i | 0 <= i < |cs| ensures cs[i] in BodyMap(cs, bs) && BodyMap(cs, bs)[cs[i]] == bs[i] && Stripped(bs[i]) {
      assert SectionBody(cs[i], bs[i]);
    }
    OrderedAll(cs, BodyMap(cs, bs), bs);
    JoinedFacts(cs, bs);
    StripStripped(Join("\n\n", bs));
  }

  /** Substituting one body keeps the labels and gives that label the new body. */
  lemma {:induction false} BodyMapReplace(cs: seq<string>, bs: seq<string>, k: nat, body: string)
    requires |cs| == |bs| && NoDuplicates(cs) && k < |cs|
    ensures BodyMap(cs, bs)[cs[k] := body] == BodyMap(cs, bs[k := body])
  {
    BodyMapAt(cs, bs);
    BodyMapAt(cs, bs[k := body]);
    var a, b := BodyMap(cs, bs)[cs[k] := body], BodyMap(cs, bs[k := body]);
    forall l | l in a ensures l in b && a[l] == b[l] {
      var i :| 0 <= i < |cs| && cs[i] == l;
      if i != k {
        assert cs[i] != cs[k];
      }
    }
  }

  /** Giving one label another body of its own keeps the bodies labelled. */
  lemma {:induction false} LabelledReplace(cs: seq<string>, bs: seq<string>, k: nat, body: string)
    requires Labelled(cs, bs) && k < |cs| && SectionBody(cs[k], body)
    ensures Labelled(cs, bs[k := body])
  {
    forall i | 0 <= i < |bs| ensures SectionBody(cs[i], bs[k := body][i]) {
      if i != k {
        assert bs[k := body][i] == bs[i];
      }
    }
  }

  /** A new label with a body of its own keeps the bodies labelled. */
  lemma {:induction false} LabelledAppend(cs: seq<string>, bs: seq<string>, cli: string, body: string)
    requires Labelled(cs, bs) && cli !in cs && SectionBody(cli, body)
    ensures Labelled(cs + [cli], bs + [body])
  {
    var cs', bs' := cs + [cli], bs + [body];
    forall a, b | 0 <= a < b < |cs'| ensures cs'[a] != cs'[b] {
      assert cs'[a] == cs[a];
      if b < |cs| {
        assert cs'[b] == cs[b];
      }
    }
    forall i | 0 <= i < |bs'| ensures SectionBody(cs'[i], bs'[i]) {
      if i < |bs| {
        assert cs'[i] == cs[i] && bs'[i] == bs[i];
      }
    }
  }

  /**
   * Merging one section of a label the region holds replaces that body in
   * place and keeps every other body and the order of the labels.
   */
  lemma {:induction false} MergeReplacesAmong(cs: seq<string>, bs: seq<string>, k: nat, body: string)
    requires Labelled(cs, bs) && k < |cs| && SectionBody(cs[k], body)
    ensures Labelled(cs, bs[k := body])
    ensures MergeBlocks(Join("\n\n", bs), body) == Join("\n\n", bs[k := body]) + "\n"
  {
    LabelledReplace(cs, bs, k, body);
    SplitJoined(cs, bs);
    MergeSingle(Join("\n\n", bs), cs[k], body);
    BodyMapReplace(cs, bs, k, body);
    MergedText(Join("\n\n", bs), body, cs, bs[k := body]);
  }

  /** Merging one section of a new label appends it after every section the region holds. */
  lemma {:induction false} MergeAddsAmong(cs: seq<string>, bs: seq<string>, cli: string, body: string)
    requires Labelled(cs, bs) && cli !in cs && SectionBody(cli, body)
    ensures Labelled(cs + [cli], bs + [body])
    ensures MergeBlocks(Join("\n\n", bs), body) == Join("\n\n", bs + [body]) + "\n"
  {
    LabelledAppend(cs, bs, cli, body);
    SplitJoined(cs, bs);
    MergeSingle(Join("\n\n", bs), cli, body);
    assert (cs + [cli])[..|cs|] == cs && (bs + [body])[..|bs|] == bs;
    MergedText(Join("\n\n", bs), body, cs + [cli], bs + [body]);
  }

  // ---------------------------------------------------------------------
  // Injecting a rendered block into the region

  /**
   * A document whose first region holds labelled sections, injected with
   * the block of one of their labels: that section gets the block's body in
   * its place, the others stay as they are, and the region moves to the
   * end of the remaining text.
   */
  lemma {:induction false} InjectReplacesAmong(pre: string, mid: string, post: string, cs: seq<string>, bs: seq<string>,
                                               k: nat, block: string, body: string)
    requires Labelled(cs, bs) && k < |cs| && ReadsBack(cs[k], block, body)
    requires !Contains(pre, ToolsStart) && !Contains(mid, ToolsEnd) && Strip(mid) == Join("\n\n", bs)
    ensures var rest := RStrip(pre + RemoveRegions(post));
      InjectToolsSection(pre + ToolsStart + mid + ToolsEnd + post, block)
        == rest + Separator(rest) + Region(Join("\n\n", bs[k := body]))
  {
    var content := pre + ToolsStart + mid + ToolsEnd + post;
    InjectReplacesRegion(pre, mid, post, block);
    ReadsBackInner(cs[k], block, body, Strip(content));
    MergeReplacesAmong(cs, bs, k, body);
    RegionBodyAfterMerge(cs, bs[k := body]);
  }

  /**
   * The same document injected with the block of a new label: every section
   * stays, and the new one follows them in the region at the end.
   */
  lemma {:induction false} InjectAddsAmong(pre: string, mid: string, post: string, cs: seq<string>, bs: seq<string>,
                                           cli: string, block: string, body: string)
    requires Labelled(cs, bs) && cli !in cs && ReadsBack(cli, block, body)
    requires !Contains(pre, ToolsStart) && !Contains(mid, ToolsEnd) && Strip(mid) == Join("\n\n", bs)
    ensures var rest := RStrip(pre + RemoveRegions(post));
      InjectToolsSection(pre + ToolsStart + mid + ToolsEnd + post, block)
        == rest + Separator(rest) + Region(Join("\n\n", bs + [body]))
  {
    var content := pre + ToolsStart + mid + ToolsEnd + post;
    InjectReplacesRegion(pre, mid, post, block);
    ReadsBackInner(cli, block, body, Strip(content));
    MergeAddsAmong(cs, bs, cli, body);
    RegionBodyAfterMerge(cs + [cli], bs + [body]);
  }

  /** The merged text with its final newline strips back to the joined bodies. */
  lemma {:induction false} RegionBodyAfterMerge(cs: seq<string>, bs: seq<string>)
    requires Labelled(cs, bs)
    ensures Strip(Join("\n\n", bs) + "\n") == Join("\n\n", bs)
  {
    JoinedFacts(cs, bs);
    StripNewlineAfter(Join("\n\n", bs));
  }

  /** Text without a start marker and then the region of `j`, cut as `InjectReplacesAmong` reads it. */
  lemma {:induction false} RegionAfterText(pre: string, j: string)
    requires !Contains(pre, ToolsStart) && Stripped(j) && !Contains(j, ToolsEnd)
    ensures pre + Region(j) == pre + ToolsStart + ("\n" + j + "\n") + ToolsEnd + "\n"
    ensures !Contains("\n" + j + "\n", ToolsEnd) && Strip("\n" + j + "\n") == j
    ensures RStrip(pre + RemoveRegions("\n")) == RStrip(pre)
  {
    MarkersShaped();
    RegionParts(pre, j);
    PaddedNotContains(j, ToolsEnd);
    StripNewlinePadded(j);
    NoAngleNoMarker("\n", ToolsStart);
    RemoveNoRegion("\n");
    assert AllSpace("\n");
    RStripPadded(pre, "\n");
  }

  /**
   * Text without a start marker, then a region of labelled sections,
   * injected with the block of one of their labels: the text, less trailing
   * whitespace, then the region with that section replaced.
   */
  lemma {:induction false} InjectReplacesAfterText(pre: string, cs: seq<string>, bs: seq<string>, k: nat,
                                                   block: string, body: string)
    requires Labelled(cs, bs) && k < |cs| && ReadsBack(cs[k], block, body)
    requires !Contains(pre, ToolsStart)
    ensures InjectToolsSection(pre + Region(Join("\n\n", bs)), block)
      == RStrip(pre) + Separator(RStrip(pre)) + Region(Join("\n\n", bs[k := body]))
  {
    var j := Join("\n\n", bs);
    JoinedFacts(cs, bs);
    RegionAfterText(pre, j);
    InjectReplacesAmong(pre, "\n" + j + "\n", "\n", cs, bs, k, block, body);
  }

  /** The same text and region injected with the block of a new label: the new section follows the others. */
  lemma {:induction false} InjectAddsAfterText(pre: string, cs: seq<string>, bs: seq<string>, cli: string,
                                               block: string, body: string)
    requires Labelled(cs, bs) && cli !in cs && ReadsBack(cli, block, body)
    requires !Contains(pre, ToolsStart)
    ensures InjectToolsSection(pre + Region(Join("\n\n", bs)), block)
      == RStrip(pre) + Separator(RStrip(pre)) + Region(Join("\n\n", bs + [body]))
  {
    var j := Join("\n\n", bs);
    JoinedFacts(cs, bs);
    RegionAfterText(pre, j);
    InjectAddsAmong(pre, "\n" + j + "\n", "\n", cs, bs, cli, block, body);
  }

  /**
   * Text that `rstrip` keeps, without a start marker, then its separator and
   * a region of labelled sections: injecting a block whose section the
   * region already holds changes nothing.
   */
  lemma {:induction false} InjectFixpointAmong(rest: string, cs: seq<string>, bs: seq<string>, k: nat, block: string)
    requires Labelled(cs, bs) && k < |cs| && ReadsBack(cs[k], block, bs[k])
    requires RStrip(rest) == rest && !Contains(rest, ToolsStart)
    ensures var doc := rest + Separator(rest) + Region(Join("\n\n", bs));
      InjectToolsSection(doc, block) == doc
  {
    Separated(rest, rest);
    InjectReplacesAfterText(rest + Separator(rest), cs, bs, k, block, bs[k]);
    UpdateSame(bs, k);
  }

  // ---------------------------------------------------------------------
  // Two CLIs

  /**
   * A document without markers, injected with the block of one CLI and
   * then with the block of another: the text, trimmed, then one region
   * holding the first section and, after a blank line, the second.
   */
  lemma {:induction false} InjectTwoClis(content: string, a: string, blockA: string, bodyA: string,
                                         b: string, blockB: string, bodyB: string)
    requires ReadsBack(a, blockA, bodyA) && ReadsBack(b, blockB, bodyB) && a != b
    requires !Contains(content, ToolsStart) && !Contains(content, ToolsEnd)
    ensures var rest := RStrip(LStripNewlines(content));
      && Labelled([a, b], [bodyA, bodyB])
      && InjectToolsSection(InjectToolsSection(content, blockA), blockB)
           == rest + Separator(rest) + Region(bodyA + "\n\n" + bodyB)
  {
    var l := LStripNewlines(content);
    var pre := l + Separator(Strip(content));
    InjectIntoUnmarkedKeepsBlock(content, a, blockA, bodyA);
    TrimmedNotContains(content, ToolsStart);
    Separated(l, Strip(content));
    JoinOne("\n\n", bodyA);
    LabelledOne(a, bodyA);
    InjectAddsAfterText(pre, [a], [bodyA], b, blockB, bodyB);
    LabelledAppend([a], [bodyA], b, bodyB);
    PairOfSingles(bodyA, bodyB);
    PairOfSingles(a, b);
    JoinPair(bodyA, bodyB);
  }

  /**
   * After that, injecting either block again, in any order and as often as
   * it is done, leaves the document as it is.
   */
  lemma {:induction false} TwoClisSettle(content: string, a: string, blockA: string, bodyA: string,
                                         b: string, blockB: string, bodyB: string)
    requires ReadsBack(a, blockA, bodyA) && ReadsBack(b, blockB, bodyB) && a != b
    requires !Contains(content, ToolsStart) && !Contains(content, ToolsEnd)
    ensures var doc := InjectToolsSection(InjectToolsSection(content, blockA), blockB);
      InjectToolsSection(doc, blockA) == doc && InjectToolsSection(doc, blockB) == doc
  {
    var rest := RStrip(LStripNewlines(content));
    InjectTwoClis(content, a, blockA, bodyA, b, blockB, bodyB);
    TrimmedNotContains(content, ToolsStart);
    RStripTwice(LStripNewlines(content));
    JoinPair(bodyA, bodyB);
    InjectFixpointAmong(rest, [a, b], [bodyA, bodyB], 0, blockA);
    InjectFixpointAmong(rest, [a, b], [bodyA, bodyB], 1, blockB);
  }
}
