/** The overlay edit of config.txt, and what the firmware makes of the result. */
module ConfigTxt {
  import opened Text

  const DWC2_OVERLAY_LINE: Line := "dtoverlay=dwc2,dr_mode=peripheral"
  const CONFIG_MARKER: Line := "# Universal Chess: USB Ethernet gadget"

  const ALL_BOARDS: Line := "[all]"

  predicate HasOverlay(lines: seq<Line>) {
    exists i | 0 <= i < |lines| :: Strip(lines[i]) == DWC2_OVERLAY_LINE
  }

  function EnableOverlay(config: string): string {
    if HasOverlay(SplitLines(config)) then
      EnsureTrailingNewline(config)
    else
      EnsureTrailingNewline(config) + CONFIG_MARKER + "\n" + ALL_BOARDS + "\n" + DWC2_OVERLAY_LINE + "\n"
  }

  // ---------------------------------------------------------------------
  // The meaning of a file
  // ---------------------------------------------------------------------

  /** A filter heading: a line in square brackets. */
  predicate IsFilter(content: string) {
    |content| >= 2 && content[0] == '[' && content[|content| - 1] == ']'
  }

  /** The settings a board takes from the lines. `filters` are the headings since the
      last `[all]`, and `active` says which combinations of headings fit the board. */
  ghost function Settings(lines: seq<Line>, filters: seq<string>, active: seq<string> -> bool): seq<string> {
    if lines == [] then
      []
    else
      var content := Strip(lines[0]);
      if content == "" || content[0] == '#' then
        Settings(lines[1..], filters, active)
      else if IsFilter(content) then
        Settings(lines[1..], if content == ALL_BOARDS then [] else filters + [content], active)
      else
        (if active(filters) then [content] else []) + Settings(lines[1..], filters, active)
  }

  ghost function Meaning(config: string, active: seq<string> -> bool): seq<string> {
    Settings(SplitLines(config), [], active)
  }

  /** The headings in force after the lines. */
  ghost function FiltersAfter(lines: seq<Line>, filters: seq<string>): seq<string> {
    if lines == [] then filters
    else
      var content := Strip(lines[0]);
      FiltersAfter(lines[1..],
                   if content == "" || content[0] == '#' || !IsFilter(content) then filters
                   else if content == ALL_BOARDS then []
                   else filters + [content])
  }

  lemma {:induction false} SettingsConcat(a: seq<Line>, b: seq<Line>, filters: seq<string>, active: seq<string> -> bool)
    ensures Settings(a + b, filters, active) ==
            Settings(a, filters, active) + Settings(b, FiltersAfter(a, filters), active)
  {
    if a == [] {
      assert a + b == b;
    } else {
      assert (a + b)[1..] == a[1..] + b;
      var content := Strip(a[0]);
      if content == "" || content[0] == '#' {
        SettingsConcat(a[1..], b, filters, active);
      } else if IsFilter(content) {
        SettingsConcat(a[1..], b, if content == ALL_BOARDS then [] else filters + [content], active);
      } else {
        SettingsConcat(a[1..], b, filters, active);
      }
    }
  }

  lemma {:induction false} EmptyLinesMeanNothing(lines: seq<Line>, filters: seq<string>, active: seq<string> -> bool)
    requires AllBlank(lines)
    ensures Settings(lines, filters, active) == []
  {
    if lines != [] {
      BlankStrip(lines[0]);
      EmptyLinesMeanNothing(lines[1..], filters, active);
    }
  }

  lemma TrimMeansNothing(lines: seq<Line>, active: seq<string> -> bool)
    ensures Settings(TrimEmpty(lines), [], active) == Settings(lines, [], active)
  {
    TrimIsPrefix(lines);
    var kept := TrimEmpty(lines);
    assert lines == kept + lines[|kept|..];
    SettingsConcat(kept, lines[|kept|..], [], active);
    EmptyLinesMeanNothing(lines[|kept|..], FiltersAfter(kept, []), active);
  }

  lemma CommentAllSetting(comment: Line, all: Line, setting: Line, filters: seq<string>, active: seq<string> -> bool)
    requires active([])
    requires Strip(comment) != "" && Strip(comment)[0] == '#' && Strip(all) == ALL_BOARDS
    requires Strip(setting) != "" && Strip(setting)[0] != '#' && !IsFilter(Strip(setting))
    ensures Settings([comment, all, setting], filters, active) == [Strip(setting)]
  {
    assert [comment, all, setting][1..] == [all, setting];
    assert [all, setting][1..] == [setting] && [setting][1..] == [];
    assert Settings([], [], active) == [];
    assert Settings([setting], [], active) == [Strip(setting)];
    assert Settings([all, setting], filters, active) == Settings([setting], [], active);
  }

  lemma ToolLinesAreSolid()
    ensures Strip(CONFIG_MARKER) == CONFIG_MARKER && CONFIG_MARKER[0] == '#'
    ensures Strip(DWC2_OVERLAY_LINE) == DWC2_OVERLAY_LINE && DWC2_OVERLAY_LINE[0] == 'd'
    ensures Strip(ALL_BOARDS) == ALL_BOARDS && ALL_BOARDS[0] == '['
  {
    assert Solid(CONFIG_MARKER);
    assert Solid(DWC2_OVERLAY_LINE);
    assert Solid(ALL_BOARDS);
  }

  /** The three lines the edit writes add one setting, whatever headings are in force. */
  lemma AddedLines(before: Line, filters: seq<string>, active: seq<string> -> bool)
    requires active([]) && Blank(before)
    ensures Settings(NewPart(before), filters, active) == [DWC2_OVERLAY_LINE]
  {
    StripPad(before, CONFIG_MARKER);
    ToolLinesAreSolid();
    CommentAllSetting(before + CONFIG_MARKER, ALL_BOARDS, DWC2_OVERLAY_LINE, filters, active);
  }

  function NewPart(before: Line): seq<Line> {
    [before + CONFIG_MARKER, ALL_BOARDS, DWC2_OVERLAY_LINE]
  }

  lemma SplitThree(text: string, a: Line, b: Line, c: Line)
    ensures text + a + "\n" + b + "\n" + c + "\n" == text + Unlines([a, b, c])
  {
    assert [a, b, c][1..] == [b, c] && [b, c][1..] == [c] && [c][1..] == [];
    assert Unlines([c]) == c + "\n";
    assert Unlines([b, c]) == b + "\n" + (c + "\n");
    assert Unlines([a, b, c]) == a + "\n" + (b + "\n" + (c + "\n"));
  }

  lemma AddedSplits(before: Line)
    ensures SplitLines(before + Unlines(NewPart(""))) == NewPart(before)
  {
    var others: seq<Line> := [ALL_BOARDS, DWC2_OVERLAY_LINE];
    assert NewPart("")[1..] == others && NewPart(before)[1..] == others;
    assert "" + CONFIG_MARKER == CONFIG_MARKER;
    PadFirst(before, CONFIG_MARKER, Unlines(others));
    SplitUnlines(NewPart(before));
  }

  lemma PadFirst(before: string, first: string, rest: string)
    ensures before + (first + "\n" + rest) == (before + first) + "\n" + rest
  {
  }

  function LineEnd(s: string): (n: nat)
    ensures n <= |s| && '\n' !in s[..n] && (n < |s| ==> s[n] == '\n')
  {
    if s == "" || s[0] == '\n' then 0 else 1 + LineEnd(s[1..])
  }

  lemma LineCut(blank: string, first: Line, others: string, text: string)
    requires blank == first + "\n" + others
    ensures blank + text == first + "\n" + (others + text)
  {
  }

  /** Blank text before other text only puts blank lines and leading space before it. */
  lemma {:induction false} SplitAfterBlank(blank: string, text: string) returns (lines: seq<Line>, before: Line)
    requires Blank(blank)
    ensures AllBlank(lines) && Blank(before)
    ensures SplitLines(blank + text) == lines + SplitLines(before + text)
    decreases |blank|
  {
    var n := LineEnd(blank);
    if n == |blank| {
      lines, before := [], blank;
      assert [] + SplitLines(before + text) == SplitLines(blank + text);
    } else {
      var first: Line, others := blank[..n], blank[n + 1..];
      var tail;
      tail, before := SplitAfterBlank(others, text);
      SplitFirst(first, others + text);
      LineCut(blank, first, others, text);
      lines := [first] + tail;
      OneMore(first, tail, SplitLines(before + text));
    }
  }

  lemma OneMore(first: Line, tail: seq<Line>, others: seq<Line>)
    ensures [first] + (tail + others) == [first] + tail + others
    ensures Blank(first) && AllBlank(tail) ==> AllBlank([first] + tail)
  {
  }

  lemma NewLines(config: string) returns (lines: seq<Line>, before: Line)
    requires !HasOverlay(SplitLines(config))
    ensures Blank(before)
    ensures SplitLines(EnableOverlay(config)) == lines + NewPart(before)
    ensures Blank(config) ==> AllBlank(lines)
    ensures !Blank(config) ==> lines == TrimEmpty(SplitLines(config))
  {
    var added := Unlines(NewPart(""));
    assert "" + CONFIG_MARKER == CONFIG_MARKER;
    SplitThree(EnsureTrailingNewline(config), CONFIG_MARKER, ALL_BOARDS, DWC2_OVERLAY_LINE);
    assert EnableOverlay(config) == EnsureTrailingNewline(config) + added;
    if Blank(config) {
      lines, before := SplitAfterBlank(config, added);
      AddedSplits(before);
    } else {
      lines, before := TrimEmpty(SplitLines(config)), "";
      EnsureTrailingNewlineLines(config);
      SplitUnlinesAppend(lines, added);
      SplitUnlines(NewPart(""));
    }
  }

  lemma AbsentMeaning(config: string, active: seq<string> -> bool)
    requires active([]) && !HasOverlay(SplitLines(config))
    ensures Meaning(EnableOverlay(config), active) == Meaning(config, active) + [DWC2_OVERLAY_LINE]
  {
    var lines := SplitLines(config);
    var kept, before := NewLines(config);
    SettingsConcat(kept, NewPart(before), [], active);
    AddedLines(before, FiltersAfter(kept, []), active);
    if Blank(config) {
      BlankLines(config);
      EmptyLinesMeanNothing(lines, [], active);
      EmptyLinesMeanNothing(kept, [], active);
    } else {
      TrimMeansNothing(lines, active);
    }
  }

  /** What the edit means. Where the overlay line is absent, every board gets exactly the
      settings it had and then the overlay, whatever sections the file ends in; where the
      line is present, every board's settings are as they were. */
  lemma OverlayMeaning(config: string, active: seq<string> -> bool)
    requires active([])
    ensures Meaning(EnableOverlay(config), active) ==
            Meaning(config, active) + if HasOverlay(SplitLines(config)) then [] else [DWC2_OVERLAY_LINE]
  {
    if HasOverlay(SplitLines(config)) {
      KeptLines(config);
      TrimMeansNothing(SplitLines(config), active);
      assert Meaning(config, active) + [] == Meaning(config, active);
    } else {
      AbsentMeaning(config, active);
    }
  }

  lemma KeptLines(config: string)
    requires HasOverlay(SplitLines(config))
    ensures EnableOverlay(config) == Unlines(TrimEmpty(SplitLines(config)))
    ensures SplitLines(EnableOverlay(config)) == TrimEmpty(SplitLines(config))
    ensures HasOverlay(SplitLines(EnableOverlay(config)))
  {
    var lines := SplitLines(config);
    BlankLines(config);
    var i :| 0 <= i < |lines| && Strip(lines[i]) == DWC2_OVERLAY_LINE;
    BlankStrip(lines[i]);
    EnsureTrailingNewlineLines(config);
    SplitUnlines(TrimEmpty(lines));
    TrimIsPrefix(lines);
    assert Strip(TrimEmpty(lines)[i]) == DWC2_OVERLAY_LINE;
  }

  /** The text that is added where no line reads as the overlay. */
  lemma OverlayText(config: string)
    requires forall i | 0 <= i < |SplitLines(config)| ::
               Strip(SplitLines(config)[i]) != "dtoverlay=dwc2,dr_mode=peripheral"
    ensures EnableOverlay(config) ==
            EnsureTrailingNewline(config) + "# Universal Chess: USB Ethernet gadget" + "\n"
            + "[all]" + "\n" + "dtoverlay=dwc2,dr_mode=peripheral" + "\n"
  {
  }

  /** A second application changes nothing, on every file. */
  lemma OverlayIdempotent(config: string)
    ensures EnableOverlay(EnableOverlay(config)) == EnableOverlay(config)
    ensures HasOverlay(SplitLines(EnableOverlay(config)))
  {
    var edited := EnableOverlay(config);
    var lines := SplitLines(edited);
    if HasOverlay(SplitLines(config)) {
      KeptLines(config);
      KeptLines(edited);
      TrimIsPrefix(SplitLines(config));
    } else {
      var kept, before := NewLines(config);
      assert lines[|lines| - 1] == DWC2_OVERLAY_LINE && Solid(DWC2_OVERLAY_LINE);
      assert Strip(lines[|lines| - 1]) == DWC2_OVERLAY_LINE;
      KeptLines(edited);
      TrimIsPrefix(lines);
      UnlinesSplit(edited);
      assert edited[|edited| - 1] == '\n';
    }
  }

  /** The overlay reaches a board after the edit if and only if the line was absent or
      already reached it: a line that stands under another model's filter is left there,
      and no second one is written. */
  lemma OverlayReachesIff(config: string, active: seq<string> -> bool)
    requires active([])
    ensures DWC2_OVERLAY_LINE in Meaning(EnableOverlay(config), active) <==>
            !HasOverlay(SplitLines(config)) || DWC2_OVERLAY_LINE in Meaning(config, active)
  {
    OverlayMeaning(config, active);
  }

  /** A heading line and a setting under it. */
  lemma UnderHeading(heading: Line, setting: Line, active: seq<string> -> bool)
    requires IsFilter(heading) && Strip(heading) == heading && heading != ALL_BOARDS
    requires setting != "" && Strip(setting) == setting && setting[0] != '#' && !IsFilter(setting)
    requires !active([heading])
    ensures SplitLines(heading + "\n" + setting) == [heading, setting]
    ensures Meaning(heading + "\n" + setting, active) == []
  {
    SplitFirst(heading, setting);
    OneLine(setting);
    assert [heading] + [setting] == [heading, setting];
    assert [heading, setting][1..] == [setting] && [setting][1..] == [];
    assert [] + [heading] == [heading];
    assert Settings([], [heading], active) == [];
    assert Settings([setting], [heading], active) == [];
  }

  /** A file on which the edit leaves a board without the overlay. */
  lemma OverlayUnderFilter(active: seq<string> -> bool)
    requires active([]) && !active(["[cm4]"])
    ensures DWC2_OVERLAY_LINE !in Meaning(EnableOverlay("[cm4]" + "\n" + DWC2_OVERLAY_LINE), active)
  {
    var heading := "[cm4]";
    HeadingIsFilter(heading);
    FilteredOverlay(heading, active);
  }

  lemma HeadingIsFilter(heading: Line)
    requires heading == "[cm4]"
    ensures IsFilter(heading) && Strip(heading) == heading && heading != ALL_BOARDS
  {
    assert Solid(heading) && heading[1] != ALL_BOARDS[1];
  }

  lemma FilteredOverlay(heading: Line, active: seq<string> -> bool)
    requires active([]) && !active([heading])
    requires IsFilter(heading) && Strip(heading) == heading && heading != ALL_BOARDS
    ensures DWC2_OVERLAY_LINE !in Meaning(EnableOverlay(heading + "\n" + DWC2_OVERLAY_LINE), active)
  {
    var config := heading + "\n" + DWC2_OVERLAY_LINE;
    ToolLinesAreSolid();
    UnderHeading(heading, DWC2_OVERLAY_LINE, active);
    assert Strip(SplitLines(config)[1]) == DWC2_OVERLAY_LINE;
    OverlayReachesIff(config, active);
  }
}
