/** What the block scanner reads, character by character. */
module KeyStyle {
  import opened Outcomes
  import opened Text
  import opened SequenceBlock
  import opened DocumentLines
  import opened WriteFiles
  import opened ModeCommands
  import opened UserDataRuns
  import opened RepeatedRuns
  import opened UserData

  // ---------------------------------------------------------------------
  // The key's line
  // ---------------------------------------------------------------------

  /** Line `i` is the first that starts with the key and a colon. */
  predicate OpensAt(lines: seq<Line>, key: string, i: nat) {
    i < |lines| && key + ":" <= lines[i] && forall j | 0 <= j < i :: !(key + ":" <= lines[j])
  }

  /** The first character of `text`, from `start`, that is not white space. */
  predicate TextAt(text: string, start: nat, k: nat) {
    start <= k < |text| && !IsSpace(text[k]) && forall m | start <= m < k :: IsSpace(text[m])
  }

  /** The key's first line has something other than a comment behind the colon. */
  ghost predicate FlowStyled(lines: seq<Line>, key: string) {
    exists i: nat, k: nat :: OpensAt(lines, key, i) && TextAt(lines[i], |key| + 1, k) && lines[i][k] != '#'
  }

  lemma StripStarts(s: string, n: nat)
    requires n == |LeadingSpace(s)|
    ensures n == |s| ==> Strip(s) == ""
    ensures n < |s| ==> Strip(s) != "" && Strip(s)[0] == s[n]
  {
    var pad, value := s[..n], s[n..];
    assert s == pad + value && Blank(pad);
    StripPad(pad, value);
    if n < |s| {
      RStripKeepsFirst(value);
    }
  }

  lemma TextBehind(line: Line, start: nat, s: string, n: nat)
    requires start <= |line| && s == line[start..] && n == |LeadingSpace(s)|
    ensures forall k: nat :: TextAt(line, start, k) <==> n < |s| && k == start + n
  {
    var pad := LeadingSpace(s);
    assert forall m | 0 <= m < n :: pad[m] == s[m] == line[start + m];
    assert forall m | start <= m < start + n :: line[m] == pad[m - start];
    if n < |s| {
      assert line[start + n] == s[n];
    }
    assert forall m | start <= m < start + n :: IsSpace(line[m]);
  }

  lemma FlowLineIff(line: Line, key: string, start: nat)
    requires key + ":" <= line && start == |key| + 1
    ensures FlowLine(line, key) <==> exists k: nat :: TextAt(line, start, k) && line[k] != '#'
  {
    var s := line[start..];
    var n := |LeadingSpace(s)|;
    StripStarts(s, n);
    TextBehind(line, start, s, n);
    if n < |s| {
      assert TextAt(line, start, start + n) && line[start + n] == s[n];
    }
  }

  lemma {:induction false} FindFirst(lines: seq<Line>, key: string)
    ensures Find(lines, key).Absent? ==> forall i | 0 <= i < |lines| :: !(key + ":" <= lines[i])
    ensures !Find(lines, key).Absent? ==>
              exists i: nat ::
                OpensAt(lines, key, i) && Find(lines, key) == if FlowLine(lines[i], key) then Flow else At(i)
  {
    if lines != [] {
      if KeyLine(lines[0], key) {
        assert OpensAt(lines, key, 0);
      } else {
        FindFirst(lines[1..], key);
        if !Find(lines, key).Absent? {
          var i: nat :| OpensAt(lines[1..], key, i)
                        && Find(lines[1..], key) == if FlowLine(lines[1..][i], key) then Flow else At(i);
          assert forall j | 0 < j <= i :: lines[j] == lines[1..][j - 1];
          assert OpensAt(lines, key, i + 1);
        }
      }
    }
  }

  lemma OneFirst(lines: seq<Line>, key: string, i: nat, j: nat)
    requires OpensAt(lines, key, i) && OpensAt(lines, key, j)
    ensures i == j
  {
  }

  /** What the scan for a key finds, on the characters of the document. It refuses if and
      only if the first line that starts with the key and a colon goes on, after any white
      space, with something other than a comment; it finds that line if it does not; and it
      reports absence if and only if there is no such line. */
  lemma FindIff(lines: seq<Line>, key: string)
    ensures Find(lines, key).Flow? <==> FlowStyled(lines, key)
    ensures Find(lines, key).Absent? <==> forall i | 0 <= i < |lines| :: !(key + ":" <= lines[i])
    ensures forall n: nat :: Find(lines, key) == At(n) <==> OpensAt(lines, key, n) && !FlowStyled(lines, key)
  {
    FindFirst(lines, key);
    if !Find(lines, key).Absent? {
      var i: nat :| OpensAt(lines, key, i) && Find(lines, key) == if FlowLine(lines[i], key) then Flow else At(i);
      FlowLineIff(lines[i], key, |key| + 1);
      forall n: nat | OpensAt(lines, key, n) ensures n == i {
        OneFirst(lines, key, n, i);
      }
    }
  }

  /** The first line of a key, spelled out: an empty or blank value and a comment leave the
      key in block style, any other value is flow style. */
  lemma StyleOfValue(before: seq<Line>, line: Line, after: seq<Line>, key: string, pad: string, value: string)
    requires forall i | 0 <= i < |before| :: !(key + ":" <= before[i])
    requires line == key + ":" + pad + value && Blank(pad)
    ensures value == "" || value[0] == '#' ==> Find(before + [line] + after, key) == At(|before|)
    ensures value != "" && !IsSpace(value[0]) && value[0] != '#' ==> Find(before + [line] + after, key) == Flow
  {
    var lines, start := before + [line] + after, |key| + 1;
    assert OpensAt(lines, key, |before|);
    assert forall m | start <= m < start + |pad| :: line[m] == pad[m - start];
    FindIff(lines, key);
    if value != "" && !IsSpace(value[0]) {
      assert line[start + |pad|] == value[0];
      assert TextAt(line, start, start + |pad|);
      forall i: nat, k: nat | OpensAt(lines, key, i) && TextAt(lines[i], start, k)
        ensures i == |before| && k == start + |pad|
      {
        OneFirst(lines, key, i, |before|);
      }
    } else if value == "" {
      forall i: nat, k: nat | OpensAt(lines, key, i) ensures !TextAt(lines[i], start, k) {
        OneFirst(lines, key, i, |before|);
      }
    }
  }

  // ---------------------------------------------------------------------
  // What the edits refuse
  // ---------------------------------------------------------------------

  lemma AddFilesFlow(lines: seq<Line>, files: seq<ToolFile>)
    requires AllInstallable(files)
    ensures files != [] && Find(lines, WRITE_FILES).Flow? ==> AddFiles(lines, files) == Err(FlowStyle(WRITE_FILES))
    ensures files == [] || !Find(lines, WRITE_FILES).Flow? ==>
              && AddFiles(lines, files).Ok?
              && Find(AddFiles(lines, files).value, RUNCMD).Flow? == Find(lines, RUNCMD).Flow?
  {
    if files == [] || !Find(lines, WRITE_FILES).Flow? {
      FilesAccepted(lines, files);
      FilesAdded(lines, files, "- ");
    }
  }

  /** An append refuses the key it edits in flow style, and nothing else. */
  lemma AppendRefusedIff(userData: string, command: Line, f: ToolFile)
    ensures AppendRuncmdText(userData, command).Err? <==> FlowStyled(SplitLines(userData), "runcmd")
    ensures AppendRuncmdText(userData, command).Err? ==>
              AppendRuncmdText(userData, command).error == FlowStyle("runcmd")
    ensures AppendWriteFileText(userData, f).Err? <==> FlowStyled(SplitLines(userData), "write_files")
    ensures AppendWriteFileText(userData, f).Err? ==>
              AppendWriteFileText(userData, f).error == FlowStyle("write_files")
  {
    FindIff(SplitLines(userData), RUNCMD);
    FindIff(SplitLines(userData), WRITE_FILES);
  }

  /** Pinning refuses `runcmd` in flow style, and nothing else. */
  lemma PinRefusedIff(userData: string, mode: Mode)
    ensures PinModeText(userData, mode).Err? <==> FlowStyled(SplitLines(userData), "runcmd")
    ensures PinModeText(userData, mode).Err? ==> PinModeText(userData, mode).error == FlowStyle("runcmd")
  {
    var lines := SplitLines(userData);
    FindIff(lines, RUNCMD);
    PinModeLines(userData, mode);
    PinRefuses(lines, mode);
  }

  lemma PinRefuses(lines: seq<Line>, mode: Mode)
    ensures PinMode(lines, mode).Err? <==> Find(lines, RUNCMD).Flow?
    ensures PinMode(lines, mode).Err? ==> PinMode(lines, mode).error == FlowStyle(RUNCMD)
  {
    if !Find(lines, RUNCMD).Flow? {
      AllAccepted(lines, mode);
    }
  }

  /** A run refuses `write_files` in flow style, if it has files to add, and then `runcmd`,
      and nothing else. */
  lemma SetupRefusedIff(userData: string, files: seq<ToolFile>, mode: Mode)
    requires AllInstallable(files)
    ensures SetupText(userData, files, mode).Err? <==>
            || (files != [] && FlowStyled(SplitLines(userData), "write_files"))
            || FlowStyled(SplitLines(userData), "runcmd")
    ensures SetupText(userData, files, mode).Err? ==>
              SetupText(userData, files, mode).error ==
              FlowStyle(if files != [] && FlowStyled(SplitLines(userData), "write_files") then "write_files"
                        else "runcmd")
  {
    var lines := SplitLines(userData);
    FindIff(lines, RUNCMD);
    FindIff(lines, WRITE_FILES);
    SetupLines(userData, files, mode);
    SetupAcceptsIff(lines, files, mode);
    AddFilesFlow(lines, files);
  }

  /** The document of one line `runcmd: [ls]` is refused. */
  lemma FlowListIsRefused(line: Line, command: Line)
    requires line == "runcmd: [ls]"
    ensures AppendRuncmdText(line, command) == Err(FlowStyle("runcmd"))
  {
    OneLine(line);
    assert line == "runcmd" + ":" + " " + "[ls]";
    StyleOfValue([], line, [], "runcmd", " ", "[ls]");
    assert [] + [line] + [] == [line];
  }

  // ---------------------------------------------------------------------
  // The block under the key
  // ---------------------------------------------------------------------

  /** A list item whose dash stands `depth` characters in. */
  predicate ItemAt(line: Line, depth: nat) {
    depth + 1 < |line| && Blank(line[..depth]) && line[depth] == '-' && IsSpace(line[depth + 1])
  }

  lemma ItemIff(line: Line)
    ensures IsItem(line) <==> exists depth: nat :: ItemAt(line, depth)
    ensures forall depth: nat | ItemAt(line, depth) :: LeadingSpace(line) == line[..depth]
  {
    if IsItem(line) {
      assert line[..|LeadingSpace(line)|] == LeadingSpace(line);
      assert ItemAt(line, |LeadingSpace(line)|);
    }
    forall depth: nat | ItemAt(line, depth) ensures IsItem(line) && LeadingSpace(line) == line[..depth] {
      LeadingSpacePad(line[..depth], line[depth..]);
      assert line == line[..depth] + line[depth..];
    }
  }

  /** A line that goes on with the block: blank, indented, or an item at the margin. */
  predicate GoesOn(line: Line) {
    Blank(line) || IsSpace(line[0]) || ItemAt(line, 0)
  }

  lemma InBlockIff(line: Line)
    ensures InBlock(line) <==> GoesOn(line)
  {
    ItemIff(line);
    if depth: nat :| ItemAt(line, depth) {
      IndentedItem(line, depth);
    }
  }

  lemma IndentedItem(line: Line, depth: nat)
    requires ItemAt(line, depth)
    ensures depth == 0 || IsSpace(line[0])
  {
    if depth > 0 {
      assert line[..depth][0] == line[0];
    }
  }

  /** The block ends at `end`, and the first line that does not go on with it at `stop`. */
  predicate EndsAt(lines: seq<Line>, keyIndex: nat, end: nat, stop: nat) {
    && keyIndex < end <= stop <= |lines|
    && (forall i | keyIndex < i < stop :: GoesOn(lines[i]))
    && (stop < |lines| ==> !GoesOn(lines[stop]))
    && (end > keyIndex + 1 ==> !Blank(lines[end - 1]))
    && forall i | end <= i < stop :: Blank(lines[i])
  }

  lemma {:induction false} BlockEnds(tail: seq<Line>) returns (stop: nat)
    ensures BlockLen(tail) <= stop <= |tail|
    ensures forall i | 0 <= i < stop :: GoesOn(tail[i])
    ensures stop < |tail| ==> !GoesOn(tail[stop])
    ensures forall i | BlockLen(tail) <= i < stop :: Blank(tail[i])
  {
    stop := 0;
    if tail != [] {
      InBlockIff(tail[0]);
      if InBlock(tail[0]) {
        var next := BlockEnds(tail[1..]);
        stop := next + 1;
        assert forall i | 0 < i <= next :: tail[i] == tail[1..][i - 1];
      }
    }
  }

  lemma {:induction false} FirstIndentOf(body: seq<Line>)
    ensures FirstIndent(body).None? ==> forall i, d: nat | 0 <= i < |body| :: !ItemAt(body[i], d)
    ensures FirstIndent(body).Some? ==>
              exists i: nat, d: nat :: FirstItemAt(body, i, d) && FirstIndent(body).value == body[i][..d]
  {
    if body != [] {
      ItemIff(body[0]);
      FirstIndentOf(body[1..]);
      if IsItem(body[0]) {
        var d: nat :| ItemAt(body[0], d);
        assert FirstItemAt(body, 0, d);
      } else if FirstIndent(body).Some? {
        var i: nat, d: nat :| FirstItemAt(body[1..], i, d) && FirstIndent(body[1..]).value == body[1..][i][..d];
        assert forall j | 0 < j <= i :: body[j] == body[1..][j - 1];
        assert FirstItemAt(body, i + 1, d);
      } else {
        assert forall j | 0 < j < |body| :: body[j] == body[1..][j - 1];
      }
    }
  }

  /** Line `i` is the first item, its dash `d` characters in. */
  ghost predicate FirstItemAt(body: seq<Line>, i: nat, d: nat) {
    i < |body| && ItemAt(body[i], d) && forall j, e: nat | 0 <= j < i :: !ItemAt(body[j], e)
  }

  /** The first item of the block of that key is line `i`, its dash `d` characters in. */
  ghost predicate FirstItemOf(lines: seq<Line>, keyIndex: nat, end: nat, i: nat, d: nat) {
    keyIndex < i < end <= |lines| && ItemAt(lines[i], d)
    && forall j, e: nat | keyIndex < j < i :: !ItemAt(lines[j], e)
  }

  /** What the scan of a block returns, on the characters of the document: the line behind
      the last one with text, of the lines that are blank, indented or items; and the
      white space before the first dash, or two spaces when the block has no item. */
  lemma DescribeIs(lines: seq<Line>, keyIndex: nat)
    requires keyIndex < |lines|
    ensures exists stop: nat :: EndsAt(lines, keyIndex, Describe(lines, keyIndex).0, stop)
    ensures var (end, indent) := Describe(lines, keyIndex);
            || (indent == "  " && forall i, d: nat | keyIndex < i < end :: !ItemAt(lines[i], d))
            || exists i: nat, d: nat :: FirstItemOf(lines, keyIndex, end, i, d) && indent == lines[i][..d]
  {
    var (end, indent) := Describe(lines, keyIndex);
    EndOfBlock(lines, keyIndex, lines[keyIndex + 1..], end);
    var body := lines[keyIndex + 1..][..end - keyIndex - 1];
    assert forall i | keyIndex < i < end :: lines[i] == body[i - keyIndex - 1];
    FirstIndentOf(body);
    if FirstIndent(body).Some? {
      var i: nat, d: nat :| FirstItemAt(body, i, d) && FirstIndent(body).value == body[i][..d];
      assert FirstItemOf(lines, keyIndex, end, keyIndex + 1 + i, d);
    }
  }

  lemma EndOfBlock(lines: seq<Line>, keyIndex: nat, tail: seq<Line>, end: nat)
    requires keyIndex < |lines| && tail == lines[keyIndex + 1..] && end == keyIndex + 1 + BlockLen(tail)
    ensures exists stop: nat :: EndsAt(lines, keyIndex, end, stop)
  {
    var stop := BlockEnds(tail);
    assert forall i | keyIndex < i < |lines| :: lines[i] == tail[i - keyIndex - 1];
    assert EndsAt(lines, keyIndex, end, keyIndex + 1 + stop);
  }
}
