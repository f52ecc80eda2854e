/** The text-to-text functions on the user-data document, and what they are on its lines. */
module UserData {
  import opened Outcomes
  import opened Text
  import opened SequenceBlock
  import opened DocumentLines
  import opened WriteFiles
  import opened AppendFacts
  import opened ModeCommands
  import opened UserDataRuns
  import opened RepeatedRuns
  import opened RunOutcome

  function AppendNewBlock(userData: string, block: string): string {
    if Blank(userData) then
      HEADER + "\n\n" + block
    else
      var text := EnsureTrailingNewline(userData);
      if FirstContent(SplitLines(text)) != HEADER then HEADER + "\n" + text + block else text + block
  }

  function AppendRuncmdText(userData: string, command: Line): Result<string> {
    var lines := SplitLines(userData);
    var found := Find(lines, RUNCMD);
    if found.Flow? then
      Err(FlowStyle(RUNCMD))
    else if HasLine(lines, "- " + command) then
      Ok(EnsureTrailingNewline(userData))
    else if found.Absent? then
      Ok(AppendNewBlock(userData, "runcmd:\n" + DEFAULT_ITEM_INDENT + "- " + command + "\n"))
    else
      var (end, indent) := Describe(lines, found.index);
      Ok(Join("\n", Insert(lines, end, [indent + "- " + command])) + "\n")
  }

  function RenderEntry(f: ToolFile, indent: Line): string {
    var body := Join("\n", BodyLines(indent + "    ", SplitLines(f.content)));
    (indent + "- path: " + f.path + "\n") +
    (indent + "  permissions: '" + f.permissions + "'" + "\n") +
    (indent + "  owner: root:root" + "\n") +
    (indent + "  content: |" + "\n") +
    (body + "\n")
  }

  function AppendWriteFileText(userData: string, f: ToolFile): Result<string> {
    var lines := SplitLines(userData);
    var found := Find(lines, WRITE_FILES);
    if found.Flow? then
      Err(FlowStyle(WRITE_FILES))
    else if HasLine(lines, Marker(f)) then
      Ok(EnsureTrailingNewline(userData))
    else if found.Absent? then
      Ok(AppendNewBlock(userData, "write_files:\n" + RenderEntry(f, DEFAULT_ITEM_INDENT)))
    else
      var (end, indent) := Describe(lines, found.index);
      Ok(Join("\n", lines[..end] + [RStripNewlines(RenderEntry(f, indent))] + lines[end..]) + "\n")
  }

  function DropItemsText(userData: string, commands: set<Line>): Result<string> {
    var lines := SplitLines(userData);
    var found := Find(lines, RUNCMD);
    if found.Flow? then
      Err(FlowStyle(RUNCMD))
    else if found.Absent? then
      Ok(EnsureTrailingNewline(userData))
    else
      var end := Describe(lines, found.index).0;
      var kept := Without(lines[found.index + 1..end], AsItems(commands));
      Ok(Join("\n", lines[..found.index + 1] + kept + lines[end..]) + "\n")
  }

  function AppendAllText(userData: string, commands: seq<Line>): Result<string>
    decreases |commands|
  {
    if commands == [] then
      Ok(userData)
    else
      var next :- AppendRuncmdText(userData, commands[0]);
      AppendAllText(next, commands[1..])
  }

  function PinModeText(userData: string, mode: Mode): Result<string> {
    var kept :- DropItemsText(userData, Superseded(mode));
    AppendAllText(kept, Wanted(mode))
  }

  /** Scans the lines for the key and for the command, and edits them in place. */
  method AppendRuncmdInPlace(userData: string, command: Line) returns (r: Result<string>)
    ensures r == AppendRuncmdText(userData, command)
  {
    var lines := SplitLines(userData);
    var found := FindTopLevelSequence(lines, RUNCMD);
    if found.Flow? {
      return Err(FlowStyle(RUNCMD));
    }
    if HasLine(lines, "- " + command) {
      return Ok(EnsureTrailingNewline(userData));
    }
    if found.Absent? {
      return Ok(AppendNewBlock(userData, "runcmd:\n" + DEFAULT_ITEM_INDENT + "- " + command + "\n"));
    }
    var end, indent := DescribeSequenceBlock(lines, found.index);
    lines := Insert(lines, end, [indent + "- " + command]);
    r := Ok(Join("\n", lines) + "\n");
  }

  method AppendWriteFileInPlace(userData: string, f: ToolFile) returns (r: Result<string>)
    ensures r == AppendWriteFileText(userData, f)
  {
    var lines := SplitLines(userData);
    var found := FindTopLevelSequence(lines, WRITE_FILES);
    if found.Flow? {
      return Err(FlowStyle(WRITE_FILES));
    }
    if HasLine(lines, Marker(f)) {
      return Ok(EnsureTrailingNewline(userData));
    }
    if found.Absent? {
      return Ok(AppendNewBlock(userData, "write_files:\n" + RenderEntry(f, DEFAULT_ITEM_INDENT)));
    }
    var end, indent := DescribeSequenceBlock(lines, found.index);
    var entry := RStripNewlines(RenderEntry(f, indent));
    r := Ok(Join("\n", lines[..end] + [entry] + lines[end..]) + "\n");
  }

  /** The original's loop: drop what other modes left, then append this mode's commands
      one by one, giving up at the first refusal. */
  method PinGadgetMode(userData: string, mode: Mode) returns (r: Result<string>)
    ensures r == PinModeText(userData, mode)
  {
    var wanted := Wanted(mode);
    r := DropItemsText(userData, Superseded(mode));
    if r.Err? {
      return;
    }
    for i := 0 to |wanted|
      invariant r.Ok? && PinModeText(userData, mode) == AppendAllText(r.value, wanted[i..])
    {
      assert wanted[i..][1..] == wanted[i + 1..];
      r := AppendRuncmdInPlace(r.value, wanted[i]);
      if r.Err? {
        return;
      }
    }
  }

  function AddFilesText(userData: string, files: seq<ToolFile>): Result<string>
    decreases |files|
  {
    if files == [] then
      Ok(userData)
    else
      var next :- AppendWriteFileText(userData, files[0]);
      AddFilesText(next, files[1..])
  }

  /** The user-data part of a run: the files, the enabling command, the mode. */
  function SetupText(userData: string, files: seq<ToolFile>, mode: Mode): Result<string> {
    var withFiles :- AddFilesText(userData, files);
    var enabled :- AppendRuncmdText(withFiles, GADGET_RUNCMD);
    PinModeText(enabled, mode)
  }

  // ---------------------------------------------------------------------
  // Text against lines
  // ---------------------------------------------------------------------

  function Written(lines: Result<seq<Line>>): Result<string> {
    if lines.Ok? then Ok(Unlines(lines.value)) else Err(lines.error)
  }

  lemma PresentText(userData: string, content: string)
    requires HasLine(SplitLines(userData), content) && content != ""
    ensures EnsureTrailingNewline(userData) == Unlines(TrimEmpty(SplitLines(userData)))
  {
    if Blank(userData) {
      BlankLines(userData);
      HasLineBlank(SplitLines(userData), content);
    } else {
      EnsureTrailingNewlineLines(userData);
    }
  }

  lemma AppendNewBlockLines(userData: string, block: seq<Line>)
    ensures AppendNewBlock(userData, Unlines(block)) == Unlines(AppendBlock(SplitLines(userData), block))
  {
    var lines := SplitLines(userData);
    BlankLines(userData);
    if Blank(userData) {
      UnlinesConcat([HEADER, ""], block);
      assert Unlines([HEADER, ""]) == HEADER + "\n" + ("" + "\n" + "") by {
        assert [HEADER, ""][1..] == [""] && [""][1..] == [];
      }
    } else {
      EnsureTrailingNewlineLines(userData);
      SplitUnlines(TrimEmpty(lines));
      var text := TrimEmpty(lines);
      UnlinesConcat(text, block);
      UnlinesConcat([HEADER], text + block);
      assert Unlines([HEADER]) == HEADER + "\n" by {
        assert [HEADER][1..] == [];
      }
      assert [HEADER] + text + block == [HEADER] + (text + block);
      assert [] + text + block == text + block;
    }
  }

  lemma UnlinesOne(a: Line)
    ensures Unlines([a]) == a + "\n"
  {
    assert [a][1..] == [];
    assert a + "\n" + "" == a + "\n";
  }

  lemma UnlinesCons(a: Line, rest: seq<Line>)
    ensures Unlines([a] + rest) == a + "\n" + Unlines(rest)
  {
    assert ([a] + rest)[1..] == rest;
  }

  lemma NewRuncmdLines(userData: string, command: Line)
    ensures AppendNewBlock(userData, "runcmd:\n" + DEFAULT_ITEM_INDENT + "- " + command + "\n") ==
            Unlines(AppendBlock(SplitLines(userData), [RUNCMD + ":"] + [Item(DEFAULT_ITEM_INDENT, command)]))
  {
    var item := Item(DEFAULT_ITEM_INDENT, command);
    AppendNewBlockLines(userData, [RUNCMD + ":"] + [item]);
    UnlinesCons(RUNCMD + ":", [item]);
    UnlinesOne(item);
    assert RUNCMD + ":" + "\n" + (item + "\n") == "runcmd:\n" + DEFAULT_ITEM_INDENT + "- " + command + "\n";
  }

  lemma AppendRuncmdLines(userData: string, command: Line)
    ensures AppendRuncmdText(userData, command) == Written(AppendRuncmd(SplitLines(userData), command))
  {
    var lines := SplitLines(userData);
    var found := Find(lines, RUNCMD);
    if found.Flow? {
    } else if HasLine(lines, "- " + command) {
      PresentText(userData, "- " + command);
    } else if found.Absent? {
      NewRuncmdLines(userData, command);
    } else {
      var (end, indent) := Describe(lines, found.index);
      JoinIsUnlines(Insert(lines, end, [Item(indent, command)]));
    }
  }

  lemma DropItemsLines(userData: string, commands: set<Line>)
    ensures DropItemsText(userData, commands).Ok? == DropItems(SplitLines(userData), commands).Ok?
    ensures DropItemsText(userData, commands).Err? ==>
              DropItemsText(userData, commands).error == DropItems(SplitLines(userData), commands).error
    ensures DropItemsText(userData, commands).Ok? ==>
              SplitLines(DropItemsText(userData, commands).value) == DropItems(SplitLines(userData), commands).value
  {
    var lines := SplitLines(userData);
    var found := Find(lines, RUNCMD);
    BlankLines(userData);
    if found.Absent? {
      if !Blank(userData) {
        EnsureTrailingNewlineLines(userData);
        SplitUnlines(TrimEmpty(lines));
      }
    } else if found.At? {
      var dropped := DropItems(lines, commands).value;
      JoinIsUnlines(dropped);
      SplitUnlines(dropped);
    }
  }

  lemma {:induction false} AppendAllLines(userData: string, commands: seq<Line>)
    requires commands != []
    ensures AppendAllText(userData, commands) == Written(AppendAll(SplitLines(userData), commands))
    decreases |commands|
  {
    AppendRuncmdLines(userData, commands[0]);
    var next := AppendRuncmd(SplitLines(userData), commands[0]);
    if next.Ok? {
      SplitUnlines(next.value);
      if |commands| > 1 {
        AppendAllLines(Unlines(next.value), commands[1..]);
      }
    }
  }

  lemma PinModeLines(userData: string, mode: Mode)
    ensures PinModeText(userData, mode) == Written(PinMode(SplitLines(userData), mode))
  {
    DropItemsLines(userData, Superseded(mode));
    ModeListsAreSound(mode);
    var kept := DropItemsText(userData, Superseded(mode));
    if kept.Ok? {
      AppendAllLines(kept.value, Wanted(mode));
    }
  }

  lemma RenderEntryLines(f: ToolFile, indent: Line)
    ensures RenderEntry(f, indent) == Unlines(EntryLines(f, indent))
  {
    var head, content := EntryHead(f, indent), SplitLines(f.content);
    var body: seq<Line> := if content == [] then [""] else BodyLines(indent + "    ", content);
    UnlinesConcat(head, body);
    UnlinesHead(head);
    BodyText(indent + "    ", content);
  }

  lemma BodyText(pad: Line, content: seq<Line>)
    ensures Join("\n", BodyLines(pad, content)) + "\n" ==
            Unlines(if content == [] then [""] else BodyLines(pad, content))
  {
    if content == [] {
      UnlinesOne("");
    } else {
      JoinIsUnlines(BodyLines(pad, content));
    }
  }

  lemma UnlinesHead(head: seq<Line>)
    requires |head| == 4
    ensures Unlines(head) == (head[0] + "\n") + (head[1] + "\n") + (head[2] + "\n") + (head[3] + "\n")
  {
    assert head == [head[0]] + [head[1]] + [head[2]] + [head[3]];
    UnlinesConcat([head[0]] + [head[1]] + [head[2]], [head[3]]);
    UnlinesConcat([head[0]] + [head[1]], [head[2]]);
    UnlinesConcat([head[0]], [head[1]]);
    UnlinesOne(head[0]);
    UnlinesOne(head[1]);
    UnlinesOne(head[2]);
    UnlinesOne(head[3]);
  }

  lemma {:induction false} JoinAround(a: seq<Line>, middle: string, b: seq<Line>)
    ensures Join("\n", a + [middle] + b) + "\n" == Unlines(a) + (middle + "\n") + Unlines(b)
  {
    var parts: seq<string> := a + [middle] + b;
    if a == [] {
      assert parts[1..] == b;
      if b != [] {
        JoinIsUnlines(b);
      }
    } else {
      var others := a[1..] + [middle] + b;
      assert parts[1..] == others;
      JoinAround(a[1..], middle, b);
      var rest := (middle + "\n") + Unlines(b);
      assert Join("\n", parts) + "\n" == a[0] + "\n" + (Join("\n", others) + "\n");
      Regroup(a[0] + "\n", Unlines(a[1..]), middle + "\n", Unlines(b));
      Regroup([], Unlines(a), middle + "\n", Unlines(b));
    }
  }

  lemma InsertEntryLines(lines: seq<Line>, end: nat, f: ToolFile, indent: Line)
    requires end <= |lines| && Blank(indent)
    ensures Join("\n", lines[..end] + [RStripNewlines(RenderEntry(f, indent))] + lines[end..]) + "\n" ==
            Unlines(Insert(lines, end, TrimEmpty(EntryLines(f, indent))))
  {
    var entry := EntryLines(f, indent);
    var rendered := RStripNewlines(RenderEntry(f, indent));
    RenderEntryLines(f, indent);
    assert !AllBlank(entry) by {
      assert entry[0][|indent|] == '-';
    }
    RStripUnlines(entry);
    JoinAround(lines[..end], rendered, lines[end..]);
    UnlinesConcat(lines[..end] + TrimEmpty(entry), lines[end..]);
    UnlinesConcat(lines[..end], TrimEmpty(entry));
  }

  lemma AppendWriteFileLines(userData: string, f: ToolFile)
    ensures AppendWriteFileText(userData, f) == Written(AppendWriteFile(SplitLines(userData), f))
  {
    var lines := SplitLines(userData);
    var found := Find(lines, WRITE_FILES);
    if HasLine(lines, Marker(f)) {
      PresentText(userData, Marker(f));
    } else if found.Absent? {
      NewEntryLines(userData, f);
    } else if found.At? {
      var (end, indent) := Describe(lines, found.index);
      InsertEntryLines(lines, end, f, IndentFor(lines, WRITE_FILES));
    }
  }

  lemma NewEntryLines(userData: string, f: ToolFile)
    ensures AppendNewBlock(userData, "write_files:\n" + RenderEntry(f, DEFAULT_ITEM_INDENT)) ==
            Unlines(AppendBlock(SplitLines(userData), [WRITE_FILES + ":"] + EntryLines(f, DEFAULT_ITEM_INDENT)))
  {
    var entry := EntryLines(f, DEFAULT_ITEM_INDENT);
    AppendNewBlockLines(userData, [WRITE_FILES + ":"] + entry);
    RenderEntryLines(f, DEFAULT_ITEM_INDENT);
    UnlinesCons(WRITE_FILES + ":", entry);
    assert WRITE_FILES + ":" + "\n" == "write_files:\n";
  }

  lemma {:induction false} AddFilesLines(userData: string, files: seq<ToolFile>)
    ensures AddFilesText(userData, files).Ok? == AddFiles(SplitLines(userData), files).Ok?
    ensures AddFilesText(userData, files).Err? ==>
              AddFilesText(userData, files).error == AddFiles(SplitLines(userData), files).error
    ensures AddFilesText(userData, files).Ok? ==>
              SplitLines(AddFilesText(userData, files).value) == AddFiles(SplitLines(userData), files).value
    decreases |files|
  {
    if files != [] {
      AppendWriteFileLines(userData, files[0]);
      var next := AppendWriteFile(SplitLines(userData), files[0]);
      if next.Ok? {
        SplitUnlines(next.value);
        AddFilesLines(Unlines(next.value), files[1..]);
      }
    }
  }

  /** A run on text is the run on its lines, written back. */
  lemma SetupLines(userData: string, files: seq<ToolFile>, mode: Mode)
    ensures SetupText(userData, files, mode) == Written(Setup(SplitLines(userData), files, mode))
  {
    AddFilesLines(userData, files);
    var withFiles := AddFilesText(userData, files);
    if withFiles.Ok? {
      AppendRuncmdLines(withFiles.value, GADGET_RUNCMD);
      var enabled := AppendRuncmd(SplitLines(withFiles.value), GADGET_RUNCMD);
      if enabled.Ok? {
        SplitUnlines(enabled.value);
        PinModeLines(Unlines(enabled.value), mode);
      }
    }
  }

  // ---------------------------------------------------------------------
  // Main results on text
  // ---------------------------------------------------------------------

  function RunAllText(userData: string, files: seq<ToolFile>, modes: seq<Mode>): Result<string> {
    if modes == [] then
      Ok(userData)
    else
      var before :- RunAllText(userData, files, modes[..|modes| - 1]);
      SetupText(before, files, modes[|modes| - 1])
  }

  lemma {:induction false} RunAllLines(userData: string, files: seq<ToolFile>, modes: seq<Mode>)
    requires modes != []
    ensures RunAllText(userData, files, modes) == Written(RunAll(SplitLines(userData), files, modes))
    decreases |modes|
  {
    var init, last := modes[..|modes| - 1], modes[|modes| - 1];
    if init == [] {
      SetupLines(userData, files, last);
    } else {
      RunAllLines(userData, files, init);
      var before := RunAll(SplitLines(userData), files, init);
      if before.Ok? {
        SplitUnlines(before.value);
        SetupLines(Unlines(before.value), files, last);
      }
    }
  }

  /** The last mode wins, as text: any history of runs on a document without mode
      commands or empty lines at its end leaves exactly what one run in the last mode
      leaves, refusals included. */
  lemma LastModeWinsText(userData: string, files: seq<ToolFile>, modes: seq<Mode>, mode: Mode)
    requires AllInstallable(files) && ModeFree(SplitLines(userData), files)
    requires Blank(userData) || !EndsEmpty(SplitLines(userData))
    ensures RunAllText(userData, files, modes + [mode]) == SetupText(userData, files, mode)
  {
    BlankLines(userData);
    LastModeWins(SplitLines(userData), files, modes, mode);
    RunAllLines(userData, files, modes + [mode]);
    SetupLines(userData, files, mode);
  }

  /** On every document: the second run changes nothing if and only if the first did not
      meet the guard, and the third run never changes anything. */
  lemma RerunText(userData: string, files: seq<ToolFile>, mode: Mode, once: string)
    requires SetupText(userData, files, mode) == Ok(once) && AllInstallable(files)
    ensures var twice := SetupText(once, files, mode);
            && twice.Ok?
            && (twice.value == once <==> !RunLeavesEmptyTail(SplitLines(userData), files, mode))
            && SetupText(twice.value, files, mode) == twice
  {
    var done := FirstRunLines(userData, files, mode, once);
    RerunWritten(done, files, mode, RunLeavesEmptyTail(SplitLines(userData), files, mode));
  }

  lemma FirstRunLines(userData: string, files: seq<ToolFile>, mode: Mode, once: string) returns (done: seq<Line>)
    requires SetupText(userData, files, mode) == Ok(once) && AllInstallable(files)
    ensures once == Unlines(done)
    ensures Setup(done, files, mode) == Ok(TrimEmpty(done))
    ensures Setup(TrimEmpty(done), files, mode) == Ok(TrimEmpty(done))
    ensures Setup(done, files, mode) == Ok(done) <==> !RunLeavesEmptyTail(SplitLines(userData), files, mode)
  {
    var lines := SplitLines(userData);
    SetupLines(userData, files, mode);
    done := Setup(lines, files, mode).value;
    SetupTwice(lines, files, mode);
    SetupIdempotentIff(lines, files, mode);
  }

  lemma RerunWritten(done: seq<Line>, files: seq<ToolFile>, mode: Mode, guard: bool)
    requires Setup(done, files, mode) == Ok(TrimEmpty(done))
    requires Setup(TrimEmpty(done), files, mode) == Ok(TrimEmpty(done))
    requires Setup(done, files, mode) == Ok(done) <==> !guard
    ensures var twice := SetupText(Unlines(done), files, mode);
            twice.Ok? && (twice.value == Unlines(done) <==> !guard) && SetupText(twice.value, files, mode) == twice
  {
    RewrittenLines(done, files, mode);
    RewrittenLines(TrimEmpty(done), files, mode);
    SplitUnlines(done);
    SplitUnlines(TrimEmpty(done));
  }

  lemma RewrittenLines(lines: seq<Line>, files: seq<ToolFile>, mode: Mode)
    ensures SetupText(Unlines(lines), files, mode) == Written(Setup(lines, files, mode))
  {
    SplitUnlines(lines);
    SetupLines(Unlines(lines), files, mode);
  }
}
