/** What a whole run leaves in the document, from the document and the files alone. */
module RunOutcome {
  import opened Outcomes
  import opened Text
  import opened SequenceBlock
  import opened DocumentLines
  import opened WriteFiles
  import opened AppendFacts
  import opened OtherBlocks
  import opened ModeCommands
  import opened ModePinning
  import opened UserDataRuns
  import opened RepeatedRuns

  // ---------------------------------------------------------------------
  // The lines a run has seen when it comes to its commands
  // ---------------------------------------------------------------------

  /** The files a run installs: those whose path no earlier line names. */
  function NewFiles(seen: seq<Line>, files: seq<ToolFile>): (added: seq<ToolFile>)
    ensures |added| <= |files|
    decreases |files|
  {
    if files == [] then []
    else if HasLine(seen, Marker(files[0])) then NewFiles(seen, files[1..])
    else [files[0]] + NewFiles(seen + FileText(files[0]), files[1..])
  }

  function FileText(f: ToolFile): seq<Line> {
    [Marker(f)] + SplitLines(f.content)
  }

  function Texts(files: seq<ToolFile>): seq<Line> {
    if files == [] then [] else FileText(files[0]) + Texts(files[1..])
  }

  /** The document's lines and those of the files a run installs into it. */
  function Seen(lines: seq<Line>, files: seq<ToolFile>): seq<Line> {
    lines + Texts(NewFiles(lines, files))
  }

  /** Both hold the same lines of those that the membership checks look for. */
  ghost predicate SameItems(a: seq<Line>, b: seq<Line>) {
    forall content: string | "- " <= content :: HasLine(a, content) <==> HasLine(b, content)
  }

  lemma MarkerIsSolid(f: ToolFile)
    requires Proper(f.path)
    ensures Strip(Marker(f)) == Marker(f)
  {
    assert Marker(f)[0] == '-' && Solid(Marker(f));
  }

  lemma FileTextHasLine(f: ToolFile, content: string)
    requires Proper(f.path)
    ensures HasLine(FileText(f), content) <==> content == Marker(f) || HasLine(SplitLines(f.content), content)
  {
    MarkerIsSolid(f);
    HasLineConcat([Marker(f)], SplitLines(f.content), content);
    HasOne(Marker(f), content);
  }

  /** An append that is made brings every line of its entry. */
  lemma HasLineAdded(lines: seq<Line>, key: Line, marker: string, entry: seq<Line>, initial: seq<Line>, content: string)
    requires Append(lines, key, marker, entry, initial).Ok? && !HasLine(lines, marker)
    requires "- " <= content && !HasLine([key + ":"], content)
    requires HasLine(entry, content) == HasLine(initial, content)
    ensures HasLine(Append(lines, key, marker, entry, initial).value, content) <==>
            HasLine(lines, content) || HasLine(entry, content)
  {
    var found := Find(lines, key);
    if found.Absent? {
      HasLineAppendBlock(lines, [key + ":"] + initial, content);
      HasLineConcat([key + ":"], initial, content);
    } else {
      var end := Describe(lines, found.index).0;
      assert lines == lines[..end] + lines[end..];
      HasLineConcat(lines[..end], lines[end..], content);
      HasLineConcat(lines[..end] + entry, lines[end..], content);
      HasLineConcat(lines[..end], entry, content);
    }
  }

  lemma FileBrings(lines: seq<Line>, f: ToolFile, content: string)
    requires AppendWriteFile(lines, f).Ok? && Installable(f) && "- " <= content
    ensures HasLine(AppendWriteFile(lines, f).value, content) <==>
            HasLine(lines, content) || (!HasLine(lines, Marker(f)) && HasLine(FileText(f), content))
  {
    var indent := IndentFor(lines, WRITE_FILES);
    FileTextHasLine(f, content);
    EntryShape(f, indent);
    if HasLine(lines, Marker(f)) {
      HasLineTrim(lines, content);
    } else {
      EntryHasLine(f, indent, content);
      EntryHasLine(f, DEFAULT_ITEM_INDENT, content);
      KeysAreNoItems(content);
      HasLineAdded(lines, WRITE_FILES, Marker(f), EntryLines(f, indent), EntryLines(f, DEFAULT_ITEM_INDENT), content);
    }
  }

  lemma FileFollows(lines: seq<Line>, seen: seq<Line>, f: ToolFile)
    requires AppendWriteFile(lines, f).Ok? && Installable(f) && SameItems(lines, seen)
    ensures HasLine(lines, Marker(f)) == HasLine(seen, Marker(f))
    ensures SameItems(AppendWriteFile(lines, f).value, if HasLine(seen, Marker(f)) then seen else seen + FileText(f))
  {
    forall content: string | "- " <= content
      ensures HasLine(AppendWriteFile(lines, f).value, content) <==>
              HasLine(if HasLine(seen, Marker(f)) then seen else seen + FileText(f), content)
    {
      FileBrings(lines, f, content);
      HasLineConcat(seen, FileText(f), content);
    }
  }

  /** After the files, the checks find exactly the lines of the document and of the files
      that were installed. */
  lemma {:induction false} FilesFollow(lines: seq<Line>, seen: seq<Line>, files: seq<ToolFile>)
    requires AddFiles(lines, files).Ok? && AllInstallable(files) && SameItems(lines, seen)
    ensures SameItems(AddFiles(lines, files).value, seen + Texts(NewFiles(seen, files)))
    decreases |files|
  {
    if files == [] {
      assert seen + [] == seen;
    } else {
      var f, others := files[0], files[1..];
      var next := if HasLine(seen, Marker(f)) then seen else seen + FileText(f);
      FileFollows(lines, seen, f);
      FilesFollow(AppendWriteFile(lines, f).value, next, others);
      TextsGrow(seen, f, NewFiles(next, others));
    }
  }

  lemma TextsGrow(seen: seq<Line>, f: ToolFile, others: seq<ToolFile>)
    ensures seen + FileText(f) + Texts(others) == seen + Texts([f] + others)
  {
    assert ([f] + others)[1..] == others;
  }

  // ---------------------------------------------------------------------
  // What the files leave of the `runcmd` block and of the document's end
  // ---------------------------------------------------------------------

  lemma KeyStays(lines: seq<Line>, key: Line, marker: string, entry: seq<Line>, initial: seq<Line>)
    requires Append(lines, key, marker, entry, initial).Ok? && Find(lines, key).At?
    requires AllInert(entry) && PlainKey(key)
    ensures Find(Append(lines, key, marker, entry, initial).value, key).At?
  {
    FindTrim(lines, key);
    var end := Describe(lines, Find(lines, key).index).0;
    assert lines == lines[..end] + lines[end..];
    FindAcrossInert(lines[..end], entry, lines[end..], key);
  }

  lemma FileEnds(lines: seq<Line>, f: ToolFile)
    requires AppendWriteFile(lines, f).Ok? && Installable(f)
    ensures EndsEmpty(AppendWriteFile(lines, f).value) <==>
            EndsEmpty(lines) && !HasLine(lines, Marker(f)) && Find(lines, WRITE_FILES).At?
    ensures Find(lines, WRITE_FILES).At? ==> Find(AppendWriteFile(lines, f).value, WRITE_FILES).At?
  {
    var indent := IndentFor(lines, WRITE_FILES);
    EntryShape(f, indent);
    EntryShape(f, DEFAULT_ITEM_INDENT);
    KeysApart();
    AppendEndsIff(lines, WRITE_FILES, Marker(f), EntryLines(f, indent), EntryLines(f, DEFAULT_ITEM_INDENT));
    if Find(lines, WRITE_FILES).At? {
      KeyStays(lines, WRITE_FILES, Marker(f), EntryLines(f, indent), EntryLines(f, DEFAULT_ITEM_INDENT));
    }
  }

  lemma {:induction false} FilesEnd(lines: seq<Line>, seen: seq<Line>, files: seq<ToolFile>)
    requires AddFiles(lines, files).Ok? && AllInstallable(files) && SameItems(lines, seen)
    ensures EndsEmpty(AddFiles(lines, files).value) <==>
            EndsEmpty(lines) && NewFiles(seen, files) == files && (files == [] || Find(lines, WRITE_FILES).At?)
    decreases |files|
  {
    if files != [] {
      var f, others := files[0], files[1..];
      var next := if HasLine(seen, Marker(f)) then seen else seen + FileText(f);
      FileFollows(lines, seen, f);
      FileEnds(lines, f);
      FilesEnd(AppendWriteFile(lines, f).value, next, others);
      assert files == [f] + others;
      assert HasLine(seen, Marker(f)) ==> |NewFiles(seen, files)| < |files|;
      assert !HasLine(seen, Marker(f)) ==> NewFiles(seen, files)[1..] == NewFiles(next, others);
    }
  }

  /** The files leave the `runcmd` block as it is. What follows it is only empty lines if
      and only if it was before and no `write_files` key was made behind it. */
  lemma {:induction false} FilesKeepBlock(
    lines: seq<Line>, seen: seq<Line>, files: seq<ToolFile>, head: seq<Line>, body: seq<Line>, rest: seq<Line>)
    returns (newHead: seq<Line>, newRest: seq<Line>)
    requires AddFiles(lines, files).Ok? && AllInstallable(files) && SameItems(lines, seen)
    requires Splits(lines, RUNCMD, head, body, rest)
    ensures Splits(AddFiles(lines, files).value, RUNCMD, newHead, body, newRest)
    ensures AllEmpty(newRest) <==> AllEmpty(rest) && (NewFiles(seen, files) == [] || Find(lines, WRITE_FILES).At?)
    decreases |files|
  {
    if files == [] {
      newHead, newRest := head, rest;
    } else {
      var f, others := files[0], files[1..];
      var next := if HasLine(seen, Marker(f)) then seen else seen + FileText(f);
      FileFollows(lines, seen, f);
      FileEnds(lines, f);
      FindTrim(lines, WRITE_FILES);
      newHead, newRest := FileKeepsBlock(lines, f, head, body, rest);
      newHead, newRest := FilesKeepBlock(AppendWriteFile(lines, f).value, next, others, newHead, body, newRest);
    }
  }

  lemma FileKeepsBlock(lines: seq<Line>, f: ToolFile, head: seq<Line>, body: seq<Line>, rest: seq<Line>)
    returns (newHead: seq<Line>, newRest: seq<Line>)
    requires AppendWriteFile(lines, f).Ok? && Installable(f) && Splits(lines, RUNCMD, head, body, rest)
    ensures Splits(AppendWriteFile(lines, f).value, RUNCMD, newHead, body, newRest)
    ensures AllEmpty(newRest) <==> AllEmpty(rest) && (HasLine(lines, Marker(f)) || Find(lines, WRITE_FILES).At?)
  {
    var indent := IndentFor(lines, WRITE_FILES);
    EntryInBlock(f, indent);
    newHead, newRest := OtherAfterAppend(
      lines, WRITE_FILES, Marker(f), TrimEmpty(EntryLines(f, indent)), EntryLines(f, DEFAULT_ITEM_INDENT),
      RUNCMD, head, body, rest);
  }

  lemma EntryInBlock(f: ToolFile, indent: Line)
    requires Blank(indent) && Installable(f)
    ensures AllInBlock(TrimEmpty(EntryLines(f, indent)))
    ensures Apart(WRITE_FILES, RUNCMD) && PlainKey(WRITE_FILES) && PlainKey(RUNCMD) && RUNCMD[0] != '#'
  {
    KeysApart();
    EntryShape(f, indent);
    HeadIsBlock(f, indent);
    BodyIsBlock(indent + "    ", SplitLines(f.content));
  }

  // ---------------------------------------------------------------------
  // The `runcmd` block, step by step
  // ---------------------------------------------------------------------

  lemma IndentStays(body: seq<Line>, command: Line)
    requires Proper(command)
    ensures BlockIndent(body + [Item(BlockIndent(body), command)]) == BlockIndent(body)
  {
    var item := Item(BlockIndent(body), command);
    ItemFacts(BlockIndent(body), command);
    FirstIndentConcat(body, [item]);
    assert FirstIndent([item]) == Some(BlockIndent(body));
  }

  /** What an append leaves in the block. */
  lemma BlockAppended(lines: seq<Line>, command: Line)
    requires AppendRuncmd(lines, command).Ok? && Proper(command)
    ensures Block(AppendRuncmd(lines, command).value) ==
            if HasLine(lines, "- " + command) then Block(lines)
            else Block(lines) + [Item(BlockIndent(Block(lines)), command)]
  {
    var next := AppendRuncmd(lines, command).value;
    if Find(lines, RUNCMD).At? {
      var head, body, rest := SplitExists(lines, RUNCMD);
      BlockIs(lines, head, body, rest);
      if HasLine(lines, "- " + command) {
        SplitTrim(lines, RUNCMD, head, body, rest);
        BlockIs(next, head, body, TrimEmpty(rest));
      } else {
        AppendOne(lines, head, body, rest, command);
        BlockIs(next, head, body + [Item(BlockIndent(body), command)], rest);
      }
    } else if HasLine(lines, "- " + command) {
      KeysApart();
      FindTrim(lines, RUNCMD);
    } else {
      var item := Item(DEFAULT_ITEM_INDENT, command);
      NewBlockSplits(lines, item, command);
      BlockIs(next, AppendBlock(lines, [RUNCMD + ":"]), [item], []);
      assert [] + [item] == [item];
    }
  }

  lemma BlockAllAppended(lines: seq<Line>, commands: seq<Line>)
    requires AppendAll(lines, commands).Ok? && AllProper(commands) && Distinct(commands)
    ensures Block(AppendAll(lines, commands).value) ==
            Block(lines) + Items(BlockIndent(Block(lines)), Missing(lines, commands))
  {
    BlockAllFrom(lines, Block(lines), BlockIndent(Block(lines)), commands);
  }

  lemma {:induction false} BlockAllFrom(lines: seq<Line>, body: seq<Line>, indent: Line, commands: seq<Line>)
    requires AppendAll(lines, commands).Ok? && AllProper(commands) && Distinct(commands)
    requires body == Block(lines) && indent == BlockIndent(body)
    ensures Block(AppendAll(lines, commands).value) == body + Items(indent, Missing(lines, commands))
    decreases |commands|
  {
    if commands == [] {
      assert body + [] == body;
    } else {
      var command, others := commands[0], commands[1..];
      var next := AppendRuncmd(lines, command).value;
      var held := HasLine(lines, "- " + command);
      var longer := if held then body else body + [Item(indent, command)];
      assert Proper(command);
      BlockAppended(lines, command);
      IndentStays(body, command);
      BlockAllFrom(next, longer, indent, others);
      AppendAllStep(lines, commands, next);
      SameMissing(lines, next, commands);
      ItemsOneMore(body, indent, command, Missing(lines, others));
      MissingStep(lines, commands);
    }
  }

  lemma MissingStep(lines: seq<Line>, commands: seq<Line>)
    requires commands != []
    ensures Missing(lines, commands) ==
            if HasLine(lines, "- " + commands[0]) then Missing(lines, commands[1..])
            else [commands[0]] + Missing(lines, commands[1..])
  {
  }

  lemma SameMissing(lines: seq<Line>, next: seq<Line>, commands: seq<Line>)
    requires commands != [] && AllProper(commands) && Distinct(commands)
    requires AppendRuncmd(lines, commands[0]) == Ok(next)
    ensures Missing(next, commands[1..]) == Missing(lines, commands[1..])
  {
    var others := commands[1..];
    assert Proper(commands[0]);
    forall i | 0 <= i < |others| ensures HasLine(next, "- " + others[i]) == HasLine(lines, "- " + others[i]) {
      CommandAdded(lines, commands[0], "- " + others[i]);
      assert others[i] == commands[i + 1] != commands[0];
      SameItem(others[i], commands[0]);
    }
    MissingFrom(next, lines, others);
  }

  lemma ItemsOneMore(body: seq<Line>, indent: Line, command: Line, missing: seq<Line>)
    ensures body + [Item(indent, command)] + Items(indent, missing) == body + Items(indent, [command] + missing)
  {
    assert ([command] + missing)[1..] == missing;
  }

  lemma BlockDropped(lines: seq<Line>, superseded: set<Line>)
    requires DropItems(lines, superseded).Ok?
    ensures Block(DropItems(lines, superseded).value) == TrimBlank(Without(Block(lines), AsItems(superseded)))
  {
    if Find(lines, RUNCMD).At? {
      var head, body, rest := SplitExists(lines, RUNCMD);
      var core, tail := CoreSplits(head, body, rest, AsItems(superseded));
      DropAt(lines, head, body, rest, superseded);
      BlockIs(lines, head, body, rest);
      BlockIs(head + core + tail, head, core, tail);
    } else {
      KeysApart();
      FindTrim(lines, RUNCMD);
    }
  }

  /** Dropping superseded items hides nothing else from the checks. */
  lemma DropHides(lines: seq<Line>, superseded: set<Line>, content: string)
    requires DropItems(lines, superseded).Ok? && content !in AsItems(superseded) && content != ""
    ensures HasLine(DropItems(lines, superseded).value, content) <==> HasLine(lines, content)
  {
    if Find(lines, RUNCMD).At? {
      var head, body, rest := SplitExists(lines, RUNCMD);
      DropAt(lines, head, body, rest, superseded);
      HasLineDropped(head, body, rest, AsItems(superseded), content);
    } else {
      HasLineTrim(lines, content);
    }
  }

  // ---------------------------------------------------------------------
  // The `runcmd` block after a run
  // ---------------------------------------------------------------------

  const ENABLE_ITEM := "- " + GADGET_RUNCMD

  /** The block with the enabling command at its end, unless some line held it already. */
  function EnabledBlock(lines: seq<Line>, files: seq<ToolFile>): seq<Line> {
    var body := Block(lines);
    body + if HasLine(Seen(lines, files), ENABLE_ITEM) then [] else [Item(BlockIndent(body), GADGET_RUNCMD)]
  }

  /** The block after a run: less the superseded items and the blank lines they uncover,
      then the wanted commands that no line held. */
  function PinnedBlock(lines: seq<Line>, files: seq<ToolFile>, mode: Mode): seq<Line> {
    var core := TrimBlank(Without(EnabledBlock(lines, files), AsItems(Superseded(mode))));
    core + Items(BlockIndent(core), Missing(Seen(lines, files), Wanted(mode)))
  }

  lemma FilesLeaveBlock(lines: seq<Line>, files: seq<ToolFile>)
    requires AddFiles(lines, files).Ok? && AllInstallable(files)
    ensures Block(AddFiles(lines, files).value) == Block(lines)
  {
    FilesAdded(lines, files, "- ");
    if Find(lines, RUNCMD).At? {
      var head, body, rest := SplitExists(lines, RUNCMD);
      var newHead, newRest := FilesKeepBlock(lines, lines, files, head, body, rest);
      BlockIs(lines, head, body, rest);
      BlockIs(AddFiles(lines, files).value, newHead, body, newRest);
    }
  }

  /** After the shared part the block holds the enabling command as well, unless it was
      somewhere, and the checks find what the document and the new files held, and it. */
  lemma EnableLeaves(lines: seq<Line>, files: seq<ToolFile>, content: string)
    requires Enable(lines, files).Ok? && AllInstallable(files) && "- " <= content
    ensures Block(Enable(lines, files).value) == EnabledBlock(lines, files)
    ensures HasLine(Enable(lines, files).value, content) <==>
            HasLine(Seen(lines, files), content) || content == ENABLE_ITEM
  {
    var withFiles := AddFiles(lines, files).value;
    ProperGadget();
    FilesFollow(lines, lines, files);
    FilesLeaveBlock(lines, files);
    BlockAppended(withFiles, GADGET_RUNCMD);
    CommandAdded(withFiles, GADGET_RUNCMD, content);
    assert Block(lines) + [] == Block(lines);
  }

  /** The whole `runcmd` block after a run, from the document and the files alone. */
  lemma BlockAfterRun(lines: seq<Line>, files: seq<ToolFile>, mode: Mode)
    requires Setup(lines, files, mode).Ok? && AllInstallable(files)
    ensures Block(Setup(lines, files, mode).value) == PinnedBlock(lines, files, mode)
  {
    var enabled := Enable(lines, files).value;
    ModeListsAreSound(mode);
    EnableLeaves(lines, files, ENABLE_ITEM);
    PinnedBlockIs(enabled, Wanted(mode), Superseded(mode), Seen(lines, files));
    forall i | 0 <= i < |Wanted(mode)|
      ensures HasLine(enabled, "- " + Wanted(mode)[i]) == HasLine(Seen(lines, files), "- " + Wanted(mode)[i])
    {
      EnableLeaves(lines, files, "- " + Wanted(mode)[i]);
      SameItem(Wanted(mode)[i], GADGET_RUNCMD);
      WantedIsNotEnabling(mode, i);
    }
    MissingFrom(enabled, Seen(lines, files), Wanted(mode));
  }

  lemma WantedIsNotEnabling(mode: Mode, i: nat)
    requires i < |Wanted(mode)|
    ensures Wanted(mode)[i] != GADGET_RUNCMD && Wanted(mode)[i] !in Superseded(mode)
  {
    ModeListsAreSound(mode);
    assert Wanted(mode)[i] in Wanted(mode);
    assert Wanted(mode)[i] in AllModeCommands();
  }

  lemma PinnedBlockIs(lines: seq<Line>, wanted: seq<Line>, superseded: set<Line>, seen: seq<Line>)
    requires Pin(lines, wanted, superseded).Ok? && AllProper(wanted) && Distinct(wanted)
    requires forall i | 0 <= i < |wanted| :: wanted[i] !in superseded
    ensures var core := TrimBlank(Without(Block(lines), AsItems(superseded)));
            Block(Pin(lines, wanted, superseded).value) == core + Items(BlockIndent(core), Missing(lines, wanted))
  {
    var dropped := DropItems(lines, superseded).value;
    BlockDropped(lines, superseded);
    BlockAllAppended(dropped, wanted);
    forall i | 0 <= i < |wanted| ensures HasLine(dropped, "- " + wanted[i]) == HasLine(lines, "- " + wanted[i]) {
      NotAnItem(wanted[i], superseded);
      DropHides(lines, superseded, "- " + wanted[i]);
    }
    MissingFrom(dropped, lines, wanted);
  }

  lemma TrimBlankHolds(lines: seq<Line>, content: string)
    requires content != ""
    ensures HasLine(TrimBlank(lines), content) <==> HasLine(lines, content)
  {
    var core := TrimBlank(lines);
    assert lines == core + lines[|core|..];
    HasLineConcat(core, lines[|core|..], content);
    HasLineBlank(lines[|core|..], content);
  }

  lemma MissingHolds(lines: seq<Line>, commands: seq<Line>, command: Line)
    ensures command in Missing(lines, commands) <==> command in commands && !HasLine(lines, "- " + command)
  {
    if commands != [] {
      MissingHolds(lines, commands[1..], command);
      assert commands == [commands[0]] + commands[1..];
    }
  }

  lemma PartsHold(core: seq<Line>, indent: Line, missing: seq<Line>, command: Line)
    requires Blank(indent) && AllProper(missing)
    ensures HasLine(core + Items(indent, missing), "- " + command) <==>
            HasLine(core, "- " + command) || command in missing
  {
    HasLineItems(indent, missing, "- " + command);
    HasLineConcat(core, Items(indent, missing), "- " + command);
    forall i | 0 <= i < |missing| ensures "- " + command == "- " + missing[i] <==> command == missing[i] {
      SameItem(command, missing[i]);
    }
  }

  lemma EnabledBlockHolds(lines: seq<Line>, files: seq<ToolFile>, command: Line)
    ensures HasLine(EnabledBlock(lines, files), "- " + command) <==>
            || HasLine(Block(lines), "- " + command)
            || (command == GADGET_RUNCMD && !HasLine(Seen(lines, files), ENABLE_ITEM))
  {
    var body := Block(lines);
    var item := Item(BlockIndent(body), GADGET_RUNCMD);
    ProperGadget();
    ItemFacts(BlockIndent(body), GADGET_RUNCMD);
    SameItem(command, GADGET_RUNCMD);
    HasLineConcat(body, [item], "- " + command);
    HasOne(item, "- " + command);
    assert body + [] == body;
  }

  /** The checks look at the whole document, the commands belong in the block: after a run
      the enabling command, or a command of the mode, stands in the block if and only if it
      stood there before or nowhere at all. */
  lemma RunHoldsCommand(lines: seq<Line>, files: seq<ToolFile>, mode: Mode, command: Line)
    requires Setup(lines, files, mode).Ok? && AllInstallable(files)
    requires command == GADGET_RUNCMD || command in Wanted(mode)
    ensures HasLine(Block(Setup(lines, files, mode).value), "- " + command) <==>
            HasLine(Block(lines), "- " + command) || !HasLine(Seen(lines, files), "- " + command)
  {
    var superseded := Superseded(mode);
    var kept := Without(EnabledBlock(lines, files), AsItems(superseded));
    var missing := Missing(Seen(lines, files), Wanted(mode));
    BlockAfterRun(lines, files, mode);
    ModeListsAreSound(mode);
    MissingFits(Seen(lines, files), Wanted(mode));
    assert AllProper(missing);
    PartsHold(TrimBlank(kept), BlockIndent(TrimBlank(kept)), missing, command);
    MissingHolds(Seen(lines, files), Wanted(mode), command);
    TrimBlankHolds(kept, "- " + command);
    HasLineWithout(EnabledBlock(lines, files), AsItems(superseded), "- " + command);
    EnabledBlockHolds(lines, files, command);
    NotSuperseded(mode, command);
  }

  lemma NotSuperseded(mode: Mode, command: Line)
    requires command == GADGET_RUNCMD || command in Wanted(mode)
    ensures "- " + command !in AsItems(Superseded(mode))
    ensures command == GADGET_RUNCMD ==> command !in Wanted(mode)
  {
    ModeListsAreSound(mode);
    assert forall c | c in Wanted(mode) :: c in AllModeCommands();
    NotAnItem(command, Superseded(mode));
  }

  /** A line that does not outlive a drop with text of its own. */
  predicate Vanishes(line: Line, unwanted: set<string>) {
    Blank(line) || Strip(line) in unwanted
  }

  lemma {:induction false} BlankWithoutIff(lines: seq<Line>, unwanted: set<string>)
    ensures AllBlank(Without(lines, unwanted)) <==> forall i | 0 <= i < |lines| :: Vanishes(lines[i], unwanted)
  {
    if lines != [] {
      var others := Without(lines[1..], unwanted);
      BlankWithoutIff(lines[1..], unwanted);
      assert lines == [lines[0]] + lines[1..];
      VanishCons(lines[0], lines[1..], unwanted);
      AllBlankCons(lines[0], others);
      if Strip(lines[0]) in unwanted {
        assert Without(lines, unwanted) == others;
      } else {
        assert Without(lines, unwanted) == [lines[0]] + others;
        assert Vanishes(lines[0], unwanted) == Blank(lines[0]);
      }
    }
  }

  lemma VanishCons(line: Line, others: seq<Line>, unwanted: set<string>)
    ensures (forall i | 0 <= i < |[line] + others| :: Vanishes(([line] + others)[i], unwanted)) <==>
            Vanishes(line, unwanted) && forall i | 0 <= i < |others| :: Vanishes(others[i], unwanted)
  {
    assert forall i | 0 <= i < |others| :: ([line] + others)[i + 1] == others[i];
    assert ([line] + others)[0] == line;
  }

  lemma AllBlankCons(line: Line, others: seq<Line>)
    ensures AllBlank([line] + others) <==> Blank(line) && AllBlank(others)
  {
    assert forall i | 0 <= i < |others| :: ([line] + others)[i + 1] == others[i];
    assert ([line] + others)[0] == line;
  }

  lemma TrimBlankIsEmptyIff(lines: seq<Line>)
    ensures TrimBlank(lines) == [] <==> AllBlank(lines)
  {
    var core := TrimBlank(lines);
    if core == [] {
      assert lines[0..] == lines;
    } else {
      assert lines[|core| - 1] == core[|core| - 1];
    }
  }

  lemma MissingNoneIff(lines: seq<Line>, commands: seq<Line>)
    ensures Missing(lines, commands) == [] <==> forall i | 0 <= i < |commands| :: HasLine(lines, "- " + commands[i])
  {
    if commands != [] {
      MissingNoneIff(lines, commands[1..]);
      assert forall i | 0 < i < |commands| :: commands[i] == commands[1..][i - 1];
    }
  }

  lemma BlockIsEmptyIff(lines: seq<Line>, files: seq<ToolFile>, mode: Mode)
    requires Setup(lines, files, mode).Ok? && AllInstallable(files)
    ensures Block(Setup(lines, files, mode).value) == [] <==>
            && HasLine(Seen(lines, files), ENABLE_ITEM)
            && HoldsItems(Seen(lines, files), Wanted(mode))
            && forall i | 0 <= i < |Block(lines)| :: Vanishes(Block(lines)[i], AsItems(Superseded(mode)))
  {
    var unwanted := AsItems(Superseded(mode));
    var kept := Without(EnabledBlock(lines, files), unwanted);
    var missing := Missing(Seen(lines, files), Wanted(mode));
    BlockAfterRun(lines, files, mode);
    ModeListsAreSound(mode);
    MissingNoneIff(Seen(lines, files), Wanted(mode));
    MissingFits(Seen(lines, files), Wanted(mode));
    assert AllProper(missing);
    ItemsFacts(BlockIndent(TrimBlank(kept)), missing);
    TrimBlankIsEmptyIff(kept);
    BlankWithoutIff(EnabledBlock(lines, files), unwanted);
    EnabledVanishes(lines, files, mode);
  }

  /** When a run leaves a `runcmd` key with no line at all under it. It takes a document
      that has the key, that holds the enabling command and every command of the mode, and
      whose block has nothing but superseded items and blank lines. */
  lemma RunEmptiesBlockIff(lines: seq<Line>, files: seq<ToolFile>, mode: Mode)
    requires Setup(lines, files, mode).Ok? && AllInstallable(files)
    ensures var after := Setup(lines, files, mode).value;
            Find(after, RUNCMD).At? && Block(after) == [] <==>
            && Find(lines, RUNCMD).At?
            && HasLine(Seen(lines, files), ENABLE_ITEM)
            && HoldsItems(Seen(lines, files), Wanted(mode))
            && forall i | 0 <= i < |Block(lines)| :: Vanishes(Block(lines)[i], AsItems(Superseded(mode)))
  {
    BlockIsEmptyIff(lines, files, mode);
    KeyAfterRunIff(lines, files, mode);
  }

  lemma EnabledVanishes(lines: seq<Line>, files: seq<ToolFile>, mode: Mode)
    ensures var body, longer, unwanted := Block(lines), EnabledBlock(lines, files), AsItems(Superseded(mode));
            (forall i | 0 <= i < |longer| :: Vanishes(longer[i], unwanted)) <==>
            && HasLine(Seen(lines, files), ENABLE_ITEM)
            && forall i | 0 <= i < |body| :: Vanishes(body[i], unwanted)
  {
    var body, longer, unwanted := Block(lines), EnabledBlock(lines, files), AsItems(Superseded(mode));
    ProperGadget();
    ItemFacts(BlockIndent(body), GADGET_RUNCMD);
    NotSuperseded(mode, GADGET_RUNCMD);
    assert forall i | 0 <= i < |body| :: longer[i] == body[i];
    if HasLine(Seen(lines, files), ENABLE_ITEM) {
      assert longer == body;
    } else {
      assert !Vanishes(longer[|body|], unwanted);
    }
  }

  // ---------------------------------------------------------------------
  // When a run leaves the key without an item
  // ---------------------------------------------------------------------

  /** No line of the block is a list item; comments and blank lines may stand in it. */
  predicate NoItems(body: seq<Line>) {
    forall i | 0 <= i < |body| :: !IsItem(body[i])
  }

  /** Every item of the block is one of these. */
  predicate OnlyItems(body: seq<Line>, unwanted: set<string>) {
    forall i | 0 <= i < |body| :: IsItem(body[i]) ==> Strip(body[i]) in unwanted
  }

  lemma NoItemsConcat(a: seq<Line>, b: seq<Line>)
    ensures NoItems(a + b) <==> NoItems(a) && NoItems(b)
  {
    assert forall i | 0 <= i < |a| :: (a + b)[i] == a[i];
    assert forall i | 0 <= i < |b| :: (a + b)[|a| + i] == b[i];
  }

  lemma OnlyItemsConcat(a: seq<Line>, b: seq<Line>, unwanted: set<string>)
    ensures OnlyItems(a + b, unwanted) <==> OnlyItems(a, unwanted) && OnlyItems(b, unwanted)
  {
    assert forall i | 0 <= i < |a| :: (a + b)[i] == a[i];
    assert forall i | 0 <= i < |b| :: (a + b)[|a| + i] == b[i];
  }

  lemma {:induction false} NoItemsWithout(lines: seq<Line>, unwanted: set<string>)
    ensures NoItems(Without(lines, unwanted)) <==> OnlyItems(lines, unwanted)
  {
    if lines != [] {
      var kept: seq<Line> := if Strip(lines[0]) in unwanted then [] else [lines[0]];
      NoItemsWithout(lines[1..], unwanted);
      NoItemsConcat(kept, Without(lines[1..], unwanted));
      OnlyItemsConcat([lines[0]], lines[1..], unwanted);
      assert lines == [lines[0]] + lines[1..];
    }
  }

  lemma NoItemsTrim(lines: seq<Line>)
    ensures NoItems(TrimBlank(lines)) <==> NoItems(lines)
  {
    var core := TrimBlank(lines);
    assert lines == core + lines[|core|..];
    NoItemsConcat(core, lines[|core|..]);
    BlanksHaveNoItems(lines[|core|..]);
  }

  lemma BlanksHaveNoItems(lines: seq<Line>)
    requires AllBlank(lines)
    ensures NoItems(lines)
  {
    forall i | 0 <= i < |lines| ensures !IsItem(lines[i]) {
      assert Blank(lines[i]);
    }
  }

  lemma NoItemsIff(core: seq<Line>, indent: Line, missing: seq<Line>)
    requires Blank(indent) && AllProper(missing)
    ensures NoItems(core + Items(indent, missing)) <==> NoItems(core) && missing == []
  {
    var items := Items(indent, missing);
    NoItemsConcat(core, items);
    ItemsFacts(indent, missing);
    if missing != [] {
      ItemFacts(indent, missing[0]);
      assert IsItem(items[0]);
    }
  }

  lemma OnlyEnabled(lines: seq<Line>, files: seq<ToolFile>, mode: Mode)
    ensures OnlyItems(EnabledBlock(lines, files), AsItems(Superseded(mode))) <==>
            HasLine(Seen(lines, files), ENABLE_ITEM) && OnlyItems(Block(lines), AsItems(Superseded(mode)))
  {
    var body, unwanted := Block(lines), AsItems(Superseded(mode));
    var item := Item(BlockIndent(body), GADGET_RUNCMD);
    ProperGadget();
    ItemFacts(BlockIndent(body), GADGET_RUNCMD);
    NotSuperseded(mode, GADGET_RUNCMD);
    OnlyItemsConcat(body, [item], unwanted);
    assert [item][0] == item;
    assert body + [] == body;
  }

  lemma BlockHasNoItemsIff(lines: seq<Line>, files: seq<ToolFile>, mode: Mode)
    requires Setup(lines, files, mode).Ok? && AllInstallable(files)
    ensures NoItems(Block(Setup(lines, files, mode).value)) <==>
            && HasLine(Seen(lines, files), ENABLE_ITEM)
            && HoldsItems(Seen(lines, files), Wanted(mode))
            && OnlyItems(Block(lines), AsItems(Superseded(mode)))
  {
    var unwanted := AsItems(Superseded(mode));
    var kept := Without(EnabledBlock(lines, files), unwanted);
    var missing := Missing(Seen(lines, files), Wanted(mode));
    BlockAfterRun(lines, files, mode);
    ModeListsAreSound(mode);
    MissingNoneIff(Seen(lines, files), Wanted(mode));
    MissingFits(Seen(lines, files), Wanted(mode));
    assert AllProper(missing);
    NoItemsIff(TrimBlank(kept), BlockIndent(TrimBlank(kept)), missing);
    NoItemsTrim(kept);
    NoItemsWithout(EnabledBlock(lines, files), unwanted);
    OnlyEnabled(lines, files, mode);
  }

  // Whether the key is there after a run.

  lemma KeyAfterCommand(lines: seq<Line>, command: Line)
    requires AppendRuncmd(lines, command).Ok? && Proper(command)
    ensures Find(AppendRuncmd(lines, command).value, RUNCMD).At? <==>
            Find(lines, RUNCMD).At? || !HasLine(lines, "- " + command)
  {
    KeysApart();
    if Find(lines, RUNCMD).At? {
      ItemFacts(IndentFor(lines, RUNCMD), command);
      KeyStays(lines, RUNCMD, "- " + command,
               [Item(IndentFor(lines, RUNCMD), command)], [Item(DEFAULT_ITEM_INDENT, command)]);
    } else if HasLine(lines, "- " + command) {
      FindTrim(lines, RUNCMD);
    } else {
      var item := Item(DEFAULT_ITEM_INDENT, command);
      NewBlockSplits(lines, item, command);
      var next := AppendBlock(lines, [RUNCMD + ":"] + [item]);
      SplitDescribe(next, RUNCMD, AppendBlock(lines, [RUNCMD + ":"]), [item], []);
    }
  }

  lemma {:induction false} KeyAfterCommands(lines: seq<Line>, commands: seq<Line>)
    requires AppendAll(lines, commands).Ok? && AllProper(commands) && Distinct(commands)
    ensures Find(AppendAll(lines, commands).value, RUNCMD).At? <==>
            Find(lines, RUNCMD).At? || Missing(lines, commands) != []
    decreases |commands|
  {
    if commands != [] {
      var next := AppendRuncmd(lines, commands[0]).value;
      assert Proper(commands[0]);
      KeyAfterCommand(lines, commands[0]);
      KeyAfterCommands(next, commands[1..]);
      AppendAllStep(lines, commands, next);
      SameMissing(lines, next, commands);
      MissingStep(lines, commands);
    }
  }

  lemma KeyAfterDrop(lines: seq<Line>, superseded: set<Line>)
    requires DropItems(lines, superseded).Ok?
    ensures Find(DropItems(lines, superseded).value, RUNCMD).At? <==> Find(lines, RUNCMD).At?
  {
    KeysApart();
    if Find(lines, RUNCMD).At? {
      var head, body, rest := SplitExists(lines, RUNCMD);
      var core, tail := CoreSplits(head, body, rest, AsItems(superseded));
      DropAt(lines, head, body, rest, superseded);
      SplitDescribe(head + core + tail, RUNCMD, head, core, tail);
    } else {
      FindTrim(lines, RUNCMD);
    }
  }

  lemma KeyAfterPin(lines: seq<Line>, wanted: seq<Line>, superseded: set<Line>)
    requires Pin(lines, wanted, superseded).Ok? && AllProper(wanted) && Distinct(wanted)
    requires forall i | 0 <= i < |wanted| :: wanted[i] !in superseded
    ensures Find(Pin(lines, wanted, superseded).value, RUNCMD).At? <==>
            Find(lines, RUNCMD).At? || Missing(lines, wanted) != []
  {
    var dropped := DropItems(lines, superseded).value;
    KeyAfterDrop(lines, superseded);
    KeyAfterCommands(dropped, wanted);
    forall i | 0 <= i < |wanted| ensures HasLine(dropped, "- " + wanted[i]) == HasLine(lines, "- " + wanted[i]) {
      NotAnItem(wanted[i], superseded);
      DropHides(lines, superseded, "- " + wanted[i]);
    }
    MissingFrom(dropped, lines, wanted);
  }

  /** After a run the key is there if and only if it was, or some command was not held. */
  lemma KeyAfterRunIff(lines: seq<Line>, files: seq<ToolFile>, mode: Mode)
    requires Setup(lines, files, mode).Ok? && AllInstallable(files)
    ensures Find(Setup(lines, files, mode).value, RUNCMD).At? <==>
            || Find(lines, RUNCMD).At?
            || !HasLine(Seen(lines, files), ENABLE_ITEM)
            || !HoldsItems(Seen(lines, files), Wanted(mode))
  {
    KeyAfterEnable(lines, files);
    KeyAfterPinMode(Enable(lines, files).value, mode);
    MissingWanted(lines, files, mode);
  }

  lemma KeyAfterEnable(lines: seq<Line>, files: seq<ToolFile>)
    requires Enable(lines, files).Ok? && AllInstallable(files)
    ensures Find(Enable(lines, files).value, RUNCMD).At? <==>
            Find(lines, RUNCMD).At? || !HasLine(Seen(lines, files), ENABLE_ITEM)
  {
    ProperGadget();
    FilesAdded(lines, files, "- ");
    FilesFollow(lines, lines, files);
    KeyAfterCommand(AddFiles(lines, files).value, GADGET_RUNCMD);
  }

  lemma KeyAfterPinMode(lines: seq<Line>, mode: Mode)
    requires PinMode(lines, mode).Ok?
    ensures Find(PinMode(lines, mode).value, RUNCMD).At? <==>
            Find(lines, RUNCMD).At? || Missing(lines, Wanted(mode)) != []
  {
    ModeListsAreSound(mode);
    forall i | 0 <= i < |Wanted(mode)| ensures Wanted(mode)[i] !in Superseded(mode) {
      WantedIsNotEnabling(mode, i);
    }
    KeyAfterPin(lines, Wanted(mode), Superseded(mode));
  }

  lemma MissingWanted(lines: seq<Line>, files: seq<ToolFile>, mode: Mode)
    requires Enable(lines, files).Ok? && AllInstallable(files)
    ensures Missing(Enable(lines, files).value, Wanted(mode)) == [] <==> HoldsItems(Seen(lines, files), Wanted(mode))
  {
    var enabled := Enable(lines, files).value;
    forall i | 0 <= i < |Wanted(mode)|
      ensures HasLine(enabled, "- " + Wanted(mode)[i]) == HasLine(Seen(lines, files), "- " + Wanted(mode)[i])
    {
      EnableLeaves(lines, files, "- " + Wanted(mode)[i]);
      SameItem(Wanted(mode)[i], GADGET_RUNCMD);
      WantedIsNotEnabling(mode, i);
    }
    MissingNoneIff(enabled, Wanted(mode));
  }

  /** When a run leaves a `runcmd` key with no item under it, which cloud-init rejects. It
      takes a document that has the key, that holds the enabling command and every command
      of the mode, and whose block has superseded items only, or none. Comments in the
      block change nothing. */
  lemma RunLeavesNoItemIff(lines: seq<Line>, files: seq<ToolFile>, mode: Mode)
    requires Setup(lines, files, mode).Ok? && AllInstallable(files)
    ensures var after := Setup(lines, files, mode).value;
            Find(after, RUNCMD).At? && NoItems(Block(after)) <==>
            && Find(lines, RUNCMD).At?
            && HasLine(Seen(lines, files), ENABLE_ITEM)
            && HoldsItems(Seen(lines, files), Wanted(mode))
            && OnlyItems(Block(lines), AsItems(Superseded(mode)))
  {
    BlockHasNoItemsIff(lines, files, mode);
    KeyAfterRunIff(lines, files, mode);
  }

  // ---------------------------------------------------------------------
  // Running again
  // ---------------------------------------------------------------------

  /** The guard for a whole run, on the document and the files as given. The document has
      a `runcmd` block and holds none of the mode's commands, no `write_files` key has to
      be made, and one of two things is so. Either the enabling command is held, nothing
      but empty lines follows the block, and the block without its superseded items ends
      in an empty line. Or the enabling command is not held, every file is new, and the
      document ends in an empty line. */
  predicate RunLeavesEmptyTail(lines: seq<Line>, files: seq<ToolFile>, mode: Mode) {
    && Find(lines, RUNCMD).At?
    && (NewFiles(lines, files) == [] || Find(lines, WRITE_FILES).At?)
    && NoneWanted(Seen(lines, files), mode)
    && if HasLine(Seen(lines, files), ENABLE_ITEM)
       then AllEmpty(AfterBlock(lines)) && UncoversEmpty(Block(lines), mode)
       else EndsEmpty(lines) && NewFiles(lines, files) == files
  }

  lemma WantedSeen(lines: seq<Line>, files: seq<ToolFile>, mode: Mode)
    requires Enable(lines, files).Ok? && AllInstallable(files)
    ensures NoneWanted(Enable(lines, files).value, mode) == NoneWanted(Seen(lines, files), mode)
  {
    ModeListsAreSound(mode);
    forall i | 0 <= i < |Wanted(mode)|
      ensures HasLine(Enable(lines, files).value, "- " + Wanted(mode)[i]) ==
              HasLine(Seen(lines, files), "- " + Wanted(mode)[i])
    {
      EnableLeaves(lines, files, "- " + Wanted(mode)[i]);
      SameItem(Wanted(mode)[i], GADGET_RUNCMD);
      WantedIsNotEnabling(mode, i);
    }
  }

  /** The enabling command held: it is taken as present, and the end is trimmed. */
  lemma EndsWhenHeld(withFiles: seq<Line>, head: seq<Line>, body: seq<Line>, rest: seq<Line>, mode: Mode)
    requires Splits(withFiles, RUNCMD, head, body, rest) && HasLine(withFiles, ENABLE_ITEM)
    ensures AppendRuncmd(withFiles, GADGET_RUNCMD).Ok?
    ensures var enabled := AppendRuncmd(withFiles, GADGET_RUNCMD).value;
            LeavesEmptyTail(enabled, mode) <==>
            NoneWanted(enabled, mode) && AllEmpty(rest) && UncoversEmpty(body, mode)
  {
    var enabled, left := TrimEmpty(withFiles), TrimEmpty(rest);
    SplitDescribe(withFiles, RUNCMD, head, body, rest);
    SplitTrim(withFiles, RUNCMD, head, body, rest);
    SplitDescribe(enabled, RUNCMD, head, body, left);
    BlockIs(enabled, head, body, left);
    AfterBlockIs(enabled, head, body, left);
    TrimIsPrefix(withFiles);
    TrimIsEmptyIff(rest);
  }

  lemma {:induction false} TrimIsEmptyIff(lines: seq<Line>)
    ensures TrimEmpty(lines) == [] <==> AllEmpty(lines)
  {
    if EndsEmpty(lines) {
      var init := lines[..|lines| - 1];
      TrimIsEmptyIff(init);
      assert lines == init + [""];
    }
  }

  /** The enabling command not held: it becomes the block's last line, and what follows
      the block stays. */
  lemma EndsWhenAdded(withFiles: seq<Line>, head: seq<Line>, body: seq<Line>, rest: seq<Line>, mode: Mode)
    requires Splits(withFiles, RUNCMD, head, body, rest) && !HasLine(withFiles, ENABLE_ITEM)
    ensures AppendRuncmd(withFiles, GADGET_RUNCMD).Ok?
    ensures var enabled := AppendRuncmd(withFiles, GADGET_RUNCMD).value;
            LeavesEmptyTail(enabled, mode) <==> NoneWanted(enabled, mode) && EndsEmpty(withFiles)
  {
    var item := Item(BlockIndent(body), GADGET_RUNCMD);
    var longer := body + [item];
    var enabled := head + longer + rest;
    ProperGadget();
    AppendOne(withFiles, head, body, rest, GADGET_RUNCMD);
    SplitDescribe(enabled, RUNCMD, head, longer, rest);
    BlockIs(enabled, head, longer, rest);
    AfterBlockIs(enabled, head, longer, rest);
    EnablingItemStays(body, BlockIndent(body), mode);
    RestEnds(withFiles, head, body, rest, enabled, longer);
  }

  lemma RestEnds(lines: seq<Line>, head: seq<Line>, body: seq<Line>, rest: seq<Line>, longerLines: seq<Line>,
                 longer: seq<Line>)
    requires Splits(lines, RUNCMD, head, body, rest) && longerLines == head + longer + rest
    ensures rest == [] ==> !EndsEmpty(lines)
    ensures rest != [] ==> EndsEmpty(longerLines) == EndsEmpty(lines)
  {
    assert KeyLine(head[|head| - 1], RUNCMD);
    assert head[|head| - 1] != "";
  }

  lemma EnablingItemStays(body: seq<Line>, indent: Line, mode: Mode)
    requires Blank(indent)
    ensures !UncoversEmpty(body + [Item(indent, GADGET_RUNCMD)], mode)
  {
    var item, unwanted := Item(indent, GADGET_RUNCMD), AsItems(Superseded(mode));
    ProperGadget();
    ItemFacts(indent, GADGET_RUNCMD);
    MarkerIsNoCommand(ToolFile("", "", ""), mode);
    WithoutConcat(body, [item], unwanted);
    assert [item][1..] == [];
    assert Without([item], unwanted) == [item];
    assert item != "";
  }

  /** A run leaves empty lines at the document's end if and only if the document met the
      guard. */
  lemma RunEndsIff(lines: seq<Line>, files: seq<ToolFile>, mode: Mode)
    requires Setup(lines, files, mode).Ok? && AllInstallable(files)
    ensures EndsEmpty(Setup(lines, files, mode).value) <==> RunLeavesEmptyTail(lines, files, mode)
  {
    var enabled := Enable(lines, files).value;
    PinEndsIff(enabled, mode);
    if Find(lines, RUNCMD).At? {
      GuardAt(lines, files, mode);
    } else {
      GuardElsewhere(lines, files, mode);
    }
  }

  lemma GuardAt(lines: seq<Line>, files: seq<ToolFile>, mode: Mode)
    requires Enable(lines, files).Ok? && AllInstallable(files) && Find(lines, RUNCMD).At?
    ensures LeavesEmptyTail(Enable(lines, files).value, mode) <==> RunLeavesEmptyTail(lines, files, mode)
  {
    var withFiles := AddFiles(lines, files).value;
    var head, body, rest := SplitExists(lines, RUNCMD);
    var newHead, newRest := FilesKeepBlock(lines, lines, files, head, body, rest);
    BlockIs(lines, head, body, rest);
    AfterBlockIs(lines, head, body, rest);
    FilesFollow(lines, lines, files);
    FilesEnd(lines, lines, files);
    WantedSeen(lines, files, mode);
    assert HasLine(withFiles, ENABLE_ITEM) == HasLine(Seen(lines, files), ENABLE_ITEM);
    if HasLine(withFiles, ENABLE_ITEM) {
      EndsWhenHeld(withFiles, newHead, body, newRest, mode);
    } else {
      EndsWhenAdded(withFiles, newHead, body, newRest, mode);
    }
  }

  lemma GuardElsewhere(lines: seq<Line>, files: seq<ToolFile>, mode: Mode)
    requires Enable(lines, files).Ok? && AllInstallable(files) && !Find(lines, RUNCMD).At?
    ensures !LeavesEmptyTail(Enable(lines, files).value, mode)
  {
    var withFiles := AddFiles(lines, files).value;
    FilesAdded(lines, files, "- ");
    if HasLine(withFiles, ENABLE_ITEM) {
      KeysApart();
      FindTrim(withFiles, RUNCMD);
    } else {
      NewKeyEndsFull(withFiles, mode);
    }
  }

  lemma NewKeyEndsFull(lines: seq<Line>, mode: Mode)
    requires Find(lines, RUNCMD).Absent? && !HasLine(lines, ENABLE_ITEM)
    ensures AppendRuncmd(lines, GADGET_RUNCMD).Ok?
    ensures !LeavesEmptyTail(AppendRuncmd(lines, GADGET_RUNCMD).value, mode)
  {
    var head, item := AppendBlock(lines, [RUNCMD + ":"]), Item(DEFAULT_ITEM_INDENT, GADGET_RUNCMD);
    var enabled := AppendBlock(lines, [RUNCMD + ":"] + [item]);
    ProperGadget();
    NewBlockSplits(lines, item, GADGET_RUNCMD);
    AppendNew(lines, GADGET_RUNCMD);
    BlockIs(enabled, head, [item], []);
    AfterBlockIs(enabled, head, [item], []);
    EnablingItemStays([], DEFAULT_ITEM_INDENT, mode);
    assert [] + [item] == [item];
  }

  /** A second run in the same mode changes nothing if and only if the document did not
      meet the guard. */
  lemma SetupIdempotentIff(lines: seq<Line>, files: seq<ToolFile>, mode: Mode)
    requires Setup(lines, files, mode).Ok? && AllInstallable(files)
    ensures Setup(Setup(lines, files, mode).value, files, mode) == Setup(lines, files, mode) <==>
            !RunLeavesEmptyTail(lines, files, mode)
  {
    SetupTwice(lines, files, mode);
    RunEndsIff(lines, files, mode);
    TrimIsPrefix(Setup(lines, files, mode).value);
  }
}
