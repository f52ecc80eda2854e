/** Running the tool again: on any document, and over whole histories of modes. */
module RepeatedRuns {
  import opened Outcomes
  import opened Text
  import opened SequenceBlock
  import opened DocumentLines
  import opened WriteFiles
  import opened AppendFacts
  import opened ModeCommands
  import opened ModePinning
  import opened UserDataRuns

  // ---------------------------------------------------------------------
  // The second run, on any document
  // ---------------------------------------------------------------------

  lemma {:induction false} CommandsKeepClean(lines: seq<Line>, commands: seq<Line>, superseded: set<Line>)
    requires AppendAll(lines, commands).Ok? && AllProper(commands)
    requires forall i | 0 <= i < |commands| :: commands[i] !in superseded
    requires Lacks(Block(lines), superseded)
    ensures Lacks(Block(AppendAll(lines, commands).value), superseded)
    decreases |commands|
  {
    if commands != [] {
      assert Proper(commands[0]);
      CommandKeepsClean(lines, commands[0], superseded);
      CommandsKeepClean(AppendRuncmd(lines, commands[0]).value, commands[1..], superseded);
    }
  }

  /** Dropping leaves none of the dropped commands in the block, no matter where else they
      stand, and touches nothing else a later run looks for. */
  lemma DropCleans(lines: seq<Line>, superseded: set<Line>, content: string)
    requires DropItems(lines, superseded).Ok? && "- " <= content
    ensures Lacks(Block(DropItems(lines, superseded).value), superseded)
    ensures HasLine(lines, content) && content !in AsItems(superseded) ==>
              HasLine(DropItems(lines, superseded).value, content)
    ensures Find(DropItems(lines, superseded).value, WRITE_FILES).Flow? == Find(lines, WRITE_FILES).Flow?
    ensures !Find(DropItems(lines, superseded).value, RUNCMD).Flow?
  {
    if Find(lines, RUNCMD).At? {
      var head, body, rest := SplitExists(lines, RUNCMD);
      DropCleansAt(lines, head, body, rest, superseded, content);
    } else {
      FindTrim(lines, RUNCMD);
      FindTrim(lines, WRITE_FILES);
      HasLineTrim(lines, content);
      assert !HasLine([], content);
    }
  }

  lemma DropCleansAt(lines: seq<Line>, head: seq<Line>, body: seq<Line>, rest: seq<Line>, superseded: set<Line>,
                     content: string)
    requires Splits(lines, RUNCMD, head, body, rest) && "- " <= content
    ensures DropItems(lines, superseded).Ok?
    ensures Lacks(Block(DropItems(lines, superseded).value), superseded)
    ensures HasLine(lines, content) && content !in AsItems(superseded) ==>
              HasLine(DropItems(lines, superseded).value, content)
    ensures Find(DropItems(lines, superseded).value, WRITE_FILES).Flow? == Find(lines, WRITE_FILES).Flow?
    ensures Find(DropItems(lines, superseded).value, RUNCMD).At?
  {
    var unwanted := AsItems(superseded);
    var core, tail := CoreSplits(head, body, rest, unwanted);
    DropAt(lines, head, body, rest, superseded);
    BlockIs(head + core + tail, head, core, tail);
    SplitDescribe(head + core + tail, RUNCMD, head, core, tail);
    CoreLacks(Without(body, unwanted), body, superseded);
    FindDropped(head, body, rest, unwanted);
    if content !in unwanted {
      HasLineDropped(head, body, rest, unwanted, content);
    }
  }

  lemma FindDropped(head: seq<Line>, body: seq<Line>, rest: seq<Line>, unwanted: set<string>)
    requires AllInBlock(body)
    ensures Find(head + Without(body, unwanted) + rest, WRITE_FILES).Flow? ==
            Find(head + body + rest, WRITE_FILES).Flow?
  {
    WithoutKeepsBlock(body, unwanted);
    BlockIsInert(body);
    BlockIsInert(Without(body, unwanted));
    FindAcrossInert(head, body, rest, WRITE_FILES);
    FindAcrossInert(head, Without(body, unwanted), rest, WRITE_FILES);
  }

  lemma BlockIsInert(body: seq<Line>)
    requires AllInBlock(body)
    ensures AllInert(body)
  {
  }

  lemma HasLineDropped(head: seq<Line>, body: seq<Line>, rest: seq<Line>, unwanted: set<string>, content: string)
    requires content !in unwanted
    ensures HasLine(head + Without(body, unwanted) + rest, content) <==> HasLine(head + body + rest, content)
  {
    var kept := Without(body, unwanted);
    HasLineWithout(body, unwanted, content);
    HasLineConcat(head + body, rest, content);
    HasLineConcat(head, body, content);
    HasLineConcat(head + kept, rest, content);
    HasLineConcat(head, kept, content);
  }

  lemma CoreLacks(kept: seq<Line>, body: seq<Line>, superseded: set<Line>)
    requires kept == Without(body, AsItems(superseded))
    ensures Lacks(TrimBlank(kept), superseded)
  {
    var core := TrimBlank(kept);
    assert kept == core + kept[|core|..];
    forall c | c in superseded ensures !HasLine(core, "- " + c) {
      HasLineWithout(body, AsItems(superseded), "- " + c);
      HasLineConcat(core, kept[|core|..], "- " + c);
    }
  }

  /** Nothing in the block is superseded, and everything wanted is somewhere. */
  ghost predicate Settled(lines: seq<Line>, mode: Mode) {
    !Find(lines, RUNCMD).Flow? && Lacks(Block(lines), Superseded(mode)) && HoldsItems(lines, Wanted(mode))
  }

  lemma PinSettles(lines: seq<Line>, mode: Mode)
    requires PinMode(lines, mode).Ok?
    ensures Settled(PinMode(lines, mode).value, mode)
  {
    var dropped := DropItems(lines, Superseded(mode)).value;
    var wanted := Wanted(mode);
    ModeListsAreSound(mode);
    DropCleans(lines, Superseded(mode), "- ");
    CommandsKeepClean(dropped, wanted, Superseded(mode));
    CommandsAdded(dropped, wanted, "- ");
    forall i | 0 <= i < |wanted| ensures HasLine(PinMode(lines, mode).value, "- " + wanted[i]) {
      CommandsAdded(dropped, wanted, "- " + wanted[i]);
    }
  }

  lemma PinStays(lines: seq<Line>, mode: Mode)
    requires Settled(lines, mode)
    ensures PinMode(lines, mode) == Ok(TrimEmpty(lines))
  {
    var wanted, superseded := Wanted(mode), Superseded(mode);
    ModeListsAreSound(mode);
    if Find(lines, RUNCMD).At? {
      var head, body, rest := SplitExists(lines, RUNCMD);
      BlockIs(lines, head, body, rest);
      DropAt(lines, head, body, rest, superseded);
      WithoutNothing(body, superseded);
      CommandsStay(lines, wanted);
    } else {
      assert !AllBlank(lines) by {
        if AllBlank(lines) {
          HasLineBlank(lines, "- " + wanted[0]);
        }
      }
      SettledTrim(lines, mode);
      CommandsStay(TrimEmpty(lines), wanted);
      TrimIsPrefix(lines);
    }
  }

  lemma SettledTrim(lines: seq<Line>, mode: Mode)
    requires Settled(lines, mode)
    ensures Settled(TrimEmpty(lines), mode)
  {
    FindTrim(lines, RUNCMD);
    if Find(lines, RUNCMD).At? {
      var head, body, rest := SplitExists(lines, RUNCMD);
      SplitTrim(lines, RUNCMD, head, body, rest);
      BlockIs(lines, head, body, rest);
      BlockIs(TrimEmpty(lines), head, body, TrimEmpty(rest));
    }
    forall i | 0 <= i < |Wanted(mode)| ensures HasLine(TrimEmpty(lines), "- " + Wanted(mode)[i]) {
      HasLineTrim(lines, "- " + Wanted(mode)[i]);
    }
  }

  /** Pinning the same mode again only drops the empty lines at the end. */
  lemma PinTwice(lines: seq<Line>, mode: Mode)
    requires PinMode(lines, mode).Ok?
    ensures PinMode(PinMode(lines, mode).value, mode) == Ok(TrimEmpty(PinMode(lines, mode).value))
  {
    PinSettles(lines, mode);
    PinStays(PinMode(lines, mode).value, mode);
  }

  /** The document holds none of the commands the mode wants. */
  predicate NoneWanted(lines: seq<Line>, mode: Mode) {
    forall i | 0 <= i < |Wanted(mode)| :: !HasLine(lines, "- " + Wanted(mode)[i])
  }

  /** The block without its superseded items ends in an empty line. */
  predicate UncoversEmpty(body: seq<Line>, mode: Mode) {
    EndsEmpty(Without(body, AsItems(Superseded(mode))))
  }

  /** The guard of the one case in which pinning leaves empty lines at the end: the
      document holds none of the commands the mode wants, and it ends in an empty line,
      or in a block that does once the superseded items are gone. */
  predicate LeavesEmptyTail(lines: seq<Line>, mode: Mode) {
    && Find(lines, RUNCMD).At?
    && NoneWanted(lines, mode)
    && if AfterBlock(lines) == [] then UncoversEmpty(Block(lines), mode) else EndsEmpty(lines)
  }

  lemma AppendedEnds(head: seq<Line>, core: seq<Line>, tail: seq<Line>, missing: seq<Line>, commands: seq<Line>)
    requires Splits(head + core + tail, RUNCMD, head, core, tail) && AllProper(missing)
    ensures EndsEmpty(Appended(head, core, tail, missing, commands)) <==> missing == commands && EndsEmpty(tail)
    ensures EndsEmpty(head + core + tail) <==> EndsEmpty(tail)
  {
    var front := core + Items(BlockIndent(core), missing);
    PinnedSplits(head, core, tail, missing);
    TrimIsPrefix(tail);
    assert KeyLine(head[|head| - 1], RUNCMD);
    assert front != [] ==> front[|front| - 1] != "";
  }

  /** When pinning leaves empty lines at the end of a document that has the key. */
  lemma PinEndsAt(lines: seq<Line>, mode: Mode)
    requires Find(lines, RUNCMD).At?
    ensures PinMode(lines, mode).Ok?
    ensures EndsEmpty(PinMode(lines, mode).value) <==> LeavesEmptyTail(lines, mode)
  {
    ModeListsAreSound(mode);
    var head, body, rest := SplitExists(lines, RUNCMD);
    BlockIs(lines, head, body, rest);
    AfterBlockIs(lines, head, body, rest);
    PinEndsAtParts(lines, head, body, rest, Wanted(mode), Superseded(mode));
    DropEnds(head, body, rest, Without(body, AsItems(Superseded(mode))));
  }

  lemma PinEndsAtParts(lines: seq<Line>, head: seq<Line>, body: seq<Line>, rest: seq<Line>,
                       wanted: seq<Line>, superseded: set<Line>)
    requires Splits(lines, RUNCMD, head, body, rest)
    requires AllProper(wanted) && Distinct(wanted) && forall i | 0 <= i < |wanted| :: wanted[i] !in superseded
    ensures Pin(lines, wanted, superseded).Ok?
    ensures EndsEmpty(Pin(lines, wanted, superseded).value) <==>
            && EndsEmpty(head + Without(body, AsItems(superseded)) + rest)
            && forall i | 0 <= i < |wanted| :: !HasLine(lines, "- " + wanted[i])
  {
    var core, tail := PinAt(lines, head, body, rest, wanted, superseded);
    var dropped := head + core + tail;
    var missing := Missing(dropped, wanted);
    MissingFits(dropped, wanted);
    assert AllProper(missing);
    AppendedEnds(head, core, tail, missing, wanted);
    forall i | 0 <= i < |wanted| ensures HasLine(dropped, "- " + wanted[i]) == HasLine(lines, "- " + wanted[i]) {
      NotAnItem(wanted[i], superseded);
      HasLineDropped(head, body, rest, AsItems(superseded), "- " + wanted[i]);
    }
  }

  lemma NotAnItem(command: Line, commands: set<Line>)
    requires command !in commands
    ensures "- " + command !in AsItems(commands)
  {
    forall c | c in commands ensures "- " + c != "- " + command {
      SameItem(c, command);
    }
  }

  lemma DropEnds(head: seq<Line>, body: seq<Line>, rest: seq<Line>, kept: seq<Line>)
    requires Splits(head + body + rest, RUNCMD, head, body, rest)
    ensures EndsEmpty(head + kept + rest) <==> if rest == [] then EndsEmpty(kept) else EndsEmpty(head + body + rest)
  {
    assert KeyLine(head[|head| - 1], RUNCMD);
    assert head[|head| - 1] != "";
  }

  lemma {:induction false} CommandsEnd(lines: seq<Line>, commands: seq<Line>)
    requires AppendAll(lines, commands).Ok? && AllProper(commands)
    requires !EndsEmpty(lines) || (AllBlank(lines) && commands != [])
    ensures !EndsEmpty(AppendAll(lines, commands).value)
    decreases |commands|
  {
    if commands != [] {
      assert Proper(commands[0]);
      CommandAdded(lines, commands[0], "- ");
      CommandsEnd(AppendRuncmd(lines, commands[0]).value, commands[1..]);
    }
  }

  /** When pinning leaves empty lines at the end of any document. */
  lemma PinEndsIff(lines: seq<Line>, mode: Mode)
    requires PinMode(lines, mode).Ok?
    ensures EndsEmpty(PinMode(lines, mode).value) <==> LeavesEmptyTail(lines, mode)
  {
    if Find(lines, RUNCMD).At? {
      PinEndsAt(lines, mode);
    } else {
      ModeListsAreSound(mode);
      TrimIsPrefix(lines);
      CommandsEnd(DropItems(lines, Superseded(mode)).value, Wanted(mode));
    }
  }

  /** Pinning twice gives the same document as pinning once if and only if the document
      did not meet the guard. */
  lemma PinIdempotentIff(lines: seq<Line>, mode: Mode)
    requires PinMode(lines, mode).Ok?
    ensures PinMode(PinMode(lines, mode).value, mode) == PinMode(lines, mode) <==> !LeavesEmptyTail(lines, mode)
  {
    PinTwice(lines, mode);
    PinEndsIff(lines, mode);
    TrimIsPrefix(PinMode(lines, mode).value);
  }

  lemma MarkerIsNoCommand(f: ToolFile, mode: Mode)
    ensures Marker(f) !in AsItems(Superseded(mode)) && "- " + GADGET_RUNCMD !in AsItems(Superseded(mode))
  {
    ModeListsAreSound(mode);
    forall c | c in Superseded(mode) ensures "- " + c != Marker(f) && "- " + c != "- " + GADGET_RUNCMD {
      MarkerIsNoMode(f, c);
      SameItem(c, GADGET_RUNCMD);
    }
  }

  lemma FirstLetters()
    ensures forall c | c in AllModeCommands() :: c != "" && c[0] != 'p'
  {
    Lengths();
    assert forall i | 0 <= i < 5 :: Wanted(Client)[i][0] in {'s', 'n'} && Wanted(Shared)[i][0] in {'s', 'n'};
    assert Wanted(Auto)[0][0] == 's';
  }

  lemma PinKeepsItem(lines: seq<Line>, mode: Mode, content: string)
    requires PinMode(lines, mode).Ok? && "- " <= content
    requires HasLine(lines, content) && content !in AsItems(Superseded(mode))
    ensures HasLine(PinMode(lines, mode).value, content)
  {
    ModeListsAreSound(mode);
    DropCleans(lines, Superseded(mode), content);
    CommandsAdded(DropItems(lines, Superseded(mode)).value, Wanted(mode), content);
  }

  /** Pinning undoes nothing of the shared part. */
  lemma PinKeepsEnabled(lines: seq<Line>, files: seq<ToolFile>, mode: Mode)
    requires Enabled(lines, files) && PinMode(lines, mode).Ok?
    ensures Enabled(PinMode(lines, mode).value, files)
  {
    var pinned := PinMode(lines, mode).value;
    ModeListsAreSound(mode);
    DropCleans(lines, Superseded(mode), "- ");
    CommandsAdded(DropItems(lines, Superseded(mode)).value, Wanted(mode), "- ");
    forall i | 0 <= i < |files| ensures HasLine(pinned, Marker(files[i])) {
      MarkerIsNoCommand(files[i], mode);
      PinKeepsItem(lines, mode, Marker(files[i]));
    }
    MarkerIsNoCommand(ToolFile("", "", ""), mode);
    assert HasLine(lines, "- " + [GADGET_RUNCMD][0]);
    PinKeepsItem(lines, mode, "- " + GADGET_RUNCMD);
  }

  /** On any document the tool accepts, a second run in the same mode is accepted and
      only drops the empty lines at the end, so a third changes nothing at all. */
  lemma SetupTwice(lines: seq<Line>, files: seq<ToolFile>, mode: Mode)
    requires Setup(lines, files, mode).Ok? && AllInstallable(files)
    ensures Setup(Setup(lines, files, mode).value, files, mode) == Ok(TrimEmpty(Setup(lines, files, mode).value))
    ensures Setup(TrimEmpty(Setup(lines, files, mode).value), files, mode) ==
            Ok(TrimEmpty(Setup(lines, files, mode).value))
  {
    var enabled := Enable(lines, files).value;
    var done := Setup(lines, files, mode).value;
    EnableEnables(lines, files);
    PinKeepsEnabled(enabled, files, mode);
    PinSettles(enabled, mode);
    EnableStays(done, files);
    SettledTrim(done, mode);
    PinStays(TrimEmpty(done), mode);
    TrimIsPrefix(done);
    EnabledTrim(done, files);
    EnableStays(TrimEmpty(done), files);
  }

  lemma EnabledTrim(lines: seq<Line>, files: seq<ToolFile>)
    requires Enabled(lines, files)
    ensures Enabled(TrimEmpty(lines), files)
  {
    FindTrim(lines, RUNCMD);
    FindTrim(lines, WRITE_FILES);
    forall i | 0 <= i < |files| ensures HasLine(TrimEmpty(lines), Marker(files[i])) {
      HasLineTrim(lines, Marker(files[i]));
    }
    assert HasLine(lines, "- " + [GADGET_RUNCMD][0]);
    HasLineTrim(lines, "- " + GADGET_RUNCMD);
  }

  // ---------------------------------------------------------------------
  // Histories of modes
  // ---------------------------------------------------------------------

  /** No line of the document or of the installed files is a mode's command. */
  ghost predicate ModeFree(lines: seq<Line>, files: seq<ToolFile>) {
    && Lacks(lines, AsSet(AllModeCommands()))
    && forall i | 0 <= i < |files| :: Lacks(SplitLines(files[i].content), AsSet(AllModeCommands()))
  }

  lemma EnableIsModeFree(lines: seq<Line>, files: seq<ToolFile>)
    requires Enable(lines, files).Ok? && AllInstallable(files) && ModeFree(lines, files)
    ensures Lacks(Enable(lines, files).value, AsSet(AllModeCommands()))
  {
    forall c | c in AsSet(AllModeCommands()) ensures !HasLine(Enable(lines, files).value, "- " + c) {
      EnableBringsNoMode(lines, files, c);
    }
  }

  lemma MarkerIsNoMode(f: ToolFile, command: Line)
    requires command in AllModeCommands()
    ensures "- " + command != Marker(f) && command != GADGET_RUNCMD
  {
    ModeListsAreSound(Client);
    FirstLetters();
    NoMarker(f, command);
  }

  lemma NoMarker(f: ToolFile, command: Line)
    requires command != "" && command[0] != 'p'
    ensures "- " + command != Marker(f)
  {
    assert ("- " + command)[2] == command[0] && Marker(f)[2] == 'p';
  }

  lemma EnableBringsNoMode(lines: seq<Line>, files: seq<ToolFile>, command: Line)
    requires Enable(lines, files).Ok? && AllInstallable(files) && ModeFree(lines, files)
    requires command in AsSet(AllModeCommands())
    ensures !HasLine(Enable(lines, files).value, "- " + command)
  {
    var item := "- " + command;
    var withFiles := AddFiles(lines, files).value;
    assert !HasLine(withFiles, item) by {
      FilesAdded(lines, files, item);
      forall i | 0 <= i < |files| ensures item != Marker(files[i]) && !HasLine(SplitLines(files[i].content), item) {
        MarkerIsNoMode(files[i], command);
      }
    }
    MarkerIsNoMode(ToolFile("", "", ""), command);
    SameItem(command, GADGET_RUNCMD);
    ProperGadget();
    CommandAdded(withFiles, GADGET_RUNCMD, item);
  }

  lemma ModeSets(mode: Mode, lines: seq<Line>)
    requires Lacks(lines, AsSet(AllModeCommands()))
    ensures Lacks(lines, AsSet(Wanted(mode))) && Lacks(lines, Superseded(mode))
  {
    assert forall c | c in Wanted(mode) :: c in AllModeCommands();
  }

  /** A document without mode commands takes any mode's commands in one place: at the end
      of the `runcmd` block, which is made at the document's end when there is none. */
  lemma FirstPin(lines: seq<Line>) returns (head: seq<Line>, body: seq<Line>, rest: seq<Line>)
    requires !Find(lines, RUNCMD).Flow? && Lacks(lines, AsSet(AllModeCommands()))
    ensures Splits(head + body + rest, RUNCMD, head, body, rest)
    ensures EndsEmpty(rest) ==> EndsEmpty(lines)
    ensures Lacks(head + body + rest, AsSet(AllModeCommands()))
    ensures forall mode :: PinMode(lines, mode) == Ok(Pinned(head, body, rest, Wanted(mode)))
  {
    if Find(lines, RUNCMD).At? {
      head, body, rest := SplitExists(lines, RUNCMD);
      forall mode ensures PinMode(lines, mode) == Ok(Pinned(head, body, rest, Wanted(mode))) {
        FirstPinAt(lines, head, body, rest, mode);
      }
    } else {
      var dropped := if AllBlank(lines) then lines else TrimEmpty(lines);
      DroppedIsFree(lines, dropped);
      head, body, rest := AppendBlock(dropped, [RUNCMD + ":"]), [], [];
      KeysApart();
      NewKeySplits(dropped, RUNCMD);
      assert head + [] + [] == head;
      forall c | c in AsSet(AllModeCommands()) ensures !HasLine(head, "- " + c) {
        HasLineAppendBlock(dropped, [RUNCMD + ":"], "- " + c);
        KeysAreNoItems("- " + c);
      }
      forall mode ensures PinMode(lines, mode) == Ok(Pinned(head, body, rest, Wanted(mode))) {
        FirstPinNew(lines, dropped, mode);
      }
    }
  }

  lemma DroppedIsFree(lines: seq<Line>, dropped: seq<Line>)
    requires Find(lines, RUNCMD).Absent? && Lacks(lines, AsSet(AllModeCommands()))
    requires dropped == if AllBlank(lines) then lines else TrimEmpty(lines)
    ensures Find(dropped, RUNCMD).Absent? && Lacks(dropped, AsSet(AllModeCommands()))
  {
    FindTrim(lines, RUNCMD);
    forall c | c in AsSet(AllModeCommands()) ensures !HasLine(dropped, "- " + c) {
      HasLineTrim(lines, "- " + c);
    }
  }

  lemma FirstPinAt(lines: seq<Line>, head: seq<Line>, body: seq<Line>, rest: seq<Line>, mode: Mode)
    requires Splits(lines, RUNCMD, head, body, rest)
    requires Lacks(lines, AsSet(AllModeCommands()))
    ensures PinMode(lines, mode) == Ok(Pinned(head, body, rest, Wanted(mode)))
  {
    var wanted, superseded := Wanted(mode), Superseded(mode);
    ModeListsAreSound(mode);
    ModeSets(mode, lines);
    LacksPart(head, body, rest, superseded);
    WithoutNothing(body, superseded);
    var core, tail := PinAt(lines, head, body, rest, wanted, superseded);
    assert core == body && tail == rest;
    NoneHeld(lines, wanted);
  }

  lemma NoneHeld(lines: seq<Line>, commands: seq<Line>)
    requires Lacks(lines, AsSet(commands))
    ensures Missing(lines, commands) == commands
  {
    MissingFits(lines, commands);
    assert forall i | 0 <= i < |commands| :: commands[i] in AsSet(commands);
  }

  lemma FirstPinNew(lines: seq<Line>, dropped: seq<Line>, mode: Mode)
    requires Find(lines, RUNCMD).Absent? && dropped == if AllBlank(lines) then lines else TrimEmpty(lines)
    requires Find(dropped, RUNCMD).Absent? && Lacks(dropped, AsSet(AllModeCommands()))
    ensures PinMode(lines, mode) == Ok(Pinned(AppendBlock(dropped, [RUNCMD + ":"]), [], [], Wanted(mode)))
  {
    ModeListsAreSound(mode);
    ModeSets(mode, dropped);
    AppendAllNew(dropped, Wanted(mode));
  }

  lemma AppendAllNew(lines: seq<Line>, wanted: seq<Line>)
    requires Find(lines, RUNCMD).Absent? && Lacks(lines, AsSet(wanted))
    requires wanted != [] && AllProper(wanted) && Distinct(wanted)
    ensures AppendAll(lines, wanted) == Ok(Pinned(AppendBlock(lines, [RUNCMD + ":"]), [], [], wanted))
  {
    var head := AppendBlock(lines, [RUNCMD + ":"]);
    var command, others := wanted[0], wanted[1..];
    assert command in AsSet(wanted) && Proper(command);
    var item := Item(DEFAULT_ITEM_INDENT, command);
    NewBlockSplits(lines, item, command);
    var next := head + [item] + [];
    AppendNew(lines, command);
    AppendAllStep(lines, wanted, next);
    OthersStayNew(lines, wanted, next);
    AppendOthers(next, head, item, command, others);
    assert wanted == [command] + others;
  }

  lemma AppendOthers(next: seq<Line>, head: seq<Line>, item: Line, command: Line, others: seq<Line>)
    requires Splits(next, RUNCMD, head, [item], []) && item == Item(DEFAULT_ITEM_INDENT, command)
    requires Proper(command) && AllProper(others) && Distinct(others) && Lacks(next, AsSet(others))
    ensures AppendAll(next, others) == Ok(Pinned(head, [], [], [command] + others))
  {
    AppendAllShape(next, head, [item], [], others);
    NoneHeld(next, others);
    ItemFacts(DEFAULT_ITEM_INDENT, command);
    assert [] + [item] == [item];
    AppendedCons(head, [], [], command, others, others);
  }

  lemma OthersStayNew(lines: seq<Line>, wanted: seq<Line>, next: seq<Line>)
    requires Lacks(lines, AsSet(wanted)) && wanted != [] && AllProper(wanted) && Distinct(wanted)
    requires AppendRuncmd(lines, wanted[0]) == Ok(next)
    ensures Lacks(next, AsSet(wanted[1..]))
  {
    assert Proper(wanted[0]);
    forall c | c in AsSet(wanted[1..]) ensures !HasLine(next, "- " + c) {
      CommandAdded(lines, wanted[0], "- " + c);
      SameItem(c, wanted[0]);
      assert c in AsSet(wanted);
    }
  }

  lemma AppendNew(lines: seq<Line>, command: Line)
    requires Find(lines, RUNCMD).Absent? && !HasLine(lines, "- " + command)
    ensures AppendRuncmd(lines, command) ==
            Ok(AppendBlock(lines, [RUNCMD + ":"] + [Item(DEFAULT_ITEM_INDENT, command)]))
  {
  }

  /** A run in another mode, on a document an earlier run left, replaces the earlier mode. */
  lemma NextRun(head: seq<Line>, body: seq<Line>, rest: seq<Line>, files: seq<ToolFile>, before: Mode, after: Mode)
    requires Splits(head + body + rest, RUNCMD, head, body, rest) && !EndsEmpty(rest)
    requires Lacks(head + body + rest, AsSet(AllModeCommands()))
    requires Enabled(Pinned(head, body, rest, Wanted(before)), files)
    ensures Setup(Pinned(head, body, rest, Wanted(before)), files, after) == Ok(Pinned(head, body, rest, Wanted(after)))
  {
    var held := Pinned(head, body, rest, Wanted(before));
    ModeListsAreSound(before);
    ModeListsAreSound(after);
    SurvivorsLead(before, after);
    EnableStays(held, files);
    PinnedSplits(head, body, rest, Wanted(before));
    SplitTrim(held, RUNCMD, head, body + Items(BlockIndent(body), Wanted(before)), rest);
    TrimIsPrefix(rest);
    ModeSets(after, head + body + rest);
    Repin(head, body, rest, Wanted(before), Wanted(after), Superseded(after));
  }

  function RunAll(lines: seq<Line>, files: seq<ToolFile>, modes: seq<Mode>): Result<seq<Line>> {
    if modes == [] then
      Ok(lines)
    else
      var before :- RunAll(lines, files, modes[..|modes| - 1]);
      Setup(before, files, modes[|modes| - 1])
  }

  /** The last mode wins: on a document without mode commands or empty lines at its end,
      any history of runs leaves what one run in the last mode leaves. */
  lemma {:induction false} LastModeWins(lines: seq<Line>, files: seq<ToolFile>, modes: seq<Mode>, mode: Mode)
    requires AllInstallable(files) && ModeFree(lines, files)
    requires !EndsEmpty(lines) || AllBlank(lines)
    ensures RunAll(lines, files, modes + [mode]) == Setup(lines, files, mode)
    decreases |modes|
  {
    var all := modes + [mode];
    assert all[..|all| - 1] == modes;
    if modes != [] {
      var init, last := modes[..|modes| - 1], modes[|modes| - 1];
      assert modes == init + [last];
      LastModeWins(lines, files, init, last);
      if Enable(lines, files).Ok? {
        OneMoreRun(lines, files, last, mode);
      }
    }
  }

  lemma OneMoreRun(lines: seq<Line>, files: seq<ToolFile>, before: Mode, after: Mode)
    requires AllInstallable(files) && ModeFree(lines, files)
    requires !EndsEmpty(lines) || AllBlank(lines)
    requires Enable(lines, files).Ok?
    ensures Setup(lines, files, before).Ok?
    ensures Setup(Setup(lines, files, before).value, files, after) == Setup(lines, files, after)
  {
    var enabled := Enable(lines, files).value;
    EnableEnables(lines, files);
    EnableEnds(lines, files);
    EnableIsModeFree(lines, files);
    var head, body, rest := FirstPin(enabled);
    PinKeepsEnabled(enabled, files, before);
    assert PinMode(enabled, before) == Ok(Pinned(head, body, rest, Wanted(before)));
    NextRun(head, body, rest, files, before, after);
  }

  /** On a document without mode commands every two modes that ask for different numbers of
      commands leave different documents. */
  lemma PinsDiffer(lines: seq<Line>, files: seq<ToolFile>, a: Mode, b: Mode)
    requires AllInstallable(files) && ModeFree(lines, files) && Enable(lines, files).Ok?
    requires |Wanted(a)| != |Wanted(b)|
    ensures Setup(lines, files, a) != Setup(lines, files, b)
  {
    var enabled := Enable(lines, files).value;
    EnableEnables(lines, files);
    EnableIsModeFree(lines, files);
    ModeListsAreSound(a);
    ModeListsAreSound(b);
    var head, body, rest := FirstPin(enabled);
    ItemsFacts(BlockIndent(body), Wanted(a));
    ItemsFacts(BlockIndent(body), Wanted(b));
    assert PinMode(enabled, a) == Ok(Pinned(head, body, rest, Wanted(a)));
    assert PinMode(enabled, b) == Ok(Pinned(head, body, rest, Wanted(b)));
  }

  // ---------------------------------------------------------------------
  // What a run accepts
  // ---------------------------------------------------------------------

  lemma {:induction false} FilesAccepted(lines: seq<Line>, files: seq<ToolFile>)
    requires AllInstallable(files) && (files == [] || !Find(lines, WRITE_FILES).Flow?)
    ensures AddFiles(lines, files).Ok?
    decreases |files|
  {
    if files != [] {
      FileAdded(lines, files[0], "- ");
      FilesAccepted(AppendWriteFile(lines, files[0]).value, files[1..]);
    }
  }

  /** A run refuses a document if and only if a key it edits is in flow style. */
  lemma SetupAcceptsIff(lines: seq<Line>, files: seq<ToolFile>, mode: Mode)
    requires AllInstallable(files)
    ensures Setup(lines, files, mode).Ok? <==> Editable(lines, files)
  {
    ProperGadget();
    if Editable(lines, files) {
      FilesAccepted(lines, files);
    }
    if AddFiles(lines, files).Ok? {
      FilesAdded(lines, files, "- ");
      var withFiles := AddFiles(lines, files).value;
      if !Find(lines, RUNCMD).Flow? {
        CommandAdded(withFiles, GADGET_RUNCMD, "- ");
        AllAccepted(AppendRuncmd(withFiles, GADGET_RUNCMD).value, mode);
      }
    }
  }

  lemma AllAccepted(lines: seq<Line>, mode: Mode)
    requires !Find(lines, RUNCMD).Flow?
    ensures PinMode(lines, mode).Ok?
  {
    ModeListsAreSound(mode);
    DropCleans(lines, Superseded(mode), "- ");
    CommandsAccepted(DropItems(lines, Superseded(mode)).value, Wanted(mode));
  }

  lemma {:induction false} CommandsAccepted(lines: seq<Line>, commands: seq<Line>)
    requires !Find(lines, RUNCMD).Flow? && AllProper(commands)
    ensures AppendAll(lines, commands).Ok?
    decreases |commands|
  {
    if commands != [] {
      assert Proper(commands[0]);
      CommandAdded(lines, commands[0], "- ");
      CommandsAccepted(AppendRuncmd(lines, commands[0]).value, commands[1..]);
    }
  }
}
