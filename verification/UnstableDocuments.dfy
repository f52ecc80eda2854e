/** Documents on which the tool does not do what it is meant to: running it again changes
    something, or a run leaves a `runcmd` key without an item. */
module UnstableDocuments {
  import opened Outcomes
  import opened Text
  import opened SequenceBlock
  import opened DocumentLines
  import opened WriteFiles
  import opened AppendFacts
  import opened ModeCommands
  import opened ModePinning
  import opened UserDataRuns
  import opened RepeatedRuns
  import opened RunOutcome
  import opened UserData

  // ---------------------------------------------------------------------
  // A block that ends in a superseded command behind an empty line
  // ---------------------------------------------------------------------

  function EnablingLine(): Line {
    Item("  ", GADGET_RUNCMD)
  }

  function AutoLine(): Line {
    Item("  ", StartWatcher())
  }

  function SpacedBody(): seq<Line> {
    [EnablingLine(), ""] + [AutoLine()]
  }

  lemma StartIsSuperseded()
    ensures StartWatcher() in Superseded(Client)
    ensures GADGET_RUNCMD !in Superseded(Client)
  {
    Lengths();
    ModeListsAreSound(Client);
    assert Wanted(Auto)[0] == StartWatcher();
    assert AllModeCommands()[10] == StartWatcher();
  }

  lemma LineFacts()
    ensures Strip(EnablingLine()) == ENABLE_ITEM && Strip(AutoLine()) == "- " + StartWatcher()
    ensures InBlock(EnablingLine()) && InBlock(AutoLine()) && InBlock("") && !Blank(AutoLine())
    ensures ENABLE_ITEM !in AsItems(Superseded(Client)) && "- " + StartWatcher() in AsItems(Superseded(Client))
  {
    ProperGadget();
    ProperWatcher();
    ItemFacts("  ", GADGET_RUNCMD);
    ItemFacts("  ", StartWatcher());
    StartIsSuperseded();
    NotAnItem(GADGET_RUNCMD, Superseded(Client));
  }

  lemma DropLast(first: Line, last: Line, unwanted: set<string>)
    requires Strip(first) !in unwanted && "" !in unwanted && Strip(last) in unwanted
    ensures Without([first, ""] + [last], unwanted) == [first, ""]
  {
    assert Strip("") == "";
    assert [first, ""] == [first] + [""];
    WithoutConcat([first, ""], [last], unwanted);
    WithoutConcat([first], [""], unwanted);
    assert [first][1..] == [] && [""][1..] == [] && [last][1..] == [];
  }

  lemma SpacedBodyUncovers()
    ensures AllInBlock(SpacedBody()) && SpacedBody() != [] && !Blank(SpacedBody()[|SpacedBody()| - 1])
    ensures UncoversEmpty(SpacedBody(), Client) && HasLine(SpacedBody(), ENABLE_ITEM)
  {
    LineFacts();
    NoEmptyItem(Superseded(Client));
    DropLast(EnablingLine(), AutoLine(), AsItems(Superseded(Client)));
    assert Strip(SpacedBody()[0]) == ENABLE_ITEM;
  }

  lemma NoEmptyItem(commands: set<Line>)
    ensures "" !in AsItems(commands)
  {
    forall c | c in commands ensures "- " + c != "" {
      assert |"- " + c| >= 2;
    }
  }

  lemma SpacedBodyLacks(command: Line)
    requires command in Wanted(Client)
    ensures !HasLine(SpacedBody(), "- " + command)
  {
    LineFacts();
    NotTheseLines(command);
    ThreeLines(EnablingLine(), "", AutoLine(), "- " + command);
  }

  lemma NotTheseLines(command: Line)
    requires command in Wanted(Client)
    ensures "- " + command != ENABLE_ITEM && "- " + command != "- " + StartWatcher() && "- " + command != Strip("")
  {
    NotSuperseded(Client, GADGET_RUNCMD);
    StartIsSuperseded();
    SameItem(GADGET_RUNCMD, command);
    SameItem(StartWatcher(), command);
  }

  lemma ThreeLines(a: Line, b: Line, c: Line, content: string)
    requires Strip(a) != content && Strip(b) != content && Strip(c) != content
    ensures !HasLine([a, b] + [c], content)
  {
  }

  // ---------------------------------------------------------------------
  // Pinning alone
  // ---------------------------------------------------------------------

  /** A document of nothing but that block. */
  function SpacedOut(): seq<Line> {
    [HEADER] + [RUNCMD + ":"] + SpacedBody()
  }

  lemma HeaderIsNoItem(content: string)
    requires "- " <= content
    ensures !HasLine([HEADER], content)
  {
    assert Solid(HEADER) && HEADER[0] == '#' && content[0] == '-';
    HasOne(HEADER, content);
  }

  lemma NoKeyInHeader(key: string)
    requires PlainKey(key) && key[0] != '#'
    ensures Find([HEADER], key).Absent?
  {
    assert (key + ":")[0] == key[0] && HEADER[0] == '#';
    FindOne(HEADER, key);
  }

  lemma FindOwn(key: Line)
    ensures Find([key + ":"], key) == At(0)
  {
    assert (key + ":")[|key| + 1..] == "";
  }

  lemma FindPast(line: Line, tail: seq<Line>, key: string)
    requires !KeyLine(line, key)
    ensures Find([line] + tail, key) == Shift(1, Find(tail, key))
  {
    assert ([line] + tail)[1..] == tail;
  }

  /** It has no empty line at its end, and pinning Client twice still differs from
      pinning it once: the first pinning uncovers the empty line, the second drops it. */
  lemma SpacedOutIsNotStable()
    ensures !EndsEmpty(SpacedOut())
    ensures PinMode(SpacedOut(), Client).Ok?
    ensures PinMode(PinMode(SpacedOut(), Client).value, Client) != PinMode(SpacedOut(), Client)
  {
    var lines, head, body := SpacedOut(), [HEADER] + [RUNCMD + ":"], SpacedBody();
    SpacedSplits(head, body);
    assert lines == head + body + [];
    SpacedMeetsGuard(lines, head, body);
    PinEndsAt(lines, Client);
    PinIdempotentIff(lines, Client);
  }

  lemma SpacedSplits(head: seq<Line>, body: seq<Line>)
    requires head == [HEADER] + [RUNCMD + ":"] && body == SpacedBody()
    ensures Splits(head + body + [], RUNCMD, head, body, []) && !EndsEmpty(head + body)
  {
    KeysApart();
    NoKeyInHeader(RUNCMD);
    FindOwn(RUNCMD);
    FindConcat([HEADER], [RUNCMD + ":"], RUNCMD);
    SpacedBodyUncovers();
  }

  lemma SpacedMeetsGuard(lines: seq<Line>, head: seq<Line>, body: seq<Line>)
    requires head == [HEADER] + [RUNCMD + ":"] && body == SpacedBody()
    requires Splits(lines, RUNCMD, head, body, [])
    ensures LeavesEmptyTail(lines, Client)
  {
    SplitDescribe(lines, RUNCMD, head, body, []);
    BlockIs(lines, head, body, []);
    AfterBlockIs(lines, head, body, []);
    SpacedBodyUncovers();
    assert lines == head + body;
    forall i | 0 <= i < |Wanted(Client)| ensures !HasLine(lines, "- " + Wanted(Client)[i]) {
      SpacedBodyLacks(Wanted(Client)[i]);
      HeaderIsNoItem("- " + Wanted(Client)[i]);
      KeysAreNoItems("- " + Wanted(Client)[i]);
      HasLineConcat([HEADER], [RUNCMD + ":"], "- " + Wanted(Client)[i]);
      HasLineConcat(head, body, "- " + Wanted(Client)[i]);
    }
  }

  // ---------------------------------------------------------------------
  // A whole run
  // ---------------------------------------------------------------------

  function Paths(files: seq<ToolFile>): seq<Line> {
    if files == [] then [] else ["path: " + files[0].path] + Paths(files[1..])
  }

  function PreparedFront(files: seq<ToolFile>): seq<Line> {
    [HEADER] + ([WRITE_FILES + ":"] + Items("  ", Paths(files)))
  }

  /** A document that names the files' paths already, with that block behind them. */
  function Prepared(files: seq<ToolFile>): seq<Line> {
    PreparedFront(files) + [RUNCMD + ":"] + SpacedBody()
  }

  lemma {:induction false} PathsAreProper(files: seq<ToolFile>)
    requires AllInstallable(files)
    ensures AllProper(Paths(files)) && |Paths(files)| == |files|
    ensures forall i | 0 <= i < |files| :: Paths(files)[i] == "path: " + files[i].path
  {
    if files != [] {
      var others := files[1..];
      PathsAreProper(others);
      assert Installable(files[0]);
      PathIsProper(files[0].path);
      assert Paths(files)[1..] == Paths(others);
      forall i | 0 < i < |files| ensures Paths(files)[i] == "path: " + files[i].path {
        assert Paths(files)[i] == Paths(others)[i - 1] && files[i] == others[i - 1];
      }
    }
  }

  lemma PathIsProper(path: Line)
    requires Proper(path)
    ensures Proper("path: " + path)
  {
  }

  lemma PathMarks(f: ToolFile)
    ensures "- " + ("path: " + f.path) == Marker(f)
  {
  }

  lemma FrontHasLine(files: seq<ToolFile>, content: string)
    requires AllInstallable(files) && "- " <= content
    ensures HasLine(PreparedFront(files), content) <==> exists i | 0 <= i < |files| :: content == Marker(files[i])
  {
    var items := Items("  ", Paths(files));
    PathsAreProper(files);
    KeysAreNoItems(content);
    HeaderIsNoItem(content);
    HasLineConcat([HEADER], [WRITE_FILES + ":"] + items, content);
    HasLineConcat([WRITE_FILES + ":"], items, content);
    HasLineItems("  ", Paths(files), content);
    forall i | 0 <= i < |files| ensures "- " + Paths(files)[i] == Marker(files[i]) {
      PathMarks(files[i]);
    }
  }

  lemma FrontLacks(items: seq<Line>)
    requires AllInert(items)
    ensures Find([HEADER] + ([WRITE_FILES + ":"] + items), RUNCMD).Absent?
  {
    KeysApart();
    InertHasNoKey(items, RUNCMD);
    NoKeyInHeader(RUNCMD);
    OneKey(WRITE_FILES + ":", WRITE_FILES, RUNCMD);
    FindPast(WRITE_FILES + ":", items, RUNCMD);
    FindConcat([HEADER], [WRITE_FILES + ":"] + items, RUNCMD);
  }

  lemma FrontHas(items: seq<Line>)
    ensures Find([HEADER] + ([WRITE_FILES + ":"] + items), WRITE_FILES).At?
  {
    KeysApart();
    NoKeyInHeader(WRITE_FILES);
    FindOwn(WRITE_FILES);
    FindConcat([WRITE_FILES + ":"], items, WRITE_FILES);
    FindConcat([HEADER], [WRITE_FILES + ":"] + items, WRITE_FILES);
  }

  lemma FrontFinds(files: seq<ToolFile>)
    requires AllInstallable(files)
    ensures Find(PreparedFront(files), RUNCMD).Absent? && Find(PreparedFront(files), WRITE_FILES).At?
  {
    PathsAreProper(files);
    ItemsFacts("  ", Paths(files));
    FrontLacks(Items("  ", Paths(files)));
    FrontHas(Items("  ", Paths(files)));
  }

  lemma KeyBehind(front: seq<Line>, body: seq<Line>)
    requires Find(front, RUNCMD).Absent? && Find(front, WRITE_FILES).At?
    ensures Find(front + [RUNCMD + ":"], RUNCMD) == At(|front|)
    ensures Find(front + [RUNCMD + ":"] + body, WRITE_FILES).At?
  {
    FindOwn(RUNCMD);
    FindConcat(front, [RUNCMD + ":"], RUNCMD);
    FindConcat(front, [RUNCMD + ":"], WRITE_FILES);
    FindConcat(front + [RUNCMD + ":"], body, WRITE_FILES);
  }

  lemma PreparedSplits(files: seq<ToolFile>)
    requires AllInstallable(files)
    ensures Splits(Prepared(files), RUNCMD, PreparedFront(files) + [RUNCMD + ":"], SpacedBody(), [])
    ensures Find(Prepared(files), WRITE_FILES).At?
  {
    var front, head := PreparedFront(files), PreparedFront(files) + [RUNCMD + ":"];
    FrontFinds(files);
    KeyBehind(front, SpacedBody());
    SpacedBodyUncovers();
    assert head + SpacedBody() + [] == Prepared(files);
  }

  lemma {:induction false} NoneNew(lines: seq<Line>, files: seq<ToolFile>)
    requires HoldsFiles(lines, files)
    ensures NewFiles(lines, files) == []
  {
    if files != [] {
      forall i | 0 <= i < |files[1..]| ensures HasLine(lines, Marker(files[1..][i])) {
        assert files[1..][i] == files[i + 1];
      }
      NoneNew(lines, files[1..]);
    }
  }

  lemma PreparedHolds(files: seq<ToolFile>, content: string)
    requires AllInstallable(files) && "- " <= content
    ensures HasLine(Prepared(files), content) <==>
            HasLine(SpacedBody(), content) || exists i | 0 <= i < |files| :: content == Marker(files[i])
  {
    KeysAreNoItems(content);
    FrontHasLine(files, content);
    HasLineConcat(PreparedFront(files), [RUNCMD + ":"], content);
    HasLineConcat(PreparedFront(files) + [RUNCMD + ":"], SpacedBody(), content);
  }

  lemma PreparedLacks(files: seq<ToolFile>)
    requires AllInstallable(files)
    ensures NoneWanted(Prepared(files), Client)
  {
    forall i | 0 <= i < |Wanted(Client)| ensures !HasLine(Prepared(files), "- " + Wanted(Client)[i]) {
      var command := Wanted(Client)[i];
      PreparedHolds(files, "- " + command);
      SpacedBodyLacks(command);
      assert command in AllModeCommands();
      forall k | 0 <= k < |files| ensures "- " + command != Marker(files[k]) {
        MarkerIsNoMode(files[k], command);
      }
    }
  }

  /** The document meets the guard, whatever files the tool installs. */
  lemma PreparedMeetsGuard(files: seq<ToolFile>)
    requires AllInstallable(files)
    ensures Editable(Prepared(files), files) && RunLeavesEmptyTail(Prepared(files), files, Client)
  {
    var lines, head, body := Prepared(files), PreparedFront(files) + [RUNCMD + ":"], SpacedBody();
    PreparedSplits(files);
    SplitDescribe(lines, RUNCMD, head, body, []);
    BlockIs(lines, head, body, []);
    AfterBlockIs(lines, head, body, []);
    SpacedBodyUncovers();
    forall i | 0 <= i < |files| ensures HasLine(lines, Marker(files[i])) {
      PreparedHolds(files, Marker(files[i]));
    }
    NoneNew(lines, files);
    assert Seen(lines, files) == lines;
    PreparedHolds(files, ENABLE_ITEM);
    PreparedLacks(files);
  }

  /** So a card with this document, prepared for Client with any files, is rewritten by the
      very next run in the same mode. */
  lemma RerunCanDiffer(files: seq<ToolFile>)
    requires AllInstallable(files)
    ensures Setup(Prepared(files), files, Client).Ok?
    ensures Setup(Setup(Prepared(files), files, Client).value, files, Client) != Setup(Prepared(files), files, Client)
  {
    PreparedMeetsGuard(files);
    SetupAcceptsIff(Prepared(files), files, Client);
    SetupIdempotentIff(Prepared(files), files, Client);
  }

  /** The same on text. */
  lemma RerunCanDifferText(files: seq<ToolFile>)
    requires AllInstallable(files)
    ensures var userData := Unlines(Prepared(files));
            && SetupText(userData, files, Client).Ok?
            && SetupText(SetupText(userData, files, Client).value, files, Client).Ok?
            && SetupText(SetupText(userData, files, Client).value, files, Client) != SetupText(userData, files, Client)
  {
    var lines := Prepared(files);
    PreparedMeetsGuard(files);
    SetupAcceptsIff(lines, files, Client);
    SplitUnlines(lines);
    SetupLines(Unlines(lines), files, Client);
    RerunText(Unlines(lines), files, Client, SetupText(Unlines(lines), files, Client).value);
  }

  // ---------------------------------------------------------------------
  // A key that a run leaves without an item
  // ---------------------------------------------------------------------

  function EarlyCommands(): seq<Line> {
    [GADGET_RUNCMD] + Wanted(Client)
  }

  function EarlyFront(): seq<Line> {
    ([HEADER] + ["bootcmd:"]) + Items("  ", EarlyCommands())
  }

  /** A document that has the tool's commands under another key, and these lines under
      `runcmd`. */
  function Early(body: seq<Line>): seq<Line> {
    EarlyFront() + [RUNCMD + ":"] + body
  }

  const NOTE: Line := "  # set up by hand"

  lemma NoteFacts()
    ensures InBlock(NOTE) && !Blank(NOTE) && !IsItem(NOTE) && Strip(NOTE) != "- " + StartWatcher()
    ensures forall c | c in AsItems(Superseded(Client)) :: Strip(NOTE) != c
  {
    var text := "# set up by hand";
    assert NOTE == "  " + text && Solid(text);
    StripPad("  ", text);
    LeadingSpacePad("  ", text);
    assert text[0] == '#';
  }

  lemma EarlyIsProper()
    ensures AllProper(EarlyCommands())
  {
    ProperGadget();
    ModeListsAreSound(Client);
  }

  lemma EarlyFinds(key: Line, items: seq<Line>)
    requires PlainKey(key) && key[0] != '#' && key[0] != 'b' && AllInert(items)
    ensures Find(([HEADER] + ["bootcmd:"]) + items, key).Absent?
  {
    InertHasNoKey(items, key);
    NoKeyInHeader(key);
    assert (key + ":")[0] == key[0] && "bootcmd:"[0] == 'b';
    FindOne("bootcmd:", key);
    FindChain([HEADER], ["bootcmd:"], key);
    FindChain([HEADER] + ["bootcmd:"], items, key);
  }

  lemma EarlySplits(body: seq<Line>)
    requires AllInBlock(body) && body != [] && !Blank(body[|body| - 1])
    ensures Splits(Early(body), RUNCMD, EarlyFront() + [RUNCMD + ":"], body, [])
    ensures Find(Early(body), WRITE_FILES).Absent?
  {
    EarlyIsProper();
    ItemsFacts("  ", EarlyCommands());
    KeysApart();
    EarlyFinds(RUNCMD, Items("  ", EarlyCommands()));
    EarlyFinds(WRITE_FILES, Items("  ", EarlyCommands()));
    BlockAtEnd(EarlyFront(), body, Early(body));
  }

  lemma BlockAtEnd(front: seq<Line>, body: seq<Line>, lines: seq<Line>)
    requires lines == front + [RUNCMD + ":"] + body
    requires Find(front, RUNCMD).Absent? && Find(front, WRITE_FILES).Absent?
    requires AllInBlock(body) && body != [] && !Blank(body[|body| - 1])
    ensures Splits(lines, RUNCMD, front + [RUNCMD + ":"], body, [])
    ensures Find(lines, WRITE_FILES).Absent?
  {
    FindLast(front, front + [RUNCMD + ":"], RUNCMD);
    NoOtherKey(body);
    FindChain(front, [RUNCMD + ":"], WRITE_FILES);
    FindChain(front + [RUNCMD + ":"], body, WRITE_FILES);
    assert front + [RUNCMD + ":"] + body + [] == lines;
  }

  lemma NoOtherKey(body: seq<Line>)
    requires AllInBlock(body)
    ensures Find([RUNCMD + ":"], WRITE_FILES).Absent? && Find(body, WRITE_FILES).Absent?
  {
    KeysApart();
    OneKey(RUNCMD + ":", RUNCMD, WRITE_FILES);
    FindOne(RUNCMD + ":", WRITE_FILES);
    BlockIsInert(body);
    InertHasNoKey(body, WRITE_FILES);
  }

  lemma ItemsBehind(top: seq<Line>, commands: seq<Line>, more: seq<Line>)
    requires AllProper(commands)
    ensures HoldsItems(top + Items("  ", commands) + more, commands)
  {
    var items := Items("  ", commands);
    forall i | 0 <= i < |commands| ensures HasLine(top + items + more, "- " + commands[i]) {
      HasLineItems("  ", commands, "- " + commands[i]);
      HasLineConcat(top, items, "- " + commands[i]);
      HasLineConcat(top + items, more, "- " + commands[i]);
    }
  }

  lemma SeenBehind(front: seq<Line>, a: seq<Line>, b: seq<Line>, c: seq<Line>)
    ensures front + a + b + c == front + (a + b + c)
  {
  }

  lemma FrontItems(top: seq<Line>, commands: seq<Line>, a: seq<Line>, b: seq<Line>, c: seq<Line>, lines: seq<Line>)
    requires AllProper(commands) && lines == top + Items("  ", commands) + a + b + c
    ensures HoldsItems(lines, commands)
  {
    SeenBehind(top + Items("  ", commands), a, b, c);
    ItemsBehind(top, commands, a + b + c);
  }

  lemma EarlyHolds(body: seq<Line>, files: seq<ToolFile>)
    ensures HoldsItems(Seen(Early(body), files), EarlyCommands())
  {
    EarlyIsProper();
    FrontItems([HEADER] + ["bootcmd:"], EarlyCommands(), [RUNCMD + ":"], body,
               Texts(NewFiles(Early(body), files)), Seen(Early(body), files));
  }

  lemma HeldParts(lines: seq<Line>, all: seq<Line>, first: Line, others: seq<Line>)
    requires all == [first] + others && HoldsItems(lines, all)
    ensures HasLine(lines, "- " + first) && HoldsItems(lines, others)
  {
    assert all[0] == first;
    forall i | 0 <= i < |others| ensures HasLine(lines, "- " + others[i]) {
      assert all[i + 1] == others[i];
    }
  }

  /** The lines of a block whose only item is one that a Client run drops. */
  predicate OnlyAuto(body: seq<Line>) {
    && AllInBlock(body) && body != [] && !Blank(body[|body| - 1])
    && OnlyItems(body, AsItems(Superseded(Client)))
  }

  lemma EarlyMeets(body: seq<Line>, files: seq<ToolFile>) returns (lines: seq<Line>, head: seq<Line>)
    requires OnlyAuto(body)
    ensures lines == Early(body) && Splits(lines, RUNCMD, head, body, []) && Find(lines, WRITE_FILES).Absent?
    ensures HoldsItems(Seen(lines, files), EarlyCommands())
  {
    lines, head := Early(body), EarlyFront() + [RUNCMD + ":"];
    EarlySplits(body);
    EarlyHolds(body, files);
  }

  lemma WithoutItem(lines: seq<Line>, head: seq<Line>, body: seq<Line>, files: seq<ToolFile>)
    requires AllInstallable(files) && Splits(lines, RUNCMD, head, body, []) && Find(lines, WRITE_FILES).Absent?
    requires OnlyItems(body, AsItems(Superseded(Client)))
    requires HasLine(Seen(lines, files), ENABLE_ITEM) && HoldsItems(Seen(lines, files), Wanted(Client))
    ensures Setup(lines, files, Client).Ok? && Block(lines) == body
    ensures Find(Setup(lines, files, Client).value, RUNCMD).At? && NoItems(Block(Setup(lines, files, Client).value))
    ensures Block(Setup(lines, files, Client).value) == TrimBlank(Without(body, AsItems(Superseded(Client))))
  {
    SplitDescribe(lines, RUNCMD, head, body, []);
    BlockIs(lines, head, body, []);
    SetupAcceptsIff(lines, files, Client);
    RunLeavesNoItemIff(lines, files, Client);
    BlockAfterRun(lines, files, Client);
    MissingNoneIff(Seen(lines, files), Wanted(Client));
    AddNothing(body, TrimBlank(Without(body, AsItems(Superseded(Client)))));
  }

  lemma AddNothing(body: seq<Line>, core: seq<Line>)
    ensures body + [] == body && core + [] == core
  {
  }

  /** Such a block, whatever comments and blank lines stand in it, is left without an item
      by a run for Client with any files, while the key stays. */
  lemma RunLeavesNoItem(body: seq<Line>, files: seq<ToolFile>) returns (lines: seq<Line>)
    requires AllInstallable(files) && OnlyAuto(body)
    ensures lines == Early(body) && Setup(lines, files, Client).Ok? && Block(lines) == body
    ensures Find(Setup(lines, files, Client).value, RUNCMD).At? && NoItems(Block(Setup(lines, files, Client).value))
    ensures Block(Setup(lines, files, Client).value) == TrimBlank(Without(body, AsItems(Superseded(Client))))
  {
    var head;
    lines, head := EarlyMeets(body, files);
    HeldParts(Seen(lines, files), EarlyCommands(), GADGET_RUNCMD, Wanted(Client));
    WithoutItem(lines, head, body, files);
  }

  lemma AutoVanishes()
    ensures OnlyAuto([AutoLine()]) && Without([AutoLine()], AsItems(Superseded(Client))) == []
  {
    LineFacts();
    assert [AutoLine()][1..] == [];
  }

  /** With another mode's command alone under the key, the run leaves the key with nothing
      under it. */
  lemma RunCanEmptyTheBlock(files: seq<ToolFile>) returns (lines: seq<Line>)
    requires AllInstallable(files)
    ensures lines == Early([AutoLine()]) && Setup(lines, files, Client).Ok?
    ensures Block(lines) != [] && Find(Setup(lines, files, Client).value, RUNCMD).At?
    ensures Block(Setup(lines, files, Client).value) == []
  {
    AutoVanishes();
    lines := RunLeavesNoItem([AutoLine()], files);
  }

  lemma NoteStays()
    ensures OnlyAuto([NOTE] + [AutoLine()])
    ensures TrimBlank(Without([NOTE] + [AutoLine()], AsItems(Superseded(Client)))) == [NOTE]
  {
    var unwanted := AsItems(Superseded(Client));
    LineFacts();
    NoteFacts();
    AutoVanishes();
    WithoutConcat([NOTE], [AutoLine()], unwanted);
    assert [NOTE][1..] == [];
    assert Without([NOTE], unwanted) == [NOTE] && [NOTE] + [] == [NOTE];
  }

  /** With a comment before that command, the run leaves the key with the comment alone. */
  lemma RunCanLeaveACommentOnly(files: seq<ToolFile>) returns (lines: seq<Line>)
    requires AllInstallable(files)
    ensures lines == Early([NOTE] + [AutoLine()]) && Setup(lines, files, Client).Ok?
    ensures Find(Setup(lines, files, Client).value, RUNCMD).At?
    ensures Block(Setup(lines, files, Client).value) == [NOTE] && !IsItem(NOTE)
  {
    NoteStays();
    NoteFacts();
    lines := RunLeavesNoItem([NOTE] + [AutoLine()], files);
  }
}
