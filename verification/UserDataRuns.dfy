/** Runs of the whole user-data pipeline, on the lines of the document. */
module UserDataRuns {
  import opened Outcomes
  import opened Text
  import opened SequenceBlock
  import opened DocumentLines
  import opened WriteFiles
  import opened AppendFacts
  import opened ModeCommands
  import opened ModePinning

  function AddFiles(lines: seq<Line>, files: seq<ToolFile>): Result<seq<Line>>
    decreases |files|
  {
    if files == [] then
      Ok(lines)
    else
      var next :- AppendWriteFile(lines, files[0]);
      AddFiles(next, files[1..])
  }

  /** The part of a run every mode shares: the files, then the enabling command. */
  function Enable(lines: seq<Line>, files: seq<ToolFile>): Result<seq<Line>> {
    var withFiles :- AddFiles(lines, files);
    AppendRuncmd(withFiles, GADGET_RUNCMD)
  }

  function PinMode(lines: seq<Line>, mode: Mode): Result<seq<Line>> {
    Pin(lines, Wanted(mode), Superseded(mode))
  }

  function Setup(lines: seq<Line>, files: seq<ToolFile>, mode: Mode): Result<seq<Line>> {
    var enabled :- Enable(lines, files);
    PinMode(enabled, mode)
  }

  predicate AllInstallable(files: seq<ToolFile>) {
    forall i | 0 <= i < |files| :: Installable(files[i])
  }

  // ---------------------------------------------------------------------
  // What the shared part establishes
  // ---------------------------------------------------------------------

  /** No key a run edits is in flow style. */
  ghost predicate Editable(lines: seq<Line>, files: seq<ToolFile>) {
    !Find(lines, RUNCMD).Flow? && (files == [] || !Find(lines, WRITE_FILES).Flow?)
  }

  ghost predicate HoldsFiles(lines: seq<Line>, files: seq<ToolFile>) {
    forall i | 0 <= i < |files| :: HasLine(lines, Marker(files[i]))
  }

  ghost predicate HoldsItems(lines: seq<Line>, commands: seq<Line>) {
    forall i | 0 <= i < |commands| :: HasLine(lines, "- " + commands[i])
  }

  /** Everything the shared part adds is there. */
  ghost predicate Enabled(lines: seq<Line>, files: seq<ToolFile>) {
    Editable(lines, files) && HoldsFiles(lines, files) && HoldsItems(lines, [GADGET_RUNCMD])
  }

  /** One of the files reads `content` on some line, or is found by it. */
  ghost predicate Brings(files: seq<ToolFile>, content: string) {
    exists i | 0 <= i < |files| :: content == Marker(files[i]) || HasLine(SplitLines(files[i].content), content)
  }

  lemma KeysAreNoItems(content: string)
    requires "- " <= content
    ensures !HasLine([RUNCMD + ":"], content) && !HasLine([WRITE_FILES + ":"], content)
  {
    assert Solid(RUNCMD + ":") && Solid(WRITE_FILES + ":");
    assert (RUNCMD + ":")[0] == 'r' && (WRITE_FILES + ":")[0] == 'w' && content[0] == '-';
  }

  lemma KeysApart()
    ensures Apart(RUNCMD, WRITE_FILES) && Apart(WRITE_FILES, RUNCMD)
    ensures PlainKey(RUNCMD) && PlainKey(WRITE_FILES) && RUNCMD[0] != '#' && WRITE_FILES[0] != '#'
  {
    assert RUNCMD[0] != WRITE_FILES[0];
  }

  lemma CommandAdded(lines: seq<Line>, command: Line, content: string)
    requires AppendRuncmd(lines, command).Ok? && Proper(command) && "- " <= content
    ensures HasLine(AppendRuncmd(lines, command).value, content) <==>
            HasLine(lines, content) || content == "- " + command
    ensures Find(AppendRuncmd(lines, command).value, WRITE_FILES).Flow? == Find(lines, WRITE_FILES).Flow?
    ensures Find(AppendRuncmd(lines, command).value, WRITE_FILES).Absent? == Find(lines, WRITE_FILES).Absent?
    ensures Find(AppendRuncmd(lines, command).value, RUNCMD).Flow? == Find(lines, RUNCMD).Flow?
    ensures !EndsEmpty(lines) || AllBlank(lines) ==> !EndsEmpty(AppendRuncmd(lines, command).value)
  {
    var entry, initial := [Item(IndentFor(lines, RUNCMD), command)], [Item(DEFAULT_ITEM_INDENT, command)];
    ItemFacts(IndentFor(lines, RUNCMD), command);
    ItemFacts(DEFAULT_ITEM_INDENT, command);
    KeysAreNoItems(content);
    HasOne(entry[0], content);
    HasOne(initial[0], content);
    HasOne(entry[0], "- " + command);
    HasOne(initial[0], "- " + command);
    HasLineAppend(lines, RUNCMD, "- " + command, entry, initial, content);
    AppendMarks(lines, RUNCMD, "- " + command, entry, initial);
    KeysApart();
    FindAppend(lines, RUNCMD, "- " + command, entry, initial, RUNCMD);
    FindAppend(lines, RUNCMD, "- " + command, entry, initial, WRITE_FILES);
    if !EndsEmpty(lines) || AllBlank(lines) {
      AppendEnds(lines, RUNCMD, "- " + command, entry, initial);
    }
  }

  lemma HasOne(line: Line, content: string)
    ensures HasLine([line], content) <==> Strip(line) == content
  {
    assert [line][0] == line;
  }

  lemma FileAdded(lines: seq<Line>, f: ToolFile, content: string)
    requires AppendWriteFile(lines, f).Ok? && Installable(f) && "- " <= content
    ensures HasLine(lines, content) ==> HasLine(AppendWriteFile(lines, f).value, content)
    ensures HasLine(AppendWriteFile(lines, f).value, content) ==>
              HasLine(lines, content) || content == Marker(f) || HasLine(SplitLines(f.content), content)
    ensures HasLine(AppendWriteFile(lines, f).value, Marker(f))
    ensures Find(AppendWriteFile(lines, f).value, WRITE_FILES).Flow? == Find(lines, WRITE_FILES).Flow?
    ensures Find(AppendWriteFile(lines, f).value, RUNCMD).Flow? == Find(lines, RUNCMD).Flow?
    ensures Find(AppendWriteFile(lines, f).value, RUNCMD).Absent? == Find(lines, RUNCMD).Absent?
    ensures !EndsEmpty(lines) || AllBlank(lines) ==> !EndsEmpty(AppendWriteFile(lines, f).value)
  {
    var indent := IndentFor(lines, WRITE_FILES);
    var entry, initial := EntryLines(f, indent), EntryLines(f, DEFAULT_ITEM_INDENT);
    EntryShape(f, indent);
    EntryShape(f, DEFAULT_ITEM_INDENT);
    EntryHasLine(f, indent, content);
    EntryHasLine(f, DEFAULT_ITEM_INDENT, content);
    EntryHasLine(f, indent, Marker(f));
    EntryHasLine(f, DEFAULT_ITEM_INDENT, Marker(f));
    KeysAreNoItems(content);
    HasLineAppend(lines, WRITE_FILES, Marker(f), entry, initial, content);
    AppendMarks(lines, WRITE_FILES, Marker(f), entry, initial);
    KeysApart();
    FindAppend(lines, WRITE_FILES, Marker(f), entry, initial, RUNCMD);
    FindAppend(lines, WRITE_FILES, Marker(f), entry, initial, WRITE_FILES);
    if !EndsEmpty(lines) || AllBlank(lines) {
      AppendEnds(lines, WRITE_FILES, Marker(f), entry, initial);
    }
  }

  /** Adding the files keeps every line, brings only what the files hold, and marks each. */
  lemma {:induction false} FilesAdded(lines: seq<Line>, files: seq<ToolFile>, content: string)
    requires AddFiles(lines, files).Ok? && AllInstallable(files) && "- " <= content
    ensures HasLine(lines, content) ==> HasLine(AddFiles(lines, files).value, content)
    ensures HasLine(AddFiles(lines, files).value, content) ==> HasLine(lines, content) || Brings(files, content)
    ensures Find(AddFiles(lines, files).value, WRITE_FILES).Flow? == Find(lines, WRITE_FILES).Flow?
    ensures Find(AddFiles(lines, files).value, RUNCMD).Flow? == Find(lines, RUNCMD).Flow?
    ensures Find(AddFiles(lines, files).value, RUNCMD).Absent? == Find(lines, RUNCMD).Absent?
    ensures files != [] ==> !Find(lines, WRITE_FILES).Flow?
    ensures !EndsEmpty(lines) || (files != [] && AllBlank(lines)) ==> !EndsEmpty(AddFiles(lines, files).value)
    decreases |files|
  {
    if files != [] {
      FileAdded(lines, files[0], content);
      FilesAdded(AppendWriteFile(lines, files[0]).value, files[1..], content);
      var others := files[1..];
      if Brings(others, content) {
        var i :| 0 <= i < |others| && (content == Marker(others[i]) || HasLine(SplitLines(others[i].content), content));
        assert files[1..][i] == files[i + 1];
      }
    }
  }

  lemma {:induction false} FilesHeld(lines: seq<Line>, files: seq<ToolFile>)
    requires AddFiles(lines, files).Ok? && AllInstallable(files)
    ensures HoldsFiles(AddFiles(lines, files).value, files)
    decreases |files|
  {
    if files != [] {
      var next := AppendWriteFile(lines, files[0]).value;
      FileAdded(lines, files[0], Marker(files[0]));
      FilesAdded(next, files[1..], Marker(files[0]));
      FilesHeld(next, files[1..]);
      forall i | 0 <= i < |files| ensures HasLine(AddFiles(lines, files).value, Marker(files[i])) {
        if i > 0 {
          assert files[i] == files[1..][i - 1];
        }
      }
    }
  }

  lemma FilesHeldAfterCommand(lines: seq<Line>, files: seq<ToolFile>, command: Line)
    requires AppendRuncmd(lines, command).Ok? && Proper(command) && HoldsFiles(lines, files)
    ensures HoldsFiles(AppendRuncmd(lines, command).value, files)
  {
    forall i | 0 <= i < |files| ensures HasLine(AppendRuncmd(lines, command).value, Marker(files[i])) {
      CommandAdded(lines, command, Marker(files[i]));
    }
  }

  /** After the shared part, everything it adds is there and can be edited again. */
  lemma EnableEnables(lines: seq<Line>, files: seq<ToolFile>)
    requires Enable(lines, files).Ok? && AllInstallable(files)
    ensures Enabled(Enable(lines, files).value, files)
  {
    var withFiles := AddFiles(lines, files).value;
    var item := "- " + GADGET_RUNCMD;
    FilesHeld(lines, files);
    ProperGadget();
    FilesAdded(lines, files, item);
    CommandAdded(withFiles, GADGET_RUNCMD, item);
    FilesHeldAfterCommand(withFiles, files, GADGET_RUNCMD);
  }

  lemma EnableEnds(lines: seq<Line>, files: seq<ToolFile>)
    requires Enable(lines, files).Ok? && AllInstallable(files)
    requires !EndsEmpty(lines) || AllBlank(lines)
    ensures !EndsEmpty(Enable(lines, files).value)
  {
    ProperGadget();
    FilesAdded(lines, files, "- " + GADGET_RUNCMD);
    CommandAdded(AddFiles(lines, files).value, GADGET_RUNCMD, "- " + GADGET_RUNCMD);
  }

  lemma {:induction false} FilesStay(lines: seq<Line>, files: seq<ToolFile>)
    requires Editable(lines, files) && HoldsFiles(lines, files)
    ensures AddFiles(lines, files) == Ok(if files == [] then lines else TrimEmpty(lines))
    decreases |files|
  {
    if files != [] {
      var next := TrimEmpty(lines);
      assert AppendWriteFile(lines, files[0]) == Ok(next);
      FindTrim(lines, WRITE_FILES);
      FindTrim(lines, RUNCMD);
      TrimIsPrefix(lines);
      forall i | 0 <= i < |files[1..]| ensures HasLine(next, Marker(files[1..][i])) {
        assert files[1..][i] == files[i + 1];
        HasLineTrim(lines, Marker(files[i + 1]));
      }
      FilesStay(next, files[1..]);
    }
  }

  /** Where everything is there already, the shared part only drops the empty lines at the end. */
  lemma EnableStays(lines: seq<Line>, files: seq<ToolFile>)
    requires Enabled(lines, files)
    ensures Enable(lines, files) == Ok(TrimEmpty(lines))
  {
    FilesStay(lines, files);
    FindTrim(lines, RUNCMD);
    TrimIsPrefix(lines);
    assert HasLine(lines, "- " + [GADGET_RUNCMD][0]);
    HasLineTrim(lines, "- " + GADGET_RUNCMD);
  }

  // ---------------------------------------------------------------------
  // The mode part, on any document
  // ---------------------------------------------------------------------

  lemma {:induction false} CommandsAdded(lines: seq<Line>, commands: seq<Line>, content: string)
    requires AppendAll(lines, commands).Ok? && AllProper(commands) && "- " <= content
    ensures HasLine(AppendAll(lines, commands).value, content) <==>
            HasLine(lines, content) || exists i | 0 <= i < |commands| :: content == "- " + commands[i]
    ensures Find(AppendAll(lines, commands).value, WRITE_FILES).Flow? == Find(lines, WRITE_FILES).Flow?
    ensures Find(AppendAll(lines, commands).value, RUNCMD).Flow? == Find(lines, RUNCMD).Flow?
    decreases |commands|
  {
    if commands != [] {
      assert Proper(commands[0]);
      CommandAdded(lines, commands[0], content);
      CommandsAdded(AppendRuncmd(lines, commands[0]).value, commands[1..], content);
      assert forall i | 0 < i < |commands| :: commands[i] == commands[1..][i - 1];
      if exists i | 0 <= i < |commands| :: content == "- " + commands[i] {
        var i :| 0 <= i < |commands| && content == "- " + commands[i];
        if i > 0 {
          assert content == "- " + commands[1..][i - 1];
        }
      }
    }
  }

  lemma {:induction false} CommandsStay(lines: seq<Line>, commands: seq<Line>)
    requires !Find(lines, RUNCMD).Flow? && HoldsItems(lines, commands)
    ensures AppendAll(lines, commands) == Ok(if commands == [] then lines else TrimEmpty(lines))
    decreases |commands|
  {
    if commands != [] {
      var next := TrimEmpty(lines);
      AppendPresent(lines, commands[0]);
      FindTrim(lines, RUNCMD);
      TrimIsPrefix(lines);
      forall i | 0 <= i < |commands[1..]| ensures HasLine(next, "- " + commands[1..][i]) {
        HasLineTrim(lines, "- " + commands[i + 1]);
      }
      CommandsStay(next, commands[1..]);
    }
  }

  /** The lines of the block under `runcmd`. */
  function Block(lines: seq<Line>): seq<Line> {
    var found := Find(lines, RUNCMD);
    if found.At? then lines[found.index + 1..Describe(lines, found.index).0] else []
  }

  /** The lines behind the block under `runcmd`. */
  function AfterBlock(lines: seq<Line>): seq<Line> {
    var found := Find(lines, RUNCMD);
    if found.At? then lines[Describe(lines, found.index).0..] else []
  }

  lemma AfterBlockIs(lines: seq<Line>, head: seq<Line>, body: seq<Line>, rest: seq<Line>)
    requires Splits(lines, RUNCMD, head, body, rest)
    ensures AfterBlock(lines) == rest
  {
    SplitDescribe(lines, RUNCMD, head, body, rest);
    assert lines[|head| + |body|..] == rest;
  }

  lemma BlockIs(lines: seq<Line>, head: seq<Line>, body: seq<Line>, rest: seq<Line>)
    requires Splits(lines, RUNCMD, head, body, rest)
    ensures Block(lines) == body
  {
    SplitDescribe(lines, RUNCMD, head, body, rest);
    assert lines[|head|..|head| + |body|] == body;
  }

  /** An append puts nothing into the block but its own command. */
  lemma CommandKeepsClean(lines: seq<Line>, command: Line, superseded: set<Line>)
    requires AppendRuncmd(lines, command).Ok? && Proper(command) && command !in superseded
    requires Lacks(Block(lines), superseded)
    ensures Lacks(Block(AppendRuncmd(lines, command).value), superseded)
  {
    var next := AppendRuncmd(lines, command).value;
    if Find(lines, RUNCMD).At? {
      var head, body, rest := SplitExists(lines, RUNCMD);
      BlockIs(lines, head, body, rest);
      if HasLine(lines, "- " + command) {
        SplitTrim(lines, RUNCMD, head, body, rest);
        BlockIs(next, head, body, TrimEmpty(rest));
      } else {
        AppendOne(lines, head, body, rest, command);
        var item := Item(BlockIndent(body), command);
        BlockIs(next, head, body + [item], rest);
        LacksWithItem(body, item, command, superseded);
      }
    } else if HasLine(lines, "- " + command) {
      FindTrim(lines, RUNCMD);
      assert Find(next, RUNCMD).Absent?;
    } else {
      var item := Item(DEFAULT_ITEM_INDENT, command);
      NewBlockSplits(lines, item, command);
      BlockIs(next, AppendBlock(lines, [RUNCMD + ":"]), [item], []);
      LacksWithItem([], item, command, superseded);
      assert [] + [item] == [item];
    }
  }

  lemma LacksWithItem(body: seq<Line>, item: Line, command: Line, superseded: set<Line>)
    requires Lacks(body, superseded) && command !in superseded && Proper(command)
    requires exists indent: Line :: Blank(indent) && item == Item(indent, command)
    ensures Lacks(body + [item], superseded)
  {
    var indent: Line :| Blank(indent) && item == Item(indent, command);
    ItemFacts(indent, command);
    forall c | c in superseded ensures !HasLine(body + [item], "- " + c) {
      HasLineConcat(body, [item], "- " + c);
      HasOne(item, "- " + c);
      SameItem(c, command);
    }
  }

  /** A document that lacks the key gets it at its end, with the item as its whole block. */
  lemma NewBlockSplits(lines: seq<Line>, item: Line, command: Line)
    requires Find(lines, RUNCMD).Absent? && Proper(command) && item == Item(DEFAULT_ITEM_INDENT, command)
    ensures AppendBlock(lines, [RUNCMD + ":"] + [item]) == AppendBlock(lines, [RUNCMD + ":"]) + [item] + []
    ensures Splits(AppendBlock(lines, [RUNCMD + ":"] + [item]), RUNCMD, AppendBlock(lines, [RUNCMD + ":"]), [item], [])
    ensures !EndsEmpty(AppendBlock(lines, [RUNCMD + ":"] + [item]))
  {
    var head := AppendBlock(lines, [RUNCMD + ":"]);
    ItemFacts(DEFAULT_ITEM_INDENT, command);
    KeysApart();
    NewKeySplits(lines, RUNCMD);
    AppendBlockConcat(lines, [RUNCMD + ":"], [item]);
    assert head + [] + [] == head;
    SplitInsert(head, RUNCMD, head, [], [], [item]);
    assert [] + [item] == [item];
    assert head + [item] + [] == head + [item];
  }

  lemma AppendBlockConcat(lines: seq<Line>, a: seq<Line>, b: seq<Line>)
    ensures AppendBlock(lines, a + b) == AppendBlock(lines, a) + b
  {
    var text := TrimEmpty(lines);
    Regroup([HEADER], text, a, b);
    Regroup([], text, a, b);
    Regroup([], [HEADER, ""], a, b);
    assert [HEADER] + text + (a + b) == [HEADER] + text + a + b;
    assert [] + text + (a + b) == [] + text + a + b;
  }

  /** A document that lacks a key gets it at its end. */
  lemma NewKeySplits(lines: seq<Line>, key: Line)
    requires Find(lines, key).Absent? && PlainKey(key) && key[0] != '#'
    ensures Splits(AppendBlock(lines, [key + ":"]), key, AppendBlock(lines, [key + ":"]), [], [])
  {
    var before, head := AppendBlock(lines, []), AppendBlock(lines, [key + ":"]);
    AppendBlockConcat(lines, [], [key + ":"]);
    assert [] + [key + ":"] == [key + ":"];
    FindAppendBlock(lines, [], key);
    FindLast(before, head, key);
  }

  lemma FindLast(before: seq<Line>, head: seq<Line>, key: Line)
    requires Find(before, key).Absent? && head == before + [key + ":"]
    ensures Find(head, key) == At(|head| - 1)
    ensures Splits(head, key, head, [], [])
  {
    assert head + [] + [] == head;
    FindConcat(before, [key + ":"], key);
    FindOne(key + ":", key);
    assert (key + ":")[|key| + 1..] == "";
  }
}
