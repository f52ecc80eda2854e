/** How often each mode's commands stand in a pinned document, and what else pinning changes. */
module PinExactness {
  import opened Outcomes
  import opened Text
  import opened SequenceBlock
  import opened DocumentLines
  import opened ModeCommands
  import opened AppendFacts
  import opened ModePinning
  import opened UserDataRuns
  import opened RepeatedRuns
  import opened RunOutcome

  /** How many lines read `content` once stripped. */
  function Count(lines: seq<Line>, content: string): nat {
    if lines == [] then 0
    else (if Strip(lines[0]) == content then 1 else 0) + Count(lines[1..], content)
  }

  lemma {:induction false} CountConcat(a: seq<Line>, b: seq<Line>, content: string)
    ensures Count(a + b, content) == Count(a, content) + Count(b, content)
  {
    if a == [] {
      assert a + b == b;
    } else {
      assert (a + b)[1..] == a[1..] + b;
      CountConcat(a[1..], b, content);
    }
  }

  lemma {:induction false} CountHas(lines: seq<Line>, content: string)
    ensures HasLine(lines, content) <==> Count(lines, content) > 0
  {
    if lines != [] {
      CountHas(lines[1..], content);
      assert lines == [lines[0]] + lines[1..];
      HasLineConcat([lines[0]], lines[1..], content);
      HasOne(lines[0], content);
    }
  }

  lemma {:induction false} CountWithout(lines: seq<Line>, unwanted: set<string>, content: string)
    ensures Count(Without(lines, unwanted), content) == if content in unwanted then 0 else Count(lines, content)
  {
    if lines != [] {
      CountWithout(lines[1..], unwanted, content);
      if Strip(lines[0]) in unwanted {
        assert Without(lines, unwanted) == Without(lines[1..], unwanted);
      } else {
        assert Without(lines, unwanted)[1..] == Without(lines[1..], unwanted);
      }
    }
  }

  lemma {:induction false} CountItems(indent: Line, commands: seq<Line>, command: Line)
    requires Blank(indent) && AllProper(commands)
    ensures Count(Items(indent, commands), "- " + command) == multiset(commands)[command]
  {
    if commands != [] {
      CountItems(indent, commands[1..], command);
      ItemFacts(indent, commands[0]);
      SameItem(commands[0], command);
      assert commands == [commands[0]] + commands[1..];
      assert Items(indent, commands)[1..] == Items(indent, commands[1..]);
    }
  }

  lemma {:induction false} CountMissing(lines: seq<Line>, commands: seq<Line>, command: Line)
    requires Distinct(commands)
    ensures multiset(Missing(lines, commands))[command] ==
            if command in commands && !HasLine(lines, "- " + command) then 1 else 0
  {
    if commands != [] {
      CountMissing(lines, commands[1..], command);
      assert commands == [commands[0]] + commands[1..];
      assert commands[0] !in commands[1..];
    }
  }

  lemma CountTrim(lines: seq<Line>, content: string)
    requires content != ""
    ensures Count(TrimEmpty(lines), content) == Count(lines, content)
  {
    TrimIsPrefix(lines);
    var kept := TrimEmpty(lines);
    assert lines == kept + lines[|kept|..];
    CountConcat(kept, lines[|kept|..], content);
    CountEmpties(lines[|kept|..], content);
  }

  lemma CountEmpties(lines: seq<Line>, content: string)
    requires content != "" && forall i | 0 <= i < |lines| :: lines[i] == ""
    ensures Count(lines, content) == 0
  {
  }

  lemma CountThree(a: seq<Line>, b: seq<Line>, c: seq<Line>, content: string)
    ensures Count(a + b + c, content) == Count(a, content) + Count(b, content) + Count(c, content)
  {
    CountConcat(a + b, c, content);
    CountConcat(a, b, content);
  }

  lemma CountDropped(head: seq<Line>, body: seq<Line>, rest: seq<Line>, unwanted: set<string>, content: string)
    ensures Count(head + Without(body, unwanted) + rest, content) ==
            Count(head + body + rest, content) - if content in unwanted then Count(body, content) else 0
  {
    CountThree(head, Without(body, unwanted), rest, content);
    CountThree(head, body, rest, content);
    CountWithout(body, unwanted, content);
  }

  lemma {:induction false} CountBlanks(lines: seq<Line>, content: string)
    requires AllBlank(lines) && content != ""
    ensures Count(lines, content) == 0
  {
    if lines != [] {
      BlankStrip(lines[0]);
      CountBlanks(lines[1..], content);
    }
  }

  lemma CountAppendBlock(lines: seq<Line>, block: seq<Line>, content: string)
    requires "- " <= content
    ensures Count(AppendBlock(lines, block), content) == Count(lines, content) + Count(block, content)
  {
    CountHeader(content);
    if AllBlank(lines) {
      CountBlanks(lines, content);
      CountConcat([HEADER, ""], block, content);
    } else {
      var text := TrimEmpty(lines);
      CountTrim(lines, content);
      AppendBlockIs(lines, text, block);
      CountConcat(text, block, content);
      CountConcat([HEADER], text + block, content);
    }
  }

  lemma CountHeader(content: string)
    requires "- " <= content
    ensures Count([HEADER], content) == 0 && Count([HEADER, ""], content) == 0 && Count([RUNCMD + ":"], content) == 0
  {
    KeysAreNoItems(content);
    assert Solid(HEADER) && HEADER[0] == '#' && content[0] == '-';
    CountHas([RUNCMD + ":"], content);
    assert [HEADER][1..] == [] && [HEADER, ""][1..] == [""] && [""][1..] == [];
  }

  lemma CountOne(indent: Line, command: Line, content: string)
    requires Blank(indent) && Proper(command)
    ensures Count([Item(indent, command)], content) == if content == "- " + command then 1 else 0
  {
    ItemFacts(indent, command);
    assert [Item(indent, command)][1..] == [];
  }

  /** An append adds its command once if no line held it, and nothing else, wherever the
      block stands or has to be made. */
  lemma CountCommand(lines: seq<Line>, command: Line, content: string)
    requires AppendRuncmd(lines, command).Ok? && Proper(command) && "- " <= content
    ensures Count(AppendRuncmd(lines, command).value, content) ==
            Count(lines, content) + if content == "- " + command && !HasLine(lines, content) then 1 else 0
  {
    if HasLine(lines, "- " + command) {
      CountTrim(lines, content);
    } else if Find(lines, RUNCMD).At? {
      var head, body, rest := SplitExists(lines, RUNCMD);
      AppendOne(lines, head, body, rest, command);
      CountThree(head, body, rest, content);
      CountThree(head, body + [Item(BlockIndent(body), command)], rest, content);
      CountConcat(body, [Item(BlockIndent(body), command)], content);
      CountOne(BlockIndent(body), command, content);
    } else {
      var item := Item(DEFAULT_ITEM_INDENT, command);
      AppendNew(lines, command);
      CountAppendBlock(lines, [RUNCMD + ":"] + [item], content);
      CountConcat([RUNCMD + ":"], [item], content);
      CountHeader(content);
      CountOne(DEFAULT_ITEM_INDENT, command, content);
    }
  }

  lemma {:induction false} CountCommands(lines: seq<Line>, commands: seq<Line>, command: Line)
    requires AppendAll(lines, commands).Ok? && AllProper(commands) && Distinct(commands)
    ensures Count(AppendAll(lines, commands).value, "- " + command) ==
            Count(lines, "- " + command) + multiset(Missing(lines, commands))[command]
    decreases |commands|
  {
    if commands != [] {
      var next := AppendRuncmd(lines, commands[0]).value;
      assert Proper(commands[0]);
      CountCommand(lines, commands[0], "- " + command);
      CountCommands(next, commands[1..], command);
      AppendAllStep(lines, commands, next);
      SameMissing(lines, next, commands);
      MissingStep(lines, commands);
      SameItem(command, commands[0]);
    }
  }

  /** A drop takes from the block what it drops, and nothing else that is an item. */
  lemma CountDrop(lines: seq<Line>, superseded: set<Line>, command: Line)
    requires DropItems(lines, superseded).Ok?
    ensures var dropped, item := DropItems(lines, superseded).value, "- " + command;
            var taken := if command in superseded then Count(Block(lines), item) else 0;
            && Count(dropped, item) == Count(lines, item) - taken
            && Count(Block(dropped), item) == Count(Block(lines), item) - taken
  {
    var item, unwanted := "- " + command, AsItems(superseded);
    ItemIn(command, superseded);
    BlockDropped(lines, superseded);
    CountCore(Without(Block(lines), unwanted), item);
    CountWithout(Block(lines), unwanted, item);
    if Find(lines, RUNCMD).At? {
      var head, body, rest := SplitExists(lines, RUNCMD);
      DropAt(lines, head, body, rest, superseded);
      BlockIs(lines, head, body, rest);
      CountDropped(head, body, rest, unwanted, item);
    } else {
      CountTrim(lines, item);
    }
  }

  lemma CountCore(lines: seq<Line>, content: string)
    requires content != ""
    ensures Count(TrimBlank(lines), content) == Count(lines, content)
  {
    var core := TrimBlank(lines);
    assert lines == core + lines[|core|..];
    CountConcat(core, lines[|core|..], content);
    CountBlanks(lines[|core|..], content);
  }

  /** What pinning does to the number of a command's lines, in the whole document and in
      the block: it takes the block's superseded ones, then adds a wanted one that no line
      held. */
  lemma PinCountsBoth(lines: seq<Line>, wanted: seq<Line>, superseded: set<Line>, command: Line)
    requires Pin(lines, wanted, superseded).Ok? && AllProper(wanted) && Distinct(wanted)
    requires forall i | 0 <= i < |wanted| :: wanted[i] !in superseded
    ensures var after, item := Pin(lines, wanted, superseded).value, "- " + command;
            var taken := if command in superseded then Count(Block(lines), item) else 0;
            var added := if command in wanted && Count(lines, item) == 0 then 1 else 0;
            && Count(after, item) == Count(lines, item) - taken + added
            && Count(Block(after), item) == Count(Block(lines), item) - taken + added
  {
    var dropped, item := DropItems(lines, superseded).value, "- " + command;
    var missing := Missing(dropped, wanted);
    CountDrop(lines, superseded, command);
    CountCommands(dropped, wanted, command);
    CountMissing(dropped, wanted, command);
    CountHas(dropped, item);
    BlockAllAppended(dropped, wanted);
    MissingFits(dropped, wanted);
    assert AllProper(missing);
    CountConcat(Block(dropped), Items(BlockIndent(Block(dropped)), missing), item);
    CountItems(BlockIndent(Block(dropped)), missing, command);
    assert command in wanted ==> command !in superseded;
  }

  /** How often a mode's command stands in the pinned document: one that is wanted as
      often as before, or once if it was missing; one that is superseded only as often
      as it stood outside the block. */
  lemma PinCounts(lines: seq<Line>, mode: Mode, command: Line)
    requires !Find(lines, RUNCMD).Flow? && command in AllModeCommands()
    ensures PinMode(lines, mode).Ok?
    ensures var before, after := Count(lines, "- " + command), Count(PinMode(lines, mode).value, "- " + command);
            if command in Wanted(mode) then after == (if before == 0 then 1 else before)
            else after == before - Count(Block(lines), "- " + command)
  {
    AllAccepted(lines, mode);
    PinModeCounts(lines, mode, command);
  }

  lemma PinModeCounts(lines: seq<Line>, mode: Mode, command: Line)
    requires PinMode(lines, mode).Ok?
    ensures var after, item := PinMode(lines, mode).value, "- " + command;
            var taken := if command in Superseded(mode) then Count(Block(lines), item) else 0;
            var added := if command in Wanted(mode) && Count(lines, item) == 0 then 1 else 0;
            && Count(after, item) == Count(lines, item) - taken + added
            && Count(Block(after), item) == Count(Block(lines), item) - taken + added
  {
    ModeListsAreSound(mode);
    forall i | 0 <= i < |Wanted(mode)| ensures Wanted(mode)[i] !in Superseded(mode) {
      WantedIsNotEnabling(mode, i);
    }
    PinCountsBoth(lines, Wanted(mode), Superseded(mode), command);
  }

  lemma ItemIn(command: Line, commands: set<Line>)
    ensures "- " + command in AsItems(commands) <==> command in commands
  {
    forall c | c in commands ensures "- " + c == "- " + command <==> c == command {
      SameItem(c, command);
    }
  }

  /** Outside the block pinning neither adds nor drops a command, whatever it is. */
  lemma PinKeepsOutside(lines: seq<Line>, mode: Mode, command: Line)
    requires !Find(lines, RUNCMD).Flow?
    ensures PinMode(lines, mode).Ok?
    ensures var after, item := PinMode(lines, mode).value, "- " + command;
            Count(after, item) - Count(Block(after), item) == Count(lines, item) - Count(Block(lines), item)
  {
    AllAccepted(lines, mode);
    PinModeCounts(lines, mode, command);
  }

  /** When a mode command never stands outside the block nor twice in it, then after
      pinning it stands in the block once if the chosen mode wants it, and nowhere
      otherwise. */
  lemma PinIsExact(lines: seq<Line>, mode: Mode, command: Line)
    requires !Find(lines, RUNCMD).Flow? && command in AllModeCommands()
    requires Count(Block(lines), "- " + command) == Count(lines, "- " + command) <= 1
    ensures PinMode(lines, mode).Ok?
    ensures var after, times := PinMode(lines, mode).value, if command in Wanted(mode) then 1 else 0;
            Count(after, "- " + command) == Count(Block(after), "- " + command) == times
  {
    PinCounts(lines, mode, command);
    PinKeepsOutside(lines, mode, command);
  }

  // ---------------------------------------------------------------------
  // Everything else stays
  // ---------------------------------------------------------------------

  /** The document without any mode's commands and without the empty lines at its end. */
  function Others(lines: seq<Line>): seq<Line> {
    TrimEmpty(Without(lines, AsItems(AsSet(AllModeCommands()))))
  }

  lemma WithoutThree(a: seq<Line>, b: seq<Line>, c: seq<Line>, unwanted: set<string>)
    ensures Without(a + b + c, unwanted) == Without(a, unwanted) + Without(b, unwanted) + Without(c, unwanted)
  {
    WithoutConcat(a + b, c, unwanted);
    WithoutConcat(a, b, unwanted);
  }

  lemma {:induction false} WithoutTwice(lines: seq<Line>, fewer: set<string>, more: set<string>)
    requires fewer <= more
    ensures Without(Without(lines, fewer), more) == Without(lines, more)
  {
    if lines != [] {
      WithoutTwice(lines[1..], fewer, more);
      var kept: seq<Line> := if Strip(lines[0]) in fewer then [] else [lines[0]];
      WithoutConcat(kept, Without(lines[1..], fewer), more);
      assert kept != [] ==> kept[1..] == [];
    }
  }

  lemma {:induction false} WithoutAllItems(indent: Line, commands: seq<Line>, unwanted: set<Line>)
    requires Blank(indent) && AllProper(commands)
    requires forall i | 0 <= i < |commands| :: commands[i] in unwanted
    ensures Without(Items(indent, commands), AsItems(unwanted)) == []
  {
    WithoutItems(indent, commands, unwanted);
    NoneSurvive(commands, unwanted);
  }

  lemma {:induction false} TrimDropsEmpties(front: seq<Line>, empties: seq<Line>)
    requires forall i | 0 <= i < |empties| :: empties[i] == ""
    ensures TrimEmpty(front + empties) == TrimEmpty(front)
  {
    if empties == [] {
      assert front + empties == front;
    } else {
      TrimDropsEmpties(front, empties[..|empties| - 1]);
      assert (front + empties)[..|front + empties| - 1] == front + empties[..|empties| - 1];
    }
  }

  lemma WithoutTrim(front: seq<Line>, tail: seq<Line>, unwanted: set<string>)
    requires "" !in unwanted
    ensures TrimEmpty(front + Without(TrimEmpty(tail), unwanted)) == TrimEmpty(front + Without(tail, unwanted))
  {
    TrimIsPrefix(tail);
    var kept, empties := TrimEmpty(tail), tail[|TrimEmpty(tail)|..];
    assert tail == kept + empties;
    WithoutConcat(kept, empties, unwanted);
    EmptiesStay(empties, unwanted);
    TrimDropsEmpties(front + Without(kept, unwanted), empties);
    assert front + Without(kept, unwanted) + empties == front + (Without(kept, unwanted) + empties);
  }

  lemma EmptiesStay(empties: seq<Line>, unwanted: set<string>)
    requires "" !in unwanted && forall i | 0 <= i < |empties| :: empties[i] == ""
    ensures Without(empties, unwanted) == empties
  {
  }

  lemma OthersAppended(head: seq<Line>, core: seq<Line>, tail: seq<Line>, missing: seq<Line>, commands: seq<Line>)
    requires AllProper(missing) && forall i | 0 <= i < |missing| :: missing[i] in AllModeCommands()
    ensures Others(Appended(head, core, tail, missing, commands)) == Others(head + core + tail)
  {
    var all := AsItems(AsSet(AllModeCommands()));
    var items := Items(BlockIndent(core), missing);
    var end := if missing == commands then tail else TrimEmpty(tail);
    WithoutThree(head, core + items, end, all);
    WithoutThree(head, core, tail, all);
    WithoutConcat(core, items, all);
    WithoutAllItems(BlockIndent(core), missing, AsSet(AllModeCommands()));
    assert Without(core, all) + [] == Without(core, all);
    WithoutTrim(Without(head, all) + Without(core, all), tail, all);
  }

  /** Pinning changes nothing but mode commands: every other line of the document stays,
      in its order, and only empty lines at the very end may go. */
  lemma PinKeepsOthers(lines: seq<Line>, mode: Mode)
    requires Find(lines, RUNCMD).At?
    ensures PinMode(lines, mode).Ok? && Others(PinMode(lines, mode).value) == Others(lines)
  {
    var wanted, superseded := Wanted(mode), Superseded(mode);
    var all, unwanted := AsItems(AsSet(AllModeCommands())), AsItems(superseded);
    ModeListsAreSound(mode);
    var head, body, rest := SplitExists(lines, RUNCMD);
    var core, tail := PinAt(lines, head, body, rest, wanted, superseded);
    var missing := Missing(head + core + tail, wanted);
    MissingFits(head + core + tail, wanted);
    forall i | 0 <= i < |missing| ensures missing[i] in AllModeCommands() && Proper(missing[i]) {
      assert missing[i] in wanted;
    }
    OthersAppended(head, core, tail, missing, wanted);
    WithoutThree(head, Without(body, unwanted), rest, all);
    WithoutThree(head, body, rest, all);
    assert unwanted <= all by {
      forall c | c in superseded ensures "- " + c in all {
        assert c in AsSet(AllModeCommands());
      }
    }
    WithoutTwice(body, unwanted, all);
  }
}
