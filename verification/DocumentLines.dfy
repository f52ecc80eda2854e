/** The edits of a cloud-config document, on its lines. */
module DocumentLines {
  import opened Outcomes
  import opened Text
  import opened SequenceBlock

  const RUNCMD := "runcmd"
  const WRITE_FILES := "write_files"
  const HEADER: Line := "#cloud-config"

  /** Some line reads `content` once stripped. */
  predicate HasLine(lines: seq<Line>, content: string) {
    exists i | 0 <= i < |lines| :: Strip(lines[i]) == content
  }

  function FirstContent(lines: seq<Line>): string {
    if lines == [] then ""
    else if Blank(lines[0]) then FirstContent(lines[1..])
    else Strip(lines[0])
  }

  /** The document with a new block at its end, under the header. */
  function AppendBlock(lines: seq<Line>, block: seq<Line>): seq<Line> {
    if AllBlank(lines) then
      [HEADER, ""] + block
    else
      var text := TrimEmpty(lines);
      (if FirstContent(text) == HEADER then [] else [HEADER]) + text + block
  }

  function Insert(lines: seq<Line>, at: nat, added: seq<Line>): seq<Line>
    requires at <= |lines|
  {
    lines[..at] + added + lines[at..]
  }

  /** The indentation an item added under `key` gets. */
  function IndentFor(lines: seq<Line>, key: string): (indent: Line)
    ensures Blank(indent)
  {
    var found := Find(lines, key);
    if found.At? then Describe(lines, found.index).1 else DEFAULT_ITEM_INDENT
  }

  /** Adds `entry` to the block under `key`, or `initial` under a new key, unless the
      document already holds the line `marker`. */
  function Append(lines: seq<Line>, key: Line, marker: string, entry: seq<Line>,
                  initial: seq<Line>): Result<seq<Line>> {
    var found := Find(lines, key);
    if found.Flow? then
      Err(FlowStyle(key))
    else if HasLine(lines, marker) then
      Ok(TrimEmpty(lines))
    else if found.Absent? then
      Ok(AppendBlock(lines, [key + ":"] + initial))
    else
      Ok(Insert(lines, Describe(lines, found.index).0, entry))
  }

  function Item(indent: Line, command: Line): Line {
    indent + "- " + command
  }

  function Items(indent: Line, commands: seq<Line>): seq<Line> {
    if commands == [] then [] else [Item(indent, commands[0])] + Items(indent, commands[1..])
  }

  function AppendRuncmd(lines: seq<Line>, command: Line): Result<seq<Line>> {
    Append(lines, RUNCMD, "- " + command,
           [Item(IndentFor(lines, RUNCMD), command)], [Item(DEFAULT_ITEM_INDENT, command)])
  }

  function AppendAll(lines: seq<Line>, commands: seq<Line>): Result<seq<Line>>
    decreases |commands|
  {
    if commands == [] then
      Ok(lines)
    else
      var next :- AppendRuncmd(lines, commands[0]);
      AppendAll(next, commands[1..])
  }

  /** The lines whose stripped text is not one of `unwanted`. */
  function Without(lines: seq<Line>, unwanted: set<string>): seq<Line> {
    if lines == [] then []
    else (if Strip(lines[0]) in unwanted then [] else [lines[0]]) + Without(lines[1..], unwanted)
  }

  function AsItems(commands: set<Line>): set<string> {
    set c | c in commands :: "- " + c
  }

  function DropItems(lines: seq<Line>, commands: set<Line>): Result<seq<Line>> {
    var found := Find(lines, RUNCMD);
    if found.Flow? then
      Err(FlowStyle(RUNCMD))
    else if found.Absent? then
      Ok(if AllBlank(lines) then lines else TrimEmpty(lines))
    else
      var end := Describe(lines, found.index).0;
      Ok(lines[..found.index + 1] + Without(lines[found.index + 1..end], AsItems(commands)) + lines[end..])
  }

  /** One mode's commands, with those of the modes it replaces gone. */
  function Pin(lines: seq<Line>, wanted: seq<Line>, superseded: set<Line>): Result<seq<Line>> {
    var kept :- DropItems(lines, superseded);
    AppendAll(kept, wanted)
  }

  // ---------------------------------------------------------------------
  // Facts about lines
  // ---------------------------------------------------------------------

  /** A command that survives being stripped as the item it is written as. */
  predicate Proper(command: Line) {
    command != "" && !IsSpace(command[|command| - 1])
  }

  predicate AllProper(commands: seq<Line>) {
    forall i | 0 <= i < |commands| :: Proper(commands[i])
  }

  predicate Distinct(commands: seq<Line>) {
    forall i, j | 0 <= i < j < |commands| :: commands[i] != commands[j]
  }

  lemma SameItem(a: Line, b: Line)
    ensures "- " + a == "- " + b <==> a == b
  {
    assert ("- " + a)[2..] == a && ("- " + b)[2..] == b;
  }

  lemma HasLineConcat(a: seq<Line>, b: seq<Line>, content: string)
    ensures HasLine(a + b, content) <==> HasLine(a, content) || HasLine(b, content)
  {
    if HasLine(a, content) {
      var i :| 0 <= i < |a| && Strip(a[i]) == content;
      assert (a + b)[i] == a[i];
    }
    if HasLine(b, content) {
      var i :| 0 <= i < |b| && Strip(b[i]) == content;
      assert (a + b)[|a| + i] == b[i];
    }
  }

  lemma HasLineTrim(lines: seq<Line>, content: string)
    requires content != ""
    ensures HasLine(TrimEmpty(lines), content) <==> HasLine(lines, content)
  {
    TrimIsPrefix(lines);
    var kept := TrimEmpty(lines);
    var dropped := lines[|kept|..];
    assert lines == kept + dropped;
    HasLineConcat(kept, dropped, content);
    assert forall i | 0 <= i < |dropped| :: Strip(dropped[i]) == "";
  }

  lemma ItemFacts(indent: Line, command: Line)
    requires Blank(indent) && Proper(command)
    ensures Strip(Item(indent, command)) == "- " + command
    ensures LeadingSpace(Item(indent, command)) == indent
    ensures IsItem(Item(indent, command)) && InBlock(Item(indent, command))
    ensures !Blank(Item(indent, command)) && Inert(Item(indent, command))
  {
    var item := "- " + command;
    assert indent + item == Item(indent, command);
    StripPad(indent, item);
    LeadingSpacePad(indent, item);
    assert Solid(item);
    assert Item(indent, command)[|indent|] == '-';
  }

  lemma {:induction false} ItemsFacts(indent: Line, commands: seq<Line>)
    requires Blank(indent) && AllProper(commands)
    ensures |Items(indent, commands)| == |commands|
    ensures forall i | 0 <= i < |commands| :: Items(indent, commands)[i] == Item(indent, commands[i])
    ensures AllInBlock(Items(indent, commands)) && AllInert(Items(indent, commands))
    ensures commands != [] ==> !Blank(Items(indent, commands)[|commands| - 1])
    ensures commands != [] ==> FirstIndent(Items(indent, commands)) == Some(indent)
  {
    if commands != [] {
      ItemFacts(indent, commands[0]);
      ItemsFacts(indent, commands[1..]);
      var items := Items(indent, commands);
      forall i | 0 <= i < |commands|
        ensures items[i] == Item(indent, commands[i]) && InBlock(items[i]) && Inert(items[i])
      {
        ItemFacts(indent, commands[i]);
      }
    }
  }

  lemma HasLineItems(indent: Line, commands: seq<Line>, content: string)
    requires Blank(indent) && AllProper(commands)
    ensures HasLine(Items(indent, commands), content) <==>
            exists i | 0 <= i < |commands| :: content == "- " + commands[i]
  {
    ItemsFacts(indent, commands);
    var items := Items(indent, commands);
    forall i | 0 <= i < |commands| ensures Strip(items[i]) == "- " + commands[i] {
      ItemFacts(indent, commands[i]);
    }
  }

  lemma {:induction false} ItemsConcat(indent: Line, a: seq<Line>, b: seq<Line>)
    ensures Items(indent, a + b) == Items(indent, a) + Items(indent, b)
  {
    if a == [] {
      assert a + b == b;
    } else {
      assert (a + b)[1..] == a[1..] + b;
      ItemsConcat(indent, a[1..], b);
    }
  }

  // ---------------------------------------------------------------------
  // What a run of appends leaves
  // ---------------------------------------------------------------------

  /** The commands the document does not hold yet, in order. */
  function Missing(lines: seq<Line>, commands: seq<Line>): seq<Line> {
    if commands == [] then []
    else (if HasLine(lines, "- " + commands[0]) then [] else [commands[0]]) + Missing(lines, commands[1..])
  }

  lemma MissingFrom(a: seq<Line>, b: seq<Line>, commands: seq<Line>)
    requires forall i | 0 <= i < |commands| :: HasLine(a, "- " + commands[i]) == HasLine(b, "- " + commands[i])
    ensures Missing(a, commands) == Missing(b, commands)
  {
  }

  lemma MissingFits(lines: seq<Line>, commands: seq<Line>)
    ensures |Missing(lines, commands)| <= |commands|
    ensures forall i | 0 <= i < |Missing(lines, commands)| :: Missing(lines, commands)[i] in commands
    ensures Missing(lines, commands) == commands <==>
            forall i | 0 <= i < |commands| :: !HasLine(lines, "- " + commands[i])
  {
    if commands != [] {
      MissingFits(lines, commands[1..]);
      assert forall i | 0 < i < |commands| :: commands[i] == commands[1..][i - 1];
      var rest := Missing(lines, commands[1..]);
      if HasLine(lines, "- " + commands[0]) {
        assert Missing(lines, commands) == rest;
      } else {
        assert Missing(lines, commands)[1..] == rest;
        assert commands == [commands[0]] + commands[1..];
      }
    }
  }

  /** One append into a block that lacks the command: the line goes after the block's
      last non-blank line, everything else stays, and the block is extended by it. */
  lemma AppendOne(lines: seq<Line>, head: seq<Line>, body: seq<Line>, rest: seq<Line>, command: Line)
    requires Splits(lines, RUNCMD, head, body, rest) && Proper(command)
    requires !HasLine(lines, "- " + command)
    ensures AppendRuncmd(lines, command) == Ok(head + (body + [Item(BlockIndent(body), command)]) + rest)
    ensures Splits(head + (body + [Item(BlockIndent(body), command)]) + rest, RUNCMD,
                   head, body + [Item(BlockIndent(body), command)], rest)
    ensures BlockIndent(body + [Item(BlockIndent(body), command)]) == BlockIndent(body)
  {
    var indent := BlockIndent(body);
    var item := Item(indent, command);
    SplitDescribe(lines, RUNCMD, head, body, rest);
    assert lines[..|head| + |body|] == head + body;
    assert lines[|head| + |body|..] == rest;
    assert head + body + [item] + rest == head + (body + [item]) + rest;
    ItemFacts(indent, command);
    assert FirstIndent([item]) == Some(indent);
    SplitInsert(lines, RUNCMD, head, body, rest, [item]);
  }

  lemma HasLineAfterOne(head: seq<Line>, body: seq<Line>, rest: seq<Line>, indent: Line, command: Line, content: string)
    requires Blank(indent) && Proper(command)
    ensures HasLine(head + (body + [Item(indent, command)]) + rest, content) <==>
            HasLine(head + body + rest, content) || content == "- " + command
  {
    var item := Item(indent, command);
    ItemFacts(indent, command);
    HasLineConcat(head + (body + [item]), rest, content);
    HasLineConcat(head, body + [item], content);
    HasLineConcat(body, [item], content);
    HasLineConcat(head + body, rest, content);
    HasLineConcat(head, body, content);
    assert HasLine([item], content) <==> Strip([item][0]) == content;
  }

  /** The document with the missing commands at the end of its block. */
  function Appended(head: seq<Line>, body: seq<Line>, rest: seq<Line>,
                    missing: seq<Line>, commands: seq<Line>): seq<Line> {
    head + (body + Items(BlockIndent(body), missing)) + (if missing == commands then rest else TrimEmpty(rest))
  }

  lemma MissingAfterTrim(lines: seq<Line>, commands: seq<Line>)
    requires commands != [] && HasLine(lines, "- " + commands[0])
    ensures Missing(TrimEmpty(lines), commands[1..]) == Missing(lines, commands)
    ensures Missing(lines, commands) != commands
  {
    var others := commands[1..];
    forall i | 0 <= i < |others|
      ensures HasLine(TrimEmpty(lines), "- " + others[i]) == HasLine(lines, "- " + others[i])
    {
      HasLineTrim(lines, "- " + others[i]);
    }
    MissingFrom(TrimEmpty(lines), lines, others);
    MissingFits(lines, commands);
  }

  lemma MissingAfterOne(head: seq<Line>, body: seq<Line>, rest: seq<Line>, commands: seq<Line>)
    requires AllProper(commands) && Distinct(commands) && commands != []
    requires !HasLine(head + body + rest, "- " + commands[0])
    ensures Missing(head + body + rest, commands) ==
            [commands[0]] + Missing(head + (body + [Item(BlockIndent(body), commands[0])]) + rest, commands[1..])
  {
    var command, others := commands[0], commands[1..];
    assert Proper(command);
    var next := head + (body + [Item(BlockIndent(body), command)]) + rest;
    forall i | 0 <= i < |others|
      ensures HasLine(next, "- " + others[i]) == HasLine(head + body + rest, "- " + others[i])
    {
      HasLineAfterOne(head, body, rest, BlockIndent(body), command, "- " + others[i]);
      assert others[i] == commands[i + 1] != command;
      SameItem(others[i], command);
    }
    MissingFrom(next, head + body + rest, others);
  }

  lemma AppendPresent(lines: seq<Line>, command: Line)
    requires !Find(lines, RUNCMD).Flow? && HasLine(lines, "- " + command)
    ensures AppendRuncmd(lines, command) == Ok(TrimEmpty(lines))
  {
  }

  lemma AppendAllStep(lines: seq<Line>, commands: seq<Line>, next: seq<Line>)
    requires commands != [] && AppendRuncmd(lines, commands[0]) == Ok(next)
    ensures AppendAll(lines, commands) == AppendAll(next, commands[1..])
  {
  }

  /** Whatever the document holds, appending distinct commands adds exactly the missing
      ones, in order, at the end of the block; the empty lines at the document's end
      stay if and only if none of the commands was there before. */
  lemma {:induction false} AppendAllShape(
    lines: seq<Line>, head: seq<Line>, body: seq<Line>, rest: seq<Line>, commands: seq<Line>)
    requires Splits(lines, RUNCMD, head, body, rest)
    requires AllProper(commands) && Distinct(commands)
    ensures AppendAll(lines, commands) == Ok(Appended(head, body, rest, Missing(lines, commands), commands))
    decreases |commands|
  {
    if commands == [] {
      assert body + [] == body;
    } else if HasLine(lines, "- " + commands[0]) {
      AppendAllPresent(lines, head, body, rest, commands);
    } else {
      AppendAllAbsent(lines, head, body, rest, commands);
    }
  }

  lemma {:induction false} AppendAllPresent(
    lines: seq<Line>, head: seq<Line>, body: seq<Line>, rest: seq<Line>, commands: seq<Line>)
    requires Splits(lines, RUNCMD, head, body, rest)
    requires AllProper(commands) && Distinct(commands)
    requires commands != [] && HasLine(lines, "- " + commands[0])
    ensures AppendAll(lines, commands) == Ok(Appended(head, body, rest, Missing(lines, commands), commands))
    decreases |commands|, 0
  {
    var trimmed := TrimEmpty(lines);
    SplitDescribe(lines, RUNCMD, head, body, rest);
    SplitTrim(lines, RUNCMD, head, body, rest);
    AppendPresent(lines, commands[0]);
    AppendAllStep(lines, commands, trimmed);
    AppendAllShape(trimmed, head, body, TrimEmpty(rest), commands[1..]);
    TrimIsPrefix(rest);
    MissingAfterTrim(lines, commands);
  }

  lemma {:induction false} AppendAllAbsent(
    lines: seq<Line>, head: seq<Line>, body: seq<Line>, rest: seq<Line>, commands: seq<Line>)
    requires Splits(lines, RUNCMD, head, body, rest)
    requires AllProper(commands) && Distinct(commands)
    requires commands != [] && !HasLine(lines, "- " + commands[0])
    ensures AppendAll(lines, commands) == Ok(Appended(head, body, rest, Missing(lines, commands), commands))
    decreases |commands|, 0
  {
    var command, others := commands[0], commands[1..];
    assert Proper(command);
    var longer := body + [Item(BlockIndent(body), command)];
    AppendOne(lines, head, body, rest, command);
    var next := head + longer + rest;
    AppendAllStep(lines, commands, next);
    AppendAllShape(next, head, longer, rest, others);
    MissingAfterOne(head, body, rest, commands);
    AppendedCons(head, body, rest, command, Missing(next, others), others);
    assert [command] + others == commands;
  }

  lemma AppendedCons(head: seq<Line>, body: seq<Line>, rest: seq<Line>, command: Line, missing: seq<Line>,
                     others: seq<Line>)
    requires BlockIndent(body + [Item(BlockIndent(body), command)]) == BlockIndent(body)
    ensures Appended(head, body + [Item(BlockIndent(body), command)], rest, missing, others) ==
            Appended(head, body, rest, [command] + missing, [command] + others)
  {
    var indent := BlockIndent(body);
    var item := Item(indent, command);
    assert ([command] + missing)[1..] == missing && ([command] + others)[1..] == others;
    assert body + [item] + Items(indent, missing) == body + ([item] + Items(indent, missing));
  }
}
