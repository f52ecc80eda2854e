/** Reading the installed files back from the document a whole run leaves. */
module InstalledFiles {
  import opened Outcomes
  import opened Text
  import opened SequenceBlock
  import opened DocumentLines
  import opened WriteFiles
  import opened AppendFacts
  import opened OtherBlocks
  import opened LiteralBlock
  import opened ScalarEnds
  import opened ModeCommands
  import opened ModePinning
  import opened UserDataRuns
  import opened RunOutcome

  /** The content's last line is not blank, so that the next entry lines up behind it. */
  predicate Firm(f: ToolFile) {
    var content := SplitLines(f.content);
    content != [] && !Blank(content[|content| - 1])
  }

  predicate AllFirm(files: seq<ToolFile>) {
    forall i | 0 <= i < |files| :: Firm(files[i])
  }

  // ---------------------------------------------------------------------
  // An entry, and the blank lines at its end
  // ---------------------------------------------------------------------

  function Rendered(f: ToolFile, indent: Line): seq<Line> {
    BodyLines(indent + "    ", SplitLines(f.content))
  }

  /** The lines of the content that stay in the block. */
  function Kept(f: ToolFile, indent: Line): seq<Line> {
    TrimBlank(Rendered(f, indent))
  }

  /** The blank lines at the content's end, which fall behind the block. */
  function Tail(f: ToolFile, indent: Line): seq<Line> {
    Rendered(f, indent)[|Kept(f, indent)|..]
  }

  function Core(f: ToolFile, indent: Line): seq<Line> {
    EntryHead(f, indent) + Kept(f, indent)
  }

  function Cores(files: seq<ToolFile>, indent: Line): seq<Line> {
    if files == [] then [] else Core(files[0], indent) + Cores(files[1..], indent)
  }

  /** What the entries leave behind the block, the last one's blank lines first. */
  function Tails(files: seq<ToolFile>, indent: Line): seq<Line> {
    if files == [] then [] else Tails(files[1..], indent) + Tail(files[0], indent)
  }

  lemma {:induction false} CoresConcat(a: seq<ToolFile>, b: seq<ToolFile>, indent: Line)
    ensures Cores(a + b, indent) == Cores(a, indent) + Cores(b, indent)
  {
    if a == [] {
      assert a + b == b;
    } else {
      assert (a + b)[1..] == a[1..] + b;
      CoresConcat(a[1..], b, indent);
    }
  }

  lemma {:induction false} TailsConcat(a: seq<ToolFile>, b: seq<ToolFile>, indent: Line)
    ensures Tails(a + b, indent) == Tails(b, indent) + Tails(a, indent)
  {
    if a == [] {
      assert a + b == b;
      NoEntries(Tails(b, indent), []);
    } else {
      assert (a + b)[0] == a[0] && (a + b)[1..] == a[1..] + b;
      TailsConcat(a[1..], b, indent);
      Concat3(Tails(b, indent), Tails(a[1..], indent), Tail(a[0], indent));
    }
  }

  lemma {:induction false} TailsAreBlank(files: seq<ToolFile>, indent: Line)
    ensures AllBlank(Tails(files, indent))
  {
    if files != [] {
      TailsAreBlank(files[1..], indent);
    }
  }

  lemma {:induction false} TrimBlankKeepsFront(a: seq<Line>, b: seq<Line>)
    requires a != [] && !Blank(a[|a| - 1])
    ensures TrimBlank(a + b) == a + TrimBlank(b)
    decreases |b|
  {
    if b == [] {
      assert a + b == a;
    } else if Blank(b[|b| - 1]) {
      assert (a + b)[..|a + b| - 1] == a + b[..|b| - 1];
      TrimBlankKeepsFront(a, b[..|b| - 1]);
    }
  }

  lemma HeadEndsFull(f: ToolFile, indent: Line)
    requires Blank(indent)
    ensures |EntryHead(f, indent)| == 4 && !Blank(EntryHead(f, indent)[3])
  {
    ContentLine(indent, EntryHead(f, indent)[3]);
    BlankStrip(EntryHead(f, indent)[3]);
  }

  lemma EntryParts(f: ToolFile, indent: Line)
    requires Installable(f) && Blank(indent)
    ensures EntryLines(f, indent) == Core(f, indent) + Tail(f, indent)
    ensures Inserted(f, indent) == EntryLines(f, indent)
    ensures TrimBlank(EntryLines(f, indent)) == Core(f, indent)
  {
    EntryShape(f, indent);
    HeadEndsFull(f, indent);
    CutAtBlanks(EntryHead(f, indent), Rendered(f, indent), Kept(f, indent), Tail(f, indent));
  }

  lemma CutAtBlanks(top: seq<Line>, rendered: seq<Line>, kept: seq<Line>, tail: seq<Line>)
    requires top != [] && !Blank(top[|top| - 1])
    requires kept == TrimBlank(rendered) && tail == rendered[|kept|..]
    ensures top + rendered == (top + kept) + tail && TrimBlank(top + rendered) == top + kept
  {
    TrimBlankKeepsFront(top, rendered);
    assert rendered == kept + tail;
    Concat3(top, kept, tail);
  }

  lemma CoreFacts(f: ToolFile, indent: Line)
    requires Installable(f) && Blank(indent)
    ensures AllInBlock(Core(f, indent)) && Core(f, indent) != []
    ensures !Blank(Core(f, indent)[|Core(f, indent)| - 1]) && FirstIndent(Core(f, indent)) == Some(indent)
  {
    EntryParts(f, indent);
    EntryIsBlock(f, indent);
    assert Core(f, indent) == TrimBlank(Inserted(f, indent));
  }

  lemma {:induction false} RenderedLast(pad: Line, content: seq<Line>)
    requires Blank(pad) && content != []
    ensures |BodyLines(pad, content)| == |content|
    ensures Blank(BodyLines(pad, content)[|content| - 1]) <==> Blank(content[|content| - 1])
  {
    var line, last := BodyLine(pad, content[0]), content[0];
    if |content| == 1 {
      assert BodyLines(pad, content[1..]) == [];
      assert last != "" ==> forall i | 0 <= i < |last| :: line[|pad| + i] == last[i];
    } else {
      RenderedLast(pad, content[1..]);
    }
  }

  /** Nothing falls behind the block if and only if the last line is not blank. */
  lemma TailIff(f: ToolFile, indent: Line)
    requires Installable(f) && Blank(indent)
    ensures Tail(f, indent) == [] <==> Firm(f)
    ensures |Rendered(f, indent)| == |SplitLines(f.content)|
  {
    RenderedLast(indent + "    ", SplitLines(f.content));
    TrimBlankAll(Rendered(f, indent));
  }

  // ---------------------------------------------------------------------
  // The `write_files` block after the files
  // ---------------------------------------------------------------------

  lemma FileExtends(lines: seq<Line>, f: ToolFile, head: seq<Line>, body: seq<Line>, rest: seq<Line>)
    requires Splits(lines, WRITE_FILES, head, body, rest) && Installable(f) && !HasLine(lines, Marker(f))
    ensures AppendWriteFile(lines, f).Ok?
    ensures Splits(AppendWriteFile(lines, f).value, WRITE_FILES,
                   head, body + Core(f, BlockIndent(body)), Tail(f, BlockIndent(body)) + rest)
    ensures BlockIndent(body + Core(f, BlockIndent(body))) == BlockIndent(body)
  {
    var indent := BlockIndent(body);
    InstallInserts(lines, head, body, rest, f);
    EntryParts(f, indent);
    CoreFacts(f, indent);
    ExtendedSplits(lines, head, body, rest, Core(f, indent), Tail(f, indent), EntryLines(f, indent));
  }

  lemma ExtendedSplits(lines: seq<Line>, head: seq<Line>, body: seq<Line>, rest: seq<Line>,
                       core: seq<Line>, tail: seq<Line>, entry: seq<Line>)
    requires Splits(lines, WRITE_FILES, head, body, rest) && entry == core + tail && AllBlank(tail)
    requires AllInBlock(core) && core != [] && !Blank(core[|core| - 1])
    requires FirstIndent(core) == Some(BlockIndent(body))
    ensures Splits(head + body + entry + rest, WRITE_FILES, head, body + core, tail + rest)
    ensures BlockIndent(body + core) == BlockIndent(body)
  {
    var longer, behind := body + core, tail + rest;
    CutEntry(head, body, core, tail, rest, entry, longer, behind);
    BlockLenOfBlanks(tail, rest);
    LongerBlock(body, core, longer);
  }

  /** The files that are new stand in the block one behind another, after what it held, and
      the blank lines at their ends behind the block. */
  lemma {:induction false} FilesExtend(
    lines: seq<Line>, seen: seq<Line>, files: seq<ToolFile>, head: seq<Line>, body: seq<Line>, rest: seq<Line>)
    returns (newRest: seq<Line>)
    requires Splits(lines, WRITE_FILES, head, body, rest) && SameItems(lines, seen) && AllInstallable(files)
    ensures AddFiles(lines, files).Ok?
    ensures Splits(AddFiles(lines, files).value, WRITE_FILES,
                   head, body + Cores(NewFiles(seen, files), BlockIndent(body)), newRest)
    ensures Margin(newRest) == Margin(Tails(NewFiles(seen, files), BlockIndent(body)) + rest)
    decreases |files|
  {
    var indent := BlockIndent(body);
    if files == [] {
      NoEntries(body, rest);
      newRest := rest;
    } else {
      var f, others := files[0], files[1..];
      var next := if HasLine(seen, Marker(f)) then seen else seen + FileText(f);
      SplitDescribe(lines, WRITE_FILES, head, body, rest);
      FileFollows(lines, seen, f);
      if HasLine(seen, Marker(f)) {
        SplitTrim(lines, WRITE_FILES, head, body, rest);
        MarginTrim(rest);
        newRest := FilesExtend(TrimEmpty(lines), next, others, head, body, TrimEmpty(rest));
        TailsAreBlank(NewFiles(next, others), indent);
        MarginUnder(Tails(NewFiles(next, others), indent), TrimEmpty(rest), rest);
      } else {
        var longer := body + Core(f, indent);
        FileExtends(lines, f, head, body, rest);
        newRest := FilesExtend(AppendWriteFile(lines, f).value, next, others, head, longer, Tail(f, indent) + rest);
        EntriesMore(body, f, NewFiles(next, others), indent, longer, rest);
      }
    }
  }

  lemma NoEntries(body: seq<Line>, rest: seq<Line>)
    ensures body + [] == body && [] + rest == rest
  {
  }

  lemma EntriesMore(body: seq<Line>, f: ToolFile, others: seq<ToolFile>, indent: Line, longer: seq<Line>,
                    rest: seq<Line>)
    requires longer == body + Core(f, indent)
    ensures longer + Cores(others, indent) == body + Cores([f] + others, indent)
    ensures Tails(others, indent) + (Tail(f, indent) + rest) == Tails([f] + others, indent) + rest
  {
    assert ([f] + others)[1..] == others;
    Concat3(body, Core(f, indent), Cores(others, indent));
    Concat3(Tails(others, indent), Tail(f, indent), rest);
  }

  /** Without the key, the first new file makes it at the document's end. */
  lemma {:induction false} FilesMake(lines: seq<Line>, seen: seq<Line>, files: seq<ToolFile>)
    returns (head: seq<Line>, newRest: seq<Line>)
    requires Find(lines, WRITE_FILES).Absent? && SameItems(lines, seen) && AllInstallable(files)
    requires NewFiles(seen, files) != []
    ensures AddFiles(lines, files).Ok?
    ensures Splits(AddFiles(lines, files).value, WRITE_FILES,
                   head, Cores(NewFiles(seen, files), DEFAULT_ITEM_INDENT), newRest)
    ensures Margin(newRest) == Margin(Tails(NewFiles(seen, files), DEFAULT_ITEM_INDENT))
    decreases |files|
  {
    var f, others := files[0], files[1..];
    var next := if HasLine(seen, Marker(f)) then seen else seen + FileText(f);
    KeysApart();
    FileFollows(lines, seen, f);
    if HasLine(seen, Marker(f)) {
      FindTrim(lines, WRITE_FILES);
      head, newRest := FilesMake(TrimEmpty(lines), next, others);
    } else {
      head, newRest := FirstMakes(lines, f, next, others);
    }
  }

  lemma FirstMakes(lines: seq<Line>, f: ToolFile, next: seq<Line>, others: seq<ToolFile>)
    returns (head: seq<Line>, newRest: seq<Line>)
    requires Find(lines, WRITE_FILES).Absent? && Installable(f) && !HasLine(lines, Marker(f)) && AllInstallable(others)
    requires AppendWriteFile(lines, f).Ok? ==> SameItems(AppendWriteFile(lines, f).value, next)
    ensures AppendWriteFile(lines, f).Ok? && AddFiles(AppendWriteFile(lines, f).value, others).Ok?
    ensures Splits(AddFiles(AppendWriteFile(lines, f).value, others).value, WRITE_FILES,
                   head, Cores([f] + NewFiles(next, others), DEFAULT_ITEM_INDENT), newRest)
    ensures Margin(newRest) == Margin(Tails([f] + NewFiles(next, others), DEFAULT_ITEM_INDENT))
  {
    var indent, added := DEFAULT_ITEM_INDENT, NewFiles(next, others);
    head := FileMakes(lines, f);
    CoreFacts(f, indent);
    newRest := FilesExtend(AppendWriteFile(lines, f).value, next, others, head, Core(f, indent), Tail(f, indent));
    EntriesMore([], f, added, indent, Core(f, indent), []);
    NoEntries(Tails([f] + added, indent), Cores([f] + added, indent));
    NoEntries(Tail(f, indent), []);
  }

  lemma FileMakes(lines: seq<Line>, f: ToolFile) returns (head: seq<Line>)
    requires Find(lines, WRITE_FILES).Absent? && Installable(f) && !HasLine(lines, Marker(f))
    ensures AppendWriteFile(lines, f).Ok?
    ensures Splits(AppendWriteFile(lines, f).value, WRITE_FILES,
                   head, Core(f, DEFAULT_ITEM_INDENT), Tail(f, DEFAULT_ITEM_INDENT))
  {
    EntryParts(f, DEFAULT_ITEM_INDENT);
    CoreFacts(f, DEFAULT_ITEM_INDENT);
    head := EntryMakes(lines, Core(f, DEFAULT_ITEM_INDENT), Tail(f, DEFAULT_ITEM_INDENT),
                       EntryLines(f, DEFAULT_ITEM_INDENT));
  }

  lemma EntryMakes(lines: seq<Line>, core: seq<Line>, tail: seq<Line>, entry: seq<Line>) returns (head: seq<Line>)
    requires Find(lines, WRITE_FILES).Absent? && entry == core + tail && AllBlank(tail)
    requires AllInBlock(core) && core != [] && !Blank(core[|core| - 1])
    ensures Splits(AppendBlock(lines, [WRITE_FILES + ":"] + entry), WRITE_FILES, head, core, tail)
  {
    head := AppendBlock(lines, [WRITE_FILES + ":"]);
    KeysApart();
    NewKeySplits(lines, WRITE_FILES);
    AppendBlockConcat(lines, [WRITE_FILES + ":"], entry);
    FirstEntry(head, core, tail, head + entry);
  }

  lemma FirstEntry(head: seq<Line>, core: seq<Line>, tail: seq<Line>, lines: seq<Line>)
    requires Splits(head, WRITE_FILES, head, [], []) && lines == head + (core + tail) && AllBlank(tail)
    requires AllInBlock(core) && core != [] && !Blank(core[|core| - 1])
    ensures Splits(lines, WRITE_FILES, head, core, tail)
  {
    BlockLenOfBlanks(tail, []);
    assert tail + [] == tail;
    Concat3(head, core, tail);
  }

  // ---------------------------------------------------------------------
  // The same block after the commands
  // ---------------------------------------------------------------------

  lemma CommandKeepsFiles(lines: seq<Line>, command: Line, head: seq<Line>, body: seq<Line>, rest: seq<Line>)
    returns (newHead: seq<Line>, newRest: seq<Line>)
    requires AppendRuncmd(lines, command).Ok? && Proper(command)
    requires Splits(lines, WRITE_FILES, head, body, rest)
    ensures Splits(AppendRuncmd(lines, command).value, WRITE_FILES, newHead, body, newRest)
    ensures Margin(newRest) == Margin(rest)
  {
    var entry, initial := [Item(IndentFor(lines, RUNCMD), command)], [Item(DEFAULT_ITEM_INDENT, command)];
    KeysApart();
    ItemFacts(IndentFor(lines, RUNCMD), command);
    newHead, newRest := OtherAfterAppend(lines, RUNCMD, "- " + command, entry, initial, WRITE_FILES, head, body, rest);
  }

  lemma {:induction false} CommandsKeepFiles(
    lines: seq<Line>, commands: seq<Line>, head: seq<Line>, body: seq<Line>, rest: seq<Line>)
    returns (newHead: seq<Line>, newRest: seq<Line>)
    requires AppendAll(lines, commands).Ok? && AllProper(commands)
    requires Splits(lines, WRITE_FILES, head, body, rest)
    ensures Splits(AppendAll(lines, commands).value, WRITE_FILES, newHead, body, newRest)
    ensures Margin(newRest) == Margin(rest)
    decreases |commands|
  {
    newHead, newRest := head, rest;
    if commands != [] {
      assert Proper(commands[0]);
      newHead, newRest := CommandKeepsFiles(lines, commands[0], head, body, rest);
      newHead, newRest :=
          CommandsKeepFiles(AppendRuncmd(lines, commands[0]).value, commands[1..], newHead, body, newRest);
    }
  }

  lemma DropKeepsFiles(lines: seq<Line>, superseded: set<Line>, head: seq<Line>, body: seq<Line>, rest: seq<Line>)
    returns (newHead: seq<Line>, newRest: seq<Line>)
    requires DropItems(lines, superseded).Ok?
    requires Splits(lines, WRITE_FILES, head, body, rest)
    ensures Splits(DropItems(lines, superseded).value, WRITE_FILES, newHead, body, newRest)
    ensures Margin(newRest) == Margin(rest)
  {
    KeysApart();
    if Find(lines, RUNCMD).At? {
      var runHead, runBody, runRest := SplitExists(lines, RUNCMD);
      DropAt(lines, runHead, runBody, runRest, superseded);
      WithoutKeepsBlock(runBody, AsItems(superseded));
      newHead, newRest := OtherKept(runHead, runBody, runRest, RUNCMD, Without(runBody, AsItems(superseded)),
                                    WRITE_FILES, head, body, rest);
    } else {
      SplitTrim(lines, WRITE_FILES, head, body, rest);
      MarginTrim(rest);
      NotAllBlank(lines, head, body, rest);
      newHead, newRest := head, TrimEmpty(rest);
    }
  }

  lemma NotAllBlank(lines: seq<Line>, head: seq<Line>, body: seq<Line>, rest: seq<Line>)
    requires Splits(lines, WRITE_FILES, head, body, rest) && PlainKey(WRITE_FILES)
    ensures !AllBlank(lines)
  {
    KeyLineCloses(head[|head| - 1], WRITE_FILES);
    assert lines[|head| - 1] == head[|head| - 1];
  }

  lemma CommandPartKeepsFiles(lines: seq<Line>, mode: Mode, head: seq<Line>, body: seq<Line>, rest: seq<Line>)
    returns (newHead: seq<Line>, newRest: seq<Line>)
    requires AppendRuncmd(lines, GADGET_RUNCMD).Ok? && PinMode(AppendRuncmd(lines, GADGET_RUNCMD).value, mode).Ok?
    requires Splits(lines, WRITE_FILES, head, body, rest)
    ensures Splits(PinMode(AppendRuncmd(lines, GADGET_RUNCMD).value, mode).value, WRITE_FILES, newHead, body, newRest)
    ensures Margin(newRest) == Margin(rest)
  {
    var enabled := AppendRuncmd(lines, GADGET_RUNCMD).value;
    ProperGadget();
    ModeListsAreSound(mode);
    newHead, newRest := CommandKeepsFiles(lines, GADGET_RUNCMD, head, body, rest);
    newHead, newRest := DropKeepsFiles(enabled, Superseded(mode), newHead, body, newRest);
    newHead, newRest := CommandsKeepFiles(
      DropItems(enabled, Superseded(mode)).value, Wanted(mode), newHead, body, newRest);
  }

  // ---------------------------------------------------------------------
  // Reading the entries back
  // ---------------------------------------------------------------------

  /** Where the k-th of the entries stands, and what follows it. */
  lemma CoreAt(front: seq<Line>, files: seq<ToolFile>, indent: Line, rest: seq<Line>, k: nat)
    returns (before: seq<Line>)
    requires k < |files|
    ensures front + Cores(files, indent) + rest ==
            before + (Core(files[k], indent) + (Cores(files[k + 1..], indent) + rest))
  {
    var f, a, b := files[k], files[..k], files[k + 1..];
    before := front + Cores(a, indent);
    assert files == a + ([f] + b);
    CoresConcat(a, [f] + b, indent);
    assert ([f] + b)[1..] == b;
    FourParts(front, Cores(a, indent), Core(f, indent), Cores(b, indent), rest);
  }

  lemma FourParts(a: seq<Line>, b: seq<Line>, c: seq<Line>, d: seq<Line>, e: seq<Line>)
    ensures a + (b + (c + d)) + e == (a + b) + (c + (d + e))
  {
    Concat3(a, b, c + d);
    Concat3(a + b, c + d, e);
    Concat3(c, d, e);
  }

  lemma CutBehind(doc: seq<Line>, before: seq<Line>, top: seq<Line>, kept: seq<Line>, behind: seq<Line>)
    requires doc == before + ((top + kept) + behind) && |top| == 4
    ensures var at := |before| + 4;
            at <= |doc| && doc[at - 4..at] == top && doc[at..] == kept + behind
  {
  }

  /** The first line of the next entry: no scalar goes on through it. */
  lemma NextLine(f: ToolFile, indent: Line, more: seq<Line>) returns (line: Line, others: seq<Line>)
    requires Blank(indent)
    ensures Core(f, indent) + more == [line] + others
    ensures !OnlySpaces(line) && Spaces(line) <= |indent|
  {
    line := indent + "- path: " + f.path;
    others := Core(f, indent)[1..] + more;
    assert Core(f, indent)[0] == line;
    assert line == indent + Marker(f) && Marker(f)[0] == '-';
    assert line[|indent|] == '-';
    SpacesUpTo(line, |indent|);
  }

  lemma {:induction false} SpacesUpTo(line: Line, k: nat)
    requires k < |line| && line[k] != ' '
    ensures Spaces(line) <= k && !OnlySpaces(line)
  {
    if k > 0 && line[0] == ' ' {
      SpacesUpTo(line[1..], k - 1);
    }
  }

  /** An entry with another behind it is read back if and only if its content can be and
      its last line is not blank, for then the other splits the content. */
  lemma FollowedReadsBack(f: ToolFile, other: ToolFile, indent: Line, more: seq<Line>)
    requires Installable(f) && Blank(indent)
    ensures Decode(Kept(f, indent) + (Core(other, indent) + more), |indent| + 2) == Some(f.content) <==>
            && OnlySpaces(indent) && Terminated(f.content) && TextLed(SplitLines(f.content)) && Firm(f)
  {
    var line, others := NextLine(other, indent, more);
    TailIff(f, indent);
    if Firm(f) {
      RenderedReadsBack(f, indent, [line] + others);
      EndsAt(line, others, |indent| + 4);
      assert Kept(f, indent) == Rendered(f, indent);
    } else {
      CutIsLost(Kept(f, indent), line, others, |indent| + 2, f.content);
    }
  }

  lemma EndsAt(line: Line, others: seq<Line>, n: nat)
    requires !OnlySpaces(line) && Spaces(line) < n
    ensures EndsScalar([line] + others, n)
  {
  }

  lemma RenderedReadsBack(f: ToolFile, indent: Line, rest: seq<Line>)
    requires Installable(f) && Blank(indent)
    ensures Decode(Rendered(f, indent) + rest, |indent| + 2) == Some(f.content) <==>
            && OnlySpaces(indent) && Terminated(f.content) && TextLed(SplitLines(f.content))
            && EndsScalar(rest, |indent| + 4)
  {
    assert IsBody(Rendered(f, indent), f.content, indent);
    assert f.content != "";
    ContentDecodesIff(Rendered(f, indent), f.content, rest, indent);
  }

  lemma {:induction false} RenderedIsDeep(pad: Line, content: seq<Line>)
    requires OnlySpaces(pad) && pad != ""
    ensures |BodyLines(pad, content)| == |content|
    ensures forall i | 0 <= i < |content| :: Deep(BodyLines(pad, content)[i], |pad|)
    ensures content != [] && !EndsEmpty(content) ==> BodyLines(pad, content)[|content| - 1] != ""
  {
    if content != [] {
      RenderedIsDeep(pad, content[1..]);
      ScalarLine(pad, content[0]);
    }
  }

  /** The blank lines an entry leaves behind the block keep a scalar before them going. */
  lemma TailEnds(f: ToolFile, indent: Line, rest: seq<Line>)
    requires Installable(f) && OnlySpaces(indent)
    ensures EndsScalar(Tail(f, indent) + rest, |indent| + 4) <==> Firm(f) && EndsScalar(rest, |indent| + 4)
  {
    TailIff(f, indent);
    if Firm(f) {
      NoEntries([], rest);
    } else {
      TailIsDeep(indent + "    ", SplitLines(f.content), |Kept(f, indent)|, Tail(f, indent));
      DeepGoesOn(Tail(f, indent), rest, |indent| + 4);
    }
  }

  lemma TailIsDeep(pad: Line, content: seq<Line>, from: nat, tail: seq<Line>)
    requires OnlySpaces(pad) && pad != "" && content != [] && !EndsEmpty(content)
    requires from < |BodyLines(pad, content)| && tail == BodyLines(pad, content)[from..]
    ensures forall i | 0 <= i < |tail| :: Deep(tail[i], |pad|)
    ensures tail[|tail| - 1] != ""
  {
    RenderedIsDeep(pad, content);
    assert forall i | 0 <= i < |tail| :: tail[i] == BodyLines(pad, content)[from + i];
  }

  lemma {:induction false} TailsEnd(files: seq<ToolFile>, indent: Line, rest: seq<Line>)
    requires AllInstallable(files) && OnlySpaces(indent)
    ensures EndsScalar(Tails(files, indent) + rest, |indent| + 4) <==>
            AllFirm(files) && EndsScalar(rest, |indent| + 4)
  {
    if files == [] {
      assert [] + rest == rest;
    } else {
      var f, others := files[0], files[1..];
      TailsEnd(others, indent, Tail(f, indent) + rest);
      TailEnds(f, indent, rest);
      Concat3(Tails(others, indent), Tail(f, indent), rest);
      assert forall i | 0 < i < |files| :: files[i] == others[i - 1];
    }
  }

  /** The last entry is read back if and only if its content can be, no entry before it
      left blank lines behind the block, and what was there ends the scalar. */
  lemma LastReadsBack(earlier: seq<ToolFile>, f: ToolFile, indent: Line, rest: seq<Line>, behind: seq<Line>)
    requires AllInstallable(earlier) && Installable(f) && Blank(indent)
    requires BlockLen(rest) == 0 && BlockLen(behind) == 0
    requires Margin(behind) == Margin(Tails(earlier + [f], indent) + rest)
    ensures Decode(Kept(f, indent) + behind, |indent| + 2) == Some(f.content) <==>
            && OnlySpaces(indent) && Terminated(f.content) && TextLed(SplitLines(f.content))
            && AllFirm(earlier) && EndsScalar(rest, |indent| + 4)
  {
    var kept, tail, tails := Kept(f, indent), Tail(f, indent), Tails(earlier, indent);
    var all := tail + (tails + rest);
    TailsConcat(earlier, [f], indent);
    LastTails(f, earlier, indent, rest);
    TailsAreBlank(earlier, indent);
    BlockLenOfBlanks(tails, rest);
    BlockLenOfBlanks(tail, tails + rest);
    DecodeByMargin(kept, behind, |indent| + 2);
    DecodeByMargin(kept, all, |indent| + 2);
    assert kept + tail == Rendered(f, indent);
    Concat3(kept, tail, tails + rest);
    RenderedReadsBack(f, indent, tails + rest);
    if OnlySpaces(indent) {
      TailsEnd(earlier, indent, rest);
    }
  }

  lemma LastTails(f: ToolFile, earlier: seq<ToolFile>, indent: Line, rest: seq<Line>)
    ensures Tails([f], indent) + Tails(earlier, indent) + rest == Tail(f, indent) + (Tails(earlier, indent) + rest)
  {
    assert [f][1..] == [];
    NoEntries(Tail(f, indent), Tail(f, indent));
    Concat3(Tail(f, indent), Tails(earlier, indent), rest);
  }

  /** When the k-th of the entries a run installs is read back from what the run leaves. */
  predicate ComesBack(files: seq<ToolFile>, k: nat, indent: Line, rest: seq<Line>)
    requires k < |files|
  {
    && OnlySpaces(indent) && Terminated(files[k].content) && TextLed(SplitLines(files[k].content))
    && if k + 1 < |files| then Firm(files[k]) else AllFirm(files[..k]) && EndsScalar(rest, |indent| + 4)
  }

  lemma EntryReadsBack(doc: seq<Line>, front: seq<Line>, files: seq<ToolFile>, indent: Line,
                       rest: seq<Line>, behind: seq<Line>, k: nat)
    returns (at: nat)
    requires k < |files| && AllInstallable(files) && Blank(indent)
    requires BlockLen(rest) == 0 && BlockLen(behind) == 0
    requires Margin(behind) == Margin(Tails(files, indent) + rest)
    requires doc == front + Cores(files, indent) + behind
    ensures 4 <= at <= |doc| && doc[at - 4..at] == EntryHead(files[k], indent)
    ensures Decode(doc[at..], |indent| + 2) == Some(files[k].content) <==> ComesBack(files, k, indent, rest)
  {
    var f := files[k];
    var before := CoreAt(front, files, indent, behind, k);
    at := |before| + 4;
    HeadLength(f, indent);
    CutBehind(doc, before, EntryHead(f, indent), Kept(f, indent), Cores(files[k + 1..], indent) + behind);
    KeptReadsBack(files, indent, rest, behind, k);
  }

  lemma KeptReadsBack(files: seq<ToolFile>, indent: Line, rest: seq<Line>, behind: seq<Line>, k: nat)
    requires k < |files| && AllInstallable(files) && Blank(indent)
    requires BlockLen(rest) == 0 && BlockLen(behind) == 0
    requires Margin(behind) == Margin(Tails(files, indent) + rest)
    ensures var read := Decode(Kept(files[k], indent) + (Cores(files[k + 1..], indent) + behind), |indent| + 2);
            read == Some(files[k].content) <==> ComesBack(files, k, indent, rest)
  {
    var others := files[k + 1..];
    if k + 1 < |files| {
      assert Installable(files[k]);
      FollowedAt(files[k], others, indent, behind);
    } else {
      SplitLast(files, k);
      NoEntries([], behind);
      LastReadsBack(files[..k], files[k], indent, rest, behind);
    }
  }

  lemma SplitLast(files: seq<ToolFile>, k: nat)
    requires k + 1 == |files| && AllInstallable(files)
    ensures files == files[..k] + [files[k]] && files[k + 1..] == []
    ensures AllInstallable(files[..k]) && Installable(files[k])
  {
  }

  lemma FollowedAt(f: ToolFile, others: seq<ToolFile>, indent: Line, behind: seq<Line>)
    requires Installable(f) && others != [] && Blank(indent)
    ensures Decode(Kept(f, indent) + (Cores(others, indent) + behind), |indent| + 2) == Some(f.content) <==>
            && OnlySpaces(indent) && Terminated(f.content) && TextLed(SplitLines(f.content)) && Firm(f)
  {
    Concat3(Core(others[0], indent), Cores(others[1..], indent), behind);
    FollowedReadsBack(f, others[0], indent, Cores(others[1..], indent) + behind);
  }

  lemma {:induction false} NewAreInstallable(seen: seq<Line>, files: seq<ToolFile>)
    requires AllInstallable(files)
    ensures AllInstallable(NewFiles(seen, files))
    decreases |files|
  {
    if files != [] {
      var f, others := files[0], files[1..];
      var next := if HasLine(seen, Marker(f)) then seen else seen + FileText(f);
      NewAreInstallable(next, others);
      assert Installable(f);
    }
  }

  /** After a whole run, on a document that has the key: each file the run installed is read
      back from the final document if and only if its content can be, the block is indented
      by spaces, and this holds. If another entry follows it, its last line is not blank. If
      none does, no entry before it ends in a blank line, and what followed the block at the
      start ends the scalar. */
  lemma InstalledFilesReadBack(lines: seq<Line>, files: seq<ToolFile>, mode: Mode,
                               head: seq<Line>, body: seq<Line>, rest: seq<Line>, k: nat)
    returns (at: nat)
    requires Setup(lines, files, mode).Ok? && AllInstallable(files)
    requires Splits(lines, WRITE_FILES, head, body, rest) && k < |NewFiles(lines, files)|
    ensures var final, f, indent := Setup(lines, files, mode).value, NewFiles(lines, files)[k], BlockIndent(body);
            && 4 <= at <= |final| && final[at - 4..at] == EntryHead(f, indent)
            && (Decode(final[at..], |indent| + 2) == Some(f.content) <==>
                ComesBack(NewFiles(lines, files), k, indent, rest))
  {
    var installed, indent := NewFiles(lines, files), BlockIndent(body);
    var newRest := FilesExtend(lines, lines, files, head, body, rest);
    var newHead, lastRest := CommandPartKeepsFiles(
      AddFiles(lines, files).value, mode, head, body + Cores(installed, indent), newRest);
    Concat3(newHead, body, Cores(installed, indent));
    NewAreInstallable(lines, files);
    at := EntryReadsBack(Setup(lines, files, mode).value, newHead + body, installed, indent, rest, lastRest, k);
  }

  /** On a document without the key nothing follows the block that the run makes. */
  lemma MadeFilesReadBack(lines: seq<Line>, files: seq<ToolFile>, mode: Mode, k: nat) returns (at: nat)
    requires Setup(lines, files, mode).Ok? && AllInstallable(files)
    requires Find(lines, WRITE_FILES).Absent? && k < |NewFiles(lines, files)|
    ensures var final, f := Setup(lines, files, mode).value, NewFiles(lines, files)[k];
            && 4 <= at <= |final| && final[at - 4..at] == EntryHead(f, DEFAULT_ITEM_INDENT)
            && (Decode(final[at..], |DEFAULT_ITEM_INDENT| + 2) == Some(f.content) <==>
                ComesBack(NewFiles(lines, files), k, DEFAULT_ITEM_INDENT, []))
  {
    var final, installed := Setup(lines, files, mode).value, NewFiles(lines, files);
    var front, behind := MadeBlock(lines, files, mode);
    NewAreInstallable(lines, files);
    at := EntryReadsBack(final, front, installed, DEFAULT_ITEM_INDENT, [], behind, k);
  }

  lemma MadeBlock(lines: seq<Line>, files: seq<ToolFile>, mode: Mode) returns (front: seq<Line>, behind: seq<Line>)
    requires Setup(lines, files, mode).Ok? && AllInstallable(files)
    requires Find(lines, WRITE_FILES).Absent? && NewFiles(lines, files) != []
    ensures Setup(lines, files, mode).value == front + Cores(NewFiles(lines, files), DEFAULT_ITEM_INDENT) + behind
    ensures BlockLen(behind) == 0 && BlockLen([]) == 0
    ensures Margin(behind) == Margin(Tails(NewFiles(lines, files), DEFAULT_ITEM_INDENT) + [])
  {
    var cores := Cores(NewFiles(lines, files), DEFAULT_ITEM_INDENT);
    var head, newRest := FilesMake(lines, lines, files);
    front, behind := CommandPartKeepsFiles(AddFiles(lines, files).value, mode, head, cores, newRest);
    NoEntries(Tails(NewFiles(lines, files), DEFAULT_ITEM_INDENT), []);
  }
}
