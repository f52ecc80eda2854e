/** Reading back an installed file's content by the literal block scalar rules of
    YAML 1.2.2: sections 8.1.1.1 (indentation), 8.1.1.2 (clip chomping) and 8.1.2. */
module LiteralBlock {
  import opened Outcomes
  import opened Text
  import opened SequenceBlock
  import opened DocumentLines
  import opened WriteFiles
  import opened ModePinning

  /** The spaces a line starts with; a tab is no indentation. */
  function Spaces(line: Line): nat {
    if line != "" && line[0] == ' ' then 1 + Spaces(line[1..]) else 0
  }

  predicate OnlySpaces(line: Line) {
    forall i | 0 <= i < |line| :: line[i] == ' '
  }

  /** A line that is a bare line break inside a scalar indented by `n`. */
  predicate EmptyAt(line: Line, n: nat) {
    OnlySpaces(line) && |line| <= n
  }

  /** The indentation of the first line that holds more than spaces. */
  function Detect(lines: seq<Line>): nat {
    if lines == [] then 0
    else if OnlySpaces(lines[0]) then Detect(lines[1..])
    else Spaces(lines[0])
  }

  /** The scalar's lines, less their indentation, up to the first line outside it. */
  function Scalar(lines: seq<Line>, n: nat): seq<Line> {
    if lines == [] then []
    else if EmptyAt(lines[0], n) then [""] + Scalar(lines[1..], n)
    else if Spaces(lines[0]) >= n then SpacesFit(lines[0]); [lines[0][n..]] + Scalar(lines[1..], n)
    else []
  }

  lemma SpacesFit(line: Line)
    ensures Spaces(line) <= |line|
    ensures OnlySpaces(line) <==> Spaces(line) == |line|
  {
    if line != "" {
      SpacesFit(line[1..]);
      assert forall i | 0 < i < |line| :: line[i] == line[1..][i - 1];
    }
  }

  /** Some line before the first with text has more spaces than that one, which section
      8.1.1.1 makes an error. */
  predicate Overlong(lines: seq<Line>, n: nat) {
    lines != [] && OnlySpaces(lines[0]) && (|lines[0]| > n || Overlong(lines[1..], n))
  }

  /** The value of the literal scalar whose lines follow, nested under a key that is
      indented by `parent`, or nothing where the rules call it an error. */
  function Decode(lines: seq<Line>, parent: nat): Option<string> {
    var n := Detect(lines);
    if n <= parent then Some("")
    else if Overlong(lines, n) then None
    else Some(Unlines(TrimEmpty(Scalar(lines, n))))
  }

  /** What follows ends a scalar indented by `n`: line breaks, then nothing or a line
      that is indented less. */
  predicate EndsScalar(rest: seq<Line>, n: nat) {
    rest == [] || if EmptyAt(rest[0], n) then EndsScalar(rest[1..], n) else Spaces(rest[0]) < n
  }

  lemma {:induction false} SpacesPad(pad: Line, line: Line)
    requires OnlySpaces(pad)
    ensures Spaces(pad + line) == |pad| + Spaces(line)
  {
    if pad == "" {
      assert pad + line == line;
    } else {
      var shorter: Line := pad[1..];
      SpacesPad(shorter, line);
      assert (pad + line)[1..] == shorter + line;
    }
  }

  lemma {:induction false} ScalarOfBody(pad: Line, content: seq<Line>, rest: seq<Line>)
    requires OnlySpaces(pad) && pad != ""
    ensures Scalar(BodyLines(pad, content) + rest, |pad|) == content + Scalar(rest, |pad|)
  {
    if content == [] {
      assert BodyLines(pad, content) + rest == rest;
    } else {
      var lines := BodyLines(pad, content) + rest;
      assert lines[1..] == BodyLines(pad, content[1..]) + rest;
      ScalarOfBody(pad, content[1..], rest);
      ScalarLine(pad, content[0]);
      assert lines[0] == BodyLine(pad, content[0]);
      assert content == [content[0]] + content[1..];
      assert Scalar(lines, |pad|) == [content[0]] + Scalar(lines[1..], |pad|);
      Concat3([content[0]], content[1..], Scalar(rest, |pad|));
    }
  }

  lemma Concat3(a: seq<Line>, b: seq<Line>, c: seq<Line>)
    ensures a + (b + c) == a + b + c
  {
  }

  lemma ScalarLine(pad: Line, line: Line)
    requires OnlySpaces(pad) && pad != ""
    ensures EmptyAt(BodyLine(pad, line), |pad|) == (line == "")
    ensures line != "" ==> Spaces(BodyLine(pad, line)) >= |pad| && BodyLine(pad, line)[|pad|..] == line
  {
    SpacesPad(pad, line);
  }

  lemma {:induction false} ScalarOfEnd(rest: seq<Line>, n: nat)
    requires EndsScalar(rest, n)
    ensures forall i | 0 <= i < |Scalar(rest, n)| :: Scalar(rest, n)[i] == ""
  {
    if rest != [] && EmptyAt(rest[0], n) {
      ScalarOfEnd(rest[1..], n);
    }
  }

  lemma {:induction false} ScalarOfMore(rest: seq<Line>, n: nat)
    requires !EndsScalar(rest, n)
    ensures exists i | 0 <= i < |Scalar(rest, n)| :: Scalar(rest, n)[i] != ""
  {
    if EmptyAt(rest[0], n) {
      ScalarOfMore(rest[1..], n);
      var i :| 0 <= i < |Scalar(rest[1..], n)| && Scalar(rest[1..], n)[i] != "";
      assert Scalar(rest, n)[i + 1] != "";
    } else {
      SpacesFit(rest[0]);
      assert Scalar(rest, n)[0] != "";
    }
  }

  lemma {:induction false} TrimAll(lines: seq<Line>)
    requires forall i | 0 <= i < |lines| :: lines[i] == ""
    ensures TrimEmpty(lines) == []
  {
    if lines != [] {
      TrimAll(lines[..|lines| - 1]);
    }
  }

  // ---------------------------------------------------------------------
  // What a rendered body reads back as
  // ---------------------------------------------------------------------

  /** The first line that is not empty has text and no leading space. */
  predicate TextLed(content: seq<Line>) {
    content != [] && if content[0] == "" then TextLed(content[1..]) else content[0][0] != ' '
  }

  lemma UnlinesInjective(a: seq<Line>, b: seq<Line>)
    ensures Unlines(a) == Unlines(b) ==> a == b
  {
    SplitUnlines(a);
    SplitUnlines(b);
  }

  /** Nothing is read back that does not end in exactly one newline. */
  lemma DecodedShape(lines: seq<Line>, parent: nat)
    requires Decode(lines, parent).Some?
    ensures Terminated(Decode(lines, parent).value)
    ensures !EndsEmpty(SplitLines(Decode(lines, parent).value))
  {
    var kept := TrimEmpty(Scalar(lines, Detect(lines)));
    TrimIsPrefix(Scalar(lines, Detect(lines)));
    SplitUnlines(kept);
    UnlinesSplit(Unlines(kept));
    UnlinesEnd(kept);
  }

  lemma {:induction false} UnlinesEnd(lines: seq<Line>)
    ensures Terminated(Unlines(lines))
  {
    if lines != [] {
      UnlinesEnd(lines[1..]);
    }
  }

  lemma {:induction false} TrimUnder(first: Line, lines: seq<Line>)
    ensures TrimEmpty([first] + lines) ==
            if TrimEmpty(lines) == [] then TrimEmpty([first]) else [first] + TrimEmpty(lines)
    decreases |lines|
  {
    if lines == [] {
      assert [first] + lines == [first];
    } else if EndsEmpty(lines) {
      var init := lines[..|lines| - 1];
      assert ([first] + lines)[..|lines|] == [first] + init;
      TrimUnder(first, init);
    }
  }

  /** An empty line in front is read back as one. */
  lemma BlankLead(lines: seq<Line>, parent: nat, content: seq<Line>)
    requires content != []
    ensures Decode([""] + lines, parent) == Some(Unlines([""] + content)) <==>
            Decode(lines, parent) == Some(Unlines(content))
  {
    var n := Detect(lines);
    assert ([""] + lines)[1..] == lines;
    assert Detect([""] + lines) == n && Overlong([""] + lines, n) == Overlong(lines, n);
    UnlinesInjective(content, []);
    UnlinesInjective([""] + content, []);
    if n > parent {
      var kept := TrimEmpty(Scalar(lines, n));
      TrimUnder("", Scalar(lines, n));
      assert TrimEmpty([""]) == [] by {
        assert [""][..0] == [];
      }
      UnlinesInjective(kept, content);
      UnlinesInjective(if kept == [] then [] else [""] + kept, [""] + content);
      assert ([""] + kept)[1..] == kept && ([""] + content)[1..] == content;
    }
  }

  lemma BlankLeads(pad: Line, content: seq<Line>, others: seq<Line>, rest: seq<Line>, parent: nat)
    requires content != [] && content[0] == "" && others == content[1..] && others != []
    ensures Decode(BodyLines(pad, content) + rest, parent) == Some(Unlines(content)) <==>
            Decode(BodyLines(pad, others) + rest, parent) == Some(Unlines(others))
  {
    BodyCons(pad, content, rest);
    assert content == [""] + others;
    BlankLead(BodyLines(pad, others) + rest, parent, others);
  }

  /** Content led by a space is never read back. */
  lemma SpaceLedIsLost(pad: Line, content: seq<Line>, rest: seq<Line>, parent: nat)
    requires OnlySpaces(pad) && parent < |pad|
    requires content != [] && content[0] != "" && content[0][0] == ' '
    ensures Decode(BodyLines(pad, content) + rest, parent) != Some(Unlines(content))
  {
    var lines := BodyLines(pad, content) + rest;
    var n, scalar := Detect(lines), Scalar(lines, Detect(lines));
    assert lines[0] == pad + content[0];
    SpacesPad(pad, content[0]);
    SpacesFit(content[0]);
    SpacesFit(lines[0]);
    TrimIsPrefix(scalar);
    UnlinesInjective(TrimEmpty(scalar), content);
    UnlinesInjective([], content);
    if n > parent && !Overlong(lines, n) {
      assert scalar != [] && scalar[0] != content[0] by {
        if OnlySpaces(content[0]) {
          assert EmptyAt(lines[0], n);
        } else {
          assert n == |pad| + Spaces(content[0]);
          assert |scalar[0]| < |content[0]|;
        }
      }
    }
  }

  /** Content whose first line has text and no leading space. */
  lemma TextIsRead(pad: Line, content: seq<Line>, rest: seq<Line>, parent: nat)
    requires OnlySpaces(pad) && parent < |pad|
    requires content != [] && content[0] != "" && content[0][0] != ' ' && !EndsEmpty(content)
    ensures Decode(BodyLines(pad, content) + rest, parent) == Some(Unlines(content)) <==> EndsScalar(rest, |pad|)
  {
    var lines := BodyLines(pad, content) + rest;
    SpacesPad(pad, content[0]);
    assert !OnlySpaces(lines[0]) by {
      assert lines[0][|pad|] == content[0][0];
    }
    assert Detect(lines) == |pad| && !Overlong(lines, |pad|);
    ScalarOfBody(pad, content, rest);
    var after := Scalar(rest, |pad|);
    TrimKeepsFront(content, after);
    TrimIsPrefix(after);
    if EndsScalar(rest, |pad|) {
      ScalarOfEnd(rest, |pad|);
      TrimAll(after);
      assert content + [] == content;
    } else {
      ScalarOfMore(rest, |pad|);
      UnlinesInjective(content, content + TrimEmpty(after));
    }
  }

  /** The literal-block round trip, for every content that has lines: its rendered body is
      read back as itself if and only if it does not end in an empty line, its first line
      that is not empty has text and no leading space, and what follows the body ends the
      scalar. */
  lemma {:induction false} RenderedBodyDecodes(pad: Line, content: seq<Line>, rest: seq<Line>, parent: nat)
    requires OnlySpaces(pad) && parent < |pad| && content != []
    ensures Decode(BodyLines(pad, content) + rest, parent) == Some(Unlines(content)) <==>
            TextLed(content) && !EndsEmpty(content) && EndsScalar(rest, |pad|)
  {
    var lines := BodyLines(pad, content) + rest;
    if EndsEmpty(content) {
      SplitUnlines(content);
      if Decode(lines, parent).Some? {
        DecodedShape(lines, parent);
      }
    } else if content[0] == "" {
      var others := content[1..];
      RenderedBodyDecodes(pad, others, rest, parent);
      BlankLeads(pad, content, others, rest, parent);
    } else if content[0][0] == ' ' {
      SpaceLedIsLost(pad, content, rest, parent);
    } else {
      TextIsRead(pad, content, rest, parent);
    }
  }

  lemma {:induction false} ScalarHasText(lines: seq<Line>)
    requires Detect(lines) > 0
    ensures exists i | 0 <= i < |Scalar(lines, Detect(lines))| :: Scalar(lines, Detect(lines))[i] != ""
  {
    var n := Detect(lines);
    SpacesFit(lines[0]);
    if OnlySpaces(lines[0]) {
      ScalarHasText(lines[1..]);
      var i :| 0 <= i < |Scalar(lines[1..], n)| && Scalar(lines[1..], n)[i] != "";
      assert Scalar(lines, n)[i + 1] != "";
    } else {
      assert Scalar(lines, n)[0] != "";
    }
  }

  /** No content is read back where nothing below the key is indented, and only there. */
  lemma NothingIsRead(lines: seq<Line>, parent: nat)
    ensures Decode(lines, parent) == Some("") <==> Detect(lines) <= parent
  {
    var n := Detect(lines);
    if n > parent {
      var scalar := Scalar(lines, n);
      ScalarHasText(lines);
      var i :| 0 <= i < |scalar| && scalar[i] != "";
      TrimIsPrefix(scalar);
      UnlinesInjective(TrimEmpty(scalar), []);
    }
  }

  /** Indentation that holds a tab is no indentation of a scalar. */
  lemma {:induction false} TabbedIsLost(indent: Line, pad: Line, content: seq<Line>, rest: seq<Line>, parent: nat)
    requires !OnlySpaces(indent) && |indent| <= parent && pad == indent + "    "
    requires content != [] && !EndsEmpty(content)
    ensures Detect(BodyLines(pad, content) + rest) <= parent
  {
    var others := content[1..];
    BodyCons(pad, content, rest);
    DetectCons(BodyLine(pad, content[0]), BodyLines(pad, others) + rest);
    if content[0] == "" {
      TabbedIsLost(indent, pad, others, rest, parent);
    } else {
      TabbedLine(indent, pad, content[0]);
    }
  }

  lemma BodyCons(pad: Line, content: seq<Line>, rest: seq<Line>)
    requires content != []
    ensures BodyLines(pad, content) + rest == [BodyLine(pad, content[0])] + (BodyLines(pad, content[1..]) + rest)
  {
  }

  lemma DetectCons(line: Line, lines: seq<Line>)
    ensures Detect([line] + lines) == if OnlySpaces(line) then Detect(lines) else Spaces(line)
  {
    assert ([line] + lines)[1..] == lines;
  }

  lemma TabbedLine(indent: Line, pad: Line, line: Line)
    requires !OnlySpaces(indent) && pad == indent + "    "
    ensures Spaces(pad + line) < |indent| && !OnlySpaces(pad + line)
  {
    SpacesStop(pad + line, indent);
  }

  lemma {:induction false} SpacesStop(line: Line, front: Line)
    requires front <= line && !OnlySpaces(front)
    ensures Spaces(line) < |front| && !OnlySpaces(line)
  {
    assert line[0] == front[0];
    if front[0] == ' ' {
      var i :| 0 <= i < |front| && front[i] != ' ';
      assert front[1..][i - 1] == front[i];
      SpacesStop(line[1..], front[1..]);
      assert !OnlySpaces(line) by {
        assert line[i] == front[i];
      }
    }
  }

  /** What a document reads back under `content: |` when the entry is indented by `indent`
      and `rest` follows it. */
  predicate ReadsBack(content: string, rest: seq<Line>, indent: Line) {
    if content == "" then Detect(rest) <= |indent| + 2
    else
      && OnlySpaces(indent)
      && Terminated(content) && !EndsEmpty(SplitLines(content)) && TextLed(SplitLines(content))
      && EndsScalar(rest, |indent| + 4)
  }

  /** The lines under `content: |`, with the empty ones at their end or without them. */
  predicate IsBody(body: seq<Line>, content: string, indent: Line) {
    var lines := SplitLines(content);
    var rendered: seq<Line> := if lines == [] then [""] else BodyLines(indent + "    ", lines);
    body == rendered || body == TrimEmpty(rendered)
  }

  lemma IsBodyOfText(body: seq<Line>, content: string, indent: Line)
    requires Blank(indent) && IsBody(body, content, indent)
    requires content != "" && !EndsEmpty(SplitLines(content))
    ensures SplitLines(content) != [] && body == BodyLines(indent + "    ", SplitLines(content))
  {
    UnlinesSplit(content);
    BodyLinesFacts(indent + "    ", SplitLines(content));
    TrimIsPrefix(BodyLines(indent + "    ", SplitLines(content)));
  }

  /** The content is what the document says it is, for every content, indentation and
      following text: the exact condition. */
  lemma ContentDecodesIff(body: seq<Line>, content: string, rest: seq<Line>, indent: Line)
    requires Blank(indent) && IsBody(body, content, indent)
    ensures Decode(body + rest, |indent| + 2) == Some(content) <==> ReadsBack(content, rest, indent)
  {
    var parent, lines := |indent| + 2, SplitLines(content);
    if content == "" {
      EmptyBody(body, rest);
      NothingIsRead(body + rest, parent);
    } else if !Terminated(content) || EndsEmpty(lines) {
      if Decode(body + rest, parent).Some? {
        DecodedShape(body + rest, parent);
      }
    } else {
      var pad: Line := indent + "    ";
      IsBodyOfText(body, content, indent);
      UnlinesSplit(content);
      if OnlySpaces(indent) {
        RenderedBodyDecodes(pad, lines, rest, parent);
      } else {
        TabbedIsLost(indent, pad, lines, rest, parent);
      }
    }
  }

  lemma EmptyBody(body: seq<Line>, rest: seq<Line>)
    requires body == [""] || body == TrimEmpty([""])
    ensures Detect(body + rest) == Detect(rest)
  {
    assert [""][..0] == [] && TrimEmpty([""]) == [];
    assert ([""] + rest)[1..] == rest;
    assert [] + rest == rest;
  }

  // ---------------------------------------------------------------------
  // In a document
  // ---------------------------------------------------------------------

  /** The entry as it is inserted into a block: without the empty lines at its end. */
  function Inserted(f: ToolFile, indent: Line): seq<Line> {
    TrimEmpty(EntryLines(f, indent))
  }

  /** Its lines under `content: |`. */
  function InsertedBody(f: ToolFile, indent: Line): seq<Line> {
    var content := SplitLines(f.content);
    TrimEmpty(if content == [] then [""] else BodyLines(indent + "    ", content))
  }

  lemma InsertedParts(f: ToolFile, indent: Line)
    ensures Inserted(f, indent) == EntryHead(f, indent) + InsertedBody(f, indent)
    ensures IsBody(InsertedBody(f, indent), f.content, indent)
  {
    var content := SplitLines(f.content);
    assert EntryHead(f, indent)[3] != "";
    TrimKeepsFront(EntryHead(f, indent), if content == [] then [""] else BodyLines(indent + "    ", content));
  }

  /** Installing a file into an existing block puts its whole entry, less the empty lines at
      its end, after the block's last non-blank line, and changes nothing else. */
  lemma InstallInserts(lines: seq<Line>, head: seq<Line>, body: seq<Line>, rest: seq<Line>, f: ToolFile)
    requires Splits(lines, WRITE_FILES, head, body, rest) && !HasLine(lines, Marker(f))
    ensures AppendWriteFile(lines, f) == Ok(head + body + Inserted(f, BlockIndent(body)) + rest)
  {
    SplitDescribe(lines, WRITE_FILES, head, body, rest);
    assert lines[..|head| + |body|] == head + body;
    assert lines[|head| + |body|..] == rest;
  }

  /** Describing the block again after an install gives the last line of the new entry that
      is not blank, and the same indentation. */
  lemma InstallExtendsBlock(lines: seq<Line>, head: seq<Line>, body: seq<Line>, rest: seq<Line>, f: ToolFile)
    returns (installed: seq<Line>, core: seq<Line>)
    requires Splits(lines, WRITE_FILES, head, body, rest) && !HasLine(lines, Marker(f))
    ensures AppendWriteFile(lines, f) == Ok(installed) && core == TrimBlank(Inserted(f, BlockIndent(body)))
    ensures Find(installed, WRITE_FILES) == At(|head| - 1) && |head| <= |installed|
    ensures Describe(installed, |head| - 1) == (|head| + |body| + |core|, BlockIndent(body))
  {
    var entry := Inserted(f, BlockIndent(body));
    core := TrimBlank(entry);
    var longer, behind := body + core, entry[|core|..] + rest;
    InstalledIs(lines, head, body, rest, f, core, longer, behind);
    EntryIsBlock(f, BlockIndent(body));
    installed := CoreExtends(head, body, rest, core, entry[|core|..], longer, behind);
  }

  lemma CoreExtends(head: seq<Line>, body: seq<Line>, rest: seq<Line>, core: seq<Line>, blanks: seq<Line>,
                    longer: seq<Line>, behind: seq<Line>)
    returns (installed: seq<Line>)
    requires head != [] && Find(head, WRITE_FILES) == At(|head| - 1) && AllInBlock(body) && BlockLen(rest) == 0
    requires longer == body + core && behind == blanks + rest && AllBlank(blanks)
    requires AllInBlock(core) && core != [] && !Blank(core[|core| - 1])
    requires FirstIndent(core) == Some(BlockIndent(body))
    ensures installed == head + longer + behind
    ensures Find(installed, WRITE_FILES) == At(|head| - 1) && |head| <= |installed|
    ensures Describe(installed, |head| - 1) == (|head| + |body| + |core|, BlockIndent(body))
  {
    installed := head + longer + behind;
    BlockLenOfBlanks(blanks, rest);
    LongerBlock(body, core, longer);
    ExtendedDescribes(WRITE_FILES, head, longer, behind, installed);
  }

  lemma InstalledIs(lines: seq<Line>, head: seq<Line>, body: seq<Line>, rest: seq<Line>, f: ToolFile,
                    core: seq<Line>, longer: seq<Line>, behind: seq<Line>)
    requires Splits(lines, WRITE_FILES, head, body, rest) && !HasLine(lines, Marker(f))
    requires core == TrimBlank(Inserted(f, BlockIndent(body)))
    requires longer == body + core && behind == Inserted(f, BlockIndent(body))[|core|..] + rest
    ensures AppendWriteFile(lines, f) == Ok(head + longer + behind)
  {
    var entry := Inserted(f, BlockIndent(body));
    InstallInserts(lines, head, body, rest, f);
    assert entry == core + entry[|core|..];
    CutEntry(head, body, core, entry[|core|..], rest, entry, longer, behind);
  }

  lemma CutEntry(head: seq<Line>, body: seq<Line>, core: seq<Line>, blanks: seq<Line>, rest: seq<Line>,
                 entry: seq<Line>, longer: seq<Line>, behind: seq<Line>)
    requires entry == core + blanks && longer == body + core && behind == blanks + rest
    ensures head + body + entry + rest == head + longer + behind
  {
    assert body + entry == longer + blanks;
    Nest(head, body, entry, longer + blanks, rest);
    Nest(head, longer, blanks, longer + blanks, rest);
    assert head + longer + blanks + rest == head + longer + behind;
  }

  /** So the next entry lines up behind this one if and only if this one's last line is not
      blank: content that ends in a line of blanks is split from it by the next entry. */
  lemma NextEntryFollowsIff(lines: seq<Line>, head: seq<Line>, body: seq<Line>, rest: seq<Line>, f: ToolFile)
    requires Splits(lines, WRITE_FILES, head, body, rest) && !HasLine(lines, Marker(f))
    ensures AppendWriteFile(lines, f).Ok? && |head| <= |AppendWriteFile(lines, f).value|
    ensures var entry := Inserted(f, BlockIndent(body));
            && entry != []
            && (Describe(AppendWriteFile(lines, f).value, |head| - 1).0 == |head| + |body| + |entry| <==>
                !Blank(entry[|entry| - 1]))
  {
    var entry := Inserted(f, BlockIndent(body));
    var installed, core := InstallExtendsBlock(lines, head, body, rest, f);
    InsertedParts(f, BlockIndent(body));
    TrimBlankAll(entry);
  }

  lemma TrimBlankAll(lines: seq<Line>)
    requires lines != []
    ensures |TrimBlank(lines)| == |lines| <==> !Blank(lines[|lines| - 1])
  {
  }

  lemma Nest(a: seq<Line>, b: seq<Line>, c: seq<Line>, bc: seq<Line>, d: seq<Line>)
    requires bc == b + c
    ensures a + b + c + d == a + bc + d
  {
    assert a + b + c == a + bc;
  }

  lemma EntryIsBlock(f: ToolFile, indent: Line)
    requires Blank(indent)
    ensures var core := TrimBlank(Inserted(f, indent));
            AllInBlock(core) && core != [] && FirstIndent(core) == Some(indent)
  {
    var entry := Inserted(f, indent);
    var core := TrimBlank(entry);
    HeadIsBlock(f, indent);
    InsertedParts(f, indent);
    InsertedBodyInBlock(f, indent);
    CoreHasHead(entry, EntryHead(f, indent), core);
    assert core == [core[0]] + core[1..];
    FirstIndentConcat([core[0]], core[1..]);
    FirstIndentConcat([EntryHead(f, indent)[0]], EntryHead(f, indent)[1..]);
    MarkerIsItem(f, indent, core[0]);
  }

  lemma CoreHasHead(entry: seq<Line>, head: seq<Line>, core: seq<Line>)
    requires core == TrimBlank(entry) && head <= entry && head != [] && !Blank(head[0]) && AllInBlock(entry)
    ensures core != [] && core[0] == head[0] && AllInBlock(core)
  {
    assert entry[0] == head[0];
    assert forall i | 0 <= i < |core| :: core[i] == entry[i];
    assert forall i | |core| <= i < |entry| :: entry[i] == entry[|core|..][i - |core|];
  }

  lemma InsertedBodyInBlock(f: ToolFile, indent: Line)
    requires Blank(indent)
    ensures AllInBlock(Inserted(f, indent))
  {
    var content := SplitLines(f.content);
    var rendered: seq<Line> := if content == [] then [""] else BodyLines(indent + "    ", content);
    HeadIsBlock(f, indent);
    BodyIsBlock(indent + "    ", content);
    InsertedParts(f, indent);
    TrimIsPrefix(rendered);
    assert forall i | 0 <= i < |TrimEmpty(rendered)| :: TrimEmpty(rendered)[i] == rendered[i];
  }

  /** The installed file's content, read from the line after `content: |`, is the original
      text if and only if content, indentation and what follows the block allow it. No
      content is excluded. */
  lemma InstalledContentDecodes(lines: seq<Line>, head: seq<Line>, body: seq<Line>, rest: seq<Line>, f: ToolFile)
    requires Splits(lines, WRITE_FILES, head, body, rest) && !HasLine(lines, Marker(f))
    ensures AppendWriteFile(lines, f).Ok?
    ensures var installed := AppendWriteFile(lines, f).value;
            var at, indent := |head| + |body| + 4, BlockIndent(body);
            && at <= |installed|
            && (Decode(installed[at..], |indent| + 2) == Some(f.content) <==> ReadsBack(f.content, rest, indent))
  {
    var indent := BlockIndent(body);
    InstallInserts(lines, head, body, rest, f);
    InsertedParts(f, indent);
    HeadLength(f, indent);
    InsertedDecodes(head, body, EntryHead(f, indent), InsertedBody(f, indent), rest, f.content, indent);
  }

  lemma HeadLength(f: ToolFile, indent: Line)
    ensures |EntryHead(f, indent)| == 4
  {
  }

  lemma InsertedDecodes(head: seq<Line>, body: seq<Line>, entryHead: seq<Line>, written: seq<Line>, rest: seq<Line>,
                        content: string, indent: Line)
    requires |entryHead| == 4 && Blank(indent) && IsBody(written, content, indent)
    ensures var installed := head + body + (entryHead + written) + rest;
            var at := |head| + |body| + 4;
            && at <= |installed|
            && (Decode(installed[at..], |indent| + 2) == Some(content) <==> ReadsBack(content, rest, indent))
  {
    EntryBehind(head, body, entryHead, written, rest);
    ContentDecodesIff(written, content, rest, indent);
  }

  lemma EntryBehind(head: seq<Line>, body: seq<Line>, entryHead: seq<Line>, written: seq<Line>, rest: seq<Line>)
    ensures var installed := head + body + (entryHead + written) + rest;
            var at := |head| + |body| + |entryHead|;
            at <= |installed| && installed[at..] == written + rest
  {
    Regroup(head + body, entryHead, written, rest);
  }

  /** In a block the tool makes at the document's end nothing follows the entry. */
  lemma NewBlockDecodes(lines: seq<Line>, f: ToolFile) returns (installed: seq<Line>, at: nat)
    requires Find(lines, WRITE_FILES).Absent? && !HasLine(lines, Marker(f))
    ensures AppendWriteFile(lines, f) == Ok(installed) && 4 <= at <= |installed|
    ensures installed[at - 4..at] == EntryHead(f, DEFAULT_ITEM_INDENT)
    ensures Decode(installed[at..], |DEFAULT_ITEM_INDENT| + 2) == Some(f.content) <==>
            ReadsBack(f.content, [], DEFAULT_ITEM_INDENT)
  {
    var entry := EntryLines(f, DEFAULT_ITEM_INDENT);
    NewBody(f, DEFAULT_ITEM_INDENT);
    installed, at := DecodesAtEnd(lines, WRITE_FILES + ":", entry, f.content, DEFAULT_ITEM_INDENT);
  }

  lemma DecodesAtEnd(lines: seq<Line>, first: Line, entry: seq<Line>, content: string, indent: Line)
    returns (installed: seq<Line>, at: nat)
    requires |entry| >= 4 && Blank(indent) && IsBody(entry[4..], content, indent)
    ensures installed == AppendBlock(lines, [first] + entry)
    ensures 4 <= at <= |installed| && installed[at - 4..at] == entry[..4]
    ensures Decode(installed[at..], |indent| + 2) == Some(content) <==> ReadsBack(content, [], indent)
  {
    BlockAtEnd(lines, first, entry);
    installed := AppendBlock(lines, [first] + entry);
    at := |installed| - |entry| + 4;
    assert entry[4..] + [] == entry[4..];
    ContentDecodesIff(entry[4..], content, [], indent);
  }

  lemma NewBody(f: ToolFile, indent: Line)
    ensures |EntryLines(f, indent)| >= 4 && EntryLines(f, indent)[..4] == EntryHead(f, indent)
    ensures IsBody(EntryLines(f, indent)[4..], f.content, indent)
  {
  }

  lemma BlockAtEnd(lines: seq<Line>, first: Line, entry: seq<Line>)
    requires |entry| >= 4
    ensures var installed := AppendBlock(lines, [first] + entry);
            var at := |installed| - |entry| + 4;
            4 <= at <= |installed| && installed[at..] == entry[4..] && installed[at - 4..at] == entry[..4]
  {
    var installed, block := AppendBlock(lines, [first] + entry), [first] + entry;
    assert installed[|installed| - |block|..] == block;
  }

  // ---------------------------------------------------------------------
  // A document that changes what it is given
  // ---------------------------------------------------------------------

  const OVER_INDENTED: Line := "         "

  /** A block with a line of more spaces than the content is indented by behind it. */
  function SpacedBehind(): seq<Line> {
    [WRITE_FILES + ":"] + [] + [OVER_INDENTED]
  }

  /** No content but the empty one is read back from it: the line of spaces is read as
      part of the content. */
  lemma SpacesJoinTheContent(f: ToolFile)
    requires f.content != ""
    ensures AppendWriteFile(SpacedBehind(), f).Ok?
    ensures |AppendWriteFile(SpacedBehind(), f).value| >= 5
    ensures Decode(AppendWriteFile(SpacedBehind(), f).value[5..], 4) != Some(f.content)
  {
    var lines, head, rest := SpacedBehind(), [WRITE_FILES + ":"], [OVER_INDENTED];
    assert Find(head, WRITE_FILES) == At(0) by {
      assert (WRITE_FILES + ":")[|WRITE_FILES| + 1..] == "";
    }
    assert BlockLen(rest) == 0 by {
      assert rest[1..] == [];
    }
    LacksMarker(f);
    OverIndented();
    InstalledContentDecodes(lines, head, [], rest, f);
  }

  lemma OverIndented()
    ensures !EndsScalar([OVER_INDENTED], |DEFAULT_ITEM_INDENT| + 4)
  {
    SpacesFit(OVER_INDENTED);
  }

  lemma LacksMarker(f: ToolFile)
    ensures !HasLine(SpacedBehind(), Marker(f))
  {
    assert Solid(WRITE_FILES + ":") && (WRITE_FILES + ":")[0] == 'w' && Marker(f)[0] == '-';
    BlankStrip(OVER_INDENTED);
    assert SpacedBehind() == [WRITE_FILES + ":", OVER_INDENTED];
  }
}
