/** The `write_files` entries of a cloud-config document. */
module WriteFiles {
  import opened Outcomes
  import opened Text
  import opened SequenceBlock
  import opened DocumentLines

  /** A file the document has cloud-init create. */
  datatype ToolFile = ToolFile(path: Line, content: string, permissions: Line)

  function Marker(f: ToolFile): Line {
    "- path: " + f.path
  }

  function BodyLine(pad: Line, line: Line): Line {
    if line == "" then "" else pad + line
  }

  function BodyLines(pad: Line, lines: seq<Line>): seq<Line> {
    if lines == [] then [] else [BodyLine(pad, lines[0])] + BodyLines(pad, lines[1..])
  }

  function EntryHead(f: ToolFile, indent: Line): seq<Line> {
    [indent + "- path: " + f.path,
     indent + "  permissions: '" + f.permissions + "'",
     indent + "  owner: root:root",
     indent + "  content: |"]
  }

  /** One list item, its content a literal block two levels in. */
  function EntryLines(f: ToolFile, indent: Line): seq<Line> {
    var content := SplitLines(f.content);
    EntryHead(f, indent) + (if content == [] then [""] else BodyLines(indent + "    ", content))
  }

  function AppendWriteFile(lines: seq<Line>, f: ToolFile): Result<seq<Line>> {
    Append(lines, WRITE_FILES, Marker(f),
           TrimEmpty(EntryLines(f, IndentFor(lines, WRITE_FILES))), EntryLines(f, DEFAULT_ITEM_INDENT))
  }

  // ---------------------------------------------------------------------
  // What an entry brings into a document
  // ---------------------------------------------------------------------

  /** The path can be found again, and the content ends in exactly one newline. */
  predicate Installable(f: ToolFile) {
    && Proper(f.path)
    && SplitLines(f.content) != []
    && !EndsEmpty(SplitLines(f.content))
  }

  lemma {:induction false} BodyLinesFacts(pad: Line, lines: seq<Line>)
    requires Blank(pad) && pad != ""
    ensures |BodyLines(pad, lines)| == |lines|
    ensures forall i | 0 <= i < |lines| :: BodyLines(pad, lines)[i] == BodyLine(pad, lines[i])
    ensures AllInert(BodyLines(pad, lines))
    ensures EndsEmpty(BodyLines(pad, lines)) == EndsEmpty(lines)
  {
    if lines != [] {
      BodyLinesFacts(pad, lines[1..]);
      if lines[0] != "" {
        assert BodyLine(pad, lines[0])[0] == pad[0];
      }
      assert AllInert([BodyLine(pad, lines[0])] + BodyLines(pad, lines[1..]));
    }
  }

  lemma HasLineBody(pad: Line, lines: seq<Line>, content: string)
    requires Blank(pad) && pad != ""
    ensures HasLine(BodyLines(pad, lines), content) <==> HasLine(lines, content)
  {
    BodyLinesFacts(pad, lines);
    var body := BodyLines(pad, lines);
    forall i | 0 <= i < |lines| ensures Strip(body[i]) == Strip(lines[i]) {
      StripPad(pad, lines[i]);
    }
    if HasLine(lines, content) {
      var i :| 0 <= i < |lines| && Strip(lines[i]) == content;
      assert Strip(body[i]) == content;
    }
  }

  lemma EntryHeadFacts(f: ToolFile, indent: Line)
    requires Blank(indent) && Proper(f.path)
    ensures AllInert(EntryHead(f, indent))
    ensures Strip(EntryHead(f, indent)[0]) == Marker(f)
    ensures Strip(EntryHead(f, indent)[1]) == "permissions: '" + f.permissions + "'"
    ensures Strip(EntryHead(f, indent)[2]) == "owner: root:root"
    ensures Strip(EntryHead(f, indent)[3]) == "content: |"
  {
    var head := EntryHead(f, indent);
    MarkerLine(f, indent, head[0]);
    PermissionsLine(f, indent, head[1]);
    OwnerLine(indent, head[2]);
    ContentLine(indent, head[3]);
  }

  lemma MarkerLine(f: ToolFile, indent: Line, line: Line)
    requires Blank(indent) && Proper(f.path) && line == indent + "- path: " + f.path
    ensures Strip(line) == Marker(f) && Inert(line)
  {
    assert Marker(f)[0] == '-' && Solid(Marker(f));
    assert line == indent + Marker(f);
    PaddedText(indent, Marker(f), line);
  }

  lemma PermissionsLine(f: ToolFile, indent: Line, line: Line)
    requires Blank(indent) && line == indent + "  permissions: '" + f.permissions + "'"
    ensures Strip(line) == "permissions: '" + f.permissions + "'" && Inert(line)
  {
    var text := "permissions: '" + f.permissions + "'";
    assert text[|text| - 1] == '\'' && Solid(text);
    assert line == (indent + "  ") + text;
    PaddedText(indent + "  ", text, line);
  }

  lemma OwnerLine(indent: Line, line: Line)
    requires Blank(indent) && line == indent + "  owner: root:root"
    ensures Strip(line) == "owner: root:root" && Inert(line)
  {
    assert line == (indent + "  ") + "owner: root:root";
    PaddedText(indent + "  ", "owner: root:root", line);
  }

  lemma ContentLine(indent: Line, line: Line)
    requires Blank(indent) && line == indent + "  content: |"
    ensures Strip(line) == "content: |" && Inert(line)
  {
    assert line == (indent + "  ") + "content: |";
    PaddedText(indent + "  ", "content: |", line);
  }

  lemma PaddedText(pad: Line, text: Line, line: Line)
    requires Blank(pad) && Solid(text) && line == pad + text
    requires pad != "" || text[0] == '-'
    ensures Strip(line) == text && Inert(line)
  {
    StripPad(pad, text);
  }

  /** An entry holds no line that could be a top-level key, and ends in a line with text. */
  lemma EntryShape(f: ToolFile, indent: Line)
    requires Blank(indent) && Installable(f)
    ensures AllInert(EntryLines(f, indent)) && !EndsEmpty(EntryLines(f, indent))
    ensures TrimEmpty(EntryLines(f, indent)) == EntryLines(f, indent) && EntryLines(f, indent) != []
  {
    EntryHeadFacts(f, indent);
    BodyLinesFacts(indent + "    ", SplitLines(f.content));
    TrimIsPrefix(EntryLines(f, indent));
  }

  lemma HeadHasLine(f: ToolFile, indent: Line, content: string)
    requires Blank(indent) && Proper(f.path) && "- " <= content
    ensures HasLine(EntryHead(f, indent), content) <==> content == Marker(f)
  {
    EntryHeadFacts(f, indent);
    var head := EntryHead(f, indent);
    if content == Marker(f) {
      assert Strip(head[0]) == content;
    }
    if HasLine(head, content) {
      var i :| 0 <= i < |head| && Strip(head[i]) == content;
      assert i == 0 by {
        assert content[0] == '-';
      }
    }
  }

  /** Among the lines that read as list items, an entry brings its marker and what its
      content holds, nothing else, whatever the content. */
  lemma EntryHasLine(f: ToolFile, indent: Line, content: string)
    requires Blank(indent) && Proper(f.path) && "- " <= content
    ensures HasLine(EntryLines(f, indent), content) <==>
            content == Marker(f) || HasLine(SplitLines(f.content), content)
  {
    var lines := SplitLines(f.content);
    HeadHasLine(f, indent, content);
    HasLineConcat(EntryHead(f, indent), if lines == [] then [""] else BodyLines(indent + "    ", lines), content);
    HasLineBody(indent + "    ", lines, content);
    NoItemInEmpty(content);
  }

  lemma NoItemInEmpty(content: string)
    requires "- " <= content
    ensures !HasLine([""], content)
  {
    assert Strip("") == "" && |content| >= 2;
  }

  lemma HeadIsBlock(f: ToolFile, indent: Line)
    requires Blank(indent)
    ensures AllInBlock(EntryHead(f, indent)) && FirstIndent(EntryHead(f, indent)) == Some(indent)
    ensures !Blank(EntryHead(f, indent)[0])
  {
    var head := EntryHead(f, indent);
    MarkerIsItem(f, indent, head[0]);
    SpaceLed(indent, head[1]);
    SpaceLed(indent, head[2]);
    SpaceLed(indent, head[3]);
  }

  lemma MarkerIsItem(f: ToolFile, indent: Line, line: Line)
    requires Blank(indent) && line == indent + "- path: " + f.path
    ensures IsItem(line) && InBlock(line) && LeadingSpace(line) == indent
  {
    var marker := Marker(f);
    assert marker[0] == '-' && marker[1] == ' ';
    LeadingSpacePad(indent, marker);
    assert line == indent + marker;
    assert line[|indent|] == '-' && line[|indent| + 1] == ' ';
    if indent != "" {
      assert line[0] == indent[0];
    }
  }

  lemma SpaceLed(indent: Line, line: Line)
    requires Blank(indent) && |indent| < |line| && line[|indent|] == ' '
    requires forall i | 0 <= i < |indent| :: line[i] == indent[i]
    ensures InBlock(line)
  {
    assert IsSpace(line[0]);
  }

  lemma {:induction false} BodyIsBlock(pad: Line, content: seq<Line>)
    requires Blank(pad) && pad != ""
    ensures AllInBlock(BodyLines(pad, content)) && |BodyLines(pad, content)| == |content|
    ensures content != [] && !Blank(content[|content| - 1]) ==> !Blank(BodyLines(pad, content)[|content| - 1])
  {
    if content != [] {
      BodyIsBlock(pad, content[1..]);
      var line := BodyLine(pad, content[0]);
      if content[0] != "" {
        assert line[0] == pad[0];
        if !Blank(content[0]) {
          var i :| 0 <= i < |content[0]| && !IsSpace(content[0][i]);
          assert line[|pad| + i] == content[0][i];
        }
      }
    }
  }
}
