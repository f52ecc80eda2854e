/** The line cloud-init looks for first, and what a new block is written as. */
module DocumentHeader {
  import opened Outcomes
  import opened Text
  import opened SequenceBlock
  import opened DocumentLines
  import opened WriteFiles
  import opened AppendFacts
  import opened PinExactness
  import opened UserData
  import opened KeyStyle

  /** The first line with text is line `i`, and reads `content`. */
  predicate FirstTextAt(lines: seq<Line>, i: nat, content: string) {
    i < |lines| && !Blank(lines[i]) && Strip(lines[i]) == content && forall j | 0 <= j < i :: Blank(lines[j])
  }

  ghost predicate OpensWith(lines: seq<Line>, content: string) {
    exists i: nat :: FirstTextAt(lines, i, content)
  }

  lemma {:induction false} FirstContentIs(lines: seq<Line>, content: string)
    requires content != ""
    ensures OpensWith(lines, content) <==> FirstContent(lines) == content
  {
    if lines != [] {
      BlankStrip(lines[0]);
      if Blank(lines[0]) {
        FirstContentIs(lines[1..], content);
        forall i: nat | 0 < i < |lines|
          ensures FirstTextAt(lines, i, content) <==> FirstTextAt(lines[1..], i - 1, content)
        {
          assert forall j | 0 < j < |lines| :: lines[j] == lines[1..][j - 1];
        }
        if i: nat :| FirstTextAt(lines[1..], i, content) {
          assert FirstTextAt(lines, i + 1, content);
        }
      } else {
        assert FirstContent(lines) == content ==> FirstTextAt(lines, 0, content);
      }
    }
  }

  lemma {:induction false} FirstContentConcat(a: seq<Line>, b: seq<Line>)
    ensures FirstContent(a + b) == if AllBlank(a) then FirstContent(b) else FirstContent(a)
  {
    if a == [] {
      assert a + b == b;
    } else {
      assert (a + b)[1..] == a[1..] + b;
      assert AllBlank(a) <==> Blank(a[0]) && AllBlank(a[1..]) by {
        assert forall i | 0 < i < |a| :: a[i] == a[1..][i - 1];
      }
      FirstContentConcat(a[1..], b);
    }
  }

  lemma FirstContentTrim(lines: seq<Line>)
    ensures FirstContent(TrimEmpty(lines)) == FirstContent(lines)
    ensures AllBlank(TrimEmpty(lines)) == AllBlank(lines)
  {
    TrimIsPrefix(lines);
    var kept := TrimEmpty(lines);
    assert lines == kept + lines[|kept|..];
    FirstContentConcat(kept, lines[|kept|..]);
    FirstContentConcat(lines[|kept|..], []);
    assert lines[|kept|..] + [] == lines[|kept|..];
    if AllBlank(kept) {
      AllBlankHasNone(kept);
      AllBlankHasNone(lines[|kept|..]);
    }
  }

  lemma {:induction false} AllBlankHasNone(lines: seq<Line>)
    requires AllBlank(lines)
    ensures FirstContent(lines) == ""
  {
    if lines != [] {
      AllBlankHasNone(lines[1..]);
    }
  }

  lemma HeaderReads()
    ensures HEADER == "#cloud-config" && Strip(HEADER) == HEADER && !Blank(HEADER)
  {
    assert Solid(HEADER);
  }

  lemma NewBlockOpens(lines: seq<Line>, block: seq<Line>)
    ensures FirstContent(AppendBlock(lines, block)) == HEADER
    ensures Count(AppendBlock(lines, block), HEADER) ==
            Count(lines, HEADER) + Count(block, HEADER) + if FirstContent(lines) == HEADER then 0 else 1
  {
    HeaderReads();
    var text := TrimEmpty(lines);
    FirstContentTrim(lines);
    CountTrim(lines, HEADER);
    CountConcat([HEADER, ""], block, HEADER);
    CountConcat([HEADER], text + block, HEADER);
    CountConcat(text, block, HEADER);
    assert [HEADER, ""][1..] == [""] && [""][1..] == [] && [HEADER][1..] == [];
    if AllBlank(lines) {
      AllBlankHasNone(lines);
      CountBlanks(lines, HEADER);
      FirstContentConcat([HEADER, ""], block);
    } else {
      AppendBlockIs(lines, text, block);
      FirstContentConcat([HEADER], text + block);
      FirstContentConcat(text, block);
    }
  }

  lemma InsertKeepsOpening(lines: seq<Line>, at: nat, entry: seq<Line>)
    requires at <= |lines| && !AllBlank(lines[..at])
    ensures FirstContent(Insert(lines, at, entry)) == FirstContent(lines)
  {
    assert lines == lines[..at] + lines[at..];
    assert Insert(lines, at, entry) == lines[..at] + (entry + lines[at..]);
    FirstContentConcat(lines[..at], lines[at..]);
    FirstContentConcat(lines[..at], entry + lines[at..]);
  }

  /** When an edited document opens with the header: it did before, or the edit had to make
      the key. */
  lemma AppendOpensIff(lines: seq<Line>, key: Line, marker: string, entry: seq<Line>, initial: seq<Line>)
    requires Append(lines, key, marker, entry, initial).Ok? && PlainKey(key)
    ensures OpensWith(Append(lines, key, marker, entry, initial).value, "#cloud-config") <==>
            || OpensWith(lines, "#cloud-config")
            || (Find(lines, key).Absent? && !HasLine(lines, marker))
  {
    HeaderReads();
    FirstContentIs(lines, HEADER);
    FirstContentIs(Append(lines, key, marker, entry, initial).value, HEADER);
    var found := Find(lines, key);
    if HasLine(lines, marker) {
      FirstContentTrim(lines);
    } else if found.Absent? {
      NewBlockOpens(lines, [key + ":"] + initial);
    } else {
      var at := Describe(lines, found.index).0;
      assert lines[..at][found.index] == lines[found.index] && lines[found.index][0] == key[0];
      InsertKeepsOpening(lines, at, entry);
    }
  }

  /** Some line starts with the key and a colon. */
  predicate HasKey(userData: string, key: string) {
    exists i | 0 <= i < |SplitLines(userData)| :: key + ":" <= SplitLines(userData)[i]
  }

  lemma KeyIff(userData: string, key: string)
    ensures HasKey(userData, key) <==> !Find(SplitLines(userData), key).Absent?
  {
    FindIff(SplitLines(userData), key);
  }

  /** The header of a text after a command is added: it opens with "#cloud-config" if and only
      if it did before, or it had neither the key nor the command. */
  lemma RuncmdHeaderIff(userData: string, command: Line)
    requires AppendRuncmdText(userData, command).Ok?
    ensures OpensWith(SplitLines(AppendRuncmdText(userData, command).value), "#cloud-config") <==>
            || OpensWith(SplitLines(userData), "#cloud-config")
            || (!HasKey(userData, "runcmd") && !HasLine(SplitLines(userData), "- " + command))
  {
    var lines := SplitLines(userData);
    AppendRuncmdLines(userData, command);
    SplitUnlines(AppendRuncmd(lines, command).value);
    KeyIff(userData, RUNCMD);
    AppendOpensIff(lines, RUNCMD, "- " + command,
                   [Item(IndentFor(lines, RUNCMD), command)], [Item(DEFAULT_ITEM_INDENT, command)]);
  }

  /** The same after a file is added. */
  lemma WriteFileHeaderIff(userData: string, f: ToolFile)
    requires AppendWriteFileText(userData, f).Ok?
    ensures OpensWith(SplitLines(AppendWriteFileText(userData, f).value), "#cloud-config") <==>
            || OpensWith(SplitLines(userData), "#cloud-config")
            || (!HasKey(userData, "write_files") && !HasLine(SplitLines(userData), "- path: " + f.path))
  {
    var lines := SplitLines(userData);
    AppendWriteFileLines(userData, f);
    SplitUnlines(AppendWriteFile(lines, f).value);
    KeyIff(userData, WRITE_FILES);
    AppendOpensIff(lines, WRITE_FILES, Marker(f),
                   TrimEmpty(EntryLines(f, IndentFor(lines, WRITE_FILES))), EntryLines(f, DEFAULT_ITEM_INDENT));
  }

  // ---------------------------------------------------------------------
  // A new block, as text
  // ---------------------------------------------------------------------

  lemma {:induction false} NewlinesOff(text: string) returns (n: nat)
    requires !Blank(text)
    ensures 0 < n <= |text| && RStripNewlines(text) == text[..n] && text[n - 1] != '\n'
    ensures forall i | n <= i < |text| :: text[i] == '\n'
  {
    n := |text|;
    if text[|text| - 1] == '\n' {
      var shorter := text[..|text| - 1];
      n := NewlinesOff(shorter);
      assert text[..n] == shorter[..n];
    } else {
      assert text[..n] == text;
    }
  }

  /** Text with something in it is ended by one newline and keeps all else, and blank text
      is left alone. */
  lemma EndedOnce(text: string) returns (n: nat)
    ensures Blank(text) ==> EnsureTrailingNewline(text) == text
    ensures !Blank(text) ==>
              && 0 < n <= |text| && text[n - 1] != '\n' && (forall i | n <= i < |text| :: text[i] == '\n')
              && EnsureTrailingNewline(text) == text[..n] + "\n"
  {
    n := 0;
    if !Blank(text) {
      n := NewlinesOff(text);
    }
  }

  /** What comes before a new block: the document, and the header if it does not open with
      it; for a blank document, the header and an empty line. */
  ghost function Opening(userData: string): string {
    if Blank(userData) then
      "#cloud-config\n\n"
    else
      (if OpensWith(SplitLines(userData), "#cloud-config") then "" else "#cloud-config\n")
      + EnsureTrailingNewline(userData)
  }

  lemma NewBlockText(userData: string, block: string)
    ensures AppendNewBlock(userData, block) == Opening(userData) + block
  {
    HeaderReads();
    HeaderLine("#cloud-config\n");
    if !Blank(userData) {
      var text := EnsureTrailingNewline(userData);
      OpeningStays(userData, text);
      Prefixed(OpensWith(SplitLines(userData), HEADER), HEADER + "\n", text, block);
    }
  }

  lemma OpeningStays(userData: string, text: string)
    requires !Blank(userData) && text == EnsureTrailingNewline(userData)
    ensures FirstContent(SplitLines(text)) == HEADER <==> OpensWith(SplitLines(userData), HEADER)
  {
    HeaderReads();
    FirstContentIs(SplitLines(userData), HEADER);
    EnsureTrailingNewlineLines(userData);
    SplitUnlines(TrimEmpty(SplitLines(userData)));
    FirstContentTrim(SplitLines(userData));
  }

  lemma Prefixed(opens: bool, header: string, text: string, block: string)
    ensures (if opens then "" else header) + text + block == if opens then text + block else header + text + block
  {
    assert "" + text == text;
  }

  lemma HeaderLine(text: string)
    requires text == "#cloud-config\n"
    ensures HEADER + "\n" == text && HEADER + "\n\n" == text + "\n"
    ensures text + "\n" == "#cloud-config\n\n"
  {
  }

  /** A document without the key and the line, as text: the new block stands at its end, its
      item two spaces in. */
  lemma NewRuncmdText(userData: string, command: Line)
    requires !HasKey(userData, "runcmd") && !HasLine(SplitLines(userData), "- " + command)
    ensures AppendRuncmdText(userData, command) ==
            Ok(Opening(userData) + ("runcmd:\n" + "  " + "- " + command + "\n"))
  {
    KeyIff(userData, RUNCMD);
    NewBlockText(userData, "runcmd:\n" + "  " + "- " + command + "\n");
  }

  lemma NewWriteFileText(userData: string, f: ToolFile)
    requires !HasKey(userData, "write_files") && !HasLine(SplitLines(userData), "- path: " + f.path)
    ensures AppendWriteFileText(userData, f) == Ok(Opening(userData) + ("write_files:\n" + RenderEntry(f, "  ")))
  {
    KeyIff(userData, WRITE_FILES);
    NewBlockText(userData, "write_files:\n" + RenderEntry(f, "  "));
  }

  lemma MarkerIndent(f: ToolFile, indent: Line, line: Line)
    requires Blank(indent) && line == indent + "- path: " + f.path
    ensures LeadingSpace(line) == indent
  {
    assert line == indent + ("- path: " + f.path);
    LeadingSpacePad(indent, "- path: " + f.path);
  }

  lemma TwoIn(indent: Line, start: string, tail: string, line: Line)
    requires Blank(indent) && line == indent + start + tail
    requires |start| > 2 && start[0] == ' ' && start[1] == ' ' && !IsSpace(start[2])
    ensures LeadingSpace(line) == indent + "  "
  {
    var text := start[2..] + tail;
    assert line == (indent + "  ") + text;
    LeadingSpacePad(indent + "  ", text);
  }

  lemma HeldIsText(userData: string, content: string)
    requires HasLine(SplitLines(userData), content) && content != ""
    ensures !Blank(userData)
  {
    BlankLines(userData);
    if Blank(userData) {
      HasLineBlank(SplitLines(userData), content);
    }
  }

  /** A text that holds the command already is ended once and otherwise left as it is. */
  lemma HeldCommandText(userData: string, command: Line) returns (n: nat)
    requires !FlowStyled(SplitLines(userData), "runcmd") && HasLine(SplitLines(userData), "- " + command)
    ensures 0 < n <= |userData| && userData[n - 1] != '\n' && forall i | n <= i < |userData| :: userData[i] == '\n'
    ensures AppendRuncmdText(userData, command) == Ok(userData[..n] + "\n")
  {
    FindIff(SplitLines(userData), RUNCMD);
    HeldIsText(userData, "- " + command);
    n := EndedOnce(userData);
  }

  /** So is a text that holds the file. */
  lemma HeldFileText(userData: string, f: ToolFile) returns (n: nat)
    requires !FlowStyled(SplitLines(userData), "write_files") && HasLine(SplitLines(userData), "- path: " + f.path)
    ensures 0 < n <= |userData| && userData[n - 1] != '\n' && forall i | n <= i < |userData| :: userData[i] == '\n'
    ensures AppendWriteFileText(userData, f) == Ok(userData[..n] + "\n")
  {
    FindIff(SplitLines(userData), WRITE_FILES);
    HeldIsText(userData, "- path: " + f.path);
    n := EndedOnce(userData);
  }

  /** The keys of an entry line up under its path, two spaces in from the dash. */
  lemma EntryIndents(f: ToolFile, indent: Line, head: seq<Line>)
    requires Blank(indent) && head == EntryHead(f, indent)
    ensures |head| == 4 && LeadingSpace(head[0]) == indent
    ensures LeadingSpace(head[1]) == LeadingSpace(head[2]) == LeadingSpace(head[3]) == indent + "  "
  {
    MarkerIndent(f, indent, head[0]);
    assert head[1] == indent + "  permissions: '" + (f.permissions + "'");
    TwoIn(indent, "  permissions: '", f.permissions + "'", head[1]);
    TwoIn(indent, "  owner: root:root", "", head[2]);
    TwoIn(indent, "  content: |", "", head[3]);
  }
}
