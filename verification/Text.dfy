/** Python's string operations on newline-only text, and the line view of a document. */
module Text {
  /** One line of a document. */
  type Line = s: string | '\n' !in s witness ""

  predicate IsSpace(c: char) {
    c == ' ' || c == '\t' || c == '\n' || c == '\r' || c == '\U{000B}' || c == '\U{000C}'
  }

  /** By their codes. */
  lemma SpaceCodes(c: char)
    ensures IsSpace(c) <==> 9 <= c as int <= 13 || c as int == 32
  {
  }

  /** The text holds nothing but whitespace. */
  predicate Blank(s: string) {
    forall i | 0 <= i < |s| :: IsSpace(s[i])
  }

  function LStrip(s: string): string {
    if s != "" && IsSpace(s[0]) then LStrip(s[1..]) else s
  }

  function RStrip(s: string): string {
    if s != "" && IsSpace(s[|s| - 1]) then RStrip(s[..|s| - 1]) else s
  }

  function Strip(s: string): string {
    RStrip(LStrip(s))
  }

  /** The whitespace a line starts with. */
  function LeadingSpace(s: string): (p: string)
    ensures p <= s && Blank(p)
    ensures |p| < |s| ==> !IsSpace(s[|p|])
  {
    if s != "" && IsSpace(s[0]) then [s[0]] + LeadingSpace(s[1..]) else ""
  }

  /** A string `Strip` leaves alone. */
  predicate Solid(s: string) {
    s != "" && !IsSpace(s[0]) && !IsSpace(s[|s| - 1])
  }

  lemma {:induction false} StripPad(pad: string, s: string)
    requires Blank(pad)
    ensures Strip(pad + s) == Strip(s)
  {
    if pad == "" {
      assert pad + s == s;
    } else {
      assert (pad + s)[1..] == pad[1..] + s;
      StripPad(pad[1..], s);
    }
  }

  lemma {:induction false} LStripOfBlank(s: string)
    ensures Blank(s) <==> LStrip(s) == ""
  {
    if s != "" {
      LStripOfBlank(s[1..]);
      if IsSpace(s[0]) {
        assert Blank(s) <==> Blank(s[1..]) by {
          assert forall i | 0 < i < |s| :: s[i] == s[1..][i - 1];
        }
      }
    }
  }

  lemma {:induction false} RStripKeepsFirst(s: string)
    requires s != "" && !IsSpace(s[0])
    ensures RStrip(s) != "" && RStrip(s)[0] == s[0]
  {
    if IsSpace(s[|s| - 1]) {
      RStripKeepsFirst(s[..|s| - 1]);
    }
  }

  lemma {:induction false} LStripFirst(s: string)
    ensures LStrip(s) != "" ==> !IsSpace(LStrip(s)[0])
  {
    if s != "" && IsSpace(s[0]) {
      LStripFirst(s[1..]);
    }
  }

  lemma BlankStrip(s: string)
    ensures Blank(s) <==> Strip(s) == ""
  {
    LStripOfBlank(s);
    LStripFirst(s);
    if LStrip(s) != "" {
      RStripKeepsFirst(LStrip(s));
    }
  }

  lemma {:induction false} LStripParts(s: string)
    ensures |LStrip(s)| <= |s| && s == s[..|s| - |LStrip(s)|] + LStrip(s) && Blank(s[..|s| - |LStrip(s)|])
  {
    if s != "" && IsSpace(s[0]) {
      LStripParts(s[1..]);
      var n := |s| - |LStrip(s)|;
      assert s[1..][..n - 1] == s[1..n];
      assert s[..n] == [s[0]] + s[1..n];
    } else {
      assert s[..0] == "";
    }
  }

  lemma {:induction false} RStripParts(s: string)
    ensures RStrip(s) <= s && Blank(s[|RStrip(s)|..])
    ensures RStrip(s) == "" || !IsSpace(RStrip(s)[|RStrip(s)| - 1])
  {
    if s != "" && IsSpace(s[|s| - 1]) {
      var init := s[..|s| - 1];
      RStripParts(init);
      assert s[|RStrip(s)|..] == init[|RStrip(s)|..] + [s[|s| - 1]];
    }
  }

  /** Stripping takes white space from both ends and nothing else, as far as it goes. */
  lemma StripParts(s: string) returns (before: string, after: string)
    ensures s == before + Strip(s) + after && Blank(before) && Blank(after)
    ensures Strip(s) == "" || Solid(Strip(s))
  {
    var left := LStrip(s);
    LStripParts(s);
    LStripFirst(s);
    RStripParts(left);
    before, after := s[..|s| - |left|], left[|Strip(s)|..];
    if Strip(s) != "" {
      assert Strip(s)[0] == left[0];
    }
  }

  lemma {:induction false} LeadingSpacePad(pad: string, s: string)
    requires Blank(pad) && s != "" && !IsSpace(s[0])
    ensures LeadingSpace(pad + s) == pad
  {
    if pad == "" {
      assert pad + s == s;
    } else {
      assert (pad + s)[1..] == pad[1..] + s;
      LeadingSpacePad(pad[1..], s);
    }
  }

  // ---------------------------------------------------------------------
  // Lines
  // ---------------------------------------------------------------------

  lemma Regroup<T>(a: seq<T>, b: seq<T>, c: seq<T>, d: seq<T>)
    ensures a + (b + c) + d == a + b + (c + d)
    ensures b + c + d == b + (c + d)
  {
  }

  /** Python's `splitlines` on text whose only line break is the newline. */
  function SplitLines(text: string): seq<Line> {
    if text == "" then
      []
    else if text[0] == '\n' then
      [""] + SplitLines(text[1..])
    else
      var rest := SplitLines(text[1..]);
      if rest == [] then [[text[0]]] else [[text[0]] + rest[0]] + rest[1..]
  }

  /** Every line followed by its newline. */
  function Unlines(lines: seq<Line>): string {
    if lines == [] then "" else lines[0] + "\n" + Unlines(lines[1..])
  }

  /** Python's `sep.join(parts)`. */
  function Join(sep: string, parts: seq<string>): string {
    if parts == [] then
      ""
    else if |parts| == 1 then
      parts[0]
    else
      parts[0] + sep + Join(sep, parts[1..])
  }

  lemma {:induction false} JoinIsUnlines(lines: seq<Line>)
    requires lines != []
    ensures Join("\n", lines) + "\n" == Unlines(lines)
  {
    if |lines| == 1 {
      assert Unlines(lines[1..]) == "";
    } else {
      JoinIsUnlines(lines[1..]);
      assert Join("\n", lines) + "\n" == lines[0] + "\n" + (Join("\n", lines[1..]) + "\n");
    }
  }

  lemma {:induction false} SplitFirst(line: Line, text: string)
    ensures SplitLines(line + "\n" + text) == [line] + SplitLines(text)
  {
    var whole := line + "\n" + text;
    if line == "" {
      assert whole[1..] == text;
    } else {
      var tail: Line := line[1..];
      SplitFirst(tail, text);
      assert whole[1..] == tail + "\n" + text;
      assert [line[0]] + tail == line;
    }
  }

  lemma {:induction false} OneLine(line: Line)
    requires line != ""
    ensures SplitLines(line) == [line]
  {
    if |line| > 1 {
      var tail: Line := line[1..];
      OneLine(tail);
      assert [line[0]] + tail == line;
    } else {
      assert SplitLines(line[1..]) == [];
      assert [line[0]] == line;
    }
  }

  lemma FirstOf(line: Line, others: string, text: string)
    ensures line + "\n" + others + text == line + "\n" + (others + text)
  {
  }

  /** Splitting undoes joining, for every list of lines. */
  lemma {:induction false} SplitUnlinesAppend(lines: seq<Line>, text: string)
    ensures SplitLines(Unlines(lines) + text) == lines + SplitLines(text)
  {
    if lines == [] {
      assert Unlines(lines) + text == text;
    } else {
      SplitUnlinesAppend(lines[1..], text);
      SplitFirst(lines[0], Unlines(lines[1..]) + text);
      FirstOf(lines[0], Unlines(lines[1..]), text);
      assert lines == [lines[0]] + lines[1..];
      Regroup([], [lines[0]], lines[1..], SplitLines(text));
    }
  }

  lemma SplitUnlines(lines: seq<Line>)
    ensures SplitLines(Unlines(lines)) == lines
  {
    SplitUnlinesAppend(lines, "");
    assert Unlines(lines) + "" == Unlines(lines);
  }

  lemma {:induction false} UnlinesConcat(a: seq<Line>, b: seq<Line>)
    ensures Unlines(a + b) == Unlines(a) + Unlines(b)
  {
    if a == [] {
      assert a + b == b;
    } else {
      UnlinesConcat(a[1..], b);
      assert (a + b)[1..] == a[1..] + b;
    }
  }

  predicate Terminated(text: string) {
    text == "" || text[|text| - 1] == '\n'
  }

  /** Joining undoes splitting, up to the final newline the text may lack. */
  lemma {:induction false} UnlinesSplit(text: string)
    ensures Unlines(SplitLines(text)) == if Terminated(text) then text else text + "\n"
  {
    if text != "" {
      var tail := text[1..];
      UnlinesSplit(tail);
      var rest := SplitLines(tail);
      assert text == [text[0]] + tail;
      assert tail != "" ==> Terminated(text) == Terminated(tail);
      if text[0] == '\n' {
        assert SplitLines(text)[1..] == rest;
      } else if tail == "" {
        assert SplitLines(text) == [[text[0]]];
        assert Unlines([[text[0]]][1..]) == "";
      } else {
        assert SplitLines(text)[1..] == rest[1..];
        assert Unlines(SplitLines(text)) == [text[0]] + Unlines(rest);
      }
    }
  }

  // ---------------------------------------------------------------------
  // Trailing newlines
  // ---------------------------------------------------------------------

  /** Python's `rstrip("\n")`. */
  function RStripNewlines(s: string): string {
    if s != "" && s[|s| - 1] == '\n' then RStripNewlines(s[..|s| - 1]) else s
  }

  /** The text ended by exactly one newline; blank text is left alone. */
  function EnsureTrailingNewline(text: string): string {
    if Blank(text) then text else RStripNewlines(text) + "\n"
  }

  /** The lines without the empty ones at the end. */
  function TrimEmpty(lines: seq<Line>): seq<Line> {
    if lines != [] && lines[|lines| - 1] == "" then TrimEmpty(lines[..|lines| - 1]) else lines
  }

  predicate EndsEmpty(lines: seq<Line>) {
    lines != [] && lines[|lines| - 1] == ""
  }

  predicate AllBlank(lines: seq<Line>) {
    forall i | 0 <= i < |lines| :: Blank(lines[i])
  }

  lemma {:induction false} BlankLines(text: string)
    ensures Blank(text) <==> AllBlank(SplitLines(text))
  {
    if text != "" {
      var tail := text[1..];
      BlankLines(tail);
      var rest := SplitLines(tail);
      assert Blank(text) <==> IsSpace(text[0]) && Blank(tail) by {
        assert forall i | 0 < i < |text| :: text[i] == tail[i - 1];
      }
      if text[0] == '\n' {
        assert AllBlank(SplitLines(text)) <==> AllBlank(rest) by {
          assert forall i | 0 <= i < |rest| :: SplitLines(text)[i + 1] == rest[i];
          assert SplitLines(text)[0] == "";
        }
      } else {
        var lines := SplitLines(text);
        if rest == [] {
          assert lines == [[text[0]]];
          assert lines[0][0] == text[0];
        } else {
          assert forall i | 0 < i < |lines| :: lines[i] == rest[i];
          assert Blank(lines[0]) <==> IsSpace(text[0]) && Blank(rest[0]) by {
            assert forall i | 0 <= i < |rest[0]| :: lines[0][i + 1] == rest[0][i];
            assert lines[0][0] == text[0];
          }
        }
      }
    }
  }

  lemma {:induction false} TrimKeepsFront(a: seq<Line>, b: seq<Line>)
    requires a == [] || a[|a| - 1] != ""
    ensures TrimEmpty(a + b) == a + TrimEmpty(b)
  {
    if b == [] {
      assert a + b == a;
    } else if b[|b| - 1] == "" {
      TrimKeepsFront(a, b[..|b| - 1]);
      assert (a + b)[..|a + b| - 1] == a + b[..|b| - 1];
    }
  }

  lemma {:induction false} TrimIsPrefix(lines: seq<Line>)
    ensures TrimEmpty(lines) <= lines && !EndsEmpty(TrimEmpty(lines))
    ensures forall i | |TrimEmpty(lines)| <= i < |lines| :: lines[i] == ""
    ensures !EndsEmpty(lines) ==> TrimEmpty(lines) == lines
    ensures EndsEmpty(lines) ==> |TrimEmpty(lines)| < |lines|
    ensures TrimEmpty(TrimEmpty(lines)) == TrimEmpty(lines)
  {
    if EndsEmpty(lines) {
      TrimIsPrefix(lines[..|lines| - 1]);
    }
  }

  lemma UnlinesLast(init: seq<Line>, last: Line)
    ensures Unlines(init + [last]) == Unlines(init) + last + "\n"
    ensures RStripNewlines(Unlines(init + [last])) == RStripNewlines(Unlines(init) + last)
  {
    UnlinesConcat(init, [last]);
    assert Unlines([last][1..]) == "";
    var text := Unlines(init) + last;
    assert Unlines(init + [last]) == text + "\n";
    assert (text + "\n")[..|text + "\n"| - 1] == text;
  }

  lemma {:induction false} RStripUnlines(lines: seq<Line>)
    requires !AllBlank(lines)
    ensures RStripNewlines(Unlines(lines)) + "\n" == Unlines(TrimEmpty(lines))
  {
    var init, last := lines[..|lines| - 1], lines[|lines| - 1];
    assert init + [last] == lines;
    UnlinesLast(init, last);
    var text := Unlines(init) + last;
    if last == "" {
      assert !AllBlank(init) by {
        assert forall i | 0 <= i < |init| :: init[i] == lines[i];
      }
      RStripUnlines(init);
      assert text == Unlines(init);
    } else {
      assert text[|text| - 1] == last[|last| - 1];
      assert RStripNewlines(text) == text;
    }
  }

  /** On non-blank text, ending it in one newline drops exactly the empty lines at its end. */
  lemma EnsureTrailingNewlineLines(text: string)
    requires !Blank(text)
    ensures EnsureTrailingNewline(text) == Unlines(TrimEmpty(SplitLines(text)))
  {
    BlankLines(text);
    RStripUnlines(SplitLines(text));
    UnlinesSplit(text);
    if !Terminated(text) {
      assert (text + "\n")[..|text|] == text;
    }
  }
}
