/** What one append to a document adds, keeps and leaves as it was. */
module AppendFacts {
  import opened Outcomes
  import opened Text
  import opened SequenceBlock
  import opened DocumentLines

  lemma HasLineBlank(lines: seq<Line>, content: string)
    requires AllBlank(lines) && content != ""
    ensures !HasLine(lines, content)
  {
    forall i | 0 <= i < |lines| ensures Strip(lines[i]) != content {
      BlankStrip(lines[i]);
    }
  }

  /** A new block brings its own lines, and the header at most. */
  lemma HasLineAppendBlock(lines: seq<Line>, block: seq<Line>, content: string)
    requires "- " <= content
    ensures HasLine(AppendBlock(lines, block), content) <==> HasLine(lines, content) || HasLine(block, content)
  {
    assert Solid(HEADER);
    if AllBlank(lines) {
      HasLineBlank(lines, content);
      HasLineConcat([HEADER, ""], block, content);
      assert !HasLine([HEADER, ""], content);
    } else {
      var text := TrimEmpty(lines);
      var before: seq<Line> := if FirstContent(text) == HEADER then [] else [HEADER];
      HasLineTrim(lines, content);
      HasLineConcat(before + text, block, content);
      HasLineConcat(before, text, content);
      assert !HasLine(before, content);
    }
  }

  /** The lines of the document come through any append, and an item-like line of the
      result was there before or was brought by it. */
  lemma HasLineAppend(lines: seq<Line>, key: Line, marker: string, entry: seq<Line>, initial: seq<Line>,
                      content: string)
    requires Append(lines, key, marker, entry, initial).Ok?
    requires "- " <= content && !HasLine([key + ":"], content)
    ensures HasLine(lines, content) ==> HasLine(Append(lines, key, marker, entry, initial).value, content)
    ensures HasLine(Append(lines, key, marker, entry, initial).value, content) ==>
              HasLine(lines, content) || HasLine(entry, content) || HasLine(initial, content)
  {
    var found := Find(lines, key);
    if HasLine(lines, marker) {
      HasLineTrim(lines, content);
    } else if found.Absent? {
      HasLineAppendBlock(lines, [key + ":"] + initial, content);
      HasLineConcat([key + ":"], initial, content);
    } else {
      var end := Describe(lines, found.index).0;
      assert lines == lines[..end] + lines[end..];
      HasLineConcat(lines[..end], lines[end..], content);
      HasLineConcat(lines[..end] + entry, lines[end..], content);
      HasLineConcat(lines[..end], entry, content);
    }
  }

  /** After the append the document holds the marker. */
  lemma AppendMarks(lines: seq<Line>, key: Line, marker: string, entry: seq<Line>, initial: seq<Line>)
    requires Append(lines, key, marker, entry, initial).Ok?
    requires "- " <= marker && HasLine(entry, marker) && HasLine(initial, marker)
    ensures HasLine(Append(lines, key, marker, entry, initial).value, marker)
  {
    var found := Find(lines, key);
    if HasLine(lines, marker) {
      HasLineTrim(lines, marker);
    } else if found.Absent? {
      HasLineAppendBlock(lines, [key + ":"] + initial, marker);
      HasLineConcat([key + ":"], initial, marker);
    } else {
      var end := Describe(lines, found.index).0;
      HasLineConcat(lines[..end] + entry, lines[end..], marker);
      HasLineConcat(lines[..end], entry, marker);
    }
  }

  lemma FindTrim(lines: seq<Line>, key: string)
    requires PlainKey(key)
    ensures Find(TrimEmpty(lines), key) == Find(lines, key)
  {
    TrimIsPrefix(lines);
    var kept := TrimEmpty(lines);
    assert lines == kept + lines[|kept|..];
    FindConcat(kept, lines[|kept|..], key);
    InertHasNoKey(lines[|kept|..], key);
  }

  lemma FindInBlankLines(lines: seq<Line>, key: string)
    requires AllBlank(lines) && PlainKey(key)
    ensures Find(lines, key).Absent?
  {
    InertHasNoKey(lines, key);
  }

  lemma FindAppendBlock(lines: seq<Line>, block: seq<Line>, key: string)
    requires PlainKey(key) && key[0] != '#'
    ensures Find(AppendBlock(lines, block), key).Flow? <==>
            Find(lines, key).Flow? || (Find(lines, key).Absent? && Find(block, key).Flow?)
    ensures Find(AppendBlock(lines, block), key).Absent? <==> Find(lines, key).Absent? && Find(block, key).Absent?
  {
    if AllBlank(lines) {
      FindInBlankLines(lines, key);
      FindBefore([HEADER, ""], block, key);
    } else {
      var text := TrimEmpty(lines);
      FindTrim(lines, key);
      FindChain(text, block, key);
      AppendBlockIs(lines, text, block);
      if FirstContent(text) != HEADER {
        FindBefore([HEADER], text + block, key);
      }
    }
  }

  lemma AppendBlockIs(lines: seq<Line>, text: seq<Line>, block: seq<Line>)
    requires !AllBlank(lines) && text == TrimEmpty(lines)
    ensures AppendBlock(lines, block) ==
            if FirstContent(text) == HEADER then text + block else [HEADER] + (text + block)
  {
    assert [] + text + block == text + block;
    assert [HEADER] + text + block == [HEADER] + (text + block);
  }

  lemma FindChain(a: seq<Line>, b: seq<Line>, key: string)
    ensures Find(a + b, key).Flow? <==> Find(a, key).Flow? || (Find(a, key).Absent? && Find(b, key).Flow?)
    ensures Find(a + b, key).Absent? <==> Find(a, key).Absent? && Find(b, key).Absent?
  {
    FindConcat(a, b, key);
  }

  /** The header is a comment, so no key is found in it. */
  lemma FindBefore(before: seq<Line>, lines: seq<Line>, key: string)
    requires PlainKey(key) && key[0] != '#'
    requires before == [HEADER] || before == [HEADER, ""]
    ensures Find(before + lines, key).Flow? == Find(lines, key).Flow?
    ensures Find(before + lines, key).Absent? == Find(lines, key).Absent?
  {
    FindChain(before, lines, key);
    assert (key + ":")[0] == key[0] && HEADER[0] == '#';
    FindOne(HEADER, key);
    if before != [HEADER] {
      FindOne("", key);
      assert before == [HEADER] + [""];
      FindChain([HEADER], [""], key);
    }
  }

  lemma FindOne(line: Line, key: string)
    ensures Find([line], key).Absent? <==> !KeyLine(line, key)
  {
    assert Find([line][1..], key).Absent?;
  }

  /** No line carries two keys. */
  predicate Apart(key: string, other: string) {
    key != other && ':' !in key && ':' !in other
  }

  function UpToColon(line: string): string {
    if line == "" || line[0] == ':' then "" else [line[0]] + UpToColon(line[1..])
  }

  lemma {:induction false} ColonEnds(line: string, key: string)
    requires key + ":" <= line && ':' !in key
    ensures UpToColon(line) == key
  {
    if key == "" {
      assert line[0] == ':';
    } else {
      assert line[0] == (key + ":")[0] == key[0];
      assert (key + ":")[1..] == key[1..] + ":" && key == [key[0]] + key[1..];
      ColonEnds(line[1..], key[1..]);
    }
  }

  lemma OneKey(line: Line, key: string, other: string)
    requires Apart(key, other) && KeyLine(line, key)
    ensures !KeyLine(line, other)
  {
    ColonEnds(line, key);
    if KeyLine(line, other) {
      ColonEnds(line, other);
    }
  }

  lemma FindInNew(key: Line, initial: seq<Line>, other: string)
    requires AllInert(initial)
    requires PlainKey(key) && PlainKey(other) && (other == key || Apart(key, other))
    ensures Find([key + ":"] + initial, other) == if other == key then At(0) else Absent
  {
    FindConcat([key + ":"], initial, other);
    InertHasNoKey(initial, other);
    FindOne(key + ":", other);
    assert (key + ":")[|key| + 1..] == "";
    if other != key {
      OneKey(key + ":", key, other);
    }
  }

  /** An append leaves its own key in block style. Any other key is there afterwards if
      and only if it was there before, and in the style it was in. */
  lemma FindAppend(lines: seq<Line>, key: Line, marker: string, entry: seq<Line>, initial: seq<Line>, other: string)
    requires Append(lines, key, marker, entry, initial).Ok?
    requires AllInert(entry) && AllInert(initial)
    requires PlainKey(key) && PlainKey(other) && key[0] != '#' && other[0] != '#'
    requires other == key || Apart(key, other)
    ensures Find(Append(lines, key, marker, entry, initial).value, other).Flow? == Find(lines, other).Flow?
    ensures other != key ==>
              Find(Append(lines, key, marker, entry, initial).value, other).Absent? == Find(lines, other).Absent?
  {
    var found := Find(lines, key);
    if HasLine(lines, marker) {
      FindTrim(lines, other);
    } else if found.Absent? {
      var block := [key + ":"] + initial;
      FindAppendBlock(lines, block, other);
      FindInNew(key, initial, other);
    } else {
      var end := Describe(lines, found.index).0;
      assert lines == lines[..end] + lines[end..];
      FindAcrossInert(lines[..end], entry, lines[end..], other);
    }
  }

  /** No append leaves empty lines at the end of a document that had none there. */
  lemma AppendEnds(lines: seq<Line>, key: Line, marker: string, entry: seq<Line>, initial: seq<Line>)
    requires Append(lines, key, marker, entry, initial).Ok?
    requires entry != [] && !EndsEmpty(entry) && initial != [] && !EndsEmpty(initial)
    requires !EndsEmpty(lines) || AllBlank(lines)
    requires PlainKey(key) && "- " <= marker
    ensures !EndsEmpty(Append(lines, key, marker, entry, initial).value)
  {
    AppendEndsIff(lines, key, marker, entry, initial);
    if AllBlank(lines) {
      FindInBlankLines(lines, key);
    }
  }

  /** An append leaves an empty last line if and only if there was one, and an entry was
      added to a block that was there. */
  lemma AppendEndsIff(lines: seq<Line>, key: Line, marker: string, entry: seq<Line>, initial: seq<Line>)
    requires Append(lines, key, marker, entry, initial).Ok?
    requires entry != [] && !EndsEmpty(entry) && initial != [] && !EndsEmpty(initial)
    ensures EndsEmpty(Append(lines, key, marker, entry, initial).value) <==>
            EndsEmpty(lines) && !HasLine(lines, marker) && Find(lines, key).At?
  {
    TrimIsPrefix(lines);
    if HasLine(lines, marker) {
      assert Append(lines, key, marker, entry, initial) == Ok(TrimEmpty(lines));
    } else if Find(lines, key).At? {
      InsertedEnds(lines, Find(lines, key).index, entry);
    } else {
      AppendBlockEnds(lines, [key + ":"] + initial);
    }
  }

  lemma InsertedEnds(lines: seq<Line>, keyIndex: nat, entry: seq<Line>)
    requires keyIndex < |lines| && lines[keyIndex] != "" && entry != [] && !EndsEmpty(entry)
    ensures EndsEmpty(Insert(lines, Describe(lines, keyIndex).0, entry)) <==> EndsEmpty(lines)
  {
    BlockEndsFull(lines, keyIndex);
    InsertEnds(lines, Describe(lines, keyIndex).0, entry);
  }

  lemma InsertEnds(lines: seq<Line>, at: nat, entry: seq<Line>)
    requires 0 < at <= |lines| && lines[at - 1] != ""
    requires entry != [] && !EndsEmpty(entry)
    ensures EndsEmpty(Insert(lines, at, entry)) <==> EndsEmpty(lines)
  {
    var whole := Insert(lines, at, entry);
    if at < |lines| {
      assert whole[|whole| - 1] == lines[|lines| - 1];
    } else {
      assert whole[|whole| - 1] == entry[|entry| - 1];
    }
  }

  lemma BlockEndsFull(lines: seq<Line>, keyIndex: nat)
    requires keyIndex < |lines| && lines[keyIndex] != ""
    ensures lines[Describe(lines, keyIndex).0 - 1] != ""
  {
    var tail := lines[keyIndex + 1..];
    var n := BlockLen(tail);
    if n > 0 {
      assert lines[keyIndex + n] == tail[n - 1];
    }
  }

  lemma AppendBlockEnds(lines: seq<Line>, block: seq<Line>)
    requires block != [] && !EndsEmpty(block)
    ensures !EndsEmpty(AppendBlock(lines, block))
  {
  }
}
