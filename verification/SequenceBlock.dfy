/** Finding a top-level key of a cloud-config document and the block sequence under it. */
module SequenceBlock {
  import opened Outcomes
  import opened Text

  const DEFAULT_ITEM_INDENT: Line := "  "

  /** `key` is a cloud-config identifier, so its line is exactly the one that starts
      with it and a colon: the identifier characters leave the colon out. */
  predicate KeyLine(line: Line, key: string) {
    key + ":" <= line
  }

  /** What follows the colon is neither nothing nor a comment. */
  predicate FlowLine(line: Line, key: string)
    requires KeyLine(line, key)
  {
    var remainder := Strip(line[|key| + 1..]);
    remainder != "" && remainder[0] != '#'
  }

  /** Whitespace, a dash and one more whitespace character. */
  predicate IsItem(line: Line) {
    var dash := |LeadingSpace(line)|;
    dash + 1 < |line| && line[dash] == '-' && IsSpace(line[dash + 1])
  }

  predicate InBlock(line: Line) {
    Blank(line) || IsSpace(line[0]) || IsItem(line)
  }

  predicate AllInBlock(lines: seq<Line>) {
    forall i | 0 <= i < |lines| :: InBlock(lines[i])
  }

  datatype Found = Absent | Flow | At(index: nat)

  function Shift(n: nat, found: Found): Found {
    if found.At? then At(n + found.index) else found
  }

  /** The first line that carries the key. */
  function Find(lines: seq<Line>, key: string): (found: Found)
    ensures found.At? ==>
              found.index < |lines| && KeyLine(lines[found.index], key)
    ensures found.At? ==> forall i | 0 <= i < found.index :: !KeyLine(lines[i], key)
    ensures found.Absent? ==> forall i | 0 <= i < |lines| :: !KeyLine(lines[i], key)
  {
    if lines == [] then
      Absent
    else if KeyLine(lines[0], key) then
      if FlowLine(lines[0], key) then Flow else At(0)
    else
      Shift(1, Find(lines[1..], key))
  }

  /** How many of the lines after the key belong to its block, the blank ones at its
      end left out. */
  function BlockLen(tail: seq<Line>): (n: nat)
    ensures n <= |tail|
    ensures n > 0 ==> !Blank(tail[n - 1])
  {
    if tail == [] || !InBlock(tail[0]) then
      0
    else
      var n := BlockLen(tail[1..]);
      if n == 0 && Blank(tail[0]) then 0 else n + 1
  }

  /** The indentation of the first item, if there is one. */
  function FirstIndent(body: seq<Line>): (indent: Option<Line>)
    ensures indent.Some? ==> Blank(indent.value)
  {
    if body == [] then
      None
    else if IsItem(body[0]) then
      Some(LeadingSpace(body[0]))
    else
      FirstIndent(body[1..])
  }

  function BlockIndent(body: seq<Line>): (indent: Line)
    ensures Blank(indent)
  {
    var first := FirstIndent(body);
    if first.Some? then first.value else DEFAULT_ITEM_INDENT
  }

  /** Where a new item goes, and how far it is indented. */
  function Describe(lines: seq<Line>, keyIndex: nat): (r: (nat, Line))
    requires keyIndex < |lines|
    ensures keyIndex < r.0 <= |lines|
  {
    var tail := lines[keyIndex + 1..];
    (keyIndex + 1 + BlockLen(tail), BlockIndent(tail[..BlockLen(tail)]))
  }

  // ---------------------------------------------------------------------
  // The loops of the original
  // ---------------------------------------------------------------------

  /** The index of the key's first line, or the refusal of a flow-style value. */
  method FindTopLevelSequence(lines: seq<Line>, key: string) returns (found: Found)
    ensures found == Find(lines, key)
  {
    for index := 0 to |lines|
      invariant Find(lines, key) == Shift(index, Find(lines[index..], key))
    {
      assert lines[index..][1..] == lines[index + 1..];
      if KeyLine(lines[index], key) {
        if FlowLine(lines[index], key) {
          return Flow;
        }
        return At(index);
      }
    }
    return Absent;
  }

  lemma BlockLenOfBlanks(blanks: seq<Line>, tail: seq<Line>)
    requires AllBlank(blanks)
    ensures BlockLen(blanks + tail) == if BlockLen(tail) == 0 then 0 else |blanks| + BlockLen(tail)
  {
    if blanks == [] {
      assert blanks + tail == tail;
    } else {
      assert (blanks + tail)[1..] == blanks[1..] + tail;
      BlockLenOfBlanks(blanks[1..], tail);
    }
  }

  lemma {:induction false} FirstIndentConcat(a: seq<Line>, b: seq<Line>)
    ensures FirstIndent(a + b) == if FirstIndent(a).Some? then FirstIndent(a) else FirstIndent(b)
  {
    if a == [] {
      assert a + b == b;
    } else {
      assert (a + b)[1..] == a[1..] + b;
      FirstIndentConcat(a[1..], b);
    }
  }

  lemma {:induction false} FirstIndentOfBlanks(blanks: seq<Line>)
    requires AllBlank(blanks)
    ensures FirstIndent(blanks).None?
  {
    if blanks != [] {
      FirstIndentOfBlanks(blanks[1..]);
    }
  }

  lemma ScanOne(lines: seq<Line>, keyIndex: nat, cursor: nat)
    requires keyIndex < cursor < |lines|
    ensures FirstIndent(lines[keyIndex + 1..cursor + 1]) ==
            var before := FirstIndent(lines[keyIndex + 1..cursor]);
            if before.None? && IsItem(lines[cursor]) then Some(LeadingSpace(lines[cursor])) else before
    ensures IsItem(lines[cursor]) ==> !Blank(lines[cursor])
  {
    var line := lines[cursor];
    assert lines[keyIndex + 1..cursor + 1] == lines[keyIndex + 1..cursor] + [line];
    FirstIndentConcat(lines[keyIndex + 1..cursor], [line]);
    assert FirstIndent([line][1..]).None?;
  }

  lemma ScanDone(lines: seq<Line>, keyIndex: nat, insertAt: nat, cursor: nat)
    requires keyIndex < insertAt <= cursor <= |lines|
    requires insertAt == keyIndex + 1 || !Blank(lines[insertAt - 1])
    requires forall i | keyIndex < i < insertAt :: InBlock(lines[i])
    requires forall i | insertAt <= i < cursor :: Blank(lines[i])
    requires cursor == |lines| || !InBlock(lines[cursor])
    ensures Describe(lines, keyIndex) == (insertAt, BlockIndent(lines[keyIndex + 1..cursor]))
  {
    var body, blanks, rest := lines[keyIndex + 1..insertAt], lines[insertAt..cursor], lines[cursor..];
    ScanHalves(body, blanks, rest);
    Slices(lines, keyIndex + 1, insertAt, cursor);
    DescribeTail(lines, keyIndex, lines[keyIndex + 1..], body, blanks + rest);
  }

  lemma Slices(lines: seq<Line>, a: nat, b: nat, c: nat)
    requires a <= b <= c <= |lines|
    ensures lines[a..] == lines[a..b] + (lines[b..c] + lines[c..])
    ensures lines[a..c] == lines[a..b] + lines[b..c]
    ensures lines[a..][..b - a] == lines[a..b]
  {
  }

  lemma ScanHalves(body: seq<Line>, blanks: seq<Line>, rest: seq<Line>)
    requires AllInBlock(body)
    requires body == [] || !Blank(body[|body| - 1])
    requires AllBlank(blanks)
    requires rest == [] || !InBlock(rest[0])
    ensures BlockLen(blanks + rest) == 0
    ensures BlockIndent(body + blanks) == BlockIndent(body)
  {
    BlockLenOfBlanks(blanks, rest);
    FirstIndentConcat(body, blanks);
    FirstIndentOfBlanks(blanks);
  }

  /** Scans once, keeping the last non-blank line and the first item's indentation. */
  method DescribeSequenceBlock(lines: seq<Line>, keyIndex: nat)
    returns (insertAt: nat, indent: Line)
    requires keyIndex < |lines|
    ensures (insertAt, indent) == Describe(lines, keyIndex)
  {
    insertAt := keyIndex + 1;
    var cursor := keyIndex + 1;
    var found: Option<Line> := None;
    while cursor < |lines|
      invariant keyIndex < insertAt <= cursor <= |lines|
      invariant insertAt == keyIndex + 1 || !Blank(lines[insertAt - 1])
      invariant forall i | keyIndex < i < cursor :: InBlock(lines[i])
      invariant forall i | insertAt <= i < cursor :: Blank(lines[i])
      invariant found == FirstIndent(lines[keyIndex + 1..cursor])
    {
      var line := lines[cursor];
      ScanOne(lines, keyIndex, cursor);
      assert IsItem(line) ==> InBlock(line);
      if !Blank(line) {
        var isItem := IsItem(line);
        if !IsSpace(line[0]) && !isItem {
          assert !InBlock(line);
          break;
        }
        if found.None? && isItem {
          found := Some(LeadingSpace(line));
        }
        insertAt := cursor + 1;
      }
      cursor := cursor + 1;
    }
    indent := if found.None? then DEFAULT_ITEM_INDENT else found.value;
    ScanDone(lines, keyIndex, insertAt, cursor);
  }

  /** The block a document has under a key, as its two halves determine it. */
  lemma {:induction false} BlockLenUnique(body: seq<Line>, rest: seq<Line>)
    requires AllInBlock(body)
    requires body == [] || !Blank(body[|body| - 1])
    requires BlockLen(rest) == 0
    ensures BlockLen(body + rest) == |body|
  {
    if body == [] {
      assert body + rest == rest;
    } else {
      assert (body + rest)[1..] == body[1..] + rest;
      BlockLenUnique(body[1..], rest);
    }
  }

  // ---------------------------------------------------------------------
  // A document around a key: up to the key, the block, and the rest
  // ---------------------------------------------------------------------

  ghost predicate Splits(lines: seq<Line>, key: string, head: seq<Line>, body: seq<Line>, rest: seq<Line>) {
    && lines == head + body + rest
    && head != [] && Find(head, key) == At(|head| - 1)
    && AllInBlock(body)
    && (body == [] || !Blank(body[|body| - 1]))
    && BlockLen(rest) == 0
  }

  lemma {:induction false} FindConcat(a: seq<Line>, b: seq<Line>, key: string)
    ensures Find(a + b, key) == if Find(a, key).Absent? then Shift(|a|, Find(b, key)) else Find(a, key)
  {
    if a == [] {
      assert a + b == b;
    } else {
      assert (a + b)[1..] == a[1..] + b;
      FindConcat(a[1..], b, key);
    }
  }

  lemma {:induction false} BlockHalves(tail: seq<Line>)
    ensures forall i | 0 <= i < BlockLen(tail) :: InBlock(tail[i])
    ensures BlockLen(tail[BlockLen(tail)..]) == 0
  {
    if tail != [] && InBlock(tail[0]) {
      BlockHalves(tail[1..]);
      var n := BlockLen(tail);
      if n > 0 {
        assert tail[1..][BlockLen(tail[1..])..] == tail[n..];
        assert forall i | 0 < i < n :: tail[i] == tail[1..][i - 1];
      } else {
        assert tail[0..] == tail;
      }
    } else {
      assert tail[0..] == tail;
    }
  }

  /** Every document with the key has such a split. */
  lemma SplitExists(lines: seq<Line>, key: string) returns (head: seq<Line>, body: seq<Line>, rest: seq<Line>)
    requires Find(lines, key).At?
    ensures Splits(lines, key, head, body, rest)
    ensures head == lines[..Find(lines, key).index + 1]
  {
    var k := Find(lines, key).index;
    var tail := lines[k + 1..];
    head, body, rest := lines[..k + 1], tail[..BlockLen(tail)], tail[BlockLen(tail)..];
    BlockHalves(tail);
    FindUpTo(lines, key, k);
    Halves(lines, k + 1, BlockLen(tail));
  }

  lemma FindUpTo(lines: seq<Line>, key: string, k: nat)
    requires k < |lines| && Find(lines, key) == At(k)
    ensures Find(lines[..k + 1], key) == At(k)
  {
    var head, tail := lines[..k + 1], lines[k + 1..];
    assert lines == head + tail;
    FindConcat(head, tail, key);
    assert KeyLine(head[k], key);
  }

  lemma Halves(lines: seq<Line>, m: nat, n: nat)
    requires m <= |lines| && n <= |lines[m..]|
    ensures lines == lines[..m] + lines[m..][..n] + lines[m..][n..]
  {
  }

  /** The scan finds the split it is given: its end and its indentation are the block's own. */
  lemma SplitDescribe(lines: seq<Line>, key: string, head: seq<Line>, body: seq<Line>, rest: seq<Line>)
    requires Splits(lines, key, head, body, rest)
    ensures Find(lines, key) == At(|head| - 1)
    ensures Describe(lines, |head| - 1) == (|head| + |body|, BlockIndent(body))
  {
    AfterHead(lines, head, body, rest);
    FindAtHead(lines, head, body + rest, key);
    DescribeAfterHead(lines, head, body, rest);
  }

  lemma DescribeAfterHead(lines: seq<Line>, head: seq<Line>, body: seq<Line>, rest: seq<Line>)
    requires lines == head + body + rest && head != []
    requires AllInBlock(body)
    requires body == [] || !Blank(body[|body| - 1])
    requires BlockLen(rest) == 0
    ensures Describe(lines, |head| - 1) == (|head| + |body|, BlockIndent(body))
  {
    AfterHead(lines, head, body, rest);
    DescribeTail(lines, |head| - 1, lines[|head|..], body, rest);
  }

  lemma FindAtHead(lines: seq<Line>, head: seq<Line>, tail: seq<Line>, key: string)
    requires lines == head + tail && Find(head, key).At?
    ensures Find(lines, key) == Find(head, key)
  {
    FindConcat(head, tail, key);
  }

  lemma AfterHead(lines: seq<Line>, head: seq<Line>, body: seq<Line>, rest: seq<Line>)
    requires lines == head + body + rest
    ensures lines == head + (body + rest) && lines[|head|..] == body + rest
  {
  }

  lemma DescribeTail(lines: seq<Line>, keyIndex: nat, tail: seq<Line>, body: seq<Line>, rest: seq<Line>)
    requires keyIndex < |lines| && lines[keyIndex + 1..] == tail == body + rest
    requires AllInBlock(body)
    requires body == [] || !Blank(body[|body| - 1])
    requires BlockLen(rest) == 0
    ensures Describe(lines, keyIndex) == (keyIndex + 1 + |body|, BlockIndent(body))
  {
    BlockLenUnique(body, rest);
    assert tail[..|body|] == body;
  }

  lemma BlockLenAppendBlanks(tail: seq<Line>, blanks: seq<Line>)
    requires AllBlank(blanks)
    ensures BlockLen(tail + blanks) == BlockLen(tail)
  {
    if tail == [] {
      assert tail + blanks == blanks == blanks + [];
      BlockLenOfBlanks(blanks, []);
    } else {
      assert (tail + blanks)[1..] == tail[1..] + blanks;
      BlockLenAppendBlanks(tail[1..], blanks);
    }
  }

  /** Dropping the empty lines at the end leaves the block where it was. */
  lemma SplitTrim(lines: seq<Line>, key: string, head: seq<Line>, body: seq<Line>, rest: seq<Line>)
    requires Splits(lines, key, head, body, rest)
    ensures TrimEmpty(lines) == head + body + TrimEmpty(rest)
    ensures Splits(TrimEmpty(lines), key, head, body, TrimEmpty(rest))
  {
    var front := head + body;
    assert front[|front| - 1] != "" by {
      if body == [] {
        assert KeyLine(front[|front| - 1], key);
      }
    }
    TrimKeepsFront(front, rest);
    TrimIsPrefix(rest);
    var kept := TrimEmpty(rest);
    assert rest == kept + rest[|kept|..];
    BlockLenAppendBlanks(kept, rest[|kept|..]);
  }

  /** Inserting block lines at the described end extends the block by exactly those
      lines and, when they bring no first item of another depth, keeps its indentation. */
  lemma SplitInsert(lines: seq<Line>, key: string, head: seq<Line>, body: seq<Line>, rest: seq<Line>, added: seq<Line>)
    requires Splits(lines, key, head, body, rest)
    requires AllInBlock(added)
    requires added != [] && !Blank(added[|added| - 1])
    ensures Splits(head + (body + added) + rest, key, head, body + added, rest)
    ensures FirstIndent(added) == Some(BlockIndent(body)) ==> BlockIndent(body + added) == BlockIndent(body)
  {
    FirstIndentConcat(body, added);
  }

  /** The key lemma: after lines are inserted at the point the scan returns, scanning again
      returns the end moved by exactly those lines. The indentation stays when the block
      had an item, or when the lines open with one at the indentation they were given. */
  lemma InsertDescribes(lines: seq<Line>, key: string, head: seq<Line>, body: seq<Line>, rest: seq<Line>,
                        added: seq<Line>, longer: seq<Line>)
    requires Splits(lines, key, head, body, rest) && longer == body + added
    requires AllInBlock(added) && added != [] && !Blank(added[|added| - 1])
    ensures Describe(lines, |head| - 1) == (|head| + |body|, BlockIndent(body))
    ensures Find(head + longer + rest, key) == At(|head| - 1)
    ensures Describe(head + longer + rest, |head| - 1) == (|head| + |body| + |added|, BlockIndent(longer))
    ensures FirstIndent(body).Some? || FirstIndent(added) == Some(BlockIndent(body)) ==>
              BlockIndent(longer) == BlockIndent(body)
  {
    SplitDescribe(lines, key, head, body, rest);
    LongerBlock(body, added, longer);
    ExtendedDescribes(key, head, longer, rest, head + longer + rest);
  }

  lemma LongerBlock(body: seq<Line>, added: seq<Line>, longer: seq<Line>)
    requires AllInBlock(body) && AllInBlock(added) && longer == body + added
    requires added != [] && !Blank(added[|added| - 1])
    ensures AllInBlock(longer) && longer != [] && !Blank(longer[|longer| - 1])
    ensures FirstIndent(body).Some? || FirstIndent(added) == Some(BlockIndent(body)) ==>
              BlockIndent(longer) == BlockIndent(body)
  {
    FirstIndentConcat(body, added);
  }

  lemma ExtendedDescribes(key: string, head: seq<Line>, longer: seq<Line>, behind: seq<Line>, extended: seq<Line>)
    requires head != [] && Find(head, key) == At(|head| - 1)
    requires AllInBlock(longer) && longer != [] && !Blank(longer[|longer| - 1])
    requires BlockLen(behind) == 0 && extended == head + longer + behind
    ensures Find(extended, key) == At(|head| - 1) && |head| <= |extended|
    ensures Describe(extended, |head| - 1) == (|head| + |longer|, BlockIndent(longer))
  {
    SplitDescribe(extended, key, head, longer, behind);
  }

  // ---------------------------------------------------------------------
  // Lines that are never a top-level key
  // ---------------------------------------------------------------------

  predicate Inert(line: Line) {
    line == "" || IsSpace(line[0]) || line[0] == '-'
  }

  predicate AllInert(lines: seq<Line>) {
    forall i | 0 <= i < |lines| :: Inert(lines[i])
  }

  predicate PlainKey(key: string) {
    key != "" && !IsSpace(key[0]) && key[0] != '-'
  }

  lemma InertHasNoKey(lines: seq<Line>, key: string)
    requires AllInert(lines) && PlainKey(key)
    ensures Find(lines, key) == Absent
  {
    if lines != [] {
      InertHasNoKey(lines[1..], key);
    }
  }

  /** Adding lines that carry no key neither creates, removes nor changes the style of one. */
  lemma FindAcrossInert(a: seq<Line>, added: seq<Line>, b: seq<Line>, key: string)
    requires AllInert(added) && PlainKey(key)
    ensures Find(a + added + b, key).Flow? == Find(a + b, key).Flow?
    ensures Find(a + added + b, key).Absent? == Find(a + b, key).Absent?
  {
    InertHasNoKey(added, key);
    assert a + added + b == a + (added + b);
    FindConcat(a, added + b, key);
    FindConcat(added, b, key);
    FindConcat(a, b, key);
  }
}
