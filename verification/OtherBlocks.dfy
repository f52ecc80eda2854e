/** What an edit under one key leaves under every other key. */
module OtherBlocks {
  import opened Outcomes
  import opened Text
  import opened SequenceBlock
  import opened DocumentLines
  import opened AppendFacts

  // ---------------------------------------------------------------------
  // What follows a block
  // ---------------------------------------------------------------------

  function BlankPrefix(lines: seq<Line>): seq<Line> {
    if lines == [] || !Blank(lines[0]) then [] else [lines[0]] + BlankPrefix(lines[1..])
  }

  /** The blank lines between a block and what follows it, less the empty ones at their
      end, which an edit may drop. */
  function Margin(rest: seq<Line>): seq<Line> {
    TrimEmpty(BlankPrefix(rest))
  }

  predicate AllEmpty(lines: seq<Line>) {
    forall i | 0 <= i < |lines| :: lines[i] == ""
  }

  lemma {:induction false} PrefixStops(front: seq<Line>, more: seq<Line>)
    requires !AllBlank(front)
    ensures BlankPrefix(front + more) == BlankPrefix(front)
  {
    assert (front + more)[0] == front[0];
    if Blank(front[0]) {
      assert (front + more)[1..] == front[1..] + more;
      PrefixStops(front[1..], more);
    }
  }

  lemma {:induction false} PrefixOfBlanks(lines: seq<Line>)
    requires AllBlank(lines)
    ensures BlankPrefix(lines) == lines
  {
    if lines != [] {
      PrefixOfBlanks(lines[1..]);
    }
  }

  lemma {:induction false} BlockStops(front: seq<Line>, more: seq<Line>)
    requires !AllInBlock(front)
    ensures BlockLen(front + more) == BlockLen(front)
  {
    assert (front + more)[0] == front[0];
    if InBlock(front[0]) {
      assert (front + more)[1..] == front[1..] + more;
      BlockStops(front[1..], more);
    }
  }

  lemma {:induction false} BlockStaysClosed(rest: seq<Line>, next: Line, more: seq<Line>)
    requires BlockLen(rest) == 0 && !InBlock(next)
    ensures BlockLen(rest + ([next] + more)) == 0
  {
    if rest == [] {
      assert rest + ([next] + more) == [next] + more;
    } else if InBlock(rest[0]) {
      assert (rest + ([next] + more))[1..] == rest[1..] + ([next] + more);
      BlockStaysClosed(rest[1..], next, more);
    }
  }

  lemma {:induction false} MarginTrim(rest: seq<Line>)
    ensures Margin(TrimEmpty(rest)) == Margin(rest)
    decreases |rest|
  {
    if EndsEmpty(rest) {
      var init := rest[..|rest| - 1];
      MarginTrim(init);
      assert rest == init + [""];
      if AllBlank(init) {
        PrefixOfBlanks(init);
        PrefixOfBlanks(rest);
      } else {
        PrefixStops(init, [""]);
      }
    }
  }

  /** A closing line after the trimmed rest leaves the margin as it was. */
  lemma MarginClosed(rest: seq<Line>, next: Line, more: seq<Line>)
    requires !Blank(next)
    ensures Margin(TrimEmpty(rest) + ([next] + more)) == Margin(rest)
  {
    var text := TrimEmpty(rest);
    MarginTrim(rest);
    if AllBlank(text) {
      PrefixOfBlanks(text);
      PrefixAtLine(text, next, more);
    } else {
      PrefixStops(text, [next] + more);
    }
  }

  lemma {:induction false} PrefixAtLine(blanks: seq<Line>, next: Line, more: seq<Line>)
    requires AllBlank(blanks) && !Blank(next)
    ensures BlankPrefix(blanks + ([next] + more)) == blanks
  {
    if blanks == [] {
      assert blanks + ([next] + more) == [next] + more;
    } else {
      assert (blanks + ([next] + more))[1..] == blanks[1..] + ([next] + more);
      PrefixAtLine(blanks[1..], next, more);
    }
  }

  lemma KeyLineCloses(line: Line, key: string)
    requires KeyLine(line, key) && PlainKey(key)
    ensures !InBlock(line) && !Blank(line)
  {
    assert line[0] == (key + ":")[0] == key[0];
  }

  // ---------------------------------------------------------------------
  // Another key's block when a block is rewritten
  // ---------------------------------------------------------------------

  /** The other key stands before: its block ends before this key's line. */
  lemma OtherBefore(head: seq<Line>, body: seq<Line>, rest: seq<Line>, key: string, written: seq<Line>,
                    other: string, otherHead: seq<Line>, otherBody: seq<Line>, otherRest: seq<Line>)
    returns (newRest: seq<Line>)
    requires Splits(head + body + rest, key, head, body, rest) && PlainKey(key)
    requires Splits(head + body + rest, other, otherHead, otherBody, otherRest)
    requires |otherHead| < |head|
    ensures Splits(head + written + rest, other, otherHead, otherBody, newRest)
    ensures Margin(newRest) == Margin(otherRest) && !AllEmpty(newRest) && !AllEmpty(otherRest)
  {
    var lines := head + body + rest;
    var n, m := |head|, |otherHead| + |otherBody|;
    KeyLineCloses(head[n - 1], key);
    assert lines[n - 1] == head[n - 1];
    assert forall i | |otherHead| <= i < m :: lines[i] == otherBody[i - |otherHead|];
    assert m < n;
    var front := head[m..];
    assert front[|front| - 1] == head[n - 1];
    OtherParts(head, body, rest, otherHead, otherBody, otherRest, front);
    OtherParts2(head, written, rest, otherHead, otherBody, front);
    BlockStops(front, body + rest);
    BlockStops(front, written + rest);
    PrefixStops(front, body + rest);
    PrefixStops(front, written + rest);
    newRest := front + (written + rest);
    assert newRest[|front| - 1] == otherRest[|front| - 1] == head[n - 1];
  }

  lemma OtherParts(head: seq<Line>, body: seq<Line>, rest: seq<Line>,
                   otherHead: seq<Line>, otherBody: seq<Line>, otherRest: seq<Line>, front: seq<Line>)
    requires head + body + rest == otherHead + otherBody + otherRest
    requires |otherHead| + |otherBody| <= |head| && front == head[|otherHead| + |otherBody|..]
    ensures head == otherHead + otherBody + front
    ensures otherRest == front + (body + rest)
  {
    var lines, m := head + body + rest, |otherHead| + |otherBody|;
    assert lines[..m] == otherHead + otherBody == head[..m];
    assert otherRest == lines[m..];
  }

  lemma OtherParts2(head: seq<Line>, written: seq<Line>, rest: seq<Line>,
                    otherHead: seq<Line>, otherBody: seq<Line>, front: seq<Line>)
    requires head == otherHead + otherBody + front
    ensures head + written + rest == otherHead + otherBody + (front + (written + rest))
  {
  }

  /** The other key stands after: only its head changes. */
  lemma OtherAfter(head: seq<Line>, body: seq<Line>, rest: seq<Line>, written: seq<Line>,
                   other: string, otherHead: seq<Line>, otherBody: seq<Line>, otherRest: seq<Line>)
    returns (newHead: seq<Line>)
    requires AllInBlock(body) && AllInBlock(written) && PlainKey(other)
    requires Splits(head + body + rest, other, otherHead, otherBody, otherRest)
    requires |otherHead| > |head| + |body|
    ensures Splits(head + written + rest, other, newHead, otherBody, otherRest)
  {
    var between := rest[..|otherHead| - |head| - |body|];
    AfterParts(head, body, rest, otherHead, otherBody, otherRest, between);
    newHead := head + written + between;
    AfterParts2(head, written, rest, newHead, otherBody, otherRest, between);
    FindMoves(head, body, written, between, other);
  }

  lemma AfterParts(head: seq<Line>, body: seq<Line>, rest: seq<Line>,
                   otherHead: seq<Line>, otherBody: seq<Line>, otherRest: seq<Line>, between: seq<Line>)
    requires head + body + rest == otherHead + otherBody + otherRest
    requires |otherHead| > |head| + |body| && between == rest[..|otherHead| - |head| - |body|]
    ensures otherHead == head + body + between
    ensures rest == between + (otherBody + otherRest)
  {
    var lines, m := head + body + rest, |head| + |body|;
    assert lines[..|otherHead|] == otherHead == head + body + between;
    assert rest == lines[m..];
    assert rest[|between|..] == lines[|otherHead|..] == otherBody + otherRest;
    assert rest == between + rest[|between|..];
  }

  lemma AfterParts2(head: seq<Line>, written: seq<Line>, rest: seq<Line>, newHead: seq<Line>,
                    otherBody: seq<Line>, otherRest: seq<Line>, between: seq<Line>)
    requires rest == between + (otherBody + otherRest) && newHead == head + written + between
    ensures head + written + rest == newHead + otherBody + otherRest
  {
  }

  lemma FindMoves(head: seq<Line>, body: seq<Line>, written: seq<Line>, between: seq<Line>, key: string)
    requires AllInBlock(body) && AllInBlock(written) && PlainKey(key) && between != []
    requires Find(head + body + between, key) == At(|head + body + between| - 1)
    ensures Find(head + written + between, key) == At(|head + written + between| - 1)
  {
    InertHasNoKey(body, key);
    InertHasNoKey(written, key);
    FindConcat(head + body, between, key);
    FindConcat(head, body, key);
    FindConcat(head + written, between, key);
    FindConcat(head, written, key);
  }

  /** Whatever is written in the place of a block, every other key keeps its block line for
      line, and the blank lines behind it. */
  lemma OtherKept(head: seq<Line>, body: seq<Line>, rest: seq<Line>, key: string, written: seq<Line>,
                  other: string, otherHead: seq<Line>, otherBody: seq<Line>, otherRest: seq<Line>)
    returns (newHead: seq<Line>, newRest: seq<Line>)
    requires Splits(head + body + rest, key, head, body, rest) && PlainKey(key)
    requires Splits(head + body + rest, other, otherHead, otherBody, otherRest) && PlainKey(other)
    requires Apart(key, other) && AllInBlock(written)
    ensures Splits(head + written + rest, other, newHead, otherBody, newRest)
    ensures Margin(newRest) == Margin(otherRest) && (AllEmpty(newRest) <==> AllEmpty(otherRest))
  {
    OtherIsOutside(head, body, rest, key, other, otherHead, otherBody, otherRest);
    if |otherHead| < |head| {
      newHead := otherHead;
      newRest := OtherBefore(head, body, rest, key, written, other, otherHead, otherBody, otherRest);
    } else {
      newHead := OtherAfter(head, body, rest, written, other, otherHead, otherBody, otherRest);
      newRest := otherRest;
    }
  }

  lemma OtherIsOutside(head: seq<Line>, body: seq<Line>, rest: seq<Line>, key: string,
                       other: string, otherHead: seq<Line>, otherBody: seq<Line>, otherRest: seq<Line>)
    requires Splits(head + body + rest, key, head, body, rest) && PlainKey(key)
    requires Splits(head + body + rest, other, otherHead, otherBody, otherRest) && PlainKey(other)
    requires Apart(key, other)
    ensures |otherHead| < |head| || |otherHead| > |head| + |body|
  {
    var lines, j := head + body + rest, |otherHead| - 1;
    assert lines[j] == otherHead[j];
    KeyLineCloses(otherHead[j], other);
    assert forall i | |head| <= i < |head| + |body| :: lines[i] == body[i - |head|];
    assert lines[|head| - 1] == head[|head| - 1];
    OneKey(head[|head| - 1], key, other);
  }

  // ---------------------------------------------------------------------
  // Another key's block when an entry is appended
  // ---------------------------------------------------------------------

  /** An append under one key: every other key keeps its block line for line, and the
      blank lines behind it. What follows it is only empty lines if and only if that was
      so and no new key was made behind it. */
  lemma OtherAfterAppend(lines: seq<Line>, key: Line, marker: string, entry: seq<Line>, initial: seq<Line>,
                         other: string, otherHead: seq<Line>, otherBody: seq<Line>, otherRest: seq<Line>)
    returns (newHead: seq<Line>, newRest: seq<Line>)
    requires Append(lines, key, marker, entry, initial).Ok? && AllInBlock(entry)
    requires PlainKey(key) && PlainKey(other) && other[0] != '#' && Apart(key, other)
    requires Splits(lines, other, otherHead, otherBody, otherRest)
    ensures Splits(Append(lines, key, marker, entry, initial).value, other, newHead, otherBody, newRest)
    ensures Margin(newRest) == Margin(otherRest)
    ensures AllEmpty(newRest) <==> AllEmpty(otherRest) && (HasLine(lines, marker) || Find(lines, key).At?)
  {
    if HasLine(lines, marker) {
      SplitTrim(lines, other, otherHead, otherBody, otherRest);
      MarginTrim(otherRest);
      TrimIsPrefix(otherRest);
      newHead, newRest := otherHead, TrimEmpty(otherRest);
      assert forall i | 0 <= i < |newRest| :: otherRest[i] == newRest[i];
    } else if Find(lines, key).Absent? {
      newHead, newRest := OtherAfterNewKey(lines, key, initial, other, otherHead, otherBody, otherRest);
    } else {
      var head, body, rest := SplitExists(lines, key);
      SplitDescribe(lines, key, head, body, rest);
      InsertAt(lines, head, body, rest, entry);
      newHead, newRest := OtherKept(head, body, rest, key, body + entry, other, otherHead, otherBody, otherRest);
    }
  }

  lemma InsertAt(lines: seq<Line>, head: seq<Line>, body: seq<Line>, rest: seq<Line>, entry: seq<Line>)
    requires lines == head + body + rest
    ensures Insert(lines, |head| + |body|, entry) == head + (body + entry) + rest
  {
    assert lines[..|head| + |body|] == head + body;
    assert lines[|head| + |body|..] == rest;
    Regroup(head, body, entry, rest);
    Regroup([], head + body, entry, rest);
  }

  lemma OtherAfterNewKey(lines: seq<Line>, key: Line, initial: seq<Line>,
                         other: string, otherHead: seq<Line>, otherBody: seq<Line>, otherRest: seq<Line>)
    returns (newHead: seq<Line>, newRest: seq<Line>)
    requires PlainKey(key) && PlainKey(other) && other[0] != '#'
    requires Splits(lines, other, otherHead, otherBody, otherRest)
    ensures Splits(AppendBlock(lines, [key + ":"] + initial), other, newHead, otherBody, newRest)
    ensures Margin(newRest) == Margin(otherRest) && !AllEmpty(newRest)
  {
    var text, block := TrimEmpty(lines), [key + ":"] + initial;
    var before: seq<Line> := if FirstContent(text) == HEADER then [] else [HEADER];
    KeyLineCloses(key + ":", key);
    KeyLineCloses(otherHead[|otherHead| - 1], other);
    assert lines[|otherHead| - 1] == otherHead[|otherHead| - 1];
    SplitTrim(lines, other, otherHead, otherBody, otherRest);
    AppendBlockIs(lines, text, block);
    BlockStaysClosed(TrimEmpty(otherRest), key + ":", initial);
    MarginClosed(otherRest, key + ":", initial);
    newHead, newRest := before + otherHead, TrimEmpty(otherRest) + block;
    assert newRest[|TrimEmpty(otherRest)|] == key + ":";
    FindBehindHeader(before, otherHead, other);
    NewParts(before, otherHead, otherBody, TrimEmpty(otherRest), block);
  }

  lemma FindBehindHeader(before: seq<Line>, head: seq<Line>, key: string)
    requires before == [] || before == [HEADER]
    requires PlainKey(key) && key[0] != '#' && Find(head, key).At?
    ensures Find(before + head, key) == Shift(|before|, Find(head, key))
  {
    assert (key + ":")[0] == key[0] && HEADER[0] == '#';
    FindConcat(before, head, key);
    if before == [HEADER] {
      FindOne(HEADER, key);
    } else {
      assert before + head == head;
    }
  }

  lemma NewParts(before: seq<Line>, head: seq<Line>, body: seq<Line>, rest: seq<Line>, block: seq<Line>)
    ensures before + (head + body + rest + block) == (before + head) + body + (rest + block)
    ensures before == [] ==> head + body + rest + block == before + (head + body + rest + block)
  {
  }
}
