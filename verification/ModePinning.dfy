/** What pinning a mode does to a document. */
module ModePinning {
  import opened Outcomes
  import opened Text
  import opened SequenceBlock
  import opened DocumentLines
  import opened ModeCommands

  /** The document holds none of these commands. */
  ghost predicate Lacks(lines: seq<Line>, commands: set<Line>) {
    forall c | c in commands :: !HasLine(lines, "- " + c)
  }

  function AsSet(commands: seq<Line>): set<Line> {
    set c | c in commands
  }

  lemma {:induction false} WithoutConcat(a: seq<Line>, b: seq<Line>, unwanted: set<string>)
    ensures Without(a + b, unwanted) == Without(a, unwanted) + Without(b, unwanted)
  {
    if a == [] {
      assert a + b == b;
    } else {
      assert (a + b)[1..] == a[1..] + b;
      WithoutConcat(a[1..], b, unwanted);
    }
  }

  lemma {:induction false} WithoutKeepsBlock(body: seq<Line>, unwanted: set<string>)
    requires AllInBlock(body)
    ensures AllInBlock(Without(body, unwanted))
  {
    if body != [] {
      assert forall i | 0 < i < |body| :: body[i] == body[1..][i - 1];
      WithoutKeepsBlock(body[1..], unwanted);
    }
  }

  lemma {:induction false} HasLineWithout(body: seq<Line>, unwanted: set<string>, content: string)
    ensures HasLine(Without(body, unwanted), content) <==> HasLine(body, content) && content !in unwanted
  {
    if body != [] {
      var kept := if Strip(body[0]) in unwanted then [] else [body[0]];
      HasLineWithout(body[1..], unwanted, content);
      HasLineConcat(kept, Without(body[1..], unwanted), content);
      HasLineConcat([body[0]], body[1..], content);
      assert [body[0]] + body[1..] == body;
      assert HasLine([body[0]], content) <==> Strip([body[0]][0]) == content;
    }
  }

  lemma {:induction false} WithoutNothing(lines: seq<Line>, commands: set<Line>)
    requires Lacks(lines, commands)
    ensures Without(lines, AsItems(commands)) == lines
  {
    if lines != [] {
      assert lines == [lines[0]] + lines[1..];
      forall c | c in commands ensures !HasLine(lines[1..], "- " + c) && Strip(lines[0]) != "- " + c {
        HasLineConcat([lines[0]], lines[1..], "- " + c);
        assert HasLine([lines[0]], "- " + c) <==> Strip([lines[0]][0]) == "- " + c;
      }
      WithoutNothing(lines[1..], commands);
    }
  }

  lemma {:induction false} WithoutItems(indent: Line, commands: seq<Line>, superseded: set<Line>)
    requires Blank(indent) && AllProper(commands)
    ensures Without(Items(indent, commands), AsItems(superseded)) == Items(indent, Survivors(commands, superseded))
  {
    if commands != [] {
      WithoutItems(indent, commands[1..], superseded);
      ItemFacts(indent, commands[0]);
      forall c | c in superseded ensures "- " + c == "- " + commands[0] <==> c == commands[0] {
        SameItem(c, commands[0]);
      }
      assert Items(indent, commands)[1..] == Items(indent, commands[1..]);
      var rest := Survivors(commands[1..], superseded);
      if commands[0] in superseded {
        assert Survivors(commands, superseded) == rest;
        assert Without(Items(indent, commands), AsItems(superseded)) == Items(indent, rest);
      } else {
        assert Survivors(commands, superseded) == [commands[0]] + rest;
        assert ([commands[0]] + rest)[1..] == rest;
      }
    }
  }

  /** The lines up to the last that is not blank. */
  function TrimBlank(lines: seq<Line>): (core: seq<Line>)
    ensures core <= lines && (core == [] || !Blank(core[|core| - 1]))
    ensures AllBlank(lines[|core|..])
  {
    if lines != [] && Blank(lines[|lines| - 1]) then
      var core := TrimBlank(lines[..|lines| - 1]);
      assert lines[|core|..] == lines[..|lines| - 1][|core|..] + [lines[|lines| - 1]];
      core
    else
      lines
  }

  lemma DropAt(lines: seq<Line>, head: seq<Line>, body: seq<Line>, rest: seq<Line>, superseded: set<Line>)
    requires Splits(lines, RUNCMD, head, body, rest)
    ensures DropItems(lines, superseded) == Ok(head + Without(body, AsItems(superseded)) + rest)
  {
    SplitDescribe(lines, RUNCMD, head, body, rest);
    var end := |head| + |body|;
    assert lines[..|head|] == head;
    assert lines[|head|..end] == body;
    assert lines[end..] == rest;
  }

  lemma CoreIsBlock(kept: seq<Line>, rest: seq<Line>)
    requires AllInBlock(kept) && BlockLen(rest) == 0
    ensures AllInBlock(TrimBlank(kept))
    ensures BlockLen(kept[|TrimBlank(kept)|..] + rest) == 0
    ensures TrimBlank(kept) + kept[|TrimBlank(kept)|..] == kept
  {
    var core := TrimBlank(kept);
    assert forall i | 0 <= i < |core| :: core[i] == kept[i];
    BlockLenOfBlanks(kept[|core|..], rest);
  }

  /** Dropping items leaves the key's block with the other lines, less the blank ones
      that are now at its end. */
  lemma CoreSplits(head: seq<Line>, body: seq<Line>, rest: seq<Line>, unwanted: set<string>)
    returns (core: seq<Line>, tail: seq<Line>)
    requires Splits(head + body + rest, RUNCMD, head, body, rest)
    ensures core == TrimBlank(Without(body, unwanted))
    ensures tail == Without(body, unwanted)[|core|..] + rest
    ensures head + Without(body, unwanted) + rest == head + core + tail
    ensures Splits(head + core + tail, RUNCMD, head, core, tail)
  {
    var kept := Without(body, unwanted);
    core := TrimBlank(kept);
    tail := kept[|core|..] + rest;
    WithoutKeepsBlock(body, unwanted);
    CoreIsBlock(kept, rest);
    Regroup(head, core, kept[|core|..], rest);
  }

  lemma PinAt(lines: seq<Line>, head: seq<Line>, body: seq<Line>, rest: seq<Line>,
              wanted: seq<Line>, superseded: set<Line>)
    returns (core: seq<Line>, tail: seq<Line>)
    requires Splits(lines, RUNCMD, head, body, rest)
    requires AllProper(wanted) && Distinct(wanted)
    ensures var kept := Without(body, AsItems(superseded));
            && core == TrimBlank(kept) && tail == kept[|core|..] + rest
            && head + kept + rest == head + core + tail
            && DropItems(lines, superseded) == Ok(head + core + tail)
            && Splits(head + core + tail, RUNCMD, head, core, tail)
    ensures Pin(lines, wanted, superseded) ==
            Ok(Appended(head, core, tail, Missing(head + core + tail, wanted), wanted))
  {
    core, tail := CoreSplits(head, body, rest, AsItems(superseded));
    DropAt(lines, head, body, rest, superseded);
    AppendAllShape(head + core + tail, head, core, tail, wanted);
  }

  // ---------------------------------------------------------------------
  // A later mode replaces an earlier one
  // ---------------------------------------------------------------------

  function Pinned(head: seq<Line>, body: seq<Line>, rest: seq<Line>, commands: seq<Line>): seq<Line> {
    head + (body + Items(BlockIndent(body), commands)) + rest
  }

  lemma HasLinePinned(head: seq<Line>, body: seq<Line>, rest: seq<Line>, commands: seq<Line>, content: string)
    requires AllProper(commands)
    ensures HasLine(Pinned(head, body, rest, commands), content) <==>
            HasLine(head + body + rest, content) || exists i | 0 <= i < |commands| :: content == "- " + commands[i]
  {
    var items := Items(BlockIndent(body), commands);
    HasLineItems(BlockIndent(body), commands, content);
    HasLineConcat(head + (body + items), rest, content);
    HasLineConcat(head, body + items, content);
    HasLineConcat(body, items, content);
    HasLineConcat(head + body, rest, content);
    HasLineConcat(head, body, content);
  }

  lemma PinnedSplits(head: seq<Line>, body: seq<Line>, rest: seq<Line>, commands: seq<Line>)
    requires Splits(head + body + rest, RUNCMD, head, body, rest) && AllProper(commands)
    ensures Splits(Pinned(head, body, rest, commands), RUNCMD,
                   head, body + Items(BlockIndent(body), commands), rest)
    ensures BlockIndent(body + Items(BlockIndent(body), commands)) == BlockIndent(body)
  {
    var items := Items(BlockIndent(body), commands);
    ItemsFacts(BlockIndent(body), commands);
    if commands == [] {
      assert body + items == body;
    } else {
      SplitInsert(head + body + rest, RUNCMD, head, body, rest, items);
    }
  }

  lemma {:induction false} MissingTail(lines: seq<Line>, held: seq<Line>, others: seq<Line>)
    requires forall i | 0 <= i < |held| :: HasLine(lines, "- " + held[i])
    requires forall i | 0 <= i < |others| :: !HasLine(lines, "- " + others[i])
    ensures Missing(lines, held + others) == others
  {
    if held == [] {
      assert held + others == others;
      MissingFits(lines, others);
    } else {
      assert (held + others)[1..] == held[1..] + others;
      MissingTail(lines, held[1..], others);
    }
  }

  /** Pinning `after` on a document that carries `before` at the end of its block, and
      otherwise none of either's commands, leaves it carrying `after` in that same place. */
  lemma Repin(head: seq<Line>, body: seq<Line>, rest: seq<Line>, before: seq<Line>, after: seq<Line>,
              superseded: set<Line>)
    requires Splits(head + body + rest, RUNCMD, head, body, rest) && !EndsEmpty(rest)
    requires AllProper(before) && AllProper(after) && Distinct(after)
    requires Lacks(head + body + rest, AsSet(after)) && Lacks(head + body + rest, superseded)
    requires Survivors(before, superseded) <= after
    ensures Pin(Pinned(head, body, rest, before), after, superseded) == Ok(Pinned(head, body, rest, after))
  {
    var indent := BlockIndent(body);
    var survivors := Survivors(before, superseded);
    var others := after[|survivors|..];
    assert after == survivors + others;
    PinnedSplits(head, body, rest, before);
    PinnedSplits(head, body, rest, survivors);
    var held := body + Items(indent, survivors);
    LacksPart(head, body, rest, superseded);
    WithoutConcat(body, Items(indent, before), AsItems(superseded));
    WithoutNothing(body, superseded);
    WithoutItems(indent, before, superseded);
    var core, tail :=
      PinAt(Pinned(head, body, rest, before), head, body + Items(indent, before), rest, after, superseded);
    assert core == held && tail == rest;
    RepinMissing(head, body, rest, survivors, others);
    ItemsConcat(indent, survivors, others);
    Regroup([], body, Items(indent, survivors), Items(indent, others));
    TrimIsPrefix(rest);
  }

  lemma LacksPart(head: seq<Line>, body: seq<Line>, rest: seq<Line>, commands: set<Line>)
    requires Lacks(head + body + rest, commands)
    ensures Lacks(body, commands) && Lacks(head, commands) && Lacks(rest, commands)
  {
    forall c | c in commands ensures !HasLine(body, "- " + c) && !HasLine(head, "- " + c) && !HasLine(rest, "- " + c) {
      HasLineConcat(head + body, rest, "- " + c);
      HasLineConcat(head, body, "- " + c);
    }
  }

  lemma RepinMissing(head: seq<Line>, body: seq<Line>, rest: seq<Line>, survivors: seq<Line>, others: seq<Line>)
    requires AllProper(survivors) && Distinct(survivors + others)
    requires Lacks(head + body + rest, AsSet(survivors + others))
    ensures Missing(Pinned(head, body, rest, survivors), survivors + others) == others
  {
    var after := survivors + others;
    var held := Pinned(head, body, rest, survivors);
    forall i | 0 <= i < |survivors| ensures HasLine(held, "- " + survivors[i]) {
      HasLinePinned(head, body, rest, survivors, "- " + survivors[i]);
    }
    forall i | 0 <= i < |others| ensures !HasLine(held, "- " + others[i]) {
      HasLinePinned(head, body, rest, survivors, "- " + others[i]);
      assert others[i] == after[|survivors| + i];
      assert others[i] in AsSet(after);
      forall j | 0 <= j < |survivors| ensures "- " + others[i] != "- " + survivors[j] {
        assert survivors[j] == after[j];
        SameItem(others[i], survivors[j]);
      }
    }
    MissingTail(held, survivors, others);
  }
}
