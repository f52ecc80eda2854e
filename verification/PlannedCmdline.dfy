/** What a run makes of the kernel command line, parameter by parameter. */
module PlannedCmdline {
  import opened Outcomes
  import opened Text
  import opened Cmdline
  import opened CmdlineFacts
  import opened Card
  import opened CardRuns

  /** Parameter `i` is the first that starts with `modules-load=`, or there is none and `i`
      is the end. */
  predicate LoadsAt(tokens: seq<string>, i: nat) {
    && i <= |tokens|
    && (forall j | 0 <= j < i :: !("modules-load=" <= tokens[j]))
    && (i < |tokens| ==> "modules-load=" <= tokens[i])
  }

  /** The modules a parameter names. */
  function Named(token: string): seq<string> {
    if |token| < 13 then [] else Values(token[13..])
  }

  function NamedAt(tokens: seq<string>, i: nat): seq<string> {
    if i < |tokens| then Named(tokens[i]) else []
  }

  function Behind(tokens: seq<string>, i: nat): seq<string> {
    if i < |tokens| then tokens[i + 1..] else []
  }

  lemma {:induction false} FirstLoadIs(tokens: seq<string>)
    ensures LoadsAt(tokens, FirstLoad(tokens))
  {
    if tokens != [] && !LoadsModules(tokens[0]) {
      FirstLoadIs(tokens[1..]);
      assert forall j | 0 < j < |tokens| :: tokens[j] == tokens[1..][j - 1];
    }
  }

  /** The names with those of the two gadget modules that are missing, in that order. */
  function WithGadget(named: seq<string>): seq<string> {
    named + (if "dwc2" in named then [] else ["dwc2"]) + (if "g_ether" in named then [] else ["g_ether"])
  }

  lemma BothModules(named: seq<string>, first: string, second: string)
    requires first != second
    ensures Extend(named, [first, second]) ==
            named + (if first in named then [] else [first]) + (if second in named then [] else [second])
  {
    assert [first, second][1..] == [second] && [second][1..] == [];
    var next := if first in named then named else named + [first];
    assert second in next <==> second in named;
    assert Extend(named, [first, second]) == Extend(next, [second]);
    assert Extend(next, [second]) == Extend(if second in next then next else next + [second], []);
  }

  lemma GadgetExtends(named: seq<string>)
    ensures Extend(named, GADGET_MODULES) == WithGadget(named)
    ensures WithGadget([]) == GADGET_MODULES
  {
    assert |"dwc2"| != |"g_ether"|;
    BothModules(named, "dwc2", "g_ether");
  }

  /** What adding the two modules does to the parameters: the first `modules-load=` names
      what it named, then the missing ones of the two, and the others stay around it. */
  lemma AddedAt(tokens: seq<string>, added: seq<string>) returns (i: nat)
    requires Tokens(tokens) && added == AddModules(tokens, GADGET_MODULES)
    ensures LoadsAt(tokens, i) && i < |added| && LoadsAt(added, i) && Tokens(added)
    ensures added[..i] == tokens[..i] && added[i + 1..] == Behind(tokens, i)
    ensures Named(added[i]) == WithGadget(NamedAt(tokens, i))
  {
    GadgetModuleNames();
    AddModulesShape(tokens, GADGET_MODULES);
    i := FirstLoad(tokens);
    FirstLoadIs(tokens);
    FirstLoadIs(added);
    assert |MODULES_LOAD| == 13;
    GadgetExtends(NamedAt(tokens, i));
  }

  lemma FilteredAt(tokens: seq<string>, i: nat) returns (j: nat)
    requires LoadsAt(tokens, i) && i < |tokens|
    ensures var left := Filtered(tokens, NotSerial);
            && LoadsAt(left, j) && j < |left| && left[j] == tokens[i]
            && left[..j] == Filtered(tokens[..i], NotSerial)
            && left[j + 1..] == Filtered(tokens[i + 1..], NotSerial)
  {
    var before, middle, behind := tokens[..i], [tokens[i]], tokens[i + 1..];
    assert tokens == before + middle + behind;
    FilteredConcat(before + middle, behind, NotSerial);
    FilteredConcat(before, middle, NotSerial);
    assert tokens[i][0] == 'm' && "console=serial"[0] == 'c';
    assert middle[1..] == [] && Filtered(middle[1..], NotSerial) == [];
    var kept := Filtered(before, NotSerial);
    FilteredHas(before, NotSerial);
    forall k | 0 <= k < |kept| ensures !("modules-load=" <= kept[k]) {
      assert kept[k] in before;
    }
    j := |kept|;
  }

  lemma LineIsUsable(cmdline: string)
    requires SingleCmdline(cmdline).Ok?
    ensures AddModulesLoadText(cmdline, GADGET_MODULES).Ok?
    ensures SingleCmdline(AddModulesLoadText(cmdline, GADGET_MODULES).value).Ok?
  {
    LineHasTokens(cmdline);
    var added := AddModules(TokensOf(cmdline), GADGET_MODULES);
    var i := AddedAt(TokensOf(cmdline), added);
    ReadBack(added);
  }

  /** What a run plans for the command line, on every line it accepts. The first
      `modules-load=` parameter, or a new one at the end, names what it named and then the
      gadget's modules. Every other parameter stays, in order, the serial consoles too;
      to free the UART exactly those that start with `console=serial` go. */
  lemma PlannedKeeps(cmdline: string, freeUart: bool) returns (before: seq<string>, after: seq<string>, i: nat, j: nat)
    requires PrepareCmdline(cmdline, freeUart).Ok?
    ensures SingleCmdline(cmdline).Ok? && before == TokensOf(cmdline)
    ensures var planned := PrepareCmdline(cmdline, freeUart).value;
            SingleCmdline(planned).Ok? && after == TokensOf(planned) && planned == Join(" ", after) + "\n"
    ensures LoadsAt(before, i) && LoadsAt(after, j) && j < |after|
    ensures Named(after[j]) == WithGadget(NamedAt(before, i))
    ensures !freeUart ==> after[..j] == before[..i] && after[j + 1..] == Behind(before, i)
    ensures freeUart ==>
              && after[..j] == Filtered(before[..i], NotSerial)
              && after[j + 1..] == Filtered(Behind(before, i), NotSerial)
              && forall t | t in after :: !("console=serial" <= t)
  {
    before := TokensOf(cmdline);
    LineHasTokens(cmdline);
    var added := AddModules(before, GADGET_MODULES);
    i := AddedAt(before, added);
    ReadBack(added);
    after, j := added, i;
    if freeUart {
      RemovedIsFiltered(added);
      RemoveSerialFacts(added);
      j := FilteredAt(added, i);
      after := Filtered(added, NotSerial);
      FilteredHas(added, NotSerial);
      ReadBack(after);
    }
  }

  // ---------------------------------------------------------------------
  // Which command lines are accepted
  // ---------------------------------------------------------------------

  /** Line `i` is the only one that is not blank. */
  predicate OnlyLineAt(lines: seq<Line>, i: nat) {
    i < |lines| && !Blank(lines[i]) && forall j | 0 <= j < |lines| && j != i :: Blank(lines[j])
  }

  lemma {:induction false} ContentOf(lines: seq<Line>)
    ensures ContentLines(lines) == [] <==> AllBlank(lines)
    ensures forall i: nat | OnlyLineAt(lines, i) :: ContentLines(lines) == [lines[i]]
    ensures |ContentLines(lines)| == 1 ==> exists i: nat :: OnlyLineAt(lines, i)
  {
    if lines != [] {
      ContentOf(lines[1..]);
      assert lines == [lines[0]] + lines[1..];
      AllBlankIff(lines);
      if !Blank(lines[0]) {
        assert AllBlank(lines[1..]) ==> OnlyLineAt(lines, 0);
      } else {
        forall i: nat | 0 < i < |lines| ensures OnlyLineAt(lines, i) <==> OnlyLineAt(lines[1..], i - 1) {
          OnlyLineMoves(lines, i);
        }
        if |ContentLines(lines)| == 1 {
          var i: nat :| OnlyLineAt(lines[1..], i);
          assert OnlyLineAt(lines, i + 1);
        }
      }
    }
  }

  lemma AllBlankIff(lines: seq<Line>)
    requires lines != []
    ensures AllBlank(lines) <==> Blank(lines[0]) && AllBlank(lines[1..])
  {
    assert forall i | 0 < i < |lines| :: lines[i] == lines[1..][i - 1];
  }

  lemma OnlyLineMoves(lines: seq<Line>, i: nat)
    requires 0 < i < |lines| && Blank(lines[0])
    ensures OnlyLineAt(lines, i) <==> OnlyLineAt(lines[1..], i - 1)
  {
    assert forall j | 0 < j < |lines| :: lines[j] == lines[1..][j - 1];
  }

  /** A command line is usable if and only if the file has exactly one line that is not
      blank, and then it is that line without the white space around it; a blank file is
      refused as empty and any other as more than one line. */
  lemma UsableIff(text: string)
    ensures SingleCmdline(text).Ok? <==> exists i: nat :: OnlyLineAt(SplitLines(text), i)
    ensures forall i: nat | OnlyLineAt(SplitLines(text), i) :: SingleCmdline(text) == Ok(Strip(SplitLines(text)[i]))
    ensures SingleCmdline(text) == Err(EmptyCmdline) <==> Blank(text)
    ensures SingleCmdline(text).Err? && !Blank(text) ==> SingleCmdline(text) == Err(ManyCmdlines)
  {
    ContentOf(SplitLines(text));
    BlankLines(text);
  }
}
