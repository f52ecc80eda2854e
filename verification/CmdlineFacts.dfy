/** What the command-line edits keep, repeat and commute with. */
module CmdlineFacts {
  import opened Outcomes
  import opened Text
  import opened Cmdline

  predicate Tokens(tokens: seq<string>) {
    Splittable(tokens, IsSpace)
  }

  /** Names that can stand in a comma-separated parameter. */
  predicate ModuleNames(modules: seq<string>) {
    Splittable(modules, IsSpace) && Splittable(modules, Comma)
  }

  /** Some parameter is not a serial console. */
  predicate HasOther(tokens: seq<string>) {
    exists i | 0 <= i < |tokens| :: !IsSerial(tokens[i])
  }

  // ---------------------------------------------------------------------
  // Writing the line and reading it back
  // ---------------------------------------------------------------------

  lemma {:induction false} JoinIsOneLine(tokens: seq<string>)
    requires Tokens(tokens)
    ensures '\n' !in Join(" ", tokens)
    ensures tokens != [] ==> Solid(Join(" ", tokens))
    ensures tokens != [] ==> Join(" ", tokens)[0] == tokens[0][0]
  {
    if |tokens| > 1 {
      JoinIsOneLine(tokens[1..]);
      var rest := Join(" ", tokens[1..]);
      var all := Join(" ", tokens);
      assert all == tokens[0] + " " + rest;
      assert all[|all| - 1] == rest[|rest| - 1];
    }
  }

  /** What an edit writes, the next edit reads, unless nothing was left to write. */
  lemma ReadBack(tokens: seq<string>)
    requires Tokens(tokens)
    ensures tokens != [] ==>
              && SingleCmdline(Join(" ", tokens) + "\n").Ok?
              && Words(SingleCmdline(Join(" ", tokens) + "\n").value) == tokens
    ensures tokens == [] ==> SingleCmdline(Join(" ", tokens) + "\n") == Err(EmptyCmdline)
  {
    JoinIsOneLine(tokens);
    var line: Line := Join(" ", tokens);
    SplitFirst(line, "");
    assert line + "\n" + "" == line + "\n";
    assert SplitLines(line + "\n") == [line];
    assert ContentLines([line][1..]) == [];
    if tokens != [] {
      assert !Blank(line) && Strip(line) == line;
      SplitJoin(tokens, ' ', IsSpace);
    }
  }

  lemma {:induction false} NoWords(s: string)
    ensures Words(s) == [] ==> Blank(s)
    ensures Pieces(s, IsSpace)[0] == "" && s != "" ==> IsSpace(s[0])
  {
    if s != "" {
      NoWords(s[1..]);
      var pieces, rest := Pieces(s, IsSpace), Pieces(s[1..], IsSpace);
      if IsSpace(s[0]) {
        assert pieces[1..] == rest;
        assert forall i | 0 < i < |s| :: s[i] == s[1..][i - 1];
      } else {
        assert pieces[0] != "";
      }
    }
  }

  /** The line the edits work on has at least one parameter. */
  lemma LineHasTokens(text: string)
    requires SingleCmdline(text).Ok?
    ensures Tokens(Words(SingleCmdline(text).value)) && Words(SingleCmdline(text).value) != []
  {
    var content := ContentLines(SplitLines(text));
    ContentIsNotBlank(SplitLines(text));
    BlankStrip(content[0]);
    StripTwice(content[0]);
    NoWords(Strip(content[0]));
    SplitIsSplittable(Strip(content[0]), IsSpace);
  }

  lemma StripTwice(s: string)
    requires !Blank(s)
    ensures !Blank(Strip(s))
  {
    LStripFirst(s);
    BlankStrip(s);
    LStripOfBlank(s);
    RStripKeepsFirst(LStrip(s));
  }

  lemma ContentIsNotBlank(lines: seq<Line>)
    ensures forall i | 0 <= i < |ContentLines(lines)| :: !Blank(ContentLines(lines)[i])
  {
  }

  // ---------------------------------------------------------------------
  // Adding modules
  // ---------------------------------------------------------------------

  /** Extending keeps the values there were, in front and in order, and adds exactly the
      modules that were missing. */
  lemma {:induction false} ExtendFacts(values: seq<string>, modules: seq<string>)
    ensures values <= Extend(values, modules)
    ensures forall m :: m in Extend(values, modules) <==> m in values || m in modules
    ensures (forall m | m in modules :: m in values) ==> Extend(values, modules) == values
    decreases |modules|
  {
    if modules != [] {
      assert modules == [modules[0]] + modules[1..];
      ExtendFacts(if modules[0] in values then values else values + [modules[0]], modules[1..]);
    }
  }

  lemma {:induction false} ExtendSplits(values: seq<string>, modules: seq<string>, separator: char -> bool)
    requires Splittable(values, separator) && Splittable(modules, separator)
    ensures Splittable(Extend(values, modules), separator)
    decreases |modules|
  {
    if modules != [] {
      ExtendSplits(if modules[0] in values then values else values + [modules[0]], modules[1..], separator);
    }
  }

  /** Extending by one more module puts it at the end, unless it is there by then. */
  lemma {:induction false} ExtendByOne(values: seq<string>, modules: seq<string>, last: string)
    ensures var before := Extend(values, modules);
            Extend(values, modules + [last]) == if last in before then before else before + [last]
    decreases |modules|
  {
    if modules == [] {
      assert [] + [last] == [last] && [last][1..] == [];
    } else {
      assert (modules + [last])[1..] == modules[1..] + [last];
      ExtendByOne(if modules[0] in values then values else values + [modules[0]], modules[1..], last);
    }
  }

  lemma {:induction false} PiecesInherit(s: string, separator: char -> bool, other: char -> bool)
    requires Whole(s, other)
    ensures forall i | 0 <= i < |Pieces(s, separator)| :: Whole(Pieces(s, separator)[i], other)
  {
    if s != "" {
      PiecesInherit(s[1..], separator, other);
    }
  }

  lemma ValuesAreTokens(token: string)
    requires LoadsModules(token) && Whole(token, IsSpace)
    ensures ModuleNames(Values(token[|MODULES_LOAD|..]))
  {
    var value := token[|MODULES_LOAD|..];
    SplitIsSplittable(value, Comma);
    PiecesInherit(value, Comma, IsSpace);
    NonEmptyKeeps(Pieces(value, Comma), IsSpace);
  }

  lemma {:induction false} JoinWhole(values: seq<string>)
    requires Splittable(values, IsSpace)
    ensures Whole(Join(",", values), IsSpace)
  {
    if |values| > 1 {
      JoinWhole(values[1..]);
    }
  }

  lemma TokenOf(values: seq<string>)
    requires ModuleNames(values)
    ensures LoadsModules(MODULES_LOAD + Join(",", values)) && !IsSerial(MODULES_LOAD + Join(",", values))
    ensures Whole(MODULES_LOAD + Join(",", values), IsSpace)
    ensures Values((MODULES_LOAD + Join(",", values))[|MODULES_LOAD|..]) == values
  {
    JoinWhole(values);
    SplitJoin(values, ',', Comma);
    var token := MODULES_LOAD + Join(",", values);
    assert token[|MODULES_LOAD|..] == Join(",", values);
    assert token[0] == 'm' && SERIAL_CONSOLE[0] == 'c';
  }

  lemma ExtendTokenFacts(token: string, modules: seq<string>)
    requires LoadsModules(token) && Whole(token, IsSpace) && ModuleNames(modules)
    ensures LoadsModules(ExtendToken(token, modules)) && !IsSerial(ExtendToken(token, modules))
    ensures Whole(ExtendToken(token, modules), IsSpace)
    ensures Values(ExtendToken(token, modules)[|MODULES_LOAD|..]) == Extend(Values(token[|MODULES_LOAD|..]), modules)
    ensures ExtendToken(ExtendToken(token, modules), modules) == ExtendToken(token, modules)
  {
    var values := Values(token[|MODULES_LOAD|..]);
    ValuesAreTokens(token);
    ExtendFacts(values, modules);
    ExtendSplits(values, modules, Comma);
    ExtendSplits(values, modules, IsSpace);
    TokenOf(Extend(values, modules));
    ExtendFacts(Extend(values, modules), modules);
  }

  /** The first `modules-load=` parameter. */
  function FirstLoad(tokens: seq<string>): nat {
    if tokens == [] || LoadsModules(tokens[0]) then 0 else 1 + FirstLoad(tokens[1..])
  }

  /** One parameter is touched and nothing else: every other parameter stays where it
      is, and the first `modules-load=` parameter names what it named before, in order,
      followed by the requested modules that were missing. */
  ghost predicate OneTokenTouched(tokens: seq<string>, added: seq<string>, modules: seq<string>) {
    var i := FirstLoad(tokens);
    && i < |added| && i <= |tokens| && FirstLoad(added) == i
    && added[..i] == tokens[..i] && LoadsModules(added[i])
    && var named := Values(added[i][|MODULES_LOAD|..]);
      if i == |tokens| then
        |added| == |tokens| + 1 && named == modules
      else
        && LoadsModules(tokens[i])
        && added[i + 1..] == tokens[i + 1..]
        && named == Extend(Values(tokens[i][|MODULES_LOAD|..]), modules)
  }

  lemma TouchedCons(token: string, tokens: seq<string>, added: seq<string>, modules: seq<string>)
    requires !LoadsModules(token) && OneTokenTouched(tokens, added, modules)
    ensures OneTokenTouched([token] + tokens, [token] + added, modules)
  {
    var i := FirstLoad(tokens);
    var all, allAdded := [token] + tokens, [token] + added;
    assert all[1..] == tokens && allAdded[1..] == added;
    assert allAdded[..i + 1] == [token] + added[..i];
    assert all[..i + 1] == [token] + tokens[..i];
    assert allAdded[i + 1] == added[i];
    if i < |tokens| {
      assert allAdded[i + 2..] == added[i + 1..];
      assert all[i + 2..] == tokens[i + 1..];
    }
  }

  lemma TouchedFirst(tokens: seq<string>, modules: seq<string>)
    requires tokens != [] && LoadsModules(tokens[0]) && LoadsModules(ExtendToken(tokens[0], modules))
    requires Values(ExtendToken(tokens[0], modules)[|MODULES_LOAD|..]) ==
             Extend(Values(tokens[0][|MODULES_LOAD|..]), modules)
    ensures OneTokenTouched(tokens, AddModules(tokens, modules), modules)
  {
    assert AddModules(tokens, modules) == [ExtendToken(tokens[0], modules)] + tokens[1..];
  }

  lemma {:induction false} AddModulesShape(tokens: seq<string>, modules: seq<string>)
    requires Tokens(tokens) && ModuleNames(modules)
    ensures Tokens(AddModules(tokens, modules)) && OneTokenTouched(tokens, AddModules(tokens, modules), modules)
  {
    if tokens == [] {
      TokenOf(modules);
    } else if LoadsModules(tokens[0]) {
      ExtendTokenFacts(tokens[0], modules);
      TouchedFirst(tokens, modules);
    } else {
      AddModulesShape(tokens[1..], modules);
      TouchedCons(tokens[0], tokens[1..], AddModules(tokens[1..], modules), modules);
      assert [tokens[0]] + tokens[1..] == tokens;
    }
  }

  lemma {:induction false} AddModulesTwice(tokens: seq<string>, modules: seq<string>)
    requires Tokens(tokens) && ModuleNames(modules)
    ensures AddModules(AddModules(tokens, modules), modules) == AddModules(tokens, modules)
  {
    var added := AddModules(tokens, modules);
    if tokens == [] {
      TokenOf(modules);
      ExtendFacts(modules, modules);
    } else if LoadsModules(tokens[0]) {
      ExtendTokenFacts(tokens[0], modules);
      assert added[1..] == tokens[1..];
    } else {
      AddModulesTwice(tokens[1..], modules);
      assert added[1..] == AddModules(tokens[1..], modules);
    }
  }

  lemma {:induction false} RemoveSerialFacts(tokens: seq<string>)
    requires Tokens(tokens)
    ensures Tokens(RemoveSerial(tokens)) && RemoveSerial(RemoveSerial(tokens)) == RemoveSerial(tokens)
    ensures RemoveSerial(tokens) != [] <==> HasOther(tokens)
    ensures forall i | 0 <= i < |RemoveSerial(tokens)| :: !IsSerial(RemoveSerial(tokens)[i])
  {
    if tokens != [] {
      RemoveSerialFacts(tokens[1..]);
      var rest := RemoveSerial(tokens[1..]);
      assert ([tokens[0]] + rest)[1..] == rest;
      assert IsSerial(tokens[0]) ==> RemoveSerial(tokens) == rest;
      assert HasOther(tokens) <==> !IsSerial(tokens[0]) || HasOther(tokens[1..]) by {
        if HasOther(tokens[1..]) {
          var i :| 0 <= i < |tokens[1..]| && !IsSerial(tokens[1..][i]);
          assert !IsSerial(tokens[i + 1]);
        }
      }
    }
  }

  /** On parameters the two edits commute without condition. */
  lemma {:induction false} EditsCommute(tokens: seq<string>, modules: seq<string>)
    requires Tokens(tokens) && ModuleNames(modules)
    ensures RemoveSerial(AddModules(tokens, modules)) == AddModules(RemoveSerial(tokens), modules)
  {
    if tokens == [] {
      TokenOf(modules);
      assert RemoveSerial([MODULES_LOAD + Join(",", modules)][1..]) == [];
    } else {
      EditsCommute(tokens[1..], modules);
      var added := AddModules(tokens, modules);
      if LoadsModules(tokens[0]) {
        ExtendTokenFacts(tokens[0], modules);
        assert added[1..] == tokens[1..];
        assert tokens[0][0] == MODULES_LOAD[0] && SERIAL_CONSOLE[0] != MODULES_LOAD[0];
        assert RemoveSerial(tokens)[1..] == RemoveSerial(tokens[1..]);
      } else {
        assert added[1..] == AddModules(tokens[1..], modules);
        if !IsSerial(tokens[0]) {
          assert RemoveSerial(tokens)[1..] == RemoveSerial(tokens[1..]);
        } else {
          assert RemoveSerial(tokens) == RemoveSerial(tokens[1..]);
        }
      }
    }
  }

  // ---------------------------------------------------------------------
  // The edits on text
  // ---------------------------------------------------------------------

  /** Adding the modules again changes nothing, for every usable command line. */
  lemma AddIdempotent(text: string, modules: seq<string>)
    requires ModuleNames(modules) && AddModulesLoadText(text, modules).Ok?
    ensures AddModulesLoadText(AddModulesLoadText(text, modules).value, modules) == AddModulesLoadText(text, modules)
  {
    LineHasTokens(text);
    var tokens := Words(SingleCmdline(text).value);
    AddModulesShape(tokens, modules);
    AddModulesTwice(tokens, modules);
    ReadBack(AddModules(tokens, modules));
  }

  /** The parameters of a usable command line. */
  function TokensOf(text: string): seq<string>
    requires SingleCmdline(text).Ok?
  {
    Words(SingleCmdline(text).value)
  }

  /** Removing the serial console again changes nothing if and only if the line held
      something else; a line of serial consoles alone is refused the second time. */
  lemma RemoveIdempotentIff(text: string)
    requires SingleCmdline(text).Ok?
    ensures RemoveSerialConsole(text).Ok?
    ensures RemoveSerialConsole(RemoveSerialConsole(text).value) == RemoveSerialConsole(text) <==>
            HasOther(TokensOf(text))
    ensures !HasOther(TokensOf(text)) ==> RemoveSerialConsole(RemoveSerialConsole(text).value) == Err(EmptyCmdline)
  {
    LineHasTokens(text);
    RemoveSerialFacts(TokensOf(text));
    ReadBack(RemoveSerial(TokensOf(text)));
  }

  lemma OneSerialToken(token: string)
    requires IsSerial(token) && Tokens([token])
    ensures RemoveSerialConsole(token + "\n") == Ok("\n")
    ensures RemoveSerialConsole("\n") == Err(EmptyCmdline)
  {
    assert Join(" ", [token]) == token;
    ReadBack([token]);
    assert [token][1..] == [] && RemoveSerial([token][1..]) == [];
    ReadBack([]);
    assert Join(" ", []) + "\n" == "\n";
  }

  lemma SerialToken(token: string)
    requires token == "console=serial0"
    ensures IsSerial(token) && Tokens([token])
  {
  }

  /** A command line of one serial console: a removal leaves a blank line, which the next
      refuses. */
  lemma SerialOnlyLine()
    ensures RemoveSerialConsole("console=serial0" + "\n") == Ok("\n")
    ensures RemoveSerialConsole("\n") == Err(EmptyCmdline)
  {
    SerialToken("console=serial0");
    OneSerialToken("console=serial0");
  }

  function AddThenRemove(text: string, modules: seq<string>): Result<string> {
    var added :- AddModulesLoadText(text, modules);
    RemoveSerialConsole(added)
  }

  function RemoveThenAdd(text: string, modules: seq<string>): Result<string> {
    var removed :- RemoveSerialConsole(text);
    AddModulesLoadText(removed, modules)
  }

  /** The two edits commute, as text, if and only if the line holds a parameter that is
      not a serial console. */
  lemma EditsCommuteIff(text: string, modules: seq<string>)
    requires SingleCmdline(text).Ok? && ModuleNames(modules)
    ensures AddThenRemove(text, modules) == RemoveThenAdd(text, modules) <==> HasOther(TokensOf(text))
  {
    var tokens := TokensOf(text);
    LineHasTokens(text);
    AddModulesShape(tokens, modules);
    RemoveSerialFacts(tokens);
    EditsCommute(tokens, modules);
    ReadBack(AddModules(tokens, modules));
    ReadBack(RemoveSerial(tokens));
  }

  /** In the order a run uses, adding then removing is accepted on every usable line and
      repeating it changes nothing. */
  lemma AddThenRemoveSettles(text: string, modules: seq<string>)
    requires SingleCmdline(text).Ok? && ModuleNames(modules)
    ensures AddThenRemove(text, modules).Ok?
    ensures AddThenRemove(AddThenRemove(text, modules).value, modules) == AddThenRemove(text, modules)
  {
    var tokens := TokensOf(text);
    LineHasTokens(text);
    var added := AddModules(tokens, modules);
    AddModulesShape(tokens, modules);
    ReadBack(added);
    RemoveSerialFacts(added);
    var left := RemoveSerial(added);
    EditsCommute(tokens, modules);
    RemoveSerialFacts(tokens);
    AddModulesShape(RemoveSerial(tokens), modules);
    AddModulesTwice(RemoveSerial(tokens), modules);
    ReadBack(left);
  }

  // ---------------------------------------------------------------------
  // The command line a run plans
  // ---------------------------------------------------------------------

  function Filtered(tokens: seq<string>, keep: string -> bool): seq<string> {
    if tokens == [] then []
    else (if keep(tokens[0]) then [tokens[0]] else []) + Filtered(tokens[1..], keep)
  }

  predicate NotSerial(token: string) {
    !("console=serial" <= token)
  }

  lemma {:induction false} RemovedIsFiltered(tokens: seq<string>)
    ensures RemoveSerial(tokens) == Filtered(tokens, NotSerial)
  {
    if tokens != [] {
      RemovedIsFiltered(tokens[1..]);
    }
  }

  lemma {:induction false} FilteredConcat(a: seq<string>, b: seq<string>, keep: string -> bool)
    ensures Filtered(a + b, keep) == Filtered(a, keep) + Filtered(b, keep)
  {
    if a == [] {
      assert a + b == b;
    } else {
      assert (a + b)[1..] == a[1..] + b;
      FilteredConcat(a[1..], b, keep);
    }
  }

  lemma {:induction false} FilteredHas(tokens: seq<string>, keep: string -> bool)
    ensures forall t :: t in Filtered(tokens, keep) <==> t in tokens && keep(t)
  {
    if tokens != [] {
      FilteredHas(tokens[1..], keep);
      assert tokens == [tokens[0]] + tokens[1..];
    }
  }
}
