/** The edits of the kernel command line. */
module Cmdline {
  import opened Outcomes
  import opened Text

  const MODULES_LOAD := "modules-load="
  const SERIAL_CONSOLE := "console=serial"

  // ---------------------------------------------------------------------
  // Splitting and joining
  // ---------------------------------------------------------------------

  /** The pieces between separators, empty ones included. */
  function Pieces(s: string, separator: char -> bool): (pieces: seq<string>)
    ensures pieces != []
  {
    if s == "" then
      [""]
    else
      var rest := Pieces(s[1..], separator);
      if separator(s[0]) then [""] + rest else [[s[0]] + rest[0]] + rest[1..]
  }

  function NonEmpty(pieces: seq<string>): seq<string> {
    if pieces == [] then []
    else (if pieces[0] == "" then [] else [pieces[0]]) + NonEmpty(pieces[1..])
  }

  /** Python's `s.split()`. */
  function Words(s: string): seq<string> {
    NonEmpty(Pieces(s, IsSpace))
  }

  function Comma(c: char): bool {
    c == ','
  }

  /** The module names of a `modules-load=` value. */
  function Values(s: string): seq<string> {
    NonEmpty(Pieces(s, Comma))
  }

  /** Text that holds no separator. */
  predicate Whole(word: string, separator: char -> bool) {
    forall i | 0 <= i < |word| :: !separator(word[i])
  }

  predicate Splittable(words: seq<string>, separator: char -> bool) {
    forall i | 0 <= i < |words| :: words[i] != "" && Whole(words[i], separator)
  }

  lemma {:induction false} PiecesOfWord(word: string, rest: string, separator: char -> bool)
    requires Whole(word, separator)
    ensures Pieces(word + rest, separator) ==
            [word + Pieces(rest, separator)[0]] + Pieces(rest, separator)[1..]
  {
    if word == "" {
      assert word + rest == rest;
      assert word + Pieces(rest, separator)[0] == Pieces(rest, separator)[0];
    } else {
      assert (word + rest)[1..] == word[1..] + rest;
      PiecesOfWord(word[1..], rest, separator);
      assert [word[0]] + (word[1..] + Pieces(rest, separator)[0]) == word + Pieces(rest, separator)[0];
    }
  }

  /** Splitting undoes joining, for words that are not empty and hold no separator. */
  lemma {:induction false} SplitJoin(words: seq<string>, c: char, separator: char -> bool)
    requires separator(c) && Splittable(words, separator)
    ensures NonEmpty(Pieces(Join([c], words), separator)) == words
  {
    if words == [] {
      assert NonEmpty([""]) == NonEmpty([""][1..]);
    } else if |words| == 1 {
      PiecesOfWord(words[0], "", separator);
      assert words[0] + "" == words[0];
      assert Pieces(words[0], separator) == words;
      assert NonEmpty(words[1..]) == [];
    } else {
      var rest := [c] + Join([c], words[1..]);
      assert Join([c], words) == words[0] + rest;
      assert rest[1..] == Join([c], words[1..]);
      PiecesOfWord(words[0], rest, separator);
      var after := Pieces(rest[1..], separator);
      assert Pieces(rest, separator) == [""] + after;
      assert words[0] + "" == words[0];
      assert Pieces(Join([c], words), separator) == [words[0]] + after;
      assert ([words[0]] + after)[1..] == after;
      SplitJoin(words[1..], c, separator);
    }
  }

  lemma {:induction false} PiecesAreWhole(s: string, separator: char -> bool)
    ensures forall i | 0 <= i < |Pieces(s, separator)| :: Whole(Pieces(s, separator)[i], separator)
  {
    if s != "" {
      PiecesAreWhole(s[1..], separator);
    }
  }

  lemma {:induction false} NonEmptyKeeps(pieces: seq<string>, separator: char -> bool)
    requires forall i | 0 <= i < |pieces| :: Whole(pieces[i], separator)
    ensures Splittable(NonEmpty(pieces), separator)
  {
    if pieces != [] {
      NonEmptyKeeps(pieces[1..], separator);
    }
  }

  lemma SplitIsSplittable(s: string, separator: char -> bool)
    ensures Splittable(NonEmpty(Pieces(s, separator)), separator)
  {
    PiecesAreWhole(s, separator);
    NonEmptyKeeps(Pieces(s, separator), separator);
  }

  // ---------------------------------------------------------------------
  // The one line
  // ---------------------------------------------------------------------

  function ContentLines(lines: seq<Line>): seq<Line> {
    if lines == [] then []
    else (if Blank(lines[0]) then [] else [lines[0]]) + ContentLines(lines[1..])
  }

  /** The stripped content line of the file, or the refusal of a file without exactly one. */
  function SingleCmdline(text: string): Result<string> {
    var content := ContentLines(SplitLines(text));
    if content == [] then
      Err(EmptyCmdline)
    else if |content| > 1 then
      Err(ManyCmdlines)
    else
      Ok(Strip(content[0]))
  }

  // ---------------------------------------------------------------------
  // The edits, on parameters
  // ---------------------------------------------------------------------

  predicate LoadsModules(token: string) {
    MODULES_LOAD <= token
  }

  predicate IsSerial(token: string) {
    SERIAL_CONSOLE <= token
  }

  /** The modules with each one that is missing added at the end, in order. */
  function Extend(values: seq<string>, modules: seq<string>): seq<string>
    decreases |modules|
  {
    if modules == [] then values
    else Extend(if modules[0] in values then values else values + [modules[0]], modules[1..])
  }

  function ExtendToken(token: string, modules: seq<string>): string
    requires LoadsModules(token)
  {
    MODULES_LOAD + Join(",", Extend(Values(token[|MODULES_LOAD|..]), modules))
  }

  /** The first `modules-load=` parameter extended, or one added at the end. */
  function AddModules(tokens: seq<string>, modules: seq<string>): seq<string> {
    if tokens == [] then [MODULES_LOAD + Join(",", modules)]
    else if LoadsModules(tokens[0]) then [ExtendToken(tokens[0], modules)] + tokens[1..]
    else [tokens[0]] + AddModules(tokens[1..], modules)
  }

  function RemoveSerial(tokens: seq<string>): seq<string> {
    if tokens == [] then []
    else (if IsSerial(tokens[0]) then [] else [tokens[0]]) + RemoveSerial(tokens[1..])
  }

  // ---------------------------------------------------------------------
  // The edits, on text
  // ---------------------------------------------------------------------

  /** Adds each module that is missing, looking at the list as it grows. */
  method ExtendValues(before: seq<string>, modules: seq<string>) returns (values: seq<string>)
    ensures values == Extend(before, modules)
  {
    values := before;
    for i := 0 to |modules|
      invariant Extend(values, modules[i..]) == Extend(before, modules)
    {
      assert modules[i..][1..] == modules[i + 1..];
      if modules[i] !in values {
        values := values + [modules[i]];
      }
    }
  }

  /** Finds the first such parameter, then extends it in place or appends one. */
  method EditTokens(before: seq<string>, modules: seq<string>) returns (tokens: seq<string>)
    ensures tokens == AddModules(before, modules)
  {
    tokens := before;
    var index := 0;
    while index < |tokens| && !LoadsModules(tokens[index])
      invariant index <= |tokens|
      invariant AddModules(before, modules) == tokens[..index] + AddModules(tokens[index..], modules)
    {
      assert tokens[index..][1..] == tokens[index + 1..];
      index := index + 1;
    }
    if index == |tokens| {
      tokens := tokens + [MODULES_LOAD + Join(",", modules)];
    } else {
      var values := ExtendValues(Values(tokens[index][|MODULES_LOAD|..]), modules);
      assert tokens[index..][1..] == tokens[index + 1..];
      tokens := tokens[index := MODULES_LOAD + Join(",", values)];
    }
  }

  method AddModulesLoad(cmdline: string, modules: seq<string>) returns (r: Result<string>)
    ensures r == AddModulesLoadText(cmdline, modules)
  {
    var line := SingleCmdline(cmdline);
    if line.Err? {
      return Err(line.error);
    }
    var tokens := EditTokens(Words(line.value), modules);
    r := Ok(Join(" ", tokens) + "\n");
  }

  function AddModulesLoadText(cmdline: string, modules: seq<string>): Result<string> {
    var line :- SingleCmdline(cmdline);
    Ok(Join(" ", AddModules(Words(line), modules)) + "\n")
  }

  function RemoveSerialConsole(cmdline: string): Result<string> {
    var line :- SingleCmdline(cmdline);
    Ok(Join(" ", RemoveSerial(Words(line))) + "\n")
  }
}
