/** What of the lines behind a literal scalar decides how it is read. */
module ScalarEnds {
  import opened Outcomes
  import opened Text
  import opened SequenceBlock
  import opened OtherBlocks
  import opened LiteralBlock

  /** A line at column zero that is not blank ends every scalar before it. */
  lemma {:induction false} ScalarStops(lines: seq<Line>, next: Line, more: seq<Line>, n: nat)
    requires !OnlySpaces(next) && Spaces(next) < n
    ensures Scalar(lines + ([next] + more), n) == Scalar(lines, n)
  {
    var whole := lines + ([next] + more);
    if lines == [] {
      assert whole == [next] + more;
    } else {
      assert whole[1..] == lines[1..] + ([next] + more);
      ScalarStops(lines[1..], next, more, n);
    }
  }

  lemma {:induction false} DetectStops(lines: seq<Line>, next: Line, more: seq<Line>)
    requires !OnlySpaces(next)
    ensures Detect(lines + ([next] + more)) == if HasText(lines) then Detect(lines) else Spaces(next)
    ensures !HasText(lines) ==> Detect(lines) == 0
    ensures forall n :: Overlong(lines + ([next] + more), n) <==> Overlong(lines, n)
  {
    var whole := lines + ([next] + more);
    if lines == [] {
      assert whole == [next] + more;
    } else {
      assert whole[1..] == lines[1..] + ([next] + more);
      DetectStops(lines[1..], next, more);
    }
  }

  /** Some line holds more than spaces. */
  predicate HasText(lines: seq<Line>) {
    lines != [] && (!OnlySpaces(lines[0]) || HasText(lines[1..]))
  }

  lemma DecodeStops(lines: seq<Line>, next: Line, more: seq<Line>, parent: nat)
    requires next != "" && !IsSpace(next[0])
    ensures Decode(lines + ([next] + more), parent) == Decode(lines, parent)
  {
    DetectStops(lines, next, more);
    assert Spaces(next) == 0 && !OnlySpaces(next);
    var n := Detect(lines);
    if n > parent {
      ScalarStops(lines, next, more, n);
    }
  }

  lemma {:induction false} EmptyBehind(lines: seq<Line>, n: nat)
    ensures Detect(lines + [""]) == Detect(lines)
    ensures Overlong(lines + [""], n) <==> Overlong(lines, n)
    ensures TrimEmpty(Scalar(lines + [""], n)) == TrimEmpty(Scalar(lines, n))
    ensures EndsScalar(lines + [""], n) <==> EndsScalar(lines, n)
  {
    var whole := lines + [""];
    if lines == [] {
      assert whole == [""] && whole[1..] == [];
      assert [""][..0] == [];
    } else {
      assert whole[1..] == lines[1..] + [""];
      EmptyBehind(lines[1..], n);
      TrimUnderBoth(lines[0], lines[1..], whole[1..], n);
    }
  }

  lemma TrimUnderBoth(first: Line, a: seq<Line>, b: seq<Line>, n: nat)
    requires TrimEmpty(Scalar(a, n)) == TrimEmpty(Scalar(b, n))
    ensures TrimEmpty(Scalar([first] + a, n)) == TrimEmpty(Scalar([first] + b, n))
  {
    assert ([first] + a)[1..] == a && ([first] + b)[1..] == b;
    if EmptyAt(first, n) {
      TrimUnder("", Scalar(a, n));
      TrimUnder("", Scalar(b, n));
    } else if Spaces(first) >= n {
      SpacesFit(first);
      TrimUnder(first[n..], Scalar(a, n));
      TrimUnder(first[n..], Scalar(b, n));
    }
  }

  lemma DecodeEmpty(lines: seq<Line>, parent: nat)
    ensures Decode(lines + [""], parent) == Decode(lines, parent)
  {
    EmptyBehind(lines, Detect(lines));
  }

  lemma {:induction false} DecodeTrim(lines: seq<Line>, blanks: seq<Line>, parent: nat)
    ensures Decode(lines + TrimEmpty(blanks), parent) == Decode(lines + blanks, parent)
    decreases |blanks|
  {
    if EndsEmpty(blanks) {
      var init := blanks[..|blanks| - 1];
      DecodeTrim(lines, init, parent);
      DecodeEmpty(lines + init, parent);
      assert lines + blanks == lines + init + [""];
    }
  }

  lemma {:induction false} PrefixParts(rest: seq<Line>) returns (more: seq<Line>)
    ensures rest == BlankPrefix(rest) + more
    ensures more != [] ==> !Blank(more[0])
    ensures BlockLen(rest) == 0 && more != [] ==> !IsSpace(more[0][0])
  {
    if rest == [] || !Blank(rest[0]) {
      more := rest;
      assert rest == [] + more;
    } else {
      more := PrefixParts(rest[1..]);
      assert rest == [rest[0]] + rest[1..];
    }
  }

  /** How lines are read that something outside their block follows is a matter of the
      margin alone. */
  lemma DecodeByMargin(lines: seq<Line>, rest: seq<Line>, parent: nat)
    requires BlockLen(rest) == 0
    ensures Decode(lines + rest, parent) == Decode(lines + Margin(rest), parent)
  {
    var more := PrefixParts(rest);
    var blanks := BlankPrefix(rest);
    DecodeTrim(lines, blanks, parent);
    if more == [] {
      assert lines + rest == lines + blanks;
    } else {
      assert more == [more[0]] + more[1..];
      assert lines + rest == lines + blanks + ([more[0]] + more[1..]);
      DecodeStops(lines + blanks, more[0], more[1..], parent);
    }
  }

  // ---------------------------------------------------------------------
  // Margins behind blank lines
  // ---------------------------------------------------------------------

  lemma {:induction false} PrefixUnder(blanks: seq<Line>, rest: seq<Line>)
    requires AllBlank(blanks)
    ensures BlankPrefix(blanks + rest) == blanks + BlankPrefix(rest)
  {
    if blanks == [] {
      assert blanks + rest == rest;
    } else {
      assert (blanks + rest)[1..] == blanks[1..] + rest;
      PrefixUnder(blanks[1..], rest);
    }
  }

  lemma {:induction false} TrimInner(a: seq<Line>, b: seq<Line>)
    ensures TrimEmpty(a + TrimEmpty(b)) == TrimEmpty(a + b)
    decreases |b|
  {
    if EndsEmpty(b) {
      var init := b[..|b| - 1];
      TrimInner(a, init);
      assert (a + b)[..|a + b| - 1] == a + init;
    }
  }

  lemma MarginUnder(blanks: seq<Line>, rest: seq<Line>, other: seq<Line>)
    requires AllBlank(blanks) && Margin(rest) == Margin(other)
    ensures Margin(blanks + rest) == Margin(blanks + other)
  {
    PrefixUnder(blanks, rest);
    PrefixUnder(blanks, other);
    TrimInner(blanks, BlankPrefix(rest));
    TrimInner(blanks, BlankPrefix(other));
  }

  // ---------------------------------------------------------------------
  // Where a scalar ends
  // ---------------------------------------------------------------------

  /** A line that belongs to a scalar indented by `n`, or is empty. */
  predicate Deep(line: Line, n: nat) {
    line == "" || (!EmptyAt(line, n) && Spaces(line) >= n)
  }

  /** Lines of a scalar that are not all empty keep it from ending. */
  lemma {:induction false} DeepGoesOn(lines: seq<Line>, rest: seq<Line>, n: nat)
    requires forall i | 0 <= i < |lines| :: Deep(lines[i], n)
    requires lines != [] && lines[|lines| - 1] != ""
    ensures !EndsScalar(lines + rest, n)
  {
    assert (lines + rest)[0] == lines[0];
    if lines[0] == "" {
      assert (lines + rest)[1..] == lines[1..] + rest;
      DeepGoesOn(lines[1..], rest, n);
    }
  }

  /** Lines cut off before their end are never read back whole. */
  lemma {:induction false} ScalarIsShort(lines: seq<Line>, next: Line, more: seq<Line>, n: nat)
    requires !OnlySpaces(next) && Spaces(next) < n
    ensures |Scalar(lines + ([next] + more), n)| <= |lines|
  {
    ScalarStops(lines, next, more, n);
    ScalarFits(lines, n);
  }

  lemma {:induction false} ScalarFits(lines: seq<Line>, n: nat)
    ensures |Scalar(lines, n)| <= |lines|
  {
    if lines != [] {
      ScalarFits(lines[1..], n);
    }
  }

  lemma CutIsLost(lines: seq<Line>, next: Line, more: seq<Line>, parent: nat, content: string)
    requires !OnlySpaces(next) && Spaces(next) <= parent && |lines| < |SplitLines(content)|
    ensures Decode(lines + ([next] + more), parent) != Some(content)
  {
    var whole := lines + ([next] + more);
    var n := Detect(whole);
    if n > parent {
      ScalarIsShort(lines, next, more, n);
      TrimIsPrefix(Scalar(whole, n));
      SplitUnlines(TrimEmpty(Scalar(whole, n)));
    }
  }
}
