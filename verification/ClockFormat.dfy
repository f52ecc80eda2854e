/** The remaining-time display, and a parser that reads it back. */
module ClockFormat {
  import opened Outcomes

  const SECONDS_PER_HOUR := 3600
  const SECONDS_PER_DAY := 86400
  const HOURS_WITHOUT_SECONDS := 10

  function Digit(n: nat): char
    requires n < 10
  {
    '0' + n as char
  }

  /** Decimal notation without leading zeros. */
  function Decimal(n: nat): (s: string)
    ensures s != ""
  {
    if n < 10 then [Digit(n)] else Decimal(n / 10) + [Digit(n % 10)]
  }

  /** Two digits, zero-padded. */
  function TwoDigits(n: nat): string
    requires n < 100
  {
    [Digit(n / 10), Digit(n % 10)]
  }

  function Clamped(seconds: int): nat {
    if seconds < 0 then 0 else seconds
  }

  function FormatClockTime(seconds: int): string {
    var clamped := Clamped(seconds);
    var days, remainder := clamped / SECONDS_PER_DAY, clamped % SECONDS_PER_DAY;
    Display(days, remainder / SECONDS_PER_HOUR, remainder % SECONDS_PER_HOUR / 60, remainder % 60,
            clamped / SECONDS_PER_HOUR)
  }

  /** The four shapes of the display. */
  function Display(days: nat, hours: nat, minutes: nat, secs: nat, totalHours: nat): string
    requires minutes < 60 && secs < 60
  {
    if days >= 1 then
      Decimal(days) + (if days == 1 then " day " else " days ") + Decimal(hours) + " h"
    else if totalHours >= HOURS_WITHOUT_SECONDS then
      Decimal(totalHours) + " h " + Decimal(minutes) + " m"
    else if totalHours >= 1 then
      Decimal(totalHours) + ":" + TwoDigits(minutes) + ":" + TwoDigits(secs)
    else
      Decimal(minutes) + ":" + TwoDigits(secs)
  }

  // ---------------------------------------------------------------------
  // Reading a display back
  // ---------------------------------------------------------------------

  predicate IsDigit(c: char) {
    '0' <= c <= '9'
  }

  function Leading(s: string): (k: nat)
    ensures k <= |s|
  {
    if s != "" && IsDigit(s[0]) then 1 + Leading(s[1..]) else 0
  }

  function Value(s: string): nat {
    if s == "" || !IsDigit(s[|s| - 1]) then 0
    else Value(s[..|s| - 1]) * 10 + (s[|s| - 1] - '0') as nat
  }

  function First(s: string): nat {
    Value(s[..Leading(s)])
  }

  function Rest(s: string): string {
    s[Leading(s)..]
  }

  /** The seconds that a number and the text after it stand for. */
  function ReadUnits(n: nat, rest: string): Option<nat> {
    if |rest| == 3 && rest[0] == ':' then
      Some(n * 60 + Value(rest[1..]))
    else if |rest| == 6 && rest[0] == ':' && rest[3] == ':' then
      Some(n * SECONDS_PER_HOUR + Value(rest[1..3]) * 60 + Value(rest[4..]))
    else if " h " <= rest && Rest(rest[3..]) == " m" then
      Some(n * SECONDS_PER_HOUR + First(rest[3..]) * 60)
    else if " day " <= rest && Rest(rest[5..]) == " h" then
      Some(n * SECONDS_PER_DAY + First(rest[5..]) * SECONDS_PER_HOUR)
    else if " days " <= rest && Rest(rest[6..]) == " h" then
      Some(n * SECONDS_PER_DAY + First(rest[6..]) * SECONDS_PER_HOUR)
    else
      None
  }

  /** The seconds a display stands for, by the shape of its text alone. */
  function ParseClock(s: string): Option<nat> {
    ReadUnits(First(s), Rest(s))
  }

  /** The time to the resolution the display shows it in. */
  function Shown(seconds: int): nat {
    var clamped := Clamped(seconds);
    if clamped >= SECONDS_PER_DAY then clamped - clamped % SECONDS_PER_HOUR
    else if clamped >= HOURS_WITHOUT_SECONDS * SECONDS_PER_HOUR then clamped - clamped % 60
    else clamped
  }

  lemma {:induction false} ReadDecimal(n: nat, rest: string)
    requires rest == "" || !IsDigit(rest[0])
    ensures First(Decimal(n) + rest) == n && Rest(Decimal(n) + rest) == rest
  {
    DecimalIsDigits(n);
    LeadingOf(Decimal(n), rest);
    ValueOf(n);
    assert (Decimal(n) + rest)[..|Decimal(n)|] == Decimal(n);
  }

  lemma {:induction false} DecimalIsDigits(n: nat)
    ensures forall i | 0 <= i < |Decimal(n)| :: IsDigit(Decimal(n)[i])
  {
    if n >= 10 {
      DecimalIsDigits(n / 10);
    }
  }

  lemma {:induction false} LeadingOf(digits: string, rest: string)
    requires forall i | 0 <= i < |digits| :: IsDigit(digits[i])
    requires rest == "" || !IsDigit(rest[0])
    ensures Leading(digits + rest) == |digits|
  {
    if digits == "" {
      assert digits + rest == rest;
    } else {
      assert (digits + rest)[1..] == digits[1..] + rest;
      LeadingOf(digits[1..], rest);
    }
  }

  lemma {:induction false} ValueOf(n: nat)
    ensures Value(Decimal(n)) == n
  {
    if n >= 10 {
      ValueOf(n / 10);
      assert Decimal(n)[..|Decimal(n)| - 1] == Decimal(n / 10);
    } else {
      assert Value(Decimal(n)[..0]) == 0;
    }
  }

  lemma ValueOfTwo(n: nat)
    requires n < 100
    ensures Value(TwoDigits(n)) == n
  {
    assert TwoDigits(n)[..1] == [Digit(n / 10)];
    assert Value([Digit(n / 10)][..0]) == 0;
    assert Value([Digit(n / 10)]) == n / 10;
  }

  lemma ParseMinutes(minutes: nat, secs: nat)
    requires secs < 60
    ensures ParseClock(Decimal(minutes) + ":" + TwoDigits(secs)) == Some(minutes * 60 + secs)
  {
    var rest := ":" + TwoDigits(secs);
    assert Decimal(minutes) + ":" + TwoDigits(secs) == Decimal(minutes) + rest;
    ReadDecimal(minutes, rest);
    ValueOfTwo(secs);
    assert rest[1..] == TwoDigits(secs);
  }

  lemma ParseHours(hours: nat, minutes: nat, secs: nat)
    requires minutes < 60 && secs < 60
    ensures ParseClock(Decimal(hours) + ":" + TwoDigits(minutes) + ":" + TwoDigits(secs)) ==
            Some(hours * 3600 + minutes * 60 + secs)
  {
    var rest := ":" + TwoDigits(minutes) + ":" + TwoDigits(secs);
    assert Decimal(hours) + ":" + TwoDigits(minutes) + ":" + TwoDigits(secs) == Decimal(hours) + rest;
    ReadDecimal(hours, rest);
    ValueOfTwo(minutes);
    ValueOfTwo(secs);
    assert rest[1..3] == TwoDigits(minutes) && rest[4..] == TwoDigits(secs);
  }

  lemma ReadMinutes(hours: nat, minutes: nat)
    ensures ReadUnits(hours, " h " + (Decimal(minutes) + " m")) == Some(hours * 3600 + minutes * 60)
  {
    var inner := Decimal(minutes) + " m";
    ReadDecimal(minutes, " m");
    assert (" h " + inner)[3..] == inner && (" h " + inner)[1] == 'h';
  }

  lemma ParseHoursMinutes(text: string, hours: nat, minutes: nat)
    requires text == Decimal(hours) + " h " + Decimal(minutes) + " m"
    ensures ParseClock(text) == Some(hours * 3600 + minutes * 60)
  {
    var inner := Decimal(minutes) + " m";
    Regroup(Decimal(hours), " h ", Decimal(minutes), " m");
    ParseParts(hours, " h " + inner);
    ReadMinutes(hours, minutes);
  }

  lemma WordLeads(word: string, inner: string, rest: string)
    requires rest == word + inner && (word == " day " || word == " days ")
    ensures |rest| > 4 && rest[0] != ':' && rest[1] != 'h'
    ensures " day " <= rest <==> word == " day "
    ensures " days " <= rest <==> word == " days "
    ensures rest[|word|..] == inner
  {
    assert rest[1] == word[1] && rest[4] == word[4];
    assert word == " day " ==> |word| == 5;
    assert word == " days " ==> |word| == 6;
  }

  lemma ReadDays(days: nat, hours: nat, word: string, rest: string)
    requires word == " day " || word == " days "
    requires rest == word + (Decimal(hours) + " h")
    ensures ReadUnits(days, rest) == Some(days * 86400 + hours * 3600)
  {
    ReadDecimal(hours, " h");
    WordLeads(word, Decimal(hours) + " h", rest);
    UnitsAreDays(days, word, rest);
  }

  lemma UnitsAreDays(days: nat, word: string, rest: string)
    requires |rest| > 4 && rest[0] != ':' && rest[1] != 'h'
    requires word == " day " || word == " days "
    requires " day " <= rest <==> word == " day "
    requires " days " <= rest <==> word == " days "
    requires Rest(rest[|word|..]) == " h"
    ensures ReadUnits(days, rest) == Some(days * 86400 + First(rest[|word|..]) * 3600)
  {
    assert word == " day " ==> |word| == 5;
    assert word == " days " ==> |word| == 6;
  }

  lemma ParseParts(n: nat, rest: string)
    requires rest != "" && !IsDigit(rest[0])
    ensures ParseClock(Decimal(n) + rest) == ReadUnits(n, rest)
  {
    ReadDecimal(n, rest);
  }

  lemma ParseDays(text: string, days: nat, hours: nat)
    requires text == Decimal(days) + (if days == 1 then " day " else " days ") + Decimal(hours) + " h"
    ensures ParseClock(text) == Some(days * 86400 + hours * 3600)
  {
    var word := if days == 1 then " day " else " days ";
    var inner := Decimal(hours) + " h";
    Regroup(Decimal(days), word, Decimal(hours), " h");
    assert word[0] == ' ';
    ParseParts(days, word + inner);
    ReadDays(days, hours, word, word + inner);
  }

  lemma Regroup(a: string, b: string, c: string, d: string)
    ensures a + b + c + d == a + (b + (c + d))
  {
  }

  /** What a display of these parts stands for. */
  function Stands(days: nat, hours: nat, minutes: nat, secs: nat, totalHours: nat): nat {
    if days >= 1 then days * 86400 + hours * 3600
    else if totalHours >= 10 then totalHours * 3600 + minutes * 60
    else totalHours * 3600 + minutes * 60 + secs
  }

  lemma DisplayReads(days: nat, hours: nat, minutes: nat, secs: nat, totalHours: nat)
    requires minutes < 60 && secs < 60
    ensures ParseClock(Display(days, hours, minutes, secs, totalHours)) ==
            Some(Stands(days, hours, minutes, secs, totalHours))
  {
    if days >= 1 {
      ParseDays(Display(days, hours, minutes, secs, totalHours), days, hours);
    } else if totalHours >= 10 {
      ParseHoursMinutes(Display(days, hours, minutes, secs, totalHours), totalHours, minutes);
    } else if totalHours >= 1 {
      ParseHours(totalHours, minutes, secs);
    } else {
      ParseMinutes(minutes, secs);
    }
  }

  lemma Divide(clamped: nat, days: nat, hours: nat, minutes: nat, secs: nat)
    requires clamped == 86400 * days + 3600 * hours + 60 * minutes + secs
    requires hours < 24 && minutes < 60 && secs < 60
    ensures clamped / 86400 == days && clamped % 86400 == 3600 * hours + 60 * minutes + secs
    ensures clamped / 3600 == 24 * days + hours && clamped % 3600 == 60 * minutes + secs
    ensures clamped % 60 == secs
  {
    DivideBy(clamped, 86400, days, 3600 * hours + 60 * minutes + secs);
    DivideBy(clamped, 3600, 24 * days + hours, 60 * minutes + secs);
    DivideBy(clamped, 60, 1440 * days + 60 * hours + minutes, secs);
  }

  lemma DivideBy(n: nat, unit: nat, quotient: nat, remainder: nat)
    requires unit == 60 || unit == 3600 || unit == 86400
    requires n == unit * quotient + remainder && remainder < unit
    ensures n / unit == quotient && n % unit == remainder
  {
    if unit == 60 {
      assert n / 60 == quotient;
    } else if unit == 3600 {
      assert n / 3600 == quotient;
    } else {
      assert n / 86400 == quotient;
    }
  }

  lemma Parts(clamped: nat) returns (days: nat, hours: nat, minutes: nat, secs: nat)
    ensures clamped == 86400 * days + 3600 * hours + 60 * minutes + secs
    ensures hours < 24 && minutes < 60 && secs < 60
  {
    days, hours := clamped / 86400, clamped % 86400 / 3600;
    minutes, secs := clamped % 86400 % 3600 / 60, clamped % 86400 % 3600 % 60;
  }

  lemma FormatOf(clamped: nat, days: nat, hours: nat, minutes: nat, secs: nat)
    requires clamped == 86400 * days + 3600 * hours + 60 * minutes + secs
    requires hours < 24 && minutes < 60 && secs < 60
    ensures FormatClockTime(clamped) == Display(days, hours, minutes, secs, 24 * days + hours)
    ensures Shown(clamped) == Stands(days, hours, minutes, secs, 24 * days + hours)
  {
    Divide(clamped, days, hours, minutes, secs);
    Divide(clamped % 86400, 0, hours, minutes, secs);
  }

  lemma ClampedShows(seconds: int)
    ensures FormatClockTime(seconds) == FormatClockTime(Clamped(seconds)) && Shown(seconds) == Shown(Clamped(seconds))
  {
  }

  /** Every display is read back as the time it shows: truncated to the second below ten
      hours, to the minute below a day and to the hour above. */
  lemma ParseInverts(seconds: int)
    ensures ParseClock(FormatClockTime(seconds)) == Some(Shown(seconds))
  {
    ClampedShows(seconds);
    ClampedReads(Clamped(seconds), FormatClockTime(Clamped(seconds)), Shown(Clamped(seconds)));
  }

  lemma ClampedReads(clamped: nat, text: string, shown: nat)
    requires text == FormatClockTime(clamped) && shown == Shown(clamped)
    ensures ParseClock(text) == Some(shown)
  {
    var days, hours, minutes, secs := Parts(clamped);
    FormatOf(clamped, days, hours, minutes, secs);
    DisplayReads(days, hours, minutes, secs, 24 * days + hours);
  }

  lemma ShownIsFixed(seconds: int)
    ensures FormatClockTime(Shown(seconds)) == FormatClockTime(seconds)
  {
    var clamped := Clamped(seconds);
    ClampedShows(seconds);
    var days, hours, minutes, secs := Parts(clamped);
    FormatOf(clamped, days, hours, minutes, secs);
    var shownMinutes, shownSecs := if days >= 1 then 0 else minutes, if days >= 1 || hours >= 10 then 0 else secs;
    FormatOf(Shown(clamped), days, hours, shownMinutes, shownSecs);
  }

  /** No display is ambiguous: two times look the same if and only if they agree to the
      resolution shown, across all four shapes. */
  lemma Unambiguous(a: int, b: int)
    ensures FormatClockTime(a) == FormatClockTime(b) <==> Shown(a) == Shown(b)
  {
    ParseInverts(a);
    ParseInverts(b);
    ShownIsFixed(a);
    ShownIsFixed(b);
  }

  lemma LeadingNumber(n: nat, word: string, tail: string, text: string)
    requires text == Decimal(n) + word + tail && word != "" && !IsDigit(word[0])
    ensures First(text) == n
  {
    assert text == Decimal(n) + (word + tail);
    ReadDecimal(n, word + tail);
  }

  lemma DisplayLeads(days: nat, hours: nat, minutes: nat, secs: nat, totalHours: nat)
    requires minutes < 60 && secs < 60
    ensures var text := Display(days, hours, minutes, secs, totalHours);
            && First(text) == (if days >= 1 then days else if totalHours >= 1 then totalHours else minutes)
            && (days == 0 && totalHours < 10 ==> |text| >= 2 && Value(text[|text| - 2..]) == secs)
  {
    var text := Display(days, hours, minutes, secs, totalHours);
    ValueOfTwo(secs);
    if days >= 1 {
      var word := if days == 1 then " day " else " days ";
      assert text == Decimal(days) + word + (Decimal(hours) + " h") && word[0] == ' ';
      LeadingNumber(days, word, Decimal(hours) + " h", text);
    } else if totalHours >= 10 {
      assert text == Decimal(totalHours) + " h " + (Decimal(minutes) + " m");
      LeadingNumber(totalHours, " h ", Decimal(minutes) + " m", text);
    } else {
      var n, tail := if totalHours >= 1 then totalHours else minutes,
                     if totalHours >= 1 then TwoDigits(minutes) + ":" + TwoDigits(secs) else TwoDigits(secs);
      assert text == Decimal(n) + ":" + tail;
      LeadingNumber(n, ":", tail, text);
      assert text[|text| - 2..] == TwoDigits(secs);
    }
  }

  /** The first number is the whole days, hours or minutes of the time, so that the rest
      shows less than one of them; seconds are the last two digits. */
  lemma LargestUnitLeads(seconds: int)
    requires seconds >= 0
    ensures First(FormatClockTime(seconds)) ==
            seconds / (if seconds >= 86400 then 86400 else if seconds >= 3600 then 3600 else 60)
    ensures seconds < 36000 ==>
              && |FormatClockTime(seconds)| >= 2
              && Value(FormatClockTime(seconds)[|FormatClockTime(seconds)| - 2..]) == seconds % 60
  {
    var days, hours, minutes, secs := Parts(seconds);
    FormatOf(seconds, days, hours, minutes, secs);
    DisplayLeads(days, hours, minutes, secs, 24 * days + hours);
    Divide(seconds, days, hours, minutes, secs);
    assert days == 0 && hours == 0 ==> seconds / 60 == minutes;
  }

  predicate StandsAt(text: string, part: string, i: nat) {
    i + |part| <= |text| && text[i..i + |part|] == part
  }

  predicate Contains(text: string, part: string) {
    exists i | 0 <= i <= |text| :: StandsAt(text, part, i)
  }

  lemma DayWord(text: string, number: string, word: string, tail: string, part: string)
    requires text == number + word + tail
    requires word == " day " || word == " days "
    requires part == " day " || part == " days "
    requires forall i | 0 <= i < |number| :: IsDigit(number[i])
    requires forall i | 0 <= i < |tail| :: IsDigit(tail[i]) || tail[i] == ' ' || tail[i] == 'h'
    ensures Contains(text, part) <==> word == part
  {
    assert text[|number|..|number| + |word|] == word;
    assert StandsAt(text, word, |number|);
    assert forall i | 0 <= i < |text| && text[i] == 'd' :: i == |number| + 1;
    assert text[|number| + 4] == word[4];
    forall i | 0 <= i <= |text| && StandsAt(text, part, i) ensures word[4] == part[4] {
      assert text[i + 1] == part[1] && text[i + 4] == part[4];
    }
    assert word != part ==> word[4] != part[4];
  }

  lemma NoDayWord(text: string, part: string)
    requires 'd' !in text && (part == " day " || part == " days ")
    ensures !Contains(text, part)
  {
    forall i | 0 <= i <= |text| ensures !StandsAt(text, part, i) {
      if i + |part| <= |text| {
        assert text[i..i + |part|][1] == text[i + 1] && part[1] == 'd';
      }
    }
  }

  lemma WordLetters(word: string, tail: string, digits: string)
    requires word == " day " || word == " days "
    requires tail == digits + " h" && forall i | 0 <= i < |digits| :: IsDigit(digits[i])
    ensures ':' !in word && 'm' !in word && ':' !in tail && 'm' !in tail
    ensures forall i | 0 <= i < |tail| :: IsDigit(tail[i]) || tail[i] == ' ' || tail[i] == 'h'
    ensures word[0] == ' '
  {
  }

  lemma NotInThree(a: string, b: string, c: string, text: string, letter: char)
    requires text == a + b + c && letter !in a && letter !in b && letter !in c
    ensures letter !in text
  {
  }

  lemma Wording(number: string, word: string, digits: string, tail: string, text: string)
    requires text == number + word + tail && tail == digits + " h"
    requires word == " day " || word == " days "
    requires forall i | 0 <= i < |number| :: IsDigit(number[i])
    requires forall i | 0 <= i < |digits| :: IsDigit(digits[i])
    ensures Contains(text, " day ") <==> word == " day "
    ensures Contains(text, " days ") <==> word == " days "
    ensures ':' !in text && 'm' !in text
  {
    WordLetters(word, tail, digits);
    DayWord(text, number, word, tail, " day ");
    DayWord(text, number, word, tail, " days ");
    NotInThree(number, word, tail, text, ':');
    NotInThree(number, word, tail, text, 'm');
  }

  lemma DaysShape(days: nat, hours: nat, word: string, text: string)
    requires word == if days == 1 then " day " else " days "
    requires text == Decimal(days) + word + Decimal(hours) + " h"
    ensures Contains(text, " day ") <==> word == " day "
    ensures Contains(text, " days ") <==> word == " days "
    ensures ':' !in text && 'm' !in text
  {
    DecimalIsDigits(days);
    DecimalIsDigits(hours);
    var tail := Decimal(hours) + " h";
    assert text == Decimal(days) + word + tail;
    Wording(Decimal(days), word, Decimal(hours), tail, text);
  }

  lemma HoursShape(hours: nat, minutes: nat, text: string)
    requires text == Decimal(hours) + " h " + Decimal(minutes) + " m"
    ensures 'd' !in text && ':' !in text && 'm' in text
  {
    DecimalIsDigits(hours);
    DecimalIsDigits(minutes);
    assert text[|text| - 1] == 'm';
  }

  lemma ColonShape(before: string, secs: nat, text: string)
    requires secs < 60 && text == before + ":" + TwoDigits(secs)
    requires forall i | 0 <= i < |before| :: IsDigit(before[i]) || before[i] == ':'
    ensures 'd' !in text && ':' in text && 'm' !in text
    ensures |text| >= 3 && text[..|text| - 3] == before
  {
    assert text[|before|] == ':';
  }

  lemma DisplayShape(days: nat, hours: nat, minutes: nat, secs: nat, totalHours: nat)
    requires minutes < 60 && secs < 60
    ensures var text := Display(days, hours, minutes, secs, totalHours);
            && (Contains(text, " day ") <==> days == 1)
            && (Contains(text, " days ") <==> days > 1)
            && ('m' in text <==> days == 0 && totalHours >= 10)
            && (':' in text <==> days == 0 && totalHours < 10)
            && (':' in text ==> |text| >= 3 && (':' in text[..|text| - 3] <==> totalHours >= 1))
  {
    var text := Display(days, hours, minutes, secs, totalHours);
    if days >= 1 {
      var word := if days == 1 then " day " else " days ";
      assert word == " day " <==> days == 1 by {
        assert |word| == if days == 1 then 5 else 6;
      }
      DaysShape(days, hours, word, text);
    } else if totalHours >= 10 {
      HoursShape(totalHours, minutes, text);
      NoDayWord(text, " day ");
      NoDayWord(text, " days ");
    } else if totalHours >= 1 {
      DecimalIsDigits(totalHours);
      var before := Decimal(totalHours) + ":" + TwoDigits(minutes);
      assert before[|Decimal(totalHours)|] == ':';
      ColonShape(before, secs, text);
      NoDayWord(text, " day ");
      NoDayWord(text, " days ");
    } else {
      DecimalIsDigits(minutes);
      ColonShape(Decimal(minutes), secs, text);
      NoDayWord(text, " day ");
      NoDayWord(text, " days ");
    }
  }

  /** A zero that other digits follow stands inside a number or after a colon, so that no
      number but those after a colon is padded. */
  predicate Unpadded(text: string) {
    forall i | 0 <= i < |text| - 1 && text[i] == '0' && IsDigit(text[i + 1]) ::
      i > 0 && (IsDigit(text[i - 1]) || text[i - 1] == ':')
  }

  predicate PlainNumber(number: string) {
    && number != "" && (forall i | 0 <= i < |number| :: IsDigit(number[i]))
    && (number[0] == '0' ==> |number| == 1)
  }

  lemma {:induction false} DecimalIsPlain(n: nat)
    ensures PlainNumber(Decimal(n)) && (Decimal(n)[0] == '0' ==> n == 0)
  {
    if n >= 10 {
      DecimalIsPlain(n / 10);
    }
  }

  predicate NoDigits(text: string) {
    forall i | 0 <= i < |text| :: !IsDigit(text[i])
  }

  lemma UnpaddedWords(number: string, word: string, digits: string, tail: string, text: string)
    requires text == number + word + digits + tail && PlainNumber(number) && PlainNumber(digits)
    requires word != "" && tail != "" && NoDigits(word) && NoDigits(tail)
    ensures Unpadded(text)
  {
    var a, b, c := |number|, |number| + |word|, |number| + |word| + |digits|;
    assert forall i | 0 <= i < |text| :: text[i] == if i < a then number[i] else if i < b then word[i - a]
                                                    else if i < c then digits[i - b] else tail[i - c];
  }

  lemma UnpaddedColons(number: string, rest: string, text: string)
    requires text == number + rest && PlainNumber(number) && rest != "" && rest[0] == ':'
    requires forall j | 0 < j < |rest| - 1 && rest[j] == '0' && IsDigit(rest[j + 1]) :: rest[j - 1] == ':'
    ensures Unpadded(text)
  {
  }

  /** No number of a display is padded, except the two digits after each colon. */
  lemma NumbersArePlain(seconds: int)
    ensures Unpadded(FormatClockTime(seconds))
  {
    ClampedShows(seconds);
    var days, hours, minutes, secs := Parts(Clamped(seconds));
    FormatOf(Clamped(seconds), days, hours, minutes, secs);
    DisplayIsPlain(days, hours, minutes, secs, 24 * days + hours);
  }

  lemma DisplayIsPlain(days: nat, hours: nat, minutes: nat, secs: nat, totalHours: nat)
    requires minutes < 60 && secs < 60
    ensures Unpadded(Display(days, hours, minutes, secs, totalHours))
  {
    var text := Display(days, hours, minutes, secs, totalHours);
    DecimalIsPlain(days);
    DecimalIsPlain(hours);
    DecimalIsPlain(minutes);
    DecimalIsPlain(totalHours);
    if days >= 1 {
      UnpaddedWords(Decimal(days), if days == 1 then " day " else " days ", Decimal(hours), " h", text);
    } else if totalHours >= 10 {
      UnpaddedWords(Decimal(totalHours), " h ", Decimal(minutes), " m", text);
    } else if totalHours >= 1 {
      var rest := ":" + TwoDigits(minutes) + ":" + TwoDigits(secs);
      assert text == Decimal(totalHours) + rest;
      UnpaddedColons(Decimal(totalHours), rest, text);
    } else {
      UnpaddedColons(Decimal(minutes), ":" + TwoDigits(secs), text);
    }
  }

  /** The shape tells the range of the time: "day" below two days and "days" from there,
      minutes named from ten hours, one colon below an hour and two from there. */
  lemma ShapeIff(seconds: int)
    ensures var text := FormatClockTime(seconds);
            && (Contains(text, " day ") <==> 86400 <= seconds < 172800)
            && (Contains(text, " days ") <==> 172800 <= seconds)
            && ('m' in text <==> 36000 <= seconds < 86400)
            && (':' in text <==> seconds < 36000)
            && (':' in text ==> |text| >= 3 && (':' in text[..|text| - 3] <==> 3600 <= seconds))
  {
    ClampedShows(seconds);
    var days, hours, minutes, secs := Parts(Clamped(seconds));
    FormatOf(Clamped(seconds), days, hours, minutes, secs);
    DisplayShape(days, hours, minutes, secs, 24 * days + hours);
  }

  /** What is read back, to the resolution of each range. */
  lemma ReadingByRange(seconds: int)
    ensures ParseClock(FormatClockTime(seconds)) ==
            Some(if seconds < 0 then 0
                 else if seconds < 36000 then seconds
                 else if seconds < 86400 then seconds - seconds % 60
                 else seconds - seconds % 3600)
  {
    ParseInverts(seconds);
    ShownByRange(seconds, Shown(seconds));
  }

  lemma ShownByRange(seconds: int, shown: nat)
    requires shown == Shown(seconds)
    ensures shown == if seconds < 0 then 0
                     else if seconds < 36000 then seconds
                     else if seconds < 86400 then seconds - seconds % 60
                     else seconds - seconds % 3600
  {
  }

  /** Reading two displays back orders them as their times are ordered, and never reads
      more time than there is, nor an hour less. */
  lemma ReadingIsMonotone(a: int, b: int)
    requires a <= b
    ensures ParseClock(FormatClockTime(a)).Some? && ParseClock(FormatClockTime(b)).Some?
    ensures ParseClock(FormatClockTime(a)).value <= ParseClock(FormatClockTime(b)).value
    ensures Clamped(a) - 3600 < ParseClock(FormatClockTime(a)).value <= Clamped(a)
  {
    ParseInverts(a);
    ParseInverts(b);
    ShownIsMonotone(Clamped(a), Clamped(b));
  }

  lemma ShownIsMonotone(a: nat, b: nat)
    requires a <= b
    ensures a - 3600 < Shown(a) <= Shown(b) && Shown(a) <= a
  {
    DownTo(a, b, 3600);
    DownTo(a, b, 60);
    if 36000 <= b {
      DownTo(36000, b, 60);
    }
    if 86400 <= b {
      DownTo(86400, b, 3600);
    }
  }

  lemma DownTo(a: nat, b: nat, unit: nat)
    requires a <= b && (unit == 60 || unit == 3600)
    ensures a - unit < a - a % unit <= b - b % unit
  {
    assert a - a % unit == a / unit * unit && b - b % unit == b / unit * unit;
  }
}
