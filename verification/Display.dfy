/**
 The way of a percentage from the agent to the bar: printed with two decimals, read as an untrusted
 line, sanitised, parsed, and turned into a message.
 */
module Display {
  import opened ExitCodes
  import opened Worker
  import opened Feeder
  import opened Progress

  // ---------------------------------------------------------------- printing

  const DIGITS: string := "0123456789"

  function Digits(n: nat): string {
    if n < 10 then [DIGITS[n]] else Digits(n / 10) + [DIGITS[n % 10]]
  }

  /** `f"{p:.2f}"` of a number of hundredths. */
  function Format(cents: nat): string {
    Digits(cents / 100) + "." + [DIGITS[cents / 10 % 10], DIGITS[cents % 10]]
  }

  // ---------------------------------------------------------------- sanitising

  predicate Printable(c: char) {
    0x20 <= c as int <= 0x7E
  }

  /** `sanitize_output` on one line. */
  function Sanitize(line: string): string {
    if line == [] then []
    else Sanitize(line[..|line| - 1]) + if Printable(line[|line| - 1]) then [line[|line| - 1]] else []
  }

  function PrintableCount(line: string): nat {
    if line == [] then 0
    else PrintableCount(line[..|line| - 1]) + if Printable(line[|line| - 1]) then 1 else 0
  }

  lemma {:induction false} SanitizeIs(line: string)
    ensures forall c | c in Sanitize(line) :: Printable(c) && c in line
    ensures (forall c | c in line :: Printable(c)) ==> Sanitize(line) == line
  {
    if line != [] {
      var n := |line| - 1;
      SanitizeIs(line[..n]);
      assert line == line[..n] + [line[n]];
    }
  }

  /** The printable characters, all of them and in their order, and nothing else. */
  lemma {:induction false} SanitizeKeeps(line: string)
    ensures |Sanitize(line)| == PrintableCount(line)
    ensures forall i | 0 <= i < |line| && Printable(line[i]) ::
              PrintableCount(line[..i]) < |Sanitize(line)| && Sanitize(line)[PrintableCount(line[..i])] == line[i]
  {
    if line != [] {
      var n := |line| - 1;
      SanitizeKeeps(line[..n]);
      forall i | 0 <= i < |line| && Printable(line[i])
        ensures PrintableCount(line[..i]) < |Sanitize(line)| && Sanitize(line)[PrintableCount(line[..i])] == line[i]
      {
        if i < n {
          assert line[..n][..i] == line[..i] && line[..n][i] == line[i];
        }
      }
    }
  }

  /** A blank line, which has no number to read. */
  const BLANK: string := " \n"

  // ---------------------------------------------------------------- parsing

  predicate IsDigit(c: char) {
    '0' <= c <= '9'
  }

  predicate AllDigits(s: string) {
    forall i | 0 <= i < |s| :: IsDigit(s[i])
  }

  function NatOf(s: string): nat
    requires AllDigits(s)
  {
    if s == [] then 0
    else
      10 * NatOf(s[..|s| - 1]) + (s[|s| - 1] as int - '0' as int)
  }

  function Power10(n: nat): nat
    ensures Power10(n) > 0
  {
    if n == 0 then 1 else 10 * Power10(n - 1)
  }

  /** The text splits into digits, a point at `k`, and digits. */
  predicate PlainAt(s: string, k: nat) {
    0 < k < |s| - 1 && s[k] == '.' && AllDigits(s[..k]) && AllDigits(s[k + 1..])
  }

  function Decimal(whole: nat, rest: nat, places: nat): real {
    whole as real + rest as real / Power10(places) as real
  }

  function PlainValue(s: string, k: nat): real
    requires PlainAt(s, k)
  {
    Decimal(NatOf(s[..k]), NatOf(s[k + 1..]), |s| - k - 1)
  }

  /** Where the first point is, or the length of a text without one. */
  function Point(s: string): nat {
    if s == [] || s[0] == '.' then 0 else 1 + Point(s[1..])
  }

  lemma {:induction false} PointAfterDigits(whole: string, rest: string)
    requires AllDigits(whole)
    ensures Point(whole + "." + rest) == |whole|
  {
    if whole != [] {
      assert (whole + "." + rest)[1..] == whole[1..] + "." + rest;
      PointAfterDigits(whole[1..], rest);
    }
  }

  /** `float(text)`: fixed on plain decimals, whatever Python makes of the rest elsewhere. */
  function Float(s: string, other: string -> Option<real>): Option<real> {
    if PlainAt(s, Point(s)) then Some(PlainValue(s, Point(s))) else other(s)
  }

  /** `line.split()[-1]`; a line of blanks has no last word. */
  function LastWord(s: string): Option<string>
    decreases |s|
  {
    if s == [] then None
    else
      var n := |s| - 1;
      if s[n] == ' ' then LastWord(s[..n])
      else if n == 0 || s[n - 1] == ' ' then Some([s[n]])
      else
        var before := LastWord(s[..n]);
        if before.Some? then Some(before.value + [s[n]]) else Some([s[n]])
  }

  lemma {:induction false} BlankHasNoWord(s: string)
    ensures LastWord(s).None? <==> forall c | c in s :: c == ' '
  {
    if s != [] {
      var n := |s| - 1;
      BlankHasNoWord(s[..n]);
      assert s[n] in s;
      assert forall c | c in s :: c in s[..n] || c == s[n];
      assert forall c | c in s[..n] :: c in s;
    }
  }

  // ---------------------------------------------------------------- the reader thread

  datatype Reader = Reader(messages: seq<Message>, finished: bool, raised: bool)

  /** One line of the agent's standard error. */
  ghost function ReadLine(r: Reader, qname: string, untrusted: string, other: string -> Option<real>): Reader {
    var line := Sanitize(untrusted);
    if r.raised || line == [] then r
    else if r.finished then r.(messages := r.messages + [Message(qname, Line(line))])
    else
      var whole := Float(line, other);
      if whole.None? && LastWord(line).None? then r.(raised := true)
      else
        var number := if whole.Some? then whole else Float(LastWord(line).value, other);
        if number.None? then r.(messages := r.messages + [Message(qname, Line(line))])
        else Reader(r.messages + [Message(qname, Updating(number.value))], number.value == 100.0, false)
  }

  ghost function ReadAll(r: Reader, qname: string, lines: seq<string>, other: string -> Option<real>): Reader {
    if lines == [] then r
    else ReadLine(ReadAll(r, qname, lines[..|lines| - 1], other), qname, lines[|lines| - 1], other)
  }

  ghost const START: Reader := Reader([], false, false)

  /** A blank line read before 100 makes the reader raise, and nothing else does. */
  lemma ReaderRaisesIff(r: Reader, qname: string, untrusted: string, other: string -> Option<real>)
    requires !r.raised
    ensures ReadLine(r, qname, untrusted, other).raised
            <==> && !r.finished && Sanitize(untrusted) != [] && Float(Sanitize(untrusted), other).None?
                 && forall c | c in Sanitize(untrusted) :: c == ' '
  {
    BlankHasNoWord(Sanitize(untrusted));
  }

  /** For instance a line with a single blank, which Python's `float` refuses. */
  lemma BlankLineRaises(qname: string, other: string -> Option<real>)
    requires other(" ") == None
    ensures ReadLine(START, qname, BLANK, other).raised
  {
    assert BLANK[..1] == " " && " "[..0] == "";
    assert Sanitize(BLANK) == " ";
    assert !PlainAt(" ", Point(" "));
    ReaderRaisesIff(START, qname, BLANK, other);
  }

  // ---------------------------------------------------------------- the round trip

  lemma {:induction false} DigitsRoundTrip(n: nat)
    ensures Digits(n) != [] && AllDigits(Digits(n)) && NatOf(Digits(n)) == n
  {
    if n < 10 {
      assert Digits(n)[..0] == [];
    } else {
      DigitsRoundTrip(n / 10);
      var before := Digits(n / 10);
      assert Digits(n)[..|before|] == before;
    }
  }

  lemma TwoDigits(a: nat, b: nat)
    requires a < 10 && b < 10
    ensures AllDigits([DIGITS[a], DIGITS[b]]) && NatOf([DIGITS[a], DIGITS[b]]) == 10 * a + b
  {
    var s := [DIGITS[a], DIGITS[b]];
    assert s[..1] == [DIGITS[a]] && s[..1][..0] == [];
    assert NatOf(s[..1]) == a;
  }

  lemma PlainJoin(whole: string, rest: string)
    requires AllDigits(whole) && AllDigits(rest) && whole != [] && rest != []
    ensures var s := whole + "." + rest;
            && Point(s) == |whole| && PlainAt(s, |whole|)
            && PlainValue(s, |whole|) == Decimal(NatOf(whole), NatOf(rest), |rest|)
  {
    var s := whole + "." + rest;
    PointAfterDigits(whole, rest);
    assert s[..|whole|] == whole && s[|whole| + 1..] == rest;
  }

  lemma CentsSplit(cents: nat)
    ensures Decimal(cents / 100, 10 * (cents / 10 % 10) + cents % 10, 2) == Value(cents)
  {
    assert Power10(1) == 10 && Power10(2) == 100;
    assert cents == 100 * (cents / 100) + (10 * (cents / 10 % 10) + cents % 10);
  }

  lemma FormatIsPlain(cents: nat)
    ensures var s, k := Format(cents), |Digits(cents / 100)|;
            Point(s) == k && PlainAt(s, k) && PlainValue(s, k) == Value(cents)
  {
    DigitsRoundTrip(cents / 100);
    TwoDigits(cents / 10 % 10, cents % 10);
    PlainJoin(Digits(cents / 100), [DIGITS[cents / 10 % 10], DIGITS[cents % 10]]);
    CentsSplit(cents);
  }

  /** A printed number of hundredths is parsed as that number. */
  lemma FormatRoundTrip(cents: nat, other: string -> Option<real>)
    ensures Float(Format(cents), other) == Some(Value(cents))
    ensures forall c | c in Format(cents) :: Printable(c)
    ensures Format(cents) != []
  {
    FormatIsPlain(cents);
    var whole, s := Digits(cents / 100), Format(cents);
    DigitsRoundTrip(cents / 100);
    TwoDigits(cents / 10 % 10, cents % 10);
    forall c | c in s ensures Printable(c) {
      assert c in whole || c == '.' || c in [DIGITS[cents / 10 % 10], DIGITS[cents % 10]];
    }
  }

  /** Printing, sanitising and parsing a value gives the value. */
  lemma LineRoundTrip(cents: nat, other: string -> Option<real>)
    ensures Sanitize(Format(cents) + "\n") == Format(cents)
  {
    FormatRoundTrip(cents, other);
    SanitizeIs(Format(cents));
    assert (Format(cents) + "\n")[..|Format(cents)|] == Format(cents);
  }

  ghost predicate Reports(reports: seq<int>) {
    NonDecreasing(reports) && forall c | c in reports :: 0 < c <= 10000
  }

  function PrintedLine(report: int): string {
    Format(if report < 0 then 0 else report) + "\n"
  }

  /** The lines the agent prints. */
  function Printed(reports: seq<int>): seq<string> {
    if reports == [] then []
    else Printed(reports[..|reports| - 1]) + [PrintedLine(reports[|reports| - 1])]
  }

  lemma ReportsPrefix(before: seq<int>, last: int)
    requires Reports(before + [last])
    ensures Reports(before) && 0 < last <= 10000 && (before != [] ==> before[|before| - 1] <= last)
  {
    var all := before + [last];
    assert all[|before|] == last && last in all;
    forall i, j | 0 <= i < j < |before| ensures before[i] <= before[j] {
      assert all[i] <= all[j];
    }
    forall c | c in before ensures 0 < c <= 10000 {
      assert c in all;
    }
    if before != [] {
      assert all[|before| - 1] <= all[|before|];
    }
  }

  lemma ReadNext(r: Reader, qname: string, lines: seq<string>, line: string, other: string -> Option<real>)
    ensures ReadAll(r, qname, lines + [line], other) == ReadLine(ReadAll(r, qname, lines, other), qname, line, other)
  {
    assert (lines + [line])[..|lines|] == lines;
  }

  lemma ReadReport(r: Reader, qname: string, cents: nat, other: string -> Option<real>)
    requires !r.raised
    ensures ReadLine(r, qname, Format(cents) + "\n", other)
            == if r.finished then r.(messages := r.messages + [Message(qname, Line(Format(cents)))])
               else Reader(r.messages + [Message(qname, Updating(Value(cents)))], cents == 10000, false)
  {
    LineRoundTrip(cents, other);
    FormatRoundTrip(cents, other);
    assert Value(cents) == 100.0 <==> cents == 10000;
  }

  /** The reader has taken in these reports. */
  ghost predicate HasRead(r: Reader, reports: seq<int>, qname: string) {
    && !r.raised && |r.messages| == |reports|
    && (forall m | m in r.messages :: m.qname == qname && !m.info.Done?)
    && (r.finished <==> reports != [] && reports[|reports| - 1] == 10000)
    && LastReport(r.messages) == if reports == [] then None else Some(Value(reports[|reports| - 1]))
  }

  lemma ReadOneMore(r: Reader, reports: seq<int>, report: int, qname: string, other: string -> Option<real>)
    requires HasRead(r, reports, qname) && 0 < report <= 10000
    requires reports != [] ==> reports[|reports| - 1] <= report
    ensures HasRead(ReadLine(r, qname, PrintedLine(report), other), reports + [report], qname)
  {
    ReadReport(r, qname, report, other);
    if r.finished {
      LastAppend(r.messages, Message(qname, Line(Format(report))));
    } else {
      LastAppend(r.messages, Message(qname, Updating(Value(report))));
    }
  }

  /**
   Reading the reports of an agent never raises, puts one message per report, and the last value among
   them is the last report: whatever follows the first 100 is another 100.
   */
  lemma {:induction false} ReaderAgrees(reports: seq<int>, qname: string, other: string -> Option<real>)
    requires Reports(reports)
    ensures HasRead(ReadAll(START, qname, Printed(reports), other), reports, qname)
  {
    if reports != [] {
      var before, last := reports[..|reports| - 1], reports[|reports| - 1];
      assert reports == before + [last];
      ReportsPrefix(before, last);
      ReaderAgrees(before, qname, other);
      ReadNext(START, qname, Printed(before), PrintedLine(last), other);
      ReadOneMore(ReadAll(START, qname, Printed(before), other), before, last, qname, other);
    }
  }

  /** The values of the progress reports among some messages, in order. */
  ghost function Percentages(log: seq<Message>): seq<real> {
    if log == [] then []
    else
      var n := |log| - 1;
      match log[n].info
      case Updating(percent) => Percentages(log[..n]) + [percent]
      case _ => Percentages(log[..n])
  }

  lemma {:induction false} LastPercentage(log: seq<Message>)
    ensures LastReport(log) == if Percentages(log) == [] then None else Some(Percentages(log)[|Percentages(log)| - 1])
  {
    if log != [] {
      LastPercentage(log[..|log| - 1]);
    }
  }

  /**
   From the agent's percentages to the bar: if the progress reports among this qube's messages are those
   read from its agent, then after any interleaving with its other messages, with its DONEs and with other
   qubes' messages its bar shows the agent's last report, or 0 without one.
   */
  lemma BarAgreesWithAgent(st: FeedState, log: seq<Message>, name: string, first: real, second: real,
                           one: seq<real>, two: seq<real>, three: seq<real>, other: string -> Option<real>)
    requires Ends(first, second) && Percents(one) && Percents(two) && Percents(three)
    requires Known(st, log) && name in st.progresses && name !in st.statuses
    requires st.progresses[name] == st.shown[name] == 0.0
    requires Percentages(From(log, name))
             == Percentages(ReadAll(START, name, Printed(Stream(first, second, one, two, three)), other).messages)
    ensures FeedAll(st, log).shown[name] == LastOf(Stream(first, second, one, two, three))
  {
    hide Stream, Printed, ReadAll, Percentages, From;
    var reports := Stream(first, second, one, two, three);
    StreamBounds(first, second, one, two, three);
    ReaderAgrees(reports, name, other);
    LastPercentage(From(log, name));
    LastPercentage(ReadAll(START, name, Printed(reports), other).messages);
    FeedShows(st, log, name);
  }

  /** The last of an agent's reports, as the bar shows it. */
  function LastOf(reports: seq<int>): real {
    if reports == [] then 0.0 else Value(reports[|reports| - 1])
  }

  /** `_collect_stderr` */
  method CollectStderr(qname: string, lines: seq<string>, other: string -> Option<real>)
    returns (messages: seq<Message>, raised: bool)
    ensures var r := ReadAll(START, qname, lines, other);
            messages == r.messages && raised == r.raised
  {
    messages := [];
    raised := false;
    var finished := false;
    for i := 0 to |lines|
      invariant !raised && Reader(messages, finished, raised) == ReadAll(START, qname, lines[..i], other)
    {
      assert lines[..i + 1][..i] == lines[..i];
      var line := Sanitize(lines[i]);
      if line == [] {
        continue;
      }
      if finished {
        messages := messages + [Message(qname, Line(line))];
        continue;
      }
      var number := Float(line, other);
      if number.None? {
        var word := LastWord(line);
        if word.None? {
          raised := true;
          RaisedStays(qname, lines, i + 1, other);
          return;
        }
        number := Float(word.value, other);
        if number.None? {
          messages := messages + [Message(qname, Line(line))];
          continue;
        }
      }
      finished := number.value == 100.0;
      messages := messages + [Message(qname, Updating(number.value))];
    }
    assert lines[..|lines|] == lines;
  }

  /** Nothing is read after the thread has raised. */
  lemma {:induction false} RaisedStays(qname: string, lines: seq<string>, i: nat, other: string -> Option<real>)
    requires i <= |lines| && ReadAll(START, qname, lines[..i], other).raised
    ensures ReadAll(START, qname, lines, other) == ReadAll(START, qname, lines[..i], other)
  {
    if i == |lines| {
      assert lines[..i] == lines;
    } else {
      var n := |lines| - 1;
      assert lines[..n][..i] == lines[..i];
      RaisedStays(qname, lines[..n], i, other);
    }
  }

  // ---------------------------------------------------------------- what a line is taken for

  lemma {:induction false} LastWordAfterBlank(before: string, word: string)
    requires word != "" && forall i | 0 <= i < |word| :: word[i] != ' '
    ensures LastWord(before + " " + word) == Some(word)
  {
    var s, n := before + " " + word, |word| - 1;
    assert s[..|s| - 1] == before + " " + word[..n];
    if n > 0 {
      LastWordAfterBlank(before, word[..n]);
      assert word == word[..n] + [word[n]];
    } else {
      assert word == [word[0]];
      assert s[|s| - 2] == ' ';
    }
  }

  lemma {:induction false} NotPlain(s: string, i: nat)
    requires i < |s| && s[i] == ' '
    ensures !PlainAt(s, Point(s))
  {
    var k := Point(s);
    if i < k < |s| {
      assert s[..k][i] == ' ';
    }
    if k < i {
      assert s[k + 1..][i - k - 1] == ' ';
    }
  }

  /** A text that ends in a number counts as that number, until 100 has been read. */
  lemma LastWordIsRead(r: Reader, qname: string, before: string, cents: nat, other: string -> Option<real>)
    requires !r.raised && !r.finished && forall c | c in before :: Printable(c)
    requires other(before + " " + Format(cents)) == None
    ensures ReadLine(r, qname, before + " " + Format(cents), other)
            == Reader(r.messages + [Message(qname, Updating(cents as real / 100.0))], cents == 10000, false)
  {
    hide Format;
    var line, word := before + " " + Format(cents), Format(cents);
    FormatRoundTrip(cents, other);
    forall i | 0 <= i < |word| ensures word[i] != ' ' {
      FormatHasNoBlank(cents, i);
    }
    LastWordAfterBlank(before, word);
    NotPlain(line, |before|);
    SanitizeIs(line);
    assert forall c | c in line :: Printable(c);
    assert Value(cents) == 100.0 <==> cents == 10000;
  }

  lemma FormatHasNoBlank(cents: nat, i: nat)
    requires i < |Format(cents)|
    ensures Format(cents)[i] != ' '
  {
    var whole := Digits(cents / 100);
    DigitsRoundTrip(cents / 100);
    TwoDigits(cents / 10 % 10, cents % 10);
    if i < |whole| {
      assert Format(cents)[i] == whole[i] && IsDigit(whole[i]);
    } else if i > |whole| {
      assert IsDigit([DIGITS[cents / 10 % 10], DIGITS[cents % 10]][i - |whole| - 1]);
    }
  }

  /** After 100 every line is handed on as text, and so is one whose last word is no number. */
  lemma TextIsHandedOn(r: Reader, qname: string, before: string, word: string, other: string -> Option<real>)
    requires !r.raised && (forall c | c in before + word :: Printable(c))
    requires word != "" && forall i | 0 <= i < |word| :: word[i] != ' '
    requires r.finished || (other(before + " " + word) == None && Float(word, other) == None)
    ensures ReadLine(r, qname, before + " " + word, other) == r.(messages := r.messages + [Message(qname, Line(before + " " + word))])
  {
    var line := before + " " + word;
    assert forall c | c in before :: c in before + word;
    assert forall c | c in word :: c in before + word;
    assert forall c | c in line :: Printable(c);
    SanitizeIs(line);
    LastWordAfterBlank(before, word);
    NotPlain(line, |before|);
  }

  /** Two decimals, a point, and no leading zeros: for example 12.34. */
  lemma FormatSample(other: string -> Option<real>)
    ensures Format(1234) == "12.34" && Float("12.34", other) == Some(12.34)
  {
    assert Digits(12) == Digits(1) + "2" == "12";
    assert Format(1234) == "12" + "." + "34";
    FormatRoundTrip(1234, other);
  }

  /** Kept are the characters from the blank to the tilde. */
  lemma PrintableMeans(c: char)
    ensures Printable(c) <==> ' ' <= c <= '~'
  {}
}
