/** Which schedules `on_calendar` accepts, stated by decomposing their text. */
module CronAcceptance {
  import opened Text
  import opened CronSchedule
  import opened CronMeaning

  // ---------------------------------------------------------------- the grammar

  ghost predicate InBounds(a: string, low: nat, high: nat) { Numeral(a) && low <= Value(a) <= high }

  /** A numeral without leading zeros. */
  ghost predicate Plainly(a: string) { Numeral(a) && (|a| > 1 ==> a[0] != '0') }

  ghost predicate SpanForm(token: string, a: string, b: string, low: nat, high: nat) {
    token == a + "-" + b && InBounds(a, low, high) && InBounds(b, low, high) && Value(a) <= Value(b)
  }

  ghost predicate StepForm(token: string, a: string, n: string, low: nat, high: nat) {
    && token == a + "/" + n && InBounds(n, 1, high + 1)
    && (a == "*" || (InBounds(a, low, high) && Plainly(a)))
  }

  /** A number, a range that does not run backwards, or steps from `*` or from a plain number. */
  ghost predicate TokenForm(token: string, low: nat, high: nat) {
    || InBounds(token, low, high)
    || (exists a, b :: SpanForm(token, a, b, low, high))
    || (exists a, n :: StepForm(token, a, n, low, high))
  }

  ghost predicate FieldForm(text: string, low: nat, high: nat) {
    text == "*" || forall i :: 0 <= i < |Split(text, ',')| ==> TokenForm(Split(text, ',')[i], low, high)
  }

  /** A weekday number from 0 to 7, or a range of them. */
  ghost predicate WeekdayTokenForm(token: string) {
    InBounds(token, 0, 7) || exists a, b :: SpanForm(token, a, b, 0, 7)
  }

  ghost predicate WeekdayForm(text: string) {
    text == "*" || forall i :: 0 <= i < |Split(text, ',')| ==> WeekdayTokenForm(Split(text, ',')[i])
  }

  /** Minute, hour, day of the month, month, weekday; not both of the day fields are set. */
  ghost predicate CronForm(words: seq<string>) {
    && |words| == 5 && (words[2] == "*" || words[4] == "*")
    && FieldForm(words[0], 0, 59) && FieldForm(words[1], 0, 23) && FieldForm(words[2], 1, 31)
    && FieldForm(words[3], 1, 12) && WeekdayForm(words[4])
  }

  /** `every N` seconds, minutes or hours, where N divides the minute, the hour or the day. */
  ghost predicate PeriodForm(words: seq<string>, n: string, unit: char) {
    && Numeral(n) && n[0] != '0' && Value(n) > 0 && (unit == 's' || unit == 'm' || unit == 'h')
    && words == ["every", n + [unit]] && (if unit == 'h' then 24 else 60) % Value(n) == 0
  }

  ghost predicate ZoneForm(zone: string) { zone == "" || ZoneName(zone) }

  // ---------------------------------------------------------------- numerals as printed

  lemma {:induction false} DecimalIsPlain(n: nat)
    ensures Plainly(Decimal(n))
    ensures Decimal(n)[0] == '0' ==> n == 0
  {
    if n >= 10 {
      DecimalIsPlain(n / 10);
    }
  }

  lemma OneDigit(a: string)
    requires Numeral(a) && |a| == 1
    ensures Value(a) < 10 && a == Decimal(Value(a))
  {
    assert a[..0] == "" && Value(a) == Digit(a[0]);
    assert a == [a[0]];
  }

  lemma LongDecimal(front: string, c: char)
    requires Numeral(front) && IsDigit(c) && Value(front) > 0 && front == Decimal(Value(front))
    ensures front + [c] == Decimal(Value(front + [c]))
  {
    var a := front + [c];
    assert a[..|a| - 1] == front;
    LastDigit(a);
    assert Value(a) == 10 * Value(front) + Digit(c);
    DigitInjective(c, '0' + (Value(a) % 10) as char);
  }

  lemma {:induction false} PlainIsDecimal(a: string)
    requires Plainly(a)
    ensures a == Decimal(Value(a))
  {
    if |a| == 1 {
      OneDigit(a);
    } else {
      var front := a[..|a| - 1];
      LeadingDigit(front);
      PlainIsDecimal(front);
      assert a == front + [a[|a| - 1]];
      LongDecimal(front, a[|a| - 1]);
    }
  }

  lemma PlainIs(base: string, b: Bounds)
    ensures Plain(base, b) <==> Plainly(base) && InBounds(base, b.low, b.high)
  {
    if n :| b.low <= n <= b.high && base == Decimal(n) {
      DecimalIsPlain(n);
    }
    if Plainly(base) {
      PlainIsDecimal(base);
    }
  }

  // ---------------------------------------------------------------- one token

  lemma SpanCut(token: string, a: string, b: string, low: nat, high: nat)
    requires SpanForm(token, a, b, low, high)
    ensures '/' !in token && '-' in token && Partition(token, '-') == (a, true, b)
  {
    NumeralAvoids(a, '-');
    NumeralAvoids(a, '/');
    NumeralAvoids(b, '/');
    PartitionUnique(a, '-', b);
  }

  lemma StepCut(token: string, a: string, n: string, low: nat, high: nat)
    requires StepForm(token, a, n, low, high)
    ensures Partition(token, '/') == (a, true, n)
  {
    if a != "*" {
      NumeralAvoids(a, '/');
    }
    PartitionUnique(a, '/', n);
  }

  lemma StepAccepted(token: string, b: Bounds)
    requires '/' in token
    ensures Token(token, b).Ok? <==> exists a, n :: StepForm(token, a, n, b.low, b.high)
  {
    var (base, _, step) := Partition(token, '/');
    PlainIs(base, b);
    if Token(token, b).Ok? {
      assert token == base + "/" + step;
      assert StepForm(token, base, step, b.low, b.high);
    }
    if a, n :| StepForm(token, a, n, b.low, b.high) {
      StepCut(token, a, n, b.low, b.high);
    }
  }

  lemma SpanAccepted(token: string, b: Bounds)
    requires '/' !in token && '-' in token
    ensures Token(token, b).Ok? <==> exists a, z :: SpanForm(token, a, z, b.low, b.high)
  {
    var (a, _, z) := Partition(token, '-');
    if Token(token, b).Ok? {
      assert token == a + "-" + z;
      assert SpanForm(token, a, z, b.low, b.high);
    }
    if x, y :| SpanForm(token, x, y, b.low, b.high) {
      SpanCut(token, x, y, b.low, b.high);
    }
  }

  /** Which forms a token can have tells by its first slash or dash. */
  lemma FormsApart(token: string, low: nat, high: nat)
    ensures '/' in token || '-' in token ==> !InBounds(token, low, high)
    ensures '/' in token ==> forall a, b :: !SpanForm(token, a, b, low, high)
    ensures '-' !in token ==> forall a, b :: !SpanForm(token, a, b, low, high)
    ensures '/' !in token ==> forall a, n :: !StepForm(token, a, n, low, high)
  {
    if Numeral(token) {
      NumeralAvoids(token, '/');
      NumeralAvoids(token, '-');
    }
    forall a, b | SpanForm(token, a, b, low, high) ensures '/' !in token && '-' in token {
      SpanCut(token, a, b, low, high);
    }
    forall a, n | StepForm(token, a, n, low, high) ensures '/' in token {
      StepCut(token, a, n, low, high);
    }
  }

  /** A token converts if and only if it has one of the forms, within the bounds. */
  lemma TokenAccepted(token: string, b: Bounds)
    ensures Token(token, b).Ok? <==> TokenForm(token, b.low, b.high)
  {
    FormsApart(token, b.low, b.high);
    if '/' in token {
      StepAccepted(token, b);
    } else if '-' in token {
      SpanAccepted(token, b);
    }
  }

  lemma WeekdaySpan(token: string)
    requires '/' !in token && '-' in token
    ensures WeekdayToken(token).Ok? <==> exists a, b :: SpanForm(token, a, b, 0, 7)
  {
    var (a, _, z) := Partition(token, '-');
    if WeekdayToken(token).Ok? {
      assert token == a + "-" + z;
      assert SpanForm(token, a, z, 0, 7);
    }
    if x, y :| SpanForm(token, x, y, 0, 7) {
      SpanCut(token, x, y, 0, 7);
    }
  }

  lemma WeekdayAccepted(token: string)
    ensures WeekdayToken(token).Ok? <==> WeekdayTokenForm(token)
  {
    FormsApart(token, 0, 7);
    if '/' !in token && '-' in token {
      WeekdaySpan(token);
    }
  }

  // ---------------------------------------------------------------- fields and schedules

  lemma FieldAccepted(text: string, b: Bounds)
    ensures FieldText(text, b).Ok? <==> FieldForm(text, b.low, b.high)
  {
    var tokens := Split(text, ',');
    forall i | 0 <= i < |tokens| ensures FieldToken(b)(tokens[i]).Ok? <==> TokenForm(tokens[i], b.low, b.high) {
      TokenAccepted(tokens[i], b);
    }
  }

  lemma WeekdaysAccepted(text: string)
    ensures WeekdayText(text).Ok? <==> WeekdayForm(text)
  {
    var tokens := Split(text, ',');
    forall i | 0 <= i < |tokens| ensures WeekdayToken(tokens[i]).Ok? <==> WeekdayTokenForm(tokens[i]) {
      WeekdayAccepted(tokens[i]);
    }
  }

  lemma FieldsAccepted(f: seq<string>)
    requires |f| == 5
    ensures FiveFields(f).Ok? <==> CronForm(f)
  {
    FieldAccepted(f[0], MINUTES);
    FieldAccepted(f[1], HOURS);
    FieldAccepted(f[2], DAYS);
    FieldAccepted(f[3], MONTHS);
    WeekdaysAccepted(f[4]);
  }

  /** Splitting the normalized text at its blanks gives the words back. */
  lemma WordsBack(words: seq<string>)
    requires forall i :: 0 <= i < |words| ==> words[i] != "" && ' ' !in words[i]
    ensures Split(Join(words, ' '), ' ') == if words == [] then [""] else words
  {
    if words != [] {
      SplitJoin(words, ' ');
    }
  }

  lemma WordsAreClean(s: string)
    ensures forall i :: 0 <= i < |Words(s)| ==> Words(s)[i] != "" && ' ' !in Words(s)[i]
  {
    assert IsSpace(' ');
  }

  lemma TwoWords(a: string, b: string)
    requires ' ' !in a && ' ' !in b
    ensures Split(a + [' '] + b, ' ') == [a, b]
  {
    SplitSingle(a, ' ');
    SplitSingle(b, ' ');
    SplitConcat(a, b, ' ');
  }

  lemma EveryCut(text: string)
    requires EveryForm(text)
    ensures var rest := text[6..|text| - 1] + [text[|text| - 1]]; text == "every" + [' '] + rest && ' ' !in rest
  {
    var n, unit := text[6..|text| - 1], text[|text| - 1];
    NumeralAvoids(n, ' ');
    assert "every" + [' '] == "every " && unit != ' ';
  }

  lemma EveryWords(words: seq<string>)
    requires forall i :: 0 <= i < |words| ==> words[i] != "" && ' ' !in words[i]
    requires EveryForm(Join(words, ' '))
    ensures var text := Join(words, ' '); words == ["every", text[6..|text| - 1] + [text[|text| - 1]]]
  {
    var text := Join(words, ' ');
    EveryCut(text);
    TwoWords("every", text[6..|text| - 1] + [text[|text| - 1]]);
    WordsBack(words);
  }

  lemma EveryText6(n: string, unit: char)
    requires Numeral(n)
    ensures var text := Join(["every", n + [unit]], ' ');
            |text| == |n| + 7 && text[..6] == "every " && text[6..|text| - 1] == n && text[|text| - 1] == unit
  {
    JoinCons("every", [n + [unit]], ' ');
    assert ["every"] + [n + [unit]] == ["every", n + [unit]];
    var text := Join(["every", n + [unit]], ' ');
    assert text == "every" + " " + (n + [unit]);
  }

  lemma EveryIsPeriod(words: seq<string>)
    requires forall i :: 0 <= i < |words| ==> words[i] != "" && ' ' !in words[i]
    requires EveryForm(Join(words, ' ')) && EveryAt(Join(words, ' ')).Ok?
    ensures exists n, u :: PeriodForm(words, n, u)
  {
    var text := Join(words, ' ');
    EveryWords(words);
    PeriodOf(text, words, text[6..|text| - 1], text[|text| - 1]);
  }

  lemma PeriodOf(text: string, words: seq<string>, n: string, u: char)
    requires EveryForm(text) && EveryAt(text).Ok? && n == text[6..|text| - 1] && u == text[|text| - 1]
    requires words == ["every", n + [u]]
    ensures PeriodForm(words, n, u)
  {
    LeadingDigit(n);
  }

  lemma PeriodIsEvery(words: seq<string>, n: string, u: char)
    requires PeriodForm(words, n, u)
    ensures EveryForm(Join(words, ' ')) && EveryAt(Join(words, ' ')).Ok?
  {
    EveryText6(n, u);
  }

  lemma PeriodAccepted(words: seq<string>)
    requires forall i :: 0 <= i < |words| ==> words[i] != "" && ' ' !in words[i]
    ensures EveryForm(Join(words, ' ')) && EveryAt(Join(words, ' ')).Ok? <==> exists n, u :: PeriodForm(words, n, u)
  {
    if EveryForm(Join(words, ' ')) && EveryAt(Join(words, ' ')).Ok? {
      EveryIsPeriod(words);
    }
    if n, u :| PeriodForm(words, n, u) {
      PeriodIsEvery(words, n, u);
    }
  }

  lemma NotFiveWords(words: seq<string>)
    requires forall i :: 0 <= i < |words| ==> words[i] != "" && ' ' !in words[i]
    requires EveryForm(Join(words, ' '))
    ensures |words| == 2
  {
    EveryWords(words);
  }

  /** A schedule is accepted if and only if its words are an interval that divides evenly or five fields in form,
      and the zone is none or well formed. */
  lemma Accepted(schedule: string, zone: string)
    ensures CalendarText(schedule, zone).Ok?
       <==> ZoneForm(zone) && (CronForm(Words(schedule)) || exists n, u :: PeriodForm(Words(schedule), n, u))
  {
    var words := Words(schedule);
    WordsAreClean(schedule);
    WordsBack(words);
    PeriodAccepted(words);
    if EveryForm(Join(words, ' ')) {
      NotFiveWords(words);
    } else if |words| == 5 {
      FieldsAccepted(words);
    }
  }

  // ---------------------------------------------------------------- a schedule of the repository

  lemma {:induction false} JoinedWords(words: seq<string>)
    requires forall i :: 0 <= i < |words| ==> words[i] != ""
    requires forall i, j :: 0 <= i < |words| && 0 <= j < |words[i]| ==> !IsSpace(words[i][j])
    ensures Words(Join(words, ' ')) == words
  {
    if words != [] {
      OneWord(words[0]);
      if |words| > 1 {
        JoinedWords(words[1..]);
        WordsConcat(words[0], ' ', Join(words[1..], ' '));
        assert words == [words[0]] + words[1..];
      }
    }
  }

  function Starred(first: string): seq<string> { [first, "*", "*", "*", "*"] }

  lemma StarredText(first: string)
    ensures Join(Starred(first), ' ') == first + " * * * *"
  {
    assert Join(["*"], ' ') == "*";
    JoinCons("*", ["*"], ' ');
    assert ["*"] + ["*"] == ["*", "*"];
    JoinCons("*", ["*", "*"], ' ');
    assert ["*"] + ["*", "*"] == ["*", "*", "*"];
    JoinCons("*", ["*", "*", "*"], ' ');
    assert ["*"] + ["*", "*", "*"] == ["*", "*", "*", "*"];
    JoinCons(first, ["*", "*", "*", "*"], ' ');
    assert [first] + ["*", "*", "*", "*"] == Starred(first);
    assert "*" + [' '] + "* * *" == "* * * *" && first + [' '] + "* * * *" == first + " * * * *";
  }

  lemma Assembled(minute: string)
    ensures Assemble("", "*", "*", "*", minute) == "*-*-* *:" + minute + ":00"
  {
    var head := "*-" + "*" + "-" + "*" + " " + "*" + ":";
    assert head == "*-*-* *:";
    assert Assemble("", "*", "*", "*", minute) == "" + head + minute + ":00";
  }

  lemma StarredFields(f: seq<string>, minute: string)
    requires |f| == 5 && f[1] == "*" && f[2] == "*" && f[3] == "*" && f[4] == "*"
    requires FieldText(f[0], MINUTES) == Ok(minute)
    ensures FiveFields(f) == Ok(Assemble("", "*", "*", "*", minute))
  {
  }

  /** Without a zone, five words become what the fields become. */
  lemma FieldsAlone(schedule: string)
    requires |Words(schedule)| == 5 && FiveFields(Words(schedule)).Ok?
    ensures CalendarText(schedule, "") == FiveFields(Words(schedule))
  {
    var words := Words(schedule);
    WordsAreClean(schedule);
    WordsBack(words);
    NotPeriod(words);
    var body := FiveFields(words).value;
    assert body + Suffix("") == body;
  }

  lemma NotPeriod(words: seq<string>)
    requires forall i :: 0 <= i < |words| ==> words[i] != "" && ' ' !in words[i]
    requires |words| != 2
    ensures !EveryForm(Join(words, ' '))
  {
    if EveryForm(Join(words, ' ')) {
      NotFiveWords(words);
    }
  }

  lemma StepOfFive()
    ensures Token("*/5", MINUTES) == Ok("00/5")
  {
    assert "*/5" == "*" + ['/'] + "5" && "5"[..0] == "";
    PartitionUnique("*", '/', "5");
    assert Value("5") == 5;
    assert Number("5", 1, 60) == Ok(5);
    assert Decimal(0) == "0" && Decimal(5) == "5";
    assert TwoDigits(0) == "00" && "00" + "/" + "5" == "00/5";
  }

  lemma OneTokenField(text: string, b: Bounds, out: string)
    requires text != "*" && ',' !in text && Token(text, b) == Ok(out)
    ensures FieldText(text, b) == Ok(out)
  {
    SplitSingle(text, ',');
    assert FieldToken(b)(text) == Ok(out);
    assert Converted([text], FieldToken(b)) == [out];
    assert Join([out], ',') == out;
  }

  lemma FiveOf(s: string, words: seq<string>, minute: string)
    requires Words(s) == words && |words| == 5
    requires words[1] == "*" && words[2] == "*" && words[3] == "*" && words[4] == "*"
    requires FieldText(words[0], MINUTES) == Ok(minute)
    ensures CalendarText(s, "") == Ok("*-*-* *:" + minute + ":00")
  {
    FieldsAlone(s);
    StarredFields(words, minute);
    Assembled(minute);
  }

  lemma EveryFiveWords()
    ensures Words("*/5 * * * *") == Starred("*/5")
  {
    StarredText("*/5");
    assert "*/5" + " * * * *" == "*/5 * * * *";
    JoinedWords(Starred("*/5"));
  }

  lemma EveryFiveField()
    ensures FieldText("*/5", MINUTES) == Ok("00/5")
  {
    StepOfFive();
    OneTokenField("*/5", MINUTES, "00/5");
  }

  /** What every five minutes becomes. */
  lemma EveryFive()
    ensures CalendarText("*/5 * * * *", "") == Ok("*-*-* *:" + "00/5" + ":00")
  {
    EveryFiveWords();
    EveryFiveField();
    FiveOf("*/5 * * * *", Starred("*/5"), "00/5");
  }
}
