/** The emitted expression elapses exactly when the cron fields say the job starts. */
module CronMeaning {
  import opened Text
  import opened SystemdCalendar
  import opened CronReference
  import opened CronSchedule

  // ---------------------------------------------------------------- one token

  lemma NumeralAvoids(s: string, c: char)
    requires Numeral(s) && !IsDigit(c)
    ensures c !in s
  {
  }

  lemma StepIff(first: nat, step: nat, v: nat)
    requires step > 0
    ensures StepsTo(first, step, v) <==> v >= first && (v - first) % step == 0
  {
    if StepsTo(first, step, v) {
      var k: nat :| v == first + Times(k, step);
      MultipleMod(v - first, k, step);
    }
    if v >= first && (v - first) % step == 0 {
      assert v == first + Times((v - first) / step, step);
    }
  }

  lemma MultipleMod(x: int, k: int, step: nat)
    requires step > 0 && x == k * step
    ensures x % step == 0
  {
    var q, r := x / step, x % step;
    assert (k - q) * step == r;
    Scale(k - q, step);
  }

  lemma Scale(m: int, step: int)
    requires step > 0
    ensures m >= 1 ==> m * step >= step
    ensures m <= -1 ==> m * step <= -step
  {
  }

  lemma Holds(x: string, sep: string, y: string)
    requires |sep| == 1
    ensures sep[0] in x + sep + y
  {
    assert (x + sep + y)[|x|] == sep[0];
  }

  lemma ReadOne(a: string)
    requires Numeral(a)
    ensures ParseItem(a) == Some(Item(Value(a), None, None))
  {
    NumeralAvoids(a, '/');
    NumeralAvoids(a, '.');
  }

  lemma ReadSpan(a: string, b: string)
    requires Numeral(a) && Numeral(b) && Value(a) <= Value(b)
    ensures ParseItem(a + ".." + b) == Some(Item(Value(a), Some(Value(b)), None))
  {
    var s := a + ".." + b;
    NumeralAvoids(a, '/');
    NumeralAvoids(b, '/');
    NumeralAvoids(a, '.');
    assert '/' !in s;
    assert s == a + ['.'] + ("." + b);
    PartitionUnique(a, '.', "." + b);
    assert ("." + b)[1..] == b;
  }

  lemma ReadStep(a: string, n: string)
    requires Numeral(a) && Numeral(n) && Value(n) > 0
    ensures ParseItem(a + "/" + n) == Some(Item(Value(a), None, Some(Value(n))))
  {
    NumeralAvoids(a, '/');
    NumeralAvoids(a, '.');
    PartitionUnique(a, '/', n);
  }

  lemma OneToken(token: string, low: nat, high: nat, v: nat)
    requires Numeral(token)
    ensures TokenMatches(token, low, high, v) <==> v == Value(token)
  {
    NumeralAvoids(token, '/');
    NumeralAvoids(token, '-');
    forall a, b ensures token != a + "-" + b { Holds(a, "-", b); }
    forall a, b ensures token != a + "/" + b { Holds(a, "/", b); }
    forall b ensures token != "*/" + b { Holds("*", "/", b); }
  }

  lemma SpanToken(a: string, b: string, low: nat, high: nat, v: nat)
    requires Numeral(a) && Numeral(b)
    ensures TokenMatches(a + "-" + b, low, high, v) <==> Value(a) <= v <= Value(b)
  {
    var token := a + "-" + b;
    NumeralAvoids(a, '-');
    NumeralAvoids(a, '/');
    NumeralAvoids(b, '/');
    assert token[|a|] == '-';
    assert '/' !in token;
    forall x, y ensures token != x + "/" + y { Holds(x, "/", y); }
    forall y ensures token != "*/" + y { Holds("*", "/", y); }
    forall x, y | Numeral(x) && Numeral(y) && token == x + "-" + y ensures x == a && y == b {
      NumeralAvoids(x, '-');
      PartitionUnique(a, '-', b);
      PartitionUnique(x, '-', y);
    }
  }

  lemma StepToken(base: string, n: string, low: nat, high: nat, v: nat)
    requires (base == "*" || Numeral(base)) && Numeral(n)
    ensures TokenMatches(base + "/" + n, low, high, v)
       <==> StepsTo(if base == "*" then low else Value(base), Value(n), v)
  {
    var token := base + "/" + n;
    if base != "*" { NumeralAvoids(base, '/'); NumeralAvoids(base, '-'); NumeralAvoids(base, '*'); }
    NumeralAvoids(n, '-');
    assert token[|base|] == '/';
    assert '-' !in token;
    forall x, y ensures token != x + "-" + y { Holds(x, "-", y); }
    forall y | token == "*/" + y ensures base == "*" && y == n {
      assert token == "*" + ['/'] + y;
      PartitionUnique(base, '/', n);
      PartitionUnique("*", '/', y);
    }
    if base == "*" { assert token == "*/" + n; }
    forall x, y | Numeral(x) && token == x + "/" + y ensures x == base && y == n {
      NumeralAvoids(x, '/');
      PartitionUnique(base, '/', n);
      PartitionUnique(x, '/', y);
    }
  }

  /** `out` denotes the same numbers as the cron token `token`. */
  ghost predicate SameMeaning(out: string, token: string, b: Bounds, v: nat) {
    && ParseItem(out).Some?
    && (ItemMatches(ParseItem(out).value, v) <==> TokenMatches(token, b.low, b.high, v))
  }

  lemma StepMeaning(base: string, step: string, b: Bounds, v: nat)
    requires b.start == b.low && (base == "*" || Numeral(base)) && Numeral(step) && Value(step) > 0
    ensures SameMeaning(TwoDigits(if base == "*" then b.start else Value(base)) + "/" + Decimal(Value(step)),
                        base + "/" + step, b, v)
  {
    var first := if base == "*" then b.start else Value(base);
    StepToken(base, step, b.low, b.high, v);
    ReadStep(TwoDigits(first), Decimal(Value(step)));
    StepIff(first, Value(step), v);
  }

  lemma SpanMeaning(a: string, z: string, b: Bounds, v: nat)
    requires Numeral(a) && Numeral(z) && Value(a) <= Value(z)
    ensures SameMeaning(TwoDigits(Value(a)) + ".." + TwoDigits(Value(z)), a + "-" + z, b, v)
  {
    SpanToken(a, z, b.low, b.high, v);
    ReadSpan(TwoDigits(Value(a)), TwoDigits(Value(z)));
  }

  lemma OneMeaning(token: string, b: Bounds, v: nat)
    requires Numeral(token)
    ensures SameMeaning(TwoDigits(Value(token)), token, b, v)
  {
    OneToken(token, b.low, b.high, v);
    ReadOne(TwoDigits(Value(token)));
  }

  /** Each converted token denotes the same numbers as the cron token it came from. */
  lemma TokenMeaning(token: string, b: Bounds, v: nat)
    requires b.start == b.low && Token(token, b).Ok?
    ensures SameMeaning(Token(token, b).value, token, b, v)
  {
    var (base, slash, step) := Partition(token, '/');
    if slash {
      StepMeaning(base, step, b, v);
    } else if '-' in token {
      var (a, _, z) := Partition(token, '-');
      SpanMeaning(a, z, b, v);
    } else {
      OneMeaning(token, b, v);
    }
  }

  /** Converted tokens are made of digits, dots and slashes only. */
  lemma TokenChars(token: string, b: Bounds, c: char)
    requires Token(token, b).Ok? && !IsDigit(c) && c != '.' && c != '/'
    ensures c !in Token(token, b).value
  {
    var (base, slash, step) := Partition(token, '/');
    if slash {
      var first := if base == "*" then b.start else Number(base, b.low, b.high).value;
      Avoids(TwoDigits(first), "/", Decimal(Number(step, 1, b.high + 1).value), c);
    } else if '-' in token {
      var (a, _, z) := Partition(token, '-');
      Avoids(TwoDigits(Number(a, b.low, b.high).value), "..", TwoDigits(Number(z, b.low, b.high).value), c);
    } else {
      NumeralAvoids(TwoDigits(Number(token, b.low, b.high).value), c);
    }
  }

  lemma Avoids(x: string, sep: string, y: string, c: char)
    requires Numeral(x) && Numeral(y) && !IsDigit(c) && c !in sep
    ensures c !in x + sep + y
  {
    NumeralAvoids(x, c);
    NumeralAvoids(y, c);
  }

  // ---------------------------------------------------------------- one field

  lemma FieldChars(text: string, b: Bounds, c: char)
    requires FieldText(text, b).Ok? && !IsDigit(c) && c != '.' && c != '/' && c != ',' && c != '*'
    ensures c !in FieldText(text, b).value
  {
    if text != "*" {
      var tokens := Split(text, ',');
      var out := Converted(tokens, FieldToken(b));
      forall i | 0 <= i < |out| ensures c !in out[i] { TokenChars(tokens[i], b, c); }
      JoinAvoids(out, ',', c);
    }
  }

  /** Reading back a field that was joined from tokens, none of which holds a comma. */
  lemma FieldReadBack(text: string, b: Bounds)
    requires text != "*" && FieldText(text, b).Ok?
    ensures Split(FieldText(text, b).value, ',') == Converted(Split(text, ','), FieldToken(b))
    ensures FieldText(text, b).value != "*"
  {
    var tokens := Split(text, ',');
    var out := Converted(tokens, FieldToken(b));
    forall i | 0 <= i < |out| ensures ',' !in out[i] && '*' !in out[i] {
      TokenChars(tokens[i], b, ',');
      TokenChars(tokens[i], b, '*');
    }
    SplitJoin(out, ',');
    JoinAvoids(out, ',', '*');
  }

  lemma ListMeaning(tokens: seq<string>, s: string, b: Bounds, v: nat)
    requires s != "*" && |Split(s, ',')| == |tokens|
    requires forall i :: 0 <= i < |tokens| ==> SameMeaning(Split(s, ',')[i], tokens[i], b, v)
    ensures ParseComponent(s).Some?
    ensures ComponentMatches(ParseComponent(s).value, v)
       <==> exists i :: 0 <= i < |tokens| && TokenMatches(tokens[i], b.low, b.high, v)
  {
    var items := ParseComponent(s).value.items;
    assert forall i :: 0 <= i < |tokens| ==> (ItemMatches(items[i], v) <==> TokenMatches(tokens[i], b.low, b.high, v));
  }

  /** A converted field denotes the same numbers as the cron field. */
  lemma FieldMeaning(text: string, b: Bounds, v: nat)
    requires b.start == b.low && FieldText(text, b).Ok?
    ensures ParseComponent(FieldText(text, b).value).Some?
    ensures ComponentMatches(ParseComponent(FieldText(text, b).value).value, v)
      <==> FieldMatches(text, b.low, b.high, v)
  {
    if text != "*" {
      var tokens := Split(text, ',');
      FieldReadBack(text, b);
      forall i | 0 <= i < |tokens|
        ensures SameMeaning(Split(FieldText(text, b).value, ',')[i], tokens[i], b, v)
      {
        TokenMeaning(tokens[i], b, v);
      }
      ListMeaning(tokens, FieldText(text, b).value, b, v);
    }
  }

  /** An accepted field matches some value. */
  lemma FieldSatisfiable(text: string, b: Bounds) returns (v: nat)
    requires b.start == b.low <= b.high && FieldText(text, b).Ok?
    ensures b.low <= v <= b.high && FieldMatches(text, b.low, b.high, v)
  {
    if text == "*" {
      v := b.low;
    } else {
      var token := Split(text, ',')[0];
      assert FieldToken(b)(token).Ok?;
      v := TokenSatisfiable(token, b);
    }
  }

  lemma TokenSatisfiable(token: string, b: Bounds) returns (v: nat)
    requires b.start == b.low <= b.high && Token(token, b).Ok?
    ensures b.low <= v <= b.high && TokenMatches(token, b.low, b.high, v)
  {
    var (base, slash, step) := Partition(token, '/');
    if slash {
      v := if base == "*" then b.low else Value(base);
      assert v == v + Times(0, Value(step));
      StepToken(base, step, b.low, b.high, v);
    } else if '-' in token {
      var (a, _, z) := Partition(token, '-');
      v := Value(a);
      SpanToken(a, z, b.low, b.high, v);
    } else {
      v := Value(token);
    }
  }

  // ---------------------------------------------------------------- weekdays

  /** The weekday number that the n-th entry of the name table has in a calendar expression. */
  function Calendar7(n: nat): nat { if n % 7 == 0 then 7 else n }

  lemma NameFacts(n: nat)
    requires n <= 7
    ensures DayNumber(DAY_NAMES[n]) == Some(Calendar7(n))
    ensures |DAY_NAMES[n]| == 3 && IsLetter(DAY_NAMES[n][0])
    ensures '.' !in DAY_NAMES[n] && ',' !in DAY_NAMES[n] && ' ' !in DAY_NAMES[n]
  {
    assert DAY_NAMES[1] == "Mon" && DAY_NAMES[2] == "Tue" && DAY_NAMES[3] == "Wed";
    assert DAY_NAMES[4] == "Thu" && DAY_NAMES[5] == "Fri" && DAY_NAMES[6] == "Sat";
    assert n == 0 || n == 1 || n == 2 || n == 3 || n == 4 || n == 5 || n == 6 || n == 7;
  }

  lemma ReadDay(a: string)
    requires DayNumber(a).Some? && '.' !in a
    ensures DaySpan(a) == Some((DayNumber(a).value, DayNumber(a).value))
  {
  }

  lemma ReadDays(a: string, b: string)
    requires DayNumber(a).Some? && DayNumber(b).Some? && '.' !in a
    ensures DaySpan(a + ".." + b)
         == if DayNumber(b).value < DayNumber(a).value then None else Some((DayNumber(a).value, DayNumber(b).value))
  {
    assert a + ".." + b == a + ['.'] + ("." + b);
    PartitionUnique(a, '.', "." + b);
    assert ("." + b)[1..] == b;
  }

  /** `0-1` to `0-6`: emitted as `Sun..Mon` to `Sun..Sat`, against the order of the week. */
  predicate WrapsSunday(token: string) {
    var (a, dash, z) := Partition(token, '-');
    dash && Numeral(a) && Numeral(z) && Value(a) == 0 && 1 <= Value(z) <= 6
  }

  /** `0-7`: emitted as `Sun..Sun`. */
  predicate WholeWeek(token: string) {
    var (a, dash, z) := Partition(token, '-');
    dash && Numeral(a) && Numeral(z) && Value(a) == 0 && Value(z) == 7
  }

  lemma OneWeekday(token: string, w: nat)
    requires Numeral(token)
    ensures WeekdayTokenMatches(token, w) <==> Value(token) % 7 == w
  {
    NumeralAvoids(token, '-');
    forall a, b ensures token != a + "-" + b { Holds(a, "-", b); }
  }

  lemma SpanWeekday(a: string, z: string, w: nat)
    requires Numeral(a) && Numeral(z)
    ensures WeekdayTokenMatches(a + "-" + z, w) <==> Passes(Value(a), Value(z), w)
  {
    var token := a + "-" + z;
    Holds(a, "-", z);
    forall x, y | Numeral(x) && Numeral(y) && token == x + "-" + y ensures x == a && y == z {
      NumeralAvoids(a, '-');
      NumeralAvoids(x, '-');
      PartitionUnique(a, '-', z);
      PartitionUnique(x, '-', y);
    }
  }

  /** Counting through a week that starts at Monday or later, or stays at Sunday. */
  lemma SpanPasses(lo: nat, hi: nat, w: nat)
    requires lo <= hi <= 7 && w < 7 && (lo >= 1 || hi == 0)
    ensures Passes(lo, hi, w) <==> SpanCovers((Calendar7(lo), Calendar7(hi)), w)
  {
    var n := if w == 0 && lo >= 1 then 7 else w;
    if SpanCovers((Calendar7(lo), Calendar7(hi)), w) {
      assert IsWeekday(n, w);
    }
  }

  /** How the emitted weekday token `out` relates to the cron token `token`. */
  ghost predicate DayMeaning(out: string, token: string, w: nat) {
    && (WrapsSunday(token) ==> DaySpan(out).None? && WeekdayTokenMatches(token, 0))
    && (WholeWeek(token) ==> DaySpan(out) == Some((7, 7)) && WeekdayTokenMatches(token, w))
    && (!WrapsSunday(token) && !WholeWeek(token) ==>
          DaySpan(out).Some? && (SpanCovers(DaySpan(out).value, w) <==> WeekdayTokenMatches(token, w)))
  }

  lemma SpanDayMeaning(a: string, z: string, first: string, last: string, w: nat)
    requires Numeral(a) && Numeral(z) && Value(a) <= Value(z) <= 7 && w < 7
    requires DayNumber(first) == Some(Calendar7(Value(a))) && DayNumber(last) == Some(Calendar7(Value(z)))
    requires '.' !in first
    ensures DayMeaning(first + ".." + last, a + "-" + z, w)
  {
    SpanKinds(a, z);
    ReadDays(first, last);
    SpanWeekday(a, z, w);
    SpanWeekday(a, z, 0);
    Verdict(Value(a), Value(z), w, DaySpan(first + ".." + last));
  }

  lemma Verdict(lo: nat, hi: nat, w: nat, span: Option<(nat, nat)>)
    requires lo <= hi <= 7 && w < 7
    requires span == if Calendar7(hi) < Calendar7(lo) then None else Some((Calendar7(lo), Calendar7(hi)))
    ensures lo == 0 && 1 <= hi <= 6 ==> span.None? && Passes(lo, hi, 0)
    ensures lo == 0 && hi == 7 ==> span == Some((7, 7)) && Passes(lo, hi, w)
    ensures lo >= 1 || hi == 0 ==> span.Some? && (SpanCovers(span.value, w) <==> Passes(lo, hi, w))
  {
    SundayPasses(hi, w);
    if lo >= 1 || hi == 0 {
      SpanPasses(lo, hi, w);
    }
  }

  lemma SpanKinds(a: string, z: string)
    requires Numeral(a) && Numeral(z)
    ensures WrapsSunday(a + "-" + z) <==> Value(a) == 0 && 1 <= Value(z) <= 6
    ensures WholeWeek(a + "-" + z) <==> Value(a) == 0 && Value(z) == 7
  {
    NumeralAvoids(a, '-');
    PartitionUnique(a, '-', z);
  }

  lemma SundayPasses(hi: nat, w: nat)
    requires w < 7
    ensures Passes(0, hi, 0) && (hi >= 6 ==> Passes(0, hi, w))
  {
    assert IsWeekday(0, 0) && IsWeekday(w, w);
  }

  lemma WeekdayMeaning(token: string, w: nat)
    requires WeekdayToken(token).Ok? && w < 7
    ensures DayMeaning(WeekdayToken(token).value, token, w)
  {
    var (a, dash, z) := Partition(token, '-');
    if dash {
      NameFacts(Value(a));
      NameFacts(Value(z));
      SpanDayMeaning(a, z, DAY_NAMES[Value(a)], DAY_NAMES[Value(z)], w);
    } else {
      var lo := Value(a);
      NameFacts(lo);
      ReadDay(DAY_NAMES[lo]);
      OneWeekday(token, w);
    }
  }

  lemma WeekdayChars(token: string)
    requires WeekdayToken(token).Ok?
    ensures ',' !in WeekdayToken(token).value && ' ' !in WeekdayToken(token).value
    ensures WeekdayToken(token).value != "" && IsLetter(WeekdayToken(token).value[0])
  {
    forall n | 0 <= n <= 7
      ensures |DAY_NAMES[n]| == 3 && IsLetter(DAY_NAMES[n][0]) && ',' !in DAY_NAMES[n] && ' ' !in DAY_NAMES[n]
    {
      NameFacts(n);
    }
  }

  lemma WeekdayReadBack(text: string)
    requires text != "*" && WeekdayText(text).Ok?
    ensures Split(WeekdayText(text).value, ',') == Converted(Split(text, ','), WeekdayToken)
    ensures var s := WeekdayText(text).value; s != "" && IsLetter(s[0]) && ' ' !in s
  {
    var tokens := Split(text, ',');
    var out := Converted(tokens, WeekdayToken);
    forall i | 0 <= i < |out| ensures ',' !in out[i] && ' ' !in out[i] && out[i] != "" && IsLetter(out[i][0]) {
      WeekdayChars(tokens[i]);
    }
    SplitJoin(out, ',');
    JoinAvoids(out, ',', ' ');
  }

  predicate AnyWraps(dow: string) {
    var tokens := Split(dow, ',');
    exists i :: 0 <= i < |tokens| && WrapsSunday(tokens[i])
  }

  predicate AnyWholeWeek(dow: string) {
    var tokens := Split(dow, ',');
    exists i :: 0 <= i < |tokens| && WholeWeek(tokens[i])
  }

  /** Some token other than `0-7` names weekday `w`. */
  ghost predicate NamedOtherwise(dow: string, w: nat) {
    var tokens := Split(dow, ',');
    exists i :: 0 <= i < |tokens| && !WholeWeek(tokens[i]) && WeekdayTokenMatches(tokens[i], w)
  }

  /** What the emitted weekday list means, for every accepted weekday field. */
  lemma WeekdayFieldMeaning(dow: string, w: nat)
    requires dow != "*" && WeekdayText(dow).Ok? && w < 7
    ensures DaysValid(WeekdayText(dow).value) <==> !AnyWraps(dow)
    ensures !AnyWraps(dow) ==>
      (DaysMatch(WeekdayText(dow).value, w) <==> NamedOtherwise(dow, w) || (AnyWholeWeek(dow) && w == 0))
    ensures AnyWraps(dow) ==> WeekdayFieldMatches(dow, 0)
    ensures WeekdayFieldMatches(dow, w) <==> NamedOtherwise(dow, w) || AnyWholeWeek(dow)
  {
    var tokens, out := Split(dow, ','), Split(WeekdayText(dow).value, ',');
    WeekdayReadBack(dow);
    forall i | 0 <= i < |tokens|
      ensures DayMeaning(out[i], tokens[i], w)
    {
      WeekdayMeaning(tokens[i], w);
    }
  }

  // ---------------------------------------------------------------- the whole expression

  predicate Clean(s: string) { ' ' !in s && '-' !in s && ':' !in s }

  lemma CutAssembled(days: string, month: string, dom: string, hour: string, minute: string, zone: string)
    requires ' ' !in days && (days != "" ==> IsLetter(days[0])) && ' ' !in zone
    requires Clean(month) && Clean(dom) && Clean(hour) && Clean(minute)
    ensures Cut(Assemble(days, month, dom, hour, minute) + Suffix(zone))
         == Some(Calendar(days, ["*", month, dom], [hour, minute, "00"], zone))
  {
    var date, clock := "*-" + month + "-" + dom, hour + ":" + minute + ":00";
    SplitDate(month, dom);
    SplitClock(hour, minute);
    CutJoined(days, date, clock, zone);
    Regroup(if days == "" then "" else days + " ", month, dom, hour, minute, Suffix(zone));
  }

  lemma Regroup(head: string, month: string, dom: string, hour: string, minute: string, tail: string)
    ensures head + "*-" + month + "-" + dom + " " + hour + ":" + minute + ":00" + tail
         == head + (("*-" + month + "-" + dom) + " " + (hour + ":" + minute + ":00") + tail)
  {
  }

  lemma CutJoined(days: string, date: string, clock: string, zone: string)
    requires ' ' !in days && ' ' !in date && ' ' !in clock && ' ' !in zone
    requires (days != "" ==> IsLetter(days[0])) && date != "" && !IsLetter(date[0])
    ensures Cut((if days == "" then "" else days + " ") + (date + " " + clock + Suffix(zone)))
         == Some(Calendar(days, Split(date, '-'), Split(clock, ':'), zone))
  {
    JoinParts(days, date, clock, zone);
    SplitJoin(Parts(days, date, clock, zone), ' ');
  }

  function Parts(days: string, date: string, clock: string, zone: string): seq<string> {
    (if days == "" then [] else [days]) + ([date, clock] + if zone == "" then [] else [zone])
  }

  lemma JoinParts(days: string, date: string, clock: string, zone: string)
    ensures Join(Parts(days, date, clock, zone), ' ')
         == (if days == "" then "" else days + " ") + (date + " " + clock + Suffix(zone))
  {
    var rest := [date, clock] + if zone == "" then [] else [zone];
    assert Join(rest, ' ') == date + " " + clock + Suffix(zone) by {
      if zone == "" {
        JoinCons(date, [clock], ' ');
        assert rest == [date] + [clock];
      } else {
        JoinThree(date, clock, zone, ' ');
        assert date + " " + clock + (" " + zone) == date + " " + clock + " " + zone;
      }
    }
    if days == "" {
      assert Parts(days, date, clock, zone) == rest;
    } else {
      JoinCons(days, rest, ' ');
    }
  }

  lemma SplitDate(month: string, dom: string)
    requires '-' !in month && '-' !in dom
    ensures Split("*-" + month + "-" + dom, '-') == ["*", month, dom]
  {
    var parts := ["*", month, dom];
    SplitJoin(parts, '-');
    JoinThree("*", month, dom, '-');
    assert "*-" + month + "-" + dom == "*" + ['-'] + month + ['-'] + dom;
  }

  lemma SplitClock(hour: string, minute: string)
    requires ':' !in hour && ':' !in minute
    ensures Split(hour + ":" + minute + ":00", ':') == [hour, minute, "00"]
  {
    var parts := [hour, minute, "00"];
    SplitJoin(parts, ':');
    JoinThree(hour, minute, "00", ':');
    assert hour + ":" + minute + ":00" == hour + [':'] + minute + [':'] + "00";
  }
}
