/** `every N s|m|h` on an unbounded timeline of whole seconds in a zone of fixed offset. */
module CronInterval {
  import opened Text
  import opened SystemdCalendar
  import opened CronSchedule
  import opened CronMeaning
  import opened CronTheorems

  /** `t` is what a wall clock of fixed offset shows at second `T`, counted from some local midnight. */
  predicate Shows(t: Civil, T: int) {
    t.second == T % 60 && t.minute == T / 60 % 60 && t.hour == T / 3600 % 24
  }

  function Count(text: string): (n: nat)
    requires EveryForm(text)
    ensures n > 0
  {
    LeadingDigit(text[6..|text| - 1]);
    Value(text[6..|text| - 1])
  }

  function Unit(text: string): char
    requires EveryForm(text)
  {
    text[|text| - 1]
  }

  /** The interval in seconds. */
  function Period(text: string): (p: nat)
    requires EveryForm(text)
    ensures p > 0
  {
    Count(text) * (if Unit(text) == 's' then 1 else if Unit(text) == 'm' then 60 else 3600)
  }

  // ---------------------------------------------------------------- arithmetic

  lemma AddMultiple(x: int, k: int, n: nat)
    requires n > 0
    ensures (k * n + x) % n == x % n
  {
    var q := x / n;
    var y := k * n + x - x % n;
    assert y == (k + q) * n;
    ModOfSum(y, x % n, k + q, n);
  }

  lemma ModOfSum(y: int, r: int, k: int, n: nat)
    requires n > 0 && y == k * n && 0 <= r < n
    ensures (y + r) % n == r && (y + r) / n == k
  {
    var q := (y + r) / n;
    assert (k - q) * n == (y + r) % n - r;
    Scale(k - q, n);
  }

  /** Reducing modulo a multiple first changes nothing. */
  lemma ModMod(x: int, m: nat, n: nat)
    requires n > 0 && m > 0 && m % n == 0
    ensures x % m % n == x % n
  {
    var k := m / n * (x / m);
    assert x == k * n + x % m by { assert m == m / n * n; }
    AddMultiple(x % m, k, n);
  }

  /** Divisibility by a product, digit by digit. */
  lemma Nested(x: int, a: nat, b: nat)
    requires a > 0 && b > 0
    ensures a * b > 0
    ensures x % (a * b) == 0 <==> x % a == 0 && x / a % b == 0
  {
    if x % (a * b) == 0 {
      var k := x / (a * b);
      assert x == (b * k) * a;
      ModOfSum(x, 0, b * k, a);
      MultipleMod(b * k, k, b);
    }
    if x % a == 0 && x / a % b == 0 {
      var k := x / a / b;
      assert x == k * (a * b);
      MultipleMod(x, k, a * b);
    }
  }

  lemma SingleItem(s: string, item: Item, v: nat)
    requires s != "*" && ',' !in s && ParseItem(s) == Some(item)
    ensures ParseComponent(s).Some?
    ensures ComponentMatches(ParseComponent(s).value, v) <==> ItemMatches(item, v)
  {
    SplitSingle(s, ',');
    assert ParseComponent(s).value.items == [item];
    assert [item][0] == item;
  }

  lemma Zeros()
    ensures Numeral("00") && Value("00") == 0
  {
    assert "00"[..1] == "0" && "0"[..0] == "";
    assert Value("0") == 0;
  }

  lemma StepComponent(n: nat, whole: nat, v: nat)
    requires 0 < n <= whole && v < whole
    ensures ParseComponent(Step(n, whole)).Some?
    ensures ComponentMatches(ParseComponent(Step(n, whole)).value, v) <==> v % n == 0
  {
    if n < whole {
      StepText(n, Decimal(n), v);
    } else {
      OnTheMinute(v);
      ModOfSum(0, v, 0, n);
    }
  }

  lemma StepText(n: nat, numeral: string, v: nat)
    requires n > 0 && Numeral(numeral) && Value(numeral) == n
    ensures ParseComponent("00" + "/" + numeral).Some?
    ensures ComponentMatches(ParseComponent("00" + "/" + numeral).value, v) <==> v % n == 0
  {
    ReadEvery(n, numeral);
    SingleItem("00" + "/" + numeral, Item(0, None, Some(n)), v);
    assert ItemMatches(Item(0, None, Some(n)), v) <==> (v - 0) % n == 0;
  }

  lemma ReadEvery(n: nat, numeral: string)
    requires n > 0 && Numeral(numeral) && Value(numeral) == n
    ensures ParseItem("00" + "/" + numeral) == Some(Item(0, None, Some(n)))
    ensures ',' !in "00" + "/" + numeral
  {
    NumeralAvoids(numeral, ',');
    Zeros();
    ReadStep("00", numeral);
  }

  lemma StepIsClean(n: nat, whole: nat)
    ensures Clean(Step(n, whole)) && Clean("00") && Clean("*")
  {
    NumeralAvoids(Decimal(n), ' ');
    NumeralAvoids(Decimal(n), '-');
    NumeralAvoids(Decimal(n), ':');
  }

  lemma ClockSplits(hour: string, minute: string, second: string)
    requires Clean(hour) && Clean(minute) && Clean(second)
    ensures Split(hour + ":" + minute + ":" + second, ':') == [hour, minute, second]
    ensures ' ' !in hour + ":" + minute + ":" + second
  {
    SplitJoin([hour, minute, second], ':');
    JoinThree(hour, minute, second, ':');
    assert hour + ":" + minute + ":" + second == hour + [':'] + minute + [':'] + second;
  }

  lemma AnyDateSplits()
    ensures Split("*-*-*", '-') == ["*", "*", "*"] && ' ' !in "*-*-*"
  {
    SplitDate("*", "*");
    assert "*-" + "*" + "-" + "*" == "*-*-*";
  }

  lemma CutDaily(hour: string, minute: string, second: string, zone: string)
    requires ' ' !in zone && Clean(hour) && Clean(minute) && Clean(second)
    ensures Cut(Daily(hour, minute, second) + Suffix(zone))
         == Some(Calendar("", ["*", "*", "*"], [hour, minute, second], zone))
  {
    var clock := hour + ":" + minute + ":" + second;
    ClockSplits(hour, minute, second);
    AnyDateSplits();
    CutJoined("", "*-*-*", clock, zone);
    assert "*-*-* " + clock + Suffix(zone) == "" + ("*-*-*" + " " + clock + Suffix(zone));
  }

  lemma DailyMeaning(hour: string, minute: string, second: string, zone: string, t: Civil)
    requires ' ' !in zone && Clean(hour) && Clean(minute) && Clean(second)
    requires ParseComponent(hour).Some? && ParseComponent(minute).Some? && ParseComponent(second).Some?
    ensures Elapses(Daily(hour, minute, second) + Suffix(zone), t)
       <==> && ComponentMatches(ParseComponent(hour).value, t.hour)
            && ComponentMatches(ParseComponent(minute).value, t.minute)
            && ComponentMatches(ParseComponent(second).value, t.second)
  {
    CutDaily(hour, minute, second, zone);
    Wildcard(t.year);
    Wildcard(t.month);
    Wildcard(t.dom);
  }

  /** What the three emitted forms say about the clock. */
  lemma EveryClock(n: nat, unit: char, zone: string, t: Civil)
    requires n > 0 && unit in "smh" && EveryText(n, unit).Ok? && ' ' !in zone
    requires t.second < 60 && t.minute < 60 && t.hour < 24
    ensures Elapses(EveryText(n, unit).value + Suffix(zone), t)
       <==> if unit == 's' then t.second % n == 0
            else if unit == 'm' then t.second == 0 && t.minute % n == 0
            else t.second == 0 && t.minute == 0 && t.hour % n == 0
  {
    Wildcard(t.hour);
    Wildcard(t.minute);
    OnTheMinute(t.second);
    OnTheMinute(t.minute);
    StepIsClean(n, 60);
    StepIsClean(n, 24);
    if unit == 's' {
      Divides(60, n);
      StepComponent(n, 60, t.second);
      DailyMeaning("*", "*", Step(n, 60), zone, t);
    } else if unit == 'm' {
      Divides(60, n);
      StepComponent(n, 60, t.minute);
      DailyMeaning("*", Step(n, 60), "00", zone, t);
    } else {
      Divides(24, n);
      StepComponent(n, 24, t.hour);
      DailyMeaning(Step(n, 24), "00", "00", zone, t);
    }
  }

  lemma Divides(whole: nat, n: nat)
    requires whole > 0 && n > 0 && whole % n == 0
    ensures n <= whole
  {
  }

  /** The same condition on the timeline. */
  lemma ClockToTimeline(n: nat, T: int)
    requires n > 0
    ensures 60 * n > 0 && 3600 * n > 0
    ensures 60 % n == 0 ==> (T % 60 % n == 0 <==> T % n == 0)
    ensures 60 % n == 0 ==> (T % 60 == 0 && T / 60 % 60 % n == 0 <==> T % (60 * n) == 0)
    ensures 24 % n == 0 ==> (T % 60 == 0 && T / 60 % 60 == 0 && T / 3600 % 24 % n == 0 <==> T % (3600 * n) == 0)
  {
    if 60 % n == 0 {
      ModMod(T, 60, n);
      ModMod(T / 60, 60, n);
    }
    if 24 % n == 0 {
      ModMod(T / 3600, 24, n);
    }
    Nested(T, 60, n);
    Nested(T, 3600, n);
    Nested(T, 60, 60);
  }

  // ---------------------------------------------------------------- the promise

  /** An interval is refused exactly when it does not divide its clock. */
  lemma EveryRefusal(schedule: string, zone: string)
    requires EveryForm(Normal(schedule)) && (zone == "" || ZoneName(zone))
    ensures var text := Normal(schedule);
            CalendarText(schedule, zone).Err? <==> (if Unit(text) == 'h' then 24 else 60) % Count(text) != 0
  {
  }

  /** The emitted expression elapses at exactly the multiples of the interval. */
  lemma EveryMeaning(schedule: string, zone: string, t: Civil, T: int)
    requires EveryForm(Normal(schedule)) && CalendarText(schedule, zone).Ok? && Shows(t, T)
    ensures Elapses(CalendarText(schedule, zone).value, t) <==> T % Period(Normal(schedule)) == 0
  {
    var text := Normal(schedule);
    ZoneHasNoSpace(zone);
    EveryClock(Count(text), Unit(text), zone, t);
    ClockToTimeline(Count(text), T);
  }

  /** Exact spacing: after an elapse at `T` the next one is at `T + Period`, across every minute, hour
      and day boundary. */
  lemma EverySpacing(schedule: string, zone: string, T: int, t: Civil, later: int, u: Civil)
    requires EveryForm(Normal(schedule)) && CalendarText(schedule, zone).Ok?
    requires Shows(t, T) && Elapses(CalendarText(schedule, zone).value, t)
    requires Shows(u, later) && T < later <= T + Period(Normal(schedule))
    ensures Elapses(CalendarText(schedule, zone).value, u) <==> later == T + Period(Normal(schedule))
  {
    var p := Period(Normal(schedule));
    EveryMeaning(schedule, zone, t, T);
    EveryMeaning(schedule, zone, u, later);
    NextMultiple(T, later, p);
  }

  lemma NextMultiple(x: int, y: int, p: nat)
    requires p > 0 && x % p == 0 && x < y <= x + p
    ensures y % p == 0 <==> y == x + p
  {
    var k := x / p;
    assert x == k * p;
    if y < x + p {
      ModOfSum(x, y - x, k, p);
    } else {
      assert y == (k + 1) * p;
      ModOfSum(y, 0, k + 1, p);
    }
  }
}
