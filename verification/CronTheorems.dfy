/** The two promises of `automation/cron_schedule.py`: the emitted `OnCalendar=` value means what the
    schedule means, and `every N` really is an interval of N. */
module CronTheorems {
  import opened Text
  import opened SystemdCalendar
  import opened CronReference
  import opened CronSchedule
  import opened CronMeaning
  import Dates = Calendar

  function Normal(schedule: string): string { Join(Words(schedule), ' ') }

  function Fields(schedule: string): seq<string> { Split(Normal(schedule), ' ') }

  lemma ZoneHasNoSpace(zone: string)
    requires zone == "" || ZoneName(zone)
    ensures ' ' !in zone
  {
    assert forall c: char :: c == ' ' ==> !IsLetter(c) && !IsDigit(c) && c !in "_+/-";
  }

  lemma FieldIsClean(text: string, b: Bounds)
    requires FieldText(text, b).Ok?
    ensures Clean(FieldText(text, b).value)
  {
    FieldChars(text, b, ' ');
    FieldChars(text, b, '-');
    FieldChars(text, b, ':');
  }

  lemma OnTheMinute(second: nat)
    ensures ParseComponent("00").Some?
    ensures ComponentMatches(ParseComponent("00").value, second) <==> second == 0
  {
    SplitSingle("00", ',');
    assert Value("00"[..1]) == 0 && "0"[..0] == "";
    assert "00"[..1] == "0";
    ReadOne("00");
    var items := ParseComponent("00").value.items;
    assert items == [Item(0, None, None)];
    assert ItemMatches(items[0], second) <==> second == 0;
  }

  lemma Wildcard(v: nat)
    ensures ParseComponent("*") == Some(Any) && ComponentMatches(Any, v)
  {
  }

  /** Weekday `w` is in the emitted weekday list. */
  ghost predicate ListedDay(dow: string, w: nat) {
    dow == "*" || (!AnyWraps(dow) && (NamedOtherwise(dow, w) || (AnyWholeWeek(dow) && w == 0)))
  }

  /** When the emitted expression elapses, component by component. */
  lemma FiveFieldMeaning(f: seq<string>, zone: string, t: Civil)
    requires |f| == 5 && FiveFields(f).Ok? && ' ' !in zone && OnClock(t)
    ensures Elapses(FiveFields(f).value + Suffix(zone), t)
       <==> && t.second == 0 && FieldMatches(f[0], 0, 59, t.minute) && FieldMatches(f[1], 0, 23, t.hour)
            && FieldMatches(f[2], 1, 31, t.dom) && FieldMatches(f[3], 1, 12, t.month) && ListedDay(f[4], t.weekday)
  {
    var days, month, dom := WeekdayText(f[4]).value, FieldText(f[3], MONTHS).value, FieldText(f[2], DAYS).value;
    var hour, minute := FieldText(f[1], HOURS).value, FieldText(f[0], MINUTES).value;
    FieldIsClean(f[0], MINUTES);
    FieldIsClean(f[1], HOURS);
    FieldIsClean(f[2], DAYS);
    FieldIsClean(f[3], MONTHS);
    if f[4] != "*" {
      WeekdayReadBack(f[4]);
      WeekdayFieldMeaning(f[4], t.weekday);
    }
    CutAssembled(days, month, dom, hour, minute, zone);
    FieldMeaning(f[0], MINUTES, t.minute);
    FieldMeaning(f[1], HOURS, t.hour);
    FieldMeaning(f[2], DAYS, t.dom);
    FieldMeaning(f[3], MONTHS, t.month);
    OnTheMinute(t.second);
    Wildcard(t.year);
    CutMeaning(FiveFields(f).value + Suffix(zone), days, month, dom, hour, minute, zone, t);
  }

  lemma CalendarMeaning(c: Calendar, days: string, month: string, dom: string, hour: string, minute: string, t: Civil)
    requires c.days == days && c.date == ["*", month, dom] && c.clock == [hour, minute, "00"]
    requires ParseComponent(month).Some? && ParseComponent(dom).Some?
    requires ParseComponent(hour).Some? && ParseComponent(minute).Some?
    ensures Valid(c) && CalendarMatches(c, t)
       <==> && t.second == 0
            && ComponentMatches(ParseComponent(month).value, t.month)
            && ComponentMatches(ParseComponent(dom).value, t.dom)
            && ComponentMatches(ParseComponent(hour).value, t.hour)
            && ComponentMatches(ParseComponent(minute).value, t.minute)
            && (days == "" || (DaysValid(days) && DaysMatch(days, t.weekday)))
  {
    OnTheMinute(t.second);
    Wildcard(t.year);
  }

  lemma CutMeaning(e: string, days: string, month: string, dom: string, hour: string, minute: string, zone: string,
                   t: Civil)
    requires Cut(e) == Some(Calendar(days, ["*", month, dom], [hour, minute, "00"], zone))
    requires ParseComponent(month).Some? && ParseComponent(dom).Some?
    requires ParseComponent(hour).Some? && ParseComponent(minute).Some?
    ensures Elapses(e, t)
       <==> && t.second == 0
            && ComponentMatches(ParseComponent(month).value, t.month)
            && ComponentMatches(ParseComponent(dom).value, t.dom)
            && ComponentMatches(ParseComponent(hour).value, t.hour)
            && ComponentMatches(ParseComponent(minute).value, t.minute)
            && (days == "" || (DaysValid(days) && DaysMatch(days, t.weekday)))
  {
    CalendarMeaning(Cut(e).value, days, month, dom, hour, minute, t);
  }

  /** The weekday field can be told apart from its translation by nobody: no `0-1` to `0-6`, and a
      `0-7` only beside tokens that name Monday to Saturday anyway. */
  ghost predicate FaithfulWeekdays(dow: string) {
    dow == "*" || (!AnyWraps(dow) && (AnyWholeWeek(dow) ==> forall w :: 1 <= w <= 6 ==> NamedOtherwise(dow, w)))
  }

  /** A moment that the calendar has: a date, with the weekday that it falls on. */
  predicate Real(t: Civil) {
    && OnClock(t) && Dates.ToDate(t.year, t.month, t.dom).Some?
    && Dates.DayNumber(Dates.Date(t.year, t.month, t.dom)) % 7 == t.weekday
  }

  /** Meaning is preserved exactly for the schedules whose weekday field is faithful. */
  lemma MeaningPreserved(schedule: string, zone: string)
    requires !EveryForm(Normal(schedule)) && CalendarText(schedule, zone).Ok?
    ensures |Fields(schedule)| == 5
    ensures FaithfulWeekdays(Fields(schedule)[4])
       <==> forall t | Real(t) :: Elapses(CalendarText(schedule, zone).value, t) <==> Starts(Fields(schedule), t)
  {
    var f, e := Fields(schedule), CalendarText(schedule, zone).value;
    ZoneHasNoSpace(zone);
    forall t | Real(t)
      ensures FaithfulWeekdays(f[4]) ==> (Elapses(e, t) <==> Starts(f, t))
    {
      FiveFieldMeaning(f, zone, t);
      if f[4] != "*" { WeekdayFieldMeaning(f[4], t.weekday); }
    }
    if !FaithfulWeekdays(f[4]) {
      var t := Mismatch(f, zone);
      assert Real(t) && !(Elapses(e, t) <==> Starts(f, t));
    }
  }

  lemma DaysLater(year: nat, month: nat, a: nat, b: nat)
    ensures Dates.DayNumber(Dates.Date(year, month, b)) == Dates.DayNumber(Dates.Date(year, month, a)) + b - a
  {
  }

  lemma Remainder(x: int, w: nat)
    requires w < 7
    ensures (x + (w - x) % 7) % 7 == w
  {
  }

  /** Every weekday falls on one of the first seven days of a month. */
  lemma DayOfWeek(month: nat, w: nat) returns (day: nat)
    requires 1 <= month <= 12 && w < 7
    ensures 1 <= day <= 7 && Dates.ToDate(2026, month, day).Some?
    ensures Dates.DayNumber(Dates.Date(2026, month, day)) % 7 == w
  {
    var first := Dates.DayNumber(Dates.Date(2026, month, 1));
    day := 1 + (w - first) % 7;
    DaysLater(2026, month, 1, day);
    Remainder(first, w);
  }

  /** Every unfaithful weekday field loses a start, on a day of 2026. */
  lemma Mismatch(f: seq<string>, zone: string) returns (t: Civil)
    requires |f| == 5 && FiveFields(f).Ok? && ' ' !in zone && !FaithfulWeekdays(f[4])
    ensures Real(t) && Starts(f, t) && !Elapses(FiveFields(f).value + Suffix(zone), t)
  {
    var w: nat := 0;
    if !AnyWraps(f[4]) {
      w :| 1 <= w <= 6 && !NamedOtherwise(f[4], w);
    }
    var minute := FieldSatisfiable(f[0], MINUTES);
    var hour := FieldSatisfiable(f[1], HOURS);
    var month := FieldSatisfiable(f[3], MONTHS);
    var day := DayOfWeek(month, w);
    t := Civil(0, minute, hour, day, month, 2026, w);
    FiveFieldMeaning(f, zone, t);
    WeekdayFieldMeaning(f[4], w);
  }

  lemma SundayRangeIsAccepted()
    ensures WeekdayText("0-5").Ok? && AnyWraps("0-5")
  {
    assert "0-5" == "0" + ['-'] + "5";
    PartitionUnique("0", '-', "5");
    SplitSingle("0-5", ',');
    assert "0"[..0] == "" && "5"[..0] == "";
    assert Value("0") == 0 && Value("5") == 5;
    assert WrapsSunday(Split("0-5", ',')[0]);
    assert WeekdayToken("0-5").Ok?;
  }

  function EveryMinute(dow: string): seq<string> { ["*", "*", "*", "*", dow] }

  lemma EveryMinuteIsAccepted(dow: string)
    requires WeekdayText(dow).Ok?
    ensures FiveFields(EveryMinute(dow)).Ok?
  {
  }

  // `* * * * 0-5` is accepted but loses starts: `Sun..Fri` runs backwards.
  lemma SundayRangeIsLost() returns (t: Civil)
    ensures FiveFields(EveryMinute("0-5")).Ok? && Real(t)
    ensures Starts(EveryMinute("0-5"), t) && !Elapses(FiveFields(EveryMinute("0-5")).value + Suffix(""), t)
  {
    SundayRangeIsAccepted();
    EveryMinuteIsAccepted("0-5");
    t := Mismatch(EveryMinute("0-5"), "");
  }

  lemma WholeWeekIsAccepted()
    ensures WeekdayText("0-7").Ok? && !FaithfulWeekdays("0-7")
  {
    assert "0-7" == "0" + ['-'] + "7";
    PartitionUnique("0", '-', "7");
    SplitSingle("0-7", ',');
    assert "0"[..0] == "" && "7"[..0] == "";
    assert Value("0") == 0 && Value("7") == 7;
    assert WholeWeek(Split("0-7", ',')[0]);
    assert WeekdayToken("0-7").Ok?;
    assert !NamedOtherwise("0-7", 1);
  }

  // `* * * * 0-7` is accepted but loses starts: `Sun..Sun` is Sunday alone.
  lemma WholeWeekIsLost() returns (t: Civil)
    ensures FiveFields(EveryMinute("0-7")).Ok? && Real(t)
    ensures Starts(EveryMinute("0-7"), t) && !Elapses(FiveFields(EveryMinute("0-7")).value + Suffix(""), t)
  {
    WholeWeekIsAccepted();
    EveryMinuteIsAccepted("0-7");
    t := Mismatch(EveryMinute("0-7"), "");
  }
}
