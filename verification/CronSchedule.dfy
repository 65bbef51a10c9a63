/** `automation/cron_schedule.py`: a Hermes schedule becomes one `OnCalendar=` value. */
module CronSchedule {
  import opened Text
  import opened SystemdCalendar

  datatype Bounds = Bounds(low: nat, high: nat, start: nat)

  const MINUTES := Bounds(0, 59, 0)
  const HOURS := Bounds(0, 23, 0)
  const DAYS := Bounds(1, 31, 1)
  const MONTHS := Bounds(1, 12, 1)

  const DAY_NAMES: seq<string> := ["Sun", "Mon", "Tue", "Wed", "Thu", "Fri", "Sat", "Sun"]

  function Number(text: string, low: nat, high: nat): (r: Result<nat>)
    ensures r.Ok? ==> low <= r.value <= high
  {
    if Numeral(text) && low <= Value(text) <= high then Ok(Value(text)) else Err
  }

  predicate Plain(base: string, b: Bounds) { exists n | b.low <= n <= b.high :: base == Decimal(n) }

  /** One comma-separated token of a numeric field. */
  function Token(token: string, b: Bounds): Result<string> {
    var (base, slash, step) := Partition(token, '/');
    if slash then
      if base != "*" && !Plain(base, b) then Err
      else
        var first := if base == "*" then Ok(b.start) else Number(base, b.low, b.high);
        var every := Number(step, 1, b.high + 1);
        if first.Ok? && every.Ok? then Ok(TwoDigits(first.value) + "/" + Decimal(every.value)) else Err
    else if '-' in token then
      var (a, _, z) := Partition(token, '-');
      var lo, hi := Number(a, b.low, b.high), Number(z, b.low, b.high);
      if lo.Ok? && hi.Ok? && lo.value <= hi.value then Ok(TwoDigits(lo.value) + ".." + TwoDigits(hi.value)) else Err
    else
      var n := Number(token, b.low, b.high);
      if n.Ok? then Ok(TwoDigits(n.value)) else Err
  }

  function WeekdayToken(token: string): Result<string> {
    var (a, dash, z) := Partition(token, '-');
    var lo, hi := Number(a, 0, 7), Number(z, 0, 7);
    if '/' in token || lo.Err? then Err
    else if !dash then Ok(DAY_NAMES[lo.value])
    else if hi.Err? || lo.value > hi.value then Err
    else Ok(DAY_NAMES[lo.value] + ".." + DAY_NAMES[hi.value])
  }

  /** Every token of a field must convert; the results are joined again. */
  ghost function Tokens(text: string, convert: string -> Result<string>): Result<string> {
    var tokens := Split(text, ',');
    if forall i :: 0 <= i < |tokens| ==> convert(tokens[i]).Ok? then
      Ok(Join(Converted(tokens, convert), ','))
    else Err
  }

  ghost function Converted(tokens: seq<string>, convert: string -> Result<string>): (r: seq<string>)
    requires forall i :: 0 <= i < |tokens| ==> convert(tokens[i]).Ok?
    ensures |r| == |tokens| && forall i :: 0 <= i < |tokens| ==> r[i] == convert(tokens[i]).value
  {
    seq(|tokens|, i requires 0 <= i < |tokens| => convert(tokens[i]).value)
  }

  function FieldToken(b: Bounds): string -> Result<string> { token => Token(token, b) }

  ghost function FieldText(text: string, b: Bounds): Result<string> {
    if text == "*" then Ok("*") else Tokens(text, FieldToken(b))
  }

  ghost function WeekdayText(text: string): Result<string> {
    if text == "*" then Ok("") else Tokens(text, WeekdayToken)
  }

  /** The loop that `_field` and `_weekdays` share: convert token by token, stop at the first refusal. */
  method EachToken(text: string, convert: string -> Result<string>) returns (r: Result<string>)
    ensures r == Tokens(text, convert)
  {
    var tokens := Split(text, ',');
    var out: seq<string> := [];
    for i := 0 to |tokens|
      invariant |out| == i
      invariant forall j :: 0 <= j < i ==> convert(tokens[j]) == Ok(out[j])
    {
      var next := convert(tokens[i]);
      if next.Err? {
        return Err;
      }
      out := out + [next.value];
    }
    assert out == Converted(tokens, convert);
    r := Ok(Join(out, ','));
  }

  method Field(text: string, b: Bounds) returns (r: Result<string>)
    ensures r == FieldText(text, b)
  {
    if text == "*" {
      return Ok("*");
    }
    r := EachToken(text, FieldToken(b));
  }

  method Weekdays(text: string) returns (r: Result<string>)
    ensures r == WeekdayText(text)
  {
    if text == "*" {
      return Ok("");
    }
    r := EachToken(text, WeekdayToken);
  }

  // ---------------------------------------------------------------- the whole schedule

  predicate ZoneName(zone: string) {
    && zone != "" && IsLetter(zone[0])
    && forall i :: 0 <= i < |zone| ==> IsLetter(zone[i]) || IsDigit(zone[i]) || zone[i] in "_+/-"
  }

  /** `every ([1-9][0-9]*)([smh])`, the whole text. */
  predicate EveryForm(text: string) {
    && |text| >= 8 && text[..6] == "every " && text[|text| - 1] in "smh"
    && Numeral(text[6..|text| - 1]) && text[6] != '0'
  }

  /** `00/n`, or just `00` when the step is the whole clock. */
  function Step(n: nat, whole: nat): string { if n < whole then "00" + "/" + Decimal(n) else "00" }

  function Daily(hour: string, minute: string, second: string): string {
    "*-*-* " + (hour + ":" + minute + ":" + second)
  }

  function EveryText(n: nat, unit: char): Result<string>
    requires n > 0 && unit in "smh"
  {
    var whole := if unit == 'h' then 24 else 60;
    if whole % n != 0 then Err
    else if unit == 's' then Ok(Daily("*", "*", Step(n, 60)))
    else if unit == 'm' then Ok(Daily("*", Step(n, 60), "00"))
    else Ok(Daily(Step(n, 24), "00", "00"))
  }

  function Suffix(zone: string): string { if zone == "" then "" else " " + zone }

  function Assemble(days: string, month: string, dom: string, hour: string, minute: string): string {
    (if days == "" then "" else days + " ") + "*-" + month + "-" + dom + " " + hour + ":" + minute + ":00"
  }

  ghost function FiveFields(f: seq<string>): Result<string>
    requires |f| == 5
  {
    var days, month, dom := WeekdayText(f[4]), FieldText(f[3], MONTHS), FieldText(f[2], DAYS);
    var hour, minute := FieldText(f[1], HOURS), FieldText(f[0], MINUTES);
    if (f[2] != "*" && f[4] != "*") || days.Err? || month.Err? || dom.Err? || hour.Err? || minute.Err? then Err
    else Ok(Assemble(days.value, month.value, dom.value, hour.value, minute.value))
  }

  /** The text that `on_calendar` returns, or `Err` where it raises `ScheduleError`. */
  ghost function CalendarText(schedule: string, zone: string): Result<string> {
    var text := Join(Words(schedule), ' ');
    var fields := Split(text, ' ');
    if zone != "" && !ZoneName(zone) then Err
    else
      var body :=
        if EveryForm(text) then
          EveryAt(text)
        else if |fields| != 5 then Err
        else FiveFields(fields);
      if body.Ok? then Ok(body.value + Suffix(zone)) else Err
  }

  function EveryAt(text: string): Result<string>
    requires EveryForm(text)
  {
    LeadingDigit(text[6..|text| - 1]);
    EveryText(Value(text[6..|text| - 1]), text[|text| - 1])
  }

  lemma {:induction false} LeadingDigit(s: string)
    requires Numeral(s) && s[0] != '0'
    ensures Value(s) > 0
  {
    if |s| > 1 {
      LeadingDigit(s[..|s| - 1]);
    }
  }

  method OnCalendar(schedule: string, zone: string) returns (r: Result<string>)
    ensures r == CalendarText(schedule, zone)
  {
    if zone != "" && !ZoneName(zone) {
      return Err;
    }
    var text := Join(Words(schedule), ' ');
    if EveryForm(text) {
      var body := EveryAt(text);
      return if body.Ok? then Ok(body.value + Suffix(zone)) else Err;
    }
    var f := Split(text, ' ');
    if |f| != 5 || (f[2] != "*" && f[4] != "*") {
      return Err;
    }
    var days := Weekdays(f[4]);
    var month := Field(f[3], MONTHS);
    var dom := Field(f[2], DAYS);
    var hour := Field(f[1], HOURS);
    var minute := Field(f[0], MINUTES);
    if days.Err? || month.Err? || dom.Err? || hour.Err? || minute.Err? {
      return Err;
    }
    r := Ok(Assemble(days.value, month.value, dom.value, hour.value, minute.value) + Suffix(zone));
  }
}
