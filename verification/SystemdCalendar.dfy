/** What an `OnCalendar=` expression means, read from its text: the part of the CALENDAR EVENTS
    section of systemd.time(7) that a schedule converter can emit.  Nothing here knows about cron. */
module SystemdCalendar {
  import opened Text

  /** A civil time in the zone of the expression.  Weekday 0 is Sunday. */
  datatype Civil = Civil(second: nat, minute: nat, hour: nat, dom: nat, month: nat, year: nat, weekday: nat)

  predicate OnClock(t: Civil) {
    t.second < 60 && t.minute < 60 && t.hour < 24 && 1 <= t.dom <= 31 && 1 <= t.month <= 12 && t.weekday < 7
  }

  /** `a`, `a..b`, `a/n` or `a..b/n`. */
  datatype Item = Item(first: nat, last: Option<nat>, step: Option<nat>)

  predicate ItemMatches(i: Item, v: nat) {
    && v >= i.first
    && (i.last.Some? ==> v <= i.last.value)
    && (i.step.Some? ==> i.step.value > 0 && (v - i.first) % i.step.value == 0)
    && (i.last.None? && i.step.None? ==> v == i.first)
  }

  function ParseItem(s: string): Option<Item> {
    var (span, stepped, step) := Partition(s, '/');
    var (a, dotted, b) := Partition(span, '.');
    if !Numeral(a) || (stepped && (!Numeral(step) || Value(step) == 0)) then None
    else if dotted && (b == "" || b[0] != '.' || !Numeral(b[1..]) || Value(b[1..]) < Value(a)) then None
    else Some(Item(Value(a), if dotted then Some(Value(b[1..])) else None,
                   if stepped then Some(Value(step)) else None))
  }

  datatype Component = Any | OneOf(items: seq<Item>)

  predicate ComponentMatches(c: Component, v: nat) {
    c.Any? || exists i :: 0 <= i < |c.items| && ItemMatches(c.items[i], v)
  }

  function ParseComponent(s: string): Option<Component> {
    var tokens := Split(s, ',');
    if s == "*" then Some(Any)
    else if forall i :: 0 <= i < |tokens| ==> ParseItem(tokens[i]).Some? then
      Some(OneOf(seq(|tokens|, i requires 0 <= i < |tokens| => ParseItem(tokens[i]).value)))
    else None
  }

  /** The week runs from Monday (1) to Sunday (7). */
  function DayNumber(name: string): (r: Option<nat>)
    ensures r.Some? ==> 1 <= r.value <= 7
  {
    if name == "Mon" then Some(1) else if name == "Tue" then Some(2) else if name == "Wed" then Some(3)
    else if name == "Thu" then Some(4) else if name == "Fri" then Some(5) else if name == "Sat" then Some(6)
    else if name == "Sun" then Some(7) else None
  }

  /** One weekday or `A..B`; a range that runs against the order of the week is not an expression. */
  function DaySpan(s: string): Option<(nat, nat)> {
    var (a, dotted, b) := Partition(s, '.');
    if DayNumber(a).None? then None
    else if !dotted then Some((DayNumber(a).value, DayNumber(a).value))
    else if b == "" || b[0] != '.' || DayNumber(b[1..]).None? || DayNumber(b[1..]).value < DayNumber(a).value then None
    else Some((DayNumber(a).value, DayNumber(b[1..]).value))
  }

  predicate DaysValid(s: string) {
    var tokens := Split(s, ',');
    forall i :: 0 <= i < |tokens| ==> DaySpan(tokens[i]).Some?
  }

  /** `weekday` counts from Sunday = 0; the expression counts Sunday as 7. */
  predicate SpanCovers(span: (nat, nat), weekday: nat) {
    span.0 <= (if weekday == 0 then 7 else weekday) <= span.1
  }

  predicate DaysMatch(s: string, weekday: nat)
    requires DaysValid(s)
  {
    var tokens := Split(s, ',');
    exists i :: 0 <= i < |tokens| && SpanCovers(DaySpan(tokens[i]).value, weekday)
  }

  predicate IsLetter(c: char) { 'A' <= c <= 'Z' || 'a' <= c <= 'z' }

  datatype Calendar = Calendar(days: string, date: seq<string>, clock: seq<string>, zone: string)

  /** `[weekdays ]date clock[ zone]` */
  function Cut(expression: string): Option<Calendar> {
    var parts := Split(expression, ' ');
    var weekly := parts[0] != "" && IsLetter(parts[0][0]);
    var rest := if weekly then parts[1..] else parts;
    if !(2 <= |rest| <= 3) then None
    else Some(Calendar(if weekly then parts[0] else "", Split(rest[0], '-'), Split(rest[1], ':'),
                       if |rest| == 3 then rest[2] else ""))
  }

  predicate Valid(c: Calendar) {
    && |c.date| == 3 && |c.clock| == 3
    && ParseComponent(c.date[0]).Some? && ParseComponent(c.date[1]).Some? && ParseComponent(c.date[2]).Some?
    && ParseComponent(c.clock[0]).Some? && ParseComponent(c.clock[1]).Some? && ParseComponent(c.clock[2]).Some?
    && (c.days == "" || DaysValid(c.days))
  }

  /** The expression elapses at civil time `t`; a malformed expression never elapses. */
  predicate Elapses(expression: string, t: Civil) {
    Cut(expression).Some? && Valid(Cut(expression).value) && CalendarMatches(Cut(expression).value, t)
  }

  predicate CalendarMatches(c: Calendar, t: Civil)
    requires Valid(c)
  {
    && (c.days == "" || DaysMatch(c.days, t.weekday))
    && ComponentMatches(ParseComponent(c.date[0]).value, t.year)
    && ComponentMatches(ParseComponent(c.date[1]).value, t.month)
    && ComponentMatches(ParseComponent(c.date[2]).value, t.dom)
    && ComponentMatches(ParseComponent(c.clock[0]).value, t.hour)
    && ComponentMatches(ParseComponent(c.clock[1]).value, t.minute)
    && ComponentMatches(ParseComponent(c.clock[2]).value, t.second)
  }
}
