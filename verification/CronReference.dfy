// What five cron fields mean: the crontab utility of POSIX.1-2017 with the step forms "*/n" and "a/n"
// of the common implementations.  The grammar is stated by decomposing the token's text, so it does
// not depend on how any converter reads it.
module CronReference {
  import opened Text
  import opened SystemdCalendar

  ghost predicate TokenMatches(token: string, low: nat, high: nat, v: nat) {
    || (Numeral(token) && Value(token) == v)
    || (exists a, b :: Numeral(a) && Numeral(b) && token == a + "-" + b && Value(a) <= v <= Value(b))
    || (exists n :: Numeral(n) && token == "*/" + n && StepsTo(low, Value(n), v))
    || (exists a, n :: Numeral(a) && Numeral(n) && token == a + "/" + n && StepsTo(Value(a), Value(n), v))
  }

  /** `v` is reached from `first` by whole steps. */
  ghost predicate StepsTo(first: nat, step: nat, v: nat) {
    exists k: nat :: v == first + Times(k, step)
  }

  function Times(k: nat, step: nat): nat { k * step }

  ghost predicate FieldMatches(text: string, low: nat, high: nat, v: nat) {
    var tokens := Split(text, ',');
    text == "*" || exists i :: 0 <= i < |tokens| && TokenMatches(tokens[i], low, high, v)
  }

  /** Both 0 and 7 are Sunday. */
  ghost predicate WeekdayTokenMatches(token: string, weekday: nat) {
    || (Numeral(token) && Value(token) % 7 == weekday)
    || (exists a, b :: Numeral(a) && Numeral(b) && token == a + "-" + b && Passes(Value(a), Value(b), weekday))
  }

  /** Counting from `lo` to `hi`, some number falls on `weekday`. */
  ghost predicate Passes(lo: nat, hi: nat, weekday: nat) {
    exists n {:trigger IsWeekday(n, weekday)} :: lo <= n <= hi && IsWeekday(n, weekday)
  }

  predicate IsWeekday(n: nat, weekday: nat) { n % 7 == weekday }

  ghost predicate WeekdayFieldMatches(text: string, weekday: nat) {
    var tokens := Split(text, ',');
    text == "*" || exists i :: 0 <= i < |tokens| && WeekdayTokenMatches(tokens[i], weekday)
  }

  /** A day is selected by either restricted day field: cron's OR. */
  ghost predicate DayMatches(dom: string, dow: string, t: Civil) {
    if dom == "*" then WeekdayFieldMatches(dow, t.weekday)
    else if dow == "*" then FieldMatches(dom, 1, 31, t.dom)
    else FieldMatches(dom, 1, 31, t.dom) || WeekdayFieldMatches(dow, t.weekday)
  }

  /** The job described by `minute hour dom month dow` starts at `t`. */
  ghost predicate Starts(fields: seq<string>, t: Civil)
    requires |fields| == 5
  {
    && t.second == 0
    && FieldMatches(fields[0], 0, 59, t.minute)
    && FieldMatches(fields[1], 0, 23, t.hour)
    && FieldMatches(fields[3], 1, 12, t.month)
    && DayMatches(fields[2], fields[4], t)
  }
}
