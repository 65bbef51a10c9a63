/** The UTC timestamps of an attestation: section 5.6 of RFC 3339 with six fraction digits and `Z`. */
module Timestamp {
  import opened Text
  import opened Calendar

  /** A `datetime` in UTC. */
  datatype Instant = Instant(date: Date, hour: nat, minute: nat, second: nat, micro: nat)

  predicate IsInstant(t: Instant) {
    && t.date.year <= 9999 && ToDate(t.date.year, t.date.month, t.date.day).Some?
    && t.hour < 24 && t.minute < 60 && t.second < 60 && t.micro < 1000000
  }

  /** Microseconds, for comparing. */
  function Micros(t: Instant): int {
    (((DayNumber(t.date) * 24 + t.hour) * 60 + t.minute) * 60 + t.second) * 1000000 + t.micro
  }

  /** `strftime("%Y-%m-%dT%H:%M:%S.%fZ")`: the year is not padded. */
  function Stamp(t: Instant): string {
    Layout(Decimal(t.date.year), Fixed(t.date.month, 2), Fixed(t.date.day, 2),
           Fixed(t.hour, 2), Fixed(t.minute, 2), Fixed(t.second, 2), Fixed(t.micro, 6))
  }

  function Layout(y: string, mo: string, d: string, h: string, mi: string, s: string, us: string): string {
    y + "-" + mo + "-" + d + "T" + h + ":" + mi + ":" + s + "." + us + "Z"
  }

  predicate AllDigits(s: string) { forall i :: 0 <= i < |s| ==> IsDigit(s[i]) }

  predicate Digits(s: string, from: nat, to: nat)
    requires from <= to <= |s|
  {
    AllDigits(s[from..to])
  }

  /** The pattern of the record's `attested_at` field. */
  predicate IsStamp(s: string) {
    && |s| == 27
    && Digits(s, 0, 4) && Digits(s, 5, 7) && Digits(s, 8, 10) && Digits(s, 11, 13)
    && Digits(s, 14, 16) && Digits(s, 17, 19) && Digits(s, 20, 26)
    && s[4] == '-' && s[7] == '-' && s[10] == 'T' && s[13] == ':' && s[16] == ':' && s[19] == '.' && s[26] == 'Z'
  }

  function Fields(s: string): Instant
    requires IsStamp(s)
  {
    Instant(Date(Value(s[0..4]), Value(s[5..7]), Value(s[8..10])),
            Value(s[11..13]), Value(s[14..16]), Value(s[17..19]), Value(s[20..26]))
  }

  /** `strptime`, which refuses what is no date or no time of day. */
  function ReadStamp(s: string): (r: Option<Instant>)
    ensures r.Some? ==> IsStamp(s) && IsInstant(r.value)
  {
    if IsStamp(s) && IsInstant(Fields(s)) then Some(Fields(s)) else None
  }

  // ---------------------------------------------------------------- reading back

  /** Seven runs of digits of the right widths can be cut out again. */
  lemma LayoutCuts(y: string, mo: string, d: string, h: string, mi: string, s: string, us: string)
    requires |y| == 4 && |mo| == 2 && |d| == 2 && |h| == 2 && |mi| == 2 && |s| == 2 && |us| == 6
    ensures var t := Layout(y, mo, d, h, mi, s, us);
            && |t| == 27 && t[0..4] == y && t[5..7] == mo && t[8..10] == d && t[11..13] == h && t[14..16] == mi
            && t[17..19] == s && t[20..26] == us
            && t[4] == '-' && t[7] == '-' && t[10] == 'T' && t[13] == ':' && t[16] == ':' && t[19] == '.'
            && t[26] == 'Z'
  {
  }

  lemma CutsLayout(t: string)
    requires IsStamp(t)
    ensures t == Layout(t[0..4], t[5..7], t[8..10], t[11..13], t[14..16], t[17..19], t[20..26])
  {
    var u := Layout(t[0..4], t[5..7], t[8..10], t[11..13], t[14..16], t[17..19], t[20..26]);
    LayoutCuts(t[0..4], t[5..7], t[8..10], t[11..13], t[14..16], t[17..19], t[20..26]);
    SameCuts(t, u);
  }

  lemma SameCuts(t: string, u: string)
    requires |t| == 27 && |u| == 27
    requires t[0..4] == u[0..4] && t[4] == u[4] && t[5..7] == u[5..7] && t[7] == u[7] && t[8..10] == u[8..10]
    requires t[10] == u[10]
    requires t[11..13] == u[11..13] && t[13] == u[13] && t[14..16] == u[14..16] && t[16] == u[16]
    requires t[17..19] == u[17..19] && t[19] == u[19] && t[20..26] == u[20..26] && t[26] == u[26]
    ensures t == u
  {
    forall i | 0 <= i < 27 ensures t[i] == u[i] {
      if i < 4 { assert t[i] == t[0..4][i]; }
      else if 5 <= i < 7 { assert t[i] == t[5..7][i - 5]; }
      else if 8 <= i < 10 { assert t[i] == t[8..10][i - 8]; }
      else if 11 <= i < 13 { assert t[i] == t[11..13][i - 11]; }
      else if 14 <= i < 16 { assert t[i] == t[14..16][i - 14]; }
      else if 17 <= i < 19 { assert t[i] == t[17..19][i - 17]; }
      else if 20 <= i < 26 { assert t[i] == t[20..26][i - 20]; }
    }
  }

  lemma Powers()
    ensures Power10(2) == 100 && Power10(4) == 10000 && Power10(6) == 1000000
  {
    assert Power10(1) == 10 && Power10(3) == 1000 && Power10(5) == 100000;
  }

  lemma DaysFit(year: nat, month: nat)
    ensures DaysIn(year, month) < 100
  {
  }

  /** A year prints four digits wide from 1000 on, and narrower before. */
  lemma YearWidth(n: nat)
    requires n <= 9999
    ensures |Decimal(n)| == 4 <==> n >= 1000
    ensures |Decimal(n)| <= 4
  {
    if n >= 10 {
      assert |Decimal(n)| == |Decimal(n / 10)| + 1;
      if n >= 100 {
        assert |Decimal(n / 10)| == |Decimal(n / 100)| + 1;
        if n >= 1000 {
          assert |Decimal(n / 100)| == |Decimal(n / 1000)| + 1;
        }
      }
    }
  }

  /** What was printed is read back, for exactly the years of four digits. */
  lemma StampReads(t: Instant)
    requires IsInstant(t)
    ensures ReadStamp(Stamp(t)) == Some(t) <==> t.date.year >= 1000
    ensures IsStamp(Stamp(t)) <==> t.date.year >= 1000
  {
    YearWidth(t.date.year);
    Powers();
    DaysFit(t.date.year, t.date.month);
    if t.date.year >= 1000 {
      LayoutCuts(Decimal(t.date.year), Fixed(t.date.month, 2), Fixed(t.date.day, 2),
                 Fixed(t.hour, 2), Fixed(t.minute, 2), Fixed(t.second, 2), Fixed(t.micro, 6));
      FixedValue(t.date.month, 2);
      FixedValue(t.date.day, 2);
      FixedValue(t.hour, 2);
      FixedValue(t.minute, 2);
      FixedValue(t.second, 2);
      FixedValue(t.micro, 6);
    } else {
      assert |Stamp(t)| == |Decimal(t.date.year)| + 23;
    }
  }

  lemma FixedReads(s: string, width: nat)
    requires |s| == width && AllDigits(s)
    ensures Fixed(Value(s), width) == s
  {
    ValueBelow(s);
    FixedValue(Value(s), width);
    ValueInjective(Fixed(Value(s), width), s);
  }

  lemma YearReads(s: string)
    requires |s| == 4 && AllDigits(s) && Value(s) >= 1000
    ensures Decimal(Value(s)) == s
  {
    ValueBelow(s);
    Powers();
    YearWidth(Value(s));
    ValueInjective(Decimal(Value(s)), s);
  }

  /** What was read prints as it was, for exactly the years of four digits. */
  lemma ReadStamps(s: string)
    requires ReadStamp(s).Some?
    ensures Stamp(ReadStamp(s).value) == s <==> ReadStamp(s).value.date.year >= 1000
  {
    var t := ReadStamp(s).value;
    StampReads(t);
    if t.date.year >= 1000 {
      CutsLayout(s);
      YearReads(s[0..4]);
      FixedReads(s[5..7], 2);
      FixedReads(s[8..10], 2);
      FixedReads(s[11..13], 2);
      FixedReads(s[14..16], 2);
      FixedReads(s[17..19], 2);
      FixedReads(s[20..26], 6);
    }
  }
}
