/** Where a file goes and what it is called: the date that is read from an item, the new name, the folder. */
module MigrationNames {
  import opened Text
  import opened Calendar
  import opened MigrationModel

  /** `i` is where the leftmost date-like run of `s` starts. */
  ghost predicate FirstRun(s: string, i: nat) { i <= |s| && DateAt(s, i) && forall j :: 0 <= j < i ==> !DateAt(s, j) }

  lemma {:induction false} FirstDateIs(s: string, n: nat)
    requires n <= |s|
    ensures var r := FirstDate(s, n);
            if r.Some? then n <= r.value <= |s| && DateAt(s, r.value) && forall j :: n <= j < r.value ==> !DateAt(s, j)
            else forall j :: n <= j <= |s| ==> !DateAt(s, j)
    decreases |s| - n
  {
    if !DateAt(s, n) && n < |s| {
      FirstDateIs(s, n + 1);
    }
  }

  lemma DashInside(s: string)
    requires |s| == 8 && DigitsAt(s, 0, 8)
    ensures '-' !in s
  {
  }

  /** A date in the name wins over the time of creation, and the leftmost one over the others; a run that is no date
      of the calendar is not made up for. */
  lemma DateFromName(item: Item, i: nat)
    requires FirstRun(item.name, i)
    ensures var s := item.name[i..];
            if IsoAt(s, 0) then DateOf(item) == ToDate(Value(s[..4]), Value(s[5..7]), Value(s[8..10]))
            else DigitsAt(s, 0, 8) && DateOf(item) == ToDate(Value(s[..4]), Value(s[4..6]), Value(s[6..8]))
  {
    FirstDateIs(item.name, 0);
    var s := item.name[i..];
    RunAt(item.name, i);
    if IsoAt(s, 0) {
      IsoRead(s);
    } else {
      var raw := s[..8];
      DashInside(raw);
      assert raw[..4] == s[..4] && raw[4..6] == s[4..6] && raw[6..8] == s[6..8];
      assert raw[5] != '-' && raw[4] != '-';
    }
  }

  lemma RunAt(name: string, i: nat)
    requires i <= |name| && DateAt(name, i)
    ensures var s := name[i..];
            (IsoAt(name, i) <==> IsoAt(s, 0)) && (IsoAt(s, 0) || DigitsAt(s, 0, 8))
  {
    assert forall k :: i <= k < |name| ==> name[k] == name[i..][k - i];
    assert forall k :: 0 <= k < |name| - i ==> name[i..][k] == name[i + k];
  }

  lemma IsoRead(s: string)
    requires IsoAt(s, 0)
    ensures ReadDate(s[..10]) == ToDate(Value(s[..4]), Value(s[5..7]), Value(s[8..10]))
  {
    var raw := s[..10];
    assert raw[..4] == s[..4] && raw[5..7] == s[5..7] && raw[8..10] == s[8..10];
    assert IsoAt(raw, 0);
  }

  /** Without a run in the name, the day of creation counts. */
  lemma DateFromCreation(item: Item)
    requires (forall j :: 0 <= j <= |item.name| ==> !DateAt(item.name, j)) && IsoAt(item.created, 0)
    ensures var s := item.created; DateOf(item) == ToDate(Value(s[..4]), Value(s[5..7]), Value(s[8..10]))
  {
    FirstDateIs(item.name, 0);
    IsoRead(item.created);
    assert |item.created| <= 10 ==> item.created[..10] == item.created;
  }

  /** A new name is dated, ends as the old one, and is not dated again. */
  lemma NamedOnce(name: string, on: Date)
    ensures var made := MigratedName(name, on);
            && IsoDate(on) + "_" <= made && |name| <= |made| && made[|made| - |name|..] == name
            && MigratedName(made, on) == made && (made == name <==> IsoDate(on) + "_" <= name)
  {
    var prefix := IsoDate(on) + "_";
    if !(prefix <= name) {
      assert (prefix + name)[..|prefix|] == prefix;
      assert (prefix + name)[|prefix|..] == name;
    }
  }

  lemma SecondOfJanuary()
    ensures IsoDate(Date(2026, 1, 2)) == "2026-01-02"
  {
    assert Fixed(2, 1) == "2" && Fixed(20, 2) == "20" && Fixed(202, 3) == "202" && Fixed(2026, 4) == "2026";
    assert Decimal(1) == "1" && Decimal(2) == "2";
    assert TwoDigits(1) == "01" && TwoDigits(2) == "02";
  }

  lemma ReportPath()
    ensures Partition("report/2026-01", '/').0 == "report"
  {
    assert "report/2026-01" == "report" + ['/'] + "2026-01";
    PartitionUnique("report", '/', "2026-01");
  }

  lemma ShortName(name: string, on: Date, iso: string)
    requires IsoDate(on) == iso && |name| < |iso|
    ensures MigratedName(name, on) == iso + "_" + name
  {
    assert !(iso + "_" <= name);
  }

  /** A weekly report of a month folder. */
  lemma ReportOfJanuary(out: string)
    ensures Destination(out, "report/2026-01", Date(2026, 1, 2)) == [out, "주간동향", "2026"]
    ensures MigratedName("x", Date(2026, 1, 2)) == "2026-01-02" + "_" + "x"
  {
    ReportPath();
    Year2026();
    SecondOfJanuary();
    ShortName("x", Date(2026, 1, 2), "2026-01-02");
  }
}
