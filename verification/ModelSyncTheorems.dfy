/** Copying the two blocks of `source` into `target`, stated on the texts themselves. */
module ModelSyncTheorems {
  import opened Text
  import opened Lines
  import opened ModelSync
  import opened ModelSyncLaws

  ghost predicate WellFormed(wanted: map<string, string>) {
    forall key :: key in wanted ==> IsBlock(key, SplitLines(wanted[key]))
  }

  /** A block survives being joined into one string and split again. */
  lemma BlockRoundTrip(key: string, b: seq<string>)
    requires IsBlock(key, b) && AllOneLine(b)
    ensures SplitLines(Join(b, '\n')) == b
  {
    assert b[|b| - 1] != "";
    SplitJoined(b);
  }

  lemma WantedBlock(source: string, key: string)
    requires key in Blocks(source)
    ensures Some(SplitLines(Blocks(source)[key])) == Block(SplitLines(source), key)
    ensures IsBlock(key, SplitLines(Blocks(source)[key]))
  {
    var lines := SplitLines(source);
    SplitLinesAreLines(source);
    Sandwich(lines, key);
    var (s, e) := Span(lines, key).value;
    SliceOneLine(lines, s, e);
    BlockRoundTrip(key, lines[s..e]);
  }

  lemma SliceOneLine(lines: seq<string>, s: nat, e: nat)
    requires AllOneLine(lines) && s <= e <= |lines|
    ensures AllOneLine(lines[s..e])
  {
    assert forall k :: 0 <= k < e - s ==> lines[s..e][k] == lines[s + k];
  }

  lemma WantedWellFormed(source: string)
    ensures WellFormed(Blocks(source))
  {
    forall key | key in Blocks(source) ensures IsBlock(key, SplitLines(Blocks(source)[key])) {
      WantedBlock(source, key);
    }
  }

  ghost predicate Distinct(keys: seq<string>) { forall i, j :: 0 <= i < j < |keys| ==> keys[i] != keys[j] }

  /** After replacing the keys of a list, the wanted ones read as wanted and all others as before. */
  lemma {:induction false} PutAllGet(lines: seq<string>, wanted: map<string, string>, keys: seq<string>, key: string)
    requires Distinct(keys) && WellFormed(wanted)
    ensures key in keys && key in wanted ==> Block(PutAll(lines, wanted, keys), key) == Some(SplitLines(wanted[key]))
    ensures key !in keys || key !in wanted ==> Block(PutAll(lines, wanted, keys), key) == Block(lines, key)
  {
    if keys != [] {
      var front, last := keys[..|keys| - 1], keys[|keys| - 1];
      PutAllGet(lines, wanted, front, key);
      assert keys == front + [last];
      var done := PutAll(lines, wanted, front);
      if last in wanted {
        var b := SplitLines(wanted[last]);
        if key == last {
          PutGet(done, last, b);
        } else {
          PutOther(done, last, b, key);
        }
      }
    }
  }

  lemma {:induction false} PutAllFixed(lines: seq<string>, wanted: map<string, string>, keys: seq<string>)
    requires forall key :: key in keys && key in wanted ==> Block(lines, key) == Some(SplitLines(wanted[key]))
    ensures PutAll(lines, wanted, keys) == lines
  {
    if keys != [] {
      PutAllFixed(lines, wanted, keys[..|keys| - 1]);
      var last := keys[|keys| - 1];
      if last in wanted {
        GetPut(lines, last);
      }
    }
  }

  lemma {:induction false} PutAllOneLine(lines: seq<string>, wanted: map<string, string>, keys: seq<string>)
    requires AllOneLine(lines)
    ensures AllOneLine(PutAll(lines, wanted, keys))
  {
    if keys != [] {
      PutAllOneLine(lines, wanted, keys[..|keys| - 1]);
      var last := keys[|keys| - 1];
      if last in wanted {
        SplitLinesAreLines(wanted[last]);
      }
    }
  }

  /** The written text reads back as the edited lines (a text without lines gains an empty one). */
  lemma ReadBack(text: string, wanted: map<string, string>)
    ensures var lines := PutAll(SplitLines(text), wanted, KEYS);
            SplitLines(Replaced(text, wanted)) == if lines == [] then [""] else lines
  {
    var lines := PutAll(SplitLines(text), wanted, KEYS);
    SplitLinesAreLines(text);
    PutAllOneLine(SplitLines(text), wanted, KEYS);
    if lines == [] {
      FirstLine("", "");
      assert Replaced(text, wanted) == "" + "\n" + "";
    } else {
      JoinedIsUnlines(lines);
      SplitUnlines(lines);
    }
  }

  lemma EmptyText(key: string)
    ensures Block([""], key) == Block([], key) == None
  {
    NoLast([""], key);
    NoLast([], key);
  }

  /** What every top-level key of the written text holds. */
  lemma ReplacedBlock(source: string, target: string, key: string)
    ensures Block(SplitLines(Replaced(target, Blocks(source))), key)
         == if key in Blocks(source) then Block(SplitLines(source), key) else Block(SplitLines(target), key)
  {
    var wanted := Blocks(source);
    WantedWellFormed(source);
    ReadBack(target, wanted);
    PutAllGet(SplitLines(target), wanted, KEYS, key);
    EmptyText(key);
    if key in wanted {
      WantedBlock(source, key);
    }
  }

  /** The wanted blocks arrive; every other block of the target, wanted key or not, is as it was. */
  lemma CopyDelivers(source: string, target: string)
    ensures var out := Blocks(Replaced(target, Blocks(source)));
            forall key :: key in KEYS ==>
              if key in Blocks(source) then key in out && out[key] == Blocks(source)[key]
              else (key in out <==> key in Blocks(target)) && (key in out ==> out[key] == Blocks(target)[key])
  {
    forall key ensures Block(SplitLines(Replaced(target, Blocks(source))), key)
                    == if key in Blocks(source) then Block(SplitLines(source), key) else Block(SplitLines(target), key)
    {
      ReplacedBlock(source, target, key);
    }
  }

  /** Applying the copy a second time changes nothing. */
  lemma CopyIdempotent(source: string, target: string)
    ensures var wanted := Blocks(source);
            Replaced(Replaced(target, wanted), wanted) == Replaced(target, wanted)
  {
    var wanted := Blocks(source);
    var lines := SplitLines(Replaced(target, wanted));
    forall key | key in wanted ensures Block(lines, key) == Some(SplitLines(wanted[key])) {
      ReplacedBlock(source, target, key);
      WantedBlock(source, key);
    }
    PutAllFixed(lines, wanted, KEYS);
    ReadBack(target, wanted);
    var edited := PutAll(SplitLines(target), wanted, KEYS);
    assert edited == [] ==> Join([""], '\n') == Join(edited, '\n') == "";
  }

  // ---------------------------------------------------------------- does an apply reach "in sync"?

  /** `_norm`: the non-blank lines without trailing blanks; no block has none. */
  function Norm(lines: seq<string>): seq<string> {
    if lines == [] then []
    else (if Blank(lines[0]) then [] else [StripRight(lines[0])]) + Norm(lines[1..])
  }

  function NormOf(blocks: map<string, string>, key: string): seq<string> {
    if key in blocks then Norm(SplitLines(blocks[key])) else []
  }

  /** `Plan.in_sync` */
  ghost predicate InSync(wanted: map<string, string>, current: map<string, string>) {
    forall i :: 0 <= i < |KEYS| ==> NormOf(wanted, KEYS[i]) == NormOf(current, KEYS[i])
  }

  // What being in sync means, without the normal form.

  /** `p` lists, in order, the lines that are not blank. */
  ghost predicate Picks(lines: seq<string>, p: seq<nat>) {
    && (forall k :: 0 <= k < |p| ==> p[k] < |lines|)
    && (forall j, k :: 0 <= j < k < |p| ==> p[j] < p[k])
    && (forall i :: 0 <= i < |lines| ==> (i in p <==> !Blank(lines[i])))
  }

  /** One text, with different blanks after it. */
  ghost predicate SameText(x: string, y: string) {
    exists n: nat :: n <= |x| && n <= |y| && x[..n] == y[..n] && Blank(x[n..]) && Blank(y[n..])
  }

  /** Line by line the same, but for blank lines and trailing blanks. */
  ghost predicate Alike(a: seq<string>, b: seq<string>) {
    exists p, q :: Aligned(a, b, p, q)
  }

  ghost predicate Aligned(a: seq<string>, b: seq<string>, p: seq<nat>, q: seq<nat>) {
    Picks(a, p) && Picks(b, q) && |p| == |q| && forall k :: 0 <= k < |p| ==> SameText(a[p[k]], b[q[k]])
  }

  function LinesOf(blocks: map<string, string>, key: string): seq<string> {
    if key in blocks then SplitLines(blocks[key]) else []
  }

  lemma {:induction false} StripRightCuts(s: string)
    ensures var r := StripRight(s); |r| <= |s| && r == s[..|r|] && Blank(s[|r|..])
  {
    if s != "" && IsSpace(s[|s| - 1]) {
      var t, n := s[..|s| - 1], |StripRight(s)|;
      StripRightCuts(t);
      assert forall i :: n <= i < |t| ==> s[i] == t[n..][i - n];
    }
  }

  lemma SameTextIs(x: string, y: string)
    ensures StripRight(x) == StripRight(y) <==> SameText(x, y)
  {
    StripRightCuts(x);
    StripRightCuts(y);
    var a, b := StripRight(x), StripRight(y);
    if n: nat :| n <= |x| && n <= |y| && x[..n] == y[..n] && Blank(x[n..]) && Blank(y[n..]) {
      WithinCut(x, n);
      WithinCut(y, n);
      assert StripRight(x[..n]) == StripRight(y[..n]);
    }
    if a == b {
      assert x[..|a|] == y[..|a|];
    }
  }

  /** Blanks at the end make no difference. */
  lemma {:induction false} WithinCut(s: string, n: nat)
    requires n <= |s| && Blank(s[n..])
    ensures StripRight(s[..n]) == StripRight(s)
    decreases |s|
  {
    if n < |s| {
      var t := s[..|s| - 1];
      assert s[n..][|s| - 1 - n] == s[|s| - 1];
      assert Blank(t[n..]) by {
        assert forall i :: 0 <= i < |t| - n ==> t[n..][i] == s[n..][i];
      }
      WithinCut(t, n);
      assert t[..n] == s[..n];
    } else {
      assert s[..n] == s;
    }
  }

  lemma {:induction false} NormMore(lines: seq<string>, x: string)
    ensures Norm(lines + [x]) == Norm(lines) + if Blank(x) then [] else [StripRight(x)]
  {
    if lines == [] {
      assert lines + [x] == [x] && [x][1..] == [];
    } else {
      NormMore(lines[1..], x);
      assert (lines + [x])[1..] == lines[1..] + [x];
    }
  }

  lemma {:induction false} PicksNorm(lines: seq<string>, p: seq<nat>)
    requires Picks(lines, p)
    ensures |Norm(lines)| == |p| && forall k :: 0 <= k < |p| ==> Norm(lines)[k] == StripRight(lines[p[k]])
  {
    assert p != [] ==> p[0] < |lines|;
    if lines != [] {
      var n := |lines| - 1;
      var front := lines[..n];
      assert lines == front + [lines[n]];
      NormMore(front, lines[n]);
      if Blank(lines[n]) {
        assert n !in p && forall k :: 0 <= k < |p| ==> p[k] in p;
        PicksNorm(front, p);
      } else {
        LastPick(lines, p);
        PicksNorm(front, p[..|p| - 1]);
      }
    }
  }

  lemma LastPick(lines: seq<string>, p: seq<nat>)
    requires lines != [] && Picks(lines, p) && !Blank(lines[|lines| - 1])
    ensures p != [] && p[|p| - 1] == |lines| - 1 && Picks(lines[..|lines| - 1], p[..|p| - 1])
  {
    var n := |lines| - 1;
    assert n in p;
    var j :| 0 <= j < |p| && p[j] == n;
    var last := p[|p| - 1];
    assert n <= last < |lines|;
    var front, q := lines[..n], p[..|p| - 1];
    forall i | 0 <= i < |front| ensures i in q <==> !Blank(front[i]) {
      if i in p {
        var k :| 0 <= k < |p| && p[k] == i;
        assert q[k] == i;
      }
    }
  }

  lemma {:induction false} PicksExist(lines: seq<string>) returns (p: seq<nat>)
    ensures Picks(lines, p)
  {
    if lines == [] {
      p := [];
    } else {
      var n := |lines| - 1;
      p := PicksExist(lines[..n]);
      if !Blank(lines[n]) {
        p := p + [n];
      }
    }
  }

  lemma NormAligned(a: seq<string>, b: seq<string>, p: seq<nat>, q: seq<nat>)
    requires Picks(a, p) && Picks(b, q)
    ensures Norm(a) == Norm(b) <==> Aligned(a, b, p, q)
  {
    PicksNorm(a, p);
    PicksNorm(b, q);
    if |p| == |q| {
      forall k | 0 <= k < |p| ensures Norm(a)[k] == Norm(b)[k] <==> SameText(a[p[k]], b[q[k]]) {
        SameTextIs(a[p[k]], b[q[k]]);
      }
    }
  }

  /** The normal forms are equal exactly when the lines are alike. */
  lemma NormAlike(a: seq<string>, b: seq<string>)
    ensures Norm(a) == Norm(b) <==> Alike(a, b)
  {
    var p := PicksExist(a);
    var q := PicksExist(b);
    NormAligned(a, b, p, q);
    if v, w :| Aligned(a, b, v, w) {
      NormAligned(a, b, v, w);
    }
  }

  /** Two configurations are in sync if and only if for each copied key their blocks, or none, have the same lines in
      the same order, but for blank lines and trailing blanks. */
  lemma InSyncIs(wanted: map<string, string>, current: map<string, string>)
    ensures InSync(wanted, current)
       <==> forall i :: 0 <= i < |KEYS| ==> Alike(LinesOf(wanted, KEYS[i]), LinesOf(current, KEYS[i]))
  {
    forall i | 0 <= i < |KEYS|
      ensures NormOf(wanted, KEYS[i]) == NormOf(current, KEYS[i])
         <==> Alike(LinesOf(wanted, KEYS[i]), LinesOf(current, KEYS[i]))
    {
      NormAlike(LinesOf(wanted, KEYS[i]), LinesOf(current, KEYS[i]));
    }
  }

  lemma BlockHasText(text: string, key: string)
    requires key in Blocks(text) && key != ""
    ensures NormOf(Blocks(text), key) != []
  {
    WantedBlock(text, key);
    var line := SplitLines(Blocks(text)[key])[0];
    if Blank(line) {
      BeforeBlank(line, ':');
      BlankStrips(Before(line, ':'));
    }
  }

  lemma {:induction false} BeforeBlank(s: string, c: char)
    requires Blank(s)
    ensures Blank(Before(s, c))
  {
    if s != "" && s[0] != c {
      BeforeBlank(s[1..], c);
    }
  }

  /** After an apply the accounts are in sync exactly when the target had no block that the source
      lacks: `replace_blocks` never removes one, so such a target stays out of sync for ever. */
  lemma ApplySyncs(source: string, target: string)
    ensures InSync(Blocks(source), Blocks(Replaced(target, Blocks(source))))
       <==> forall key :: key in KEYS && key in Blocks(target) ==> key in Blocks(source)
  {
    CopyDelivers(source, target);
    forall i | 0 <= i < |KEYS|
      ensures NormOf(Blocks(source), KEYS[i]) == NormOf(Blocks(Replaced(target, Blocks(source))), KEYS[i])
         <==> (KEYS[i] in Blocks(target) ==> KEYS[i] in Blocks(source))
    {
      SyncOne(Blocks(source), Blocks(Replaced(target, Blocks(source))), target, KEYS[i]);
    }
  }

  lemma SyncOne(wanted: map<string, string>, after: map<string, string>, target: string, key: string)
    requires key != ""
    requires if key in wanted then key in after && after[key] == wanted[key]
             else (key in after <==> key in Blocks(target)) && (key in after ==> after[key] == Blocks(target)[key])
    ensures NormOf(wanted, key) == NormOf(after, key) <==> (key in Blocks(target) ==> key in wanted)
  {
    if key !in wanted && key in Blocks(target) {
      BlockHasText(target, key);
    }
  }

  // ---------------------------------------------------------------- a pair that never gets in sync

  const SOURCE := "model:" + "\n" + ""
  const TARGET := "model:" + "\n" + ("fallback_providers:" + "\n" + "")

  lemma KeyOfBare(key: string)
    requires key in KEYS
    ensures OpensKey(key + ":", key)
  {
    var line := key + ":";
    PartitionUnique(key, ':', "");
    assert key + [':'] + "" == line;
    BeforeIs(line, ':');
    StripsToItself(key);
  }

  lemma StripsToItself(s: string)
    requires s != "" && !IsSpace(s[0]) && !IsSpace(s[|s| - 1])
    ensures Strip(s) == s
  {
  }

  lemma OneBlock(lines: seq<string>, key: string)
    requires lines != [] && exists k :: 0 <= k < |lines| && OpensKey(lines[k], key)
    ensures Block(lines, key).Some?
  {
  }

  lemma TwoLines(m: string, f: string)
    requires OneLine(m) && OneLine(f)
    ensures SplitLines(m + "\n" + "") == [m] && SplitLines(m + "\n" + (f + "\n" + "")) == [m, f]
  {
    FirstLine(m, "");
    FirstLine(f, "");
    FirstLine(m, f + "\n" + "");
  }

  lemma SmallTexts()
    ensures SplitLines(SOURCE) == ["model:"] && SplitLines(TARGET) == ["model:", "fallback_providers:"]
  {
    TwoLines("model:", "fallback_providers:");
  }

  lemma SmallBlocks()
    ensures Block(["model:", "fallback_providers:"], KEYS[1]).Some? && Block(["model:"], KEYS[1]).None?
  {
    KeyOfBare(KEYS[0]);
    KeyOfBare(KEYS[1]);
    assert "model:" == KEYS[0] + ":" && "fallback_providers:" == KEYS[1] + ":";
    assert OpensKey(["model:", "fallback_providers:"][1], KEYS[1]);
    OneBlock(["model:", "fallback_providers:"], KEYS[1]);
    NoLast(["model:"], KEYS[1]);
  }

  lemma ExtraKeyStays(source: string, target: string, key: string)
    requires key in KEYS && key in Blocks(target) && key !in Blocks(source)
    ensures !InSync(Blocks(source), Blocks(Replaced(target, Blocks(source))))
  {
    ApplySyncs(source, target);
  }

  /** The target keeps a block that the source does not have. */
  lemma NeverInSync()
    ensures !InSync(Blocks(SOURCE), Blocks(Replaced(TARGET, Blocks(SOURCE))))
  {
    SmallTexts();
    SmallBlocks();
    ExtraKeyStays(SOURCE, TARGET, KEYS[1]);
  }

  // ---------------------------------------------------------------- the blocks of a small file

  lemma SpanOf(lines: seq<string>, key: string, start: nat, end: nat, next: nat)
    requires start < end <= next <= |lines| && OpensKey(lines[start], key)
    requires forall k :: start < k < |lines| ==> !OpensKey(lines[k], key)
    requires (next < |lines| ==> Opens(lines[next])) && forall k :: start < k < next ==> !Opens(lines[k])
    requires (forall k :: end <= k < next ==> Loose(lines[k])) && !Loose(lines[end - 1])
    ensures Block(lines, key) == Some(lines[start..end])
  {
    LastIs(lines, key, start);
    NextIs(lines, start + 1, next);
    TrimmedIs(lines, start, next, end);
  }

  lemma {:induction false} TrimmedIs(lines: seq<string>, start: nat, next: nat, end: nat)
    requires start < end <= next <= |lines|
    requires (forall k :: end <= k < next ==> Loose(lines[k])) && !Loose(lines[end - 1])
    ensures Trimmed(lines, start, next) == end
    decreases next
  {
    if next > end {
      TrimmedIs(lines, start, next - 1, end);
    }
  }

  lemma LineKinds()
    ensures !Opens("# i") && !Opens("- a") && !Opens("\tb") && !Opens(" c") && !Opens("") && !Opens("#n")
    ensures !Opens("- x")
    ensures !Loose(" c") && Loose("") && Loose("#n") && !Loose("- x")
  {
    assert StripLeft("- x") == "- x" && " c"[1..] == "c" && StripLeft("c") == "c";
  }

  /** A block goes from its key over everything that is indented, a list item or a comment, and ends before the blank
      lines and comments that precede the next key. */
  lemma SampleBlocks(lines: seq<string>)
    requires |lines| == 9 && lines[0] == KEYS[0] + ":" && lines[1] == "# i" && lines[2] == "- a" && lines[3] == "\tb"
    requires lines[4] == " c" && lines[5] == "" && lines[6] == "#n" && lines[7] == KEYS[1] + ":" && lines[8] == "- x"
    ensures Block(lines, KEYS[0]) == Some(lines[0..5]) && Block(lines, KEYS[1]) == Some(lines[7..9])
  {
    LineKinds();
    KeyOfBare(KEYS[0]);
    KeyOfBare(KEYS[1]);
    assert !Opens(lines[1]) && !Opens(lines[2]) && !Opens(lines[3]) && !Opens(lines[4]) && !Opens(lines[5]);
    assert !Opens(lines[6]) && !Opens(lines[8]);
    SampleSpans(lines, lines[0], lines[7]);
  }

  lemma SampleSpans(lines: seq<string>, m: string, f: string)
    requires |lines| == 9 && lines[0] == m && lines[7] == f && OpensKey(m, KEYS[0]) && OpensKey(f, KEYS[1])
    requires !Opens(lines[1]) && !Opens(lines[2]) && !Opens(lines[3]) && !Opens(lines[4]) && !Opens(lines[5])
    requires !Opens(lines[6]) && !Opens(lines[8])
    requires !Loose(lines[4]) && Loose(lines[5]) && Loose(lines[6]) && !Loose(lines[8])
    ensures Block(lines, KEYS[0]) == Some(lines[0..5]) && Block(lines, KEYS[1]) == Some(lines[7..9])
  {
    SpanOf(lines, KEYS[0], 0, 5, 7);
    SpanOf(lines, KEYS[1], 7, 9, 9);
  }
}
