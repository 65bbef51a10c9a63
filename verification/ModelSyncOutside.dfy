/** The lines outside the copied blocks: comments, blank lines, the preamble and every other block. */
module ModelSyncOutside {
  import opened Text
  import opened Lines
  import opened ModelSync
  import opened ModelSyncLaws
  import opened ModelSyncTheorems

  // ---------------------------------------------------------------- dropping two spans of lines

  type Range = Option<(int, int)>

  predicate In(r: Range, i: int) { r.Some? && r.value.0 <= i < r.value.1 }

  function Moved(r: Range, n: int): Range { if r.None? then None else Some((r.value.0 + n, r.value.1 + n)) }

  /** The lines in neither range. */
  function Kept(lines: seq<string>, p: Range, q: Range): seq<string> {
    if lines == [] then []
    else
      var n := |lines| - 1;
      Kept(lines[..n], p, q) + if In(p, n) || In(q, n) then [] else [lines[n]]
  }

  /** Only the numbers of the lines matter. */
  lemma {:induction false} KeptSame(lines: seq<string>, p: Range, q: Range, r: Range, s: Range)
    requires forall i :: 0 <= i < |lines| ==> (In(p, i) || In(q, i) <==> In(r, i) || In(s, i))
    ensures Kept(lines, p, q) == Kept(lines, r, s)
  {
    if lines != [] {
      KeptSame(lines[..|lines| - 1], p, q, r, s);
    }
  }

  lemma {:induction false} KeptNone(lines: seq<string>, p: Range, q: Range)
    requires forall i :: 0 <= i < |lines| ==> In(p, i)
    ensures Kept(lines, p, q) == []
  {
    if lines != [] {
      KeptNone(lines[..|lines| - 1], p, q);
    }
  }

  lemma {:induction false} KeptConcat(a: seq<string>, b: seq<string>, p: Range, q: Range)
    ensures Kept(a + b, p, q) == Kept(a, p, q) + Kept(b, Moved(p, -|a|), Moved(q, -|a|))
  {
    if b == [] {
      assert a + b == a;
    } else {
      var front, last := b[..|b| - 1], b[|b| - 1];
      KeptConcat(a, front, p, q);
      assert (a + b)[..|a + b| - 1] == a + front && (a + b)[|a + b| - 1] == last;
    }
  }

  ghost function RangeOf(lines: seq<string>, key: string): Range {
    var span := Span(lines, key);
    if span.None? then None else Some((span.value.0, span.value.1))
  }

  /** The lines that are neither in the block of `key` nor in that of `other`. */
  ghost function Outside(lines: seq<string>, key: string, other: string): seq<string> {
    Kept(lines, RangeOf(lines, key), RangeOf(lines, other))
  }

  lemma OutsideSwaps(lines: seq<string>, key: string, other: string)
    ensures Outside(lines, key, other) == Outside(lines, other, key)
  {
    KeptSame(lines, RangeOf(lines, key), RangeOf(lines, other), RangeOf(lines, other), RangeOf(lines, key));
  }

  // ---------------------------------------------------------------- around one block

  /** Where the block of `other` lies, before or after a block of another key. */
  ghost function RangeBefore(a: seq<string>, c: seq<string>, other: string): Range {
    if Span(c, other).Some? then None else RangeOf(a, other)
  }

  ghost function Around(a: seq<string>, c: seq<string>, other: string): seq<string> {
    Kept(a, RangeBefore(a, c, other), None) + Kept(c, RangeOf(c, other), None)
  }

  lemma OtherRange(a: seq<string>, b: seq<string>, c: seq<string>, key: string, other: string)
    requires IsBlock(key, b) && key != other
    ensures RangeOf(a + b + c, other)
         == if Span(c, other).None? then RangeOf(a, other) else Moved(RangeOf(c, other), |a| + |b|)
  {
    if Span(c, other).Some? {
      SpanFits(c, other);
      var (s, e) := Span(c, other).value;
      Shifted(a + b, c, other, s, e, NextOpening(c, s + 1));
    } else {
      OtherBefore(a, b, c, key, other);
    }
  }

  lemma KeptThree(a: seq<string>, b: seq<string>, c: seq<string>, other: Range)
    ensures var mine, n := Some((|a|, |a| + |b|)), |a| + |b|;
            Kept(a + b + c, mine, other) == Kept(a, mine, other) + Kept(c, Moved(mine, -n), Moved(other, -n))
  {
    var mine: Range := Some((|a|, |a| + |b|));
    KeptConcat(a + b, c, mine, other);
    KeptConcat(a, b, mine, other);
    KeptNone(b, Moved(mine, -|a|), Moved(other, -|a|));
  }

  ghost predicate BesideMiddle(a: nat, b: nat, other: Range, before: Range, after: Range) {
    && (before.Some? ==> before.value.1 <= a && other == before && after.None?)
    && (after.Some? ==> other == Moved(after, a + b) && after.value.0 >= 0)
    && (before.None? && after.None? ==> other.None?)
  }

  lemma KeptFirst(a: seq<string>, b: nat, other: Range, before: Range, after: Range)
    requires BesideMiddle(|a|, b, other, before, after)
    ensures Kept(a, Some((|a|, |a| + b)), other) == Kept(a, before, None)
  {
    KeptSame(a, Some((|a|, |a| + b)), other, before, None);
  }

  lemma KeptLast(a: nat, b: nat, c: seq<string>, other: Range, before: Range, after: Range)
    requires BesideMiddle(a, b, other, before, after)
    ensures Kept(c, Moved(Some((a, a + b)), -(a + b)), Moved(other, -(a + b))) == Kept(c, after, None)
  {
    KeptSame(c, Moved(Some((a, a + b)), -(a + b)), Moved(other, -(a + b)), after, None);
  }

  /** Dropping the middle of three parts and one range of the first or the last. */
  lemma KeptAround(a: seq<string>, b: seq<string>, c: seq<string>, other: Range, before: Range, after: Range)
    requires BesideMiddle(|a|, |b|, other, before, after)
    ensures Kept(a + b + c, Some((|a|, |a| + |b|)), other) == Kept(a, before, None) + Kept(c, after, None)
  {
    KeptThree(a, b, c, other);
    KeptFirst(a, |b|, other, before, after);
    KeptLast(|a|, |b|, c, other, before, after);
  }

  /** Whatever the block is, the lines outside are those around it. */
  lemma OutsideSandwich(a: seq<string>, b: seq<string>, c: seq<string>, key: string, other: string)
    requires IsBlock(key, b) && Tail(key, c) && key != other
    ensures Outside(a + b + c, key, other) == Around(a, c, other)
  {
    Found(a, b, c, key);
    OtherRange(a, b, c, key, other);
    KeptAround(a, b, c, RangeOf(a + b + c, other), RangeBefore(a, c, other), RangeOf(c, other));
  }

  /** A put leaves the lines outside both blocks alone; an appended block is set off by one blank line. */
  lemma OutsidePut(lines: seq<string>, key: string, b: seq<string>, other: string)
    requires IsBlock(key, b) && key != other
    ensures Outside(Put(lines, key, b), key, other)
         == Outside(lines, key, other) + if Block(lines, key).Some? then [] else [""]
  {
    if Span(lines, key).Some? {
      Sandwich(lines, key);
      var (s, e) := Span(lines, key).value;
      OutsideSandwich(lines[..s], lines[s..e], lines[e..], key, other);
      OutsideSandwich(lines[..s], b, lines[e..], key, other);
    } else {
      OutsideAppended(lines, key, b, other);
    }
  }

  lemma OutsideAppended(lines: seq<string>, key: string, b: seq<string>, other: string)
    requires IsBlock(key, b) && key != other && Span(lines, key).None?
    ensures Outside(lines + [""] + b, key, other) == Outside(lines, key, other) + [""]
  {
    var a := lines + [""];
    OutsideSandwich(a, b, [], key, other);
    assert a + b + [] == a + b;
    NoLast([], other);
    BlankEnd(lines, other);
    assert a[..|a| - 1] == lines && a[|a| - 1] == "";
    KeptSame(lines, RangeOf(lines, other), None, None, RangeOf(lines, other));
  }

  // ---------------------------------------------------------------- the written text

  function Blanks(n: nat): seq<string> { if n == 0 then [] else Blanks(n - 1) + [""] }

  /** How many of the keys are wanted and not there yet. */
  ghost function Missing(lines: seq<string>, wanted: map<string, string>): nat {
    (if KEYS[0] in wanted && Block(lines, KEYS[0]).None? then 1 else 0)
    + (if KEYS[1] in wanted && Block(lines, KEYS[1]).None? then 1 else 0)
  }

  ghost function PutWanted(lines: seq<string>, wanted: map<string, string>, key: string): seq<string> {
    if key in wanted then Put(lines, key, SplitLines(wanted[key])) else lines
  }

  lemma PutBoth(lines: seq<string>, wanted: map<string, string>)
    ensures PutAll(lines, wanted, KEYS) == PutWanted(PutWanted(lines, wanted, KEYS[0]), wanted, KEYS[1])
  {
    assert KEYS[..1] == [KEYS[0]] && [KEYS[0]][..0] == [];
    assert PutAll(lines, wanted, []) == lines;
    assert PutAll(lines, wanted, [KEYS[0]]) == PutWanted(lines, wanted, KEYS[0]);
  }

  function Blank1(b: bool): seq<string> { if b then [""] else [] }

  lemma OutsideWanted(lines: seq<string>, wanted: map<string, string>, key: string, other: string)
    requires WellFormed(wanted) && key != other
    ensures Outside(PutWanted(lines, wanted, key), key, other)
         == Outside(lines, key, other) + Blank1(key in wanted && Block(lines, key).None?)
    ensures Block(PutWanted(lines, wanted, key), other) == Block(lines, other)
  {
    if key in wanted {
      OutsidePut(lines, key, SplitLines(wanted[key]), other);
      PutOther(lines, key, SplitLines(wanted[key]), other);
    }
  }

  lemma OutsideTwo(lines: seq<string>, wanted: map<string, string>, k: string, o: string)
    requires WellFormed(wanted) && k != o
    ensures Outside(PutWanted(PutWanted(lines, wanted, k), wanted, o), k, o)
         == Outside(lines, k, o) + Blank1(k in wanted && Block(lines, k).None?)
           + Blank1(o in wanted && Block(lines, o).None?)
  {
    var first := PutWanted(lines, wanted, k);
    OutsideWanted(lines, wanted, k, o);
    OutsideWanted(first, wanted, o, k);
    OutsideSwaps(first, k, o);
    OutsideSwaps(PutWanted(first, wanted, o), k, o);
  }

  lemma OutsideAll(lines: seq<string>, wanted: map<string, string>)
    requires WellFormed(wanted)
    ensures Outside(PutAll(lines, wanted, KEYS), KEYS[0], KEYS[1])
         == Outside(lines, KEYS[0], KEYS[1]) + Blanks(Missing(lines, wanted))
  {
    var k, o := KEYS[0], KEYS[1];
    PutBoth(lines, wanted);
    OutsideTwo(lines, wanted, k, o);
    var x, a := Outside(lines, k, o), Blank1(k in wanted && Block(lines, k).None?);
    var b := Blank1(o in wanted && Block(lines, o).None?);
    BlankSum(k in wanted && Block(lines, k).None?, o in wanted && Block(lines, o).None?);
    assert x + a + b == x + (a + b);
  }

  lemma BlankSum(a: bool, b: bool)
    ensures Blank1(a) + Blank1(b) == Blanks((if a then 1 else 0) + (if b then 1 else 0))
  {
    assert Blanks(0) == [] && Blanks(1) == [""];
  }

  /** Outside the two copied blocks, the written text has the lines of the target, in order, and one blank
      line at the end for each block that it lacked.  (A target without lines, when nothing is copied, is
      written as one blank line.) */
  lemma OutsideUnchanged(source: string, target: string)
    ensures Outside(SplitLines(Replaced(target, Blocks(source))), KEYS[0], KEYS[1])
         == if SplitLines(target) == [] && Blocks(source) == map[] then [""]
            else Outside(SplitLines(target), KEYS[0], KEYS[1]) + Blanks(Missing(SplitLines(target), Blocks(source)))
  {
    var lines, wanted := SplitLines(target), Blocks(source);
    WantedWellFormed(source);
    ReadBack(target, wanted);
    OutsideAll(lines, wanted);
    EditedIsEmpty(lines, wanted);
    if lines == [] && wanted == map[] {
      EmptyText(KEYS[0]);
      EmptyText(KEYS[1]);
    }
  }

  lemma EditedIsEmpty(lines: seq<string>, wanted: map<string, string>)
    requires WellFormed(wanted) && forall key :: key in wanted ==> key in KEYS
    ensures PutAll(lines, wanted, KEYS) == [] <==> lines == [] && wanted == map[]
  {
    var k, o := KEYS[0], KEYS[1];
    assert KEYS[..1] == [k] && [k][..0] == [];
    assert PutAll(lines, wanted, []) == lines;
    PutAllGet(lines, wanted, KEYS, k);
    PutAllGet(lines, wanted, KEYS, o);
    NoLast([], k);
    NoLast([], o);
  }
}
