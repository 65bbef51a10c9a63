/** Reading and replacing blocks obey the laws of a lens, on lines and on whole texts. */
module ModelSyncLaws {
  import opened Text
  import opened ModelSync

  /** What makes `[s, e)` the span of `key`; `limit` is the next opening line after it. */
  ghost predicate Fits(lines: seq<string>, key: string, s: nat, e: nat, limit: nat) {
    && s < e <= limit <= |lines|
    && OpensKey(lines[s], key)
    && (forall k :: s < k < |lines| ==> !OpensKey(lines[k], key))
    && (forall k :: s < k < limit ==> !Opens(lines[k]))
    && (limit < |lines| ==> Opens(lines[limit]))
    && (forall k :: e <= k < limit ==> Loose(lines[k]))
    && (e == s + 1 || !Loose(lines[e - 1]))
  }

  lemma {:induction false} TrimmedIs(lines: seq<string>, s: nat, e: nat, limit: nat)
    requires s < e <= limit <= |lines|
    requires forall k :: e <= k < limit ==> Loose(lines[k])
    requires e == s + 1 || !Loose(lines[e - 1])
    ensures Trimmed(lines, s, limit) == e
    decreases limit - e
  {
    if e < limit {
      TrimmedIs(lines, s, e, limit - 1);
    }
  }

  lemma SpanIs(lines: seq<string>, key: string, s: nat, e: nat, limit: nat)
    requires Fits(lines, key, s, e, limit)
    ensures Span(lines, key) == Some((s, e))
  {
    NextIs(lines, s + 1, limit);
    TrimmedIs(lines, s, e, limit);
    LastIs(lines, key, s);
  }

  lemma SpanFits(lines: seq<string>, key: string)
    requires Span(lines, key).Some?
    ensures var (s, e) := Span(lines, key).value; Fits(lines, key, s, e, NextOpening(lines, s + 1))
  {
  }

  ghost predicate IsBlock(key: string, b: seq<string>) {
    && b != [] && OpensKey(b[0], key)
    && (forall k :: 1 <= k < |b| ==> !Opens(b[k]))
    && (|b| == 1 || !Loose(b[|b| - 1]))
  }

  /** What may follow a block of `key` when it is the last one: loose lines up to the next opening. */
  ghost predicate Tail(key: string, c: seq<string>) {
    && (forall k :: 0 <= k < |c| ==> !OpensKey(c[k], key))
    && (forall k :: 0 <= k < NextOpening(c, 0) ==> Loose(c[k]))
  }

  lemma FoundFits(a: seq<string>, b: seq<string>, c: seq<string>, key: string)
    requires IsBlock(key, b) && Tail(key, c)
    ensures Fits(a + b + c, key, |a|, |a| + |b|, |a| + |b| + NextOpening(c, 0))
  {
    var lines, n := a + b + c, |a| + |b|;
    var gap := NextOpening(c, 0);
    assert forall k :: |a| <= k < n ==> lines[k] == b[k - |a|];
    assert forall k :: n <= k < |lines| ==> lines[k] == c[k - n];
    forall k | |a| < k < |lines| ensures !OpensKey(lines[k], key) && (k < n + gap ==> !Opens(lines[k])) {
      if k < n { assert !Opens(b[k - |a|]); } else { assert !OpensKey(c[k - n], key); }
    }
  }

  /** Reading finds a block wherever it was put. */
  lemma Found(a: seq<string>, b: seq<string>, c: seq<string>, key: string)
    requires IsBlock(key, b) && Tail(key, c)
    ensures Span(a + b + c, key) == Some((|a|, |a| + |b|))
    ensures Block(a + b + c, key) == Some(b)
  {
    var lines := a + b + c;
    FoundFits(a, b, c, key);
    SpanIs(lines, key, |a|, |a| + |b|, |a| + |b| + NextOpening(c, 0));
    assert lines[|a|..|a| + |b|] == b;
  }

  /** Every text with a block of `key` is such a sandwich. */
  lemma Sandwich(lines: seq<string>, key: string)
    requires Span(lines, key).Some?
    ensures var (s, e) := Span(lines, key).value;
            && lines == lines[..s] + lines[s..e] + lines[e..]
            && IsBlock(key, lines[s..e]) && Tail(key, lines[e..])
  {
    SpanFits(lines, key);
    var (s, e) := Span(lines, key).value;
    FitsBlock(lines, key, s, e, NextOpening(lines, s + 1));
    FitsTail(lines, key, s, e, NextOpening(lines, s + 1));
  }

  lemma FitsBlock(lines: seq<string>, key: string, s: nat, e: nat, limit: nat)
    requires Fits(lines, key, s, e, limit)
    ensures IsBlock(key, lines[s..e])
  {
    var b := lines[s..e];
    assert forall k :: 0 <= k < |b| ==> b[k] == lines[s + k];
  }

  lemma FitsTail(lines: seq<string>, key: string, s: nat, e: nat, limit: nat)
    requires Fits(lines, key, s, e, limit)
    ensures Tail(key, lines[e..])
  {
    var c := lines[e..];
    assert forall k :: 0 <= k < |c| ==> c[k] == lines[e + k];
    NextIs(c, 0, limit - e);
  }

  /** A block of one key leaves every other key's block to the lines around it. */
  lemma Other(a: seq<string>, b: seq<string>, c: seq<string>, key: string, other: string)
    requires IsBlock(key, b) && key != other
    ensures Block(a + b + c, other) == if Block(c, other).Some? then Block(c, other) else Block(a, other)
  {
    if Span(c, other).Some? {
      SpanFits(c, other);
      var (s, e) := Span(c, other).value;
      Shifted(a + b, c, other, s, e, NextOpening(c, s + 1));
    } else {
      OtherBefore(a, b, c, key, other);
    }
  }

  lemma OtherBefore(a: seq<string>, b: seq<string>, c: seq<string>, key: string, other: string)
    requires IsBlock(key, b) && key != other && Span(c, other).None?
    ensures Span(a + b + c, other) == Span(a, other) && Block(a + b + c, other) == Block(a, other)
  {
    BlockHides(b, key, other);
    if Span(a, other).Some? {
      KeptBefore(a, b, c, other);
    } else {
      NoneIn(a, b, c, other);
      NoLast(a + b + c, other);
    }
  }

  lemma KeptBefore(a: seq<string>, b: seq<string>, c: seq<string>, other: string)
    requires b != [] && Opens(b[0]) && Span(a, other).Some? && Span(c, other).None?
    requires forall k :: 0 <= k < |b| ==> !OpensKey(b[k], other)
    ensures Span(a + b + c, other) == Span(a, other) && Block(a + b + c, other) == Block(a, other)
  {
    SpanFits(a, other);
    var (s, e) := Span(a, other).value;
    NoneIn([], b, c, other);
    assert [] + b + c == b + c && a + b + c == a + (b + c);
    Kept(a, b + c, other, s, e, NextOpening(a, s + 1));
  }

  lemma NoneIn(a: seq<string>, b: seq<string>, c: seq<string>, key: string)
    requires forall k :: 0 <= k < |a| ==> !OpensKey(a[k], key)
    requires forall k :: 0 <= k < |b| ==> !OpensKey(b[k], key)
    requires forall k :: 0 <= k < |c| ==> !OpensKey(c[k], key)
    ensures forall k :: 0 <= k < |a + b + c| ==> !OpensKey((a + b + c)[k], key)
  {
  }

  lemma BlockHides(b: seq<string>, key: string, other: string)
    requires IsBlock(key, b) && key != other
    ensures Opens(b[0]) && forall k :: 0 <= k < |b| ==> !OpensKey(b[k], other)
  {
  }

  /** Lines after a block that open another key, or are blank, do not change it. */
  lemma Kept(a: seq<string>, rest: seq<string>, key: string, s: nat, e: nat, limit: nat)
    requires Fits(a, key, s, e, limit)
    requires rest != [] && Opens(rest[0]) && forall k :: 0 <= k < |rest| ==> !OpensKey(rest[k], key)
    ensures Span(a + rest, key) == Some((s, e)) && Block(a + rest, key) == Some(a[s..e])
  {
    var lines := a + rest;
    assert forall k :: 0 <= k < |a| ==> lines[k] == a[k];
    assert forall k :: |a| <= k < |lines| ==> lines[k] == rest[k - |a|];
    SpanIs(lines, key, s, e, limit);
    assert lines[s..e] == a[s..e];
  }

  lemma ShiftedFits(p: seq<string>, c: seq<string>, key: string, s: nat, e: nat, limit: nat)
    requires Fits(c, key, s, e, limit)
    ensures Fits(p + c, key, |p| + s, |p| + e, |p| + limit)
  {
    var lines, n := p + c, |p|;
    assert forall k :: n <= k < |lines| ==> lines[k] == c[k - n];
    forall k | n + s < k < |lines|
      ensures !OpensKey(lines[k], key) && (k < n + limit ==> !Opens(lines[k]))
      ensures n + e <= k < n + limit ==> Loose(lines[k])
    {
      assert !OpensKey(c[k - n], key);
    }
  }

  lemma Shifted(p: seq<string>, c: seq<string>, key: string, s: nat, e: nat, limit: nat)
    requires Fits(c, key, s, e, limit)
    ensures Span(p + c, key) == Some((|p| + s, |p| + e)) && Block(p + c, key) == Some(c[s..e])
  {
    var lines := p + c;
    ShiftedFits(p, c, key, s, e, limit);
    SpanIs(lines, key, |p| + s, |p| + e, |p| + limit);
    ShiftedSlice(p, c, s, e);
  }

  lemma ShiftedSlice<T>(p: seq<T>, c: seq<T>, s: nat, e: nat)
    requires s <= e <= |c|
    ensures (p + c)[|p| + s..|p| + e] == c[s..e]
  {
  }

  /** A blank line at the end belongs to no block. */
  lemma BlankEnd(lines: seq<string>, key: string)
    ensures Span(lines + [""], key) == Span(lines, key) && Block(lines + [""], key) == Block(lines, key)
  {
    if Span(lines, key).Some? {
      SpanFits(lines, key);
      var (s, e) := Span(lines, key).value;
      KeptBlank(lines, key, s, e, NextOpening(lines, s + 1));
    } else {
      NoLast(lines + [""], key);
    }
  }

  lemma KeptBlank(lines: seq<string>, key: string, s: nat, e: nat, limit: nat)
    requires Fits(lines, key, s, e, limit)
    ensures Span(lines + [""], key) == Some((s, e)) && Block(lines + [""], key) == Some(lines[s..e])
  {
    var more := lines + [""];
    assert forall k :: 0 <= k < |lines| ==> more[k] == lines[k];
    SpanIs(more, key, s, e, if limit == |lines| then |lines| + 1 else limit);
    assert more[s..e] == lines[s..e];
  }

  // ---------------------------------------------------------------- laws for one key

  /** Put then get. */
  lemma PutGet(lines: seq<string>, key: string, b: seq<string>)
    requires IsBlock(key, b)
    ensures Block(Put(lines, key, b), key) == Some(b)
  {
    if Span(lines, key).Some? {
      Sandwich(lines, key);
      var (s, e) := Span(lines, key).value;
      Found(lines[..s], b, lines[e..], key);
    } else {
      Found(lines + [""], b, [], key);
      assert lines + [""] + b + [] == lines + [""] + b;
    }
  }

  /** Get then put. */
  lemma GetPut(lines: seq<string>, key: string)
    requires Block(lines, key).Some?
    ensures Put(lines, key, Block(lines, key).value) == lines
  {
    Sandwich(lines, key);
  }

  /** A put leaves every other key's block alone. */
  lemma PutOther(lines: seq<string>, key: string, b: seq<string>, other: string)
    requires IsBlock(key, b) && key != other
    ensures Block(Put(lines, key, b), other) == Block(lines, other)
  {
    if Span(lines, key).Some? {
      Sandwich(lines, key);
      var (s, e) := Span(lines, key).value;
      Other(lines[..s], lines[s..e], lines[e..], key, other);
      Other(lines[..s], b, lines[e..], key, other);
    } else {
      Other(lines + [""], b, [], key, other);
      assert lines + [""] + b + [] == lines + [""] + b;
      BlankEnd(lines, other);
    }
  }
}
