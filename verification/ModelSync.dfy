/** `automation/model_sync.py`: two top-level blocks of a YAML file are copied from one account's
    configuration into another's, line by line. */
module ModelSync {
  import opened Text
  import opened Lines

  const KEYS: seq<string> := ["model", "fallback_providers"]

  /** A line that opens a top-level key. */
  predicate Opens(line: string) { line != "" && line[0] != ' ' && line[0] != '\t' && line[0] != '#' && line[0] != '-' }

  /** `s.partition(c)[0]` */
  function Before(s: string, c: char): string { if s == "" || s[0] == c then "" else [s[0]] + Before(s[1..], c) }

  lemma {:induction false} BeforeIs(s: string, c: char)
    ensures Before(s, c) == Partition(s, c).0
  {
    if s != "" && s[0] != c {
      BeforeIs(s[1..], c);
      assert s[..IndexOf(s, c)] == [s[0]] + s[1..][..IndexOf(s[1..], c)];
    }
  }

  function KeyOf(line: string): string { Strip(Before(line, ':')) }

  /** A line that belongs to no block when it stands at the end of one. */
  predicate Loose(line: string) { StripLeft(line) == "" || line[0] == '#' }

  // ---------------------------------------------------------------- spans, declaratively

  /** The first top-level line at or after `i`. */
  function NextOpening(lines: seq<string>, i: nat): (j: nat)
    requires i <= |lines|
    ensures i <= j <= |lines| && (j < |lines| ==> Opens(lines[j]))
    ensures forall k :: i <= k < j ==> !Opens(lines[k])
    decreases |lines| - i
  {
    if i == |lines| || Opens(lines[i]) then i else NextOpening(lines, i + 1)
  }

  /** `end` moved back over loose lines, but never onto the opening line. */
  function Trimmed(lines: seq<string>, start: nat, end: nat): (e: nat)
    requires start < end <= |lines|
    ensures start < e <= end
    ensures forall k :: e <= k < end ==> Loose(lines[k])
    ensures e == start + 1 || !Loose(lines[e - 1])
  {
    if end > start + 1 && Loose(lines[end - 1]) then Trimmed(lines, start, end - 1) else end
  }

  predicate OpensKey(line: string, key: string) { Opens(line) && KeyOf(line) == key }

  /** Where the block of `key` starts: the last line that opens it. */
  function LastOpening(lines: seq<string>, key: string): (r: Option<nat>)
    ensures r.None? ==> forall k :: 0 <= k < |lines| ==> !OpensKey(lines[k], key)
    ensures r.Some? ==> r.value < |lines| && OpensKey(lines[r.value], key)
    ensures r.Some? ==> forall k :: r.value < k < |lines| ==> !OpensKey(lines[k], key)
  {
    if lines == [] then None
    else if OpensKey(lines[|lines| - 1], key) then Some(|lines| - 1)
    else LastOpening(lines[..|lines| - 1], key)
  }

  /** `[start, end)` of the block of `key`. */
  function Span(lines: seq<string>, key: string): (r: Option<(nat, nat)>)
    ensures r.Some? ==> r.value.0 < r.value.1 <= |lines|
  {
    var start := LastOpening(lines, key);
    if start.None? then None
    else Some((start.value, Trimmed(lines, start.value, NextOpening(lines, start.value + 1))))
  }

  function Block(lines: seq<string>, key: string): Option<seq<string>> {
    var span := Span(lines, key);
    if span.None? then None else Some(lines[span.value.0..span.value.1])
  }

  // ---------------------------------------------------------------- the source's loops

  /** `starts` lists the opening lines below `n`, in order. */
  ghost predicate ListsOpenings(lines: seq<string>, starts: seq<nat>, n: nat) {
    && n <= |lines|
    && (forall p :: 0 <= p < |starts| ==> starts[p] < n && Opens(lines[starts[p]]))
    && (forall p, q :: 0 <= p < q < |starts| ==> starts[p] < starts[q])
    && (forall k :: 0 <= k < n && Opens(lines[k]) ==> k in starts)
  }

  method Openings(lines: seq<string>) returns (starts: seq<nat>)
    ensures ListsOpenings(lines, starts, |lines|)
  {
    starts := [];
    for i := 0 to |lines|
      invariant ListsOpenings(lines, starts, i)
    {
      if Opens(lines[i]) {
        starts := starts + [i];
      }
    }
  }

  method TrimEnd(lines: seq<string>, start: nat, limit: nat) returns (end: nat)
    requires start < limit <= |lines|
    ensures end == Trimmed(lines, start, limit)
  {
    end := limit;
    while end > start + 1 && Loose(lines[end - 1])
      invariant start < end <= limit
      invariant Trimmed(lines, start, end) == Trimmed(lines, start, limit)
    {
      end := end - 1;
    }
  }

  /** The line where the `position`-th opening is, or the end. */
  function Bound(lines: seq<string>, starts: seq<nat>, position: nat): nat {
    if position < |starts| then starts[position] else |lines|
  }

  ghost predicate RecordedKey(lines: seq<string>, spans: map<string, (nat, nat)>, bound: nat, key: string)
    requires bound <= |lines|
  {
    var last := LastOpening(lines[..bound], key);
    (key in spans <==> last.Some?) && (key in spans ==> Some(spans[key]) == SpanAt(lines, last))
  }

  ghost predicate Recorded(lines: seq<string>, spans: map<string, (nat, nat)>, bound: nat)
    requires bound <= |lines|
  {
    forall key :: RecordedKey(lines, spans, bound, key)
  }

  ghost function SpanAt(lines: seq<string>, start: Option<nat>): Option<(nat, nat)> {
    if start.None? || start.value >= |lines| then None
    else Some((start.value, Trimmed(lines, start.value, NextOpening(lines, start.value + 1))))
  }

  /** `_spans`: one pass over the opening lines; a later line overwrites an earlier one of the same key. */
  method Spans(lines: seq<string>) returns (spans: map<string, (nat, nat)>)
    ensures forall key :: key in spans <==> Span(lines, key).Some?
    ensures forall key :: key in spans ==> Some(spans[key]) == Span(lines, key)
  {
    var starts := Openings(lines);
    spans := map[];
    NoneBefore(lines, starts);
    for position := 0 to |starts|
      invariant Recorded(lines, spans, Bound(lines, starts, position))
    {
      var start := starts[position];
      var limit := Bound(lines, starts, position + 1);
      EndIsNext(lines, starts, position);
      var end := TrimEnd(lines, start, limit);
      RecordOne(lines, spans, start);
      spans := spans[KeyOf(lines[start]) := (start, end)];
    }
    RecordedAll(lines, spans);
  }

  lemma RecordedAll(lines: seq<string>, spans: map<string, (nat, nat)>)
    requires Recorded(lines, spans, |lines|)
    ensures forall key :: key in spans <==> Span(lines, key).Some?
    ensures forall key :: key in spans ==> Some(spans[key]) == Span(lines, key)
  {
    forall key ensures key in spans <==> Span(lines, key).Some?
               ensures key in spans ==> Some(spans[key]) == Span(lines, key)
    {
      RecordedLast(lines, spans, key);
    }
  }

  lemma RecordedLast(lines: seq<string>, spans: map<string, (nat, nat)>, key: string)
    requires Recorded(lines, spans, |lines|)
    ensures key in spans <==> Span(lines, key).Some?
    ensures key in spans ==> Some(spans[key]) == Span(lines, key)
  {
    assert RecordedKey(lines, spans, |lines|, key);
    assert lines[..|lines|] == lines;
  }

  lemma RecordOne(lines: seq<string>, spans: map<string, (nat, nat)>, start: nat)
    requires start < |lines| && Opens(lines[start]) && Recorded(lines, spans, start)
    ensures var limit := NextOpening(lines, start + 1);
            Recorded(lines, spans[KeyOf(lines[start]) := (start, Trimmed(lines, start, limit))], limit)
  {
    var limit := NextOpening(lines, start + 1);
    var after := spans[KeyOf(lines[start]) := (start, Trimmed(lines, start, limit))];
    forall key ensures RecordedKey(lines, after, limit, key) {
      assert RecordedKey(lines, spans, start, key);
      Advance(lines, start, limit, key);
    }
  }

  /** No opening line stands between two consecutive entries of the list. */
  lemma NoneBetween(lines: seq<string>, starts: seq<nat>, position: int, k: nat)
    requires ListsOpenings(lines, starts, |lines|) && -1 <= position < |starts|
    requires k < Bound(lines, starts, position + 1) && (position >= 0 ==> starts[position] < k)
    ensures k < |lines| ==> !Opens(lines[k])
  {
    forall p | 0 <= p < |starts| ensures starts[p] != k {
      if p > position + 1 {
        assert starts[position + 1] < starts[p];
      } else if p < position {
        assert starts[p] < starts[position];
      }
    }
  }

  lemma NoneBefore(lines: seq<string>, starts: seq<nat>)
    requires ListsOpenings(lines, starts, |lines|)
    ensures Bound(lines, starts, 0) <= |lines|
    ensures Recorded(lines, map[], Bound(lines, starts, 0))
  {
    var bound := Bound(lines, starts, 0);
    forall k | 0 <= k < bound ensures !Opens(lines[..bound][k]) {
      NoneBetween(lines, starts, -1, k);
    }
  }

  /** Past an opening line and up to the next one, only that line's key changes its last opening. */
  lemma Advance(lines: seq<string>, start: nat, limit: nat, key: string)
    requires start < limit <= |lines| && Opens(lines[start])
    requires forall k :: start < k < limit ==> !Opens(lines[k])
    ensures LastOpening(lines[..limit], key)
         == if KeyOf(lines[start]) == key then Some(start) else LastOpening(lines[..start], key)
  {
    var long, short := lines[..limit], lines[..start];
    assert forall k :: 0 <= k < limit ==> long[k] == lines[k];
    assert forall k :: 0 <= k < start ==> short[k] == long[k];
    if KeyOf(lines[start]) == key {
      LastIs(long, key, start);
    } else if LastOpening(short, key).Some? {
      LastIs(long, key, LastOpening(short, key).value);
    } else {
      NoLast(long, key);
    }
  }

  lemma {:induction false} LastIs(lines: seq<string>, key: string, s: nat)
    requires s < |lines| && OpensKey(lines[s], key)
    requires forall k :: s < k < |lines| ==> !OpensKey(lines[k], key)
    ensures LastOpening(lines, key) == Some(s)
  {
    if s < |lines| - 1 {
      LastIs(lines[..|lines| - 1], key, s);
    }
  }

  lemma {:induction false} NoLast(lines: seq<string>, key: string)
    requires forall k :: 0 <= k < |lines| ==> !OpensKey(lines[k], key)
    ensures LastOpening(lines, key) == None
  {
    if lines != [] {
      NoLast(lines[..|lines| - 1], key);
    }
  }

  lemma EndIsNext(lines: seq<string>, starts: seq<nat>, position: nat)
    requires position < |starts| && ListsOpenings(lines, starts, |lines|)
    ensures NextOpening(lines, starts[position] + 1) == Bound(lines, starts, position + 1)
  {
    var limit := Bound(lines, starts, position + 1);
    assert position + 1 < |starts| ==> starts[position] < limit && Opens(lines[limit]);
    forall k | starts[position] < k < limit ensures !Opens(lines[k]) {
      NoneBetween(lines, starts, position, k);
    }
    NextIs(lines, starts[position] + 1, limit);
  }

  lemma {:induction false} NextIs(lines: seq<string>, i: nat, j: nat)
    requires i <= j <= |lines| && (j < |lines| ==> Opens(lines[j]))
    requires forall k :: i <= k < j ==> !Opens(lines[k])
    ensures NextOpening(lines, i) == j
    decreases j - i
  {
    if i < j {
      NextIs(lines, i + 1, j);
    }
  }

  /** `blocks`: the text of each wanted block. */
  ghost function Blocks(text: string): (r: map<string, string>)
    ensures forall key :: key in r <==> key in KEYS && Block(SplitLines(text), key).Some?
    ensures forall key :: key in r ==> r[key] == Join(Block(SplitLines(text), key).value, '\n')
  {
    map key | key in KEYS && Block(SplitLines(text), key).Some? :: Join(Block(SplitLines(text), key).value, '\n')
  }

  method ReadBlocks(text: string) returns (r: map<string, string>)
    ensures r == Blocks(text)
  {
    var lines := SplitLines(text);
    var spans := Spans(lines);
    r := map key | key in spans && key in KEYS :: Join(lines[spans[key].0..spans[key].1], '\n');
  }

  function Put(lines: seq<string>, key: string, replacement: seq<string>): seq<string> {
    var span := Span(lines, key);
    if span.None? then lines + [""] + replacement
    else lines[..span.value.0] + replacement + lines[span.value.1..]
  }

  ghost function PutAll(lines: seq<string>, wanted: map<string, string>, keys: seq<string>): seq<string> {
    if keys == [] then lines
    else
      var done := PutAll(lines, wanted, keys[..|keys| - 1]);
      var key := keys[|keys| - 1];
      if key in wanted then Put(done, key, SplitLines(wanted[key])) else done
  }

  /** What `replace_blocks` returns. */
  ghost function Replaced(text: string, wanted: map<string, string>): string {
    Join(PutAll(SplitLines(text), wanted, KEYS), '\n') + "\n"
  }

  method ReplaceBlocks(text: string, wanted: map<string, string>) returns (r: string)
    ensures r == Replaced(text, wanted)
  {
    var lines := SplitLines(text);
    for i := 0 to |KEYS|
      invariant lines == PutAll(SplitLines(text), wanted, KEYS[..i])
    {
      var key := KEYS[i];
      assert KEYS[..i + 1][..i] == KEYS[..i];
      if key in wanted {
        var spans := Spans(lines);
        var replacement := SplitLines(wanted[key]);
        lines := if key !in spans then lines + [""] + replacement
                 else lines[..spans[key].0] + replacement + lines[spans[key].1..];
      }
    }
    assert KEYS[..|KEYS|] == KEYS;
    r := Join(lines, '\n') + "\n";
  }
}
