/** `automation/auto_write.py` and `automation/auto_write_summary.py`: a ledger of writes, each of which
    is to appear in exactly one daily summary. */
module SummaryLedger {
  import opened Text

  datatype Row = Row(kind: string, source: string, revision: string, path: string, recorded: string, written: string)

  /** A moment in Seoul. */
  datatype Moment = Moment(day: string, hour: nat, minute: nat)

  datatype Batch = Batch(at: Moment, rows: seq<Row>)

  predicate SameKey(a: Row, b: Row) { a.kind == b.kind && a.source == b.source && a.revision == b.revision }

  predicate Late(m: Moment) { m.hour > 21 || (m.hour == 21 && m.minute >= 30) }

  /** Characters that `json.dumps(ensure_ascii=False)` writes as they are and `str.splitlines` cuts at. */
  predicate Cuts(c: char) { c == '\U{85}' || c == '\U{2028}' || c == '\U{2029}' }

  predicate Whole(s: string) { forall i :: 0 <= i < |s| ==> !Cuts(s[i]) }

  predicate Readable(r: Row) {
    Whole(r.source) && Whole(r.revision) && Whole(r.path) && Whole(r.recorded) && Whole(r.written)
  }

  predicate AllReadable(rows: seq<Row>) { forall i :: 0 <= i < |rows| ==> Readable(rows[i]) }

  function Concat(batches: seq<Batch>): seq<Row> {
    if batches == [] then [] else Concat(batches[..|batches| - 1]) + batches[|batches| - 1].rows
  }

  /** What `datetime.fromisoformat` makes of a text: an error, a time without a zone, one with a zone. */
  datatype Time = Bad | Naive | Aware

  /** `summary_text` parses every `written_at` and sorts by it; times with and without a zone do not
      compare. */
  predicate Renders(read: string -> Time, rows: seq<Row>) {
    && (forall i :: 0 <= i < |rows| ==> read(rows[i].written) != Bad)
    && (forall i, j :: 0 <= i < j < |rows| ==> read(rows[i].written) == read(rows[j].written))
  }

  /** What cannot be rendered cannot be with more rows either. */
  lemma NeverRenders(read: string -> Time, rows: seq<Row>, more: seq<Row>)
    requires !Renders(read, rows)
    ensures !Renders(read, rows + more)
  {
    assert forall i :: 0 <= i < |rows| ==> (rows + more)[i] == rows[i];
  }

  ghost predicate DistinctKeys(rows: seq<Row>) {
    forall i, j :: 0 <= i < j < |rows| ==> !SameKey(rows[i], rows[j])
  }

  ghost predicate GoodBatches(batches: seq<Batch>) {
    && (forall i :: 0 <= i < |batches| ==> Late(batches[i].at) && batches[i].rows != [])
    && (forall i, j :: 0 <= i < j < |batches| ==> batches[i].at.day != batches[j].at.day)
  }

  /** The ledger and the watermark, with what was sent so far. */
  class Ledger {
    var ledger: seq<Row>
    var days: seq<string>
    var rows: nat
    const read: string -> Time
    ghost var sent: seq<Batch>

    /** Keys are distinct; what was sent is the ledger up to the watermark, in order, a batch a day. */
    ghost predicate Valid() reads this {
      && DistinctKeys(ledger) && rows <= |ledger| && Concat(sent) == ledger[..rows] && GoodBatches(sent)
      && |days| == |sent| && forall i :: 0 <= i < |sent| ==> days[i] == sent[i].at.day
    }

    constructor (parse: string -> Time)
      ensures Valid() && ledger == [] && sent == [] && rows == 0 && days == [] && read == parse
    {
      ledger, days, rows, sent, read := [], [], 0, [], parse;
    }

    /** `_rows`: `None` is the exception for a ledger that does not parse. */
    method Rows() returns (r: Option<seq<Row>>)
      ensures r == if AllReadable(ledger) then Some(ledger) else None
    {
      for i := 0 to |ledger|
        invariant forall k :: 0 <= k < i ==> Readable(ledger[k])
      {
        if !Readable(ledger[i]) {
          return None;
        }
      }
      r := Some(ledger);
    }

    /** One row for each kind, source and revision. */
    method Record(row: Row) returns (ok: bool)
      requires Valid()
      modifies this`ledger
      ensures Valid() && ok == old(AllReadable(ledger))
      ensures ok ==> exists i :: 0 <= i < |ledger| && SameKey(ledger[i], row)
      ensures if ok && !old(Holds(row)) then ledger == old(ledger) + [row] else ledger == old(ledger)
    {
      var found := Rows();
      if found.None? {
        return false;
      }
      for i := 0 to |ledger|
        invariant forall k :: 0 <= k < i ==> !SameKey(ledger[k], row)
      {
        if SameKey(ledger[i], row) {
          return true;
        }
      }
      ledger := ledger + [row];
      assert ledger[..rows] == old(ledger)[..rows] && SameKey(ledger[|ledger| - 1], row);
      ok := true;
    }

    predicate Holds(row: Row) reads this { exists i :: 0 <= i < |ledger| && SameKey(ledger[i], row) }

    /** Exactly when a summary goes out, and that it takes all that is pending. */
    method Summarize(now: Moment, delivers: bool) returns (r: bool)
      requires Valid()
      modifies this`days, this`rows, this`sent
      ensures Valid()
      ensures r <==> Late(now) && now.day !in old(days) && AllReadable(ledger) && old(rows) < |ledger|
                     && Renders(read, ledger[old(rows)..]) && delivers
      ensures r ==> sent == old(sent) + [Batch(now, ledger[old(rows)..])] && rows == |ledger|
      ensures !r ==> sent == old(sent) && rows == old(rows) && days == old(days)
    {
      if !Late(now) || now.day in days {
        return false;
      }
      var found := Rows();
      if found.None? || found.value[rows..] == [] || !Renders(read, found.value[rows..]) || !delivers {
        return false;
      }
      sent := sent + [Batch(now, ledger[rows..])];
      assert sent[..|sent| - 1] == old(sent);
      assert ledger[..rows] + ledger[rows..] == ledger[..|ledger|];
      days, rows := days + [now.day], |ledger|;
      r := true;
    }
  }

  // ---------------------------------------------------------------- whole runs

  datatype Call = RecordCall(row: Row) | SummarizeCall(now: Moment, delivers: bool)

  /** Exactly once, over every interleaving: the batches sent are the ledger up to the watermark. */
  method Serve(calls: seq<Call>, parse: string -> Time) returns (ledger: Ledger)
    ensures ledger.Valid()
    ensures AllReadable(ledger.ledger) ==>
              forall k :: 0 <= k < |calls| && calls[k].RecordCall? ==> ledger.Holds(calls[k].row)
  {
    ledger := new Ledger(parse);
    for i := 0 to |calls|
      invariant ledger.Valid()
      invariant AllReadable(ledger.ledger) ==>
                  forall k :: 0 <= k < i && calls[k].RecordCall? ==> ledger.Holds(calls[k].row)
    {
      ghost var before := ledger.ledger;
      match calls[i]
      case RecordCall(row) =>
        var ok := ledger.Record(row);
        assert before <= ledger.ledger;
        assert AllReadable(ledger.ledger) ==> AllReadable(before);
        forall k | 0 <= k < i && calls[k].RecordCall? && AllReadable(before) ensures ledger.Holds(calls[k].row) {
          var j :| 0 <= j < |before| && SameKey(before[j], calls[k].row);
          assert SameKey(ledger.ledger[j], calls[k].row);
        }
      case SummarizeCall(now, delivers) =>
        var r := ledger.Summarize(now, delivers);
    }
  }

  /** Which batch a row is in: each row below the watermark is in one place of one batch. */
  lemma {:induction false} InOneBatch(sent: seq<Batch>, i: nat) returns (b: nat, at: nat)
    requires i < |Concat(sent)|
    ensures b < |sent| && at < |sent[b].rows| && sent[b].rows[at] == Concat(sent)[i]
    ensures |Concat(sent[..b])| + at == i
  {
    var front := sent[..|sent| - 1];
    if i < |Concat(front)| {
      b, at := InOneBatch(front, i);
      assert front[..b] == sent[..b];
    } else {
      b, at := |sent| - 1, i - |Concat(front)|;
    }
  }

  /** No key is summarized twice, in one batch or in two. */
  lemma SummarizedOnce(ledger: seq<Row>, rows: nat, sent: seq<Batch>, a: nat, x: nat, b: nat, y: nat)
    requires DistinctKeys(ledger) && rows <= |ledger| && Concat(sent) == ledger[..rows]
    requires a < |sent| && x < |sent[a].rows| && b < |sent| && y < |sent[b].rows| && (a, x) != (b, y)
    ensures !SameKey(sent[a].rows[x], sent[b].rows[y])
  {
    PlaceOf(sent, a, x);
    PlaceOf(sent, b, y);
    if a < b {
      Before(sent, a, b);
    } else if b < a {
      Before(sent, b, a);
    }
    var i, j := |Concat(sent[..a])| + x, |Concat(sent[..b])| + y;
    assert ledger[i] == sent[a].rows[x] && ledger[j] == sent[b].rows[y];
  }

  lemma {:induction false} PlaceOf(sent: seq<Batch>, b: nat, y: nat)
    requires b < |sent| && y < |sent[b].rows|
    ensures |Concat(sent[..b])| + y < |Concat(sent)| && Concat(sent)[|Concat(sent[..b])| + y] == sent[b].rows[y]
  {
    if b < |sent| - 1 {
      var front := sent[..|sent| - 1];
      PlaceOf(front, b, y);
      assert front[..b] == sent[..b];
    }
  }

  lemma {:induction false} Before(sent: seq<Batch>, a: nat, b: nat)
    requires a < b <= |sent|
    ensures |Concat(sent[..a])| + |sent[a].rows| <= |Concat(sent[..b])|
  {
    assert sent[..b][..b - 1] == sent[..b - 1];
    if a < b - 1 {
      Before(sent, a, b - 1);
    }
  }

  // ---------------------------------------------------------------- rows that stop the ledger

  /** A row with a character that cuts lines stops the ledger for good: every later call fails. */
  method CutStopsAll(ledger: Ledger, row: Row, calls: seq<Call>)
    requires ledger.Valid() && AllReadable(ledger.ledger) && !ledger.Holds(row) && !Readable(row)
    modifies ledger
    ensures ledger.ledger == old(ledger.ledger) + [row] && ledger.sent == old(ledger.sent)
    ensures ledger.rows == old(ledger.rows) && ledger.days == old(ledger.days)
  {
    var ok := ledger.Record(row);
    assert !Readable(ledger.ledger[|ledger.ledger| - 1]);
    for i := 0 to |calls|
      invariant ledger.Valid() && !AllReadable(ledger.ledger)
      invariant ledger.ledger == old(ledger.ledger) + [row] && ledger.sent == old(ledger.sent)
      invariant ledger.rows == old(ledger.rows) && ledger.days == old(ledger.days)
    {
      match calls[i]
      case RecordCall(next) =>
        var done := ledger.Record(next);
      case SummarizeCall(now, delivers) =>
        var done := ledger.Summarize(now, delivers);
    }
  }

  const CUT := Row("mail", "a\U{85}b", "r1", "p", "2026-01-02", "2026-01-02")

  /** The same for a new ledger and one row. */
  method OneCutRow(parse: string -> Time, calls: seq<Call>) returns (ledger: Ledger)
    ensures ledger.ledger == [CUT] && ledger.sent == [] && ledger.rows == 0 && ledger.days == []
  {
    ledger := new Ledger(parse);
    assert Cuts(CUT.source[1]);
    CutStopsAll(ledger, CUT, calls);
  }

  /** Pending rows that cannot be rendered stop every later summary: the watermark never passes them. */
  method UndatedStopsSummaries(ledger: Ledger, calls: seq<Call>)
    requires ledger.Valid() && !Renders(ledger.read, ledger.ledger[ledger.rows..])
    modifies ledger
    ensures ledger.Valid() && old(ledger.ledger) <= ledger.ledger && ledger.sent == old(ledger.sent)
    ensures ledger.rows == old(ledger.rows) && ledger.days == old(ledger.days)
  {
    ghost var pending := ledger.ledger[ledger.rows..];
    for i := 0 to |calls|
      invariant ledger.Valid() && ledger.sent == old(ledger.sent) && old(ledger.ledger) <= ledger.ledger
      invariant ledger.rows == old(ledger.rows) && ledger.days == old(ledger.days)
    {
      ghost var more := ledger.ledger[|old(ledger.ledger)|..];
      assert ledger.ledger[ledger.rows..] == pending + more;
      NeverRenders(ledger.read, pending, more);
      match calls[i]
      case RecordCall(row) =>
        var ok := ledger.Record(row);
      case SummarizeCall(now, delivers) =>
        var r := ledger.Summarize(now, delivers);
    }
  }

  const UNDATED := Row("mail", "a", "r1", "p", "2026-01-02", "soon")

  /** The same for a new ledger and one row whose time is no time. */
  method OneUndatedRow(parse: string -> Time, calls: seq<Call>) returns (ledger: Ledger)
    requires parse("soon") == Bad
    ensures ledger.ledger != [] && ledger.ledger[0] == UNDATED
    ensures ledger.sent == [] && ledger.rows == 0 && ledger.days == []
  {
    ledger := new Ledger(parse);
    var ok := ledger.Record(UNDATED);
    assert ledger.ledger[0..] == ledger.ledger == [UNDATED];
    assert parse(ledger.ledger[0].written) == Bad;
    UndatedStopsSummaries(ledger, calls);
  }
}
