/** `automation/peer_signed_attestation.py`: printing, parsing and accepting a signed attestation.
    The signature scheme is a parameter. */
module Attestation {
  import opened Text
  import opened Timestamp
  import opened Calendar

  const HEADER := "autophagy-peer-attest-v1"
  const REVIEWER_LINE := "reviewer=peer-sandbox-v1"
  const BEGIN := "-----BEGIN SSH SIGNATURE-----"
  const END := "-----END SSH SIGNATURE-----"

  datatype Payload = Payload(request: string, skill: string, digest: string, verdict: string, at: Instant,
                             channel: string, message: string)

  datatype Record = Record(payload: Payload, preimage: string, signature: string)

  datatype Expectation = Expectation(channel: string, message: string, nonce: string, skill: string, digest: string,
                                     requestedAt: int, now: int, ttl: int)

  // ---------------------------------------------------------------- the patterns of the fields

  predicate LowerHex(c: char) { IsDigit(c) || 'a' <= c <= 'f' }

  predicate Hex(s: string, width: nat) { |s| == width && forall i :: 0 <= i < |s| ==> LowerHex(s[i]) }

  predicate SkillStart(c: char) { IsDigit(c) || 'a' <= c <= 'z' }

  predicate SkillName(s: string) {
    2 <= |s| <= 41 && SkillStart(s[0]) && forall i :: 0 <= i < |s| ==> SkillStart(s[i]) || s[i] == '-'
  }

  predicate Snowflake(s: string) { Numeral(s) && |s| <= 20 }

  predicate Base64Char(c: char) { IsDigit(c) || 'a' <= c <= 'z' || 'A' <= c <= 'Z' || c == '+' || c == '/' || c == '=' }

  predicate Base64(s: string) { s != "" && forall i :: 0 <= i < |s| ==> Base64Char(s[i]) }

  /** A payload that prints as a record prescribes. */
  predicate Canonical(p: Payload) {
    && Hex(p.request, 32) && SkillName(p.skill) && Hex(p.digest, 64) && p.verdict in ["PASS", "FAIL"]
    && IsInstant(p.at) && p.at.date.year >= 1000 && Snowflake(p.channel) && Snowflake(p.message)
  }

  /** The lines of a signature, the last of them ended. */
  predicate SignatureLines(lines: seq<string>) {
    var n := |lines|;
    && n >= 4 && lines[0] == BEGIN && lines[n - 2] == END && lines[n - 1] == ""
    && forall k :: 1 <= k < n - 2 ==> Base64(lines[k])
  }

  predicate SignatureBlock(s: string) { SignatureLines(Split(s, '\n')) }

  // ---------------------------------------------------------------- printing and parsing

  function PreimageLines(p: Payload): seq<string> {
    [HEADER, "request=" + p.request, "skill=" + p.skill, "sha256=" + p.digest, "verdict=" + p.verdict, REVIEWER_LINE,
     "attested_at=" + Stamp(p.at), "approval_channel=" + p.channel, "approval_message=" + p.message]
  }

  /** Every line with its line break. */
  function Preimage(p: Payload): string { Join(PreimageLines(p), '\n') + "\n" }

  function Normalized(signature: string): string {
    if signature != "" && signature[|signature| - 1] == '\n' then signature else signature + "\n"
  }

  /** A fixed prefix, then a field of the pattern. */
  predicate Has(line: string, prefix: string, pattern: string -> bool) {
    prefix <= line && pattern(line[|prefix|..])
  }

  predicate PreimageShape(lines: seq<string>) {
    && |lines| == 9 && lines[0] == HEADER && lines[5] == REVIEWER_LINE
    && Has(lines[1], "request=", s => Hex(s, 32)) && Has(lines[2], "skill=", SkillName)
    && Has(lines[3], "sha256=", s => Hex(s, 64)) && Has(lines[4], "verdict=", s => s == "PASS" || s == "FAIL")
    && Has(lines[6], "attested_at=", IsStamp)
    && Has(lines[7], "approval_channel=", Snowflake) && Has(lines[8], "approval_message=", Snowflake)
  }

  /** `parse_signed_attestation`: no pattern admits a line break, so the expression matches line by line. */
  function Parse(blob: string): Option<Record> {
    var lines := Split(blob, '\n');
    if |lines| < 9 || !PreimageShape(lines[..9]) || !SignatureLines(lines[9..]) then None
    else
      var at := ReadStamp(lines[6][12..]);
      if at.None? then None
      else
        var payload := Payload(lines[1][8..], lines[2][6..], lines[3][7..], lines[4][8..], at.value,
                               lines[7][17..], lines[8][17..]);
        Some(Record(payload, Join(lines[..9], '\n') + "\n", Join(lines[9..], '\n')))
  }

  /** `format_signed_attestation`; `None` is the `SignedAttestationFormatError`. */
  function Format(p: Payload, signature: string): Option<string> {
    var blob := Preimage(p) + Normalized(signature);
    if Parse(blob).None? then None else Some(blob)
  }

  /** `valid_signed_attestation` */
  predicate Accepts(blob: string, e: Expectation, verify: (string, string) -> bool) {
    var r := Parse(blob);
    && r.Some?
    && r.value.payload.request == e.nonce && r.value.payload.skill == e.skill && r.value.payload.digest == e.digest
    && r.value.payload.verdict == "PASS" && r.value.payload.channel == e.channel && r.value.payload.message == e.message
    && e.requestedAt <= Micros(r.value.payload.at) <= e.now && e.now <= Micros(r.value.payload.at) + e.ttl
    && verify(r.value.preimage, r.value.signature)
  }

  // ---------------------------------------------------------------- round trips

  lemma FieldsHaveNoBreak(p: Payload)
    requires Canonical(p)
    ensures '\n' !in p.request && '\n' !in p.skill && '\n' !in p.digest && '\n' !in p.verdict
    ensures '\n' !in Stamp(p.at) && '\n' !in p.channel && '\n' !in p.message
  {
    StampReads(p.at);
    StampHasNoBreak(Stamp(p.at));
  }

  lemma PrefixedHasNoBreak(prefix: string, s: string)
    requires '\n' !in prefix && '\n' !in s
    ensures '\n' !in prefix + s
  {
  }

  lemma NoBreaks(p: Payload)
    requires Canonical(p)
    ensures forall k :: 0 <= k < 9 ==> '\n' !in PreimageLines(p)[k]
  {
    FieldsHaveNoBreak(p);
    PrefixedHasNoBreak("request=", p.request);
    PrefixedHasNoBreak("skill=", p.skill);
    PrefixedHasNoBreak("sha256=", p.digest);
    PrefixedHasNoBreak("verdict=", p.verdict);
    PrefixedHasNoBreak("attested_at=", Stamp(p.at));
    PrefixedHasNoBreak("approval_channel=", p.channel);
    PrefixedHasNoBreak("approval_message=", p.message);
  }

  lemma StampHasNoBreak(s: string)
    requires IsStamp(s)
    ensures '\n' !in s
  {
    forall i | 0 <= i < 27 ensures s[i] != '\n' {
      if i < 4 { assert s[i] == s[0..4][i]; }
      else if 5 <= i < 7 { assert s[i] == s[5..7][i - 5]; }
      else if 8 <= i < 10 { assert s[i] == s[8..10][i - 8]; }
      else if 11 <= i < 13 { assert s[i] == s[11..13][i - 11]; }
      else if 14 <= i < 16 { assert s[i] == s[14..16][i - 14]; }
      else if 17 <= i < 19 { assert s[i] == s[17..19][i - 17]; }
      else if 20 <= i < 26 { assert s[i] == s[20..26][i - 20]; }
    }
  }

  /** The lines of a record are those of its preimage and those of its signature. */
  lemma RecordLines(p: Payload, signature: string)
    requires Canonical(p)
    ensures Split(Preimage(p) + signature, '\n') == PreimageLines(p) + Split(signature, '\n')
  {
    NoBreaks(p);
    SplitJoin(PreimageLines(p), '\n');
    SplitConcat(Join(PreimageLines(p), '\n'), signature, '\n');
    assert Preimage(p) + signature == Join(PreimageLines(p), '\n') + ['\n'] + signature;
  }

  lemma AfterPrefix(prefix: string, s: string)
    ensures prefix <= prefix + s && (prefix + s)[|prefix|..] == s
  {
  }

  lemma LinesHaveShape(p: Payload)
    requires Canonical(p)
    ensures PreimageShape(PreimageLines(p))
  {
    StampReads(p.at);
    AfterPrefix("request=", p.request);
    AfterPrefix("skill=", p.skill);
    AfterPrefix("sha256=", p.digest);
    AfterPrefix("verdict=", p.verdict);
    AfterPrefix("attested_at=", Stamp(p.at));
    AfterPrefix("approval_channel=", p.channel);
    AfterPrefix("approval_message=", p.message);
  }

  /** A printed record is parsed into what was printed. */
  lemma PrintedIsParsed(p: Payload, signature: string)
    requires Canonical(p) && SignatureBlock(signature)
    ensures Parse(Preimage(p) + signature) == Some(Record(p, Preimage(p), signature))
  {
    var lines := Split(Preimage(p) + signature, '\n');
    RecordLines(p, signature);
    assert lines[..9] == PreimageLines(p) && lines[9..] == Split(signature, '\n');
    LinesHaveShape(p);
    JoinSplit(signature, '\n');
    StampReads(p.at);
    assert lines[1] == "request=" + p.request && lines[2] == "skill=" + p.skill && lines[3] == "sha256=" + p.digest;
    assert lines[4] == "verdict=" + p.verdict && lines[6] == "attested_at=" + Stamp(p.at);
    assert lines[7] == "approval_channel=" + p.channel && lines[8] == "approval_message=" + p.message;
  }

  lemma ParsedParts(blob: string)
    requires Parse(blob).Some?
    ensures var r := Parse(blob).value;
            && blob == r.preimage + r.signature && SignatureBlock(r.signature)
            && IsInstant(r.payload.at) && (r.payload.at.date.year >= 1000 ==> Canonical(r.payload))
  {
    var lines := Split(blob, '\n');
    var front, back := lines[..9], lines[9..];
    SplitPieces(blob, '\n');
    SplitJoin(back, '\n');
    JoinSplit(blob, '\n');
    JoinTwo(front, back, '\n');
    assert lines == front + back;
  }

  lemma {:induction false} JoinTwo(a: seq<string>, b: seq<string>, sep: char)
    requires |a| >= 1 && |b| >= 1
    ensures Join(a + b, sep) == Join(a, sep) + [sep] + Join(b, sep)
  {
    if |a| == 1 {
      JoinCons(a[0], b, sep);
      assert a == [a[0]];
    } else {
      JoinTwo(a[1..], b, sep);
      assert (a + b)[1..] == a[1..] + b;
    }
  }

  lemma PrefixBack(prefix: string, line: string)
    requires prefix <= line
    ensures prefix + line[|prefix|..] == line
  {
  }

  /** The parsed payload prints the lines that were read, but for the year. */
  lemma LinesBack(front: seq<string>, p: Payload)
    requires PreimageShape(front) && ReadStamp(front[6][12..]) == Some(p.at)
    requires p.request == front[1][8..] && p.skill == front[2][6..] && p.digest == front[3][7..]
    requires p.verdict == front[4][8..] && p.channel == front[7][17..] && p.message == front[8][17..]
    ensures forall k :: 0 <= k < 9 && k != 6 ==> PreimageLines(p)[k] == front[k]
    ensures PreimageLines(p)[6] == front[6] <==> p.at.date.year >= 1000
  {
    PrefixBack("request=", front[1]);
    PrefixBack("skill=", front[2]);
    PrefixBack("sha256=", front[3]);
    PrefixBack("verdict=", front[4]);
    PrefixBack("attested_at=", front[6]);
    PrefixBack("approval_channel=", front[7]);
    PrefixBack("approval_message=", front[8]);
    ReadStamps(front[6][12..]);
    AfterPrefix("attested_at=", Stamp(p.at));
  }

  /** What was parsed prints as it was, for exactly the years of four digits. */
  lemma ParsedIsPrinted(blob: string)
    requires Parse(blob).Some?
    ensures var r := Parse(blob).value; Preimage(r.payload) == r.preimage <==> r.payload.at.date.year >= 1000
  {
    var r, front := Parse(blob).value, Split(blob, '\n')[..9];
    LinesBack(front, r.payload);
    SplitPieces(blob, '\n');
    if r.payload.at.date.year >= 1000 {
      assert PreimageLines(r.payload) == front;
    } else {
      OtherYear(r.payload, front);
    }
  }

  lemma OtherYear(p: Payload, front: seq<string>)
    requires |front| == 9 && forall k :: 0 <= k < 9 ==> '\n' !in front[k]
    requires forall k :: 0 <= k < 9 && k != 6 ==> PreimageLines(p)[k] == front[k]
    requires IsInstant(p.at) && PreimageLines(p)[6] != front[6]
    ensures Preimage(p) != Join(front, '\n') + "\n"
  {
    var mine := PreimageLines(p);
    assert '\n' !in mine[6];
    SplitJoin(mine, '\n');
    SplitJoin(front, '\n');
    assert Preimage(p)[..|Preimage(p)| - 1] == Join(mine, '\n');
    var other := Join(front, '\n') + "\n";
    assert other[..|other| - 1] == Join(front, '\n');
  }

  /** The round trip holds for exactly the canonical payloads with a well-formed signature. */
  lemma RoundTrip(p: Payload, signature: string)
    ensures Parse(Preimage(p) + Normalized(signature)) == Some(Record(p, Preimage(p), Normalized(signature)))
       <==> Canonical(p) && SignatureBlock(Normalized(signature))
    ensures Canonical(p) && SignatureBlock(Normalized(signature))
      ==> Format(p, signature) == Some(Preimage(p) + Normalized(signature))
  {
    var blob := Preimage(p) + Normalized(signature);
    if Canonical(p) && SignatureBlock(Normalized(signature)) {
      PrintedIsParsed(p, Normalized(signature));
    }
    if Parse(blob) == Some(Record(p, Preimage(p), Normalized(signature))) {
      ParsedParts(blob);
      ParsedIsPrinted(blob);
    }
  }

  function Zeros(n: nat): string { seq(n, _ => '0') }

  function PayloadOf(year: nat): Payload {
    Payload(Zeros(32), "mail", Zeros(64), "PASS", Instant(Date(year, 1, 1), 0, 0, 0, 0), "1", "2")
  }

  /** Canonical in all but, before the year 1000, the year. */
  lemma SampleIsCanonical(year: nat)
    requires 1 <= year <= 9999
    ensures Canonical(PayloadOf(year)) <==> year >= 1000
  {
  }

  lemma NotCanonicalIsLost(p: Payload, signature: string)
    requires !Canonical(p)
    ensures Parse(Preimage(p) + Normalized(signature)) != Some(Record(p, Preimage(p), Normalized(signature)))
  {
    RoundTrip(p, signature);
  }

  /** The year 999 is printed with three digits and is not read back, whatever the signature. */
  lemma EarlyYearIsLost(signature: string)
    ensures Parse(Preimage(PayloadOf(999)) + Normalized(signature))
         != Some(Record(PayloadOf(999), Preimage(PayloadOf(999)), Normalized(signature)))
  {
    SampleIsCanonical(999);
    NotCanonicalIsLost(PayloadOf(999), signature);
  }

  // ---------------------------------------------------------------- what a signature binds

  lemma SomeSignature() returns (signature: string)
    ensures SignatureBlock(signature)
  {
    var lines := [BEGIN, "A", END, ""];
    signature := Join(lines, '\n');
    SplitJoin(lines, '\n');
  }

  /** Distinct canonical payloads have distinct preimages. */
  lemma PreimageInjective(p: Payload, q: Payload)
    requires Canonical(p) && Canonical(q) && Preimage(p) == Preimage(q)
    ensures p == q
  {
    var signature := SomeSignature();
    PrintedIsParsed(p, signature);
    PrintedIsParsed(q, signature);
  }

  ghost predicate Signed(signed: set<Payload>, preimage: string) { exists p :: p in signed && preimage == Preimage(p) }

  /** With signatures that verify only for what was signed, an accepted record carries a signed payload
      that says exactly what was expected: nonce, skill, digest, verdict, channel and message. */
  lemma AcceptedWasSigned(blob: string, e: Expectation, verify: (string, string) -> bool, signed: set<Payload>)
    returns (p: Payload)
    requires forall p :: p in signed ==> Canonical(p)
    requires forall preimage, signature :: verify(preimage, signature) ==> Signed(signed, preimage)
    requires Accepts(blob, e, verify)
    ensures p in signed && p.request == e.nonce && p.skill == e.skill && p.digest == e.digest && p.verdict == "PASS"
    ensures p.channel == e.channel && p.message == e.message
    ensures e.requestedAt <= Micros(p.at) <= e.now <= Micros(p.at) + e.ttl
  {
    var r := Parse(blob).value;
    assert Signed(signed, r.preimage);
    p :| p in signed && r.preimage == Preimage(p);
    ParsedParts(blob);
    PrintedIsParsed(p, r.signature);
  }

  /** Whoever has signed one canonical payload only is accepted for one expectation only. */
  lemma AcceptedForOne(a: string, b: string, e: Expectation, f: Expectation, verify: (string, string) -> bool,
                       p: Payload)
    requires Canonical(p) && forall preimage, signature :: verify(preimage, signature) ==> preimage == Preimage(p)
    requires Accepts(a, e, verify) && Accepts(b, f, verify)
    ensures e.nonce == f.nonce && e.skill == f.skill && e.digest == f.digest && e.channel == f.channel
    ensures e.message == f.message
  {
    forall preimage, signature | verify(preimage, signature) ensures Signed({p}, preimage) {
      assert p in {p};
    }
    var x := AcceptedWasSigned(a, e, verify, {p});
    var y := AcceptedWasSigned(b, f, verify, {p});
  }

  /** A printed record of a canonical payload is accepted if and only if the payload passes, says what is expected
      and is not too old or too new, and the signature verifies over its preimage. */
  lemma PrintedIsAccepted(p: Payload, signature: string, e: Expectation, verify: (string, string) -> bool)
    requires Canonical(p) && SignatureBlock(Normalized(signature))
    ensures Format(p, signature) == Some(Preimage(p) + Normalized(signature))
    ensures Accepts(Preimage(p) + Normalized(signature), e, verify)
       <==> && p.request == e.nonce && p.skill == e.skill && p.digest == e.digest && p.verdict == "PASS"
            && p.channel == e.channel && p.message == e.message
            && e.requestedAt <= Micros(p.at) && Micros(p.at) <= e.now && e.now - Micros(p.at) <= e.ttl
            && verify(Preimage(p), Normalized(signature))
  {
    RoundTrip(p, signature);
    PrintedIsParsed(p, Normalized(signature));
  }

  lemma TwoWide()
    ensures Fixed(0, 2) == "00" && Fixed(1, 2) == "01"
  {
    assert Fixed(0, 1) == "0";
  }

  lemma SixWide()
    ensures Fixed(0, 6) == "000000"
  {
    assert Fixed(0, 1) == "0";
    assert Fixed(0, 2) == "00";
    assert Fixed(0, 3) == "000";
    assert Fixed(0, 4) == "0000";
    assert Fixed(0, 5) == "00000";
  }

  lemma NewYearStamp()
    ensures Stamp(Instant(Date(2026, 1, 1), 0, 0, 0, 0)) == Layout("2026", "01", "01", "00", "00", "00", "000000")
  {
    Year2026();
    TwoWide();
    SixWide();
  }

  /** The lines of one record. */
  lemma SampleLines()
    ensures PreimageLines(PayloadOf(2026))
         == ["autophagy-peer-attest-v1", "request=" + Zeros(32), "skill=" + "mail", "sha256=" + Zeros(64),
             "verdict=" + "PASS", "reviewer=peer-sandbox-v1",
             "attested_at=" + Layout("2026", "01", "01", "00", "00", "00", "000000"),
             "approval_channel=" + "1", "approval_message=" + "2"]
    ensures Canonical(PayloadOf(2026))
  {
    NewYearStamp();
    SampleIsCanonical(2026);
  }
}
