/** The string operations that the Python sources lean on: `str.split`, `str.partition`,
    `str.join` and decimal numerals, with the laws that let printed text be read back. */
module Text {

  datatype Option<+T> = None | Some(value: T)

  datatype Result<+T> = Ok(value: T) | Err

  // ---------------------------------------------------------------- ends of sequences

  function Front<T>(s: seq<T>): seq<T>
    requires s != []
  {
    s[..|s| - 1]
  }

  function Last<T>(s: seq<T>): T
    requires s != []
  {
    s[|s| - 1]
  }

  // ---------------------------------------------------------------- whitespace

  /** The characters that Python's `str.isspace`, `str.strip` and `str.split` treat as blank. */
  predicate IsSpace(c: char) {
    || '\t' <= c <= '\r' || '\U{1c}' <= c <= ' ' || c == '\U{85}' || c == '\U{a0}'
    || c == '\U{1680}' || '\U{2000}' <= c <= '\U{200a}' || c == '\U{2028}' || c == '\U{2029}'
    || c == '\U{202f}' || c == '\U{205f}' || c == '\U{3000}'
  }

  predicate Blank(s: string) { forall i :: 0 <= i < |s| ==> IsSpace(s[i]) }

  /** `s.split()`: the maximal runs of non-blank characters. */
  function Words(s: string): (r: seq<string>)
    ensures forall i :: 0 <= i < |r| ==> r[i] != ""
    ensures forall i, j :: 0 <= i < |r| && 0 <= j < |r[i]| ==> !IsSpace(r[i][j])
  {
    if s == "" then []
    else if IsSpace(s[0]) then Words(s[1..])
    else
      var rest := Words(s[1..]);
      if |s| > 1 && !IsSpace(s[1]) && rest != [] then [[s[0]] + rest[0]] + rest[1..] else [[s[0]]] + rest
  }

  /** A blank separates words and belongs to none. */
  lemma {:induction false} WordsConcat(a: string, c: char, b: string)
    requires IsSpace(c)
    ensures Words(a + [c] + b) == Words(a) + Words(b)
  {
    if a == "" {
      assert ([c] + b)[1..] == b && a + [c] + b == [c] + b;
    } else {
      assert (a + [c] + b)[1..] == a[1..] + [c] + b;
      WordsConcat(a[1..], c, b);
    }
  }

  /** Text without blanks is one word. */
  lemma {:induction false} OneWord(s: string)
    requires s != "" && forall i :: 0 <= i < |s| ==> !IsSpace(s[i])
    ensures Words(s) == [s]
  {
    if |s| > 1 {
      OneWord(s[1..]);
      assert s == [s[0]] + s[1..];
    } else {
      assert s[1..] == "" && s == [s[0]];
    }
  }

  // ---------------------------------------------------------------- split and join

  /** `s.split(sep)` for a one-character separator. */
  function Split(s: string, sep: char): (r: seq<string>)
    ensures |r| >= 1
  {
    if s == "" then [""]
    else
      var rest := Split(s[1..], sep);
      if s[0] == sep then [""] + rest else [[s[0]] + rest[0]] + rest[1..]
  }

  lemma {:induction false} SplitPieces(s: string, sep: char)
    ensures forall i :: 0 <= i < |Split(s, sep)| ==> sep !in Split(s, sep)[i]
  {
    if s != "" {
      SplitPieces(s[1..], sep);
    }
  }

  /** `sep.join(parts)` for a one-character separator. */
  function Join(parts: seq<string>, sep: char): (r: string) {
    if |parts| == 0 then "" else if |parts| == 1 then parts[0]
    else parts[0] + [sep] + Join(parts[1..], sep)
  }

  lemma SplitSingle(s: string, sep: char)
    requires sep !in s
    ensures Split(s, sep) == [s]
  {
    if s != "" {
      SplitSingle(s[1..], sep);
      assert s == [s[0]] + s[1..];
    }
  }

  lemma SplitStep(c: char, s: string, sep: char)
    ensures Split([c] + s, sep)
         == if c == sep then [""] + Split(s, sep) else [[c] + Split(s, sep)[0]] + Split(s, sep)[1..]
  {
    assert ([c] + s)[1..] == s;
  }

  /** A separator cuts the split in two. */
  lemma {:induction false} SplitConcat(a: string, b: string, sep: char)
    ensures Split(a + [sep] + b, sep) == Split(a, sep) + Split(b, sep)
  {
    if a == "" {
      SplitStep(sep, b, sep);
      assert a + [sep] + b == [sep] + b;
    } else {
      var c, t := a[0], a[1..];
      SplitConcat(t, b, sep);
      SplitStep(c, t, sep);
      SplitStep(c, t + [sep] + b, sep);
      assert a == [c] + t && a + [sep] + b == [c] + (t + [sep] + b);
      Regroup(c, Split(t, sep), Split(b, sep));
    }
  }

  lemma Regroup(c: char, left: seq<string>, right: seq<string>)
    requires |left| >= 1
    ensures [[c] + (left + right)[0]] + (left + right)[1..] == [[c] + left[0]] + left[1..] + right
    ensures [""] + (left + right) == [""] + left + right
  {
  }

  /** Joining pieces that do not contain the separator can be undone. */
  lemma {:induction false} SplitJoin(parts: seq<string>, sep: char)
    requires |parts| >= 1
    requires forall i :: 0 <= i < |parts| ==> sep !in parts[i]
    ensures Split(Join(parts, sep), sep) == parts
  {
    SplitSingle(parts[0], sep);
    if |parts| > 1 {
      SplitJoin(parts[1..], sep);
      SplitConcat(parts[0], Join(parts[1..], sep), sep);
      assert parts == [parts[0]] + parts[1..];
    }
  }

  lemma JoinCons(a: string, rest: seq<string>, sep: char)
    requires |rest| >= 1
    ensures Join([a] + rest, sep) == a + [sep] + Join(rest, sep)
  {
    assert ([a] + rest)[1..] == rest;
  }

  lemma JoinThree(a: string, b: string, c: string, sep: char)
    ensures Join([a, b, c], sep) == a + [sep] + b + [sep] + c
  {
    JoinCons(b, [c], sep);
    JoinCons(a, [b, c], sep);
    assert [a, b, c] == [a] + [b, c] && [b, c] == [b] + [c];
    assert a + [sep] + (b + [sep] + c) == a + [sep] + b + [sep] + c;
  }

  /** The join of pieces is separator-free of every other character that the pieces avoid. */
  lemma {:induction false} JoinAvoids(parts: seq<string>, sep: char, c: char)
    requires c != sep
    requires forall i :: 0 <= i < |parts| ==> c !in parts[i]
    ensures c !in Join(parts, sep)
  {
    if |parts| > 1 {
      JoinAvoids(parts[1..], sep, c);
    }
  }

  // ---------------------------------------------------------------- partition

  function IndexOf(s: string, c: char): (i: nat)
    ensures i <= |s| && c !in s[..i] && (i < |s| ==> s[i] == c)
  {
    if s == "" || s[0] == c then 0
    else
      var rest := IndexOf(s[1..], c);
      assert s[..1 + rest] == [s[0]] + s[1..][..rest];
      1 + rest
  }

  /** `s.partition(c)`: the text before the first `c`, whether there is one, the text after it. */
  function Partition(s: string, c: char): (r: (string, bool, string))
    ensures c !in r.0
    ensures r.1 <==> c in s
    ensures if r.1 then s == r.0 + [c] + r.2 else s == r.0 && r.2 == ""
  {
    var i := IndexOf(s, c);
    if i < |s| then
      assert s == s[..i] + [c] + s[i + 1..];
      (s[..i], true, s[i + 1..])
    else
      assert s[..i] == s;
      (s, false, "")
  }

  lemma {:induction false} IndexOfFirst(a: string, c: char, b: string)
    requires c !in a
    ensures IndexOf(a + [c] + b, c) == |a|
  {
    if a != "" {
      assert (a + [c] + b)[1..] == a[1..] + [c] + b;
      IndexOfFirst(a[1..], c, b);
    }
  }

  lemma PartitionUnique(a: string, c: char, b: string)
    requires c !in a
    ensures Partition(a + [c] + b, c) == (a, true, b)
  {
    IndexOfFirst(a, c, b);
    var s := a + [c] + b;
    assert s[..|a|] == a && s[|a| + 1..] == b;
  }

  // ---------------------------------------------------------------- numerals

  predicate IsDigit(c: char) { '0' <= c <= '9' }

  /** `[0-9]+` */
  predicate Numeral(s: string) { s != "" && forall i :: 0 <= i < |s| ==> IsDigit(s[i]) }

  function Digit(c: char): nat
    requires IsDigit(c)
  {
    c as int - '0' as int
  }

  /** `int(s)` */
  function Value(s: string): nat
    requires forall i :: 0 <= i < |s| ==> IsDigit(s[i])
  {
    if s == "" then 0 else 10 * Value(s[..|s| - 1]) + Digit(s[|s| - 1])
  }

  /** `str(n)` */
  function Decimal(n: nat): (r: string)
    ensures Numeral(r) && Value(r) == n
  {
    if n < 10 then
      var d := ['0' + n as char];
      assert d[..|d| - 1] == "";
      d
    else
      var high := Decimal(n / 10);
      var r := high + ['0' + (n % 10) as char];
      assert r[..|r| - 1] == high;
      r
  }

  /** `f"{n:02d}"` */
  function TwoDigits(n: nat): (r: string)
    ensures Numeral(r) && Value(r) == n
  {
    if n < 10 then
      var r := "0" + Decimal(n);
      assert r[..|r| - 1] == "0" && r[0..1][..0] == "";
      r
    else Decimal(n)
  }

  function Power10(width: nat): nat { if width == 0 then 1 else 10 * Power10(width - 1) }

  /** `n` with leading zeros, `width` digits wide. */
  function Fixed(n: nat, width: nat): (r: string)
    ensures |r| == width && forall i :: 0 <= i < width ==> IsDigit(r[i])
  {
    if width == 0 then "" else Fixed(n / 10, width - 1) + ['0' + (n % 10) as char]
  }

  lemma {:induction false} FixedValue(n: nat, width: nat)
    requires n < Power10(width)
    ensures Value(Fixed(n, width)) == n
  {
    if width > 0 {
      FixedValue(n / 10, width - 1);
      var r := Fixed(n, width);
      assert r[..|r| - 1] == Fixed(n / 10, width - 1);
    }
  }

  lemma LastDigit(s: string)
    requires Numeral(s)
    ensures Value(s) % 10 == Digit(s[|s| - 1]) && Value(s) / 10 == Value(s[..|s| - 1])
  {
    Quotient(Value(s[..|s| - 1]), Digit(s[|s| - 1]));
  }

  lemma Quotient(q: nat, r: nat)
    requires r < 10
    ensures (10 * q + r) % 10 == r && (10 * q + r) / 10 == q
  {
  }

  lemma DigitInjective(a: char, b: char)
    requires IsDigit(a) && IsDigit(b) && Digit(a) == Digit(b)
    ensures a == b
  {
  }

  /** Digits of one width are told apart by their value. */
  lemma {:induction false} ValueInjective(a: string, b: string)
    requires |a| == |b| && forall i :: 0 <= i < |a| ==> IsDigit(a[i]) && IsDigit(b[i])
    requires Value(a) == Value(b)
    ensures a == b
  {
    if a != "" {
      var n := |a| - 1;
      LastDigit(a);
      LastDigit(b);
      DigitInjective(a[n], b[n]);
      ValueInjective(a[..n], b[..n]);
      assert a == a[..n] + [a[n]] && b == b[..n] + [b[n]];
    }
  }

  lemma {:induction false} ValueBelow(s: string)
    requires forall i :: 0 <= i < |s| ==> IsDigit(s[i])
    ensures Value(s) < Power10(|s|)
  {
    if s != "" {
      ValueBelow(s[..|s| - 1]);
    }
  }

  /** Splitting can be undone. */
  lemma {:induction false} JoinSplit(s: string, sep: char)
    ensures Join(Split(s, sep), sep) == s
  {
    if s != "" {
      JoinSplit(s[1..], sep);
      var rest := Split(s[1..], sep);
      assert s == [s[0]] + s[1..];
      if s[0] == sep {
        JoinCons("", rest, sep);
      } else {
        assert Split(s, sep)[1..] == rest[1..];
      }
    }
  }
}
