/** The parts of Go's strings and strconv packages that several components use. */
module GoStrings {
  import opened Text
  import opened Wrappers

  const MAX_INT64: int := 0x7fff_ffff_ffff_ffff
  const MIN_INT64: int := -0x8000_0000_0000_0000

  /** unicode.IsSpace */
  predicate IsSpace(c: char) {
    c in {'\t', '\n', '\U{000B}', '\U{000C}', '\r', ' ', '\U{0085}', '\U{00A0}', '\U{1680}',
          '\U{2028}', '\U{2029}', '\U{202F}', '\U{205F}', '\U{3000}'}
    || '\U{2000}' <= c <= '\U{200A}'
  }

  function TrimLeft(s: string): (t: string)
    ensures t == "" || !IsSpace(t[0])
    ensures |t| <= |s|
  {
    if s != "" && IsSpace(s[0]) then TrimLeft(s[1..]) else s
  }

  function TrimRight(s: string): (t: string)
    ensures t == "" || !IsSpace(t[|t| - 1])
    ensures t <= s
  {
    if s != "" && IsSpace(s[|s| - 1]) then TrimRight(s[..|s| - 1]) else s
  }

  /** strings.TrimSpace */
  function TrimSpace(s: string): (t: string)
    ensures t == "" || (!IsSpace(t[0]) && !IsSpace(t[|t| - 1]))
  {
    TrimRight(TrimLeft(s))
  }

  lemma TrimSpaceNothing(s: string)
    requires s != "" && !IsSpace(s[0]) && !IsSpace(s[|s| - 1])
    ensures TrimSpace(s) == s
  {
  }

  predicate AllDigits(s: string) {
    forall i :: 0 <= i < |s| ==> IsDigit(s[i])
  }

  /** strconv.Atoi and strconv.ParseInt(s, 10, 64): an optional sign, digits, no overflow. */
  function ParseInt64(s: string): (r: Option<int>)
    ensures r.Some? ==> MIN_INT64 <= r.value <= MAX_INT64
  {
    if s == "" then None
    else
      var digits := if s[0] == '-' || s[0] == '+' then s[1..] else s;
      if digits == "" || !AllDigits(digits) then None
      else
        var n: int := DecimalValue(digits);
        var v := if s[0] == '-' then -n else n;
        if MIN_INT64 <= v <= MAX_INT64 then Some(v) else None
  }

  /** Reading back what %d wrote; beyond 64 bits it is refused. */
  lemma ParseFormatted(n: int)
    ensures ParseInt64(FormatInt(n)) == if MIN_INT64 <= n <= MAX_INT64 then Some(n) else None
  {
    if n < 0 {
      DecimalRoundTrip(-n);
      assert FormatInt(n)[1..] == Decimal(-n);
    } else {
      DecimalRoundTrip(n);
      assert IsDigit(FormatInt(n)[0]);
    }
  }

  // ----- the order of strings

  predicate Less(a: string, b: string) {
    b != "" && (a == "" || a[0] < b[0] || (a[0] == b[0] && Less(a[1..], b[1..])))
  }

  lemma {:induction false} LessIrreflexive(a: string)
    ensures !Less(a, a)
  {
    if a != "" {
      LessIrreflexive(a[1..]);
    }
  }

  lemma {:induction false} LessTransitive(a: string, b: string, c: string)
    requires Less(a, b) && Less(b, c)
    ensures Less(a, c)
  {
    if a != "" && a[0] == b[0] && b[0] == c[0] {
      LessTransitive(a[1..], b[1..], c[1..]);
    }
  }

  lemma {:induction false} LessTotal(a: string, b: string)
    ensures Less(a, b) || Less(b, a) || a == b
  {
    if a != "" && b != "" && a[0] == b[0] {
      LessTotal(a[1..], b[1..]);
      assert a == [a[0]] + a[1..] && b == [b[0]] + b[1..];
    }
  }

  /** The texts agree up to n, where the first ends or has the smaller character. */
  predicate SmallerAt(a: string, b: string, n: nat) {
    n <= |a| && n < |b| && a[..n] == b[..n] && (n == |a| || a[n] < b[n])
  }

  lemma {:induction false} LessAt(a: string, b: string, n: nat)
    requires SmallerAt(a, b, n)
    ensures Less(a, b)
  {
    if n > 0 {
      assert a[0] == a[..n][0] == b[0];
      assert a[1..][..n - 1] == a[..n][1..] && b[1..][..n - 1] == b[..n][1..];
      LessAt(a[1..], b[1..], n - 1);
    }
  }

  lemma {:induction false} LessSomewhere(a: string, b: string) returns (n: nat)
    requires Less(a, b)
    ensures SmallerAt(a, b, n)
  {
    if a == "" || a[0] < b[0] {
      n := 0;
    } else {
      var m := LessSomewhere(a[1..], b[1..]);
      n := m + 1;
      assert a[..n] == [a[0]] + a[1..][..m] && b[..n] == [b[0]] + b[1..][..m];
    }
  }

  // ----- doubling a quote character

  /** strings.ReplaceAll(s, q, qq) */
  function Doubled(s: string, q: char): (t: string) {
    if s == "" then "" else (if s[0] == q then [q, q] else [s[0]]) + Doubled(s[1..], q)
  }

  /** strings.ReplaceAll(s, qq, q): from the left, pairs do not overlap. */
  function Undoubled(s: string, q: char): (t: string) {
    if |s| < 2 then s
    else if s[0] == q && s[1] == q then [q] + Undoubled(s[2..], q)
    else [s[0]] + Undoubled(s[1..], q)
  }

  lemma {:induction false} DoubledRoundTrip(s: string, q: char)
    ensures Undoubled(Doubled(s, q), q) == s
  {
    if s != "" {
      DoubledRoundTrip(s[1..], q);
      var d, rest := Doubled(s, q), Doubled(s[1..], q);
      if s[0] == q {
        assert d[2..] == rest;
      } else {
        assert d[1..] == rest;
        assert rest == "" ==> s[1..] == "";
      }
      assert s == [s[0]] + s[1..];
    }
  }

  /** How SQL reads a quoted text after its opening quote: the value, and what follows the closing quote. */
  function ReadQuoted(s: string, q: char): (r: Option<(string, string)>)
    ensures r.Some? ==> |r.value.1| < |s|
  {
    if s == "" then None
    else if s[0] != q then
      var r := ReadQuoted(s[1..], q);
      if r.None? then None else Some(([s[0]] + r.value.0, r.value.1))
    else if |s| >= 2 && s[1] == q then
      var r := ReadQuoted(s[2..], q);
      if r.None? then None else Some(([s[0]] + r.value.0, r.value.1))
    else Some(("", s[1..]))
  }

  /** A text with its quotes doubled reads back, whatever characters it holds. */
  lemma {:induction false} QuotedReadsBack(v: string, q: char, rest: string)
    requires rest == "" || rest[0] != q
    ensures ReadQuoted(Doubled(v, q) + [q] + rest, q) == Some((v, rest))
  {
    var s := Doubled(v, q) + [q] + rest;
    if v == "" {
      assert s == [q] + rest;
    } else {
      var tail := Doubled(v[1..], q) + [q] + rest;
      QuotedReadsBack(v[1..], q, rest);
      if v[0] == q {
        assert s == [q, q] + tail;
        assert s[2..] == tail;
      } else {
        assert s == [v[0]] + tail;
        assert s[1..] == tail;
      }
      assert [v[0]] + v[1..] == v;
    }
  }
}
