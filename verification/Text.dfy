/** Decimal and hexadecimal text as Go's fmt and encoding/hex write them, and the
    facts about delimiters that make the repository's encodings readable back.
    Go's `string` and `[]byte` are both modelled as `string`; a byte is a char
    whose code is below 256. */
module Text {

  function DigitChar(d: nat): (c: char)
    requires d < 10
    ensures '0' <= c <= '9' && c as int - '0' as int == d
  {
    ('0' as int + d) as char
  }

  predicate IsDigit(c: char) {
    '0' <= c <= '9'
  }

  /** Base-ten text without sign or padding: Go's %d on a non-negative number. */
  function Decimal(n: nat): (s: string)
    ensures s != ""
    ensures forall i :: 0 <= i < |s| ==> IsDigit(s[i])
  {
    if n < 10 then [DigitChar(n)] else Decimal(n / 10) + [DigitChar(n % 10)]
  }

  /** The number a non-empty run of digits stands for. */
  function DecimalValue(s: string): (n: nat)
    requires forall i :: 0 <= i < |s| ==> IsDigit(s[i])
  {
    if s == "" then 0
    else
      assert IsDigit(s[|s| - 1]);
      DecimalValue(s[..|s| - 1]) * 10 + (s[|s| - 1] as int - '0' as int)
  }

  lemma {:induction false} DecimalRoundTrip(n: nat)
    ensures DecimalValue(Decimal(n)) == n
  {
    if n < 10 {
      assert Decimal(n)[..0] == "";
    } else {
      DecimalRoundTrip(n / 10);
      assert Decimal(n)[..|Decimal(n)| - 1] == Decimal(n / 10);
    }
  }

  lemma DecimalInjective(m: nat, n: nat)
    requires Decimal(m) == Decimal(n)
    ensures m == n
  {
    DecimalRoundTrip(m);
    DecimalRoundTrip(n);
  }

  predicate Free(s: string, c: char) {
    forall i :: 0 <= i < |s| ==> s[i] != c
  }

  /** Go's %d on any integer. */
  function FormatInt(n: int): (s: string)
    ensures s != ""
    ensures forall i :: 0 <= i < |s| ==> IsDigit(s[i]) || s[i] == '-'
  {
    if n < 0 then "-" + Decimal(-n) else Decimal(n)
  }

  lemma FormatIntInjective(m: int, n: int)
    requires FormatInt(m) == FormatInt(n)
    ensures m == n
  {
    assert FormatInt(m)[0] == '-' <==> m < 0;
    assert FormatInt(n)[0] == '-' <==> n < 0;
    if m >= 0 && n >= 0 {
      DecimalInjective(m, n);
    } else if m < 0 && n < 0 {
      assert FormatInt(m)[1..] == Decimal(-m) && FormatInt(n)[1..] == Decimal(-n);
      DecimalInjective(-m, -n);
    }
  }

  /** A text up to its first delimiter is determined by the whole. */
  lemma SplitAtDelimiter(a: string, x: string, b: string, y: string, c: char)
    requires Free(a, c) && Free(b, c)
    requires a + [c] + x == b + [c] + y
    ensures a == b && x == y
  {
    var l, r := a + [c] + x, b + [c] + y;
    assert l[|a|] == c && r[|b|] == c;
    assert a == l[..|a|] && b == r[..|b|];
    assert x == l[|a| + 1..] && y == r[|b| + 1..];
  }

  lemma SplitAtLength<T>(a: seq<T>, x: seq<T>, b: seq<T>, y: seq<T>)
    requires a + x == b + y
    requires |a| == |b| || |x| == |y|
    ensures a == b && x == y
  {
    var l, r := a + x, b + y;
    assert |l| == |a| + |x| && |r| == |b| + |y|;
    assert a == l[..|a|] && b == r[..|b|];
    assert x == l[|a|..] && y == r[|b|..];
  }

  predicate Bytes(s: string) {
    forall i :: 0 <= i < |s| ==> s[i] as int < 256
  }

  function HexChar(d: nat): (c: char)
    requires d < 16
  {
    if d < 10 then DigitChar(d) else ('a' as int + d - 10) as char
  }

  predicate IsHexChar(c: char) {
    '0' <= c <= '9' || 'a' <= c <= 'f'
  }

  predicate IsHex(s: string) {
    forall i :: 0 <= i < |s| ==> IsHexChar(s[i])
  }

  /** hex.EncodeToString: two lower-case digits for each byte. */
  function Hex(s: string): (t: string)
    requires Bytes(s)
    ensures |t| == 2 * |s| && IsHex(t)
  {
    if s == "" then ""
    else [HexChar(s[0] as int / 16), HexChar(s[0] as int % 16)] + Hex(s[1..])
  }

  lemma {:induction false} HexInjective(a: string, b: string)
    requires Bytes(a) && Bytes(b)
    requires Hex(a) == Hex(b)
    ensures a == b
  {
    if a != "" {
      var s, t := Hex(a), Hex(b);
      assert s[0] == HexChar(a[0] as int / 16) && s[1] == HexChar(a[0] as int % 16);
      assert t[0] == HexChar(b[0] as int / 16) && t[1] == HexChar(b[0] as int % 16);
      assert a[0] as int == b[0] as int;
      assert s[2..] == Hex(a[1..]) && t[2..] == Hex(b[1..]);
      HexInjective(a[1..], b[1..]);
      assert a == [a[0]] + a[1..] && b == [b[0]] + b[1..];
    }
  }
}
