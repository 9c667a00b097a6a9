/** Identifier quoting and paired grants of internal/pgdiag/pgdiag.go. */
module PgIdent {
  import opened Wrappers
  import opened Text
  import opened GoStrings

  const QUOTE: char := '"'

  predicate NoControl(s: string) {
    forall i :: 0 <= i < |s| ==> s[i] as int >= 32
  }

  predicate IsLetter(c: char) {
    'A' <= c <= 'Z' || 'a' <= c <= 'z' || c == '_'
  }

  /** ^[A-Za-z_][A-Za-z0-9_$]*$ */
  predicate PlainIdent(s: string) {
    s != "" && IsLetter(s[0]) && forall i :: 0 <= i < |s| ==> IsLetter(s[i]) || IsDigit(s[i]) || s[i] == '$'
  }

  /** pgQuoteIdent */
  function QuoteIdent(name: string): (q: string)
    ensures |q| >= 2 && q[0] == QUOTE && q[|q| - 1] == QUOTE
  {
    [QUOTE] + Doubled(name, QUOTE) + [QUOTE]
  }

  /** cleanIdentPart */
  function CleanPart(part: string): (c: string) {
    var p := TrimSpace(part);
    if p == "" || !NoControl(p) then ""
    else if |p| >= 2 && p[0] == QUOTE && p[|p| - 1] == QUOTE then Undoubled(p[1..|p| - 1], QUOTE)
    else if PlainIdent(p) then p
    else ""
  }

  lemma {:induction false} DoubledControl(s: string)
    ensures NoControl(Doubled(s, QUOTE)) <==> NoControl(s)
  {
    if s != "" {
      DoubledControl(s[1..]);
      var d, rest := Doubled(s, QUOTE), Doubled(s[1..], QUOTE);
      var k := if s[0] == QUOTE then 2 else 1;
      assert d[k..] == rest;
      assert forall i :: k <= i < |d| ==> d[i] == rest[i - k];
      assert forall i :: 1 <= i < |s| ==> s[i] == s[1..][i - 1];
      assert d[0] == s[0];
      assert forall i :: 0 <= i < |rest| ==> rest[i] == d[i + k];
      assert forall i :: 0 <= i < |s| - 1 ==> s[1..][i] == s[i + 1];
    }
  }

  /** Cleaning undoes quoting, exactly for the names without control characters. */
  lemma CleanQuoted(s: string)
    ensures CleanPart(QuoteIdent(s)) == s <==> NoControl(s)
  {
    var q, d := QuoteIdent(s), Doubled(s, QUOTE);
    TrimSpaceNothing(q);
    DoubledRoundTrip(s, QUOTE);
    DoubledControl(s);
    assert q[1..|q| - 1] == d;
    assert forall i :: 0 <= i < |d| ==> q[i + 1] == d[i];
    assert NoControl(q) <==> NoControl(d) by {
      if NoControl(d) {
        forall i | 0 <= i < |q| ensures q[i] as int >= 32 {
          if 0 < i < |q| - 1 { assert q[i] == d[i - 1]; }
        }
      }
    }
  }

  // ----- splitting a qualified name

  /** The parts from here on between separators outside quotes, with `cur` read so far. */
  function SplitFrom(s: string, sep: char, inQuote: bool, cur: string): (parts: seq<string>)
    decreases |s|
  {
    if s == "" then (if cur != "" then [cur] else [])
    else if s[0] == QUOTE then SplitFrom(s[1..], sep, !inQuote, cur + [s[0]])
    else if s[0] == sep && !inQuote then [cur] + SplitFrom(s[1..], sep, false, "")
    else SplitFrom(s[1..], sep, inQuote, cur + [s[0]])
  }

  /** splitQualifiedIdent */
  method SplitQualified(name: string) returns (parts: seq<string>)
    ensures parts == SplitFrom(name, '.', false, "")
  {
    parts := [];
    var cur, inQuote := "", false;
    for i := 0 to |name|
      invariant SplitFrom(name, '.', false, "") == parts + SplitFrom(name[i..], '.', inQuote, cur)
    {
      assert name[i..][1..] == name[i + 1..];
      var r := name[i];
      if r == QUOTE {
        inQuote := !inQuote;
        cur := cur + [r];
      } else if r == '.' && !inQuote {
        parts := parts + [cur];
        cur := "";
      } else {
        cur := cur + [r];
      }
    }
    if |cur| > 0 {
      parts := parts + [cur];
    }
  }

  function Join(qs: seq<string>): string {
    if qs == [] then "" else if |qs| == 1 then qs[0] else qs[0] + "." + Join(qs[1..])
  }

  function QuoteAll(cs: seq<string>): (qs: seq<string>)
    ensures |qs| == |cs| && forall i :: 0 <= i < |cs| ==> qs[i] == QuoteIdent(cs[i])
  {
    seq(|cs|, i requires 0 <= i < |cs| => QuoteIdent(cs[i]))
  }

  function CleanAll(parts: seq<string>): (cs: seq<string>)
    ensures |cs| == |parts| && forall i :: 0 <= i < |cs| ==> cs[i] == CleanPart(parts[i])
  {
    seq(|parts|, i requires 0 <= i < |parts| => CleanPart(parts[i]))
  }

  /** What sanitizeQualified returns: the empty text refuses the name. */
  function SanitizeQualified(name: string): (q: string) {
    var parts := SplitFrom(TrimSpace(name), '.', false, "");
    if TrimSpace(name) == "" || parts == [] || "" in CleanAll(parts) then "" else Join(QuoteAll(CleanAll(parts)))
  }

  /** sanitizeQualified */
  method Sanitize(name: string) returns (q: string)
    ensures q == SanitizeQualified(name)
  {
    var trimmed := TrimSpace(name);
    if trimmed == "" {
      return "";
    }
    var parts := SplitQualified(trimmed);
    if |parts| == 0 {
      return "";
    }
    var quoted: seq<string> := [];
    for i := 0 to |parts|
      invariant |quoted| == i
      invariant forall j :: 0 <= j < i ==> CleanPart(parts[j]) != "" && quoted[j] == QuoteIdent(CleanPart(parts[j]))
    {
      var clean := CleanPart(parts[i]);
      if clean == "" {
        assert CleanAll(parts)[i] == "";
        return "";
      }
      quoted := quoted + [QuoteIdent(clean)];
    }
    assert quoted == QuoteAll(CleanAll(parts));
    q := Join(quoted);
  }

  /** Inside quotes a doubled text is read as it is, separators and quotes included. */
  lemma {:induction false} ScanDoubled(c: string, sep: char, rest: string, cur: string)
    ensures SplitFrom(Doubled(c, QUOTE) + rest, sep, true, cur) == SplitFrom(rest, sep, true, cur + Doubled(c, QUOTE))
    decreases |c|
  {
    var d := Doubled(c, QUOTE);
    if c == "" {
      assert d + rest == rest && cur + d == cur;
    } else {
      var tail := Doubled(c[1..], QUOTE);
      if c[0] == QUOTE {
        assert (d + rest)[1..] == [QUOTE] + (tail + rest);
        assert ([QUOTE] + (tail + rest))[1..] == tail + rest;
        ScanDoubled(c[1..], sep, rest, cur + [QUOTE] + [QUOTE]);
        assert cur + [QUOTE] + [QUOTE] + tail == cur + d;
      } else {
        assert (d + rest)[1..] == tail + rest;
        ScanDoubled(c[1..], sep, rest, cur + [c[0]]);
        assert cur + [c[0]] + tail == cur + d;
      }
    }
  }

  lemma ScanQuoted(c: string, sep: char, rest: string, cur: string)
    ensures SplitFrom(QuoteIdent(c) + rest, sep, false, cur) == SplitFrom(rest, sep, false, cur + QuoteIdent(c))
  {
    var d := Doubled(c, QUOTE);
    assert (QuoteIdent(c) + rest)[1..] == d + ([QUOTE] + rest);
    ScanDoubled(c, sep, [QUOTE] + rest, cur + [QUOTE]);
    assert ([QUOTE] + rest)[1..] == rest;
    assert cur + [QUOTE] + d + [QUOTE] == cur + QuoteIdent(c);
  }

  /** Splitting the joined quoted parts gives them back. */
  lemma {:induction false} SplitJoined(cs: seq<string>)
    requires cs != []
    ensures SplitFrom(Join(QuoteAll(cs)), '.', false, "") == QuoteAll(cs)
    decreases |cs|
  {
    var qs := QuoteAll(cs);
    if |cs| == 1 {
      ScanQuoted(cs[0], '.', "", "");
      assert QuoteIdent(cs[0]) + "" == QuoteIdent(cs[0]) && "" + QuoteIdent(cs[0]) == QuoteIdent(cs[0]);
    } else {
      assert qs[1..] == QuoteAll(cs[1..]);
      SplitJoined(cs[1..]);
      var rest := "." + Join(qs[1..]);
      assert Join(qs) == qs[0] + rest;
      ScanQuoted(cs[0], '.', rest, "");
      assert rest[1..] == Join(qs[1..]) && "" + QuoteIdent(cs[0]) == QuoteIdent(cs[0]);
    }
  }

  lemma JoinEnds(qs: seq<string>)
    requires qs != [] && forall i :: 0 <= i < |qs| ==> |qs[i]| >= 2 && qs[i][0] == QUOTE && qs[i][|qs[i]| - 1] == QUOTE
    ensures |Join(qs)| >= 2 && Join(qs)[0] == QUOTE && Join(qs)[|Join(qs)| - 1] == QUOTE
  {
    if |qs| > 1 {
      JoinEnds(qs[1..]);
    }
  }

  lemma {:induction false} UndoubledControl(s: string)
    requires NoControl(s)
    ensures NoControl(Undoubled(s, QUOTE))
  {
    if |s| >= 2 {
      if s[0] == QUOTE && s[1] == QUOTE {
        UndoubledControl(s[2..]);
      } else {
        UndoubledControl(s[1..]);
      }
    }
  }

  lemma CleanHasNoControl(p: string)
    ensures NoControl(CleanPart(p))
  {
    var t := TrimSpace(p);
    if |t| >= 2 && NoControl(t) {
      UndoubledControl(t[1..|t| - 1]);
    }
  }

  /** Sanitising an accepted name again changes nothing, whatever dots and quotes its identifiers hold. */
  lemma SanitizeIdempotent(name: string)
    requires SanitizeQualified(name) != ""
    ensures SanitizeQualified(SanitizeQualified(name)) == SanitizeQualified(name)
  {
    var cs := CleanAll(SplitFrom(TrimSpace(name), '.', false, ""));
    var qs := QuoteAll(cs);
    var q := Join(qs);
    JoinEnds(qs);
    TrimSpaceNothing(q);
    SplitJoined(cs);
    forall i | 0 <= i < |cs| ensures CleanPart(qs[i]) == cs[i] {
      CleanHasNoControl(SplitFrom(TrimSpace(name), '.', false, "")[i]);
      CleanQuoted(cs[i]);
    }
    assert CleanAll(qs) == cs;
  }

  // ----- names without quotes

  /** Letters, digits, underscores and dollar signs, no digit or dollar sign first. */
  predicate Unquoted(s: string) {
    && s != "" && !('0' <= s[0] <= '9') && s[0] != '$'
    && forall i :: 0 <= i < |s| ==> IdentChar(s[i])
  }

  predicate IdentChar(c: char) {
    'a' <= c <= 'z' || 'A' <= c <= 'Z' || '0' <= c <= '9' || c == '_' || c == '$'
  }

  /** A part that is not in quotes is accepted as it is if it is such a name, and else refused. */
  lemma CleanUnquoted(part: string)
    requires var p := TrimSpace(part); |p| < 2 || p[0] != QUOTE || p[|p| - 1] != QUOTE
    ensures CleanPart(part) == if Unquoted(TrimSpace(part)) then TrimSpace(part) else ""
  {
    var p := TrimSpace(part);
    assert Unquoted(p) <==> PlainIdent(p) by {
      assert forall c :: IdentChar(c) <==> IsLetter(c) || IsDigit(c) || c == '$';
    }
    if Unquoted(p) {
      assert NoControl(p) by {
        assert forall i :: 0 <= i < |p| ==> IdentChar(p[i]);
      }
    }
  }

  lemma UnquotedText(s: string)
    requires Unquoted(s)
    ensures !IsSpace(s[0]) && !IsSpace(s[|s| - 1]) && TrimSpace(s) == s && s[0] != QUOTE
  {
    assert IdentChar(s[0]) && IdentChar(s[|s| - 1]);
    TrimSpaceNothing(s);
  }

  lemma {:induction false} ScanUnquoted(w: string, rest: string, cur: string)
    requires forall i :: 0 <= i < |w| ==> IdentChar(w[i])
    ensures SplitFrom(w + rest, '.', false, cur) == SplitFrom(rest, '.', false, cur + w)
    decreases |w|
  {
    if w == "" {
      assert w + rest == rest && cur + w == cur;
    } else {
      assert IdentChar(w[0]);
      ScanUnquoted(w[1..], rest, cur + [w[0]]);
      assert (w + rest)[1..] == w[1..] + rest && cur + [w[0]] + w[1..] == cur + w;
    }
  }

  lemma {:induction false} SplitUnquoted(ps: seq<string>)
    requires ps != [] && forall i :: 0 <= i < |ps| ==> Unquoted(ps[i])
    ensures SplitFrom(Join(ps), '.', false, "") == ps
    decreases |ps|
  {
    if |ps| == 1 {
      ScanUnquoted(ps[0], "", "");
      assert ps[0] + "" == ps[0] && "" + ps[0] == ps[0];
    } else {
      SplitUnquoted(ps[1..]);
      var rest := "." + Join(ps[1..]);
      assert Join(ps) == ps[0] + rest;
      ScanUnquoted(ps[0], rest, "");
      assert rest[1..] == Join(ps[1..]) && "" + ps[0] == ps[0];
    }
  }

  lemma {:induction false} JoinUnquoted(ps: seq<string>)
    requires ps != [] && forall i :: 0 <= i < |ps| ==> Unquoted(ps[i])
    ensures var s := Join(ps); s != "" && !IsSpace(s[0]) && !IsSpace(s[|s| - 1])
    decreases |ps|
  {
    UnquotedText(ps[0]);
    if |ps| > 1 {
      JoinUnquoted(ps[1..]);
    }
  }

  lemma CleanIsSame(p: string)
    requires Unquoted(p)
    ensures CleanPart(p) == p
  {
    UnquotedText(p);
    CleanUnquoted(p);
  }

  lemma CleanAllSame(ps: seq<string>)
    requires forall i :: 0 <= i < |ps| ==> Unquoted(ps[i])
    ensures CleanAll(ps) == ps && "" !in ps
  {
    forall i | 0 <= i < |ps| ensures CleanAll(ps)[i] == ps[i] {
      CleanIsSame(ps[i]);
    }
  }

  /** Names without quotes, with dots between them, are accepted and quoted one by one. */
  lemma UnquotedAccepted(ps: seq<string>)
    requires ps != [] && forall i :: 0 <= i < |ps| ==> Unquoted(ps[i])
    ensures SanitizeQualified(Join(ps)) == Join(QuoteAll(ps))
  {
    JoinUnquoted(ps);
    TrimSpaceNothing(Join(ps));
    SplitUnquoted(ps);
    CleanAllSame(ps);
  }
}
