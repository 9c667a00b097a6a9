/** parseCron, parseCronField and sortInts of internal/application/scheduler/cron.go. */
module CronParse {
  import opened Wrappers
  import opened Sequences
  import opened Text
  import opened GoStrings
  import opened CronNext

  const MONTHS: map<string, int> := map["JAN" := 1, "FEB" := 2, "MAR" := 3, "APR" := 4, "MAY" := 5, "JUN" := 6,
                                        "JUL" := 7, "AUG" := 8, "SEP" := 9, "OCT" := 10, "NOV" := 11, "DEC" := 12]
  const WEEKDAYS: map<string, int> := map["SUN" := 0, "MON" := 1, "TUE" := 2, "WED" := 3,
                                          "THU" := 4, "FRI" := 5, "SAT" := 6]

  /** unicode.ToUpper on the characters that have an ASCII capital; no other can make a name. */
  function UpperChar(c: char): char {
    if 'a' <= c <= 'z' then (c as int - 32) as char
    else if c == '\U{0131}' then 'I'
    else if c == '\U{017F}' then 'S'
    else c
  }

  function Upper(s: string): string {
    seq(|s|, i requires 0 <= i < |s| => UpperChar(s[i]))
  }

  /** cronToken; a field without names has an empty table. */
  function CronToken(tok: string, names: map<string, int>): Option<int> {
    if Upper(tok) in names then Some(names[Upper(tok)]) else ParseInt64(tok)
  }

  function IndexOf(s: string, c: char): (i: int)
    ensures -1 <= i < |s|
    ensures i >= 0 ==> s[i] == c && forall j :: 0 <= j < i ==> s[j] != c
    ensures i == -1 ==> c !in s
  {
    if s == "" then -1
    else if s[0] == c then 0
    else
      var i := IndexOf(s[1..], c);
      assert forall j :: 1 <= j < |s| ==> s[j] == s[1..][j - 1];
      if i < 0 then -1 else i + 1
  }

  /** strings.Split on one character. */
  function SplitOn(s: string, c: char): (parts: seq<string>)
    ensures parts != []
    decreases |s|
  {
    var i := IndexOf(s, c);
    if i < 0 then [s] else [s[..i]] + SplitOn(s[i + 1..], c)
  }

  function WordLength(s: string): (n: nat)
    ensures n <= |s|
    ensures s != "" && !IsSpace(s[0]) ==> n > 0
  {
    if s == "" || IsSpace(s[0]) then 0 else 1 + WordLength(s[1..])
  }

  /** strings.Fields */
  function Words(s: string): seq<string>
    decreases |s|
  {
    var t := TrimLeft(s);
    if t == "" then [] else [t[..WordLength(t)]] + Words(t[WordLength(t)..])
  }

  // ----- one part of a field

  datatype Range = Range(start: int, end: int, step: int, star: bool)

  predicate Proper(r: Range) {
    0 <= r.start <= r.end <= 59 && 1 <= r.step <= MAX_INT64
  }

  function ParseRange(text: string, lo: int, hi: int, names: map<string, int>, step: int): (r: Option<Range>)
    ensures r.Some? ==> lo <= r.value.start <= r.value.end <= hi && r.value.step == step
  {
    var dash := IndexOf(text, '-');
    var bounds :=
      if text == "*" || text == "" then Some((lo, hi))
      else if dash >= 0 then
        var a, b := CronToken(text[..dash], names), CronToken(text[dash + 1..], names);
        if a.Some? && b.Some? then Some((a.value, b.value)) else None
      else
        var v := CronToken(text, names);
        if v.Some? then Some((v.value, v.value)) else None;
    if bounds.None? || bounds.value.0 < lo || bounds.value.1 > hi || bounds.value.0 > bounds.value.1 then None
    else Some(Range(bounds.value.0, bounds.value.1, step, text == "*" || text == ""))
  }

  /** What one comma-separated part denotes, or an error. */
  function ParsePart(part: string, lo: int, hi: int, names: map<string, int>): (r: Option<Range>)
    ensures r.Some? ==> lo <= r.value.start <= r.value.end <= hi && 1 <= r.value.step <= MAX_INT64
  {
    var slash := IndexOf(part, '/');
    if slash < 0 then ParseRange(part, lo, hi, names, 1)
    else
      var step := ParseInt64(part[slash + 1..]);
      if step.None? || step.value <= 0 then None else ParseRange(part[..slash], lo, hi, names, step.value)
  }

  /** v is one of the values the part stands for. */
  predicate Denotes(r: Range, v: int) {
    r.step > 0 && r.start <= v <= r.end && (v - r.start) % r.step == 0
  }

  // ----- the loop over a part's values, in 64-bit arithmetic

  /** Go's addition of two int64 values. */
  function Wrap(n: int): int {
    if n > MAX_INT64 then n - 0x1_0000_0000_0000_0000 else n
  }

  const HALF: int := 0x4000_0000_0000_0000

  /** Where the loop variable can be: with an ordinary step it climbs from the start; with a step near the
      largest integer it alternates between small values and ones near the smallest integer. */
  predicate InLoop(v: int, end: int, step: int) {
    && 0 <= end <= 59 && 1 <= step <= MAX_INT64 && v <= MAX_INT64
    && (v > end
        || (step <= HALF && 0 <= v)
        || (step > HALF && -59 <= v)
        || (step > HALF && MIN_INT64 <= v < -HALF && -59 <= v + step <= 57))
  }

  function Measure(v: int, end: int, step: int): (m: nat)
    requires InLoop(v, end, step)
  {
    if v > end then 0
    else if step <= HALF then end - v + 1
    else if v < -HALF then 2 * (v + step + 100) + 1
    else 2 * (v + 100)
  }

  lemma LoopStep(v: int, end: int, step: int)
    requires InLoop(v, end, step) && v <= end
    ensures InLoop(Wrap(v + step), end, step) && Measure(Wrap(v + step), end, step) < Measure(v, end, step)
  {
  }

  /** The values the loop visits from v on. */
  function Visits(v: int, end: int, step: int): set<int>
    requires InLoop(v, end, step)
    decreases Measure(v, end, step)
  {
    if v > end then {}
    else
      LoopStep(v, end, step);
      {v} + Visits(Wrap(v + step), end, step)
  }

  function VisitsOf(r: Range): set<int>
    requires Proper(r)
  {
    Visits(r.start, r.end, r.step)
  }

  lemma {:induction false} VisitsOrdinary(r: Range, v: int, x: int)
    requires Proper(r) && r.start + r.step <= MAX_INT64 && r.start <= v && (v - r.start) % r.step == 0
    requires InLoop(v, r.end, r.step)
    ensures x in Visits(v, r.end, r.step) <==> v <= x && Denotes(r, x)
    decreases Measure(v, r.end, r.step)
  {
    if v <= r.end {
      LoopStep(v, r.end, r.step);
      assert v > r.start ==> r.step <= 59 by {
        if v > r.start { MultipleAtLeast(v - r.start, r.step); }
      }
      NextMultiple(v - r.start, r.step, x - r.start);
      VisitsOrdinary(r, v + r.step, x);
    }
  }

  lemma MultipleAtLeast(n: int, k: int)
    requires n > 0 && k > 0 && n % k == 0
    ensures k <= n
  {
  }

  /** Between one multiple and the next there is no other. */
  lemma NextMultiple(n: int, k: int, x: int)
    requires k > 0 && n % k == 0
    ensures (n + k) % k == 0
    ensures n < x < n + k ==> x % k != 0
  {
    var q, p := n / k, x / k;
    assert n == q * k && n + k == (q + 1) * k && x == p * k + x % k;
    ModMultiple(q + 1, k);
    MulMonotone(p, q, k);
    MulMonotone(q + 1, p, k);
  }

  lemma MulMonotone(a: int, b: int, k: int)
    requires k >= 0
    ensures a <= b ==> a * k <= b * k
  {
  }

  lemma ModMultiple(q: int, k: int)
    requires k > 0
    ensures (q * k) % k == 0
  {
    var m, d := (q * k) % k, (q * k) / k;
    assert q * k == d * k + m;
    assert m == (q - d) * k;
    MulMonotone(1, q - d, k);
    MulMonotone(q - d, -1, k);
  }

  /** The loop visits exactly the values the part denotes if and only if its first step does not overflow: with a
      larger step the next value wraps around to a negative one. */
  lemma VisitsExact(r: Range)
    requires Proper(r)
    ensures r.start + r.step <= MAX_INT64 ==> forall x :: x in VisitsOf(r) <==> Denotes(r, x)
    ensures r.start + r.step > MAX_INT64 ==> Wrap(r.start + r.step) in VisitsOf(r) && Wrap(r.start + r.step) < 0
  {
    if r.start + r.step <= MAX_INT64 {
      forall x ensures x in VisitsOf(r) <==> Denotes(r, x) {
        VisitsOrdinary(r, r.start, x);
      }
    } else {
      LoopStep(r.start, r.end, r.step);
      var w := Wrap(r.start + r.step);
      LoopStep(w, r.end, r.step);
      assert w in Visits(w, r.end, r.step);
    }
  }

  // ----- sorting in place

  predicate SortedUpTo(s: seq<int>, n: nat)
    requires n <= |s|
  {
    forall i, j :: 0 <= i < j < n ==> s[i] <= s[j]
  }

  method SwapDown(a: array<int>, j: nat)
    requires 0 < j < a.Length
    modifies a
    ensures a[j] == old(a[j - 1]) && a[j - 1] == old(a[j])
    ensures forall k :: 0 <= k < a.Length && k != j && k != j - 1 ==> a[k] == old(a[k])
    ensures multiset(a[..]) == old(multiset(a[..]))
  {
    a[j], a[j - 1] := a[j - 1], a[j];
  }

  /** The inner loop of sortInts: element i sinks to its place among the sorted ones before it. */
  method Sink(a: array<int>, i: nat)
    requires i < a.Length && SortedUpTo(a[..], i)
    modifies a
    ensures SortedUpTo(a[..], i + 1) && multiset(a[..]) == old(multiset(a[..]))
  {
    var j := i;
    while j > 0 && a[j] < a[j - 1]
      invariant 0 <= j <= i
      invariant multiset(a[..]) == old(multiset(a[..]))
      invariant forall p, q :: 0 <= p < q <= i && q != j ==> a[p] <= a[q]
    {
      SwapDown(a, j);
      j := j - 1;
    }
  }

  /** sortInts */
  method SortInts(a: array<int>)
    modifies a
    ensures SortedUpTo(a[..], a.Length) && multiset(a[..]) == old(multiset(a[..]))
  {
    if a.Length > 0 {
      for i := 1 to a.Length
        invariant SortedUpTo(a[..], i) && multiset(a[..]) == old(multiset(a[..]))
      {
        Sink(a, i);
      }
    }
  }

  predicate NoRepeats(s: seq<int>) {
    forall i, j :: 0 <= i < j < |s| ==> s[i] != s[j]
  }

  lemma {:induction false} NoRepeatsOnce(s: seq<int>, x: int)
    requires NoRepeats(s)
    ensures multiset(s)[x] <= 1
  {
    if s != [] {
      var front := s[..|s| - 1];
      assert s == front + [s[|s| - 1]];
      NoRepeatsOnce(front, x);
    }
  }

  lemma SortedDistinct(s: seq<int>, t: seq<int>)
    requires NoRepeats(s) && multiset(s) == multiset(t) && SortedUpTo(t, |t|)
    ensures Ascending(t) && forall x :: x in t <==> x in s
  {
    assert forall x :: x in t <==> x in multiset(t);
    assert forall x :: x in s <==> x in multiset(s);
    forall i, j | 0 <= i < j < |t| ensures t[i] < t[j] {
      if t[i] == t[j] {
        OccursTwice(t, i, j);
        NoRepeatsOnce(s, t[i]);
      }
    }
  }

  method Sorted(out: seq<int>) returns (vals: seq<int>)
    requires NoRepeats(out)
    ensures Ascending(vals) && forall x :: x in vals <==> x in out
  {
    var a := new int[|out|](i requires 0 <= i < |out| => out[i]);
    assert a[..] == out;
    SortInts(a);
    vals := a[..];
    SortedDistinct(out, vals);
  }

  // ----- a field

  function ParseParts(parts: seq<string>, lo: int, hi: int, names: map<string, int>): (r: Option<seq<Range>>)
    ensures r.Some? ==> |r.value| == |parts|
    ensures r.Some? && 0 <= lo && hi <= 59 ==> AllProper(r.value)
  {
    if parts == [] then Some([])
    else
      var front, last := ParseParts(parts[..|parts| - 1], lo, hi, names), ParsePart(parts[|parts| - 1], lo, hi, names);
      if front.None? || last.None? then None else Some(front.value + [last.value])
  }

  predicate AllProper(ranges: seq<Range>) {
    forall i :: 0 <= i < |ranges| ==> Proper(ranges[i])
  }

  predicate Visited(ranges: seq<Range>, v: int)
    requires AllProper(ranges)
  {
    exists i :: 0 <= i < |ranges| && v in VisitsOf(ranges[i])
  }

  predicate Denoted(ranges: seq<Range>, v: int) {
    exists i :: 0 <= i < |ranges| && Denotes(ranges[i], v)
  }

  predicate AnyStar(ranges: seq<Range>) {
    exists i :: 0 <= i < |ranges| && ranges[i].star
  }

  /** No part's step overflows on its first addition. */
  predicate NoOverflow(ranges: seq<Range>) {
    forall i :: 0 <= i < |ranges| ==> ranges[i].start + ranges[i].step <= MAX_INT64
  }

  /** The loop that appends a part's values, each once. */
  method Expand(r: Range, seen: set<int>, out: seq<int>) returns (seen': set<int>, out': seq<int>)
    requires Proper(r) && NoRepeats(out) && (forall x :: x in seen <==> x in out)
    ensures NoRepeats(out') && (forall x :: x in seen' <==> x in out')
    ensures forall x :: x in out' <==> x in out || x in VisitsOf(r)
  {
    seen', out' := seen, out;
    var v := r.start;
    while v <= r.end
      invariant InLoop(v, r.end, r.step)
      invariant NoRepeats(out') && (forall x :: x in seen' <==> x in out')
      invariant forall x :: (x in out' || x in Visits(v, r.end, r.step)) <==> (x in out || x in VisitsOf(r))
      decreases Measure(v, r.end, r.step)
    {
      if v !in seen' {
        seen' := seen' + {v};
        out' := out' + [v];
      }
      LoopStep(v, r.end, r.step);
      v := Wrap(v + r.step);
    }
  }

  lemma NextPart(parts: seq<string>, i: nat, lo: int, hi: int, names: map<string, int>)
    requires i < |parts|
    ensures var front, part := ParseParts(parts[..i], lo, hi, names), ParsePart(parts[i], lo, hi, names);
            ParseParts(parts[..i + 1], lo, hi, names)
            == if front.None? || part.None? then None else Some(front.value + [part.value])
  {
    assert parts[..i + 1][..i] == parts[..i];
  }

  /** The loop over the parts of a field. */
  method ExpandParts(parts: seq<string>, lo: int, hi: int, names: map<string, int>)
    returns (ok: bool, out: seq<int>, star: bool)
    requires 0 <= lo <= hi <= 59
    ensures var ranges := ParseParts(parts, lo, hi, names);
            && (ok <==> ranges.Some?)
            && (ok ==> NoRepeats(out) && star == AnyStar(ranges.value)
                       && forall x :: x in out <==> Visited(ranges.value, x))
  {
    ok, out, star := true, [], false;
    var seen := {};
    ghost var ranges: seq<Range> := [];
    for i := 0 to |parts|
      invariant ParseParts(parts[..i], lo, hi, names) == Some(ranges) && AllProper(ranges)
      invariant NoRepeats(out) && (forall x :: x in seen <==> x in out)
      invariant forall x :: x in out <==> Visited(ranges, x)
      invariant star == AnyStar(ranges)
    {
      var part := ParsePart(parts[i], lo, hi, names);
      NextPart(parts, i, lo, hi, names);
      if part.None? {
        NoParts(parts, i + 1, lo, hi, names);
        ok := false;
        return;
      }
      star := star || part.value.star;
      seen, out := Expand(part.value, seen, out);
      VisitedAppend(ranges, part.value);
      ranges := ranges + [part.value];
    }
    assert parts[..|parts|] == parts;
  }

  /** parseCronField: the values its parts' loops visit, sorted and without repeats. */
  method ParseField(field: string, lo: int, hi: int, names: map<string, int>) returns (r: Option<(seq<int>, bool)>)
    requires 0 <= lo <= hi <= 59
    ensures var ranges := ParseParts(SplitOn(field, ','), lo, hi, names);
            && (r.Some? <==> ranges.Some?)
            && (r.Some? ==> Ascending(r.value.0) && r.value.1 == AnyStar(ranges.value)
                            && forall x :: x in r.value.0 <==> Visited(ranges.value, x))
  {
    var parts := SplitOn(field, ',');
    var ok, out, star := ExpandParts(parts, lo, hi, names);
    if !ok {
      return None;
    }
    StartVisited(ParseParts(parts, lo, hi, names).value);
    if |out| == 0 {
      return None;
    }
    var vals := Sorted(out);
    return Some((vals, star));
  }

  lemma StartVisited(ranges: seq<Range>)
    requires AllProper(ranges) && ranges != []
    ensures Visited(ranges, ranges[0].start)
  {
    assert Proper(ranges[0]);
  }

  lemma VisitedAppend(ranges: seq<Range>, r: Range)
    requires AllProper(ranges) && Proper(r)
    ensures forall x :: Visited(ranges + [r], x) <==> Visited(ranges, x) || x in VisitsOf(r)
    ensures AnyStar(ranges + [r]) <==> AnyStar(ranges) || r.star
  {
    var all := ranges + [r];
    assert all[|ranges|] == r;
    assert forall i :: 0 <= i < |ranges| ==> all[i] == ranges[i];
  }

  lemma {:induction false} NoParts(parts: seq<string>, n: nat, lo: int, hi: int, names: map<string, int>)
    requires n <= |parts| && ParseParts(parts[..n], lo, hi, names).None?
    ensures ParseParts(parts, lo, hi, names).None?
    decreases |parts|
  {
    if n < |parts| {
      assert parts[..|parts| - 1][..n] == parts[..n];
      NoParts(parts[..|parts| - 1], n, lo, hi, names);
    } else {
      assert parts[..n] == parts;
    }
  }

  /** A field's list holds exactly the values its parts denote if and only if no part's step overflows. */
  lemma FieldExact(ranges: seq<Range>, vals: seq<int>)
    requires AllProper(ranges) && forall x :: x in vals <==> Visited(ranges, x)
    ensures (forall x :: x in vals <==> Denoted(ranges, x)) <==> NoOverflow(ranges)
  {
    if NoOverflow(ranges) {
      forall x ensures Visited(ranges, x) <==> Denoted(ranges, x) {
        forall i | 0 <= i < |ranges| ensures x in VisitsOf(ranges[i]) <==> Denotes(ranges[i], x) {
          VisitsExact(ranges[i]);
        }
      }
    } else {
      var i :| 0 <= i < |ranges| && ranges[i].start + ranges[i].step > MAX_INT64;
      VisitsExact(ranges[i]);
      var w := Wrap(ranges[i].start + ranges[i].step);
      assert Visited(ranges, w) && !Denoted(ranges, w);
    }
  }

  /** An input for which it fails: the hour field `1/9223372036854775807` is accepted, and its list holds the
      smallest integer beside 1. */
  lemma OverflowingField()
    ensures var text := "1/" + FormatInt(MAX_INT64);
            && ParsePart(text, 0, 23, map[]) == Some(Range(1, 1, MAX_INT64, false))
            && MIN_INT64 in VisitsOf(Range(1, 1, MAX_INT64, false))
  {
    OverflowingText();
    VisitsExact(Range(1, 1, MAX_INT64, false));
  }

  lemma OverflowingText()
    ensures ParsePart("1/" + FormatInt(MAX_INT64), 0, 23, map[]) == Some(Range(1, 1, MAX_INT64, false))
  {
    StepText(MAX_INT64);
    OneParses();
  }

  lemma OneParses()
    ensures CronToken("1", map[]) == Some(1) && IndexOf("1", '-') == -1
  {
    assert "1"[..0] == "";
  }

  lemma StepText(step: int)
    requires 1 <= step <= MAX_INT64
    ensures var text := "1/" + FormatInt(step);
            IndexOf(text, '/') == 1 && text[..1] == "1" && ParseInt64(text[2..]) == Some(step)
  {
    var text := "1/" + FormatInt(step);
    ParseFormatted(step);
    assert text[0] == '1' && text[1] == '/';
    assert text[2..] == FormatInt(step);
  }

  // ----- the whole expression

  function Lowest(field: nat): int {
    if field == 2 || field == 3 then 1 else 0
  }

  function Highest(field: nat): (hi: int)
    ensures Lowest(field) <= hi <= 59
  {
    match field
    case 0 => 59
    case 1 => 23
    case 2 => 31
    case 3 => 12
    case _ => 7
  }

  function NamesOf(field: nat): map<string, int> {
    if field == 3 then MONTHS else if field == 4 then WEEKDAYS else map[]
  }

  function FieldRanges(words: seq<string>, i: nat): (r: Option<seq<Range>>)
    requires |words| == 5 && i < 5
    ensures r.Some? ==> AllProper(r.value)
  {
    ParseParts(SplitOn(words[i], ','), Lowest(i), Highest(i), NamesOf(i))
  }

  predicate Accepted(spec: string) {
    var words := Words(TrimSpace(spec));
    |words| == 5 && forall i :: 0 <= i < 5 ==> FieldRanges(words, i).Some?
  }

  function RangesOf(spec: string, i: nat): (ranges: seq<Range>)
    requires Accepted(spec) && i < 5
    ensures AllProper(ranges)
  {
    FieldRanges(Words(TrimSpace(spec)), i).value
  }

  /** Sunday may be written 7. */
  function Sunday(v: int): int {
    if v == 7 then 0 else v
  }

  /** The loop that turns 7 into 0. */
  method FoldSunday(vals: seq<int>) returns (r: seq<int>)
    ensures forall x :: x in r <==> exists v :: v in vals && Sunday(v) == x
  {
    r := vals;
    for k := 0 to |vals|
      invariant |r| == |vals|
      invariant forall j :: 0 <= j < |vals| ==> r[j] == if j < k then Sunday(vals[j]) else vals[j]
    {
      if r[k] == 7 {
        r := r[k := 0];
      }
    }
    forall x ensures x in r <==> exists v :: v in vals && Sunday(v) == x {
      if x in r {
        var j :| 0 <= j < |r| && r[j] == x;
        assert vals[j] in vals && Sunday(vals[j]) == x;
      }
      if v :| v in vals && Sunday(v) == x {
        var j :| 0 <= j < |vals| && vals[j] == v;
        assert r[j] == x;
      }
    }
  }

  /** The values visited for a field, ascending. */
  ghost predicate Lists(ranges: seq<Range>, vals: seq<int>)
    requires AllProper(ranges)
  {
    Ascending(vals) && forall x :: x in vals <==> Visited(ranges, x)
  }

  /** The weekdays visited, with 7 read as 0. */
  ghost predicate ListsDays(ranges: seq<Range>, days: seq<int>)
    requires AllProper(ranges)
  {
    forall x :: x in days <==> exists v :: Visited(ranges, v) && Sunday(v) == x
  }

  /** The list and the star that parseCronField gives for field i. */
  ghost predicate FieldParsed(words: seq<string>, i: nat, f: (seq<int>, bool))
    requires |words| == 5 && i < 5
  {
    FieldRanges(words, i).Some? && Lists(FieldRanges(words, i).value, f.0)
    && f.1 == AnyStar(FieldRanges(words, i).value)
  }

  /** The parsed expression lists the values visited for each field; a day field with a star is "any day". */
  ghost predicate Parses(spec: string, e: CronExpr)
    requires Accepted(spec)
  {
    && Lists(RangesOf(spec, 0), e.minute)
    && Lists(RangesOf(spec, 1), e.hour)
    && (if AnyStar(RangesOf(spec, 2)) then e.dom.None? else e.dom.Some? && Lists(RangesOf(spec, 2), e.dom.value))
    && Lists(RangesOf(spec, 3), e.month)
    && (if AnyStar(RangesOf(spec, 4)) then e.dow.None? else e.dow.Some? && ListsDays(RangesOf(spec, 4), e.dow.value))
  }

  /** The loop of parseCron over the five fields. */
  method ParseFields(words: seq<string>) returns (r: Option<seq<(seq<int>, bool)>>)
    requires |words| == 5
    ensures r.Some? ==> |r.value| == 5 && forall i :: 0 <= i < 5 ==> FieldParsed(words, i, r.value[i])
    ensures r.None? ==> exists i :: 0 <= i < 5 && FieldRanges(words, i).None?
  {
    var fields: seq<(seq<int>, bool)> := [];
    for i := 0 to 5
      invariant |fields| == i && forall j :: 0 <= j < i ==> FieldParsed(words, j, fields[j])
    {
      var f := ParseField(words[i], Lowest(i), Highest(i), NamesOf(i));
      if f.None? {
        assert FieldRanges(words, i).None?;
        return None;
      }
      assert FieldParsed(words, i, f.value);
      fields := fields + [f.value];
    }
    return Some(fields);
  }

  lemma DaysListed(ranges: seq<Range>, vals: seq<int>, days: seq<int>)
    requires AllProper(ranges) && Lists(ranges, vals)
    requires forall x :: x in days <==> exists v :: v in vals && Sunday(v) == x
    ensures ListsDays(ranges, days)
  {
    forall x ensures x in days <==> exists v :: Visited(ranges, v) && Sunday(v) == x {
      if v :| v in vals && Sunday(v) == x {
        assert Visited(ranges, v);
      }
      if v :| Visited(ranges, v) && Sunday(v) == x {
        assert v in vals;
      }
    }
  }

  lemma FieldsParse(spec: string, fields: seq<(seq<int>, bool)>, days: seq<int>, e: CronExpr)
    requires |Words(TrimSpace(spec))| == 5 && |fields| == 5
    requires forall i :: 0 <= i < 5 ==> FieldParsed(Words(TrimSpace(spec)), i, fields[i])
    requires forall x :: x in days <==> exists v :: v in fields[4].0 && Sunday(v) == x
    requires e == CronExpr(fields[0].0, fields[1].0, if fields[2].1 then None else Some(fields[2].0),
                           fields[3].0, if fields[4].1 then None else Some(days))
    ensures Accepted(spec) && Parses(spec, e)
  {
    var words := Words(TrimSpace(spec));
    assert FieldParsed(words, 0, fields[0]);
    assert FieldParsed(words, 1, fields[1]);
    assert FieldParsed(words, 2, fields[2]);
    assert FieldParsed(words, 3, fields[3]);
    assert FieldParsed(words, 4, fields[4]);
    DaysListed(RangesOf(spec, 4), fields[4].0, days);
  }

  /** parseCron */
  method ParseCron(spec: string) returns (r: Option<CronExpr>)
    ensures r.Some? <==> Accepted(spec)
    ensures r.Some? ==> Parses(spec, r.value)
  {
    var words := Words(TrimSpace(spec));
    if |words| != 5 {
      return None;
    }
    var parsed := ParseFields(words);
    if parsed.None? {
      return None;
    }
    var fields := parsed.value;
    var days := FoldSunday(fields[4].0);
    var e := CronExpr(fields[0].0, fields[1].0, if fields[2].1 then None else Some(fields[2].0),
                      fields[3].0, if fields[4].1 then None else Some(days));
    FieldsParse(spec, fields, days, e);
    r := Some(e);
  }

  /** An accepted expression is well formed, so that NextAfter's promise holds for it, exactly when no step of its
      minute and hour fields overflows. */
  lemma AcceptedIsWellFormed(spec: string, e: CronExpr)
    requires Accepted(spec) && Parses(spec, e)
    ensures WellFormed(e) <==> NoOverflow(RangesOf(spec, 0)) && NoOverflow(RangesOf(spec, 1))
  {
    FieldWithin(spec, 0, e.minute);
    FieldWithin(spec, 1, e.hour);
  }

  lemma FieldWithin(spec: string, i: nat, vals: seq<int>)
    requires Accepted(spec) && i < 5 && Lists(RangesOf(spec, i), vals)
    ensures Within(vals, Lowest(i), Highest(i)) <==> NoOverflow(RangesOf(spec, i))
  {
    var ranges := RangesOf(spec, i);
    FieldExact(ranges, vals);
    if NoOverflow(ranges) {
      RangeBounds(spec, i, vals);
    } else {
      OverflowShows(ranges, vals, Lowest(i), Highest(i));
    }
  }

  lemma OverflowShows(ranges: seq<Range>, vals: seq<int>, lo: int, hi: int)
    requires AllProper(ranges) && Lists(ranges, vals) && !NoOverflow(ranges) && lo >= 0
    ensures !Within(vals, lo, hi)
  {
    var k :| 0 <= k < |ranges| && ranges[k].start + ranges[k].step > MAX_INT64;
    VisitsExact(ranges[k]);
    assert Visited(ranges, Wrap(ranges[k].start + ranges[k].step));
    var j :| 0 <= j < |vals| && vals[j] == Wrap(ranges[k].start + ranges[k].step);
  }

  /** Without overflow every list of an accepted expression holds exactly the values its field denotes. */
  lemma AcceptedIsExact(spec: string, e: CronExpr)
    requires Accepted(spec) && Parses(spec, e) && forall i :: 0 <= i < 5 ==> NoOverflow(RangesOf(spec, i))
    ensures forall x :: x in e.minute <==> Denoted(RangesOf(spec, 0), x)
    ensures forall x :: x in e.hour <==> Denoted(RangesOf(spec, 1), x)
    ensures e.dom.Some? ==> forall x :: x in e.dom.value <==> Denoted(RangesOf(spec, 2), x)
    ensures forall x :: x in e.month <==> Denoted(RangesOf(spec, 3), x)
    ensures e.dow.Some? ==>
              forall x :: x in e.dow.value <==> exists v :: Denoted(RangesOf(spec, 4), v) && Sunday(v) == x
  {
    FieldExact(RangesOf(spec, 0), e.minute);
    FieldExact(RangesOf(spec, 1), e.hour);
    if e.dom.Some? {
      FieldExact(RangesOf(spec, 2), e.dom.value);
    }
    FieldExact(RangesOf(spec, 3), e.month);
    if e.dow.Some? {
      DaysExact(RangesOf(spec, 4), e.dow.value);
    }
  }

  lemma DaysExact(ranges: seq<Range>, days: seq<int>)
    requires AllProper(ranges) && ListsDays(ranges, days) && NoOverflow(ranges)
    ensures forall x :: x in days <==> exists v :: Denoted(ranges, v) && Sunday(v) == x
  {
    forall v ensures Visited(ranges, v) <==> Denoted(ranges, v) {
      forall i | 0 <= i < |ranges| ensures v in VisitsOf(ranges[i]) <==> Denotes(ranges[i], v) {
        VisitsExact(ranges[i]);
      }
    }
  }

  lemma {:induction false} PartBounds(parts: seq<string>, lo: int, hi: int, names: map<string, int>, i: nat)
    requires ParseParts(parts, lo, hi, names).Some? && i < |parts|
    ensures lo <= ParseParts(parts, lo, hi, names).value[i].start && ParseParts(parts, lo, hi, names).value[i].end <= hi
  {
    if i < |parts| - 1 {
      PartBounds(parts[..|parts| - 1], lo, hi, names, i);
    }
  }

  lemma RangeBounds(spec: string, i: nat, vals: seq<int>)
    requires Accepted(spec) && i < 5 && forall x :: x in vals <==> Denoted(RangesOf(spec, i), x)
    ensures Within(vals, Lowest(i), Highest(i))
  {
    forall k | 0 <= k < |vals| ensures Lowest(i) <= vals[k] <= Highest(i) {
      assert vals[k] in vals;
      var j :| 0 <= j < |RangesOf(spec, i)| && Denotes(RangesOf(spec, i)[j], vals[k]);
      PartBounds(SplitOn(Words(TrimSpace(spec))[i], ','), Lowest(i), Highest(i), NamesOf(i), j);
    }
  }
}
