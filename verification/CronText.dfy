/** Cron expressions as they are written: what parts of numbers, names, ranges and steps stand for, and that the parser
    of internal/application/scheduler/cron.go reads them so. */
module CronText {
  import opened Wrappers
  import opened Text
  import opened GoStrings
  import opened CronNext
  import opened CronParse

  /** The least and the greatest value of a minute, hour, day of the month, month and day of the week. */
  const LIMITS: seq<(int, int)> := [(0, 59), (0, 23), (1, 31), (1, 12), (0, 7)]

  const MONTH_NAMES: seq<string> := ["JAN", "FEB", "MAR", "APR", "MAY", "JUN", "JUL", "AUG", "SEP", "OCT", "NOV", "DEC"]

  const DAY_NAMES: seq<string> := ["SUN", "MON", "TUE", "WED", "THU", "FRI", "SAT"]

  /** A value as it is written. */
  datatype Token = Token(text: string, value: int)

  datatype Term = All | Just(a: Token) | FromTo(a: Token, b: Token)

  datatype Part = Part(term: Term, step: Option<int>)

  /** The name in capital or small letters. */
  predicate Spells(text: string, name: string) {
    |text| == |name| && forall i :: 0 <= i < |name| ==> text[i] == name[i] || text[i] as int == name[i] as int + 32
  }

  /** The text is the number, or the name of the month or the day with this number. */
  predicate Says(field: nat, t: Token) {
    || t.text == FormatInt(t.value)
    || (field == 3 && 1 <= t.value <= 12 && Spells(t.text, MONTH_NAMES[t.value - 1]))
    || (field == 4 && 0 <= t.value <= 6 && Spells(t.text, DAY_NAMES[t.value]))
  }

  predicate TermSays(field: nat, term: Term) {
    match term
    case All => true
    case Just(a) => Says(field, a)
    case FromTo(a, b) => Says(field, a) && Says(field, b)
  }

  function PrintTerm(term: Term): string {
    match term
    case All => "*"
    case Just(a) => a.text
    case FromTo(a, b) => a.text + ['-'] + b.text
  }

  function PrintPart(p: Part): string {
    PrintTerm(p.term) + if p.step.None? then "" else ['/'] + FormatInt(p.step.value)
  }

  function PrintParts(ps: seq<Part>): (ts: seq<string>)
    ensures |ts| == |ps| && forall i :: 0 <= i < |ps| ==> ts[i] == PrintPart(ps[i])
  {
    seq(|ps|, i requires 0 <= i < |ps| => PrintPart(ps[i]))
  }

  /** Texts with one character between them. */
  function Separated(ts: seq<string>, c: char): string {
    if ts == [] then "" else if |ts| == 1 then ts[0] else ts[0] + [c] + Separated(ts[1..], c)
  }

  function PrintField(ps: seq<Part>): string {
    Separated(PrintParts(ps), ',')
  }

  function PrintFields(fs: seq<seq<Part>>): (ts: seq<string>)
    ensures |ts| == |fs| && forall i :: 0 <= i < |fs| ==> ts[i] == PrintField(fs[i])
  {
    seq(|fs|, i requires 0 <= i < |fs| => PrintField(fs[i]))
  }

  /** The expression: fields with a space between them. */
  function PrintSpec(fs: seq<seq<Part>>): string {
    Separated(PrintFields(fs), ' ')
  }

  // ----- what is written stands for

  function Start(field: nat, term: Term): int
    requires field < 5
  {
    match term
    case All => LIMITS[field].0
    case Just(a) => a.value
    case FromTo(a, _) => a.value
  }

  function End(field: nat, term: Term): int
    requires field < 5
  {
    match term
    case All => LIMITS[field].1
    case Just(a) => a.value
    case FromTo(_, b) => b.value
  }

  function StepOf(p: Part): int {
    if p.step.None? then 1 else p.step.value
  }

  /** The part is to be accepted: within the limits, not backwards, and with a step that is positive and an int64. */
  predicate Fine(field: nat, p: Part)
    requires field < 5
  {
    LIMITS[field].0 <= Start(field, p.term) <= End(field, p.term) <= LIMITS[field].1 && 1 <= StepOf(p) <= MAX_INT64
  }

  /** Every step-th value from the first to the last. */
  predicate Stands(field: nat, p: Part, v: int)
    requires field < 5
  {
    StepOf(p) > 0 && Start(field, p.term) <= v <= End(field, p.term) && (v - Start(field, p.term)) % StepOf(p) == 0
  }

  ghost predicate FieldHas(field: nat, ps: seq<Part>, v: int)
    requires field < 5
  {
    exists i :: 0 <= i < |ps| && Stands(field, ps[i], v)
  }

  // ----- tokens

  lemma LimitsAre(field: nat)
    requires field < 5
    ensures LIMITS[field] == (Lowest(field), Highest(field))
  {
  }

  predicate Capital(s: string) {
    s != "" && forall i :: 0 <= i < |s| ==> 'A' <= s[i] <= 'Z'
  }

  lemma MonthName(v: int)
    requires 1 <= v <= 12
    ensures Capital(MONTH_NAMES[v - 1]) && MONTH_NAMES[v - 1] in MONTHS && MONTHS[MONTH_NAMES[v - 1]] == v
  {
  }

  lemma DayName(v: int)
    requires 0 <= v <= 6
    ensures Capital(DAY_NAMES[v]) && DAY_NAMES[v] in WEEKDAYS && WEEKDAYS[DAY_NAMES[v]] == v
  {
  }

  lemma SpelledUpper(text: string, name: string)
    requires Spells(text, name) && Capital(name)
    ensures Upper(text) == name
  {
  }

  predicate Numeral(s: string) {
    s != "" && forall i :: 0 <= i < |s| ==> IsDigit(s[i]) || s[i] == '-'
  }

  lemma NumeralIsNoName(s: string, field: nat)
    requires Numeral(s) || s == ""
    ensures Upper(s) == s && s !in NamesOf(field)
  {
    if s != "" {
      assert s[0] != 'J' && s[0] != 'F' && s[0] != 'M' && s[0] != 'A' && s[0] != 'S' && s[0] != 'O' && s[0] != 'N'
             && s[0] != 'D' && s[0] != 'T' && s[0] != 'W';
    }
  }

  lemma TokenReads(field: nat, t: Token)
    requires Says(field, t)
    ensures CronToken(t.text, NamesOf(field)) == if MIN_INT64 <= t.value <= MAX_INT64 then Some(t.value) else None
  {
    if t.text == FormatInt(t.value) {
      NumeralIsNoName(t.text, field);
      ParseFormatted(t.value);
    } else if field == 3 {
      MonthName(t.value);
      SpelledUpper(t.text, MONTH_NAMES[t.value - 1]);
    } else {
      DayName(t.value);
      SpelledUpper(t.text, DAY_NAMES[t.value]);
    }
  }

  predicate Wordy(c: char) {
    'A' <= c <= 'Z' || 'a' <= c <= 'z' || IsDigit(c) || c == '-' || c == '*' || c == '/'
  }

  /** Only letters, digits, dashes, stars and slashes. */
  predicate AllWordy(s: string) {
    forall i :: 0 <= i < |s| ==> Wordy(s[i])
  }

  lemma SpelledText(text: string, name: string)
    requires Spells(text, name) && Capital(name)
    ensures text != "" && AllWordy(text) && Free(text, '-') && Free(text, '/') && text != "*"
  {
    assert 'A' <= name[0] <= 'Z';
  }

  lemma NumberText(n: int)
    ensures AllWordy(FormatInt(n)) && Free(FormatInt(n), '/') && FormatInt(n) != "*"
    ensures n >= 0 ==> Free(FormatInt(n), '-')
    ensures n < 0 ==> FormatInt(n)[0] == '-'
  {
    assert IsDigit(FormatInt(n)[0]) || FormatInt(n)[0] == '-';
  }

  lemma TokenText(field: nat, t: Token)
    requires Says(field, t)
    ensures t.text != "" && AllWordy(t.text) && Free(t.text, '/') && t.text != "*"
    ensures t.value >= 0 ==> Free(t.text, '-')
    ensures t.value < 0 ==> t.text[0] == '-'
  {
    if t.text == FormatInt(t.value) {
      NumberText(t.value);
    } else if field == 3 {
      MonthName(t.value);
      SpelledText(t.text, MONTH_NAMES[t.value - 1]);
    } else {
      DayName(t.value);
      SpelledText(t.text, DAY_NAMES[t.value]);
    }
  }

  // ----- parts

  lemma IndexAt(a: string, c: char, b: string)
    requires Free(a, c)
    ensures IndexOf(a + [c] + b, c) == |a| && (a + [c] + b)[..|a|] == a && (a + [c] + b)[|a| + 1..] == b
  {
    var s := a + [c] + b;
    assert s[|a|] == c;
    assert forall i :: 0 <= i < |a| ==> s[i] == a[i];
  }

  lemma IndexFree(s: string, c: char)
    requires Free(s, c)
    ensures IndexOf(s, c) == -1
  {
  }

  /** No token is the empty text. */
  lemma EmptyToken(field: nat)
    ensures CronToken("", NamesOf(field)) == None
  {
    NumeralIsNoName("", field);
  }

  /** What a term is read as. */
  function Bounds(field: nat, term: Term, step: int): (r: Option<Range>)
    requires field < 5
  {
    var lo, hi, a, b := LIMITS[field].0, LIMITS[field].1, Start(field, term), End(field, term);
    if lo <= a <= b <= hi then Some(Range(a, b, step, term.All?)) else None
  }

  /** What the parser's own steps need to know of a token. */
  predicate TokenIs(t: Token, names: map<string, int>) {
    && t.text != "" && t.text != "*"
    && (t.value >= 0 ==> Free(t.text, '-'))
    && (t.value < 0 ==> t.text[0] == '-')
    && CronToken(t.text, names) == if MIN_INT64 <= t.value <= MAX_INT64 then Some(t.value) else None
  }

  lemma SaidIs(field: nat, t: Token)
    requires Says(field, t)
    ensures TokenIs(t, NamesOf(field))
  {
    TokenText(field, t);
    TokenReads(field, t);
  }

  function IfWithin(lo: int, hi: int, a: int, b: int, step: int, star: bool): Option<Range> {
    if lo <= a <= b <= hi then Some(Range(a, b, step, star)) else None
  }

  lemma JustReads(a: Token, lo: int, hi: int, names: map<string, int>, step: int)
    requires TokenIs(a, names) && CronToken("", names) == None && 0 <= lo && hi <= 59
    ensures ParseRange(a.text, lo, hi, names, step) == IfWithin(lo, hi, a.value, a.value, step, false)
  {
    if a.value >= 0 {
      IndexFree(a.text, '-');
    } else {
      IndexAt("", '-', a.text[1..]);
      assert "" + ['-'] + a.text[1..] == a.text;
    }
  }

  /** A text with a dash is read as the tokens around it. */
  lemma DashReads(x: string, y: string, lo: int, hi: int, names: map<string, int>, step: int)
    requires Free(x, '-')
    ensures var a, b := CronToken(x, names), CronToken(y, names);
            ParseRange(x + ['-'] + y, lo, hi, names, step)
            == if a.Some? && b.Some? then IfWithin(lo, hi, a.value, b.value, step, false) else None
  {
    var text := x + ['-'] + y;
    IndexAt(x, '-', y);
    assert text[|x|] == '-' && text != "*";
  }

  lemma FromToReads(a: Token, b: Token, lo: int, hi: int, names: map<string, int>, step: int)
    requires TokenIs(a, names) && TokenIs(b, names) && CronToken("", names) == None && 0 <= lo && hi <= 59
    ensures ParseRange(a.text + ['-'] + b.text, lo, hi, names, step)
         == IfWithin(lo, hi, a.value, b.value, step, false)
  {
    if a.value >= 0 {
      DashReads(a.text, b.text, lo, hi, names, step);
    } else {
      var rest := a.text[1..] + ['-'] + b.text;
      DashReads("", rest, lo, hi, names, step);
      assert "" + ['-'] + rest == a.text + ['-'] + b.text;
    }
  }

  lemma TermReads(field: nat, term: Term, step: int)
    requires field < 5 && TermSays(field, term)
    ensures ParseRange(PrintTerm(term), LIMITS[field].0, LIMITS[field].1, NamesOf(field), step)
         == Bounds(field, term, step)
  {
    var lo, hi := LIMITS[field].0, LIMITS[field].1;
    LimitsAre(field);
    EmptyToken(field);
    match term
    case All =>
    case Just(a) =>
      SaidIs(field, a);
      JustReads(a, lo, hi, NamesOf(field), step);
    case FromTo(a, b) =>
      SaidIs(field, a);
      SaidIs(field, b);
      FromToReads(a, b, lo, hi, NamesOf(field), step);
  }

  lemma TermText(field: nat, term: Term)
    requires TermSays(field, term)
    ensures PrintTerm(term) != "" && AllWordy(PrintTerm(term)) && Free(PrintTerm(term), '/')
  {
    match term
    case All =>
    case Just(a) => TokenText(field, a);
    case FromTo(a, b) =>
      TokenText(field, a);
      TokenText(field, b);
  }

  lemma PartText(field: nat, p: Part)
    requires TermSays(field, p.term)
    ensures PrintPart(p) != "" && AllWordy(PrintPart(p))
  {
    TermText(field, p.term);
    if p.step.Some? {
      NumberText(p.step.value);
    }
  }

  /** What a part is read as: what it stands for, if it is fine, and otherwise nothing. */
  function AsRange(field: nat, p: Part): (r: Option<Range>)
    requires field < 5
  {
    if Fine(field, p) then Some(Range(Start(field, p.term), End(field, p.term), StepOf(p), p.term.All?)) else None
  }

  /** A part is accepted exactly when it is fine, and read as what it stands for. */
  lemma PartReads(field: nat, p: Part)
    requires field < 5 && TermSays(field, p.term)
    ensures ParsePart(PrintPart(p), LIMITS[field].0, LIMITS[field].1, NamesOf(field)) == AsRange(field, p)
  {
    var text := PrintTerm(p.term);
    TermText(field, p.term);
    TermReads(field, p.term, StepOf(p));
    if p.step.None? {
      assert PrintPart(p) == text;
      IndexFree(text, '/');
    } else {
      assert PrintPart(p) == text + ['/'] + FormatInt(p.step.value);
      IndexAt(text, '/', FormatInt(p.step.value));
      ParseFormatted(p.step.value);
    }
  }

  lemma RangeStands(field: nat, p: Part, v: int)
    requires field < 5 && Fine(field, p)
    ensures Denotes(AsRange(field, p).value, v) <==> Stands(field, p, v)
  {
  }

  // ----- fields

  predicate FieldSays(field: nat, ps: seq<Part>) {
    ps != [] && forall j :: 0 <= j < |ps| ==> TermSays(field, ps[j].term)
  }

  predicate AllFine(field: nat, ps: seq<Part>)
    requires field < 5
  {
    forall j :: 0 <= j < |ps| ==> Fine(field, ps[j])
  }

  /** Splitting at a character that is in no text gives the texts back. */
  lemma {:induction false} SplitSeparated(ts: seq<string>, c: char)
    requires ts != [] && forall i :: 0 <= i < |ts| ==> Free(ts[i], c)
    ensures SplitOn(Separated(ts, c), c) == ts
    decreases |ts|
  {
    if |ts| == 1 {
      IndexFree(ts[0], c);
    } else {
      var rest := Separated(ts[1..], c);
      IndexAt(ts[0], c, rest);
      SplitSeparated(ts[1..], c);
      assert ts == [ts[0]] + ts[1..];
    }
  }

  lemma WordyIsFree(s: string, c: char)
    requires AllWordy(s) && !Wordy(c)
    ensures Free(s, c)
  {
  }

  /** The parts read as these ranges. */
  ghost predicate ReadAs(field: nat, ps: seq<Part>, ranges: seq<Range>)
    requires field < 5
  {
    |ranges| == |ps| && forall j :: 0 <= j < |ps| ==> AsRange(field, ps[j]) == Some(ranges[j])
  }

  /** All of them, if each is there. */
  function Collect(rs: seq<Option<Range>>): (r: Option<seq<Range>>) {
    if rs == [] then Some([])
    else
      var front, last := Collect(rs[..|rs| - 1]), rs[|rs| - 1];
      if front.None? || last.None? then None else Some(front.value + [last.value])
  }

  function EachPart(ts: seq<string>, lo: int, hi: int, names: map<string, int>): (rs: seq<Option<Range>>)
    ensures |rs| == |ts| && forall i :: 0 <= i < |ts| ==> rs[i] == ParsePart(ts[i], lo, hi, names)
  {
    seq(|ts|, i requires 0 <= i < |ts| => ParsePart(ts[i], lo, hi, names))
  }

  lemma {:induction false} PartsCollected(ts: seq<string>, n: nat, lo: int, hi: int, names: map<string, int>)
    requires n <= |ts|
    ensures ParseParts(ts[..n], lo, hi, names) == Collect(EachPart(ts, lo, hi, names)[..n])
    decreases n
  {
    var rs := EachPart(ts, lo, hi, names);
    if n == 0 {
      assert ts[..0] == [] && rs[..0] == [];
    } else {
      PartsCollected(ts, n - 1, lo, hi, names);
      NextPart(ts, n - 1, lo, hi, names);
      CollectNext(rs, n - 1);
    }
  }

  lemma CollectNext(rs: seq<Option<Range>>, i: nat)
    requires i < |rs|
    ensures var front := Collect(rs[..i]);
            Collect(rs[..i + 1]) == if front.None? || rs[i].None? then None else Some(front.value + [rs[i].value])
  {
    assert rs[..i + 1][..i] == rs[..i];
  }

  function EachRange(field: nat, ps: seq<Part>): (rs: seq<Option<Range>>)
    requires field < 5
    ensures |rs| == |ps| && forall i :: 0 <= i < |ps| ==> rs[i] == AsRange(field, ps[i])
  {
    seq(|ps|, i requires 0 <= i < |ps| => AsRange(field, ps[i]))
  }

  lemma {:induction false} PartsRead(field: nat, ps: seq<Part>)
    requires field < 5
    ensures var r := Collect(EachRange(field, ps));
            (r.Some? <==> AllFine(field, ps)) && (r.Some? ==> ReadAs(field, ps, r.value))
  {
    if ps != [] {
      var front, last := ps[..|ps| - 1], ps[|ps| - 1];
      PartsRead(field, front);
      assert EachRange(field, ps)[..|ps| - 1] == EachRange(field, front);
      PartsNext(field, front, last, Collect(EachRange(field, front)));
      assert ps == front + [last];
    }
  }

  lemma PartsNext(field: nat, front: seq<Part>, last: Part, r: Option<seq<Range>>)
    requires field < 5 && (r.Some? <==> AllFine(field, front)) && (r.Some? ==> ReadAs(field, front, r.value))
    ensures var range, ps := AsRange(field, last), front + [last];
            && (AllFine(field, ps) <==> r.Some? && range.Some?)
            && (r.Some? && range.Some? ==> ReadAs(field, ps, r.value + [range.value]))
  {
    var ps := front + [last];
    assert forall j :: 0 <= j < |front| ==> ps[j] == front[j];
    assert ps[|front|] == last;
  }

  lemma FieldReads(field: nat, ps: seq<Part>)
    requires field < 5 && FieldSays(field, ps)
    ensures var r := ParseParts(SplitOn(PrintField(ps), ','), Lowest(field), Highest(field), NamesOf(field));
            (r.Some? <==> AllFine(field, ps)) && (r.Some? ==> ReadAs(field, ps, r.value))
  {
    var ts := PrintParts(ps);
    forall i | 0 <= i < |ts| ensures Free(ts[i], ',') {
      PartText(field, ps[i]);
      WordyIsFree(ts[i], ',');
    }
    SplitSeparated(ts, ',');
    var lo, hi, names := Lowest(field), Highest(field), NamesOf(field);
    LimitsAre(field);
    forall j | 0 <= j < |ps| ensures ParsePart(ts[j], lo, hi, names) == AsRange(field, ps[j]) {
      PartReads(field, ps[j]);
    }
    PartsCollected(ts, |ts|, lo, hi, names);
    assert EachPart(ts, lo, hi, names)[..|ts|] == EachRange(field, ps) && ts[..|ts|] == ts;
    PartsRead(field, ps);
  }

  lemma ReadAsDenotes(field: nat, ps: seq<Part>, ranges: seq<Range>, v: int)
    requires field < 5 && ReadAs(field, ps, ranges)
    ensures Denoted(ranges, v) <==> FieldHas(field, ps, v)
  {
    forall j | 0 <= j < |ps| ensures Denotes(ranges[j], v) <==> Stands(field, ps[j], v) {
      assert AsRange(field, ps[j]) == Some(ranges[j]);
      RangeStands(field, ps[j], v);
    }
  }

  /** A part of the field is a star. */
  ghost predicate HasStar(ps: seq<Part>) {
    exists j :: 0 <= j < |ps| && ps[j].term.All?
  }

  lemma ReadAsStar(field: nat, ps: seq<Part>, ranges: seq<Range>)
    requires field < 5 && ReadAs(field, ps, ranges)
    ensures AnyStar(ranges) <==> HasStar(ps)
  {
    forall j | 0 <= j < |ps| ensures ranges[j].star <==> ps[j].term.All? {
      assert AsRange(field, ps[j]) == Some(ranges[j]);
    }
  }

  /** No step overflows on its first addition. */
  ghost predicate SmallSteps(field: nat, ps: seq<Part>)
    requires field < 5
  {
    forall j :: 0 <= j < |ps| ==> Start(field, ps[j].term) + StepOf(ps[j]) <= MAX_INT64
  }

  lemma ReadAsSmall(field: nat, ps: seq<Part>, ranges: seq<Range>)
    requires field < 5 && ReadAs(field, ps, ranges)
    ensures NoOverflow(ranges) <==> SmallSteps(field, ps)
  {
    forall j | 0 <= j < |ps|
      ensures ranges[j].start == Start(field, ps[j].term) && ranges[j].step == StepOf(ps[j])
    {
      assert AsRange(field, ps[j]) == Some(ranges[j]);
    }
  }

  // ----- the expression

  predicate NoSpace(s: string) {
    s != "" && forall i :: 0 <= i < |s| ==> !IsSpace(s[i])
  }

  lemma {:induction false} WordLengthOf(w: string, rest: string)
    requires (forall i :: 0 <= i < |w| ==> !IsSpace(w[i])) && (rest == "" || IsSpace(rest[0]))
    ensures WordLength(w + rest) == |w|
  {
    if w == "" {
      assert w + rest == rest;
    } else {
      WordLengthOf(w[1..], rest);
      assert (w + rest)[1..] == w[1..] + rest;
    }
  }

  lemma FirstWord(w: string, rest: string)
    requires NoSpace(w) && (rest == "" || IsSpace(rest[0]))
    ensures Words(w + rest) == [w] + Words(rest)
  {
    WordLengthOf(w, rest);
    var s := w + rest;
    assert TrimLeft(s) == s && s[..|w|] == w && s[|w|..] == rest;
  }

  lemma SpaceWord(s: string)
    ensures Words(" " + s) == Words(s)
  {
    assert (" " + s)[1..] == s;
    assert TrimLeft(" " + s) == TrimLeft(s);
  }

  lemma {:induction false} WordsSeparated(ts: seq<string>)
    requires forall i :: 0 <= i < |ts| ==> NoSpace(ts[i])
    ensures Words(Separated(ts, ' ')) == ts
    decreases |ts|
  {
    if |ts| == 1 {
      FirstWord(ts[0], "");
      assert ts[0] + "" == ts[0];
    } else if |ts| > 1 {
      var rest := Separated(ts[1..], ' ');
      assert ts[0] + [' '] + rest == ts[0] + (" " + rest);
      FirstWord(ts[0], " " + rest);
      SpaceWord(rest);
      WordsSeparated(ts[1..]);
      assert ts == [ts[0]] + ts[1..];
    }
  }

  lemma {:induction false} SeparatedEnds(ts: seq<string>)
    requires ts != [] && forall i :: 0 <= i < |ts| ==> NoSpace(ts[i])
    ensures var s := Separated(ts, ' '); s != "" && !IsSpace(s[0]) && !IsSpace(s[|s| - 1])
    decreases |ts|
  {
    if |ts| > 1 {
      SeparatedEnds(ts[1..]);
    }
  }

  lemma {:induction false} SeparatedNoSpace(ts: seq<string>)
    requires ts != [] && forall i :: 0 <= i < |ts| ==> NoSpace(ts[i])
    ensures NoSpace(Separated(ts, ','))
    decreases |ts|
  {
    if |ts| > 1 {
      SeparatedNoSpace(ts[1..]);
    }
  }

  lemma FieldText(field: nat, ps: seq<Part>)
    requires FieldSays(field, ps)
    ensures NoSpace(PrintField(ps))
  {
    var ts := PrintParts(ps);
    forall i | 0 <= i < |ts| ensures NoSpace(ts[i]) {
      PartText(field, ps[i]);
      WordyNoSpace(ts[i]);
    }
    SeparatedNoSpace(ts);
  }

  lemma WordyNoSpace(s: string)
    requires s != "" && AllWordy(s)
    ensures NoSpace(s)
  {
    forall i | 0 <= i < |s| ensures !IsSpace(s[i]) {
      assert Wordy(s[i]);
    }
  }

  /** Fields, each of parts with the tokens of its table. */
  predicate Written(fs: seq<seq<Part>>) {
    forall i :: 0 <= i < |fs| ==> FieldSays(i, fs[i])
  }

  lemma SpecWords(fs: seq<seq<Part>>)
    requires Written(fs)
    ensures Words(TrimSpace(PrintSpec(fs))) == PrintFields(fs)
  {
    var ts := PrintFields(fs);
    forall i | 0 <= i < |ts| ensures NoSpace(ts[i]) {
      FieldText(i, fs[i]);
    }
    if fs != [] {
      SeparatedEnds(ts);
      TrimSpaceNothing(PrintSpec(fs));
    }
    WordsSeparated(ts);
  }

  lemma SpecField(fs: seq<seq<Part>>, i: nat)
    requires Written(fs) && |fs| == 5 && i < 5
    ensures var r := FieldRanges(PrintFields(fs), i);
            (r.Some? <==> AllFine(i, fs[i])) && (r.Some? ==> ReadAs(i, fs[i], r.value))
  {
    FieldReads(i, fs[i]);
  }

  /** A written expression is accepted exactly when it has five fields and each part of each is fine. */
  lemma WrittenAccepted(fs: seq<seq<Part>>)
    requires Written(fs)
    ensures Accepted(PrintSpec(fs)) <==> |fs| == 5 && forall i :: 0 <= i < 5 ==> AllFine(i, fs[i])
    ensures Accepted(PrintSpec(fs)) ==> forall i :: 0 <= i < 5 ==> ReadAs(i, fs[i], RangesOf(PrintSpec(fs), i))
  {
    SpecWords(fs);
    forall i: nat | |fs| == 5 && i < 5
      ensures var r := FieldRanges(PrintFields(fs), i);
              (r.Some? <==> AllFine(i, fs[i])) && (r.Some? ==> ReadAs(i, fs[i], r.value))
    {
      SpecField(fs, i);
    }
  }

  /** A list holds exactly the values of a field, ascending. */
  ghost predicate Values(field: nat, ps: seq<Part>, vals: seq<int>)
    requires field < 5
  {
    Ascending(vals) && forall x :: x in vals <==> FieldHas(field, ps, x)
  }

  /** What parsing a written and accepted expression gives, unless a step overflows: for each field exactly the values
      of its parts, except that a star leaves the days open and 7 is Sunday. */
  lemma WrittenParses(fs: seq<seq<Part>>, e: CronExpr)
    requires Written(fs) && |fs| == 5 && forall i :: 0 <= i < 5 ==> AllFine(i, fs[i]) && SmallSteps(i, fs[i])
    requires Accepted(PrintSpec(fs)) && Parses(PrintSpec(fs), e)
    ensures Values(0, fs[0], e.minute) && Values(1, fs[1], e.hour) && Values(3, fs[3], e.month)
    ensures e.dom.None? <==> HasStar(fs[2])
    ensures e.dom.Some? ==> Values(2, fs[2], e.dom.value)
    ensures e.dow.None? <==> HasStar(fs[4])
    ensures e.dow.Some? ==> forall x :: x in e.dow.value <==>
                              (x != 7 && FieldHas(4, fs[4], x)) || (x == 0 && FieldHas(4, fs[4], 7))
  {
    var spec := PrintSpec(fs);
    WrittenAccepted(fs);
    forall i: nat | i < 5 ensures NoOverflow(RangesOf(spec, i)) && (AnyStar(RangesOf(spec, i)) <==> HasStar(fs[i])) {
      assert ReadAs(i, fs[i], RangesOf(spec, i));
      ReadAsSmall(i, fs[i], RangesOf(spec, i));
      ReadAsStar(i, fs[i], RangesOf(spec, i));
    }
    AcceptedIsExact(spec, e);
    forall i: nat, x | i < 5 ensures Denoted(RangesOf(spec, i), x) <==> FieldHas(i, fs[i], x) {
      assert ReadAs(i, fs[i], RangesOf(spec, i));
      ReadAsDenotes(i, fs[i], RangesOf(spec, i), x);
    }
  }
}
