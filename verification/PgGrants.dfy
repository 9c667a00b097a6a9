/** Paired grants of internal/pgdiag/pgdiag.go: the statements that are built, and what a database that reads their text
    does. */
module PgGrants {
  import opened Wrappers
  import opened Text
  import opened GoStrings
  import opened PgIdent

  datatype Kind = Schema | Relation

  /** GRANT or REVOKE of privileges on one object, to or from the role. */
  datatype Stmt = Stmt(grant: bool, privileges: seq<string>, kind: Kind, ident: string)

  /** The objects a role was denied. */
  datatype Denied = Denied(tables: seq<string>, sequences: seq<string>, schemas: seq<string>)

  const USAGE: seq<string> := ["USAGE"]
  const SELECT: seq<string> := ["SELECT"]
  const BOTH: seq<string> := ["USAGE", "SELECT"]

  /** The quoted schema names that are acceptable. */
  function SchemaIdents(schemas: seq<string>): (ids: seq<string>) {
    if schemas == [] then []
    else
      var clean := CleanPart(schemas[|schemas| - 1]);
      SchemaIdents(schemas[..|schemas| - 1]) + if clean == "" then [] else [QuoteIdent(clean)]
  }

  /** The sanitised relation names that are acceptable. */
  function RelationIdents(names: seq<string>): (ids: seq<string>) {
    if names == [] then []
    else
      var q := SanitizeQualified(names[|names| - 1]);
      RelationIdents(names[..|names| - 1]) + if q == "" then [] else [q]
  }

  function Stmts(ids: seq<string>, privileges: seq<string>, kind: Kind, grant: bool): (ss: seq<Stmt>)
    ensures |ss| == |ids| && forall i :: 0 <= i < |ids| ==> ss[i] == Stmt(grant, privileges, kind, ids[i])
  {
    seq(|ids|, i requires 0 <= i < |ids| => Stmt(grant, privileges, kind, ids[i]))
  }

  /** Schemas come first when granting, last when revoking. */
  function Arranged(schemas: seq<string>, tables: seq<string>, sequences: seq<string>, grant: bool): (ss: seq<Stmt>) {
    var s := Stmts(schemas, USAGE, Schema, grant);
    var t := Stmts(tables, SELECT, Relation, grant);
    var q := Stmts(sequences, BOTH, Relation, grant);
    if grant then s + t + q else t + q + s
  }

  function ElevationStmts(obj: Denied, grant: bool): (ss: seq<Stmt>) {
    Arranged(SchemaIdents(obj.schemas), RelationIdents(obj.tables), RelationIdents(obj.sequences), grant)
  }

  /** The loops over schemas. */
  method AcceptSchemas(schemas: seq<string>) returns (ids: seq<string>)
    ensures ids == SchemaIdents(schemas)
  {
    ids := [];
    for i := 0 to |schemas|
      invariant ids == SchemaIdents(schemas[..i])
    {
      assert schemas[..i + 1][..i] == schemas[..i];
      var clean := CleanPart(schemas[i]);
      if clean != "" {
        ids := ids + [QuoteIdent(clean)];
      }
    }
    assert schemas[..|schemas|] == schemas;
  }

  /** The loops over tables and over sequences. */
  method AcceptRelations(names: seq<string>) returns (ids: seq<string>)
    ensures ids == RelationIdents(names)
  {
    ids := [];
    for i := 0 to |names|
      invariant ids == RelationIdents(names[..i])
    {
      assert names[..i + 1][..i] == names[..i];
      var q := Sanitize(names[i]);
      if q != "" {
        ids := ids + [q];
      }
    }
    assert names[..|names|] == names;
  }

  // ----- the text of the statements

  function Verb(grant: bool): string {
    if grant then "GRANT " else "REVOKE "
  }

  /** The three lists of privileges, as they are written. */
  function Listed(privileges: seq<string>): string {
    if privileges == USAGE then "USAGE" else if privileges == SELECT then "SELECT" else "USAGE, SELECT"
  }

  function On(kind: Kind): string {
    if kind == Schema then " ON SCHEMA " else " ON "
  }

  function Towards(grant: bool): string {
    if grant then " TO " else " FROM "
  }

  function Ending(grant: bool, role: string): string {
    Towards(grant) + QuoteIdent(role)
  }

  function AfterVerb(s: Stmt, role: string): string {
    Listed(s.privileges) + (On(s.kind) + (s.ident + Ending(s.grant, role)))
  }

  function SqlText(s: Stmt, role: string): string {
    Verb(s.grant) + AfterVerb(s, role)
  }

  function Texts(ss: seq<Stmt>, role: string): (ts: seq<string>)
    ensures |ts| == |ss| && forall i :: 0 <= i < |ss| ==> ts[i] == SqlText(ss[i], role)
  {
    seq(|ss|, i requires 0 <= i < |ss| => SqlText(ss[i], role))
  }

  function Idents(ss: seq<Stmt>): (ids: seq<string>)
    ensures |ids| == |ss| && forall i :: 0 <= i < |ss| ==> ids[i] == ss[i].ident
  {
    seq(|ss|, i requires 0 <= i < |ss| => ss[i].ident)
  }

  /** A statement's identifier and text. */
  function Pairs(ss: seq<Stmt>, role: string): (out: seq<(string, string)>)
    ensures |out| == |ss|
    ensures forall i :: 0 <= i < |ss| ==> out[i].0 == Idents(ss)[i] && out[i].1 == Texts(ss, role)[i]
  {
    seq(|ss|, i requires 0 <= i < |ss| => (ss[i].ident, SqlText(ss[i], role)))
  }

  /** The last loop of elevationStatements. */
  method Separate(out: seq<(string, string)>) returns (stmts: seq<string>, ids: seq<string>)
    ensures |stmts| == |ids| == |out|
    ensures forall i :: 0 <= i < |out| ==> ids[i] == out[i].0 && stmts[i] == out[i].1
  {
    stmts, ids := [], [];
    for i := 0 to |out|
      invariant |stmts| == |ids| == i
      invariant forall j :: 0 <= j < i ==> ids[j] == out[j].0 && stmts[j] == out[j].1
    {
      stmts := stmts + [out[i].1];
      ids := ids + [out[i].0];
    }
  }

  /** How SQL reads a name: quoted identifiers with dots between them, and what follows. */
  function ReadName(s: string): (r: Option<(seq<string>, string)>)
    decreases |s|
  {
    if s == "" || s[0] != QUOTE then None
    else
      var r := ReadQuoted(s[1..], QUOTE);
      if r.None? then None
      else if r.value.1 != "" && r.value.1[0] == '.' then
        var more := ReadName(r.value.1[1..]);
        if more.None? then None else Some(([r.value.0] + more.value.0, more.value.1))
      else Some(([r.value.0], r.value.1))
  }

  lemma IdentReadsBack(c: string, rest: string)
    requires rest == "" || rest[0] != QUOTE
    ensures (QuoteIdent(c) + rest)[0] == QUOTE && ReadQuoted((QuoteIdent(c) + rest)[1..], QUOTE) == Some((c, rest))
  {
    QuotedReadsBack(c, QUOTE, rest);
    assert (QuoteIdent(c) + rest)[1..] == Doubled(c, QUOTE) + [QUOTE] + rest;
  }

  /** A sanitised name reads back as the identifiers it was made of, whatever characters they hold. */
  lemma {:induction false} NameReadsBack(cs: seq<string>, rest: string)
    requires cs != [] && (rest == "" || (rest[0] != QUOTE && rest[0] != '.'))
    ensures ReadName(Join(QuoteAll(cs)) + rest) == Some((cs, rest))
    decreases |cs|
  {
    var qs := QuoteAll(cs);
    if |cs| == 1 {
      IdentReadsBack(cs[0], rest);
      assert [cs[0]] == cs;
    } else {
      assert qs[1..] == QuoteAll(cs[1..]);
      var tail := "." + (Join(qs[1..]) + rest);
      assert Join(qs) + rest == QuoteIdent(cs[0]) + tail;
      IdentReadsBack(cs[0], tail);
      assert tail[1..] == Join(qs[1..]) + rest;
      NameReadsBack(cs[1..], rest);
      assert [cs[0]] + cs[1..] == cs;
    }
  }

  /** The identifiers a statement's name is made of. */
  ghost predicate MadeOf(ident: string, cs: seq<string>) {
    && cs != [] && ident == Join(QuoteAll(cs))
    && forall i :: 0 <= i < |cs| ==> cs[i] != "" && NoControl(cs[i])
  }

  lemma {:induction false} SchemasMadeOf(schemas: seq<string>, i: nat) returns (cs: seq<string>)
    requires i < |SchemaIdents(schemas)|
    ensures MadeOf(SchemaIdents(schemas)[i], cs)
  {
    var front := schemas[..|schemas| - 1];
    if i < |SchemaIdents(front)| {
      cs := SchemasMadeOf(front, i);
    } else {
      cs := [CleanPart(schemas[|schemas| - 1])];
      CleanHasNoControl(schemas[|schemas| - 1]);
    }
  }

  lemma {:induction false} RelationsMadeOf(names: seq<string>, i: nat) returns (cs: seq<string>)
    requires i < |RelationIdents(names)|
    ensures MadeOf(RelationIdents(names)[i], cs)
  {
    var front, last := names[..|names| - 1], names[|names| - 1];
    if i < |RelationIdents(front)| {
      cs := RelationsMadeOf(front, i);
    } else {
      var parts := SplitFrom(TrimSpace(last), '.', false, "");
      cs := CleanAll(parts);
      forall j | 0 <= j < |cs| ensures cs[j] != "" && NoControl(cs[j]) {
        CleanHasNoControl(parts[j]);
        assert cs[j] in cs;
      }
    }
  }

  lemma StatementMadeOf(obj: Denied, grant: bool, i: nat) returns (cs: seq<string>)
    requires i < |ElevationStmts(obj, grant)|
    ensures MadeOf(ElevationStmts(obj, grant)[i].ident, cs)
  {
    var s, t, q := |SchemaIdents(obj.schemas)|, |RelationIdents(obj.tables)|, |RelationIdents(obj.sequences)|;
    var before := if grant then s else 0;
    if grant && i < s {
      cs := SchemasMadeOf(obj.schemas, i);
    } else if i < before + t {
      cs := RelationsMadeOf(obj.tables, i - before);
    } else if i < before + t + q {
      cs := RelationsMadeOf(obj.sequences, i - before - t);
    } else {
      cs := SchemasMadeOf(obj.schemas, i - t - q);
    }
  }

  lemma RoleReadsBack(role: string)
    ensures ReadName(QuoteIdent(role)) == Some(([role], ""))
  {
    NameReadsBack([role], "");
    assert Join(QuoteAll([role])) + "" == QuoteIdent(role);
  }

  // ----- a reader of GRANT and REVOKE

  /** A statement as a database understands it. */
  datatype Command = Command(grant: bool, privileges: seq<string>, kind: Kind, name: seq<string>, role: string)

  /** What is left of a text after the word it must begin with. */
  function Skip(s: string, word: string): (rest: Option<string>) {
    if word <= s then Some(s[|word|..]) else None
  }

  function Letters(s: string): (n: nat)
    ensures n <= |s|
  {
    if s != "" && 'A' <= s[0] <= 'Z' then 1 + Letters(s[1..]) else 0
  }

  /** Words with commas between them, and what follows. */
  function ReadList(s: string): (r: (seq<string>, string))
    decreases |s|
  {
    var word, rest := s[..Letters(s)], s[Letters(s)..];
    if ", " <= rest then
      var more := ReadList(rest[2..]);
      ([word] + more.0, more.1)
    else ([word], rest)
  }

  /** `GRANT` or `REVOKE`, and what follows. */
  function ReadVerb(s: string): (r: Option<(bool, string)>) {
    var grant, revoke := Skip(s, "GRANT "), Skip(s, "REVOKE ");
    if grant.Some? then Some((true, grant.value)) else if revoke.Some? then Some((false, revoke.value)) else None
  }

  /** `ON` or `ON SCHEMA`, and what follows. */
  function ReadOn(s: string): (r: Option<(Kind, string)>) {
    var on := Skip(s, " ON ");
    if on.None? then None
    else
      var schema := Skip(on.value, "SCHEMA ");
      if schema.Some? then Some((Schema, schema.value)) else Some((Relation, on.value))
  }

  /** `TO role` or `FROM role` at the end. */
  function ReadRole(s: string, towards: string): (r: Option<string>) {
    var role := Skip(s, towards);
    if role.None? then None
    else
      var name := ReadName(role.value);
      if name.Some? && |name.value.0| == 1 && name.value.1 == "" then Some(name.value.0[0]) else None
  }

  function ReadCommand(text: string): (r: Option<Command>) {
    var verb := ReadVerb(TrimLeft(text));
    if verb.None? then None
    else
      var list := ReadList(verb.value.1);
      var on := ReadOn(list.1);
      if on.None? then None
      else
        var name := ReadName(on.value.1);
        if name.None? then None
        else
          var role := ReadRole(name.value.1, if verb.value.0 then " TO " else " FROM ");
          if role.None? then None
          else Some(Command(verb.value.0, list.0, on.value.0, name.value.0, role.value))
  }

  lemma {:induction false} LettersOf(w: string, rest: string)
    requires (forall i :: 0 <= i < |w| ==> 'A' <= w[i] <= 'Z') && (rest == "" || !('A' <= rest[0] <= 'Z'))
    ensures Letters(w + rest) == |w|
  {
    if w == "" {
      assert w + rest == rest;
    } else {
      LettersOf(w[1..], rest);
      assert (w + rest)[1..] == w[1..] + rest;
    }
  }

  lemma WordReads(w: string, rest: string)
    requires w in {"USAGE", "SELECT"} && rest != "" && rest[0] == ' '
    ensures ReadList(w + rest) == ([w], rest)
  {
    LettersOf(w, rest);
    assert (w + rest)[..|w|] == w && (w + rest)[|w|..] == rest;
  }

  lemma ListReads(privileges: seq<string>, rest: string)
    requires privileges in {USAGE, SELECT, BOTH} && rest != "" && rest[0] == ' '
    ensures ReadList(Listed(privileges) + rest) == (privileges, rest)
  {
    if privileges == BOTH {
      TwoReads(rest);
    } else {
      WordReads(Listed(privileges), rest);
    }
  }

  lemma TwoReads(rest: string)
    requires rest != "" && rest[0] == ' '
    ensures ReadList("USAGE, SELECT" + rest) == (BOTH, rest)
  {
    var tail := ", " + ("SELECT" + rest);
    var s := "USAGE" + tail;
    assert "USAGE, SELECT" + rest == s;
    LettersOf("USAGE", tail);
    assert s[..5] == "USAGE" && s[5..] == tail;
    assert ", " <= tail && tail[2..] == "SELECT" + rest;
    WordReads("SELECT", rest);
    assert ["USAGE"] + ["SELECT"] == BOTH;
  }

  lemma SkipReads(word: string, rest: string)
    ensures Skip(word + rest, word) == Some(rest)
  {
    assert (word + rest)[|word|..] == rest;
  }

  lemma OnReads(kind: Kind, name: string)
    requires name != "" && name[0] == QUOTE
    ensures ReadOn(On(kind) + name) == Some((kind, name))
  {
    if kind == Schema {
      assert On(kind) + name == " ON " + ("SCHEMA " + name);
      SkipReads(" ON ", "SCHEMA " + name);
      SkipReads("SCHEMA ", name);
    } else {
      SkipReads(" ON ", name);
    }
  }

  lemma VerbReads(grant: bool, rest: string)
    ensures ReadVerb(TrimLeft(Verb(grant) + rest)) == Some((grant, rest))
  {
    SkipReads(Verb(grant), rest);
    if !grant {
      assert (Verb(grant) + rest)[0] == 'R';
    }
  }

  lemma RoleReads(grant: bool, role: string)
    ensures ReadRole(Ending(grant, role), if grant then " TO " else " FROM ") == Some(role)
  {
    SkipReads(Towards(grant), QuoteIdent(role));
    RoleReadsBack(role);
  }

  /** Read as SQL, a statement that is built is the verb, the privileges, the kind of target, the identifiers of its
      name and the role: no character of a name or of the role is read as anything else. */
  lemma StatementReadsBack(s: Stmt, cs: seq<string>, role: string)
    requires MadeOf(s.ident, cs) && s.privileges in {USAGE, SELECT, BOTH}
    ensures ReadCommand(SqlText(s, role)) == Some(Command(s.grant, s.privileges, s.kind, cs, role))
  {
    var end := Ending(s.grant, role);
    JoinEnds(QuoteAll(cs));
    VerbReads(s.grant, AfterVerb(s, role));
    ListReads(s.privileges, On(s.kind) + (s.ident + end));
    OnReads(s.kind, s.ident + end);
    NameReadsBack(cs, end);
    RoleReads(s.grant, role);
  }

  // ----- the script of all statements

  /** The statements joined with a semicolon and a line break, and a semicolon at the end. */
  function Script(ts: seq<string>): string {
    if ts == [] then "" else if |ts| == 1 then ts[0] + ";" else ts[0] + ";" + "\n" + Script(ts[1..])
  }

  predicate PlainText(s: string) {
    forall i :: 0 <= i < |s| ==> s[i] != QUOTE && s[i] != ';'
  }

  /** Outside quotes, the scan for semicolons reads the text as it is. */
  ghost predicate Whole(t: string) {
    forall rest, cur :: SplitFrom(t + rest, ';', false, cur) == SplitFrom(rest, ';', false, cur + t)
  }

  lemma {:induction false} PlainIsWhole(t: string)
    requires PlainText(t)
    ensures Whole(t)
    decreases |t|
  {
    forall rest, cur ensures SplitFrom(t + rest, ';', false, cur) == SplitFrom(rest, ';', false, cur + t) {
      if t == "" {
        assert t + rest == rest && cur + t == cur;
      } else {
        PlainIsWhole(t[1..]);
        assert (t + rest)[1..] == t[1..] + rest && cur + [t[0]] + t[1..] == cur + t;
      }
    }
  }

  lemma QuotedIsWhole(c: string)
    ensures Whole(QuoteIdent(c))
  {
    forall rest, cur
      ensures SplitFrom(QuoteIdent(c) + rest, ';', false, cur) == SplitFrom(rest, ';', false, cur + QuoteIdent(c))
    {
      ScanQuoted(c, ';', rest, cur);
    }
  }

  lemma WholeConcat(a: string, b: string)
    requires Whole(a) && Whole(b)
    ensures Whole(a + b)
  {
    forall rest, cur ensures SplitFrom(a + b + rest, ';', false, cur) == SplitFrom(rest, ';', false, cur + (a + b)) {
      assert a + b + rest == a + (b + rest) && cur + a + b == cur + (a + b);
      assert SplitFrom(a + (b + rest), ';', false, cur) == SplitFrom(b + rest, ';', false, cur + a);
    }
  }

  lemma {:induction false} NameIsWhole(cs: seq<string>)
    requires cs != []
    ensures Whole(Join(QuoteAll(cs)))
    decreases |cs|
  {
    var qs := QuoteAll(cs);
    QuotedIsWhole(cs[0]);
    if |cs| > 1 {
      assert qs[1..] == QuoteAll(cs[1..]);
      NameIsWhole(cs[1..]);
      PlainIsWhole(".");
      WholeConcat(qs[0], ".");
      WholeConcat(qs[0] + ".", Join(qs[1..]));
    }
  }

  lemma WordsAreWhole(grant: bool, privileges: seq<string>, kind: Kind)
    ensures Whole(Verb(grant)) && Whole(Listed(privileges)) && Whole(On(kind)) && Whole(Towards(grant))
  {
    PlainIsWhole(Verb(grant));
    PlainIsWhole(Listed(privileges));
    PlainIsWhole(On(kind));
    PlainIsWhole(Towards(grant));
  }

  lemma StatementIsWhole(s: Stmt, role: string, cs: seq<string>)
    requires MadeOf(s.ident, cs)
    ensures Whole(SqlText(s, role))
  {
    var end := Ending(s.grant, role);
    WordsAreWhole(s.grant, s.privileges, s.kind);
    NameIsWhole(cs);
    QuotedIsWhole(role);
    WholeConcat(Towards(s.grant), QuoteIdent(role));
    WholeConcat(s.ident, end);
    WholeConcat(On(s.kind), s.ident + end);
    WholeConcat(Listed(s.privileges), On(s.kind) + (s.ident + end));
    WholeConcat(Verb(s.grant), AfterVerb(s, role));
  }

  /** The statements as a reader of the script finds them, each after the first on a new line. */
  function OnLines(ts: seq<string>, cur: string): seq<string> {
    if ts == [] then [] else [cur + ts[0]] + OnLines(ts[1..], "\n")
  }

  lemma {:induction false} ScriptSplits(ts: seq<string>, cur: string)
    requires ts != [] && forall i :: 0 <= i < |ts| ==> Whole(ts[i])
    ensures SplitFrom(Script(ts), ';', false, cur) == OnLines(ts, cur)
    decreases |ts|
  {
    if |ts| == 1 {
      assert SplitFrom(ts[0] + ";", ';', false, cur) == SplitFrom(";", ';', false, cur + ts[0]);
      assert ";"[1..] == "" && ts[1..] == [];
    } else {
      var rest := ";" + ("\n" + Script(ts[1..]));
      assert Script(ts) == ts[0] + rest;
      assert SplitFrom(ts[0] + rest, ';', false, cur) == SplitFrom(rest, ';', false, cur + ts[0]);
      assert rest[1..] == "\n" + Script(ts[1..]);
      PlainIsWhole("\n");
      assert SplitFrom("\n" + Script(ts[1..]), ';', false, "") == SplitFrom(Script(ts[1..]), ';', false, "" + "\n");
      assert "" + "\n" == "\n";
      ScriptSplits(ts[1..], "\n");
    }
  }

  /** The script that is sent holds exactly the statements that were built: split at the semicolons
      outside quotes it gives them back, whatever names and role went into them. */
  lemma ScriptHoldsStatements(obj: Denied, grant: bool, role: string)
    requires ElevationStmts(obj, grant) != []
    ensures var ts := Texts(ElevationStmts(obj, grant), role); SplitFrom(Script(ts), ';', false, "") == OnLines(ts, "")
  {
    var ss := ElevationStmts(obj, grant);
    var ts := Texts(ss, role);
    forall i | 0 <= i < |ts| ensures Whole(ts[i]) {
      var cs := StatementMadeOf(obj, grant, i);
      StatementIsWhole(ss[i], role, cs);
    }
    ScriptSplits(ts, "");
  }

  // ----- what the statements do

  /** One privilege of one role on one object. */
  datatype Priv = Priv(role: string, kind: Kind, name: seq<string>, privilege: string)

  predicate Conveys(cmd: Command, p: Priv) {
    p.role == cmd.role && p.kind == cmd.kind && p.name == cmd.name && p.privilege in cmd.privileges
  }

  function Conveyed(cmd: Command): set<Priv> {
    set x | x in cmd.privileges :: Priv(cmd.role, cmd.kind, cmd.name, x)
  }

  function AfterCommand(held: Option<set<Priv>>, cmd: Option<Command>): (r: Option<set<Priv>>) {
    if held.None? || cmd.None? then None
    else Some(if cmd.value.grant then held.value + Conveyed(cmd.value) else held.value - Conveyed(cmd.value))
  }

  /** The privileges held after these commands. */
  function AfterAll(cmds: seq<Option<Command>>, held: set<Priv>): (r: Option<set<Priv>>) {
    if cmds == [] then Some(held) else AfterCommand(AfterAll(cmds[..|cmds| - 1], held), cmds[|cmds| - 1])
  }

  function ReadAll(ts: seq<string>): (cmds: seq<Option<Command>>)
    ensures |cmds| == |ts| && forall i :: 0 <= i < |ts| ==> cmds[i] == ReadCommand(ts[i])
  {
    seq(|ts|, i requires 0 <= i < |ts| => ReadCommand(ts[i]))
  }

  /** The privileges held after a database executed the texts in order; nothing if there is one it cannot read. */
  function Executed(ts: seq<string>, held: set<Priv>): (r: Option<set<Priv>>) {
    AfterAll(ReadAll(ts), held)
  }

  /** The same for a script: texts with semicolons, outside quotes, after them. */
  function ExecutedScript(script: string, held: set<Priv>): (r: Option<set<Priv>>) {
    Executed(SplitFrom(script, ';', false, ""), held)
  }

  /** The identifiers of a relation name that is accepted; none if it is refused. */
  function AcceptedName(name: string): (cs: seq<string>) {
    if SanitizeQualified(name) == "" then [] else CleanAll(SplitFrom(TrimSpace(name), '.', false, ""))
  }

  ghost predicate NamesRelation(names: seq<string>, cs: seq<string>) {
    cs != [] && exists i :: 0 <= i < |names| && AcceptedName(names[i]) == cs
  }

  ghost predicate NamesSchema(schemas: seq<string>, cs: seq<string>) {
    exists i :: 0 <= i < |schemas| && CleanPart(schemas[i]) != "" && cs == [CleanPart(schemas[i])]
  }

  /** What the role is to get: USAGE on each accepted schema, SELECT on each accepted table, USAGE and SELECT on each
      accepted sequence. */
  ghost predicate Wanted(obj: Denied, role: string, p: Priv) {
    && p.role == role
    && match p.kind
       case Schema => p.privilege == "USAGE" && NamesSchema(obj.schemas, p.name)
       case Relation =>
         || (p.privilege == "SELECT" && NamesRelation(obj.tables, p.name))
         || (p.privilege in {"USAGE", "SELECT"} && NamesRelation(obj.sequences, p.name))
  }

  /** Exactly the wanted privileges were added, or taken away. */
  ghost predicate Effect(obj: Denied, role: string, grant: bool, held: set<Priv>, after: Option<set<Priv>>) {
    && after.Some?
    && forall p :: p in after.value <==> if grant then p in held || Wanted(obj, role, p)
                                         else p in held && !Wanted(obj, role, p)
  }

  function NameIn(ident: string): seq<string> {
    if ReadName(ident).Some? then ReadName(ident).value.0 else []
  }

  function CommandOf(s: Stmt, role: string): Command {
    Command(s.grant, s.privileges, s.kind, NameIn(s.ident), role)
  }

  lemma MadeOfName(ident: string, cs: seq<string>)
    requires MadeOf(ident, cs)
    ensures NameIn(ident) == cs
  {
    NameReadsBack(cs, "");
    assert Join(QuoteAll(cs)) + "" == Join(QuoteAll(cs));
  }

  lemma ReadsAsCommand(obj: Denied, grant: bool, role: string, i: nat)
    requires i < |ElevationStmts(obj, grant)|
    ensures var s := ElevationStmts(obj, grant)[i];
            && s.grant == grant && ReadCommand(SqlText(s, role)) == Some(CommandOf(s, role))
            && s.ident == Join(QuoteAll(NameIn(s.ident)))
  {
    var s := ElevationStmts(obj, grant)[i];
    var cs := StatementMadeOf(obj, grant, i);
    MadeOfName(s.ident, cs);
    StatementReadsBack(s, cs, role);
  }

  /** Some statement conveys the privilege. */
  ghost predicate Mentions(ss: seq<Stmt>, role: string, p: Priv) {
    exists i :: 0 <= i < |ss| && Conveys(CommandOf(ss[i], role), p)
  }

  lemma MentionsConcat(a: seq<Stmt>, b: seq<Stmt>, role: string, p: Priv)
    ensures Mentions(a + b, role, p) <==> Mentions(a, role, p) || Mentions(b, role, p)
  {
    var c := a + b;
    if Mentions(a, role, p) {
      var i :| 0 <= i < |a| && Conveys(CommandOf(a[i], role), p);
      assert c[i] == a[i];
    }
    if Mentions(b, role, p) {
      var i :| 0 <= i < |b| && Conveys(CommandOf(b[i], role), p);
      assert c[|a| + i] == b[i];
    }
    if Mentions(c, role, p) {
      var i :| 0 <= i < |c| && Conveys(CommandOf(c[i], role), p);
      assert c[i] == if i < |a| then a[i] else b[i - |a|];
    }
  }

  ghost predicate HasName(ids: seq<string>, cs: seq<string>) {
    exists i :: 0 <= i < |ids| && NameIn(ids[i]) == cs
  }

  lemma StmtsMention(ids: seq<string>, privileges: seq<string>, kind: Kind, grant: bool, role: string, p: Priv)
    ensures Mentions(Stmts(ids, privileges, kind, grant), role, p)
       <==> p.role == role && p.kind == kind && p.privilege in privileges && HasName(ids, p.name)
  {
    var ss := Stmts(ids, privileges, kind, grant);
    if p.role == role && p.kind == kind && p.privilege in privileges && HasName(ids, p.name) {
      var i :| 0 <= i < |ids| && NameIn(ids[i]) == p.name;
      assert Conveys(CommandOf(ss[i], role), p);
    }
  }

  lemma HasNameAppend(ids: seq<string>, id: string, cs: seq<string>)
    ensures HasName(ids + [id], cs) <==> HasName(ids, cs) || NameIn(id) == cs
  {
    var all := ids + [id];
    assert all[|ids|] == id;
    assert forall i :: 0 <= i < |ids| ==> all[i] == ids[i];
  }

  lemma {:induction false} SchemaNames(schemas: seq<string>, cs: seq<string>)
    ensures HasName(SchemaIdents(schemas), cs) <==> NamesSchema(schemas, cs)
  {
    if schemas == [] {
      assert SchemaIdents(schemas) == [];
    } else {
      var front, last := schemas[..|schemas| - 1], schemas[|schemas| - 1];
      assert schemas == front + [last];
      SchemaNames(front, cs);
      SchemaNamesNext(front, last, SchemaIdents(front), cs);
    }
  }

  lemma SchemaNamesNext(front: seq<string>, last: string, ids: seq<string>, cs: seq<string>)
    requires ids == SchemaIdents(front) && (HasName(ids, cs) <==> NamesSchema(front, cs))
    ensures HasName(SchemaIdents(front + [last]), cs) <==> NamesSchema(front + [last], cs)
  {
    var clean := CleanPart(last);
    NamesSchemaAppend(front, last, cs);
    assert (front + [last])[..|front|] == front;
    if clean == "" {
      assert SchemaIdents(front + [last]) == ids;
    } else {
      assert SchemaIdents(front + [last]) == ids + [QuoteIdent(clean)];
      HasNameAppend(ids, QuoteIdent(clean), cs);
      RoleReadsBack(clean);
    }
  }

  lemma NamesSchemaAppend(front: seq<string>, last: string, cs: seq<string>)
    ensures NamesSchema(front + [last], cs)
       <==> NamesSchema(front, cs) || (CleanPart(last) != "" && cs == [CleanPart(last)])
  {
    var all := front + [last];
    assert all[|front|] == last;
    assert forall i :: 0 <= i < |front| ==> all[i] == front[i];
  }

  lemma {:induction false} RelationNames(names: seq<string>, cs: seq<string>)
    ensures HasName(RelationIdents(names), cs) <==> NamesRelation(names, cs)
  {
    if names == [] {
      assert RelationIdents(names) == [];
    } else {
      var front, last := names[..|names| - 1], names[|names| - 1];
      assert names == front + [last];
      RelationNames(front, cs);
      RelationNamesNext(front, last, RelationIdents(front), cs);
    }
  }

  lemma RelationNamesNext(front: seq<string>, last: string, ids: seq<string>, cs: seq<string>)
    requires ids == RelationIdents(front) && (HasName(ids, cs) <==> NamesRelation(front, cs))
    ensures HasName(RelationIdents(front + [last]), cs) <==> NamesRelation(front + [last], cs)
  {
    var q := SanitizeQualified(last);
    NamesRelationAppend(front, last, cs);
    assert (front + [last])[..|front|] == front;
    if q == "" {
      assert RelationIdents(front + [last]) == ids;
    } else {
      assert RelationIdents(front + [last]) == ids + [q];
      HasNameAppend(ids, q, cs);
      AcceptedReads(last);
    }
  }

  lemma AcceptedReads(name: string)
    requires SanitizeQualified(name) != ""
    ensures AcceptedName(name) != [] && NameIn(SanitizeQualified(name)) == AcceptedName(name)
  {
    var cs := AcceptedName(name);
    NameReadsBack(cs, "");
    assert Join(QuoteAll(cs)) + "" == Join(QuoteAll(cs));
  }

  lemma NamesRelationAppend(front: seq<string>, last: string, cs: seq<string>)
    ensures NamesRelation(front + [last], cs)
       <==> NamesRelation(front, cs) || (cs != [] && AcceptedName(last) == cs)
  {
    var all := front + [last];
    assert all[|front|] == last;
    assert forall i :: 0 <= i < |front| ==> all[i] == front[i];
  }

  lemma ArrangedMentions(a: seq<string>, b: seq<string>, c: seq<string>, grant: bool, role: string, p: Priv)
    ensures Mentions(Arranged(a, b, c, grant), role, p)
       <==> || Mentions(Stmts(a, USAGE, Schema, grant), role, p)
            || Mentions(Stmts(b, SELECT, Relation, grant), role, p)
            || Mentions(Stmts(c, BOTH, Relation, grant), role, p)
  {
    var s, t, q := Stmts(a, USAGE, Schema, grant), Stmts(b, SELECT, Relation, grant), Stmts(c, BOTH, Relation, grant);
    if grant {
      MentionsConcat(s, t, role, p);
      MentionsConcat(s + t, q, role, p);
    } else {
      MentionsConcat(t, q, role, p);
      MentionsConcat(t + q, s, role, p);
    }
  }

  /** What statements on these names convey. */
  lemma NamesMention(a: seq<string>, b: seq<string>, c: seq<string>, grant: bool, role: string, p: Priv)
    ensures Mentions(Arranged(a, b, c, grant), role, p)
       <==> && p.role == role
            && (|| (p.kind == Schema && p.privilege == "USAGE" && HasName(a, p.name))
                || (p.kind == Relation && p.privilege == "SELECT" && HasName(b, p.name))
                || (p.kind == Relation && p.privilege in {"USAGE", "SELECT"} && HasName(c, p.name)))
  {
    ArrangedMentions(a, b, c, grant, role, p);
    StmtsMention(a, USAGE, Schema, grant, role, p);
    StmtsMention(b, SELECT, Relation, grant, role, p);
    StmtsMention(c, BOTH, Relation, grant, role, p);
  }

  /** What the statements mention is what is wanted. */
  lemma MentionsWanted(obj: Denied, grant: bool, role: string, p: Priv)
    ensures Mentions(ElevationStmts(obj, grant), role, p) <==> Wanted(obj, role, p)
  {
    NamesMention(SchemaIdents(obj.schemas), RelationIdents(obj.tables), RelationIdents(obj.sequences), grant, role, p);
    SchemaNames(obj.schemas, p.name);
    RelationNames(obj.tables, p.name);
    RelationNames(obj.sequences, p.name);
  }

  /** The texts read as these statements. */
  ghost predicate Read(ts: seq<string>, ss: seq<Stmt>, role: string, grant: bool) {
    |ts| == |ss| && forall i :: 0 <= i < |ts| ==> ReadAt(ts[i], ss[i], role, grant)
  }

  predicate ReadAt(t: string, s: Stmt, role: string, grant: bool) {
    s.grant == grant && ReadCommand(t) == Some(CommandOf(s, role))
  }

  predicate AllAre(cmds: seq<Option<Command>>, grant: bool) {
    forall i :: 0 <= i < |cmds| ==> cmds[i].Some? && cmds[i].value.grant == grant
  }

  ghost predicate SomeConveys(cmds: seq<Option<Command>>, p: Priv) {
    exists i :: 0 <= i < |cmds| && cmds[i].Some? && Conveys(cmds[i].value, p)
  }

  lemma ConveyedIs(cmd: Command, p: Priv)
    ensures p in Conveyed(cmd) <==> Conveys(cmd, p)
  {
    if Conveys(cmd, p) {
      assert p == Priv(cmd.role, cmd.kind, cmd.name, p.privilege);
    }
  }

  lemma {:induction false} AfterAllAre(cmds: seq<Option<Command>>, grant: bool, held: set<Priv>, p: Priv)
    requires AllAre(cmds, grant)
    ensures AfterAll(cmds, held).Some?
    ensures p in AfterAll(cmds, held).value <==>
              if grant then p in held || SomeConveys(cmds, p) else p in held && !SomeConveys(cmds, p)
  {
    if cmds != [] {
      var front, last := cmds[..|cmds| - 1], cmds[|cmds| - 1];
      AfterAllAre(front, grant, held, p);
      AfterIs(AfterAll(front, held), last.value, p);
      assert SomeConveys(cmds, p) <==> SomeConveys(front, p) || Conveys(last.value, p) by {
        assert forall i :: 0 <= i < |front| ==> front[i] == cmds[i];
      }
    }
  }

  lemma ReadConveys(ts: seq<string>, ss: seq<Stmt>, role: string, grant: bool, p: Priv)
    requires Read(ts, ss, role, grant)
    ensures AllAre(ReadAll(ts), grant) && (SomeConveys(ReadAll(ts), p) <==> Mentions(ss, role, p))
  {
    var cmds := ReadAll(ts);
    forall i | 0 <= i < |ts| ensures cmds[i] == Some(CommandOf(ss[i], role)) && ss[i].grant == grant {
      assert ReadAt(ts[i], ss[i], role, grant);
    }
  }

  lemma AfterIs(held: Option<set<Priv>>, cmd: Command, p: Priv)
    requires held.Some?
    ensures AfterCommand(held, Some(cmd)).Some?
    ensures p in AfterCommand(held, Some(cmd)).value <==>
              if cmd.grant then p in held.value || Conveys(cmd, p) else p in held.value && !Conveys(cmd, p)
  {
    ConveyedIs(cmd, p);
  }

  lemma ReadEffect(obj: Denied, grant: bool, role: string, ts: seq<string>, held: set<Priv>)
    requires Read(ts, ElevationStmts(obj, grant), role, grant)
    ensures Effect(obj, role, grant, held, Executed(ts, held))
  {
    var ss := ElevationStmts(obj, grant);
    ReadConveys(ts, ss, role, grant, Priv("", Schema, [], ""));
    AfterAllAre(ReadAll(ts), grant, held, Priv("", Schema, [], ""));
    forall p
      ensures p in Executed(ts, held).value <==>
                if grant then p in held || Wanted(obj, role, p) else p in held && !Wanted(obj, role, p)
    {
      ReadConveys(ts, ss, role, grant, p);
      AfterAllAre(ReadAll(ts), grant, held, p);
      MentionsWanted(obj, grant, role, p);
    }
  }

  lemma TextsRead(obj: Denied, grant: bool, role: string)
    ensures Read(Texts(ElevationStmts(obj, grant), role), ElevationStmts(obj, grant), role, grant)
  {
    var ss := ElevationStmts(obj, grant);
    forall i | 0 <= i < |ss| ensures ReadAt(Texts(ss, role)[i], ss[i], role, grant) {
      ReadsAsCommand(obj, grant, role, i);
    }
  }

  lemma {:induction false} OnLinesAt(ts: seq<string>, cur: string, i: nat)
    requires i < |ts|
    ensures |OnLines(ts, cur)| == |ts| && OnLines(ts, cur)[i] == (if i == 0 then cur else "\n") + ts[i]
    decreases |ts|
  {
    if i > 0 {
      OnLinesAt(ts[1..], "\n", i - 1);
    } else if |ts| > 1 {
      OnLinesAt(ts[1..], "\n", 0);
    }
  }

  lemma LineReads(t: string)
    ensures ReadCommand("\n" + t) == ReadCommand(t) && ReadCommand("" + t) == ReadCommand(t)
  {
    assert ("\n" + t)[1..] == t && "" + t == t;
    assert TrimLeft("\n" + t) == TrimLeft(t);
  }

  lemma LinesRead(ts: seq<string>, ss: seq<Stmt>, role: string, grant: bool)
    requires Read(ts, ss, role, grant) && ts != []
    ensures Read(OnLines(ts, ""), ss, role, grant)
  {
    OnLinesAt(ts, "", 0);
    forall i | 0 <= i < |ts| ensures ReadAt(OnLines(ts, "")[i], ss[i], role, grant) {
      assert ReadAt(ts[i], ss[i], role, grant);
      OnLinesAt(ts, "", i);
      LineReads(ts[i]);
    }
  }

  /** Whatever names and role go into it: a database that reads and executes the script text ends with the privileges
      held before plus the wanted ones, or, for the revoking script, minus exactly those. */
  lemma ScriptEffect(obj: Denied, grant: bool, role: string, held: set<Priv>)
    ensures Effect(obj, role, grant, held, ExecutedScript(Script(Texts(ElevationStmts(obj, grant), role)), held))
  {
    var ts := Texts(ElevationStmts(obj, grant), role);
    TextsRead(obj, grant, role);
    if ts == [] {
      ReadEffect(obj, grant, role, ts, held);
    } else {
      ScriptHoldsStatements(obj, grant, role);
      LinesRead(ts, ElevationStmts(obj, grant), role, grant);
      ReadEffect(obj, grant, role, OnLines(ts, ""), held);
    }
  }

  /** Executing the granting and then the revoking script leaves the role exactly what it held, if and only if it held
      none of what is wanted. */
  lemma GrantRevoke(obj: Denied, role: string, held: set<Priv>)
    ensures var granted := ExecutedScript(Script(Texts(ElevationStmts(obj, true), role)), held);
            && granted.Some?
            && (ExecutedScript(Script(Texts(ElevationStmts(obj, false), role)), granted.value) == Some(held)
                <==> forall p :: p in held ==> !Wanted(obj, role, p))
  {
    ScriptEffect(obj, true, role, held);
    var granted := ExecutedScript(Script(Texts(ElevationStmts(obj, true), role)), held).value;
    ScriptEffect(obj, false, role, granted);
    var after := ExecutedScript(Script(Texts(ElevationStmts(obj, false), role)), granted).value;
    if forall p :: p in held ==> !Wanted(obj, role, p) {
      assert after == held;
    } else {
      var p :| p in held && Wanted(obj, role, p);
      assert p !in after;
    }
  }

  /** Schemas are granted before everything in them and revoked after it. */
  ghost predicate SchemasOutside(ts: seq<string>, grant: bool) {
    forall i, j :: 0 <= i < j < |ts| ==> Outside(ReadCommand(ts[i]), ReadCommand(ts[j]), grant)
  }

  predicate Outside(first: Option<Command>, second: Option<Command>, grant: bool) {
    && first.Some? && second.Some?
    && (grant && second.value.kind == Schema ==> first.value.kind == Schema)
    && (!grant && first.value.kind == Schema ==> second.value.kind == Schema)
  }

  lemma ArrangedOrder(a: seq<string>, b: seq<string>, c: seq<string>, grant: bool, i: nat, j: nat)
    requires i < j < |Arranged(a, b, c, grant)|
    ensures var ss := Arranged(a, b, c, grant);
            && (grant && ss[j].kind == Schema ==> ss[i].kind == Schema)
            && (!grant && ss[i].kind == Schema ==> ss[j].kind == Schema)
  {
  }

  lemma SchemaOrder(obj: Denied, grant: bool, role: string)
    ensures SchemasOutside(Texts(ElevationStmts(obj, grant), role), grant)
  {
    TextsRead(obj, grant, role);
    forall i, j | 0 <= i < j < |ElevationStmts(obj, grant)|
      ensures KindsInOrder(ElevationStmts(obj, grant), grant, i, j)
    {
      ArrangedOrder(SchemaIdents(obj.schemas), RelationIdents(obj.tables), RelationIdents(obj.sequences), grant, i, j);
    }
    ReadOrder(Texts(ElevationStmts(obj, grant), role), ElevationStmts(obj, grant), role, grant);
  }

  predicate KindsInOrder(ss: seq<Stmt>, grant: bool, i: nat, j: nat)
    requires i < j < |ss|
  {
    && (grant && ss[j].kind == Schema ==> ss[i].kind == Schema)
    && (!grant && ss[i].kind == Schema ==> ss[j].kind == Schema)
  }

  lemma ReadOrder(ts: seq<string>, ss: seq<Stmt>, role: string, grant: bool)
    requires Read(ts, ss, role, grant) && forall i, j :: 0 <= i < j < |ss| ==> KindsInOrder(ss, grant, i, j)
    ensures SchemasOutside(ts, grant)
  {
    forall i, j | 0 <= i < j < |ts| ensures Outside(ReadCommand(ts[i]), ReadCommand(ts[j]), grant) {
      assert ReadAt(ts[i], ss[i], role, grant) && ReadAt(ts[j], ss[j], role, grant);
      assert KindsInOrder(ss, grant, i, j);
    }
  }

  // ----- the operations

  /** Each identifier is the quoted name of its statement. */
  ghost predicate Identify(ids: seq<string>, ts: seq<string>) {
    |ids| == |ts| && forall i :: 0 <= i < |ts| ==> IsNameOf(ids[i], ReadCommand(ts[i]))
  }

  predicate IsNameOf(id: string, cmd: Option<Command>) {
    cmd.Some? && id == Join(QuoteAll(cmd.value.name))
  }

  lemma IdentsIdentify(obj: Denied, grant: bool, role: string)
    ensures Identify(Idents(ElevationStmts(obj, grant)), Texts(ElevationStmts(obj, grant), role))
  {
    var ss := ElevationStmts(obj, grant);
    forall i | 0 <= i < |ss| ensures IsNameOf(Idents(ss)[i], ReadCommand(Texts(ss, role)[i])) {
      ReadsAsCommand(obj, grant, role, i);
    }
  }

  /** elevationStatements: texts that grant, or revoke, exactly what is wanted, with schemas on the outside, and the
      identifiers they name. */
  method ElevationStatements(obj: Denied, grantee: string, grant: bool) returns (stmts: seq<string>, ids: seq<string>)
    ensures stmts == Texts(ElevationStmts(obj, grant), grantee)
    ensures forall held :: Effect(obj, grantee, grant, held, Executed(stmts, held))
    ensures SchemasOutside(stmts, grant) && Identify(ids, stmts)
  {
    var schemas := AcceptSchemas(obj.schemas);
    var tables := AcceptRelations(obj.tables);
    var sequences := AcceptRelations(obj.sequences);
    ghost var ss := ElevationStmts(obj, grant);
    stmts, ids := Separate(Pairs(Arranged(schemas, tables, sequences, grant), grantee));
    assert stmts == Texts(ss, grantee) && ids == Idents(ss);
    TextsRead(obj, grant, grantee);
    forall held ensures Effect(obj, grantee, grant, held, Executed(stmts, held)) {
      ReadEffect(obj, grant, grantee, stmts, held);
    }
    SchemaOrder(obj, grant, grantee);
    IdentsIdentify(obj, grant, grantee);
  }

  /** There is nothing to grant. */
  ghost predicate NothingWanted(obj: Denied, role: string) {
    forall p :: !Wanted(obj, role, p)
  }

  lemma NoStatements(obj: Denied, grant: bool, role: string)
    ensures ElevationStmts(obj, grant) == [] <==> NothingWanted(obj, role)
  {
    var ss := ElevationStmts(obj, grant);
    if ss == [] {
      forall p ensures !Wanted(obj, role, p) {
        MentionsWanted(obj, grant, role, p);
      }
    } else {
      var p := Priv(role, ss[0].kind, NameIn(ss[0].ident), ss[0].privileges[0]);
      assert Conveys(CommandOf(ss[0], role), p);
      MentionsWanted(obj, grant, role, p);
    }
  }

  /** Elevate: the script that is run as `user`, and the identifiers that are reported. It is refused exactly when there
      is no role, the role is the user itself or nothing is grantable. */
  method Elevate(user: string, grantee: string, obj: Denied) returns (r: Option<(string, seq<string>)>)
    ensures r.None? <==> TrimSpace(grantee) == "" || TrimSpace(grantee) == user
                         || NothingWanted(obj, TrimSpace(grantee))
    ensures r.Some? ==> forall held :: Effect(obj, TrimSpace(grantee), true, held, ExecutedScript(r.value.0, held))
  {
    var role := TrimSpace(grantee);
    if role == "" || role == user {
      return None;
    }
    var stmts, granted := ElevationStatements(obj, role, true);
    NoStatements(obj, true, role);
    if |stmts| == 0 {
      return None;
    }
    forall held ensures Effect(obj, role, true, held, ExecutedScript(Script(stmts), held)) {
      ScriptEffect(obj, true, role, held);
    }
    r := Some((Script(stmts), granted));
  }

  /** Revoke: the script that is run, if any. */
  method Revoke(user: string, grantee: string, obj: Denied) returns (ok: bool, script: string)
    ensures ok <==> TrimSpace(grantee) != "" && TrimSpace(grantee) != user
    ensures ok ==> forall held :: Effect(obj, TrimSpace(grantee), false, held, ExecutedScript(script, held))
    ensures script == "" <==> !ok || NothingWanted(obj, TrimSpace(grantee))
  {
    var role := TrimSpace(grantee);
    if role == "" || role == user {
      return false, "";
    }
    var stmts, _ := ElevationStatements(obj, role, false);
    NoStatements(obj, false, role);
    forall held ensures Effect(obj, role, false, held, ExecutedScript(Script(stmts), held)) {
      ScriptEffect(obj, false, role, held);
    }
    ok, script := true, if |stmts| == 0 then "" else Script(stmts);
  }
}
