/** What the recorded evidence says, and that appending the tail agrees with a full refresh. */
module WarehouseLaws {
  import opened Wrappers
  import opened Text
  import opened GoStrings
  import opened ObjectKeys
  import opened Warehouse

  // ----- the order of watermarks

  predicate Parses(v: string) {
    ParseInt64(v).Some?
  }

  /** The watermarks can be compared with one another: an integer column holds integers (or an opaque type
      that merely has "int" in its name holds none). */
  ghost predicate Comparable(kind: string, ws: set<string>) {
    || kind != "integer"
    || (forall v :: v in ws ==> v == "" || Parses(v))
    || (forall v :: v in ws ==> !Parses(v))
  }

  lemma GreaterTransitive(a: string, b: string, c: string, kind: string, ws: set<string>)
    requires Comparable(kind, ws) && a in ws && b in ws && c in ws && c != ""
    requires WatermarkGreater(a, b, kind) && WatermarkGreater(b, c, kind)
    ensures WatermarkGreater(a, c, kind)
  {
    if Less(c, b) && Less(b, a) {
      LessTransitive(c, b, a);
    }
  }

  lemma GreaterIrreflexive(a: string, kind: string)
    ensures !WatermarkGreater(a, a, kind)
  {
    LessIrreflexive(a);
  }

  /** Integer watermarks are ordered as numbers and all others as texts, by the first character that differs. */
  lemma WatermarkOrder(m: int, n: int, a: string, b: string, kind: string)
    ensures MIN_INT64 <= m <= MAX_INT64 && MIN_INT64 <= n <= MAX_INT64 ==>
              (WatermarkGreater(FormatInt(m), FormatInt(n), "integer") <==> m > n)
    ensures kind != "integer" ==> (WatermarkGreater(a, b, kind) <==> exists i :: SmallerAt(b, a, i))
  {
    ParseFormatted(m);
    ParseFormatted(n);
    if Less(b, a) {
      var i := LessSomewhere(b, a);
    }
    if i :| SmallerAt(b, a, i) {
      LessAt(b, a, i);
    }
  }

  /** w is the largest of ws; an empty w says there is none but empty ones. */
  ghost predicate IsMax(ws: set<string>, w: string, kind: string) {
    if w == "" then forall v :: v in ws ==> v == ""
    else w in ws && forall v :: v in ws ==> !WatermarkGreater(v, w, kind)
  }

  predicate NotLower(w: string, last: string, kind: string) {
    w == last || WatermarkGreater(w, last, kind)
  }

  /** One turn of the scan keeps the maximum, and never lowers the watermark. */
  lemma LargerIsMax(ws: set<string>, w: string, v: string, kind: string, all: set<string>)
    requires IsMax(ws, w, kind) && ws <= all && v in all && Comparable(kind, all)
    ensures IsMax(ws + {v}, Larger(w, v, kind), kind)
    ensures w != "" ==> NotLower(Larger(w, v, kind), w, kind)
  {
    GreaterIrreflexive(v, kind);
    if w != "" && WatermarkGreater(v, w, kind) {
      forall u | u in ws ensures !WatermarkGreater(u, v, kind) {
        if WatermarkGreater(u, v, kind) {
          GreaterTransitive(u, v, w, kind, all);
        }
      }
    }
  }

  lemma {:induction false} ScanIsMax(ws: set<string>, rows: seq<Row>, idx: nat, kind: string, last: string,
                                     all: set<string>)
    requires IsMax(ws, last, kind) && ws + Watermarks(rows, idx) <= all && Comparable(kind, all)
    ensures IsMax(ws + Watermarks(rows, idx), ScanWatermark(rows, idx, kind, last), kind)
    ensures last != "" ==> NotLower(ScanWatermark(rows, idx, kind, last), last, kind)
  {
    if rows == [] {
      assert ws + Watermarks(rows, idx) == ws;
    } else {
      var front, v := rows[..|rows| - 1], WatermarkOf(rows[|rows| - 1], idx);
      assert forall i :: 0 <= i < |front| ==> front[i] == rows[i];
      assert Watermarks(rows, idx) == Watermarks(front, idx) + if v.Some? then {v.value} else {};
      ScanIsMax(ws, front, idx, kind, last, all);
      var w := ScanWatermark(front, idx, kind, last);
      if v.Some? {
        assert v.value in all;
        LargerIsMax(ws + Watermarks(front, idx), w, v.value, kind, all);
        assert ws + Watermarks(rows, idx) == ws + Watermarks(front, idx) + {v.value};
        if last != "" && w != last && Larger(w, v.value, kind) != w {
          assert last in ws;
          GreaterTransitive(Larger(w, v.value, kind), w, last, kind, all);
        }
      } else {
        assert ws + Watermarks(rows, idx) == ws + Watermarks(front, idx);
      }
    }
  }

  // ----- the listed files

  predicate Present(files: map<string, Part>, paths: seq<string>) {
    forall i :: 0 <= i < |paths| ==> paths[i] in files
  }

  function AllRows(files: map<string, Part>, paths: seq<string>): seq<Row>
    requires Present(files, paths)
  {
    if paths == [] then [] else AllRows(files, paths[..|paths| - 1]) + files[paths[|paths| - 1]].rows
  }

  function TotalBytes(files: map<string, Part>, paths: seq<string>): nat
    requires Present(files, paths)
  {
    if paths == [] then 0 else TotalBytes(files, paths[..|paths| - 1]) + files[paths[|paths| - 1]].size
  }

  predicate Distinct(paths: seq<string>) {
    forall i, j :: 0 <= i < j < |paths| ==> paths[i] != paths[j]
  }

  /** Writing a file that is not listed changes no total. */
  lemma {:induction false} UnlistedWrite(files: map<string, Part>, paths: seq<string>, p: string, part: Part)
    requires Present(files, paths) && p !in paths
    ensures Present(files[p := part], paths)
    ensures AllRows(files[p := part], paths) == AllRows(files, paths)
    ensures TotalBytes(files[p := part], paths) == TotalBytes(files, paths)
  {
    if paths != [] {
      UnlistedWrite(files, paths[..|paths| - 1], p, part);
      assert paths[|paths| - 1] in paths;
    }
  }

  lemma AppendPath(files: map<string, Part>, paths: seq<string>, p: string)
    requires Present(files, paths) && p in files
    ensures Present(files, paths + [p])
    ensures AllRows(files, paths + [p]) == AllRows(files, paths) + files[p].rows
    ensures TotalBytes(files, paths + [p]) == TotalBytes(files, paths) + files[p].size
  {
    assert (paths + [p])[..|paths|] == paths;
  }

  // ----- path names

  ghost predicate NameUpTo(p: string, t: int) {
    AfterLast(p, '/') == "data.parquet" || exists u :: u <= t && AfterLast(p, '/') == PartName(u)
  }

  lemma PartNames(u: int, v: int)
    ensures PartName(u) == PartName(v) ==> u == v
    ensures PartName(u) != "data.parquet"
    ensures Free(PartName(u), '/')
  {
    assert PartName(u)[0] == 'p';
    if PartName(u) == PartName(v) {
      SplitAtLength("part-" + FormatInt(u), ".parquet", "part-" + FormatInt(v), ".parquet");
      SplitAtLength("part-", FormatInt(u), "part-", FormatInt(v));
      FormatIntInjective(u, v);
    }
  }

  /** A part written now is not among the paths of earlier syncs. */
  lemma FreshPath(dir: string, kind: string, day: string, now: int, p: string, t: int)
    requires NameUpTo(p, t) && t < now
    ensures p != PartPath(dir, now, kind, day)
    ensures NameUpTo(PartPath(dir, now, kind, day), now)
  {
    PartNames(now, now);
    LastOf(if kind == "date" then dir + "/dt=" + day else dir, PartName(now), '/');
    forall u | u <= t ensures PartName(u) != PartName(now) {
      PartNames(u, now);
    }
  }

  lemma NewPart(dir: string, kind: string, day: string, now: int, paths: seq<string>, t: int)
    requires t < now && forall i :: 0 <= i < |paths| ==> NameUpTo(paths[i], t)
    ensures PartPath(dir, now, kind, day) !in paths && NameUpTo(PartPath(dir, now, kind, day), now)
    ensures forall i :: 0 <= i < |paths| ==> NameUpTo(paths[i], now)
  {
    forall i | 0 <= i < |paths| ensures paths[i] != PartPath(dir, now, kind, day) {
      FreshPath(dir, kind, day, now, paths[i], t);
    }
    LastOf(if kind == "date" then dir + "/dt=" + day else dir, PartName(now), '/');
    PartNames(now, now);
  }

  // ----- the evidence is true

  /** The column the watermark is read from: its name, its place (if the table has it) and its type. */
  datatype Column = Column(name: string, index: Option<nat>, kind: string)

  function ColumnWatermarks(rows: seq<Row>, col: Column): set<string> {
    match col.index
    case None => {}
    case Some(idx) => Watermarks(rows, idx)
  }

  /** The evidence states the totals of the listed files, which are distinct, and their largest watermark. */
  ghost predicate Truthful(s: State, d: Dataset, col: Column, all: set<string>) {
    && Present(s.files, d.paths) && Distinct(d.paths)
    && (forall i :: 0 <= i < |d.paths| ==> NameUpTo(d.paths[i], d.syncedAt))
    && d.rowCount == |AllRows(s.files, d.paths)|
    && d.bytesParquet == TotalBytes(s.files, d.paths)
    && d.watermarkColumn == col.name
    && d.watermarkType == col.kind
    && IsMax(ColumnWatermarks(AllRows(s.files, d.paths), col), d.lastWatermark, col.kind)
    && ColumnWatermarks(AllRows(s.files, d.paths), col) <= all
  }

  /** The sync appends, or is refused. */
  predicate NotFull(s: State, y: Sync) {
    ModeOf(s, y).Resolved? ==> ModeOf(s, y).mode == Incremental
  }

  /** The paths without p. */
  function Without(paths: seq<string>, p: string): seq<string> {
    if paths == [] then []
    else Without(paths[..|paths| - 1], p) + if paths[|paths| - 1] == p then [] else [paths[|paths| - 1]]
  }

  lemma {:induction false} WithoutPresent(files: map<string, Part>, paths: seq<string>, p: string)
    requires Present(files, paths)
    ensures Present(files, Without(paths, p)) && (p !in paths ==> Without(paths, p) == paths)
  {
    if paths != [] {
      WithoutPresent(files, paths[..|paths| - 1], p);
      assert paths == paths[..|paths| - 1] + [paths[|paths| - 1]];
    }
  }

  /** With these new rows beside the listed rows that stay, the recorded watermark is still the largest. */
  ghost predicate StaysLargest(stay: set<string>, rows: seq<Row>, last: string, col: Column) {
    var added := ColumnWatermarks(rows, col);
    if last == "" then added <= {""}
    else last in stay + added && forall v :: v in added ==> !WatermarkGreater(v, last, col.kind)
  }

  /** A full refresh that overwrites `data.parquet` without being recorded leaves the evidence true: that file is not
      listed, or it had as many rows and bytes and the recorded watermark is still the largest. */
  ghost predicate Survives(dir: string, s: State, y: Sync, col: Column)
    requires s.evidence.Some? && Present(s.files, s.evidence.value.paths)
  {
    var d, p := s.evidence.value, DataPath(dir);
    WithoutPresent(s.files, d.paths, p);
    p in d.paths ==>
      && |y.rows| == |s.files[p].rows| && y.size == s.files[p].size
      && StaysLargest(ColumnWatermarks(AllRows(s.files, Without(d.paths, p)), col), y.rows, d.lastWatermark, col)
  }

  /** The sync uses the fixed column, at a later time, and its watermarks are comparable ones; and if it is a full
      refresh that is not recorded, the evidence survives it. */
  ghost predicate Regular(dir: string, s: State, y: Sync, col: Column, all: set<string>) {
    && OfColumn(s, y, col, all)
    && (y.recorded || NotFull(s, y) || s.evidence.None?
        || (Present(s.files, s.evidence.value.paths) && Survives(dir, s, y, col)))
  }

  /** The sync uses the fixed column, at a later time, and its watermarks are comparable ones. */
  ghost predicate OfColumn(s: State, y: Sync, col: Column, all: set<string>) {
    && (ModeOf(s, y).Resolved? ==> ColumnUsed(ModeOf(s, y), y.schema) == col.name)
    && y.schema.index(col.name) == col.index && y.schema.kind(col.name) == col.kind
    && (s.evidence.Some? ==> s.evidence.value.syncedAt < y.now)
    && ColumnWatermarks(y.rows, col) <= all
  }

  lemma NewWatermarkIsMax(ws: set<string>, rows: seq<Row>, schema: Schema, col: Column, last: string, all: set<string>)
    requires IsMax(ws, last, col.kind) && ws + ColumnWatermarks(rows, col) <= all && Comparable(col.kind, all)
    requires schema.index(col.name) == col.index && schema.kind(col.name) == col.kind
    ensures IsMax(ws + ColumnWatermarks(rows, col), NewWatermark(rows, schema, col.name, last), col.kind)
    ensures last != "" ==> NotLower(NewWatermark(rows, schema, col.name, last), last, col.kind)
  {
    match col.index
    case None => assert ws + ColumnWatermarks(rows, col) == ws;
    case Some(idx) => ScanIsMax(ws, rows, idx, col.kind, last, all);
  }

  lemma FullSyncTruthful(dir: string, s: State, y: Sync, col: Column, all: set<string>)
    requires OfColumn(s, y, col, all) && Comparable(col.kind, all)
    requires ModeOf(s, y).Resolved? && ModeOf(s, y).mode == Full
    ensures var s' := Intended(dir, s, y);
            s'.evidence.Some? && Truthful(s', s'.evidence.value, col, all)
            && AllRows(s'.files, s'.evidence.value.paths) == y.rows
  {
    var s' := Intended(dir, s, y);
    var p := DataPath(dir);
    assert s'.files[p] == Part(y.rows, y.size);
    AppendPath(s'.files, [], p);
    assert [] + [p] == [p];
    assert {} + ColumnWatermarks(y.rows, col) == ColumnWatermarks(y.rows, col);
    NewWatermarkIsMax({}, y.rows, y.schema, col, "", all);
    LastOf(dir, "data.parquet", '/');
  }

  lemma ConcatWatermarks(a: seq<Row>, b: seq<Row>, col: Column)
    ensures ColumnWatermarks(a + b, col) == ColumnWatermarks(a, col) + ColumnWatermarks(b, col)
  {
    match col.index
    case None =>
    case Some(idx) =>
      forall v | v in Watermarks(a, idx) + Watermarks(b, idx) ensures v in Watermarks(a + b, idx) {
        if v in Watermarks(a, idx) {
          var i :| 0 <= i < |a| && WatermarkOf(a[i], idx) == Some(v);
          assert (a + b)[i] == a[i];
        } else {
          var i :| 0 <= i < |b| && WatermarkOf(b[i], idx) == Some(v);
          assert (a + b)[|a| + i] == b[i];
        }
      }
  }

  lemma AppendTruthful(dir: string, s: State, y: Sync, col: Column, all: set<string>)
    requires s.evidence.Some? && Truthful(s, s.evidence.value, col, all) && OfColumn(s, y, col, all)
    requires Comparable(col.kind, all)
    requires ModeOf(s, y).Resolved? && ModeOf(s, y).mode == Incremental && y.rows != []
    ensures var s' := Intended(dir, s, y);
            && s'.evidence.Some? && Truthful(s', s'.evidence.value, col, all)
            && AllRows(s'.files, s'.evidence.value.paths) == AllRows(s.files, s.evidence.value.paths) + y.rows
            && NotLower(s'.evidence.value.lastWatermark, s.evidence.value.lastWatermark, col.kind)
  {
    var s', d := Intended(dir, s, y), s.evidence.value;
    var p := PartPath(dir, y.now, col.kind, y.day);
    NewPart(dir, col.kind, y.day, y.now, d.paths, d.syncedAt);
    UnlistedWrite(s.files, d.paths, p, Part(y.rows, y.size));
    AppendPath(s'.files, d.paths, p);
    var before := AllRows(s.files, d.paths);
    ConcatWatermarks(before, y.rows, col);
    NewWatermarkIsMax(ColumnWatermarks(before, col), y.rows, y.schema, col, d.lastWatermark, all);
  }

  // ----- evidence that cannot be recorded

  /** The totals and watermarks of the listed files when one of them is overwritten. */
  lemma {:induction false} Overwritten(files: map<string, Part>, paths: seq<string>, p: string, part: Part, col: Column)
    requires Present(files, paths) && Distinct(paths) && p in paths
    ensures Present(files[p := part], paths) && Present(files, Without(paths, p))
    ensures var stay := AllRows(files, Without(paths, p));
            && |AllRows(files[p := part], paths)| == |stay| + |part.rows|
            && ColumnWatermarks(AllRows(files[p := part], paths), col)
               == ColumnWatermarks(stay, col) + ColumnWatermarks(part.rows, col)
    ensures TotalBytes(files[p := part], paths) == TotalBytes(files, Without(paths, p)) + part.size
  {
    var front, last := paths[..|paths| - 1], paths[|paths| - 1];
    assert paths == front + [last];
    WithoutPresent(files, paths, p);
    if last == p {
      WithoutPresent(files, front, p);
      UnlistedWrite(files, front, p, part);
      assert Without(paths, p) == front;
      ConcatWatermarks(AllRows(files, front), part.rows, col);
    } else {
      Overwritten(files, front, p, part, col);
      OverwrittenNext(files, front, last, p, part, col);
    }
  }

  lemma OverwrittenNext(files: map<string, Part>, front: seq<string>, last: string, p: string, part: Part, col: Column)
    requires Present(files, front) && last in files && last != p && Present(files, Without(front, p))
    requires Present(files[p := part], front)
    requires ColumnWatermarks(AllRows(files[p := part], front), col)
          == ColumnWatermarks(AllRows(files, Without(front, p)), col) + ColumnWatermarks(part.rows, col)
    ensures Without(front + [last], p) == Without(front, p) + [last]
    ensures Present(files[p := part], front + [last]) && Present(files, Without(front, p) + [last])
    ensures AllRows(files[p := part], front + [last]) == AllRows(files[p := part], front) + files[last].rows
    ensures AllRows(files, Without(front, p) + [last]) == AllRows(files, Without(front, p)) + files[last].rows
    ensures TotalBytes(files[p := part], front + [last]) == TotalBytes(files[p := part], front) + files[last].size
    ensures TotalBytes(files, Without(front, p) + [last]) == TotalBytes(files, Without(front, p)) + files[last].size
    ensures ColumnWatermarks(AllRows(files[p := part], front + [last]), col)
         == ColumnWatermarks(AllRows(files, Without(front, p) + [last]), col) + ColumnWatermarks(part.rows, col)
  {
    assert (front + [last])[..|front|] == front;
    AppendPath(files[p := part], front, last);
    AppendPath(files, Without(front, p), last);
    ConcatWatermarks(AllRows(files[p := part], front), files[last].rows, col);
    ConcatWatermarks(AllRows(files, Without(front, p)), files[last].rows, col);
  }

  /** The listed files hold the rows `stay` and those of `part`. */
  ghost predicate Split(files: map<string, Part>, d: Dataset, stay: seq<Row>, bytes: nat, part: Part, col: Column)
    requires Present(files, d.paths)
  {
    && |AllRows(files, d.paths)| == |stay| + |part.rows| && TotalBytes(files, d.paths) == bytes + part.size
    && ColumnWatermarks(AllRows(files, d.paths), col) == ColumnWatermarks(stay, col) + ColumnWatermarks(part.rows, col)
  }

  /** Whether the totals and the largest watermark stay true when `was` is replaced by `part`. */
  lemma SplitTruth(files: map<string, Part>, files': map<string, Part>, d: Dataset, stay: seq<Row>, bytes: nat,
                   was: Part, part: Part, col: Column)
    requires Present(files, d.paths) && Present(files', d.paths)
    requires Split(files, d, stay, bytes, was, col) && Split(files', d, stay, bytes, part, col)
    requires d.rowCount == |AllRows(files, d.paths)| && d.bytesParquet == TotalBytes(files, d.paths)
    requires IsMax(ColumnWatermarks(AllRows(files, d.paths), col), d.lastWatermark, col.kind)
    ensures d.rowCount == |AllRows(files', d.paths)| <==> |part.rows| == |was.rows|
    ensures d.bytesParquet == TotalBytes(files', d.paths) <==> part.size == was.size
    ensures IsMax(ColumnWatermarks(AllRows(files', d.paths), col), d.lastWatermark, col.kind)
            <==> StaysLargest(ColumnWatermarks(stay, col), part.rows, d.lastWatermark, col)
  {
  }

  lemma ListedRefresh(s: State, d: Dataset, p: string, part: Part, col: Column, all: set<string>)
    requires Truthful(s, d, col, all) && p in d.paths && ColumnWatermarks(part.rows, col) <= all
    ensures Present(s.files, Without(d.paths, p))
    ensures Truthful(s.(files := s.files[p := part]), d, col, all)
            <==> && |part.rows| == |s.files[p].rows| && part.size == s.files[p].size
                 && StaysLargest(ColumnWatermarks(AllRows(s.files, Without(d.paths, p)), col), part.rows,
                                 d.lastWatermark, col)
  {
    Overwritten(s.files, d.paths, p, part, col);
    Overwritten(s.files, d.paths, p, s.files[p], col);
    assert s.files[p := s.files[p]] == s.files;
    SplitTruth(s.files, s.files[p := part], d, AllRows(s.files, Without(d.paths, p)),
               TotalBytes(s.files, Without(d.paths, p)), s.files[p], part, col);
  }

  /** A full refresh that cannot be recorded leaves the evidence true if and only if Survives says so. */
  lemma UnrecordedRefresh(dir: string, s: State, y: Sync, col: Column, all: set<string>)
    requires s.evidence.Some? && Truthful(s, s.evidence.value, col, all) && OfColumn(s, y, col, all)
    requires ModeOf(s, y).Resolved? && ModeOf(s, y).mode == Full && !y.recorded
    ensures Truthful(Synced(dir, s, y), s.evidence.value, col, all) <==> Survives(dir, s, y, col)
  {
    var d, p, part := s.evidence.value, DataPath(dir), Part(y.rows, y.size);
    assert Synced(dir, s, y) == s.(files := s.files[p := part]);
    if p in d.paths {
      ListedRefresh(s, d, p, part, col, all);
    } else {
      UnlistedWrite(s.files, d.paths, p, part);
    }
  }

  /** An append that cannot be recorded leaves the evidence, and what it lists, as they were. */
  lemma UnrecordedAppend(dir: string, s: State, y: Sync, col: Column, all: set<string>)
    requires s.evidence.Some? && Truthful(s, s.evidence.value, col, all) && OfColumn(s, y, col, all)
    requires NotFull(s, y) && !y.recorded
    ensures Synced(dir, s, y).evidence == s.evidence && Truthful(Synced(dir, s, y), s.evidence.value, col, all)
    ensures AllRows(Synced(dir, s, y).files, s.evidence.value.paths) == AllRows(s.files, s.evidence.value.paths)
  {
    var d := s.evidence.value;
    if ModeOf(s, y).Resolved? && y.rows != [] {
      NewPart(dir, col.kind, y.day, y.now, d.paths, d.syncedAt);
      UnlistedWrite(s.files, d.paths, PartPath(dir, y.now, col.kind, y.day), Part(y.rows, y.size));
    }
  }

  /** Every kind of sync, full, incremental or empty incremental, recorded or not, keeps the evidence true. */
  lemma SyncKeepsTruth(dir: string, s: State, y: Sync, col: Column, all: set<string>)
    requires s.evidence.Some? ==> Truthful(s, s.evidence.value, col, all)
    requires Regular(dir, s, y, col, all) && Comparable(col.kind, all)
    ensures var s' := Synced(dir, s, y); s'.evidence.Some? ==> Truthful(s', s'.evidence.value, col, all)
  {
    if y.recorded {
      RecordedKeepsTruth(dir, s, y, col, all);
    } else if s.evidence.Some? {
      if NotFull(s, y) {
        UnrecordedAppend(dir, s, y, col, all);
      } else {
        UnrecordedRefresh(dir, s, y, col, all);
      }
    }
  }

  lemma RecordedKeepsTruth(dir: string, s: State, y: Sync, col: Column, all: set<string>)
    requires s.evidence.Some? ==> Truthful(s, s.evidence.value, col, all)
    requires OfColumn(s, y, col, all) && Comparable(col.kind, all)
    ensures var s' := Intended(dir, s, y); s'.evidence.Some? ==> Truthful(s', s'.evidence.value, col, all)
  {
    var r := ModeOf(s, y);
    if r.Resolved? {
      if r.mode == Full {
        FullSyncTruthful(dir, s, y, col, all);
      } else if y.rows != [] {
        AppendTruthful(dir, s, y, col, all);
      } else {
        LaterNames(s.evidence.value.paths, s.evidence.value.syncedAt, y.now);
      }
    }
  }

  lemma LaterNames(paths: seq<string>, t: int, t': int)
    requires t < t' && forall i :: 0 <= i < |paths| ==> NameUpTo(paths[i], t)
    ensures forall i :: 0 <= i < |paths| ==> NameUpTo(paths[i], t')
  {
  }

  function SyncAll(dir: string, ys: seq<Sync>): State {
    if ys == [] then State(map[], None) else Synced(dir, SyncAll(dir, ys[..|ys| - 1]), ys[|ys| - 1])
  }

  /** A run of syncs with a strictly increasing clock, one watermark column and comparable watermarks. */
  ghost predicate RegularRun(dir: string, ys: seq<Sync>, col: Column, all: set<string>) {
    Comparable(col.kind, all) && forall i :: 0 <= i < |ys| ==> Regular(dir, SyncAll(dir, ys[..i]), ys[i], col, all)
  }

  lemma RegularFront(dir: string, ys: seq<Sync>, col: Column, all: set<string>)
    requires RegularRun(dir, ys, col, all) && ys != []
    ensures RegularRun(dir, ys[..|ys| - 1], col, all)
    ensures Regular(dir, SyncAll(dir, ys[..|ys| - 1]), ys[|ys| - 1], col, all)
  {
    var front := ys[..|ys| - 1];
    assert forall i :: 0 <= i < |front| ==> front[..i] == ys[..i];
  }

  /** Over every regular run, whatever rows the syncs extract and whatever their checks find: the recorded row
      count and bytes are the totals of the listed files, the listed paths are distinct, and the recorded
      watermark is the largest in those files. */
  lemma {:induction false} EvidenceIsTrue(dir: string, ys: seq<Sync>, col: Column, all: set<string>)
    requires RegularRun(dir, ys, col, all)
    ensures var s := SyncAll(dir, ys); s.evidence.Some? ==> Truthful(s, s.evidence.value, col, all)
  {
    if ys != [] {
      var front := ys[..|ys| - 1];
      RegularFront(dir, ys, col, all);
      EvidenceIsTrue(dir, front, col, all);
      SyncKeepsTruth(dir, SyncAll(dir, front), ys[|ys| - 1], col, all);
    }
  }

  // ----- the watermark never falls

  ghost predicate NoneFullFrom(dir: string, ys: seq<Sync>, n: nat) {
    forall i :: n <= i < |ys| ==> NotFull(SyncAll(dir, ys[..i]), ys[i])
  }

  lemma NoneFullFront(dir: string, ys: seq<Sync>, n: nat)
    requires NoneFullFrom(dir, ys, n) && n < |ys|
    ensures NoneFullFrom(dir, ys[..|ys| - 1], n) && ys[..|ys| - 1][..n] == ys[..n]
    ensures NotFull(SyncAll(dir, ys[..|ys| - 1]), ys[|ys| - 1]) && NotFull(SyncAll(dir, ys[..n]), ys[n])
  {
    var front := ys[..|ys| - 1];
    forall i | n <= i < |front| ensures NotFull(SyncAll(dir, front[..i]), front[i]) {
      assert front[..i] == ys[..i];
    }
    assert front == ys[..|front|];
  }

  function WatermarkAt(s: State): string {
    if s.evidence.None? then "" else s.evidence.value.lastWatermark
  }

  lemma AppendNotLower(dir: string, s: State, y: Sync, col: Column, all: set<string>)
    requires s.evidence.Some? && Truthful(s, s.evidence.value, col, all) && Regular(dir, s, y, col, all)
    requires Comparable(col.kind, all)
    requires NotFull(s, y)
    ensures Synced(dir, s, y).evidence.Some? && WatermarkAt(s) != ""
    ensures NotLower(WatermarkAt(Synced(dir, s, y)), WatermarkAt(s), col.kind)
  {
    if ModeOf(s, y).Resolved? && y.rows != [] && y.recorded {
      AppendTruthful(dir, s, y, col, all);
    }
  }

  lemma NotLowerTransitive(a: string, b: string, c: string, kind: string, all: set<string>)
    requires Comparable(kind, all) && a in all && b in all && c in all && c != ""
    requires NotLower(a, b, kind) && NotLower(b, c, kind)
    ensures NotLower(a, c, kind)
  {
    if WatermarkGreater(a, b, kind) && WatermarkGreater(b, c, kind) {
      GreaterTransitive(a, b, c, kind, all);
    }
  }

  /** The watermarks recorded in a run are among the comparable ones. */
  lemma RecordedInAll(dir: string, ys: seq<Sync>, n: nat, col: Column, all: set<string>)
    requires RegularRun(dir, ys, col, all) && n <= |ys| && WatermarkAt(SyncAll(dir, ys[..n])) != ""
    ensures WatermarkAt(SyncAll(dir, ys[..n])) in all
  {
    RegularPrefix(dir, ys, n, col, all);
    EvidenceIsTrue(dir, ys[..n], col, all);
  }

  lemma RegularPrefix(dir: string, ys: seq<Sync>, n: nat, col: Column, all: set<string>)
    requires RegularRun(dir, ys, col, all) && n <= |ys|
    ensures RegularRun(dir, ys[..n], col, all)
  {
    forall i | 0 <= i < n ensures Regular(dir, SyncAll(dir, ys[..n][..i]), ys[..n][i], col, all) {
      assert ys[..n][..i] == ys[..i] && ys[..n][i] == ys[i];
    }
  }

  lemma NotFullNonEmpty(s: State, y: Sync)
    requires NotFull(s, y)
    ensures WatermarkAt(s) != ""
  {
  }

  /** Over every regular run: from a recorded state on, as long as no sync is a full refresh, the recorded watermark
      never falls. */
  lemma {:induction false} WatermarkNeverFalls(dir: string, ys: seq<Sync>, n: nat, col: Column, all: set<string>)
    requires RegularRun(dir, ys, col, all) && n <= |ys| && SyncAll(dir, ys[..n]).evidence.Some?
    requires NoneFullFrom(dir, ys, n)
    ensures SyncAll(dir, ys).evidence.Some?
    ensures NotLower(WatermarkAt(SyncAll(dir, ys)), WatermarkAt(SyncAll(dir, ys[..n])), col.kind)
    decreases |ys|
  {
    if n == |ys| {
      assert ys[..n] == ys;
    } else {
      var front, y := ys[..|ys| - 1], ys[|ys| - 1];
      RegularFront(dir, ys, col, all);
      NoneFullFront(dir, ys, n);
      WatermarkNeverFalls(dir, front, n, col, all);
      EvidenceIsTrue(dir, front, col, all);
      AppendNotLower(dir, SyncAll(dir, front), y, col, all);
      FallsNowhere(dir, ys, n, col, all);
    }
  }

  /** The last step of such a run, chained to the ones before. */
  lemma FallsNowhere(dir: string, ys: seq<Sync>, n: nat, col: Column, all: set<string>)
    requires RegularRun(dir, ys, col, all) && n < |ys| && SyncAll(dir, ys[..n]).evidence.Some?
    requires NotFull(SyncAll(dir, ys[..n]), ys[n])
    requires var a, b, c := SyncAll(dir, ys), SyncAll(dir, ys[..|ys| - 1]), SyncAll(dir, ys[..n]);
             && a.evidence.Some? && b.evidence.Some? && WatermarkAt(b) != ""
             && NotLower(WatermarkAt(a), WatermarkAt(b), col.kind) && NotLower(WatermarkAt(b), WatermarkAt(c), col.kind)
    ensures NotLower(WatermarkAt(SyncAll(dir, ys)), WatermarkAt(SyncAll(dir, ys[..n])), col.kind)
  {
    var a, b, c := WatermarkAt(SyncAll(dir, ys)), WatermarkAt(SyncAll(dir, ys[..|ys| - 1])),
                   WatermarkAt(SyncAll(dir, ys[..n]));
    NotFullNonEmpty(SyncAll(dir, ys[..n]), ys[n]);
    RecordedInAll(dir, ys, n, col, all);
    RecordedInAll(dir, ys, |ys| - 1, col, all);
    if a != b && a != "" {
      assert ys[..|ys|] == ys;
      RecordedInAll(dir, ys, |ys|, col, all);
      NotLowerTransitive(a, b, c, col.kind, all);
    }
  }

  // ----- which sync is done

  /** The column that is asked for, or the recorded one. */
  function ColumnFor(s: State, y: Sync): string {
    var asked := TrimSpace(y.opts.watermarkColumn);
    if asked == "" && y.evidenceRead && s.evidence.Some? then s.evidence.value.watermarkColumn else asked
  }

  /** An incremental sync is asked for after a recorded one with a watermark. */
  predicate Appends(s: State, y: Sync) {
    && y.opts.incremental && y.evidenceRead && s.evidence.Some?
    && s.evidence.value.status != "" && s.evidence.value.lastWatermark != "" && ColumnFor(s, y) != ""
  }

  /** Letters, digits and underscores, no digit first. */
  predicate Name(column: string) {
    && column != "" && !('0' <= column[0] <= '9')
    && forall i :: 0 <= i < |column| ==>
         'a' <= column[i] <= 'z' || 'A' <= column[i] <= 'Z' || '0' <= column[i] <= '9' || column[i] == '_'
  }

  /** The evidence says when, how and with what outcome the sync was done. */
  predicate Noted(d: Dataset, y: Sync, mode: Mode, rows: nat, bytes: nat, paths: seq<string>) {
    && d.mode == mode && d.syncedAt == y.now && d.status == y.status
    && d.rowCount == rows && d.bytesParquet == bytes && d.paths == paths
  }

  function PartFile(dir: string, y: Sync, column: string): string {
    dir + (if y.schema.kind(column) == "date" then "/dt=" + y.day else "") + "/part-" + FormatInt(y.now) + ".parquet"
  }

  /** A sync appends exactly when it is asked to after a recorded sync with a watermark, and replaces the data file
      otherwise; an append refuses a column that is no plain name, and without rows only notes the time. */
  lemma SyncRule(dir: string, s: State, y: Sync)
    ensures Appends(s, y) && !Name(ColumnFor(s, y)) ==> Synced(dir, s, y) == s
    ensures Appends(s, y) && Name(ColumnFor(s, y)) && y.rows == [] ==>
              Synced(dir, s, y)
              == if y.recorded then s.(evidence := Some(s.evidence.value.(mode := Incremental, syncedAt := y.now)))
                 else s
    ensures Appends(s, y) && Name(ColumnFor(s, y)) && y.rows != [] ==>
              var s', was, path := Synced(dir, s, y), s.evidence.value, PartFile(dir, y, ColumnFor(s, y));
              && s'.files == s.files[path := Part(y.rows, y.size)]
              && (if y.recorded then s'.evidence.Some?
                                     && Noted(s'.evidence.value, y, Incremental, was.rowCount + |y.rows|,
                                              was.bytesParquet + y.size, was.paths + [path])
                  else s'.evidence == s.evidence)
    ensures !Appends(s, y) ==>
              var s', path := Synced(dir, s, y), dir + "/data.parquet";
              && s'.files == s.files[path := Part(y.rows, y.size)]
              && (if y.recorded then s'.evidence.Some?
                                     && Noted(s'.evidence.value, y, Full, |y.rows|, y.size, [path])
                  else s'.evidence == s.evidence)
  {
    assert SafeIdentifier(ColumnFor(s, y)) <==> Name(ColumnFor(s, y));
    assert DataPath(dir) == dir + "/data.parquet";
    if Appends(s, y) {
      PartText(dir, y, ColumnFor(s, y));
    }
  }

  lemma PartText(dir: string, y: Sync, column: string)
    ensures PartPath(dir, y.now, y.schema.kind(column), y.day) == PartFile(dir, y, column)
  {
    var dated, name := "/dt=" + y.day, "part-" + FormatInt(y.now) + ".parquet";
    assert "/" + name == "/part-" + FormatInt(y.now) + ".parquet";
    if y.schema.kind(column) == "date" {
      assert dir + "/dt=" + y.day + "/" + name == dir + dated + ("/" + name);
    } else {
      assert dir + "/" + name == dir + "" + ("/" + name);
    }
  }

  // ----- incremental syncs refine full refreshes

  /** A row the incremental query selects: a watermark that is not NULL and above the recorded one. */
  predicate InTail(row: Row, col: Column, last: string) {
    col.index.Some? && WatermarkOf(row, col.index.value).Some?
    && WatermarkGreater(WatermarkOf(row, col.index.value).value, last, col.kind)
  }

  /** The incremental query compares with exactly the recorded watermark, whatever characters that holds. */
  lemma QueryComparesWatermark(table: string, r: Resolved)
    requires r.Resolved? && r.mode == Incremental && r.column != ""
    ensures var head := "SELECT * FROM " + table + " WHERE " + r.column + " > '";
            && head <= ExtractQuery(table, r)
            && ReadQuoted(ExtractQuery(table, r)[|head|..], '\'') == Some((r.last, " ORDER BY " + r.column))
  {
    var head := "SELECT * FROM " + table + " WHERE " + r.column + " > '";
    var rest := " ORDER BY " + r.column;
    QuotedReadsBack(r.last, '\'', rest);
    QueryText(head, Doubled(r.last, '\''), r.column);
    assert ExtractQuery(table, r) == head + (Doubled(r.last, '\'') + "'" + rest);
  }

  lemma QueryText(head: string, literal: string, column: string)
    ensures head + literal + "' ORDER BY " + column == head + (literal + "'" + (" ORDER BY " + column))
  {
  }

  /** The rows a database holding `source` returns for the extraction query, in any order. */
  ghost predicate Extracted(rows: seq<Row>, source: multiset<Row>, r: Resolved, col: Column) {
    match r
    case UnsafeColumn => true
    case Resolved(Full, _, _) => multiset(rows) == source
    case Resolved(Incremental, _, last) =>
      forall row :: multiset(rows)[row] == if InTail(row, col, last) then source[row] else 0
  }

  /** The source table beside the warehouse. */
  datatype World = World(source: multiset<Row>, s: State)

  datatype Event = Insert(row: Row) | DoSync(y: Sync)

  function After(dir: string, w: World, ev: Event): World {
    match ev
    case Insert(row) => w.(source := w.source + multiset{row})
    case DoSync(y) => w.(s := Synced(dir, w.s, y))
  }

  /** Rows are only added, above the recorded watermark once there is one; syncs see the rows there are; and no full
      refresh overwrites listed rows without being recorded. */
  ghost predicate Allowed(w: World, ev: Event, col: Column, all: set<string>) {
    match ev
    case Insert(row) => w.s.evidence.Some? && w.s.evidence.value.lastWatermark != "" ==>
      InTail(row, col, w.s.evidence.value.lastWatermark)
    case DoSync(y) =>
      && OfColumn(w.s, y, col, all) && Extracted(y.rows, w.source, ModeOf(w.s, y), col)
      && (y.recorded || NotFull(w.s, y) || w.s.evidence.None?)
  }

  ghost function Listed(s: State): multiset<Row>
    requires s.evidence.Some? ==> Present(s.files, s.evidence.value.paths)
  {
    if s.evidence.None? then multiset{} else multiset(AllRows(s.files, s.evidence.value.paths))
  }

  /** The listed files hold source rows, each at most as often; what is missing lies above the watermark. */
  ghost predicate Behind(w: World, col: Column, all: set<string>) {
    w.s.evidence.Some? ==>
      var d := w.s.evidence.value;
      && Truthful(w.s, d, col, all)
      && Listed(w.s) <= w.source
      && (d.lastWatermark != "" ==> forall row :: row in w.source - Listed(w.s) ==> InTail(row, col, d.lastWatermark))
  }

  /** No listed row is selected again. */
  lemma ListedNotInTail(w: World, col: Column, all: set<string>, row: Row)
    requires w.s.evidence.Some? && Truthful(w.s, w.s.evidence.value, col, all)
    requires w.s.evidence.value.lastWatermark != "" && row in Listed(w.s)
    ensures !InTail(row, col, w.s.evidence.value.lastWatermark)
  {
    var rows := AllRows(w.s.files, w.s.evidence.value.paths);
    assert row in rows;
    if col.index.Some? && WatermarkOf(row, col.index.value).Some? {
      assert WatermarkOf(row, col.index.value).value in Watermarks(rows, col.index.value);
    }
  }

  /** The tail is exactly what is missing. */
  lemma TailIsMissing(w: World, col: Column, all: set<string>, rows: seq<Row>)
    requires w.s.evidence.Some? && Behind(w, col, all) && w.s.evidence.value.lastWatermark != ""
    requires forall row :: multiset(rows)[row] ==
               if InTail(row, col, w.s.evidence.value.lastWatermark) then w.source[row] else 0
    ensures multiset(rows) == w.source - Listed(w.s)
  {
    var last := w.s.evidence.value.lastWatermark;
    forall row ensures multiset(rows)[row] == (w.source - Listed(w.s))[row] {
      if row in Listed(w.s) {
        ListedNotInTail(w, col, all, row);
      }
      if !InTail(row, col, last) {
        assert row !in w.source - Listed(w.s);
      }
    }
  }

  lemma AppendLists(dir: string, w: World, y: Sync, col: Column, all: set<string>)
    requires w.s.evidence.Some? && Truthful(w.s, w.s.evidence.value, col, all) && OfColumn(w.s, y, col, all)
    requires Comparable(col.kind, all)
    requires ModeOf(w.s, y).Resolved? && ModeOf(w.s, y).mode == Incremental
    ensures var s' := Intended(dir, w.s, y);
            s'.evidence.Some? && Truthful(s', s'.evidence.value, col, all)
            && Listed(s') == Listed(w.s) + multiset(y.rows)
  {
    if y.rows != [] {
      AppendTruthful(dir, w.s, y, col, all);
    } else {
      RecordedKeepsTruth(dir, w.s, y, col, all);
    }
  }

  /** Whatever was inserted: an incremental sync leaves exactly the source rows listed if and only if every row the
      query does not select, because its watermark is NULL or not above the recorded one, is already listed. */
  lemma CatchesUpExactly(dir: string, w: World, y: Sync, col: Column, all: set<string>)
    requires w.s.evidence.Some? && Truthful(w.s, w.s.evidence.value, col, all) && Comparable(col.kind, all)
    requires Allowed(w, DoSync(y), col, all)
    requires ModeOf(w.s, y).Resolved? && ModeOf(w.s, y).mode == Incremental
    ensures var s' := Intended(dir, w.s, y);
            && s'.evidence.Some? && Present(s'.files, s'.evidence.value.paths)
            && (Listed(s') == w.source
                <==> forall row :: !InTail(row, col, w.s.evidence.value.lastWatermark) ==>
                         Listed(w.s)[row] == w.source[row])
  {
    var last := w.s.evidence.value.lastWatermark;
    AppendLists(dir, w, y, col, all);
    forall row
      ensures (Listed(w.s) + multiset(y.rows))[row]
           == if InTail(row, col, last) then w.source[row] else Listed(w.s)[row]
    {
      if row in Listed(w.s) {
        ListedNotInTail(w, col, all, row);
      }
    }
  }

  // ----- a run that misses a row

  const ID_COLUMN: Column := Column("id", Some(0), "text")

  /** Every column but `id` is unknown, and `id` is detected. */
  function IdSchema(): Schema {
    Schema(name => if name == "id" then Some(0) else None, name => "text", "id")
  }

  const FIRST_ROW: Row := [Some("5")]

  function FirstSync(): Sync {
    Sync(SyncOptions(false, ""), true, IdSchema(), [FIRST_ROW], 1, "", 0, "succeeded", true)
  }

  function SecondSync(): Sync {
    Sync(SyncOptions(true, ""), true, IdSchema(), [], 2, "", 0, "succeeded", true)
  }

  function FirstWorld(): World {
    World(multiset{FIRST_ROW}, State(map[], None))
  }

  /** The state FirstSync leaves. */
  function FirstState(dir: string): State {
    State(map[DataPath(dir) := Part([FIRST_ROW], 0)],
          Some(Dataset("id", "text", "5", Full, 1, 0, [DataPath(dir)], 1, "succeeded")))
  }

  /** A full sync of one row with watermark 5, then any row that the incremental query does not select, such as one with
      watermark 5 again or with NULL, then an incremental sync that extracts what the source returns: the row is
      missing from the warehouse. */
  lemma LateRowIsMissed(dir: string, late: Row)
    requires !InTail(late, ID_COLUMN, "5")
    ensures var first, insert, second := DoSync(FirstSync()), Insert(late), DoSync(SecondSync());
            var w2 := After(dir, After(dir, FirstWorld(), first), insert);
            var w3 := After(dir, w2, second);
            && Allowed(FirstWorld(), first, ID_COLUMN, {"5"}) && Allowed(w2, second, ID_COLUMN, {"5"})
            && ModeOf(w2.s, SecondSync()) == Resolved(Incremental, "id", "5")
            && w3.s.evidence.Some? && Present(w3.s.files, w3.s.evidence.value.paths) && Listed(w3.s) != w3.source
  {
    var w2 := World(multiset{FIRST_ROW} + multiset{late}, FirstState(dir));
    FirstAllowed();
    FirstSynced(dir);
    SecondAllowed(dir, late);
    SecondMisses(dir, late);
    assert After(dir, After(dir, FirstWorld(), DoSync(FirstSync())), Insert(late)) == w2;
  }

  lemma FirstAllowed()
    ensures Allowed(FirstWorld(), DoSync(FirstSync()), ID_COLUMN, {"5"})
  {
    FirstMode();
    assert Watermarks([FIRST_ROW], 0) == {"5"} by {
      assert WatermarkOf([FIRST_ROW][0], 0) == Some("5");
    }
    assert multiset([FIRST_ROW]) == multiset{FIRST_ROW};
  }

  lemma SecondAllowed(dir: string, late: Row)
    requires !InTail(late, ID_COLUMN, "5")
    ensures Allowed(World(multiset{FIRST_ROW} + multiset{late}, FirstState(dir)), DoSync(SecondSync()), ID_COLUMN,
                    {"5"})
  {
    SecondMode(dir);
    LessIrreflexive("5");
    assert !InTail(FIRST_ROW, ID_COLUMN, "5");
    assert Watermarks([], 0) == {};
  }

  lemma SecondMisses(dir: string, late: Row)
    ensures var s := Synced(dir, FirstState(dir), SecondSync());
            && s.evidence.Some? && Present(s.files, s.evidence.value.paths)
            && Listed(s) != multiset{FIRST_ROW} + multiset{late}
  {
    SecondMode(dir);
    var s := Synced(dir, FirstState(dir), SecondSync());
    AppendPath(s.files, [], DataPath(dir));
    assert [] + [DataPath(dir)] == [DataPath(dir)];
    assert |multiset([FIRST_ROW])| == 1 && |multiset{FIRST_ROW} + multiset{late}| == 2;
  }

  /** A full refresh of two rows that cannot be recorded. */
  function LostRefresh(): Sync {
    Sync(SyncOptions(false, ""), true, IdSchema(), [FIRST_ROW, FIRST_ROW], 2, "", 0, "succeeded", false)
  }

  /** After FirstSync it leaves evidence that states one row above a listed file of two. */
  lemma UnrecordedRefreshLies(dir: string)
    ensures var s := Synced(dir, FirstState(dir), LostRefresh());
            && s.evidence == FirstState(dir).evidence && Present(s.files, s.evidence.value.paths)
            && s.evidence.value.rowCount != |AllRows(s.files, s.evidence.value.paths)|
  {
    assert TrimSpace("") == "";
    var s := Synced(dir, FirstState(dir), LostRefresh());
    AppendPath(s.files, [], DataPath(dir));
    assert [] + [DataPath(dir)] == [DataPath(dir)];
  }

  lemma FirstMode()
    ensures ModeOf(State(map[], None), FirstSync()) == Resolved(Full, "", "")
  {
    assert TrimSpace("") == "";
  }

  lemma FirstSynced(dir: string)
    ensures Synced(dir, State(map[], None), FirstSync()) == FirstState(dir)
  {
    FirstMode();
    assert [FIRST_ROW][..0] == [];
    assert ScanWatermark([FIRST_ROW], 0, "text", "") == "5";
  }

  lemma SecondMode(dir: string)
    ensures ModeOf(FirstState(dir), SecondSync()) == Resolved(Incremental, "id", "5")
  {
    assert TrimSpace("") == "";
    assert SafeIdentifier("id");
  }

  lemma AppendCatchesUp(dir: string, w: World, y: Sync, col: Column, all: set<string>)
    requires Behind(w, col, all) && Allowed(w, DoSync(y), col, all) && Comparable(col.kind, all)
    requires ModeOf(w.s, y).Resolved? && ModeOf(w.s, y).mode == Incremental
    ensures var s' := Intended(dir, w.s, y);
            s'.evidence.Some? && Truthful(s', s'.evidence.value, col, all) && Listed(s') == w.source
  {
    TailIsMissing(w, col, all, y.rows);
    assert w.source == Listed(w.s) + multiset(y.rows);
    AppendLists(dir, w, y, col, all);
  }

  /** After a sync that ran, full or incremental, the listed files hold exactly the source rows, each once:
      the same rows a full refresh would have written. */
  lemma SyncCatchesUp(dir: string, w: World, y: Sync, col: Column, all: set<string>)
    requires Behind(w, col, all) && Allowed(w, DoSync(y), col, all) && Comparable(col.kind, all)
    requires ModeOf(w.s, y).Resolved?
    ensures var s' := Intended(dir, w.s, y);
            s'.evidence.Some? && Truthful(s', s'.evidence.value, col, all) && Listed(s') == w.source
  {
    if ModeOf(w.s, y).mode == Full {
      FullSyncTruthful(dir, w.s, y, col, all);
    } else {
      AppendCatchesUp(dir, w, y, col, all);
    }
  }

  lemma EventKeeps(dir: string, w: World, ev: Event, col: Column, all: set<string>)
    requires Behind(w, col, all) && Allowed(w, ev, col, all) && Comparable(col.kind, all)
    ensures Behind(After(dir, w, ev), col, all)
  {
    match ev
    case Insert(row) =>
      if w.s.evidence.Some? {
        assert w.source + multiset{row} - Listed(w.s) == w.source - Listed(w.s) + multiset{row};
      }
    case DoSync(y) =>
      if y.recorded {
        if ModeOf(w.s, y).Resolved? {
          SyncCatchesUp(dir, w, y, col, all);
        }
      } else if w.s.evidence.Some? {
        UnrecordedAppend(dir, w.s, y, col, all);
      }
  }

  function AfterAll(dir: string, w: World, evs: seq<Event>): World {
    if evs == [] then w else After(dir, AfterAll(dir, w, evs[..|evs| - 1]), evs[|evs| - 1])
  }

  ghost predicate AllAllowed(dir: string, w: World, evs: seq<Event>, col: Column, all: set<string>) {
    evs == [] || (AllAllowed(dir, w, evs[..|evs| - 1], col, all)
                  && Allowed(AfterAll(dir, w, evs[..|evs| - 1]), evs[|evs| - 1], col, all))
  }

  /** Over every run of inserts and syncs from an empty warehouse: the evidence is true, nothing is listed that the
      source does not hold, and whenever the last event was a sync the listed files hold exactly the source rows. */
  lemma {:induction false} IncrementalRefinesFull(dir: string, source: multiset<Row>, evs: seq<Event>, col: Column,
                                                  all: set<string>)
    requires AllAllowed(dir, World(source, State(map[], None)), evs, col, all) && Comparable(col.kind, all)
    ensures var w := AfterAll(dir, World(source, State(map[], None)), evs);
            && Behind(w, col, all)
            && (evs != [] && evs[|evs| - 1].DoSync? && evs[|evs| - 1].y.recorded
                && ModeOf(AfterAll(dir, World(source, State(map[], None)), evs[..|evs| - 1]).s,
                          evs[|evs| - 1].y).Resolved?
                ==> w.s.evidence.Some? && Listed(w.s) == w.source)
  {
    if evs != [] {
      IncrementalRefinesFull(dir, source, evs[..|evs| - 1], col, all);
      var w := AfterAll(dir, World(source, State(map[], None)), evs[..|evs| - 1]);
      var ev := evs[|evs| - 1];
      EventKeeps(dir, w, ev, col, all);
      if ev.DoSync? && ev.y.recorded && ModeOf(w.s, ev.y).Resolved? {
        SyncCatchesUp(dir, w, ev.y, col, all);
      }
    }
  }
}
