/** The per-table warehouse sync of productexperience/service_warehouse.go: full refresh or
    watermark-based append, with the evidence it records. */
module Warehouse {
  import opened Wrappers
  import opened Text
  import opened GoStrings

  /** A cell is NULL or a normalised text. */
  type Row = seq<Option<string>>

  datatype Mode = Full | Incremental
  datatype SyncOptions = SyncOptions(incremental: bool, watermarkColumn: string)

  /** What the column list of an extraction says about a column name: its position, its watermark
      type, and the column that is picked when none is configured. */
  datatype Schema = Schema(index: string -> Option<nat>, kind: string -> string, detected: string)

  /** A written Parquet file. */
  datatype Part = Part(rows: seq<Row>, size: nat)

  /** The recorded evidence. */
  datatype Dataset = Dataset(watermarkColumn: string, watermarkType: string, lastWatermark: string, mode: Mode,
                             rowCount: nat, bytesParquet: nat, paths: seq<string>, syncedAt: int, status: string)

  datatype State = State(files: map<string, Part>, evidence: Option<Dataset>)

  datatype Resolved = Resolved(mode: Mode, column: string, last: string) | UnsafeColumn

  predicate IsIdentStart(c: char) {
    'A' <= c <= 'Z' || 'a' <= c <= 'z' || c == '_'
  }

  /** ^[A-Za-z_][A-Za-z0-9_]*$ */
  predicate SafeIdentifier(s: string) {
    s != "" && IsIdentStart(s[0]) && forall i :: 0 <= i < |s| ==> IsIdentStart(s[i]) || IsDigit(s[i])
  }

  /** resolveWarehouseSyncMode */
  function ResolveMode(opts: SyncOptions, prev: Option<Dataset>): (r: Resolved)
    ensures r.Resolved? && r.mode == Incremental ==>
              prev.Some? && r.last == prev.value.lastWatermark != "" && SafeIdentifier(r.column)
    ensures r.Resolved? && r.mode == Full ==> r.last == ""
  {
    var asked := TrimSpace(opts.watermarkColumn);
    var column := if asked == "" && prev.Some? then prev.value.watermarkColumn else asked;
    if opts.incremental && prev.Some? && prev.value.status != "" && column != "" && prev.value.lastWatermark != "" then
      if SafeIdentifier(column) then Resolved(Incremental, column, prev.value.lastWatermark) else UnsafeColumn
    else Resolved(Full, column, "")
  }

  /** buildWarehouseExtractQuery */
  function ExtractQuery(table: string, r: Resolved): string
    requires r.Resolved?
  {
    if r.mode == Full || r.column == "" then "SELECT * FROM " + table
    else "SELECT * FROM " + table + " WHERE " + r.column + " > '" + Doubled(r.last, '\'') + "' ORDER BY " + r.column
  }

  /** watermarkGreater */
  predicate WatermarkGreater(a: string, b: string, kind: string) {
    if kind == "integer" && ParseInt64(a).Some? && ParseInt64(b).Some?
    then ParseInt64(a).value > ParseInt64(b).value
    else Less(b, a)
  }

  // ----- watermarks of rows

  /** The watermark of a row, if it has one. */
  function WatermarkOf(row: Row, idx: nat): Option<string> {
    if idx < |row| then row[idx] else None
  }

  /** The non-null watermarks of some rows. */
  function Watermarks(rows: seq<Row>, idx: nat): set<string> {
    set i | 0 <= i < |rows| && WatermarkOf(rows[i], idx).Some? :: WatermarkOf(rows[i], idx).value
  }

  /** One turn of the scan. */
  function Larger(w: string, v: string, kind: string): string {
    if w == "" || WatermarkGreater(v, w, kind) then v else w
  }

  /** The watermark after scanning the rows from `last` on. */
  function ScanWatermark(rows: seq<Row>, idx: nat, kind: string, last: string): string {
    if rows == [] then last
    else
      var w := ScanWatermark(rows[..|rows| - 1], idx, kind, last);
      var v := WatermarkOf(rows[|rows| - 1], idx);
      if v.None? then w else Larger(w, v.value, kind)
  }

  function NewWatermark(rows: seq<Row>, schema: Schema, column: string, last: string): string {
    match schema.index(column)
    case None => last
    case Some(idx) => ScanWatermark(rows, idx, schema.kind(column), last)
  }

  // ----- paths

  function DataPath(dir: string): string {
    dir + "/" + "data.parquet"
  }

  function PartName(now: int): string {
    "part-" + FormatInt(now) + ".parquet"
  }

  /** Incremental parts carry the sync time; date watermarks also put them under the sync day. */
  function PartPath(dir: string, now: int, kind: string, day: string): string {
    (if kind == "date" then dir + "/dt=" + day else dir) + "/" + PartName(now)
  }

  // ----- one sync

  /** The inputs of one sync: the options, whether the recorded evidence could be read, the extraction
      with its columns, the clock, its day, the size of the written file, what the check of that file
      found, which is never empty, and whether the new evidence could be recorded. */
  datatype Sync = Sync(opts: SyncOptions, evidenceRead: bool, schema: Schema, rows: seq<Row>,
                       now: int, day: string, size: nat, status: string, recorded: bool)

  /** Evidence that cannot be read counts as none. */
  function Prev(s: State, y: Sync): Option<Dataset> {
    if y.evidenceRead then s.evidence else None
  }

  function ModeOf(s: State, y: Sync): Resolved {
    ResolveMode(y.opts, Prev(s, y))
  }

  function ColumnUsed(r: Resolved, schema: Schema): string
    requires r.Resolved?
  {
    if r.mode == Full && r.column == "" then schema.detected else r.column
  }

  function TargetPath(dir: string, r: Resolved, y: Sync): string
    requires r.Resolved?
  {
    if r.mode == Incremental then PartPath(dir, y.now, y.schema.kind(r.column), y.day) else DataPath(dir)
  }

  /** The evidence a sync that wrote a file records. */
  function Recorded(dir: string, prev: Option<Dataset>, r: Resolved, y: Sync): Dataset
    requires r.Resolved? && (r.mode == Incremental ==> prev.Some?)
  {
    var column := ColumnUsed(r, y.schema);
    var path := TargetPath(dir, r, y);
    var w := NewWatermark(y.rows, y.schema, column, r.last);
    if r.mode == Incremental then
      Dataset(column, y.schema.kind(column), w, r.mode, prev.value.rowCount + |y.rows|,
              prev.value.bytesParquet + y.size,
              prev.value.paths + [path], y.now, y.status)
    else Dataset(column, y.schema.kind(column), w, r.mode, |y.rows|, y.size, [path], y.now, y.status)
  }

  /** The state after a sync whose evidence is recorded. */
  function Intended(dir: string, s: State, y: Sync): (s': State) {
    var r := ModeOf(s, y);
    if r.UnsafeColumn? then s
    else if r.mode == Incremental && y.rows == [] then
      s.(evidence := Some(s.evidence.value.(mode := Incremental, syncedAt := y.now)))
    else
      State(s.files[TargetPath(dir, r, y) := Part(y.rows, y.size)], Some(Recorded(dir, Prev(s, y), r, y)))
  }

  /** The state after a sync: if the evidence cannot be recorded, a file was written all the same. */
  function Synced(dir: string, s: State, y: Sync): (s': State) {
    var s' := Intended(dir, s, y);
    if y.recorded then s' else s'.(evidence := s.evidence)
  }

  /** The warehouse directory and the evidence of one table. */
  class Table {
    const dir: string
    var files: map<string, Part>
    var evidence: Option<Dataset>

    constructor (dir: string)
      ensures this.dir == dir && files == map[] && evidence == None
    {
      this.dir := dir;
      files, evidence := map[], None;
    }

    /** The scan for the largest watermark. */
    method Scan(rows: seq<Row>, idx: nat, kind: string, last: string) returns (w: string)
      ensures w == ScanWatermark(rows, idx, kind, last)
    {
      w := last;
      for i := 0 to |rows|
        invariant w == ScanWatermark(rows[..i], idx, kind, last)
      {
        assert rows[..i + 1][..i] == rows[..i];
        if idx < |rows[i]| && rows[i][idx].Some? {
          var v := rows[i][idx].value;
          if w == "" || WatermarkGreater(v, w, kind) {
            w := v;
          }
        }
      }
      assert rows[..|rows|] == rows;
    }

    /** syncWarehouseTable */
    method SyncTable(y: Sync) returns (ok: bool)
      modifies this
      ensures State(files, evidence) == Synced(dir, State(old(files), old(evidence)), y)
      ensures ok <==> ModeOf(State(old(files), old(evidence)), y).Resolved? && y.recorded
    {
      var prev := if y.evidenceRead then evidence else None;
      var r := ResolveMode(y.opts, prev);
      if r.UnsafeColumn? {
        return false;
      }
      if r.mode == Incremental && |y.rows| == 0 {
        ok := Upsert(prev.value.(mode := Incremental, syncedAt := y.now), y.recorded);
        return;
      }
      var d := WritePart(y, prev, r);
      ok := Upsert(d, y.recorded);
    }

    /** The file is written and its evidence put together. */
    method WritePart(y: Sync, prev: Option<Dataset>, r: Resolved) returns (d: Dataset)
      requires r.Resolved? && (r.mode == Incremental ==> prev.Some?)
      modifies this`files
      ensures files == old(files)[TargetPath(dir, r, y) := Part(y.rows, y.size)]
      ensures d == Recorded(dir, prev, r, y)
    {
      var column := r.column;
      if r.mode == Full && column == "" {
        column := y.schema.detected;
      }
      var kind := y.schema.kind(column);
      var path := DataPath(dir);
      if r.mode == Incremental {
        path := PartPath(dir, y.now, kind, y.day);
      }
      files := files[path := Part(y.rows, y.size)];
      var w := r.last;
      var idx := y.schema.index(column);
      if idx.Some? {
        w := Scan(y.rows, idx.value, kind, r.last);
      }
      var rowCount, bytes, paths := |y.rows|, y.size, [path];
      if r.mode == Incremental && prev.Some? {
        rowCount := prev.value.rowCount + |y.rows|;
        bytes := prev.value.bytesParquet + y.size;
        paths := prev.value.paths + [path];
      }
      d := Dataset(column, kind, w, r.mode, rowCount, bytes, paths, y.now, y.status);
    }

    /** upsertWarehouseEvidence, with the answer of the store. */
    method Upsert(d: Dataset, recorded: bool) returns (ok: bool)
      modifies this`evidence
      ensures ok == recorded && evidence == if recorded then Some(d) else old(evidence)
    {
      ok := recorded;
      if recorded {
        evidence := Some(d);
      }
    }
  }
}
