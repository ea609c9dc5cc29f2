/** Building one batch: rows go in one at a time, columns come out one at a time, and the batch
    exists exactly when every row fits the schema on its own. */
module BatchBuild {
  import opened Wrappers
  import opened SealPass
  import opened ArrowTypes
  import opened Timestamps
  import opened JsonRender

  /** A parsed JSON value as a cell reads it; what is inside a nested value never matters. */
  datatype Value = VNull | VBool(b: bool) | VInt(n: int) | VReal(x: real) | VStr(s: string) | VNested

  datatype Payload = Object(members: map<string, Value>) | NotObject

  datatype Cell = CBool(b: bool) | CInt(n: int) | CReal(x: real) | CStr(s: string)

  datatype BuildError = SchemaParse | ReservedColumn

  datatype BuiltRow = BuiltRow(obj: map<string, Value>, cardRef: string, runId: Option<string>)

  /** User columns in schema order, then the two correlation columns. */
  datatype Batch = Batch(columns: seq<Column>, cardRefs: seq<string>, runIds: seq<Option<string>>)

  /** An array: the type the builder gives it, and its cells. */
  datatype Column = Column(arrow: Arrow, cells: seq<Option<Cell>>)

  /** The user columns, and how JSON text is read. */
  datatype Schema = Schema(fields: seq<AField>, parse: string -> Option<Payload>)

  predicate IsReserved(name: string) {
    "wyrd_" <= name || name == "card_ref" || name == "run_id"
  }

  function IntRange(t: Arrow): Option<(int, int)> {
    match t
    case AInt8 => Some((-0x80, 0x80))
    case AInt16 => Some((-0x8000, 0x8000))
    case AInt32 => Some((-0x8000_0000, 0x8000_0000))
    case AInt64 => Some((-0x8000_0000_0000_0000, 0x8000_0000_0000_0000))
    case AUInt8 => Some((0, 0x100))
    case AUInt16 => Some((0, 0x1_0000))
    case AUInt32 => Some((0, 0x1_0000_0000))
    case AUInt64 => Some((0, 0x1_0000_0000_0000_0000))
    case _ => None
  }

  predicate Supported(t: Arrow) {
    || IntRange(t).Some?
    || t in {ABoolean, AFloat32, AFloat64, AUtf8, ALargeUtf8, ADate32}
    || (t.ATimestamp? && t.aunit == ArrowMicrosecond)
  }

  /** The type of the array `build_column` gives for a column type: text is always short text. */
  function BuiltAs(t: Arrow): Arrow {
    if t == ALargeUtf8 then AUtf8 else t
  }

  /** The assembly takes an array only under a field of its own type. */
  predicate TypesMatch(fields: seq<AField>, columns: seq<Column>) {
    |columns| == |fields| && forall c :: 0 <= c < |fields| ==> columns[c].arrow == fields[c].arrow
  }

  predicate Assembles(fields: seq<AField>) {
    forall c :: 0 <= c < |fields| ==> BuiltAs(fields[c].arrow) == fields[c].arrow
  }

  function AsInt(parsed: Option<int>): Option<Cell> {
    match parsed
    case Some(n) => Some(CInt(n))
    case None => None
  }

  /** The closure a column type hands to `collect`. */
  function ParseCell(t: Arrow, v: Value): Option<Cell>
    requires Supported(t)
  {
    if IntRange(t).Some? then
      if v.VInt? && IntRange(t).value.0 <= v.n < IntRange(t).value.1 then Some(CInt(v.n)) else None
    else
      match (t, v)
      case (ABoolean, VBool(b)) => Some(CBool(b))
      case (AFloat32, VInt(n)) => Some(CReal(n as real))
      case (AFloat32, VReal(x)) => Some(CReal(x))
      case (AFloat64, VInt(n)) => Some(CReal(n as real))
      case (AFloat64, VReal(x)) => Some(CReal(x))
      case (AUtf8, VStr(s)) => Some(CStr(s))
      case (ALargeUtf8, VStr(s)) => Some(CStr(s))
      case (ADate32, VStr(s)) => AsInt(ParseDateDays(s))
      case (ATimestamp(_, _), VStr(s)) => AsInt(ParseRfc3339Micros(s))
      case _ => None
  }

  /** The cell of one row under one field: nothing if it does not fit, a null cell if it is absent. */
  function CellOf(f: AField, obj: map<string, Value>): Option<Option<Cell>> {
    if !Supported(f.arrow) then None
    else if f.name !in obj || obj[f.name].VNull? then (if f.nullable then Some(None) else None)
    else
      match ParseCell(f.arrow, obj[f.name])
      case Some(cell) => Some(Some(cell))
      case None => None
  }

  /** What `append_json_row` makes of a row. */
  function Read(schema: Schema, row: Row): Result<BuiltRow, BuildError> {
    match schema.parse(row.json)
    case Some(Object(members)) =>
      if exists key :: key in members && IsReserved(key) then Err(ReservedColumn)
      else Ok(BuiltRow(members, row.cardRef, row.runId))
    case _ => Err(SchemaParse)
  }

  /** A row that builds by itself. */
  predicate Builds(schema: Schema, row: Row) {
    && Assembles(schema.fields)
    && Read(schema, row).Ok?
    && forall c :: 0 <= c < |schema.fields| ==> CellOf(schema.fields[c], Read(schema, row).value.obj).Some?
  }

  function CellAt(schema: Schema, row: Row, c: nat): Option<Cell>
    requires c < |schema.fields| && Builds(schema, row)
  {
    CellOf(schema.fields[c], Read(schema, row).value.obj).value
  }

  /** The batch of rows that build, cell by cell: cell `i` of a column comes from row `i` alone. */
  ghost function BatchOf(schema: Schema, rows: seq<Row>): Batch
    requires forall i :: 0 <= i < |rows| ==> Builds(schema, rows[i])
  {
    Batch(seq(|schema.fields|, c requires 0 <= c < |schema.fields| =>
            Column(schema.fields[c].arrow, seq(|rows|, i requires 0 <= i < |rows| => CellAt(schema, rows[i], c)))),
          seq(|rows|, i requires 0 <= i < |rows| => rows[i].cardRef),
          seq(|rows|, i requires 0 <= i < |rows| => rows[i].runId))
  }

  // ---- Which cell a value becomes ----

  /** The whole numbers a column type of that kind holds. */
  predicate Holds(t: Arrow, n: int) {
    match t
    case AInt8 => -128 <= n <= 127
    case AInt16 => -32_768 <= n <= 32_767
    case AInt32 => -2_147_483_648 <= n <= 2_147_483_647
    case AInt64 => -9_223_372_036_854_775_808 <= n <= 9_223_372_036_854_775_807
    case AUInt8 => 0 <= n <= 255
    case AUInt16 => 0 <= n <= 65_535
    case AUInt32 => 0 <= n <= 4_294_967_295
    case AUInt64 => 0 <= n <= 18_446_744_073_709_551_615
    case _ => false
  }

  /** A value other than null is a cell of a column type: a truth value, a number in range, a number as a
      fraction, a text, the day a text names as a date, or the microsecond it names as a time. */
  predicate Becomes(t: Arrow, v: Value, cell: Cell) {
    match cell
    case CBool(b) => t == ABoolean && v == VBool(b)
    case CReal(x) => t in {AFloat32, AFloat64} && (v == VReal(x) || (v.VInt? && x == v.n as real))
    case CStr(s) => t in {AUtf8, ALargeUtf8} && v == VStr(s)
    case CInt(n) =>
      || (Holds(t, n) && v == VInt(n))
      || (t == ADate32 && v.VStr? && ParseDateDays(v.s) == Some(n))
      || (t.ATimestamp? && t.aunit == ArrowMicrosecond && v.VStr? && ParseRfc3339Micros(v.s) == Some(n))
  }

  /** The cell of a row under a field, for every column type and every value: null exactly where a
      nullable column of a supported type has no value, otherwise what the value becomes, and nothing
      in every other case. */
  lemma CellTable(f: AField, obj: map<string, Value>, cell: Option<Cell>)
    ensures CellOf(f, obj) == Some(cell) <==>
              var v := if f.name in obj then obj[f.name] else VNull;
              match cell
              case None =>
                && f.nullable && v == VNull
                && (|| f.arrow in {ABoolean, AInt8, AInt16, AInt32, AInt64, AUInt8, AUInt16, AUInt32, AUInt64}
                    || f.arrow in {AFloat32, AFloat64, AUtf8, ALargeUtf8, ADate32}
                    || (f.arrow.ATimestamp? && f.arrow.aunit == ArrowMicrosecond))
              case Some(c) => Becomes(f.arrow, v, c)
  {
    hide ParseDateDays, ParseRfc3339Micros;
    var v := if f.name in obj then obj[f.name] else VNull;
    if v != VNull && Supported(f.arrow) && cell.Some? {
      ParsedBecomes(f.arrow, v, cell.value);
    }
  }

  lemma ParsedBecomes(t: Arrow, v: Value, cell: Cell)
    requires Supported(t) && v != VNull
    ensures ParseCell(t, v) == Some(cell) <==> Becomes(t, v, cell)
  {
    hide ParseDateDays, ParseRfc3339Micros;
  }

  /** What a wire type holds. */
  predicate WireHolds(s: Spec, v: Value) {
    match s
    case Bool => v.VBool?
    case Int8 => v.VInt? && -128 <= v.n <= 127
    case Int16 => v.VInt? && -32_768 <= v.n <= 32_767
    case Int32 => v.VInt? && -2_147_483_648 <= v.n <= 2_147_483_647
    case Int64 => v.VInt? && -9_223_372_036_854_775_808 <= v.n <= 9_223_372_036_854_775_807
    case UInt8 => v.VInt? && 0 <= v.n <= 255
    case UInt16 => v.VInt? && 0 <= v.n <= 65_535
    case UInt32 => v.VInt? && 0 <= v.n <= 4_294_967_295
    case UInt64 => v.VInt? && 0 <= v.n <= 18_446_744_073_709_551_615
    case Float32 => v.VInt? || v.VReal?
    case Float64 => v.VInt? || v.VReal?
    case Utf8 => v.VStr?
    case LargeUtf8 => v.VStr?
    case Date32 => v.VStr? && ParseDateDays(v.s).Some?
    case Timestamp(unit, _) => unit == Microsecond && v.VStr? && ParseRfc3339Micros(v.s).Some?
    case _ => false
  }

  /** The Arrow type of a wire type takes the values the wire type is named after, and no others. */
  lemma WireTypesHold(s: Spec, v: Value)
    ensures (exists cell :: Becomes(ToArrow(s), v, cell)) <==> WireHolds(s, v)
  {
    hide ParseDateDays, ParseRfc3339Micros;
    if WireHolds(s, v) {
      var cell := match v
        case VBool(b) => CBool(b)
        case VInt(n) => if s in {Float32, Float64} then CReal(n as real) else CInt(n)
        case VReal(x) => CReal(x)
        case VStr(text) =>
          if s == Date32 then CInt(ParseDateDays(text).value)
          else if s.Timestamp? then CInt(ParseRfc3339Micros(text).value)
          else CStr(text);
      assert Becomes(ToArrow(s), v, cell);
    }
    if cell :| Becomes(ToArrow(s), v, cell) {
      assert WireHolds(s, v);
    }
  }

  /** A key the builder keeps for its own columns. */
  predicate KeptBack(key: string) {
    key == "card_ref" || key == "run_id" || (|key| >= 5 && key[..5] == "wyrd_")
  }

  lemma ReservedIsKeptBack(key: string)
    ensures IsReserved(key) <==> KeptBack(key)
  {
    assert "wyrd_" <= key <==> |key| >= 5 && key[..5] == "wyrd_";
  }

  /** A row is refused for a column exactly when it is an object with a key kept back, and for its text
      exactly when it is not an object. */
  lemma RowIsRead(schema: Schema, row: Row)
    ensures var parsed, r := schema.parse(row.json), Read(schema, row);
            if parsed.None? || parsed.value.NotObject? then r == Err(SchemaParse)
            else if exists key :: key in parsed.value.members && KeptBack(key) then r == Err(ReservedColumn)
            else r == Ok(BuiltRow(parsed.value.members, row.cardRef, row.runId))
  {
    hide IsReserved, KeptBack;
    forall key: string ensures IsReserved(key) <==> KeptBack(key) {
      ReservedIsKeptBack(key);
    }
  }

  // ---- As the program builds it ----

  /** One column, top to bottom, up to the first cell that does not fit. */
  method Collect(f: AField, rows: seq<BuiltRow>) returns (r: Result<seq<Option<Cell>>, BuildError>)
    requires Supported(f.arrow)
    ensures r.Ok? <==> forall i :: 0 <= i < |rows| ==> CellOf(f, rows[i].obj).Some?
    ensures r.Ok? ==> |r.value| == |rows| && forall i :: 0 <= i < |rows| ==> CellOf(f, rows[i].obj) == Some(r.value[i])
    ensures r.Err? ==> r.error == SchemaParse
  {
    hide ParseCell;
    var out: seq<Option<Cell>> := [];
    for idx := 0 to |rows|
      invariant |out| == idx && forall i :: 0 <= i < idx ==> CellOf(f, rows[i].obj) == Some(out[i])
    {
      var obj := rows[idx].obj;
      if f.name !in obj || obj[f.name].VNull? {
        if !f.nullable {
          return Err(SchemaParse);
        }
        out := out + [None];
      } else {
        var parsed := ParseCell(f.arrow, obj[f.name]);
        if parsed.None? {
          return Err(SchemaParse);
        }
        out := out + [parsed];
      }
    }
    return Ok(out);
  }

  class BatchBuilder {
    const schema: Schema
    var rows: seq<BuiltRow>

    constructor (schema: Schema)
      ensures this.schema == schema && rows == []
    {
      this.schema, rows := schema, [];
    }

    /** Parse a row and keep it; a row that is refused changes nothing. */
    method AppendJsonRow(row: Row) returns (r: Result<(), BuildError>)
      modifies this`rows
      ensures match Read(schema, row)
              case Ok(built) => r == Ok(()) && rows == old(rows) + [built]
              case Err(why) => r == Err(why) && rows == old(rows)
    {
      var parsed := schema.parse(row.json);
      if parsed.None? || parsed.value.NotObject? {
        return Err(SchemaParse);
      }
      var members := parsed.value.members;
      var keys := members.Keys;
      while keys != {}
        invariant keys <= members.Keys && forall key :: key in members && key !in keys ==> !IsReserved(key)
        decreases |keys|
      {
        var key :| key in keys;
        if IsReserved(key) {
          return Err(ReservedColumn);
        }
        keys := keys - {key};
      }
      rows := rows + [BuiltRow(members, row.cardRef, row.runId)];
      return Ok(());
    }

    /** Every user column in schema order, then the correlation columns, then the assembly. */
    method Finish() returns (r: Result<Batch, BuildError>)
      ensures r.Ok? <==> Assembles(schema.fields) && forall c :: 0 <= c < |schema.fields| ==>
                ColumnFits(schema.fields[c], rows)
      ensures r.Ok? ==>
                && |r.value.columns| == |schema.fields|
                && (forall c :: 0 <= c < |schema.fields| ==> IsColumn(schema.fields[c], rows, r.value.columns[c]))
                && r.value.cardRefs == seq(|rows|, i requires 0 <= i < |rows| reads this => rows[i].cardRef)
                && r.value.runIds == seq(|rows|, i requires 0 <= i < |rows| reads this => rows[i].runId)
      ensures r.Err? ==> r.error == SchemaParse
    {
      hide Supported, CellOf;
      var columns: seq<Column> := [];
      for c := 0 to |schema.fields|
        invariant |columns| == c
        invariant forall k :: 0 <= k < c ==>
                    ColumnFits(schema.fields[k], rows) && IsColumn(schema.fields[k], rows, columns[k])
      {
        if !Supported(schema.fields[c].arrow) {
          return Err(SchemaParse);
        }
        var column := Collect(schema.fields[c], rows);
        if column.Err? {
          return Err(SchemaParse);
        }
        columns := columns + [Column(BuiltAs(schema.fields[c].arrow), column.value)];
      }
      if !TypesMatch(schema.fields, columns) {
        return Err(SchemaParse);
      }
      var built := rows;
      return Ok(Batch(columns,
                      seq(|built|, i requires 0 <= i < |built| => built[i].cardRef),
                      seq(|built|, i requires 0 <= i < |built| => built[i].runId)));
    }
  }

  /** The column type is supported and every cell fits; an unsupported column fails even empty. */
  predicate ColumnFits(f: AField, rows: seq<BuiltRow>) {
    Supported(f.arrow) && forall i :: 0 <= i < |rows| ==> CellOf(f, rows[i].obj).Some?
  }

  predicate IsColumn(f: AField, rows: seq<BuiltRow>, column: Column) {
    && column.arrow == BuiltAs(f.arrow)
    && |column.cells| == |rows|
    && forall i :: 0 <= i < |rows| ==> CellOf(f, rows[i].obj) == Some(column.cells[i])
  }

  lemma ColumnsFitRows(schema: Schema, rows: seq<Row>, built: seq<BuiltRow>)
    requires |built| == |rows| && forall i :: 0 <= i < |rows| ==> Read(schema, rows[i]) == Ok(built[i])
    requires rows != []
    ensures (Assembles(schema.fields) && forall c :: 0 <= c < |schema.fields| ==> ColumnFits(schema.fields[c], built))
       <==> forall i :: 0 <= i < |rows| ==> Builds(schema, rows[i])
  {
    hide Read;
    if forall i :: 0 <= i < |rows| ==> Builds(schema, rows[i]) {
      assert Builds(schema, rows[0]);
      forall c | 0 <= c < |schema.fields| ensures ColumnFits(schema.fields[c], built) {
        assert CellOf(schema.fields[c], built[0].obj).Some?;
        forall i | 0 <= i < |rows| ensures CellOf(schema.fields[c], built[i].obj).Some? {
          assert Builds(schema, rows[i]);
        }
      }
    }
    if Assembles(schema.fields) && forall c :: 0 <= c < |schema.fields| ==> ColumnFits(schema.fields[c], built) {
      forall i | 0 <= i < |rows| ensures Builds(schema, rows[i]) {
        assert Read(schema, rows[i]) == Ok(built[i]);
        forall c | 0 <= c < |schema.fields| ensures CellOf(schema.fields[c], built[i].obj).Some? {
          assert ColumnFits(schema.fields[c], built);
        }
      }
    }
  }

  lemma BatchIsRowByRow(schema: Schema, rows: seq<Row>, built: seq<BuiltRow>, batch: Batch)
    requires |built| == |rows| && forall i :: 0 <= i < |rows| ==> Read(schema, rows[i]) == Ok(built[i])
    requires forall i :: 0 <= i < |rows| ==> Builds(schema, rows[i])
    requires Assembles(schema.fields) && |batch.columns| == |schema.fields|
    requires forall c :: 0 <= c < |schema.fields| ==> IsColumn(schema.fields[c], built, batch.columns[c])
    requires batch.cardRefs == seq(|built|, i requires 0 <= i < |built| => built[i].cardRef)
    requires batch.runIds == seq(|built|, i requires 0 <= i < |built| => built[i].runId)
    ensures batch == BatchOf(schema, rows)
  {
    hide CellOf;
    var spec := BatchOf(schema, rows);
    assert batch.cardRefs == spec.cardRefs && batch.runIds == spec.runIds;
    forall c | 0 <= c < |schema.fields| ensures batch.columns[c] == spec.columns[c] {
      assert IsColumn(schema.fields[c], built, batch.columns[c]);
      assert batch.columns[c].arrow == spec.columns[c].arrow;
      assert forall i :: 0 <= i < |rows| ==> Read(schema, rows[i]) == Ok(built[i]);
      assert batch.columns[c].cells == spec.columns[c].cells;
    }
    assert batch.columns == spec.columns;
  }

  /** `build_frames`, up to the encoding. For a chunk that is not empty, the columns all build exactly
      when each row builds by itself, and the batch is the row-by-row one. The error is that of the
      first row `append_json_row` refuses, if there is one. */
  method BuildFrames(schema: Schema, rows: seq<Row>) returns (r: Result<Batch, BuildError>)
    ensures rows != [] ==> (r.Ok? <==> forall i :: 0 <= i < |rows| ==> Builds(schema, rows[i]))
    ensures rows != [] && r.Ok? ==> r.value == BatchOf(schema, rows)
    ensures forall i :: (0 <= i < |rows| && Read(schema, rows[i]).Err?
                         && forall j :: 0 <= j < i ==> Read(schema, rows[j]).Ok?) ==>
              r == Err(Read(schema, rows[i]).error)
    ensures r.Err? && (forall i :: 0 <= i < |rows| ==> Read(schema, rows[i]).Ok?) ==> r.error == SchemaParse
  {
    hide Read, CellOf, Supported;
    var builder := new BatchBuilder(schema);
    for k := 0 to |rows|
      invariant builder.schema == schema && |builder.rows| == k
      invariant forall i :: 0 <= i < k ==> Read(schema, rows[i]) == Ok(builder.rows[i])
    {
      var appended := builder.AppendJsonRow(rows[k]);
      if appended.Err? {
        return Err(appended.error);
      }
    }
    r := builder.Finish();
    if rows != [] {
      ColumnsFitRows(schema, rows, builder.rows);
      if r.Ok? {
        BatchIsRowByRow(schema, rows, builder.rows, r.value);
      }
    }
  }

  /** A batch is the part of a larger one that its rows make up, so splitting a chunk splits its
      batch: the halves build if the whole does, and hold its cells and nothing else. */
  lemma SplittingSlicesBatch(schema: Schema, rows: seq<Row>, mid: nat)
    requires mid <= |rows| && forall i :: 0 <= i < |rows| ==> Builds(schema, rows[i])
    ensures var whole, left, right := BatchOf(schema, rows), BatchOf(schema, rows[..mid]), BatchOf(schema, rows[mid..]);
            && (forall c :: 0 <= c < |schema.fields| ==>
                whole.columns[c].cells == left.columns[c].cells + right.columns[c].cells)
            && whole.cardRefs == left.cardRefs + right.cardRefs && whole.runIds == left.runIds + right.runIds
  {
    hide CellOf, Read, Builds;
  }

  /** The queue's environment for a schema: `buildable` is what a row by itself comes to. */
  ghost predicate Describes(env: Env, schema: Schema) {
    forall row :: env.buildable(row) <==> Builds(schema, row)
  }

  /** Under such an environment a chunk the queue may hold is sendable only if it builds, and no
      half of a chunk that builds is poison. */
  lemma HalvesBuild(env: Env, schema: Schema, chunk: Chunk, id: nat)
    requires Describes(env, schema)
    ensures CanBuild(env, chunk.rows) <==> forall i :: 0 <= i < |chunk.rows| ==> Builds(schema, chunk.rows[i])
    ensures CanBuild(env, chunk.rows) <==> CanBuild(env, Left(chunk).rows) && CanBuild(env, Right(chunk, id).rows)
  {
    hide Builds;
    var mid := |chunk.rows| / 2;
    if CanBuild(env, Left(chunk).rows) && CanBuild(env, Right(chunk, id).rows) {
      forall i | 0 <= i < |chunk.rows| ensures env.buildable(chunk.rows[i]) {
        assert chunk.rows[i] == if i < mid then chunk.rows[..mid][i] else chunk.rows[mid..][i - mid];
      }
    }
  }

  /** Of the types a JSON Schema can name, the builder supports exactly the flat ones: a schema with
      an array or a nested object maps, but no row of it ever builds. */
  lemma OnlyFlatColumnsBuild(schema: Schema, c: nat, s: Spec)
    requires c < |schema.fields| && schema.fields[c].arrow == ToArrow(s) && JsonTyped(s)
    ensures Supported(ToArrow(s)) <==> !s.List? && !s.Struct?
    ensures s.List? || s.Struct? ==> forall row :: !Builds(schema, row)
  {
    hide ParseCell, Assembles;
    assert Supported(ToArrow(s)) <==> !s.List? && !s.Struct?;
    hide Supported;
    forall row | s.List? || s.Struct? ensures !Builds(schema, row) {
      if Read(schema, row).Ok? {
        assert CellOf(schema.fields[c], Read(schema, row).value.obj).None?;
      }
    }
  }

  /** Long text is supported column by column and yet never built: its array is one of short text,
      which the assembly does not take under a field of long text. Every other supported type
      assembles. */
  lemma LongTextNeverBuilds(schema: Schema)
    ensures Supported(ALargeUtf8)
    ensures Assembles(schema.fields) <==> forall c :: 0 <= c < |schema.fields| ==> schema.fields[c].arrow != ALargeUtf8
    ensures (exists c :: 0 <= c < |schema.fields| && schema.fields[c].arrow == ALargeUtf8) ==>
              forall row :: !Builds(schema, row)
  {
    hide CellOf, Read;
  }
}
