/** The schema side of the ingest: SQL Server column types to pandas dtypes
    (`sql_to_pandas_dtype` and the `dtype_mapping` built from the schema query), and
    pandas dtypes to the field types of the Arrow schema written to Parquet. */
module TypeMapping {

  /** A pandas dtype. The first five are the tags `sql_to_pandas_dtype` produces;
      `Other` is any further dtype pandas may infer for a column (int64, bool, ...). */
  datatype Dtype =
    | Int64                // 'Int64', the nullable integer dtype
    | Float64              // 'float64'
    | Str                  // 'string'
    | DatetimeMicros       // 'datetime64[us]'
    | Object               // 'object'
    | Other(name: string)

  const IntegerTypes: set<string> := {"bigint", "int", "smallint", "tinyint"}
  const NumericTypes: set<string> := {"decimal", "numeric", "float", "real"}
  const CharacterTypes: set<string> := {"varchar", "nvarchar", "char", "nchar", "text"}
  const DateTypes: set<string> := {"date", "datetime", "datetime2"}

  /** The SQL Server type name of a rowversion column. */
  const RowversionSqlType: string := "timestamp"

  /** The name of the rowversion column in the extracted table. */
  const TimestampColumn: string := "timestamp"

  /** `sql_to_pandas_dtype`: a total classification; each dtype is produced by
      exactly its own class of SQL type names, and every other name (`timestamp`
      included) falls back to 'object'. */
  function SqlToPandasDtype(sqlType: string): (d: Dtype)
    ensures d == Int64 <==> sqlType in IntegerTypes
    ensures d == Float64 <==> sqlType in NumericTypes
    ensures d == Str <==> sqlType in CharacterTypes
    ensures d == DatetimeMicros <==> sqlType in DateTypes
    ensures d == Object <==> sqlType !in IntegerTypes + NumericTypes + CharacterTypes + DateTypes
    ensures !d.Other?
  {
    if sqlType in IntegerTypes then Int64
    else if sqlType in NumericTypes then Float64
    else if sqlType in CharacterTypes then Str
    else if sqlType in DateTypes then DatetimeMicros
    else if sqlType == RowversionSqlType then Object
    else Object
  }

  /** The rowversion type keeps its Python objects (bytes). */
  lemma RowversionTypeIsObject()
    ensures SqlToPandasDtype(RowversionSqlType) == Object
  {
  }

  /** One row of the INFORMATION_SCHEMA.COLUMNS query. */
  datatype SchemaRow = SchemaRow(name: string, sqlType: string)

  /** Row `i` is the last row of the schema naming its column. */
  predicate LastOccurrence(rows: seq<SchemaRow>, i: int)
    requires 0 <= i < |rows|
  {
    forall j :: i < j < |rows| ==> rows[j].name != rows[i].name
  }

  /** What the dict comprehension over `rows` holds: an entry for every column
      named, no other entry, and for each column the dtype of the last row naming it. */
  predicate MapsSchema(rows: seq<SchemaRow>, m: map<string, Dtype>)
  {
    && (forall i :: 0 <= i < |rows| ==> rows[i].name in m)
    && (forall c :: c in m ==> exists i :: 0 <= i < |rows| && rows[i].name == c)
    && (forall i :: 0 <= i < |rows| && LastOccurrence(rows, i) ==>
          rows[i].name in m && m[rows[i].name] == SqlToPandasDtype(rows[i].sqlType))
  }

  /** `dtype_mapping`, the dict comprehension over the schema rows: one entry per
      column name, a later row for the same name overwriting an earlier one. */
  function DtypeMapping(rows: seq<SchemaRow>): (m: map<string, Dtype>)
    ensures MapsSchema(rows, m)
    ensures forall c :: c in m ==> !m[c].Other?
    decreases |rows|
  {
    if |rows| == 0 then map[]
    else
      var n := |rows| - 1;
      var prev := DtypeMapping(rows[..n]);
      var m := prev[rows[n].name := SqlToPandasDtype(rows[n].sqlType)];
      MapsSchemaStep(rows, prev, m);
      m
  }

  /** Adding the last row of the schema to the mapping of the rows before it. */
  lemma MapsSchemaStep(rows: seq<SchemaRow>, prev: map<string, Dtype>, m: map<string, Dtype>)
    requires |rows| > 0
    requires MapsSchema(rows[..|rows| - 1], prev)
    requires m == prev[rows[|rows| - 1].name := SqlToPandasDtype(rows[|rows| - 1].sqlType)]
    ensures MapsSchema(rows, m)
  {
    var n := |rows| - 1;
    forall c | c in m
      ensures exists i :: 0 <= i < |rows| && rows[i].name == c
    {
      if c != rows[n].name {
        var i :| 0 <= i < n && rows[..n][i].name == c;
        assert rows[i].name == c;
      }
    }
    forall i | 0 <= i < |rows| && LastOccurrence(rows, i)
      ensures rows[i].name in m && m[rows[i].name] == SqlToPandasDtype(rows[i].sqlType)
    {
      if i < n {
        assert rows[..n][i] == rows[i];
        assert LastOccurrence(rows[..n], i);
      }
    }
    forall i | 0 <= i < |rows|
      ensures rows[i].name in m
    {
      if i < n {
        assert rows[..n][i] == rows[i];
      }
    }
  }

  /** A field type of the Arrow schema. */
  datatype ArrowType =
    | Utf8             // pa.string()
    | ArrowInt64       // pa.int64()
    | ArrowFloat64     // pa.float64()
    | TimestampMicros  // pa.timestamp('us')

  datatype Field = Field(name: string, kind: ArrowType)

  /** The Arrow schema: one field per column, in column order. The rowversion
      column is text whatever its dtype; Int64, float64 and datetime64[us] keep
      their Arrow counterparts; every other dtype becomes text. */
  method SelectFields(columns: seq<string>, dtypes: map<string, Dtype>) returns (fields: seq<Field>)
    requires forall c :: c in columns ==> c in dtypes
    ensures |fields| == |columns|
    ensures forall i :: 0 <= i < |fields| ==> fields[i].name == columns[i]
    ensures forall i :: 0 <= i < |fields| ==>
              (fields[i].kind == ArrowInt64 <==> columns[i] != TimestampColumn && dtypes[columns[i]] == Int64)
    ensures forall i :: 0 <= i < |fields| ==>
              (fields[i].kind == ArrowFloat64 <==> columns[i] != TimestampColumn && dtypes[columns[i]] == Float64)
    ensures forall i :: 0 <= i < |fields| ==>
              (fields[i].kind == TimestampMicros <==> columns[i] != TimestampColumn && dtypes[columns[i]] == DatetimeMicros)
    ensures forall i :: 0 <= i < |fields| && columns[i] == TimestampColumn ==> fields[i].kind == Utf8
  {
    fields := [];
    var i := 0;
    while i < |columns|
      invariant 0 <= i <= |columns|
      invariant |fields| == i
      invariant forall k :: 0 <= k < i ==> fields[k].name == columns[k]
      invariant forall k :: 0 <= k < i ==>
                  (fields[k].kind == ArrowInt64 <==> columns[k] != TimestampColumn && dtypes[columns[k]] == Int64)
      invariant forall k :: 0 <= k < i ==>
                  (fields[k].kind == ArrowFloat64 <==> columns[k] != TimestampColumn && dtypes[columns[k]] == Float64)
      invariant forall k :: 0 <= k < i ==>
                  (fields[k].kind == TimestampMicros <==> columns[k] != TimestampColumn && dtypes[columns[k]] == DatetimeMicros)
      invariant forall k :: 0 <= k < i && columns[k] == TimestampColumn ==> fields[k].kind == Utf8
    {
      var col := columns[i];
      var kind;
      if col == TimestampColumn {
        kind := Utf8;
      } else if dtypes[col] == Int64 {
        kind := ArrowInt64;
      } else if dtypes[col] == Float64 {
        kind := ArrowFloat64;
      } else if dtypes[col] == DatetimeMicros {
        kind := TimestampMicros;
      } else {
        kind := Utf8;
      }
      fields := fields + [Field(col, kind)];
      i := i + 1;
    }
  }
}
