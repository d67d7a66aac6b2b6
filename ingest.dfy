/** The ingest script's DataFrame steps, in the order the script runs them: the
    rowversion column is turned into text in place, the other columns are cast to
    the dtypes the schema gives them, the Arrow schema is chosen, and the new
    watermark and row count are computed for the bookkeeping table. */
module Ingest {
  import opened Wrappers
  import opened Rowversion
  import opened TypeMapping

  /** The part of the pandas DataFrame these steps read and write: the column
      names in order, each column's dtype, and the cells of the rowversion column
      (empty when there is no such column). */
  class Frame {
    var columns: seq<string>
    var dtypes: map<string, Dtype>
    var stamps: seq<Cell>

    ghost predicate Valid()
      reads this
    {
      && (forall c :: c in dtypes <==> c in columns)
      && (TimestampColumn !in columns ==> stamps == [])
    }

    constructor (columns: seq<string>, dtypes: map<string, Dtype>, stamps: seq<Cell>)
      requires forall c :: c in dtypes <==> c in columns
      requires TimestampColumn !in columns ==> stamps == []
      ensures Valid()
      ensures this.columns == columns && this.dtypes == dtypes && this.stamps == stamps
    {
      this.columns := columns;
      this.dtypes := dtypes;
      this.stamps := stamps;
    }

    /** `df['timestamp'] = df['timestamp'].apply(process_timestamp)`. */
    method ProcessTimestamps()
      requires Valid() && TimestampColumn in columns
      modifies this
      ensures Valid()
      ensures columns == old(columns) && dtypes == old(dtypes)
      ensures stamps == ProcessColumn(old(stamps))
    {
      stamps := ProcessColumn(stamps);
    }

    /** The coercion pass over `dtype_mapping`: every mapped column other than the
        rowversion column takes its mapped dtype, unless the column is missing (a
        KeyError) or pandas cannot convert it (`unconvertible`); either error is
        caught and leaves the column as it was. The cells of the rowversion column
        are never touched. */
    method Coerce(mapping: map<string, Dtype>, unconvertible: set<string>)
      requires Valid()
      modifies this
      ensures Valid()
      ensures columns == old(columns) && stamps == old(stamps)
      ensures forall c :: c in dtypes <==> c in old(dtypes)
      ensures forall c :: c in dtypes ==>
                dtypes[c] == if c != TimestampColumn && c in mapping && c !in unconvertible
                             then mapping[c] else old(dtypes)[c]
    {
      var pending := mapping.Keys;
      while pending != {}
        invariant pending <= mapping.Keys
        invariant Valid()
        invariant columns == old(columns) && stamps == old(stamps)
        invariant forall c :: c in dtypes <==> c in old(dtypes)
        invariant forall c :: c in dtypes ==>
                    dtypes[c] == if c != TimestampColumn && c in mapping && c !in unconvertible && c !in pending
                                 then mapping[c] else old(dtypes)[c]
        decreases pending
      {
        var col :| col in pending;
        if col != TimestampColumn && col in columns && col !in unconvertible {
          dtypes := dtypes[col := mapping[col]];
        }
        pending := pending - {col};
      }
    }
  }

  /** What the script hands to the bookkeeping UPDATE, or the KeyError with which
      `df['timestamp'].count()` ends it when the table has no rowversion column. */
  datatype Outcome =
    | Staged(fields: seq<Field>, watermark: Option<nat>, count: nat)
    | NoTimestampColumn

  /** The script from the schema query to the row count. `previous` is the
      watermark the script is started with (0 on a first ingest); it is replaced
      only when the rowversion column exists and has rows. */
  method Run(schema: seq<SchemaRow>, frame: Frame, unconvertible: set<string>, previous: nat)
    returns (r: Outcome)
    requires frame.Valid()
    modifies frame
    ensures frame.Valid()
    ensures frame.columns == old(frame.columns)
    ensures r.NoTimestampColumn? <==> TimestampColumn !in frame.columns
    ensures TimestampColumn in frame.columns ==> frame.stamps == ProcessColumn(old(frame.stamps))
    ensures forall c :: c in frame.dtypes <==> c in old(frame.dtypes)
    ensures forall c :: c in frame.dtypes ==>
              frame.dtypes[c] == if c != TimestampColumn && c in DtypeMapping(schema) && c !in unconvertible
                                 then DtypeMapping(schema)[c] else old(frame.dtypes)[c]
    // the Arrow schema
    ensures r.Staged? ==> |r.fields| == |frame.columns|
    ensures r.Staged? ==> forall i :: 0 <= i < |r.fields| ==> r.fields[i].name == frame.columns[i]
    ensures r.Staged? ==> forall i :: 0 <= i < |r.fields| && frame.columns[i] == TimestampColumn ==>
              r.fields[i].kind == Utf8
    ensures r.Staged? ==>
              forall i :: 0 <= i < |r.fields| && frame.columns[i] != TimestampColumn ==>
                (&& (r.fields[i].kind == ArrowInt64 <==> frame.dtypes[frame.columns[i]] == Int64)
                 && (r.fields[i].kind == ArrowFloat64 <==> frame.dtypes[frame.columns[i]] == Float64)
                 && (r.fields[i].kind == TimestampMicros <==> frame.dtypes[frame.columns[i]] == DatetimeMicros))
    ensures r.Staged? ==>
              forall i :: 0 <= i < |r.fields| && frame.columns[i] != TimestampColumn &&
                          frame.columns[i] in DtypeMapping(schema) && frame.columns[i] !in unconvertible ==>
                (&& (r.fields[i].kind == ArrowInt64 <==> DtypeMapping(schema)[frame.columns[i]] == Int64)
                 && (r.fields[i].kind == ArrowFloat64 <==> DtypeMapping(schema)[frame.columns[i]] == Float64)
                 && (r.fields[i].kind == TimestampMicros <==> DtypeMapping(schema)[frame.columns[i]] == DatetimeMicros))
    // the watermark
    ensures r.Staged? && |old(frame.stamps)| == 0 ==> r.watermark == Some(previous)
    ensures r.Staged? && |old(frame.stamps)| > 0 ==>
              (r.watermark.None? <==> forall i :: 0 <= i < |frame.stamps| ==> DecodeAndConvert(frame.stamps[i]).None?)
    ensures r.Staged? && |old(frame.stamps)| > 0 && r.watermark.Some? ==>
              (exists i :: 0 <= i < |frame.stamps| && DecodeAndConvert(frame.stamps[i]) == r.watermark) &&
              (forall i :: 0 <= i < |frame.stamps| && DecodeAndConvert(frame.stamps[i]).Some? ==>
                 DecodeAndConvert(frame.stamps[i]).value <= r.watermark.value)
    ensures r.Staged? ==> forall i :: 0 <= i < |old(frame.stamps)| && old(frame.stamps)[i].Bytes? ==>
              r.watermark.Some? && BytesToNat(old(frame.stamps)[i].b) <= r.watermark.value
    // the row count
    ensures r.Staged? ==> r.count == NonNullCount(old(frame.stamps))
  {
    var mapping := DtypeMapping(schema);
    ghost var raw := frame.stamps;
    if TimestampColumn in frame.columns {
      frame.ProcessTimestamps();
    }
    frame.Coerce(mapping, unconvertible);
    var fields := SelectFields(frame.columns, frame.dtypes);

    var watermark: Option<nat> := Some(previous);
    if TimestampColumn in frame.columns && |frame.stamps| > 0 {
      watermark := MaxDecoded(frame.stamps);
    }
    if TimestampColumn !in frame.columns {
      return NoTimestampColumn;
    }
    var count := NonNullCount(frame.stamps);
    CountUnchangedByProcessing(raw);
    forall i | 0 <= i < |raw| && raw[i].Bytes?
      ensures DecodeAndConvert(frame.stamps[i]) == Some(BytesToNat(raw[i].b))
    {
      RowversionRoundTrip(raw[i].b);
    }
    r := Staged(fields, watermark, count);
  }
}
