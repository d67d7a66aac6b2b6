# Navision-to-data-lake ingest: a verified model of its transformation core

The ingest script reads a SQL Server table and its column types, turns the rows
into a Parquet file for the data lake, and records a new watermark and row count
for the next incremental run. This project models the logic of that script that
does not belong to a database driver, pandas, pyarrow or an HTTP client:

- the classification of SQL Server type names into pandas dtypes, and the
  `dtype_mapping` built from the schema query (`TypeMapping`);
- the choice of an Arrow field type for each DataFrame column (`TypeMapping.SelectFields`);
- the rowversion (`timestamp`) column: its conversion to Base64 text with the basic
  alphabet of section 4 of RFC 4648, the decoding of that text back into a
  big-endian unsigned number, the new watermark (the largest decodable value)
  and the row count (`Base64`, `Rowversion`);
- the DataFrame steps that change columns in place, as a `Frame` class, and the
  script's run from schema to row count (`Ingest`).

The Base64 decoder follows what Python's `base64.b64decode` does with its default
`validate=False` (the non-strict `binascii.a2b_base64`): a `str` must be ASCII,
`None` and values that are neither str nor bytes-like are a TypeError, bytes
outside the alphabet are skipped, a pad sequence that completes a group ends the
input, and a group left with one data character, or with two or three not closed
by padding, is an error.

A cell of the rowversion column is None, a `bytes` value, another bytes-like value
(a bytearray or memoryview, which `process_timestamp` turns into its `str()`
because it is not an instance of `bytes`, but which `b64decode` accepts), a str,
or any other value (`Rowversion.Cell`).

The headline result is `Rowversion.RowversionRoundTrip`: decoding what
`process_timestamp` makes of a binary rowversion gives the big-endian value of its
bytes, below 2^64 for the 8-byte rowversions of SQL Server
(`Rowversion.RowversionFits64Bits`). `Ingest.Run` uses it to state that the new
watermark is at least the value of every binary rowversion that was read.

Files: `wrappers.dfy` (Option, Result), `base64.dfy`, `rowversion.dfy`,
`type_mapping.dfy`, `ingest.dfy`.

## Model

| member | source | states |
|---|---|---|
| `Base64.Symbol` | Ingestscript.py:86 | each 6-bit value has an ASCII symbol that is not the pad character |
| `Base64.SymbolValue` | Ingestscript.py:148 | the decoding table inverts `Symbol` on the 64 alphabet bytes and marks every other byte (64) as one to skip |
| `Base64.Encode` | Ingestscript.py:86 | `b64encode` output has length 4·⌈n/3⌉, is all ASCII, and its '=' characters are exactly the last (3 − n mod 3) mod 3 |
| `Base64.DecodeLoop` | Ingestscript.py:148 | the lenient decoding loop only appends to what it has decoded, produces at most 3 bytes per 4 input bytes, and at end of input succeeds exactly when no group is left open |
| `Base64.DecodeLoopWithoutPad` | Ingestscript.py:148 | on input without '=', the loop succeeds exactly when the group position plus the number of alphabet bytes is a multiple of 4 |
| `Base64.DecodeWithoutPad` | Ingestscript.py:148 | unpadded input decodes exactly when its alphabet bytes come in whole groups of four; 1, 2 or 3 left over is an error |
| `Base64.Decode` | Ingestscript.py:148 | a successful `b64decode` yields at most 3 bytes for every 4 input bytes |
| `Base64.DecodeLoopEncode` | Ingestscript.py:148 | decoding an encoding appends exactly the encoded bytes to what was decoded before |
| `Base64.DecodeEncode` | Ingestscript.py:148 | `b64decode(b64encode(b)) == b` for every byte string |
| `Rowversion.AsciiText` | Ingestscript.py:86 | `.decode('utf-8')` of all-ASCII bytes: an ASCII string of the same length, one character per byte |
| `Rowversion.AsciiBytes` | Ingestscript.py:148 | `str.encode('ascii')` inside `b64decode`: one byte per character, same length |
| `Rowversion.AsciiRoundTrip` | Ingestscript.py:86 | encoding the text that `.decode('utf-8')` made of ASCII bytes gives those bytes back |
| `Rowversion.ProcessTimestamp` | Ingestscript.py:76-92 | None stays None and only None does; every other cell becomes a str; a `bytes` value becomes ASCII text of length 4·⌈n/3⌉; a str stays itself; a bytearray or memoryview, which is not an instance of `bytes`, and any other value become their `str()` |
| `Rowversion.ProcessColumn` | Ingestscript.py:95-96 | `apply` keeps the column's length and processes each cell independently |
| `Rowversion.B64Decode` | Ingestscript.py:148 | None and values that are neither str nor bytes-like raise TypeError, a str with a non-ASCII character raises ValueError, a bytearray or memoryview decodes exactly as `bytes` with the same contents, and an ASCII str decodes exactly as `Base64.Decode` of its ASCII bytes (`s.encode('ascii')`): it succeeds exactly when that does, with the same bytes |
| `Rowversion.BytesToNat` | Ingestscript.py:151 | the big-endian value of n bytes is below 256^n |
| `Rowversion.BytesToNatConcat` | Ingestscript.py:151 | big-endian: the value of hi + lo is value(hi)·256^len(lo) + value(lo) |
| `Rowversion.RowversionFits64Bits` | Ingestscript.py:151 | an 8-byte rowversion's value is below 2^64 |
| `Rowversion.DecodeAndConvert` | Ingestscript.py:145-155 | a value is returned exactly when Base64 decoding succeeds, and it is the big-endian value (`BytesToNat`) of the decoded bytes; every decoding error becomes None |
| `Rowversion.RowversionRoundTrip` | Ingestscript.py:145-152 | decoding the processed form of a binary timestamp gives the big-endian value of its bytes |
| `Rowversion.DecodeFailuresAreNone` | Ingestscript.py:153-155 | None, values that are neither str nor bytes-like, and non-ASCII text all give None |
| `Rowversion.UnpaddedTextDecodes` | Ingestscript.py:145-155 | ASCII text without '=' gives a value exactly when its alphabet characters come in whole groups of four; a dangling or unpadded group ("A", "QQ", "AAA") gives None |
| `Rowversion.MaxDecoded` | Ingestscript.py:158-167 | the watermark is None exactly when no cell decodes; otherwise it is one of the decoded values and at least every decoded value |
| `Rowversion.NonNullCount` | Ingestscript.py:171 | the count is at most the column length, equals it exactly when no cell is null, and is 0 exactly when every cell is null |
| `Rowversion.CountUnchangedByProcessing` | Ingestscript.py:171 | counting after `process_timestamp` counts exactly the non-null values the database returned |
| `TypeMapping.SqlToPandasDtype` | Ingestscript.py:48-60 | each dtype comes exactly from its class of SQL types (integer → Int64, exact/approximate numeric → float64, character → string, date/datetime/datetime2 → datetime64[us]); every other name gives object; the result is always one of the five tags |
| `TypeMapping.RowversionTypeIsObject` | Ingestscript.py:57-58 | the rowversion SQL type `timestamp` maps to object |
| `TypeMapping.DtypeMapping` | Ingestscript.py:64 | the mapping has an entry for exactly the columns the schema names, and each column gets the dtype of the last schema row naming it |
| `TypeMapping.SelectFields` | Ingestscript.py:116-127 | one field per column in column order; `timestamp` is text whatever its dtype; int64, float64 and timestamp('us') fields are chosen exactly for non-`timestamp` columns of dtype Int64, float64 and datetime64[us]; all else is text |
| `Ingest.Frame.ProcessTimestamps` | Ingestscript.py:95-96 | the rowversion column is replaced by its processed cells; column names and dtypes are unchanged |
| `Ingest.Frame.Coerce` | Ingestscript.py:107-112 | every mapped column except `timestamp` that exists and converts takes its mapped dtype; every other column, `timestamp` included, keeps its dtype; no cell of `timestamp` changes |
| `Ingest.Run` | Ingestscript.py:64-171 | with lines 129-142 assumed not to raise: the run fails at the count exactly when there is no `timestamp` column; every column's new dtype is its mapped dtype when it is mapped, converts and is not `timestamp`, and its old dtype otherwise; each non-`timestamp` field's kind follows that new dtype, so mapped columns follow their SQL class, and `timestamp` is text; the watermark is the previous one for an empty column, None when nothing decodes, and at least the value of every binary rowversion read; the count is the number of non-null rowversions read |

## Left out

- Database I/O: the two `pyodbc` connections, the schema and data queries, the UPDATE and INSERT statements, commits and closes (Ingestscript.py:28-45, 72-73, 174-187, 225-238). The schema rows and the fetched rowversion cells are parameters of `Ingest.Run` and of the `Frame` constructor; the UPDATE's use of the watermark and count is not modelled.
- Loading the two configuration files and the job description file (Ingestscript.py:16-26, 193): file I/O.
- Setting the `Picture` column to NA (Ingestscript.py:99-104): a DataFrame side effect with no logic beyond it.
- The cells of columns other than `timestamp`, and what `astype` does to their values: pandas conversion and floating point. Which conversions fail is the parameter `unconvertible` of `Coerce`.
- `pa.schema`, `Table.from_pandas`, `pq.write_table` and the in-memory buffer (Ingestscript.py:129-142): library calls; only the field-type choice is modelled.
- `Ingest.Run`: assumes lines 129-142 do not raise. In the script, `Table.from_pandas` raises, uncaught and before the watermark and count are computed, when a column forced to a text field holds non-text values (an `object` column from a `bit` or `money` type, say); the model does not capture that abort.
- The HTTP job creation and upload (Ingestscript.py:190-223), createflow.py and Check ingestion status.py: network client code with no logic of its own.
- Console output (`print`) throughout.
- `Ingest.Frame.Coerce`: iterates over the mapping's keys in an unspecified order instead of the dict's insertion order; each key is visited once and the updates are to distinct columns, so the result is the same.
- `Rowversion.ProcessTimestamp`: the `except` branch around `b64encode(...).decode('utf-8')` is not a path of the model, because the encoding is always ASCII and cannot fail to decode; `str(x)` of a value that is neither None, `bytes` nor str (a bytearray or memoryview included) is taken as given (`BytesLike.repr`, `Scalar.repr`).
- `Rowversion.DecodeAndConvert`: the source calls the decoder twice per cell (once to filter, once to yield); the two calls give the same result, so the model decodes once.
