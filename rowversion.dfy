/** The `timestamp` (rowversion) column of the extracted table: turning each cell into
    a text form for the columnar file (`process_timestamp`), turning that text back
    into a number (`decode_and_convert_timestamp`), the new watermark (the largest
    such number) and the row count (the non-null cells). */
module Rowversion {
  import opened Wrappers
  import opened Base64

  /** One cell of the column, as the database driver hands it to Python. */
  datatype Cell =
    | Null                  // SQL NULL, Python None
    | Bytes(b: seq<byte>)   // a Python bytes value, as the driver returns a binary or rowversion column
    | BytesLike(b: seq<byte>, repr: string)
                            // a bytes-like value that is not bytes (bytearray, memoryview),
                            // carried with its contents and what str() gives for it
    | Text(s: string)       // a Python str
    | Scalar(repr: string)  // any value that is neither str nor bytes-like (an int, a datetime, ...),
                            // carried with what str() gives for it

  predicate IsAscii(s: string)
  {
    forall i :: 0 <= i < |s| ==> s[i] as int < 128
  }

  /** `bytes.decode('utf-8')` on bytes that are all ASCII: one character per byte. */
  function AsciiText(e: seq<byte>): (s: string)
    requires forall i :: 0 <= i < |e| ==> e[i] < 128
    ensures IsAscii(s) && |s| == |e|
    ensures forall i :: 0 <= i < |e| ==> s[i] as int == e[i]
  {
    seq(|e|, i requires 0 <= i < |e| => e[i] as char)
  }

  /** `str.encode('ascii')`. */
  function AsciiBytes(s: string): (e: seq<byte>)
    requires IsAscii(s)
    ensures |e| == |s|
    ensures forall i :: 0 <= i < |s| ==> e[i] == s[i] as int
  {
    seq(|s|, i requires 0 <= i < |s| => s[i] as int)
  }

  lemma AsciiRoundTrip(e: seq<byte>)
    requires forall i :: 0 <= i < |e| ==> e[i] < 128
    ensures AsciiBytes(AsciiText(e)) == e
  {
  }

  /** `process_timestamp`: None stays None, a `bytes` value becomes its Base64 text,
      anything else (a bytearray or memoryview included, since the test is
      `isinstance(x, bytes)`) becomes its str(). The source's `except` branch around
      `b64encode(x).decode('utf-8')` cannot fire: the encoding is all ASCII, which
      the precondition of `AsciiText` records. */
  function ProcessTimestamp(x: Cell): (r: Cell)
    ensures r.Null? <==> x.Null?
    ensures r.Null? || r.Text?
    ensures x.Bytes? ==> IsAscii(r.s) && |r.s| == 4 * ((|x.b| + 2) / 3)
    ensures x.Text? ==> r == x
    ensures x.BytesLike? || x.Scalar? ==> r == Text(x.repr)
  {
    match x
    case Null => Null
    case Bytes(b) => Text(AsciiText(Encode(b)))
    case BytesLike(_, repr) => Text(repr)
    case Text(s) => Text(s)
    case Scalar(repr) => Text(repr)
  }

  /** `df['timestamp'].apply(process_timestamp)`. */
  function ProcessColumn(column: seq<Cell>): (r: seq<Cell>)
    ensures |r| == |column|
    ensures forall i :: 0 <= i < |r| ==> r[i] == ProcessTimestamp(column[i])
  {
    seq(|column|, i requires 0 <= i < |column| => ProcessTimestamp(column[i]))
  }

  /** Why `b64decode` raises. */
  datatype ConvertError =
    | NotBytesLike            // TypeError: None or a value that is neither str nor bytes-like
    | NonAscii                // ValueError: a str with a non-ASCII character
    | Invalid(e: DecodeError) // binascii.Error

  /** `base64.b64decode(x)` with its default `validate=False`. */
  function B64Decode(x: Cell): (r: Result<seq<byte>, ConvertError>)
    ensures x.Null? || x.Scalar? ==> r == Err(NotBytesLike)
    ensures x.Text? && !IsAscii(x.s) ==> r == Err(NonAscii)
    ensures x.Bytes? || x.BytesLike? ==> (r.Ok? <==> Decode(x.b).Ok?)
    ensures (x.Bytes? || x.BytesLike?) && r.Ok? ==> r.value == Decode(x.b).value
    ensures x.Text? && IsAscii(x.s) ==> (r.Ok? <==> Decode(AsciiBytes(x.s)).Ok?)
    ensures x.Text? && IsAscii(x.s) && r.Ok? ==> r.value == Decode(AsciiBytes(x.s)).value
  {
    match x
    case Bytes(b) =>
      (match Decode(b) case Ok(d) => Ok(d) case Err(e) => Err(Invalid(e)))
    case BytesLike(b, _) =>
      (match Decode(b) case Ok(d) => Ok(d) case Err(e) => Err(Invalid(e)))
    case Text(s) =>
      if IsAscii(s) then
        (match Decode(AsciiBytes(s)) case Ok(d) => Ok(d) case Err(e) => Err(Invalid(e)))
      else Err(NonAscii)
    case _ => Err(NotBytesLike)
  }

  function Pow256(k: nat): (p: nat)
    ensures p >= 1
  {
    if k == 0 then 1 else 256 * Pow256(k - 1)
  }

  /** `int.from_bytes(b, byteorder='big')`: the unsigned big-endian value of `b`. */
  function BytesToNat(b: seq<byte>): (n: nat)
    ensures n < Pow256(|b|)
    decreases |b|
  {
    if |b| == 0 then 0
    else BytesToNat(b[..|b| - 1]) * 256 + b[|b| - 1]
  }

  /** Big-endian: the leading bytes weigh 256 to the power of the number of trailing ones. */
  lemma {:induction false} BytesToNatConcat(hi: seq<byte>, lo: seq<byte>)
    ensures BytesToNat(hi + lo) == BytesToNat(hi) * Pow256(|lo|) + BytesToNat(lo)
    decreases |lo|
  {
    if |lo| == 0 {
      assert hi + lo == hi;
    } else {
      var lo' := lo[..|lo| - 1];
      var last := lo[|lo| - 1];
      assert (hi + lo)[..|hi + lo| - 1] == hi + lo';
      BytesToNatConcat(hi, lo');
      var h, p, l := BytesToNat(hi), Pow256(|lo'|), BytesToNat(lo');
      assert BytesToNat(hi + lo) == (h * p + l) * 256 + last;
      assert Pow256(|lo|) == p * 256;
      assert BytesToNat(lo) == l * 256 + last;
      ShiftByte(h, p, l, last);
    }
  }

  lemma ShiftByte(h: int, p: int, l: int, last: int)
    ensures (h * p + l) * 256 + last == h * (p * 256) + (l * 256 + last)
  {
  }

  /** A SQL Server rowversion is 8 bytes, so its value fits in 64 unsigned bits. */
  lemma RowversionFits64Bits(b: seq<byte>)
    requires |b| == 8
    ensures BytesToNat(b) < 0x1_0000_0000_0000_0000
  {
  }

  /** `decode_and_convert_timestamp`: the big-endian value of the Base64-decoded
      cell, or None when decoding raises. */
  function DecodeAndConvert(x: Cell): (r: Option<nat>)
    ensures r.Some? <==> B64Decode(x).Ok?
    ensures r.Some? ==> r.value == BytesToNat(B64Decode(x).value)
  {
    match B64Decode(x)
    case Ok(d) => Some(BytesToNat(d))
    case Err(_) => None
  }

  /** The headline round trip: decoding the processed form of a binary timestamp
      gives the big-endian value of its bytes. */
  lemma RowversionRoundTrip(b: seq<byte>)
    ensures DecodeAndConvert(ProcessTimestamp(Bytes(b))) == Some(BytesToNat(b))
  {
    AsciiRoundTrip(Encode(b));
    DecodeEncode(b);
  }

  /** The failures the source absorbs into None. */
  lemma DecodeFailuresAreNone(x: Cell)
    ensures x.Null? ==> DecodeAndConvert(x) == None
    ensures x.Scalar? ==> DecodeAndConvert(x) == None
    ensures x.Text? && !IsAscii(x.s) ==> DecodeAndConvert(x) == None
  {
  }

  /** Text without '=' whose alphabet characters leave a group of 1, 2 or 3 open
      ("A", "QQ", "AAA", "AAAAA", ...) does not decode; with whole groups it does. */
  lemma {:induction false} UnpaddedTextDecodes(s: string)
    requires IsAscii(s)
    requires forall i :: 0 <= i < |s| ==> s[i] != '='
    ensures DecodeAndConvert(Text(s)).Some? <==> AlphabetCount(AsciiBytes(s)) % 4 == 0
  {
    DecodeWithoutPad(AsciiBytes(s));
  }

  /** The new watermark, `max(decode(ts) for ts in column if decode(ts) is not None)`,
      with the ValueError that `max` raises on no values caught as None: the largest
      value that decodes, and one of them. */
  method MaxDecoded(column: seq<Cell>) returns (w: Option<nat>)
    ensures w.None? <==> forall i :: 0 <= i < |column| ==> DecodeAndConvert(column[i]).None?
    ensures w.Some? ==> exists i :: 0 <= i < |column| && DecodeAndConvert(column[i]) == w
    ensures w.Some? ==> forall i :: 0 <= i < |column| && DecodeAndConvert(column[i]).Some? ==>
                          DecodeAndConvert(column[i]).value <= w.value
  {
    w := None;
    var i := 0;
    while i < |column|
      invariant 0 <= i <= |column|
      invariant w.None? <==> forall k :: 0 <= k < i ==> DecodeAndConvert(column[k]).None?
      invariant w.Some? ==> exists k :: 0 <= k < i && DecodeAndConvert(column[k]) == w
      invariant w.Some? ==> forall k :: 0 <= k < i && DecodeAndConvert(column[k]).Some? ==>
                              DecodeAndConvert(column[k]).value <= w.value
    {
      var d := DecodeAndConvert(column[i]);
      if d.Some? && (w.None? || w.value < d.value) {
        w := d;
      }
      i := i + 1;
    }
  }

  /** `Series.count()`: the number of non-null cells. */
  function NonNullCount(column: seq<Cell>): (n: nat)
    ensures n <= |column|
    ensures n == |column| <==> forall i :: 0 <= i < |column| ==> !column[i].Null?
    ensures n == 0 <==> forall i :: 0 <= i < |column| ==> column[i].Null?
    decreases |column|
  {
    if |column| == 0 then 0
    else (if column[0].Null? then 0 else 1) + NonNullCount(column[1..])
  }

  /** Processing keeps exactly the null cells null, so the count after
      `process_timestamp` is the count of non-null values the database returned. */
  lemma {:induction false} CountUnchangedByProcessing(column: seq<Cell>)
    ensures NonNullCount(ProcessColumn(column)) == NonNullCount(column)
    decreases |column|
  {
    if |column| > 0 {
      var processed := ProcessColumn(column);
      assert processed[1..] == ProcessColumn(column[1..]);
      CountUnchangedByProcessing(column[1..]);
    }
  }
}
