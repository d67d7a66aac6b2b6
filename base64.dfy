/** Base64 with the basic alphabet of section 4 of RFC 4648, as Python's `base64`
    module applies it: `b64encode` pads with '=', and `b64decode` (with its default
    `validate=False`) decodes leniently — bytes outside the alphabet are skipped, a
    complete pad sequence ends the input, and a dangling group is an error. */
module Base64 {
  import opened Wrappers

  type byte = x: int | 0 <= x < 256

  /** ASCII code of the pad character '='. */
  const Pad: byte := 61

  /** Why a byte string is not valid Base64 (the two `binascii.Error` messages). */
  datatype DecodeError =
    | DanglingCharacter   // data characters are 1 more than a multiple of 4
    | IncorrectPadding    // a group of 2 or 3 data characters is not closed by padding

  /** The ASCII code of the symbol for the 6-bit value `v` (Table 1 of RFC 4648). */
  function Symbol(v: int): (c: byte)
    requires 0 <= v < 64
    ensures c < 128 && c != Pad
  {
    if v < 26 then 65 + v
    else if v < 52 then 97 + (v - 26)
    else if v < 62 then 48 + (v - 52)
    else if v == 62 then 43
    else 47
  }

  /** The decoding table: the 6-bit value of an alphabet symbol, or 64 for any
      other byte (which the lenient decoder skips). */
  function SymbolValue(c: byte): (v: int)
    ensures 0 <= v <= 64
    ensures v < 64 ==> Symbol(v) == c
    ensures v == 64 <==> !(65 <= c <= 90 || 97 <= c <= 122 || 48 <= c <= 57 || c == 43 || c == 47)
  {
    if 65 <= c <= 90 then c - 65
    else if 97 <= c <= 122 then c - 71
    else if 48 <= c <= 57 then c + 4
    else if c == 43 then 62
    else if c == 47 then 63
    else 64
  }

  lemma ValueOfSymbol(v: int)
    requires 0 <= v < 64
    ensures SymbolValue(Symbol(v)) == v
  {
  }

  /** Number of '=' characters the encoding of `n` bytes ends with. */
  function PadCount(n: nat): nat
  {
    (3 - n % 3) % 3
  }

  /** `base64.b64encode`: every 3 input bytes become 4 symbols; a final group of
      1 or 2 bytes becomes 2 or 3 symbols followed by '=' padding. */
  function Encode(b: seq<byte>): (e: seq<byte>)
    ensures |e| == 4 * ((|b| + 2) / 3)
    ensures forall i :: 0 <= i < |e| ==> e[i] < 128
    ensures forall i :: 0 <= i < |e| ==> (e[i] == Pad <==> |e| - PadCount(|b|) <= i)
    decreases |b|
  {
    if |b| == 0 then []
    else if |b| == 1 then
      [Symbol(b[0] / 4), Symbol(b[0] % 4 * 16), Pad, Pad]
    else if |b| == 2 then
      [Symbol(b[0] / 4), Symbol(b[0] % 4 * 16 + b[1] / 16), Symbol(b[1] % 16 * 4), Pad]
    else
      var group := [Symbol(b[0] / 4), Symbol(b[0] % 4 * 16 + b[1] / 16),
                    Symbol(b[1] % 16 * 4 + b[2] / 64), Symbol(b[2] % 64)];
      var rest := Encode(b[3..]);
      assert (|b| + 2) / 3 == (|b| - 3 + 2) / 3 + 1;
      assert PadCount(|b|) == PadCount(|b| - 3);
      assert forall i :: 0 <= i < 4 ==> group[i] < 128 && group[i] != Pad;
      assert forall i :: 4 <= i < 4 + |rest| ==> (group + rest)[i] == rest[i - 4];
      group + rest
  }

  /** Slack of the output-length bound at a position within a group: after k data
      characters, 4 * (bytes written) + Deficit(k mod 4) == 3 * k. */
  function Deficit(quadPos: nat): nat
    requires quadPos < 4
  {
    if quadPos == 0 then 0 else 4 - quadPos
  }

  /** Bound on the bits carried between characters: 6, 4 or 2 bits after the
      first, second or third character of a group. */
  function LeftBound(quadPos: nat): nat
    requires quadPos < 4
  {
    if quadPos <= 1 then 64 else if quadPos == 2 then 16 else 4
  }

  /** The lenient decoding loop of `binascii.a2b_base64`, one input byte per step.
      `quadPos` is the position within the current group of four symbols,
      `leftChar` the bits not yet written out, `pads` the '=' seen since the last
      symbol (counted only once two symbols of the group are in), `out` the bytes
      decoded so far. */
  function DecodeLoop(data: seq<byte>, quadPos: nat, leftChar: nat, pads: nat, out: seq<byte>)
    : (r: Result<seq<byte>, DecodeError>)
    requires quadPos < 4 && leftChar < LeftBound(quadPos)
    ensures r.Ok? ==> out <= r.value
    ensures r.Ok? ==> 4 * |r.value| <= 4 * |out| + Deficit(quadPos) + 3 * |data|
    ensures |data| == 0 ==> (r.Ok? <==> quadPos == 0)
    decreases |data|
  {
    if |data| == 0 then
      if quadPos == 0 then Ok(out)
      else if quadPos == 1 then Err(DanglingCharacter)
      else Err(IncorrectPadding)
    else if data[0] == Pad then
      if quadPos >= 2 && quadPos + pads + 1 >= 4 then Ok(out)
      else DecodeLoop(data[1..], quadPos, leftChar, if quadPos >= 2 then pads + 1 else pads, out)
    else
      var v := SymbolValue(data[0]);
      if v == 64 then DecodeLoop(data[1..], quadPos, leftChar, pads, out)
      else if quadPos == 0 then DecodeLoop(data[1..], 1, v, 0, out)
      else if quadPos == 1 then DecodeLoop(data[1..], 2, v % 16, 0, out + [leftChar * 4 + v / 16])
      else if quadPos == 2 then DecodeLoop(data[1..], 3, v % 4, 0, out + [leftChar * 16 + v / 4])
      else DecodeLoop(data[1..], 0, 0, 0, out + [leftChar * 64 + v])
  }

  /** `binascii.a2b_base64(data, strict_mode=False)`. */
  function Decode(data: seq<byte>): (r: Result<seq<byte>, DecodeError>)
    ensures r.Ok? ==> 4 * |r.value| <= 3 * |data|
  {
    DecodeLoop(data, 0, 0, 0, [])
  }

  /** Number of bytes of the basic alphabet in `data` (the bytes the decoder does not skip). */
  function AlphabetCount(data: seq<byte>): (n: nat)
    ensures n <= |data|
    decreases |data|
  {
    if |data| == 0 then 0
    else (if SymbolValue(data[0]) < 64 then 1 else 0) + AlphabetCount(data[1..])
  }

  /** Without any '=', the loop succeeds exactly when the data characters close
      the group they started in. */
  lemma {:induction false} DecodeLoopWithoutPad(data: seq<byte>, quadPos: nat, leftChar: nat, pads: nat, out: seq<byte>)
    requires quadPos < 4 && leftChar < LeftBound(quadPos)
    requires forall i :: 0 <= i < |data| ==> data[i] != Pad
    ensures DecodeLoop(data, quadPos, leftChar, pads, out).Ok? <==> (quadPos + AlphabetCount(data)) % 4 == 0
    decreases |data|
  {
    if |data| > 0 {
      var v := SymbolValue(data[0]);
      var rest := data[1..];
      assert forall i :: 0 <= i < |rest| ==> rest[i] == data[i + 1];
      if v == 64 {
        DecodeLoopWithoutPad(rest, quadPos, leftChar, pads, out);
      } else if quadPos == 0 {
        DecodeLoopWithoutPad(rest, 1, v, 0, out);
      } else if quadPos == 1 {
        DecodeLoopWithoutPad(rest, 2, v % 16, 0, out + [leftChar * 4 + v / 16]);
      } else if quadPos == 2 {
        DecodeLoopWithoutPad(rest, 3, v % 4, 0, out + [leftChar * 16 + v / 4]);
      } else {
        DecodeLoopWithoutPad(rest, 0, 0, 0, out + [leftChar * 64 + v]);
      }
    }
  }

  /** Unpadded input decodes exactly when its alphabet characters come in whole
      groups of four; 1, 2 or 3 left over is an error. */
  lemma {:induction false} DecodeWithoutPad(data: seq<byte>)
    requires forall i :: 0 <= i < |data| ==> data[i] != Pad
    ensures Decode(data).Ok? <==> AlphabetCount(data) % 4 == 0
  {
    DecodeLoopWithoutPad(data, 0, 0, 0, []);
    assert (0 + AlphabetCount(data)) % 4 == AlphabetCount(data) % 4;
  }

  /** Decoding the symbols of one complete group of three bytes. */
  lemma {:induction false} DecodeGroup(b0: byte, b1: byte, b2: byte, rest: seq<byte>, out: seq<byte>)
    ensures DecodeLoop([Symbol(b0 / 4), Symbol(b0 % 4 * 16 + b1 / 16),
                        Symbol(b1 % 16 * 4 + b2 / 64), Symbol(b2 % 64)] + rest, 0, 0, 0, out)
         == DecodeLoop(rest, 0, 0, 0, out + [b0, b1, b2])
  {
    var v0, v1, v2, v3 := b0 / 4, b0 % 4 * 16 + b1 / 16, b1 % 16 * 4 + b2 / 64, b2 % 64;
    var s := [Symbol(v0), Symbol(v1), Symbol(v2), Symbol(v3)] + rest;
    ValueOfSymbol(v0); ValueOfSymbol(v1); ValueOfSymbol(v2); ValueOfSymbol(v3);
    assert v0 * 4 + v1 / 16 == b0;
    assert v1 % 16 * 16 + v2 / 4 == b1;
    assert v2 % 4 * 64 + v3 == b2;
    calc {
      DecodeLoop(s, 0, 0, 0, out);
      { assert s[0] == Symbol(v0) && s[1..] == [Symbol(v1), Symbol(v2), Symbol(v3)] + rest; }
      DecodeLoop([Symbol(v1), Symbol(v2), Symbol(v3)] + rest, 1, v0, 0, out);
      { assert ([Symbol(v1), Symbol(v2), Symbol(v3)] + rest)[1..] == [Symbol(v2), Symbol(v3)] + rest; }
      DecodeLoop([Symbol(v2), Symbol(v3)] + rest, 2, v1 % 16, 0, out + [b0]);
      { assert ([Symbol(v2), Symbol(v3)] + rest)[1..] == [Symbol(v3)] + rest; }
      DecodeLoop([Symbol(v3)] + rest, 3, v2 % 4, 0, out + [b0] + [b1]);
      { assert ([Symbol(v3)] + rest)[1..] == rest; }
      DecodeLoop(rest, 0, 0, 0, out + [b0] + [b1] + [b2]);
      { assert out + [b0] + [b1] + [b2] == out + [b0, b1, b2]; }
      DecodeLoop(rest, 0, 0, 0, out + [b0, b1, b2]);
    }
  }

  /** Decoding a final group of one byte: two symbols and "==". */
  lemma DecodeLastOne(b0: byte, out: seq<byte>)
    ensures DecodeLoop([Symbol(b0 / 4), Symbol(b0 % 4 * 16), Pad, Pad], 0, 0, 0, out) == Ok(out + [b0])
  {
    var v0, v1 := b0 / 4, b0 % 4 * 16;
    ValueOfSymbol(v0); ValueOfSymbol(v1);
    assert v0 * 4 + v1 / 16 == b0;
    calc {
      DecodeLoop([Symbol(v0), Symbol(v1), Pad, Pad], 0, 0, 0, out);
      { assert [Symbol(v0), Symbol(v1), Pad, Pad][1..] == [Symbol(v1), Pad, Pad]; }
      DecodeLoop([Symbol(v1), Pad, Pad], 1, v0, 0, out);
      { assert [Symbol(v1), Pad, Pad][1..] == [Pad, Pad]; }
      DecodeLoop([Pad, Pad], 2, v1 % 16, 0, out + [b0]);
      { assert [Pad, Pad][1..] == [Pad]; }
      DecodeLoop([Pad], 2, v1 % 16, 1, out + [b0]);
    }
  }

  /** Decoding a final group of two bytes: three symbols and "=". */
  lemma DecodeLastTwo(b0: byte, b1: byte, out: seq<byte>)
    ensures DecodeLoop([Symbol(b0 / 4), Symbol(b0 % 4 * 16 + b1 / 16), Symbol(b1 % 16 * 4), Pad], 0, 0, 0, out)
         == Ok(out + [b0, b1])
  {
    var v0, v1, v2 := b0 / 4, b0 % 4 * 16 + b1 / 16, b1 % 16 * 4;
    ValueOfSymbol(v0); ValueOfSymbol(v1); ValueOfSymbol(v2);
    assert v0 * 4 + v1 / 16 == b0;
    assert v1 % 16 * 16 + v2 / 4 == b1;
    calc {
      DecodeLoop([Symbol(v0), Symbol(v1), Symbol(v2), Pad], 0, 0, 0, out);
      { assert [Symbol(v0), Symbol(v1), Symbol(v2), Pad][1..] == [Symbol(v1), Symbol(v2), Pad]; }
      DecodeLoop([Symbol(v1), Symbol(v2), Pad], 1, v0, 0, out);
      { assert [Symbol(v1), Symbol(v2), Pad][1..] == [Symbol(v2), Pad]; }
      DecodeLoop([Symbol(v2), Pad], 2, v1 % 16, 0, out + [b0]);
      { assert [Symbol(v2), Pad][1..] == [Pad]; }
      DecodeLoop([Pad], 3, v2 % 4, 0, out + [b0] + [b1]);
      { assert out + [b0] + [b1] == out + [b0, b1]; }
      Ok(out + [b0, b1]);
    }
  }

  /** Decoding what `Encode` produced, after any already decoded output. */
  lemma {:induction false} DecodeLoopEncode(b: seq<byte>, out: seq<byte>)
    ensures DecodeLoop(Encode(b), 0, 0, 0, out) == Ok(out + b)
    decreases |b|
  {
    if |b| == 0 {
      assert out + b == out;
    } else if |b| == 1 {
      DecodeLastOne(b[0], out);
      assert [b[0]] == b;
    } else if |b| == 2 {
      DecodeLastTwo(b[0], b[1], out);
      assert [b[0], b[1]] == b;
    } else {
      DecodeGroup(b[0], b[1], b[2], Encode(b[3..]), out);
      DecodeLoopEncode(b[3..], out + [b[0], b[1], b[2]]);
      assert out + [b[0], b[1], b[2]] + b[3..] == out + b;
    }
  }

  /** Round trip: `b64decode(b64encode(b)) == b`. */
  lemma DecodeEncode(b: seq<byte>)
    ensures Decode(Encode(b)) == Ok(b)
  {
    DecodeLoopEncode(b, []);
    assert [] + b == b;
  }
}
