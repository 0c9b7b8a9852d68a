/** The bytes render.c emits, as functions of the tree. Strings go through
    `strlen`, so only the part before the first NUL is written. */
module Encoding {
  import opened Bytes
  import opened Ubjson

  // The length markers in the order the renderer tries them, the largest
  // length each one can carry, and the width of the length after it.
  const LengthMarkers: seq<byte> := [INT8_MARKER, UINT8_MARKER, INT16_MARKER, INT32_MARKER, INT64_MARKER]
  const LengthMaxima: seq<nat> := [INT8_MAX, UINT8_MAX, INT16_MAX, INT32_MAX, INT64_MAX]
  const LengthWidths: seq<nat> := [1, 1, 2, 4, 8]

  /** Each marker's maximum fits its width, which is the width the parser
      reads after that marker. */
  lemma LengthTableFits(k: nat)
    requires k < 5
    ensures LengthMaxima[k] < Pow256(LengthWidths[k])
    ensures IntWidth(LengthMarkers[k]) == LengthWidths[k]
  {
    Pow256Values();
  }

  /** The length field chosen from the k-th marker on: the first marker whose
      maximum holds the length, then the length big-endian in that marker's
      width; nothing when no marker is left. */
  function LengthField(len: nat, k: nat): seq<byte>
    requires k <= 5
    decreases 5 - k
  {
    if k == 5 then []
    else if len <= LengthMaxima[k] then
      LengthTableFits(k);
      [LengthMarkers[k]] + ToBigEndian(len, LengthWidths[k])
    else LengthField(len, k + 1)
  }

  /** The length field of a string. A length beyond INT64_MAX matches none of
      the renderer's branches and gets no length field at all. */
  function LengthPrefix(len: nat): seq<byte>
  {
    LengthField(len, 0)
  }

  /** The length field branch by branch, as the if-chain of
      `ubjson_ctx_render_string` writes it. */
  lemma {:induction false} LengthPrefixCases(len: nat)
    ensures len <= INT8_MAX ==> LengthPrefix(len) == [INT8_MARKER, len]
    ensures INT8_MAX < len <= UINT8_MAX ==> LengthPrefix(len) == [UINT8_MARKER, len]
    ensures UINT8_MAX < len <= INT16_MAX ==> LengthPrefix(len) == [INT16_MARKER] + ToBigEndian(len, 2)
    ensures INT16_MAX < len <= INT32_MAX ==> LengthPrefix(len) == [INT32_MARKER] + ToBigEndian(len, 4)
    ensures INT32_MAX < len <= INT64_MAX ==> LengthPrefix(len) == [INT64_MARKER] + ToBigEndian(len, 8)
    ensures INT64_MAX < len ==> LengthPrefix(len) == []
  {
    Pow256Values();
    if len <= UINT8_MAX {
      assert ToBigEndian(len, 1) == [len];
    }
    if len > INT8_MAX {
      assert LengthField(len, 0) == LengthField(len, 1);
      if len > UINT8_MAX {
        assert LengthField(len, 1) == LengthField(len, 2);
        if len > INT16_MAX {
          assert LengthField(len, 2) == LengthField(len, 3);
          if len > INT32_MAX {
            assert LengthField(len, 3) == LengthField(len, 4);
            if len > INT64_MAX {
              assert LengthField(len, 4) == LengthField(len, 5);
            }
          }
        }
      }
    }
  }

  /** `ubjson_ctx_render_string`: an `S` tag unless the string is an object key,
      the length field, then the bytes. */
  function EncodeString(s: seq<byte>, isKey: bool): seq<byte>
  {
    if isKey then EncodeKey(s) else [STRING_MARKER] + EncodeKey(s)
  }

  /** The part of a rendered string shared by keys and string values. */
  function EncodeKey(s: seq<byte>): seq<byte>
  {
    LengthPrefix(|CStr(s)|) + CStr(s)
  }

  /** `ubjson_ctx_render_value` and the container renderers it calls. */
  function EncodeValue(v: Value): seq<byte>
    decreases v
  {
    match v
    case Null => [NULL_MARKER]
    case NoOp => [NOOP_MARKER]
    case True => [TRUE_MARKER]
    case False => [FALSE_MARKER]
    case Int8(x) => [INT8_MARKER] + EncodeSigned(x, 1)
    case UInt8(x) => [UINT8_MARKER, x]
    case Int16(x) => [INT16_MARKER] + EncodeSigned(x, 2)
    case Int32(x) => [INT32_MARKER] + EncodeSigned(x, 4)
    case Int64(x) => [INT64_MARKER] + EncodeSigned(x, 8)
    case Float32(b) => [FLOAT32_MARKER] + b
    case Float64(b) => [FLOAT64_MARKER] + b
    case HighPrecision => []
    case Char(c) => [CHAR_MARKER, c]
    case String(s) => EncodeString(s, false)
    case Array(items) => [ARRAY_OPEN] + EncodeItems(items) + [ARRAY_CLOSE]
    case Object(pairs) => [OBJECT_OPEN] + EncodePairs(pairs) + [OBJECT_CLOSE]
  }

  /** The elements of an array, in order. */
  function EncodeItems(items: seq<Value>): seq<byte>
    decreases items
  {
    if items == [] then [] else EncodeValue(items[0]) + EncodeItems(items[1..])
  }

  /** The members of an object, in order: each key without `S`, then its value. */
  function EncodePairs(pairs: seq<KvPair>): seq<byte>
    decreases pairs
  {
    if pairs == [] then [] else Member(pairs[0]) + EncodePairs(pairs[1..])
  }

  /** One member of an object: its key without `S`, then its value. */
  function Member(p: KvPair): seq<byte>
  {
    EncodeString(p.key, true) + EncodeValue(p.value)
  }

  /** The boolean `ubjson_ctx_render_value` returns: false for high precision
      (nothing written) and for strings, since `ubjson_ctx_render_string`
      always returns false; true otherwise, containers included. */
  predicate RenderResult(v: Value)
  {
    !(v.HighPrecision? || v.String?)
  }

  lemma {:induction false} EncodeItemsAppend(items: seq<Value>, v: Value)
    ensures EncodeItems(items + [v]) == EncodeItems(items) + EncodeValue(v)
  {
    if items != [] {
      assert (items + [v])[1..] == items[1..] + [v];
      EncodeItemsAppend(items[1..], v);
    }
  }

  lemma {:induction false} EncodePairsAppend(pairs: seq<KvPair>, p: KvPair)
    ensures EncodePairs(pairs + [p]) == EncodePairs(pairs) + Member(p)
  {
    if pairs != [] {
      assert (pairs + [p])[1..] == pairs[1..] + [p];
      EncodePairsAppend(pairs[1..], p);
    }
  }

  /** Rendering the elements up to i + 1 extends the rendering up to i by
      element i. */
  lemma {:induction false} EncodeItemsPrefix(items: seq<Value>, i: nat)
    requires i < |items|
    ensures EncodeItems(items[..i + 1]) == EncodeItems(items[..i]) + EncodeValue(items[i])
  {
    assert items[..i + 1] == items[..i] + [items[i]];
    EncodeItemsAppend(items[..i], items[i]);
  }

  lemma {:induction false} EncodePairsPrefix(pairs: seq<KvPair>, i: nat)
    requires i < |pairs|
    ensures EncodePairs(pairs[..i + 1]) == EncodePairs(pairs[..i]) + Member(pairs[i])
  {
    assert pairs[..i + 1] == pairs[..i] + [pairs[i]];
    EncodePairsAppend(pairs[..i], pairs[i]);
  }

  /** A container's rendering appended to `out`: the opening marker, the
      body, then the closing marker, each appended in turn. */
  lemma {:induction false} Bracketed(out: seq<byte>, open: byte, body: seq<byte>, close: byte)
    ensures out + ([open] + body + [close]) == out + [open] + body + [close]
  {
  }

  /** A string length the format can carry gets the first marker in
      LengthMarkers whose maximum holds it (every earlier one is too small),
      followed by the length in that marker's width. */
  lemma LengthPrefixMinimal(len: nat)
    requires len <= INT64_MAX
    ensures exists k :: 0 <= k < 5
                     && len <= LengthMaxima[k]
                     && (forall k' | 0 <= k' < k :: LengthMaxima[k'] < len)
                     && LengthPrefix(len) == [LengthMarkers[k]] + ToBigEndian(len, LengthWidths[k])
  {
    LengthPrefixCases(len);
    var k := if len <= INT8_MAX then 0 else if len <= UINT8_MAX then 1
      else if len <= INT16_MAX then 2 else if len <= INT32_MAX then 3 else 4;
    if k < 2 {
      assert ToBigEndian(len, 1) == [len];
    }
    assert LengthPrefix(len) == [LengthMarkers[k]] + ToBigEndian(len, LengthWidths[k]);
  }
}
