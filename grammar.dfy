/** The grammar parse.c accepts, as functions over an input buffer and a read
    index. Every step follows `ubjson_ctx_consume`: taking n bytes at index i
    succeeds only when i + n < |src|, so the last byte of the buffer can be
    peeked but never consumed. Where the C code would dereference the NULL of a
    failed consume, read past the buffer, or allocate a negative length, the
    grammar fails. */
module Grammar {
  import opened Bytes
  import opened Ubjson

  /** The elements a container loop collected, and the index after its closing
      marker when the loop succeeded (None when it failed). */
  datatype Partial<T> = Partial(items: seq<T>, end: Option<nat>)

  /** The integer after marker m at index j: big-endian, unsigned for `U`,
      two's complement for the others. */
  function ReadInteger(src: seq<byte>, j: nat, m: byte): (r: Option<(int, nat)>)
    requires IsIntMarker(m)
    ensures r.Some? ==> r.value.1 == j + IntWidth(m) < |src|
  {
    var w := IntWidth(m);
    if j + w >= |src| then None
    else if m == UINT8_MARKER then Some((src[j], j + 1))
    else Some((DecodeSigned(src[j..j + w]), j + w))
  }

  /** The integer read after each marker lies in the range of its C type. */
  lemma ReadIntegerRange(src: seq<byte>, j: nat, m: byte)
    requires IsIntMarker(m) && ReadInteger(src, j, m).Some?
    ensures IntFits(m, ReadInteger(src, j, m).value.0)
  {
    SignedBoundValues();
  }

  /** x fits the C integer type that marker m announces. */
  predicate IntFits(m: byte, x: int)
  {
    && (m == INT8_MARKER ==> -0x80 <= x <= INT8_MAX)
    && (m == UINT8_MARKER ==> 0 <= x <= UINT8_MAX)
    && (m == INT16_MARKER ==> -0x8000 <= x <= INT16_MAX)
    && (m == INT32_MARKER ==> -0x8000_0000 <= x <= INT32_MAX)
    && (m == INT64_MARKER ==> -0x8000_0000_0000_0000 <= x <= INT64_MAX)
  }

  /** The value an integer marker stands for, given an in-range payload. */
  function IntValue(m: byte, x: int): (v: Value)
    requires IsIntMarker(m) && IntFits(m, x)
  {
    if m == INT8_MARKER then Int8(x)
    else if m == UINT8_MARKER then UInt8(x)
    else if m == INT16_MARKER then Int16(x)
    else if m == INT32_MARKER then Int32(x)
    else Int64(x)
  }

  /** `ubjson_ctx_parse_string`: an integer length marker, the length, then
      that many raw bytes. Any other marker is rejected; a negative length fails. */
  function ParseString(src: seq<byte>, i: nat): (r: Option<(seq<byte>, nat)>)
    ensures r.Some? ==> i < r.value.1 < |src|
  {
    if i + 1 >= |src| || !IsIntMarker(src[i]) then None
    else
      match ReadInteger(src, i + 1, src[i])
      case None => None
      case Some((len, k)) =>
        if len < 0 || k + len >= |src| then None
        else Some((src[k..k + len], k + len))
  }

  /** The fixed-width productions of `ubjson_ctx_parse_value`, for tag m whose
      payload starts at index j: no payload for `Z N T F`, an integer, 4 or 8
      raw float bytes, one char byte. */
  function ParseScalar(src: seq<byte>, m: byte, j: nat): (r: Option<(Value, nat)>)
    ensures r.Some? ==> j <= r.value.1 < |src|
  {
    if j >= |src| then None
    else if m == NULL_MARKER then Some((Null, j))
    else if m == NOOP_MARKER then Some((NoOp, j))
    else if m == TRUE_MARKER then Some((True, j))
    else if m == FALSE_MARKER then Some((False, j))
    else if IsIntMarker(m) then
      match ReadInteger(src, j, m)
      case None => None
      case Some((x, k)) => ReadIntegerRange(src, j, m); Some((IntValue(m, x), k))
    else if m == FLOAT32_MARKER then
      if j + 4 < |src| then Some((Float32(src[j..j + 4]), j + 4)) else None
    else if m == FLOAT64_MARKER then
      if j + 8 < |src| then Some((Float64(src[j..j + 8]), j + 8)) else None
    else if m == CHAR_MARKER then
      if j + 1 < |src| then Some((Char(src[j]), j + 1)) else None
    else None
  }

  /** `ubjson_ctx_parse_value`: one tag byte selects the production; an
      unknown tag is rejected. */
  function ParseValue(src: seq<byte>, i: nat): (r: Option<(Value, nat)>)
    ensures r.Some? ==> i < r.value.1 <= |src|
    decreases |src| - i, 0
  {
    if i + 1 >= |src| then None
    else if src[i] == STRING_MARKER then
      match ParseString(src, i + 1)
      case None => None
      case Some((s, k)) => Some((String(s), k))
    else if src[i] == ARRAY_OPEN then ParseArray(src, i + 1)
    else if src[i] == OBJECT_OPEN then ParseObject(src, i + 1)
    else ParseScalar(src, src[i], i + 1)
  }

  /** `ubjson_ctx_parse_array` after the `[`: the array is a value only when
      its loop reaches the closing marker. */
  function ParseArray(src: seq<byte>, i: nat): (r: Option<(Value, nat)>)
    ensures r.Some? ==> i < r.value.1 <= |src|
    decreases |src| - i, 2
  {
    var p := ArrayItems(src, i, []);
    if p.end.Some? then Some((Array(p.items), p.end.value)) else None
  }

  /** `ubjson_ctx_parse_object` after the `{`. */
  function ParseObject(src: seq<byte>, i: nat): (r: Option<(Value, nat)>)
    ensures r.Some? ==> i < r.value.1 <= |src|
    decreases |src| - i, 2
  {
    var p := ObjectPairs(src, i, []);
    if p.end.Some? then Some((Object(p.items), p.end.value)) else None
  }

  /** The loop of `ubjson_ctx_parse_array` from index i, with the elements
      `acc` already appended: a `]` ends it, a NUL or a failing element stops it. */
  function ArrayItems(src: seq<byte>, i: nat, acc: seq<Value>): (r: Partial<Value>)
    ensures r.end.Some? ==> i < r.end.value <= |src|
    decreases |src| - i, 1
  {
    if i >= |src| then Partial(acc, None)
    else if src[i] == ARRAY_CLOSE then Partial(acc, Some(i + 1))
    else if src[i] == 0 then Partial(acc, None)
    else
      match ParseValue(src, i)
      case None => Partial(acc, None)
      case Some((v, j)) => ArrayItems(src, j, acc + [v])
  }

  /** The loop of `ubjson_ctx_parse_object`: like ArrayItems, but each element
      is a member. */
  function ObjectPairs(src: seq<byte>, i: nat, acc: seq<KvPair>): (r: Partial<KvPair>)
    ensures r.end.Some? ==> i < r.end.value <= |src|
    decreases |src| - i, 1
  {
    if i >= |src| then Partial(acc, None)
    else if src[i] == OBJECT_CLOSE then Partial(acc, Some(i + 1))
    else if src[i] == 0 then Partial(acc, None)
    else
      match ParseMember(src, i)
      case None => Partial(acc, None)
      case Some((p, j)) => ObjectPairs(src, j, acc + [p])
  }

  /** One member of an object: a key (a bare string, no `S` tag), then a value. */
  function ParseMember(src: seq<byte>, i: nat): (r: Option<(KvPair, nat)>)
    ensures r.Some? ==> i < r.value.1 <= |src|
    decreases |src| - i, 0
  {
    match ParseString(src, i)
    case None => None
    case Some((key, k)) =>
      match ParseValue(src, k)
      case None => None
      case Some((v, j)) => Some((KvPair(key, v), j))
  }

  /** One turn of the array loop on an element that parses. */
  lemma {:induction false} ArrayItemsStep(src: seq<byte>, i: nat, acc: seq<Value>, v: Value, j: nat)
    requires i < |src| && src[i] !in {0, ARRAY_CLOSE}
    requires ParseValue(src, i) == Some((v, j))
    ensures ArrayItems(src, i, acc) == ArrayItems(src, j, acc + [v])
  {
  }

  /** One turn of the object loop on a member that parses. */
  lemma {:induction false} ObjectPairsStep(src: seq<byte>, i: nat, acc: seq<KvPair>, p: KvPair, j: nat)
    requires i < |src| && src[i] !in {0, OBJECT_CLOSE}
    requires ParseMember(src, i) == Some((p, j))
    ensures ObjectPairs(src, i, acc) == ObjectPairs(src, j, acc + [p])
  {
  }

  /** A member is its key string followed by its value. */
  lemma {:induction false} ParseMemberStep(src: seq<byte>, i: nat, key: seq<byte>, k: nat, v: Value, j: nat)
    requires ParseString(src, i) == Some((key, k)) && ParseValue(src, k) == Some((v, j))
    ensures ParseMember(src, i) == Some((KvPair(key, v), j))
  {
  }

  /** `ubjson_ctx_parse` from index i. None when the first byte cannot be
      consumed or opens no collection. Otherwise the root collection the
      container loop built, complete or not, with the index after its closing
      marker when the loop succeeded. */
  function Document(src: seq<byte>, i: nat): (r: Option<(Value, Option<nat>)>)
    ensures r.Some? ==> IsCollection(r.value.0)
  {
    if i + 1 >= |src| then None
    else if src[i] == OBJECT_OPEN then
      var p := ObjectPairs(src, i + 1, []);
      Some((Object(p.items), p.end))
    else if src[i] == ARRAY_OPEN then
      var p := ArrayItems(src, i + 1, []);
      Some((Array(p.items), p.end))
    else None
  }

  /** A complete document is exactly a value starting at i whose first byte
      opens an object or an array. */
  lemma {:induction false} DocumentValue(src: seq<byte>, i: nat)
    ensures var d := Document(src, i);
      (d.Some? && d.value.1.Some?) <==>
        (i < |src| && src[i] in {OBJECT_OPEN, ARRAY_OPEN} && ParseValue(src, i).Some?)
    ensures var d := Document(src, i);
      d.Some? && d.value.1.Some? ==> ParseValue(src, i) == Some((d.value.0, d.value.1.value))
  {
  }
}
