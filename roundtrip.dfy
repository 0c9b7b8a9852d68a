/** Parsing inverts rendering: for every tree without high-precision values,
    whose strings and keys are NUL-free (rendering measures them with `strlen`)
    and short enough to get a length field, the grammar reads the rendered
    bytes back as the same tree. */
module RoundTrip {
  import opened Bytes
  import opened Ubjson
  import opened Grammar
  import opened Encoding

  /** A string the renderer writes in full, with a length field. */
  predicate StringOk(s: seq<byte>)
  {
    NulFree(s) && |s| <= INT64_MAX
  }

  /** A tree the renderer and the parser agree on. */
  predicate WellFormed(v: Value)
    decreases v
  {
    match v
    case HighPrecision => false
    case String(s) => StringOk(s)
    case Array(items) => forall k | 0 <= k < |items| :: WellFormed(items[k])
    case Object(pairs) => forall k | 0 <= k < |pairs| :: StringOk(pairs[k].key) && WellFormed(pairs[k].value)
    case _ => true
  }

  /** A length field, followed by at least one more byte, reads back as the
      length through ReadInteger. */
  lemma {:induction false} LengthRoundTrip(src: seq<byte>, j: nat, len: nat)
    requires len <= INT64_MAX
    requires At(src, j, LengthPrefix(len)) && j + |LengthPrefix(len)| < |src|
    ensures |LengthPrefix(len)| >= 2 && src[j] == LengthPrefix(len)[0] && IsIntMarker(src[j])
    ensures ReadInteger(src, j + 1, src[j]) == Some((len, j + |LengthPrefix(len)|))
  {
    SignedBoundValues();
    LengthPrefixCases(len);
    if len <= INT8_MAX {
      EncodeSignedNonNegative(len, 1);
      assert ToBigEndian(len, 1) == [len];
      assert LengthPrefix(len) == [INT8_MARKER] + EncodeSigned(len, 1);
      IntegerRoundTrip(src, j, INT8_MARKER, len, 1);
    } else if len <= UINT8_MAX {
      AtTwo(src, j, UINT8_MARKER, len);
    } else {
      var m: byte := if len <= INT16_MAX then INT16_MARKER else if len <= INT32_MAX then INT32_MARKER else INT64_MARKER;
      var w := IntWidth(m);
      EncodeSignedNonNegative(len, w);
      assert LengthPrefix(len) == [m] + EncodeSigned(len, w);
      IntegerRoundTrip(src, j, m, len, w);
    }
  }

  /** A string rendered as a key (no `S` tag) parses back with ParseString,
      given at least one byte after it. */
  lemma {:induction false} StringRoundTrip(src: seq<byte>, i: nat, s: seq<byte>)
    requires StringOk(s)
    requires At(src, i, EncodeString(s, true)) && i + |EncodeString(s, true)| < |src|
    ensures ParseString(src, i) == Some((s, i + |EncodeString(s, true)|))
  {
    KeyLayout(s);
    AtPrefixSlice(src, i, LengthPrefix(|s|), s);
    LengthRoundTrip(src, i, |s|);
    ParseStringAt(src, i, |s|, i + |LengthPrefix(|s|)|);
  }

  /** A NUL-free key is rendered as its length field and all its bytes. */
  lemma {:induction false} KeyLayout(s: seq<byte>)
    requires StringOk(s)
    ensures EncodeString(s, true) == LengthPrefix(|s|) + s
  {
    CStrNulFree(s);
  }

  /** ParseString once its length field has been read. */
  lemma {:induction false} ParseStringAt(src: seq<byte>, i: nat, len: int, k: nat)
    requires i + 1 < |src| && IsIntMarker(src[i])
    requires ReadInteger(src, i + 1, src[i]) == Some((len, k))
    requires 0 <= len && k + len < |src|
    ensures ParseString(src, i) == Some((src[k..k + len], k + len))
  {
  }

  /** Rendered bytes parse back as the value. A scalar needs one more byte after
      it (consume's strict bound); a container does not, since its closing
      marker is only peeked. */
  lemma {:induction false} ValueRoundTrip(src: seq<byte>, i: nat, v: Value)
    requires WellFormed(v)
    requires At(src, i, EncodeValue(v))
    requires i + |EncodeValue(v)| < |src| || IsCollection(v)
    ensures ParseValue(src, i) == Some((v, i + |EncodeValue(v)|))
    decreases v, 2
  {
    if v.Array? {
      ArrayRoundTrip(src, i, v.items);
    } else if v.Object? {
      ObjectRoundTrip(src, i, v.pairs);
    } else if v.String? {
      StringValueRoundTrip(src, i, v.s);
    } else {
      ScalarRoundTrip(src, i, v);
      ParseValueScalar(src, i);
    }
  }

  /** `ubjson_ctx_parse_array` on a rendered array: the loop runs to the closing marker. */
  lemma {:induction false} ArrayRoundTrip(src: seq<byte>, i: nat, items: seq<Value>)
    requires forall k | 0 <= k < |items| :: WellFormed(items[k])
    requires At(src, i, EncodeValue(Array(items)))
    ensures ParseValue(src, i) == Some((Array(items), i + |EncodeValue(Array(items))|))
    decreases Array(items), 1
  {
    ArrayLayout(src, i, items);
    ItemsRoundTrip(src, i + 1, items, [], i + 2 + |EncodeItems(items)|);
    AppendEmpty(items);
    ParseValueArray(src, i);
  }

  lemma {:induction false} ArrayLayout(src: seq<byte>, i: nat, items: seq<Value>)
    requires At(src, i, EncodeValue(Array(items)))
    ensures i + 1 < |src| && src[i] == ARRAY_OPEN
    ensures At(src, i + 1, EncodeItems(items) + [ARRAY_CLOSE])
    ensures |EncodeValue(Array(items))| == |EncodeItems(items)| + 2
  {
    AtSplit(src, i, [ARRAY_OPEN], EncodeItems(items), [ARRAY_CLOSE]);
    AtFirst(src, i, [ARRAY_OPEN]);
  }

  lemma {:induction false} ParseValueArray(src: seq<byte>, i: nat)
    requires i + 1 < |src| && src[i] == ARRAY_OPEN
    ensures ParseValue(src, i) == ParseArray(src, i + 1)
  {
  }

  /** `ubjson_ctx_parse_object` on a rendered object: the loop runs to the closing marker. */
  lemma {:induction false} ObjectRoundTrip(src: seq<byte>, i: nat, pairs: seq<KvPair>)
    requires forall k | 0 <= k < |pairs| :: StringOk(pairs[k].key) && WellFormed(pairs[k].value)
    requires At(src, i, EncodeValue(Object(pairs)))
    ensures ParseValue(src, i) == Some((Object(pairs), i + |EncodeValue(Object(pairs))|))
    decreases Object(pairs), 1
  {
    ObjectLayout(src, i, pairs);
    PairsRoundTrip(src, i + 1, pairs, [], i + 2 + |EncodePairs(pairs)|);
    AppendEmpty(pairs);
    ParseValueObject(src, i);
  }

  lemma {:induction false} ObjectLayout(src: seq<byte>, i: nat, pairs: seq<KvPair>)
    requires At(src, i, EncodeValue(Object(pairs)))
    ensures i + 1 < |src| && src[i] == OBJECT_OPEN
    ensures At(src, i + 1, EncodePairs(pairs) + [OBJECT_CLOSE])
    ensures |EncodeValue(Object(pairs))| == |EncodePairs(pairs)| + 2
  {
    AtSplit(src, i, [OBJECT_OPEN], EncodePairs(pairs), [OBJECT_CLOSE]);
    AtFirst(src, i, [OBJECT_OPEN]);
  }

  lemma {:induction false} ParseValueObject(src: seq<byte>, i: nat)
    requires i + 1 < |src| && src[i] == OBJECT_OPEN
    ensures ParseValue(src, i) == ParseObject(src, i + 1)
  {
  }

  lemma {:induction false} StringValueRoundTrip(src: seq<byte>, i: nat, s: seq<byte>)
    requires StringOk(s)
    requires At(src, i, EncodeValue(String(s))) && i + |EncodeValue(String(s))| < |src|
    ensures ParseValue(src, i) == Some((String(s), i + |EncodeValue(String(s))|))
  {
    AtConcat(src, i, [STRING_MARKER], EncodeKey(s));
    AtFirst(src, i, [STRING_MARKER]);
    StringRoundTrip(src, i + 1, s);
    ParseValueString(src, i);
  }

  lemma {:induction false} ParseValueString(src: seq<byte>, i: nat)
    requires i + 1 < |src| && src[i] == STRING_MARKER
    ensures ParseValue(src, i) == (match ParseString(src, i + 1)
                                   case None => None
                                   case Some((s, k)) => Some((String(s), k)))
  {
  }

  /** An integer payload written big-endian reads back through ReadInteger. */
  lemma {:induction false} IntegerRoundTrip(src: seq<byte>, i: nat, m: byte, x: int, w: nat)
    requires m in {INT8_MARKER, INT16_MARKER, INT32_MARKER, INT64_MARKER}
    requires w == IntWidth(m) && -SignedBound(w) <= x < SignedBound(w)
    requires At(src, i, [m] + EncodeSigned(x, w)) && i + 1 + w < |src|
    ensures src[i] == m
    ensures ReadInteger(src, i + 1, m) == Some((x, i + 1 + w))
  {
    AtConcat(src, i, [m], EncodeSigned(x, w));
    AtFirst(src, i, [m]);
    DecodeAt(src, i + 1, x, w);
  }

  /** The payload of a rendered scalar parses back through ParseScalar. */
  lemma {:induction false} ScalarRoundTrip(src: seq<byte>, i: nat, v: Value)
    requires !IsCollection(v) && !v.String? && !v.HighPrecision?
    requires At(src, i, EncodeValue(v)) && i + |EncodeValue(v)| < |src|
    ensures src[i] !in {STRING_MARKER, ARRAY_OPEN, OBJECT_OPEN}
    ensures ParseScalar(src, src[i], i + 1) == Some((v, i + |EncodeValue(v)|))
  {
    SignedBoundValues();
    match v
    case Null =>
      AtFirst(src, i, [NULL_MARKER]);
    case NoOp =>
      AtFirst(src, i, [NOOP_MARKER]);
    case True =>
      AtFirst(src, i, [TRUE_MARKER]);
    case False =>
      AtFirst(src, i, [FALSE_MARKER]);
    case Int8(x) =>
      IntegerRoundTrip(src, i, INT8_MARKER, x, 1);
    case UInt8(x) =>
      AtTwo(src, i, UINT8_MARKER, x);
    case Int16(x) =>
      IntegerRoundTrip(src, i, INT16_MARKER, x, 2);
    case Int32(x) =>
      IntegerRoundTrip(src, i, INT32_MARKER, x, 4);
    case Int64(x) =>
      IntegerRoundTrip(src, i, INT64_MARKER, x, 8);
    case Float32(b) =>
      AtConcat(src, i, [FLOAT32_MARKER], b);
      AtFirst(src, i, [FLOAT32_MARKER]);
      AtSlice(src, i + 1, b);
    case Float64(b) =>
      AtConcat(src, i, [FLOAT64_MARKER], b);
      AtFirst(src, i, [FLOAT64_MARKER]);
      AtSlice(src, i + 1, b);
    case Char(c) =>
      AtTwo(src, i, CHAR_MARKER, c);
  }

  /** A tag that opens no string or container selects ParseScalar. */
  lemma {:induction false} ParseValueScalar(src: seq<byte>, i: nat)
    requires i + 1 < |src| && src[i] !in {STRING_MARKER, ARRAY_OPEN, OBJECT_OPEN}
    ensures ParseValue(src, i) == ParseScalar(src, src[i], i + 1)
  {
  }

  /** The array loop reads rendered elements up to and including the `]`,
      ending after it (at `end`) with every element appended to `acc`. */
  lemma {:induction false} ItemsRoundTrip(src: seq<byte>, i: nat, items: seq<Value>, acc: seq<Value>, end: nat)
    requires forall k | 0 <= k < |items| :: WellFormed(items[k])
    requires At(src, i, EncodeItems(items) + [ARRAY_CLOSE])
    requires end == i + |EncodeItems(items)| + 1
    ensures ArrayItems(src, i, acc) == Partial(acc + items, Some(end))
    decreases items, 0
  {
    if items == [] {
      ItemsEnd(src, i, acc, end);
    } else {
      var v := items[0];
      ItemsLayout(src, i, items);
      ItemRoundTrip(src, i, acc, v);
      AppendFirst(acc, items);
      ItemsRoundTrip(src, i + |EncodeValue(v)|, items[1..], acc + [v], end);
    }
  }

  lemma {:induction false} AppendEmpty<T>(xs: seq<T>)
    ensures [] + xs == xs
  {
  }

  lemma {:induction false} AppendFirst<T>(acc: seq<T>, xs: seq<T>)
    requires xs != []
    ensures acc + [xs[0]] + xs[1..] == acc + xs
  {
    assert [xs[0]] + xs[1..] == xs;
    assert acc + [xs[0]] + xs[1..] == acc + ([xs[0]] + xs[1..]);
  }

  /** Where the first element and the rest of a rendered array body lie. */
  lemma {:induction false} ItemsLayout(src: seq<byte>, i: nat, items: seq<Value>)
    requires items != [] && At(src, i, EncodeItems(items) + [ARRAY_CLOSE])
    ensures At(src, i, EncodeValue(items[0])) && i + |EncodeValue(items[0])| < |src|
    ensures At(src, i + |EncodeValue(items[0])|, EncodeItems(items[1..]) + [ARRAY_CLOSE])
    ensures |EncodeItems(items)| == |EncodeValue(items[0])| + |EncodeItems(items[1..])|
  {
    AtSplit(src, i, EncodeValue(items[0]), EncodeItems(items[1..]), [ARRAY_CLOSE]);
  }

  /** Where the first member and the rest of a rendered object body lie. */
  lemma {:induction false} PairsLayout(src: seq<byte>, i: nat, pairs: seq<KvPair>)
    requires pairs != [] && At(src, i, EncodePairs(pairs) + [OBJECT_CLOSE])
    ensures At(src, i, Member(pairs[0])) && i + |Member(pairs[0])| < |src|
    ensures At(src, i + |Member(pairs[0])|, EncodePairs(pairs[1..]) + [OBJECT_CLOSE])
    ensures |EncodePairs(pairs)| == |Member(pairs[0])| + |EncodePairs(pairs[1..])|
  {
    AtSplit(src, i, Member(pairs[0]), EncodePairs(pairs[1..]), [OBJECT_CLOSE]);
  }

  /** The `]` of an empty rest ends the array loop. */
  lemma {:induction false} ItemsEnd(src: seq<byte>, i: nat, acc: seq<Value>, end: nat)
    requires At(src, i, EncodeItems([]) + [ARRAY_CLOSE])
    requires end == i + |EncodeItems([])| + 1
    ensures ArrayItems(src, i, acc) == Partial(acc + [], Some(end))
  {
    assert EncodeItems([]) + [ARRAY_CLOSE] == [ARRAY_CLOSE];
    AtFirst(src, i, [ARRAY_CLOSE]);
    assert acc + [] == acc;
  }

  /** One rendered element, followed by more bytes, is one turn of the array loop. */
  lemma {:induction false} ItemRoundTrip(src: seq<byte>, i: nat, acc: seq<Value>, v: Value)
    requires WellFormed(v)
    requires At(src, i, EncodeValue(v)) && i + |EncodeValue(v)| < |src|
    ensures ArrayItems(src, i, acc) == ArrayItems(src, i + |EncodeValue(v)|, acc + [v])
    decreases v, 3
  {
    FirstByte(v);
    AtFirst(src, i, EncodeValue(v));
    ValueRoundTrip(src, i, v);
    ArrayItemsStep(src, i, acc, v, i + |EncodeValue(v)|);
  }

  /** The object loop reads rendered members up to and including the `}`. */
  lemma {:induction false} PairsRoundTrip(src: seq<byte>, i: nat, pairs: seq<KvPair>, acc: seq<KvPair>, end: nat)
    requires forall k | 0 <= k < |pairs| :: StringOk(pairs[k].key) && WellFormed(pairs[k].value)
    requires At(src, i, EncodePairs(pairs) + [OBJECT_CLOSE])
    requires end == i + |EncodePairs(pairs)| + 1
    ensures ObjectPairs(src, i, acc) == Partial(acc + pairs, Some(end))
    decreases pairs, 0
  {
    if pairs == [] {
      PairsEnd(src, i, acc, end);
    } else {
      var p := pairs[0];
      PairsLayout(src, i, pairs);
      PairRoundTrip(src, i, acc, p);
      AppendFirst(acc, pairs);
      PairsRoundTrip(src, i + |Member(p)|, pairs[1..], acc + [p], end);
    }
  }

  /** The `}` of an empty rest ends the object loop. */
  lemma {:induction false} PairsEnd(src: seq<byte>, i: nat, acc: seq<KvPair>, end: nat)
    requires At(src, i, EncodePairs([]) + [OBJECT_CLOSE])
    requires end == i + |EncodePairs([])| + 1
    ensures ObjectPairs(src, i, acc) == Partial(acc + [], Some(end))
  {
    assert EncodePairs([]) + [OBJECT_CLOSE] == [OBJECT_CLOSE];
    AtFirst(src, i, [OBJECT_CLOSE]);
    assert acc + [] == acc;
  }

  /** One rendered member, followed by more bytes, is one turn of the object loop. */
  lemma {:induction false} PairRoundTrip(src: seq<byte>, i: nat, acc: seq<KvPair>, p: KvPair)
    requires StringOk(p.key) && WellFormed(p.value)
    requires At(src, i, Member(p)) && i + |Member(p)| < |src|
    ensures ObjectPairs(src, i, acc) == ObjectPairs(src, i + |Member(p)|, acc + [p])
    decreases p
  {
    MemberLayout(src, i, p);
    StringRoundTrip(src, i, p.key);
    ValueRoundTrip(src, i + |EncodeString(p.key, true)|, p.value);
    ParseMemberStep(src, i, p.key, i + |EncodeString(p.key, true)|, p.value, i + |Member(p)|);
    ObjectPairsStep(src, i, acc, p, i + |Member(p)|);
  }

  /** Where the key and the value of a rendered member lie. */
  lemma {:induction false} MemberLayout(src: seq<byte>, i: nat, p: KvPair)
    requires StringOk(p.key)
    requires At(src, i, Member(p)) && i + |Member(p)| < |src|
    ensures i < |src| && src[i] !in {0, OBJECT_CLOSE}
    ensures At(src, i, EncodeString(p.key, true))
    ensures At(src, i + |EncodeString(p.key, true)|, EncodeValue(p.value))
    ensures |Member(p)| == |EncodeString(p.key, true)| + |EncodeValue(p.value)|
  {
    AtConcat(src, i, EncodeString(p.key, true), EncodeValue(p.value));
    KeyFirstByte(p.key);
    AtFirst(src, i, EncodeString(p.key, true));
  }

  /** A rendered value starts with its tag, never with NUL or a closing marker. */
  lemma {:induction false} FirstByte(v: Value)
    requires WellFormed(v)
    ensures |EncodeValue(v)| >= 1
    ensures EncodeValue(v)[0] !in {0, ARRAY_CLOSE, OBJECT_CLOSE}
  {
  }

  /** A rendered key starts with its length marker. */
  lemma {:induction false} KeyFirstByte(s: seq<byte>)
    requires StringOk(s)
    ensures |EncodeString(s, true)| >= 2
    ensures EncodeString(s, true)[0] !in {0, ARRAY_CLOSE, OBJECT_CLOSE}
  {
    CStrNulFree(s);
  }

  /** `ubjson_ctx_parse` of a rendered root: the document is exactly the
      rendered bytes, with nothing after the closing marker. */
  lemma {:induction false} DocumentRoundTrip(v: Value)
    requires WellFormed(v) && IsCollection(v)
    ensures ParseValue(EncodeValue(v), 0) == Some((v, |EncodeValue(v)|))
    ensures Document(EncodeValue(v), 0) == Some((v, Some(|EncodeValue(v)|)))
  {
    SliceAt(EncodeValue(v), 0, EncodeValue(v));
    ValueRoundTrip(EncodeValue(v), 0, v);
    DocumentValue(EncodeValue(v), 0);
  }
}
