/** The renderer of ubjson/render.c as methods on the context. Every method
    appends to `ctx.rendered` exactly the bytes the Encoding function of the
    value says, and keeps the render buffer large enough for what it holds.
    Rendering never clears the buffer: a second render appends after the
    first. */
module Render {
  import opened Bytes
  import opened Ubjson
  import opened Encoding

  /** The capacity `ubjson_ctx_append_bytes_to_render` ends with: doubled
      until it exceeds `need`, the index the write must stay below. */
  function Doubled(capacity: nat, need: nat): nat
    requires capacity > 0
    decreases need - capacity
  {
    if need < capacity then capacity else Doubled(capacity * 2, need)
  }

  /** Doubling stops at the first capacity past `need`: never below the start,
      and at most twice `need` once it had to grow. */
  lemma {:induction false} DoubledBounds(capacity: nat, need: nat)
    requires capacity > 0
    ensures need < Doubled(capacity, need)
    ensures capacity <= Doubled(capacity, need)
    ensures Doubled(capacity, need) == capacity || Doubled(capacity, need) <= 2 * need
    decreases need - capacity
  {
    if need >= capacity {
      DoubledBounds(capacity * 2, need);
    }
  }

  /** A rendered string appended to `out`: the optional tag, the length
      field, then the bytes, each appended in turn. */
  lemma {:induction false} StringLayout(out: seq<byte>, s: seq<byte>, isKey: bool)
    ensures out + EncodeString(s, isKey) ==
      (if isKey then out else out + [STRING_MARKER]) + LengthPrefix(|CStr(s)|) + CStr(s)
  {
  }

  /** `ubjson_ctx_append_byte_to_render`: grows the buffer by 256 when the
      byte and its successor would not fit, then appends the byte. */
  method AppendByte(ctx: Context, b: byte)
    requires BufferOk(ctx.rendered, ctx.renderCapacity)
    modifies ctx`rendered, ctx`renderCapacity
    ensures ctx.rendered == old(ctx.rendered) + [b]
    ensures ctx.renderCapacity ==
      if |old(ctx.rendered)| + 1 >= old(ctx.renderCapacity) then old(ctx.renderCapacity) + 256
      else old(ctx.renderCapacity)
    ensures BufferOk(ctx.rendered, ctx.renderCapacity)
  {
    if |ctx.rendered| + 1 >= ctx.renderCapacity {
      ctx.renderCapacity := ctx.renderCapacity + 256;
    }
    ctx.rendered := ctx.rendered + [b];
  }

  /** `ubjson_ctx_append_bytes_to_render`: doubles the capacity until the
      bytes and one more fit, then appends them. From a capacity of 0 the
      doubling would never end, so the buffer must exist. */
  method AppendBytes(ctx: Context, bs: seq<byte>)
    requires BufferOk(ctx.rendered, ctx.renderCapacity) && ctx.renderCapacity > 0
    modifies ctx`rendered, ctx`renderCapacity
    ensures ctx.rendered == old(ctx.rendered) + bs
    ensures ctx.renderCapacity == Doubled(old(ctx.renderCapacity), |old(ctx.rendered)| + |bs|)
    ensures BufferOk(ctx.rendered, ctx.renderCapacity)
  {
    ghost var need := |ctx.rendered| + |bs|;
    while |ctx.rendered| + |bs| >= ctx.renderCapacity
      invariant ctx.rendered == old(ctx.rendered) && ctx.renderCapacity > 0
      invariant Doubled(ctx.renderCapacity, need) == Doubled(old(ctx.renderCapacity), need)
      decreases if ctx.renderCapacity <= need then need + 1 - ctx.renderCapacity else 0
    {
      ctx.renderCapacity := ctx.renderCapacity * 2;
    }
    DoubledBounds(old(ctx.renderCapacity), need);
    ctx.rendered := ctx.rendered + bs;
  }

  /** A marker and a one-byte payload, as two `ubjson_ctx_append_byte_to_render` calls. */
  method AppendMarkedByte(ctx: Context, m: byte, b: byte)
    requires BufferOk(ctx.rendered, ctx.renderCapacity)
    modifies ctx`rendered, ctx`renderCapacity
    ensures ctx.rendered == old(ctx.rendered) + [m, b]
    ensures BufferOk(ctx.rendered, ctx.renderCapacity) && old(ctx.renderCapacity) <= ctx.renderCapacity
  {
    AppendByte(ctx, m);
    AppendByte(ctx, b);
    assert ctx.rendered == old(ctx.rendered) + [m] + [b];
  }

  /** A marker, then a wider payload through `ubjson_ctx_append_bytes_to_render`. */
  method AppendMarkedBytes(ctx: Context, m: byte, bs: seq<byte>)
    requires BufferOk(ctx.rendered, ctx.renderCapacity)
    modifies ctx`rendered, ctx`renderCapacity
    ensures ctx.rendered == old(ctx.rendered) + ([m] + bs)
    ensures BufferOk(ctx.rendered, ctx.renderCapacity) && old(ctx.renderCapacity) <= ctx.renderCapacity
  {
    AppendByte(ctx, m);
    AppendBytes(ctx, bs);
    assert ctx.rendered == old(ctx.rendered) + [m] + bs;
  }

  /** `ubjson_ctx_render_string`: the `S` tag unless the string is a key, the
      shortest length field, then the bytes before the first NUL. It returns
      false whatever it wrote. A key longer than INT64_MAX gets no length
      field, so its bytes are the first thing appended and need an existing
      buffer. */
  method RenderString(ctx: Context, s: seq<byte>, isKey: bool) returns (ok: bool)
    requires BufferOk(ctx.rendered, ctx.renderCapacity)
    requires isKey && ctx.renderCapacity == 0 ==> |CStr(s)| <= INT64_MAX
    modifies ctx`rendered, ctx`renderCapacity
    ensures ctx.rendered == old(ctx.rendered) + EncodeString(s, isKey)
    ensures BufferOk(ctx.rendered, ctx.renderCapacity) && old(ctx.renderCapacity) <= ctx.renderCapacity
    ensures !ok
  {
    if !isKey {
      AppendByte(ctx, STRING_MARKER);
    }
    var str := CStr(s);
    RenderLength(ctx, |str|);
    AppendBytes(ctx, str);
    StringLayout(old(ctx.rendered), s, isKey);
    return false;
  }

  /** The length field of `ubjson_ctx_render_string`: the first marker whose
      maximum holds the length, then the length in that marker's width. A
      length past INT64_MAX matches no branch and writes nothing. */
  method RenderLength(ctx: Context, len: nat)
    requires BufferOk(ctx.rendered, ctx.renderCapacity)
    modifies ctx`rendered, ctx`renderCapacity
    ensures ctx.rendered == old(ctx.rendered) + LengthPrefix(len)
    ensures BufferOk(ctx.rendered, ctx.renderCapacity) && old(ctx.renderCapacity) <= ctx.renderCapacity
    ensures len <= INT64_MAX ==> ctx.renderCapacity > 0
  {
    LengthPrefixCases(len);
    if len <= INT8_MAX {
      AppendMarkedByte(ctx, INT8_MARKER, len);
    } else if len <= UINT8_MAX {
      AppendMarkedByte(ctx, UINT8_MARKER, len);
    } else if len <= INT16_MAX {
      AppendMarkedBytes(ctx, INT16_MARKER, ToBigEndian(len, 2));
    } else if len <= INT32_MAX {
      AppendMarkedBytes(ctx, INT32_MARKER, ToBigEndian(len, 4));
    } else if len <= INT64_MAX {
      AppendMarkedBytes(ctx, INT64_MARKER, ToBigEndian(len, 8));
    }
  }

  /** `ubjson_ctx_render_value`: the tag's marker and payload. High precision
      writes nothing and fails; a string reports the false of
      `ubjson_ctx_render_string`; containers render recursively. */
  method RenderValue(ctx: Context, v: Value) returns (ok: bool)
    requires BufferOk(ctx.rendered, ctx.renderCapacity)
    modifies ctx`rendered, ctx`renderCapacity
    ensures ctx.rendered == old(ctx.rendered) + EncodeValue(v)
    ensures BufferOk(ctx.rendered, ctx.renderCapacity) && old(ctx.renderCapacity) <= ctx.renderCapacity
    ensures ok == RenderResult(v)
    decreases v, 1
  {
    match v
    case String(s) =>
      ok := RenderString(ctx, s, false);
    case Array(items) =>
      ok := RenderArray(ctx, items);
    case Object(pairs) =>
      ok := RenderObject(ctx, pairs);
    case HighPrecision =>
      return false;
    case _ =>
      RenderScalar(ctx, v);
      return true;
  }

  /** The fixed-width cases of `ubjson_ctx_render_value`: integers are written
      big-endian in two's complement, floats as their raw bytes. */
  method RenderScalar(ctx: Context, v: Value)
    requires BufferOk(ctx.rendered, ctx.renderCapacity)
    requires !(v.String? || v.Array? || v.Object? || v.HighPrecision?)
    modifies ctx`rendered, ctx`renderCapacity
    ensures ctx.rendered == old(ctx.rendered) + EncodeValue(v)
    ensures BufferOk(ctx.rendered, ctx.renderCapacity) && old(ctx.renderCapacity) <= ctx.renderCapacity
  {
    match v
    case Null =>
      AppendByte(ctx, NULL_MARKER);
    case NoOp =>
      AppendByte(ctx, NOOP_MARKER);
    case True =>
      AppendByte(ctx, TRUE_MARKER);
    case False =>
      AppendByte(ctx, FALSE_MARKER);
    case Int8(x) =>
      AppendMarkedByte(ctx, INT8_MARKER, ToUnsigned(x, 1));
      EncodeSignedByte(x);
    case UInt8(x) =>
      AppendMarkedByte(ctx, UINT8_MARKER, x);
    case Int16(x) =>
      AppendMarkedBytes(ctx, INT16_MARKER, EncodeSigned(x, 2));
    case Int32(x) =>
      AppendMarkedBytes(ctx, INT32_MARKER, EncodeSigned(x, 4));
    case Int64(x) =>
      AppendMarkedBytes(ctx, INT64_MARKER, EncodeSigned(x, 8));
    case Float32(b) =>
      AppendMarkedBytes(ctx, FLOAT32_MARKER, b);
    case Float64(b) =>
      AppendMarkedBytes(ctx, FLOAT64_MARKER, b);
    case Char(c) =>
      AppendMarkedByte(ctx, CHAR_MARKER, c);
  }

  /** `ubjson_ctx_render_array`: `[`, every element in order whatever its own
      result, `]`; always true. */
  method RenderArray(ctx: Context, items: seq<Value>) returns (ok: bool)
    requires BufferOk(ctx.rendered, ctx.renderCapacity)
    modifies ctx`rendered, ctx`renderCapacity
    ensures ctx.rendered == old(ctx.rendered) + EncodeValue(Array(items))
    ensures BufferOk(ctx.rendered, ctx.renderCapacity) && old(ctx.renderCapacity) <= ctx.renderCapacity
    ensures ok
    decreases items, 0
  {
    AppendByte(ctx, ARRAY_OPEN);
    ghost var start := ctx.rendered;
    for i := 0 to |items|
      invariant ctx.rendered == start + EncodeItems(items[..i])
      invariant BufferOk(ctx.rendered, ctx.renderCapacity) && old(ctx.renderCapacity) <= ctx.renderCapacity
    {
      var _ := RenderValue(ctx, items[i]);
      EncodeItemsPrefix(items, i);
    }
    TakeAll(items);
    AppendByte(ctx, ARRAY_CLOSE);
    Bracketed(old(ctx.rendered), ARRAY_OPEN, EncodeItems(items), ARRAY_CLOSE);
    return true;
  }

  /** `ubjson_ctx_render_object`: `{`, every member as its key (no `S`) and
      its value, `}`; always true. */
  method RenderObject(ctx: Context, pairs: seq<KvPair>) returns (ok: bool)
    requires BufferOk(ctx.rendered, ctx.renderCapacity)
    modifies ctx`rendered, ctx`renderCapacity
    ensures ctx.rendered == old(ctx.rendered) + EncodeValue(Object(pairs))
    ensures BufferOk(ctx.rendered, ctx.renderCapacity) && old(ctx.renderCapacity) <= ctx.renderCapacity
    ensures ok
    decreases pairs, 0
  {
    AppendByte(ctx, OBJECT_OPEN);
    ghost var start := ctx.rendered;
    for i := 0 to |pairs|
      invariant ctx.rendered == start + EncodePairs(pairs[..i])
      invariant BufferOk(ctx.rendered, ctx.renderCapacity) && old(ctx.renderCapacity) <= ctx.renderCapacity
    {
      RenderMember(ctx, pairs[i]);
      EncodePairsPrefix(pairs, i);
    }
    TakeAll(pairs);
    AppendByte(ctx, OBJECT_CLOSE);
    Bracketed(old(ctx.rendered), OBJECT_OPEN, EncodePairs(pairs), OBJECT_CLOSE);
    return true;
  }

  /** One turn of the `ubjson_ctx_render_object` loop: the key as a string
      without its `S` tag, then the value; both results are ignored. */
  method RenderMember(ctx: Context, p: KvPair)
    requires BufferOk(ctx.rendered, ctx.renderCapacity) && ctx.rendered != []
    modifies ctx`rendered, ctx`renderCapacity
    ensures ctx.rendered == old(ctx.rendered) + Member(p)
    ensures BufferOk(ctx.rendered, ctx.renderCapacity) && old(ctx.renderCapacity) <= ctx.renderCapacity
    decreases p, 0
  {
    var _ := RenderString(ctx, p.key, true);
    var _ := RenderValue(ctx, p.value);
  }

  /** `ubjson_ctx_render`: renders the parsed root when it is a collection. */
  method RenderRoot(ctx: Context) returns (ok: bool)
    requires BufferOk(ctx.rendered, ctx.renderCapacity)
    modifies ctx`rendered, ctx`renderCapacity
    ensures ok == IsCollection(ctx.root)
    ensures ctx.rendered == old(ctx.rendered) + (if ok then EncodeValue(ctx.root) else [])
    ensures BufferOk(ctx.rendered, ctx.renderCapacity)
  {
    if ctx.root.Object? {
      ok := RenderObject(ctx, ctx.root.pairs);
    } else if ctx.root.Array? {
      ok := RenderArray(ctx, ctx.root.items);
    } else {
      ok := false;
    }
  }

  /** `ubjson_ctx_render_creation`: renders the root frame of the current
      chain (the walk up the parent links ends at frames[0]). In the model a
      frame entered and not yet exited holds its additions itself, so only
      what was written back into the root shows; the C agrees when every
      built frame was entered on an empty collection (see README, Left
      out). */
  method RenderCreation(ctx: Context) returns (ok: bool)
    requires BufferOk(ctx.rendered, ctx.renderCapacity)
    modifies ctx`rendered, ctx`renderCapacity
    ensures ok == (ctx.frames != [])
    ensures ctx.rendered == old(ctx.rendered) + (if ok then EncodeValue(ctx.frames[0].coll.AsValue()) else [])
    ensures BufferOk(ctx.rendered, ctx.renderCapacity)
  {
    if ctx.frames == [] {
      return false;
    }
    var root := ctx.frames[0].coll;
    if root.ObjectColl? {
      ok := RenderObject(ctx, root.pairs);
    } else {
      ok := RenderArray(ctx, root.items);
    }
  }
}
