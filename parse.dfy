/** The parser of ubjson/parse.c as methods on the context: every method
    advances `ctx.srcIndex` through the input exactly as the C does and
    computes what the Grammar function of the same name says. Where the C
    dereferences the NULL of a failed consume, peeks past the buffer or gets a
    negative string length, the method fails. */
module Parse {
  import opened Bytes
  import opened Ubjson
  import opened Cursor
  import G = Grammar
  import Create

  /** `ubjson_ctx_consume`: taking n bytes succeeds only when at least one
      byte remains after them; a failed consume moves the index to the end.
      The C returns a pointer to the bytes, here their start is the old index. */
  method Consume(ctx: Context, n: nat) returns (ok: bool)
    modifies ctx`srcIndex
    ensures ok <==> old(ctx.srcIndex) + n < |ctx.src|
    ensures ctx.srcIndex == if ok then old(ctx.srcIndex) + n else |ctx.src|
  {
    if ctx.srcIndex + n >= |ctx.src| {
      ctx.srcIndex := |ctx.src|;
      return false;
    }
    ctx.srcIndex := ctx.srcIndex + n;
    return true;
  }

  /** `ubjson_ctx_peek`: the byte at the read index, which must exist. */
  method Peek(ctx: Context) returns (b: byte)
    requires ctx.srcIndex < |ctx.src|
    ensures b == ctx.src[ctx.srcIndex]
  {
    b := ctx.src[ctx.srcIndex];
  }

  /** The integer payload after marker m, as the `(iN)beNtoh(*(iN *)consume(...))`
      expressions of parse.c read it. */
  method ReadInteger(ctx: Context, m: byte) returns (ok: bool, x: int)
    requires IsIntMarker(m) && ctx.srcIndex <= |ctx.src|
    modifies ctx`srcIndex
    ensures ctx.srcIndex <= |ctx.src|
    ensures var r := G.ReadInteger(ctx.src, old(ctx.srcIndex), m);
      ok == r.Some? && (ok ==> (x, ctx.srcIndex) == r.value)
  {
    var w := IntWidth(m);
    var start := ctx.srcIndex;
    ok := Consume(ctx, w);
    if !ok {
      return false, 0;
    }
    if m == UINT8_MARKER {
      x := ctx.src[start];
    } else {
      x := DecodeSigned(ctx.src[start..start + w]);
    }
  }

  /** `ubjson_ctx_parse_string`. */
  method ParseString(ctx: Context) returns (ok: bool, s: seq<byte>)
    requires ctx.srcIndex <= |ctx.src|
    modifies ctx`srcIndex
    ensures ctx.srcIndex <= |ctx.src|
    ensures var r := G.ParseString(ctx.src, old(ctx.srcIndex));
      ok == r.Some? && (ok ==> (s, ctx.srcIndex) == r.value)
  {
    var start := ctx.srcIndex;
    ok := Consume(ctx, 1);
    if !ok {
      return false, [];
    }
    var m := ctx.src[start];
    if !IsIntMarker(m) {
      return false, [];
    }
    var length;
    ok, length := ReadInteger(ctx, m);
    if !ok || length < 0 {
      return false, [];
    }
    var k := ctx.srcIndex;
    ok := Consume(ctx, length);
    if !ok {
      return false, [];
    }
    s := ctx.src[k..k + length];
  }

  /** `ubjson_ctx_parse_value`. On failure the value is whatever was built
      and the caller discards it. */
  method ParseValue(ctx: Context) returns (ok: bool, v: Value)
    requires ctx.srcIndex <= |ctx.src|
    modifies ctx`srcIndex
    ensures ctx.srcIndex <= |ctx.src|
    ensures var r := G.ParseValue(ctx.src, old(ctx.srcIndex));
      ok == r.Some? && (ok ==> (v, ctx.srcIndex) == r.value)
    decreases |ctx.src| - ctx.srcIndex, 0
  {
    var start := ctx.srcIndex;
    ok := Consume(ctx, 1);
    if !ok {
      return false, Null;
    }
    var m := ctx.src[start];
    if m == STRING_MARKER {
      var s;
      ok, s := ParseString(ctx);
      v := String(s);
    } else if m == ARRAY_OPEN {
      var c;
      ok, c := ParseArray(ctx);
      v := c.AsValue();
    } else if m == OBJECT_OPEN {
      var c;
      ok, c := ParseObject(ctx);
      v := c.AsValue();
    } else {
      ok, v := ParseScalar(ctx, m);
    }
  }

  /** The fixed-width cases of `ubjson_ctx_parse_value`, after the tag m. */
  method ParseScalar(ctx: Context, m: byte) returns (ok: bool, v: Value)
    requires ctx.srcIndex < |ctx.src|
    modifies ctx`srcIndex
    ensures ctx.srcIndex <= |ctx.src|
    ensures var r := G.ParseScalar(ctx.src, m, old(ctx.srcIndex));
      ok == r.Some? && (ok ==> (v, ctx.srcIndex) == r.value)
  {
    var j := ctx.srcIndex;
    v := Null;
    ok := true;
    if m == NULL_MARKER {
      v := Null;
    } else if m == NOOP_MARKER {
      v := NoOp;
    } else if m == TRUE_MARKER {
      v := True;
    } else if m == FALSE_MARKER {
      v := False;
    } else if IsIntMarker(m) {
      var x;
      ok, x := ReadInteger(ctx, m);
      if ok {
        G.ReadIntegerRange(ctx.src, j, m);
        v := G.IntValue(m, x);
      }
    } else if m == FLOAT32_MARKER {
      ok := Consume(ctx, 4);
      if ok {
        v := Float32(ctx.src[j..j + 4]);
      }
    } else if m == FLOAT64_MARKER {
      ok := Consume(ctx, 8);
      if ok {
        v := Float64(ctx.src[j..j + 8]);
      }
    } else if m == CHAR_MARKER {
      ok := Consume(ctx, 1);
      if ok {
        v := Char(ctx.src[j]);
      }
    } else {
      ok := false;
    }
  }

  /** The checks both collection loops make before each element, and once
      before the loop: a `close` marker is consumed and ends the collection
      successfully, a NUL ends it with failure, and so does the end of the
      input, where the C would peek past the buffer. */
  method StopCheck(ctx: Context, close: byte) returns (stop: bool, ok: bool)
    requires ctx.srcIndex <= |ctx.src|
    modifies ctx`srcIndex
    ensures var i := old(ctx.srcIndex);
      && stop == (i >= |ctx.src| || ctx.src[i] == close || ctx.src[i] == 0)
      && ok == (i < |ctx.src| && ctx.src[i] == close)
      && ctx.srcIndex == (if ok then i + 1 else i)
  {
    if ctx.srcIndex >= |ctx.src| {
      return true, false;
    }
    var b := Peek(ctx);
    if b == close {
      ok := Consume(ctx, 1);
      return true, true;
    }
    if b == 0 {
      return true, false;
    }
    return false, false;
  }

  /** `ubjson_ctx_parse_array` after the `[`: values are appended in input
      order, the storage growing 0, 4, 8, ...; on failure the collection holds
      the elements parsed so far. */
  method ParseArray(ctx: Context) returns (ok: bool, c: Collection)
    requires ctx.srcIndex <= |ctx.src|
    modifies ctx`srcIndex
    ensures ctx.srcIndex <= |ctx.src|
    ensures var p := G.ArrayItems(ctx.src, old(ctx.srcIndex), []);
      && c == ArrayColl(p.items, Capacity(|p.items|))
      && ok == p.end.Some? && (ok ==> ctx.srcIndex == p.end.value)
    decreases |ctx.src| - ctx.srcIndex, 1
  {
    var items: seq<Value> := [];
    var capacity: nat := 0;
    var stop;
    stop, ok := StopCheck(ctx, ARRAY_CLOSE);
    if stop {
      return ok, ArrayColl(items, capacity);
    }
    while true
      invariant old(ctx.srcIndex) <= ctx.srcIndex <= |ctx.src|
      invariant capacity == Capacity(|items|)
      invariant G.ArrayItems(ctx.src, old(ctx.srcIndex), []) == G.ArrayItems(ctx.src, ctx.srcIndex, items)
      decreases |ctx.src| - ctx.srcIndex
    {
      stop, ok := StopCheck(ctx, ARRAY_CLOSE);
      if stop {
        return ok, ArrayColl(items, capacity);
      }
      var v;
      var i := ctx.srcIndex;
      ok, v := ParseValue(ctx);
      if !ok {
        return false, ArrayColl(items, capacity);
      }
      G.ArrayItemsStep(ctx.src, i, items, v, ctx.srcIndex);
      capacity := Grow(capacity, |items|);
      items := items + [v];
    }
  }

  /** `ubjson_ctx_parse_object` after the `{`: each member is a bare key
      (no `S` tag) and a value. */
  method ParseObject(ctx: Context) returns (ok: bool, c: Collection)
    requires ctx.srcIndex <= |ctx.src|
    modifies ctx`srcIndex
    ensures ctx.srcIndex <= |ctx.src|
    ensures var p := G.ObjectPairs(ctx.src, old(ctx.srcIndex), []);
      && c == ObjectColl(p.items, Capacity(|p.items|))
      && ok == p.end.Some? && (ok ==> ctx.srcIndex == p.end.value)
    decreases |ctx.src| - ctx.srcIndex, 1
  {
    var pairs: seq<KvPair> := [];
    var capacity: nat := 0;
    var stop;
    stop, ok := StopCheck(ctx, OBJECT_CLOSE);
    if stop {
      return ok, ObjectColl(pairs, capacity);
    }
    while true
      invariant old(ctx.srcIndex) <= ctx.srcIndex <= |ctx.src|
      invariant capacity == Capacity(|pairs|)
      invariant G.ObjectPairs(ctx.src, old(ctx.srcIndex), []) == G.ObjectPairs(ctx.src, ctx.srcIndex, pairs)
      decreases |ctx.src| - ctx.srcIndex
    {
      stop, ok := StopCheck(ctx, OBJECT_CLOSE);
      if stop {
        return ok, ObjectColl(pairs, capacity);
      }
      var kv;
      var i := ctx.srcIndex;
      ok, kv := ParseMember(ctx);
      if !ok {
        return false, ObjectColl(pairs, capacity);
      }
      G.ObjectPairsStep(ctx.src, i, pairs, kv, ctx.srcIndex);
      capacity := Grow(capacity, |pairs|);
      pairs := pairs + [kv];
    }
  }

  /** One turn of the `ubjson_ctx_parse_object` loop past its stop checks:
      the key, read as a string without its `S` tag, then the value. */
  method ParseMember(ctx: Context) returns (ok: bool, kv: KvPair)
    requires ctx.srcIndex <= |ctx.src|
    modifies ctx`srcIndex
    ensures ctx.srcIndex <= |ctx.src|
    ensures var r := G.ParseMember(ctx.src, old(ctx.srcIndex));
      ok == r.Some? && (ok ==> (kv, ctx.srcIndex) == r.value)
    decreases |ctx.src| - ctx.srcIndex, 0
  {
    var key, v;
    ok, key := ParseString(ctx);
    if !ok {
      return false, KvPair([], Null);
    }
    ok, v := ParseValue(ctx);
    kv := KvPair(key, v);
  }

  /** `ubjson_ctx_free_creation`: exit frames until exiting fails, then drop
      the root frame (its storage is freed only when it was built). */
  method FreeCreation(ctx: Context)
    requires FramesOk(ctx.frames)
    modifies ctx`frames
    ensures ctx.frames == []
  {
    if ctx.frames != [] {
      var more := true;
      while more
        invariant ctx.frames != [] && FramesOk(ctx.frames)
        decreases |ctx.frames|, more
      {
        more := Create.ExitCollection(ctx);
      }
      ctx.frames := [];
    }
  }

  /** `ubjson_ctx_parse`: drop any construction, then read one object or
      array from the read index. The root receives the collection as far as
      it was parsed, even when parsing fails; only a complete parse installs
      the parsed root frame (index 0, marked as parsed). Bytes after the
      root's closing marker are not looked at. */
  method Parse(ctx: Context) returns (ok: bool)
    requires ctx.srcIndex <= |ctx.src| && FramesOk(ctx.frames)
    modifies ctx`srcIndex, ctx`root, ctx`frames
    ensures ctx.srcIndex <= |ctx.src|
    ensures var d := G.Document(ctx.src, old(ctx.srcIndex));
      && ok == (d.Some? && d.value.1.Some?)
      && ctx.root == (if d.Some? then d.value.0 else old(ctx.root))
      && ctx.frames == (if ok then [Frame(CollectionOf(ctx.root), 0, true)] else [])
      && (ok ==> ctx.srcIndex == d.value.1.value)
  {
    FreeCreation(ctx);
    var start := ctx.srcIndex;
    ok := Consume(ctx, 1);
    if !ok {
      return false;
    }
    var b := ctx.src[start];
    if b == OBJECT_OPEN {
      ctx.root := Object([]);
      var c;
      ok, c := ParseObject(ctx);
      ctx.root := c.AsValue();
      if ok {
        ctx.frames := [Frame(c, 0, true)];
      }
      return ok;
    }
    if b == ARRAY_OPEN {
      ctx.root := Array([]);
      var c;
      ok, c := ParseArray(ctx);
      ctx.root := c.AsValue();
      if ok {
        ctx.frames := [Frame(c, 0, true)];
      }
      return ok;
    }
    return false;
  }
}
