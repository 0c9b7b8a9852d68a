/** Building a tree through the cursor (ubjson/create.c). Each operation
    changes only the frame stack, exactly as the Cursor function of the same
    name says, and keeps the stack well formed. Adding to a parsed frame is
    excluded by precondition: its storage is shared with the parsed root, so
    the `realloc` would leave the root dangling. */
module Create {
  import opened Bytes
  import opened Ubjson
  import opened Cursor

  /** `ubjson_ctx_create_object`: a fresh root frame on an empty object. */
  method CreateObject(ctx: Context) returns (ok: bool)
    modifies ctx`frames
    ensures ok && ctx.frames == Created(true) && FramesOk(ctx.frames)
  {
    ctx.frames := [Frame(ObjectColl([], 0), 0, false)];
    return true;
  }

  /** `ubjson_ctx_create_array`: a fresh root frame on an empty array. */
  method CreateArray(ctx: Context) returns (ok: bool)
    modifies ctx`frames
    ensures ok && ctx.frames == Created(false) && FramesOk(ctx.frames)
  {
    ctx.frames := [Frame(ArrayColl([], 0), 0, false)];
    return true;
  }

  /** `ubjson_ctx_enter_collection`. */
  method EnterCollection(ctx: Context) returns (ok: bool)
    requires ctx.frames != [] && FramesOk(ctx.frames)
    modifies ctx`frames
    ensures Applied(old(ctx.frames), ctx.frames, ok, Enter(old(ctx.frames)))
    ensures ctx.frames != [] && FramesOk(ctx.frames)
  {
    var cur := Current(ctx.frames);
    var next: Value;
    if cur.coll.ObjectColl? {
      if |cur.coll.pairs| == 0 {
        return false;
      }
      if cur.fromParse {
        next := cur.coll.pairs[cur.index].value;
      } else {
        next := cur.coll.pairs[|cur.coll.pairs| - 1].value;
      }
    } else {
      if |cur.coll.items| == 0 {
        return false;
      }
      if cur.fromParse {
        next := cur.coll.items[cur.index];
      } else {
        next := cur.coll.items[|cur.coll.items| - 1];
      }
    }
    if !next.Object? && !next.Array? {
      return false;
    }
    EnterOk(ctx.frames);
    ctx.frames := ctx.frames + [Frame(CollectionOf(next), 0, cur.fromParse)];
    return true;
  }

  /** `ubjson_ctx_exit_collection`. */
  method ExitCollection(ctx: Context) returns (ok: bool)
    requires ctx.frames != [] && FramesOk(ctx.frames)
    modifies ctx`frames
    ensures Applied(old(ctx.frames), ctx.frames, ok, Exit(old(ctx.frames)))
    ensures ok ==> |ctx.frames| == |old(ctx.frames)| - 1
    ensures ctx.frames != [] && FramesOk(ctx.frames)
  {
    if |ctx.frames| == 1 {
      return false;
    }
    var child := Current(ctx.frames);
    var rest := ctx.frames[..|ctx.frames| - 1];
    if child.fromParse {
      ctx.frames := rest;
      assert FramesOk(rest) by {
        assert forall k | 0 <= k < |rest| :: rest[k] == old(ctx.frames)[k];
      }
      return true;
    }
    ExitWritesBack(ctx.frames);
    var parent := Current(rest);
    ctx.frames := SetCurrent(rest, parent.(coll := SetLast(parent.coll, child.coll.AsValue())));
    return true;
  }

  /** `ubjson_ctx_add_kv_pair`: the key is copied up to its NUL, the storage
      grows 0, 4, 8, ... and the pair goes at position count. */
  method AddKvPair(ctx: Context, key: seq<byte>, v: Value) returns (ok: bool)
    requires ctx.frames != [] && FramesOk(ctx.frames)
    requires Current(ctx.frames).coll.ObjectColl? ==> !Current(ctx.frames).fromParse
    modifies ctx`frames
    ensures Applied(old(ctx.frames), ctx.frames, ok, AddPair(old(ctx.frames), key, v))
    ensures ctx.frames != [] && FramesOk(ctx.frames)
  {
    var cur := Current(ctx.frames);
    if !cur.coll.ObjectColl? {
      return false;
    }
    var keyCopy := CStr(key);
    var capacity := cur.coll.capacity;
    if |cur.coll.pairs| + 1 > capacity {
      if capacity != 0 {
        capacity := capacity * 2;
      } else {
        capacity := 4;
      }
    }
    AddPairOk(ctx.frames, key, v);
    ctx.frames := SetCurrent(ctx.frames, cur.(coll := ObjectColl(cur.coll.pairs + [KvPair(keyCopy, v)], capacity)));
    return true;
  }

  /** `ubjson_ctx_add`: the array counterpart of AddKvPair. */
  method Add(ctx: Context, v: Value) returns (ok: bool)
    requires ctx.frames != [] && FramesOk(ctx.frames)
    requires Current(ctx.frames).coll.ArrayColl? ==> !Current(ctx.frames).fromParse
    modifies ctx`frames
    ensures Applied(old(ctx.frames), ctx.frames, ok, AddItem(old(ctx.frames), v))
    ensures ctx.frames != [] && FramesOk(ctx.frames)
  {
    var cur := Current(ctx.frames);
    if !cur.coll.ArrayColl? {
      return false;
    }
    var capacity := cur.coll.capacity;
    if |cur.coll.items| + 1 > capacity {
      if capacity != 0 {
        capacity := capacity * 2;
      } else {
        capacity := 4;
      }
    }
    AddItemOk(ctx.frames, v);
    ctx.frames := SetCurrent(ctx.frames, cur.(coll := ArrayColl(cur.coll.items + [v], capacity)));
    return true;
  }

  // ---- The typed wrappers of add_kv_pair ----

  /** `ubjson_ctx_add_kv_pair_object`: an empty object under key. */
  method AddKvPairObject(ctx: Context, key: seq<byte>) returns (ok: bool)
    requires ctx.frames != [] && FramesOk(ctx.frames)
    requires Current(ctx.frames).coll.ObjectColl? ==> !Current(ctx.frames).fromParse
    modifies ctx`frames
    ensures Applied(old(ctx.frames), ctx.frames, ok, AddPair(old(ctx.frames), key, Object([])))
    ensures ctx.frames != [] && FramesOk(ctx.frames)
  {
    ok := AddKvPair(ctx, key, Object([]));
  }

  /** `ubjson_ctx_add_kv_pair_array`: an empty array under key. */
  method AddKvPairArray(ctx: Context, key: seq<byte>) returns (ok: bool)
    requires ctx.frames != [] && FramesOk(ctx.frames)
    requires Current(ctx.frames).coll.ObjectColl? ==> !Current(ctx.frames).fromParse
    modifies ctx`frames
    ensures Applied(old(ctx.frames), ctx.frames, ok, AddPair(old(ctx.frames), key, Array([])))
    ensures ctx.frames != [] && FramesOk(ctx.frames)
  {
    ok := AddKvPair(ctx, key, Array([]));
  }

  method AddKvPairInt8(ctx: Context, key: seq<byte>, x: i8) returns (ok: bool)
    requires ctx.frames != [] && FramesOk(ctx.frames)
    requires Current(ctx.frames).coll.ObjectColl? ==> !Current(ctx.frames).fromParse
    modifies ctx`frames
    ensures Applied(old(ctx.frames), ctx.frames, ok, AddPair(old(ctx.frames), key, Int8(x)))
    ensures ctx.frames != [] && FramesOk(ctx.frames)
  {
    ok := AddKvPair(ctx, key, Int8(x));
  }

  method AddKvPairUInt8(ctx: Context, key: seq<byte>, x: u8) returns (ok: bool)
    requires ctx.frames != [] && FramesOk(ctx.frames)
    requires Current(ctx.frames).coll.ObjectColl? ==> !Current(ctx.frames).fromParse
    modifies ctx`frames
    ensures Applied(old(ctx.frames), ctx.frames, ok, AddPair(old(ctx.frames), key, UInt8(x)))
    ensures ctx.frames != [] && FramesOk(ctx.frames)
  {
    ok := AddKvPair(ctx, key, UInt8(x));
  }

  method AddKvPairInt16(ctx: Context, key: seq<byte>, x: i16) returns (ok: bool)
    requires ctx.frames != [] && FramesOk(ctx.frames)
    requires Current(ctx.frames).coll.ObjectColl? ==> !Current(ctx.frames).fromParse
    modifies ctx`frames
    ensures Applied(old(ctx.frames), ctx.frames, ok, AddPair(old(ctx.frames), key, Int16(x)))
    ensures ctx.frames != [] && FramesOk(ctx.frames)
  {
    ok := AddKvPair(ctx, key, Int16(x));
  }

  method AddKvPairInt32(ctx: Context, key: seq<byte>, x: i32) returns (ok: bool)
    requires ctx.frames != [] && FramesOk(ctx.frames)
    requires Current(ctx.frames).coll.ObjectColl? ==> !Current(ctx.frames).fromParse
    modifies ctx`frames
    ensures Applied(old(ctx.frames), ctx.frames, ok, AddPair(old(ctx.frames), key, Int32(x)))
    ensures ctx.frames != [] && FramesOk(ctx.frames)
  {
    ok := AddKvPair(ctx, key, Int32(x));
  }

  method AddKvPairInt64(ctx: Context, key: seq<byte>, x: i64) returns (ok: bool)
    requires ctx.frames != [] && FramesOk(ctx.frames)
    requires Current(ctx.frames).coll.ObjectColl? ==> !Current(ctx.frames).fromParse
    modifies ctx`frames
    ensures Applied(old(ctx.frames), ctx.frames, ok, AddPair(old(ctx.frames), key, Int64(x)))
    ensures ctx.frames != [] && FramesOk(ctx.frames)
  {
    ok := AddKvPair(ctx, key, Int64(x));
  }

  method AddKvPairFloat32(ctx: Context, key: seq<byte>, x: Float32Bits) returns (ok: bool)
    requires ctx.frames != [] && FramesOk(ctx.frames)
    requires Current(ctx.frames).coll.ObjectColl? ==> !Current(ctx.frames).fromParse
    modifies ctx`frames
    ensures Applied(old(ctx.frames), ctx.frames, ok, AddPair(old(ctx.frames), key, Float32(x)))
    ensures ctx.frames != [] && FramesOk(ctx.frames)
  {
    ok := AddKvPair(ctx, key, Float32(x));
  }

  method AddKvPairFloat64(ctx: Context, key: seq<byte>, x: Float64Bits) returns (ok: bool)
    requires ctx.frames != [] && FramesOk(ctx.frames)
    requires Current(ctx.frames).coll.ObjectColl? ==> !Current(ctx.frames).fromParse
    modifies ctx`frames
    ensures Applied(old(ctx.frames), ctx.frames, ok, AddPair(old(ctx.frames), key, Float64(x)))
    ensures ctx.frames != [] && FramesOk(ctx.frames)
  {
    ok := AddKvPair(ctx, key, Float64(x));
  }

  method AddKvPairCharacter(ctx: Context, key: seq<byte>, c: u8) returns (ok: bool)
    requires ctx.frames != [] && FramesOk(ctx.frames)
    requires Current(ctx.frames).coll.ObjectColl? ==> !Current(ctx.frames).fromParse
    modifies ctx`frames
    ensures Applied(old(ctx.frames), ctx.frames, ok, AddPair(old(ctx.frames), key, Char(c)))
    ensures ctx.frames != [] && FramesOk(ctx.frames)
  {
    ok := AddKvPair(ctx, key, Char(c));
  }

  /** `ubjson_ctx_add_kv_pair_string`: the value is copied up to its NUL. */
  method AddKvPairString(ctx: Context, key: seq<byte>, s: seq<byte>) returns (ok: bool)
    requires ctx.frames != [] && FramesOk(ctx.frames)
    requires Current(ctx.frames).coll.ObjectColl? ==> !Current(ctx.frames).fromParse
    modifies ctx`frames
    ensures Applied(old(ctx.frames), ctx.frames, ok, AddPair(old(ctx.frames), key, String(CStr(s))))
    ensures ctx.frames != [] && FramesOk(ctx.frames)
  {
    var copy := CStr(s);
    ok := AddKvPair(ctx, key, String(copy));
  }

  // ---- The typed wrappers of add ----

  /** `ubjson_ctx_add_object`: an empty object at the end of the array. */
  method AddObject(ctx: Context) returns (ok: bool)
    requires ctx.frames != [] && FramesOk(ctx.frames)
    requires Current(ctx.frames).coll.ArrayColl? ==> !Current(ctx.frames).fromParse
    modifies ctx`frames
    ensures Applied(old(ctx.frames), ctx.frames, ok, AddItem(old(ctx.frames), Object([])))
    ensures ctx.frames != [] && FramesOk(ctx.frames)
  {
    ok := Add(ctx, Object([]));
  }

  /** `ubjson_ctx_add_array`: an empty array at the end of the array. */
  method AddArray(ctx: Context) returns (ok: bool)
    requires ctx.frames != [] && FramesOk(ctx.frames)
    requires Current(ctx.frames).coll.ArrayColl? ==> !Current(ctx.frames).fromParse
    modifies ctx`frames
    ensures Applied(old(ctx.frames), ctx.frames, ok, AddItem(old(ctx.frames), Array([])))
    ensures ctx.frames != [] && FramesOk(ctx.frames)
  {
    ok := Add(ctx, Array([]));
  }

  method AddInt8(ctx: Context, x: i8) returns (ok: bool)
    requires ctx.frames != [] && FramesOk(ctx.frames)
    requires Current(ctx.frames).coll.ArrayColl? ==> !Current(ctx.frames).fromParse
    modifies ctx`frames
    ensures Applied(old(ctx.frames), ctx.frames, ok, AddItem(old(ctx.frames), Int8(x)))
    ensures ctx.frames != [] && FramesOk(ctx.frames)
  {
    ok := Add(ctx, Int8(x));
  }

  method AddUInt8(ctx: Context, x: u8) returns (ok: bool)
    requires ctx.frames != [] && FramesOk(ctx.frames)
    requires Current(ctx.frames).coll.ArrayColl? ==> !Current(ctx.frames).fromParse
    modifies ctx`frames
    ensures Applied(old(ctx.frames), ctx.frames, ok, AddItem(old(ctx.frames), UInt8(x)))
    ensures ctx.frames != [] && FramesOk(ctx.frames)
  {
    ok := Add(ctx, UInt8(x));
  }

  method AddInt16(ctx: Context, x: i16) returns (ok: bool)
    requires ctx.frames != [] && FramesOk(ctx.frames)
    requires Current(ctx.frames).coll.ArrayColl? ==> !Current(ctx.frames).fromParse
    modifies ctx`frames
    ensures Applied(old(ctx.frames), ctx.frames, ok, AddItem(old(ctx.frames), Int16(x)))
    ensures ctx.frames != [] && FramesOk(ctx.frames)
  {
    ok := Add(ctx, Int16(x));
  }

  method AddInt32(ctx: Context, x: i32) returns (ok: bool)
    requires ctx.frames != [] && FramesOk(ctx.frames)
    requires Current(ctx.frames).coll.ArrayColl? ==> !Current(ctx.frames).fromParse
    modifies ctx`frames
    ensures Applied(old(ctx.frames), ctx.frames, ok, AddItem(old(ctx.frames), Int32(x)))
    ensures ctx.frames != [] && FramesOk(ctx.frames)
  {
    ok := Add(ctx, Int32(x));
  }

  method AddInt64(ctx: Context, x: i64) returns (ok: bool)
    requires ctx.frames != [] && FramesOk(ctx.frames)
    requires Current(ctx.frames).coll.ArrayColl? ==> !Current(ctx.frames).fromParse
    modifies ctx`frames
    ensures Applied(old(ctx.frames), ctx.frames, ok, AddItem(old(ctx.frames), Int64(x)))
    ensures ctx.frames != [] && FramesOk(ctx.frames)
  {
    ok := Add(ctx, Int64(x));
  }

  method AddFloat32(ctx: Context, x: Float32Bits) returns (ok: bool)
    requires ctx.frames != [] && FramesOk(ctx.frames)
    requires Current(ctx.frames).coll.ArrayColl? ==> !Current(ctx.frames).fromParse
    modifies ctx`frames
    ensures Applied(old(ctx.frames), ctx.frames, ok, AddItem(old(ctx.frames), Float32(x)))
    ensures ctx.frames != [] && FramesOk(ctx.frames)
  {
    ok := Add(ctx, Float32(x));
  }

  method AddFloat64(ctx: Context, x: Float64Bits) returns (ok: bool)
    requires ctx.frames != [] && FramesOk(ctx.frames)
    requires Current(ctx.frames).coll.ArrayColl? ==> !Current(ctx.frames).fromParse
    modifies ctx`frames
    ensures Applied(old(ctx.frames), ctx.frames, ok, AddItem(old(ctx.frames), Float64(x)))
    ensures ctx.frames != [] && FramesOk(ctx.frames)
  {
    ok := Add(ctx, Float64(x));
  }

  method AddCharacter(ctx: Context, c: u8) returns (ok: bool)
    requires ctx.frames != [] && FramesOk(ctx.frames)
    requires Current(ctx.frames).coll.ArrayColl? ==> !Current(ctx.frames).fromParse
    modifies ctx`frames
    ensures Applied(old(ctx.frames), ctx.frames, ok, AddItem(old(ctx.frames), Char(c)))
    ensures ctx.frames != [] && FramesOk(ctx.frames)
  {
    ok := Add(ctx, Char(c));
  }

  /** `ubjson_ctx_add_string`: the value is copied up to its NUL. */
  method AddString(ctx: Context, s: seq<byte>) returns (ok: bool)
    requires ctx.frames != [] && FramesOk(ctx.frames)
    requires Current(ctx.frames).coll.ArrayColl? ==> !Current(ctx.frames).fromParse
    modifies ctx`frames
    ensures Applied(old(ctx.frames), ctx.frames, ok, AddItem(old(ctx.frames), String(CStr(s))))
    ensures ctx.frames != [] && FramesOk(ctx.frames)
  {
    var copy := CStr(s);
    ok := Add(ctx, String(copy));
  }
}
