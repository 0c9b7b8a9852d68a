/** Reading through the cursor (ubjson/read.c). Reads take the element at the
    current frame's read index by copy and change nothing; only NextValue
    moves the index. The `out` pointer is modelled by a flag saying whether
    it is non-NULL and by the value written through it. */
module Read {
  import opened Bytes
  import opened Ubjson
  import opened Cursor

  /** What `ubjson_read_value` writes through `out`: nothing, a boolean, an
      integer, the raw float bytes, a char, a fresh copy of a string, or the
      element count of an array or object. */
  datatype Out =
    | Unwritten
    | Bool(b: bool)
    | Integer(x: int)
    | Float(bits: seq<byte>)
    | Character(c: byte)
    | Str(s: seq<byte>)
    | Count(n: nat)

  predicate IsBoolTag(t: Tag)
  {
    t == TagTrue || t == TagFalse
  }

  /** What a successful read of v writes, tag by tag. */
  function Payload(v: Value): Out
  {
    match v
    case Null => Unwritten
    case NoOp => Unwritten
    case True => Bool(true)
    case False => Bool(false)
    case Int8(x) => Integer(x)
    case UInt8(x) => Integer(x)
    case Int16(x) => Integer(x)
    case Int32(x) => Integer(x)
    case Int64(x) => Integer(x)
    case Float32(b) => Float(b)
    case Float64(b) => Float(b)
    case HighPrecision => Unwritten
    case Char(c) => Character(c)
    case String(s) => Str(CStr(s))
    case Array(items) => Count(|items|)
    case Object(pairs) => Count(|pairs|)
  }

  /** `ubjson_read_value`: the type check passes when the stored tag is the
      expected one or both are boolean tags; only then, and only with a
      non-NULL `out`, is the payload written. */
  function ReadValue(v: Value, expected: Tag, hasOut: bool): (r: (bool, Out))
    ensures r.0 <==> TagOf(v) == expected || (IsBoolTag(TagOf(v)) && IsBoolTag(expected))
    ensures !r.0 || !hasOut ==> r.1 == Unwritten
  {
    if !(IsBoolTag(TagOf(v)) && IsBoolTag(expected)) && TagOf(v) != expected then (false, Unwritten)
    else if !hasOut then (true, Unwritten)
    else (true, Payload(v))
  }

  /** Reading with the value's own tag always succeeds, and a boolean can be
      read as either boolean tag and yields its own truth value. */
  lemma {:induction false} ReadOwnTag(v: Value, expected: Tag)
    requires expected == TagOf(v) || (IsBoolTag(TagOf(v)) && IsBoolTag(expected))
    ensures ReadValue(v, expected, true) == (true, Payload(v))
    ensures v.True? || v.False? ==> ReadValue(v, expected, true).1 == Bool(v.True?)
  {
  }

  /** The type check is an equivalence whose only non-trivial class is the
      two boolean tags. */
  lemma {:induction false} TypeCheckEquivalence(a: Value, b: Value, t: Tag)
    ensures ReadValue(a, TagOf(a), false).0
    ensures ReadValue(a, TagOf(b), false).0 <==> ReadValue(b, TagOf(a), false).0
    ensures ReadValue(a, TagOf(b), false).0 && ReadValue(b, t, false).0 ==> ReadValue(a, t, false).0
  {
  }

  /** Reading gives back what construction stored: a scalar added by a typed
      `add_*` wrapper reads back as its argument, a string as its NUL-free
      copy, and a collection as its element count. */
  lemma {:induction false} ReadBackAdded(frames: seq<Frame>, v: Value)
    requires frames != [] && FramesOk(frames) && AddItem(frames, v).Some?
    ensures var r := AddItem(frames, v).value;
      var c := Current(r).coll;
      && c.Count() == Current(frames).coll.Count() + 1
      && ReadValue(c.Element(c.Count() - 1), TagOf(v), true) == (true, Payload(v))
      && (v.Int8? ==> Payload(v) == Integer(v.i8))
      && (v.String? ==> Payload(v) == Str(CStr(v.s)))
  {
    var r := AddItem(frames, v).value;
    assert Current(r).coll.items == Current(frames).coll.items + [v];
  }

  /** `ubjson_ctx_read_kv_pair`: on an object frame the key at the read index
      is copied out (when requested) before the type check, so it is written
      even when the value read fails. Indexing is unchecked in C, hence the
      precondition. */
  method ReadKvPair(ctx: Context, wantKey: bool, hasOut: bool, expected: Tag)
      returns (ok: bool, key: Option<seq<byte>>, out: Out)
    requires ctx.frames != []
    requires Current(ctx.frames).coll.ObjectColl? ==> Current(ctx.frames).index < Current(ctx.frames).coll.Count()
    ensures var cur := Current(ctx.frames);
      if !cur.coll.ObjectColl? then !ok && key == None && out == Unwritten
      else
        var p := cur.coll.pairs[cur.index];
        && key == (if wantKey then Some(CStr(p.key)) else None)
        && (ok, out) == ReadValue(p.value, expected, hasOut)
  {
    var cur := Current(ctx.frames);
    if !cur.coll.ObjectColl? {
      return false, None, Unwritten;
    }
    var p := cur.coll.pairs[cur.index];
    key := None;
    if wantKey {
      key := Some(CStr(p.key));
    }
    var r := ReadValue(p.value, expected, hasOut);
    ok, out := r.0, r.1;
  }

  /** `ubjson_ctx_read`: the array counterpart of ReadKvPair, without a key. */
  method ReadItem(ctx: Context, hasOut: bool, expected: Tag) returns (ok: bool, out: Out)
    requires ctx.frames != []
    requires Current(ctx.frames).coll.ArrayColl? ==> Current(ctx.frames).index < Current(ctx.frames).coll.Count()
    ensures var cur := Current(ctx.frames);
      if !cur.coll.ArrayColl? then !ok && out == Unwritten
      else (ok, out) == ReadValue(cur.coll.items[cur.index], expected, hasOut)
  {
    var cur := Current(ctx.frames);
    if !cur.coll.ArrayColl? {
      return false, Unwritten;
    }
    var r := ReadValue(cur.coll.items[cur.index], expected, hasOut);
    ok, out := r.0, r.1;
  }

  /** `ubjson_ctx_next_value`. */
  method NextValue(ctx: Context) returns (ok: bool)
    requires ctx.frames != [] && FramesOk(ctx.frames)
    modifies ctx`frames
    ensures Applied(old(ctx.frames), ctx.frames, ok, Next(old(ctx.frames)))
    ensures ctx.frames != [] && FramesOk(ctx.frames)
  {
    var cur := Current(ctx.frames);
    if cur.index + 1 >= cur.coll.Count() {
      return false;
    }
    NextOk(ctx.frames);
    ctx.frames := SetCurrent(ctx.frames, cur.(index := cur.index + 1));
    return true;
  }
}
