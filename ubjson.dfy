/** The UBJSON value model and the codec's context state (ubjson/ubjson.h). */
module Ubjson {
  import opened Bytes

  datatype Option<T> = None | Some(value: T)

  // Fixed-width payload types of the value union.
  type i8 = x: int | -0x80 <= x < 0x80
  type u8 = x: int | 0 <= x < 0x100
  type i16 = x: int | -0x8000 <= x < 0x8000
  type i32 = x: int | -0x8000_0000 <= x < 0x8000_0000
  type i64 = x: int | -0x8000_0000_0000_0000 <= x < 0x8000_0000_0000_0000

  /** The raw native-order bytes of a `float` / `double`; no arithmetic is done on them. */
  type Float32Bits = s: seq<byte> | |s| == 4 witness [0, 0, 0, 0]
  type Float64Bits = s: seq<byte> | |s| == 8 witness [0, 0, 0, 0, 0, 0, 0, 0]

  const INT8_MAX := 0x7F
  const UINT8_MAX := 0xFF
  const INT16_MAX := 0x7FFF
  const INT32_MAX := 0x7FFF_FFFF
  const INT64_MAX := 0x7FFF_FFFF_FFFF_FFFF

  /** `enum ubjson_type`: the sixteen tags a value can carry. */
  datatype Tag =
    | TagNull | TagNoOp | TagTrue | TagFalse
    | TagInt8 | TagUInt8 | TagInt16 | TagInt32 | TagInt64
    | TagFloat32 | TagFloat64 | TagHighPrecision
    | TagChar | TagString | TagArray | TagObject

  /** `struct ubjson_value`: one tag and the union member that belongs to it.
      High precision has a tag but no union member. Arrays and objects are
      ordered; object keys are positional and may repeat. */
  datatype Value =
    | Null
    | NoOp
    | True
    | False
    | Int8(i8: i8)
    | UInt8(u8: u8)
    | Int16(i16: i16)
    | Int32(i32: i32)
    | Int64(i64: i64)
    | Float32(f32: Float32Bits)
    | Float64(f64: Float64Bits)
    | HighPrecision
    | Char(c: byte)
    | String(s: seq<byte>)
    | Array(items: seq<Value>)
    | Object(pairs: seq<KvPair>)

  /** `struct ubjson_kv_pair`. */
  datatype KvPair = KvPair(key: seq<byte>, value: Value)

  function TagOf(v: Value): Tag
  {
    match v
    case Null => TagNull
    case NoOp => TagNoOp
    case True => TagTrue
    case False => TagFalse
    case Int8(_) => TagInt8
    case UInt8(_) => TagUInt8
    case Int16(_) => TagInt16
    case Int32(_) => TagInt32
    case Int64(_) => TagInt64
    case Float32(_) => TagFloat32
    case Float64(_) => TagFloat64
    case HighPrecision => TagHighPrecision
    case Char(_) => TagChar
    case String(_) => TagString
    case Array(_) => TagArray
    case Object(_) => TagObject
  }

  predicate IsCollection(v: Value)
  {
    v.Array? || v.Object?
  }

  // Marker bytes of the wire format.
  const NULL_MARKER: byte := 'Z' as int
  const NOOP_MARKER: byte := 'N' as int
  const TRUE_MARKER: byte := 'T' as int
  const FALSE_MARKER: byte := 'F' as int
  const INT8_MARKER: byte := 'i' as int
  const UINT8_MARKER: byte := 'U' as int
  const INT16_MARKER: byte := 'I' as int
  const INT32_MARKER: byte := 'l' as int
  const INT64_MARKER: byte := 'L' as int
  const FLOAT32_MARKER: byte := 'd' as int
  const FLOAT64_MARKER: byte := 'D' as int
  const CHAR_MARKER: byte := 'C' as int
  const STRING_MARKER: byte := 'S' as int
  const ARRAY_OPEN: byte := '[' as int
  const ARRAY_CLOSE: byte := ']' as int
  const OBJECT_OPEN: byte := '{' as int
  const OBJECT_CLOSE: byte := '}' as int

  /** Payload width of the integer markers `i U I l L`; 0 for any other byte. */
  function IntWidth(m: byte): nat
  {
    if m == INT8_MARKER || m == UINT8_MARKER then 1
    else if m == INT16_MARKER then 2
    else if m == INT32_MARKER then 4
    else if m == INT64_MARKER then 8
    else 0
  }

  predicate IsIntMarker(m: byte)
  {
    IntWidth(m) > 0
  }

  /** The storage growth step shared by parsing and construction: when the
      next element does not fit, 0 becomes 4 and anything else doubles. */
  function Grow(capacity: nat, count: nat): nat
  {
    if count + 1 > capacity then (if capacity != 0 then capacity * 2 else 4) else capacity
  }

  /** The capacity a collection has after `count` appends starting from empty. */
  function Capacity(count: nat): nat
  {
    if count == 0 then 0 else Grow(Capacity(count - 1), count - 1)
  }

  /** Capacity never falls short of the count and wastes at most about half. */
  lemma {:induction false} CapacityBounds(count: nat)
    ensures count <= Capacity(count)
    ensures count == 0 <==> Capacity(count) == 0
    ensures count > 0 ==> Capacity(count) <= 2 * count + 2
  {
    if count > 0 {
      CapacityBounds(count - 1);
    }
  }

  /** `union ubjson_object_or_array` together with its `type`: the collection a
      frame or the parsed root holds, with the storage capacity it has reserved. */
  datatype Collection =
    | ObjectColl(pairs: seq<KvPair>, capacity: nat)
    | ArrayColl(items: seq<Value>, capacity: nat)
  {
    function Count(): nat
    {
      if ObjectColl? then |pairs| else |items|
    }

    /** The value of the element at position k. */
    function Element(k: nat): Value
      requires k < Count()
    {
      if ObjectColl? then pairs[k].value else items[k]
    }

    /** The collection as a value of the tree. */
    function AsValue(): (v: Value)
      ensures IsCollection(v)
    {
      if ObjectColl? then Object(pairs) else Array(items)
    }

    predicate CapacityOk()
    {
      capacity == Capacity(Count())
    }
  }

  /** The collection held by a collection value, with the capacity its appends gave it. */
  function CollectionOf(v: Value): (c: Collection)
    requires IsCollection(v)
    ensures c.AsValue() == v && c.CapacityOk()
  {
    if v.Object? then ObjectColl(v.pairs, Capacity(|v.pairs|)) else ArrayColl(v.items, Capacity(|v.items|))
  }

  /** `struct ubjson_collection_list` without its parent link: the stack of
      frames replaces the chain of parent pointers. */
  datatype Frame = Frame(coll: Collection, index: nat, fromParse: bool)
  {
    /** The read index stays on an element, or at 0 in an empty collection. */
    predicate Ok()
    {
      coll.CapacityOk() && (index < coll.Count() || index == 0)
    }

    /** The element `enter_collection` descends into: the one at the read index
        in a parsed frame, the last one in a construction frame. */
    function Target(): Value
      requires Ok() && coll.Count() > 0
    {
      if fromParse then coll.Element(index) else coll.Element(coll.Count() - 1)
    }
  }

  /** The frame above `parent` was entered from it: same origin, and the
      parent's target is a collection of the child's kind. */
  predicate Linked(parent: Frame, child: Frame)
    requires parent.Ok()
  {
    && parent.coll.Count() > 0
    && child.fromParse == parent.fromParse
    && (if child.coll.ObjectColl? then parent.Target().Object? else parent.Target().Array?)
  }

  /** A well-formed stack: frames[0] is the root frame, the last one is current. */
  predicate FramesOk(frames: seq<Frame>)
  {
    && (forall k | 0 <= k < |frames| :: frames[k].Ok())
    && (forall k | 0 < k < |frames| :: Linked(frames[k - 1], frames[k]))
  }

  /** The render buffer holds its bytes with room for one more, or has not
      been allocated yet (a zeroed context). */
  predicate BufferOk(rendered: seq<byte>, capacity: nat)
  {
    |rendered| < capacity || (rendered == [] && capacity == 0)
  }

  /** `struct ubjson_ctx`. The parsed root and the construction stack are
      independent; `rendered` is render_buf[0..render_index]. */
  class Context {
    var src: seq<byte>
    var srcIndex: nat
    var root: Value
    var frames: seq<Frame>
    var rendered: seq<byte>
    var renderCapacity: nat

    /** `ubjson_ctx_init`: a zeroed context owning a copy of the input bytes
        (a NULL buffer is the empty sequence). The zeroed root has tag NULL. */
    constructor Init(buf: seq<byte>)
      ensures src == buf && srcIndex == 0
      ensures root == Null && frames == []
      ensures rendered == [] && renderCapacity == 0
    {
      src := buf;
      srcIndex := 0;
      root := Null;
      frames := [];
      rendered := [];
      renderCapacity := 0;
    }
  }
}
