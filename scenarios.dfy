/** The library as its two users drive it: the daemon in foobard.c and the
    player plugin in foo_mpris/src/socket.cpp exchange one-object frames,
    built through the cursor and rendered, or parsed and read back. */
module Scenarios {
  import opened Bytes
  import opened Ubjson
  import opened Cursor
  import opened Encoding
  import opened Grammar
  import opened RoundTrip
  import Parse
  import Create
  import Render
  import Read

  /** The bytes of a printable ASCII text; none of them is NUL. */
  function Ascii(s: string): (r: seq<byte>)
    requires forall k | 0 <= k < |s| :: ' ' <= s[k] <= '~'
    ensures |r| == |s| && NulFree(r)
  {
    seq(|s|, k requires 0 <= k < |s| => s[k] as int)
  }

  const COMMAND: seq<byte> := Ascii("command")
  const HELLO_TEXT: seq<byte> := Ascii("hello")
  const PING_KEY: seq<byte> := Ascii("ping")

  /** `{i\x07commandSi\x05hello}`: the handshake frame the plugin sends and
      the daemon compares byte for byte. */
  const HELLO: seq<byte> :=
    [OBJECT_OPEN, INT8_MARKER, 7] + COMMAND + [STRING_MARKER, INT8_MARKER, 5] + HELLO_TEXT + [OBJECT_CLOSE]

  /** `{i\x04pingN}`: the keep-alive frame both sides send and compare. */
  const PING: seq<byte> := [OBJECT_OPEN, INT8_MARKER, 4] + PING_KEY + [NOOP_MARKER, OBJECT_CLOSE]

  /** The tree of the handshake frame: one member, "command" set to "hello". */
  const HELLO_TREE: Value := Object([KvPair(COMMAND, String(HELLO_TEXT))])

  /** An object with one member whose NUL-free key is shorter than 128
      bytes renders as `{`, `i`, the key length in one byte, the key, the
      value, `}`. */
  lemma ShortMemberObject(key: seq<byte>, v: Value)
    requires NulFree(key) && |key| <= INT8_MAX
    ensures EncodeValue(Object([KvPair(key, v)])) == [OBJECT_OPEN, INT8_MARKER, |key|] + key + EncodeValue(v) + [OBJECT_CLOSE]
  {
    var p := KvPair(key, v);
    KeyLayout(key);
    LengthPrefixCases(|key|);
    assert EncodePairs([p]) == Member(p) + EncodePairs([]);
  }

  /** A NUL-free string value shorter than 128 bytes renders as `S`, `i`,
      its length in one byte, then its bytes. */
  lemma ShortStringValue(s: seq<byte>)
    requires NulFree(s) && |s| <= INT8_MAX
    ensures EncodeValue(String(s)) == [STRING_MARKER, INT8_MARKER, |s|] + s
  {
    KeyLayout(s);
    LengthPrefixCases(|s|);
  }

  /** The handshake frame is the rendering of its tree, a tree the parser
      reads back. */
  lemma HelloLayout()
    ensures EncodeValue(HELLO_TREE) == HELLO
    ensures WellFormed(HELLO_TREE)
  {
    ShortMemberObject(COMMAND, String(HELLO_TEXT));
    ShortStringValue(HELLO_TEXT);
    Regroup(OBJECT_OPEN, [INT8_MARKER, 7] + COMMAND, [STRING_MARKER, INT8_MARKER, 5] + HELLO_TEXT, OBJECT_CLOSE);
  }

  lemma Regroup(open: byte, a: seq<byte>, b: seq<byte>, close: byte)
    ensures [open] + a + b + [close] == [open] + (a + b + [close])
  {
  }

  /** The keep-alive frame is the rendering of `{"ping": no-op}`. */
  lemma PingLayout()
    ensures EncodeValue(Object([KvPair(PING_KEY, NoOp)])) == PING
  {
    ShortMemberObject(PING_KEY, NoOp);
  }

  /** `SEND_SIMPLE_PACKET("hello")` of foobard.c: create an object, add the
      string member "command", render the construction. The output buffer
      holds exactly the handshake frame. */
  method SendHello() returns (frame: seq<byte>)
    ensures frame == HELLO
  {
    var ctx := new Context.Init([]);
    var ok := Create.CreateObject(ctx);
    ok := Create.AddKvPairString(ctx, COMMAND, HELLO_TEXT);
    CStrNulFree(COMMAND);
    CStrNulFree(HELLO_TEXT);
    assert ctx.frames[0].coll.AsValue() == HELLO_TREE;
    ok := Render.RenderCreation(ctx);
    HelloLayout();
    frame := ctx.rendered;
  }

  /** The keep-alive frame, which socket.cpp sends as a literal: building
      an object whose one member "ping" holds a no-op through the cursor
      and rendering it reproduces that literal byte for byte. */
  method SendPing() returns (frame: seq<byte>)
    ensures frame == PING
  {
    var ctx := new Context.Init([]);
    var ok := Create.CreateObject(ctx);
    ok := Create.AddKvPair(ctx, PING_KEY, NoOp);
    CStrNulFree(PING_KEY);
    assert ctx.frames[0].coll.AsValue() == Object([KvPair(PING_KEY, NoOp)]);
    ok := Render.RenderCreation(ctx);
    PingLayout();
    frame := ctx.rendered;
  }

  /** The daemon's receive pattern (parse, then `read_kv_pair` of the first
      member as a string, as foobard.c does with a status reply) applied to
      the handshake frame, which neither program parses itself. The parse
      succeeds, the key is "command" and the value read is a copy of
      "hello". */
  method ReceiveHello() returns (ok: bool, key: Option<seq<byte>>, out: Read.Out)
    ensures ok && key == Some(COMMAND) && out == Read.Str(HELLO_TEXT)
  {
    var ctx := new Context.Init(HELLO);
    HelloDocument();
    ok := Parse.Parse(ctx);
    HelloRead();
    ok, key, out := Read.ReadKvPair(ctx, true, true, TagString);
  }

  /** The handshake frame parses as one complete document, and its root
      frame holds the one member with the first growth step's capacity. */
  lemma HelloDocument()
    ensures Document(HELLO, 0) == Some((HELLO_TREE, Some(|HELLO|)))
    ensures CollectionOf(HELLO_TREE) == ObjectColl([KvPair(COMMAND, String(HELLO_TEXT))], 4)
  {
    HelloLayout();
    DocumentRoundTrip(HELLO_TREE);
    assert Capacity(1) == 4;
  }

  /** Reading the handshake member as a string copies out its key and its text. */
  lemma HelloRead()
    ensures CStr(COMMAND) == COMMAND
    ensures Read.ReadValue(String(HELLO_TEXT), TagString, true) == (true, Read.Str(HELLO_TEXT))
  {
    CStrNulFree(COMMAND);
    CStrNulFree(HELLO_TEXT);
    Read.ReadOwnTag(String(HELLO_TEXT), TagString);
  }

  /** `[ZZ` leaves the array loop on its second element: the last byte of the
      input can never be consumed. */
  lemma TruncatedDocument()
    ensures Document([ARRAY_OPEN, NULL_MARKER, NULL_MARKER], 0) == Some((Array([Null]), None))
  {
    var src := [ARRAY_OPEN, NULL_MARKER, NULL_MARKER];
    assert ParseValue(src, 1) == Some((Null, 2));
    assert ParseValue(src, 2) == None;
    assert ArrayItems(src, 2, [Null]) == Partial([Null], None);
    assert ArrayItems(src, 1, []) == Partial([Null], None);
  }

  /** `[Z]` is a complete document ending at the last byte. */
  lemma ClosedArrayDocument()
    ensures Document([ARRAY_OPEN, NULL_MARKER, ARRAY_CLOSE], 0) == Some((Array([Null]), Some(3)))
  {
    var src := [ARRAY_OPEN, NULL_MARKER, ARRAY_CLOSE];
    assert ParseValue(src, 1) == Some((Null, 2));
    assert ArrayItems(src, 2, [Null]) == Partial([Null], Some(3));
    assert ArrayItems(src, 1, []) == Partial([Null], Some(3));
  }

  /** `[ZZ`: the parse fails, the root keeps the one element read so far and
      no frame is installed. */
  method ParseTruncated() returns (ok: bool, root: Value, frames: seq<Frame>)
    ensures !ok && root == Array([Null]) && frames == []
  {
    var ctx := new Context.Init([ARRAY_OPEN, NULL_MARKER, NULL_MARKER]);
    TruncatedDocument();
    ok := Parse.Parse(ctx);
    root, frames := ctx.root, ctx.frames;
  }

  /** `[Z]`: the parse succeeds and the cursor stands at the start of the
      parsed array, whose capacity is the first growth step's. */
  method ParseClosedArray() returns (ok: bool, root: Value, frames: seq<Frame>)
    ensures ok && root == Array([Null])
    ensures frames == [Frame(ArrayColl([Null], 4), 0, true)]
  {
    var ctx := new Context.Init([ARRAY_OPEN, NULL_MARKER, ARRAY_CLOSE]);
    ClosedArrayDocument();
    ok := Parse.Parse(ctx);
    assert Capacity(1) == 4;
    root, frames := ctx.root, ctx.frames;
  }

  /** The stacks of the nested-array construction: an array holding an
      empty array, the same with a frame entered on the inner array, one
      element added there, and the inner array written back on exit. */
  const NESTED_1: seq<Frame> := [Frame(ArrayColl([Array([])], 4), 0, false)]
  const NESTED_2: seq<Frame> := NESTED_1 + [Frame(ArrayColl([], 0), 0, false)]
  const NESTED_3: seq<Frame> := NESTED_1 + [Frame(ArrayColl([Int8(1)], 4), 0, false)]
  const NESTED_4: seq<Frame> := [Frame(ArrayColl([Array([Int8(1)])], 4), 0, false)]

  lemma NestedSteps()
    ensures AddItem(Created(false), Array([])) == Some(NESTED_1)
    ensures Enter(NESTED_1) == Some(NESTED_2)
    ensures AddItem(NESTED_2, Int8(1)) == Some(NESTED_3)
    ensures Exit(NESTED_3) == Some(NESTED_4)
  {
    assert Created(false) == [Frame(ArrayColl([], 0), 0, false)];
    assert PushItem(ArrayColl([], 0), Array([])) == ArrayColl([Array([])], 4);
    assert SetCurrent(Created(false), NESTED_1[0]) == NESTED_1;
    assert Current(NESTED_1).Target() == Array([]);
    assert CollectionOf(Array([])) == ArrayColl([], 0);
    assert [Frame(CollectionOf(Array([])), 0, false)] == [Frame(ArrayColl([], 0), 0, false)];
    assert Enter(NESTED_1) == Some(NESTED_1 + [Frame(CollectionOf(Array([])), 0, false)]);
    assert PushItem(ArrayColl([], 0), Int8(1)) == ArrayColl([Int8(1)], 4);
    assert NESTED_3[..1] == NESTED_1;
    assert Current(NESTED_3).coll.AsValue() == Array([Int8(1)]);
    assert SetLast(ArrayColl([Array([])], 4), Array([Int8(1)])) == ArrayColl([Array([Int8(1)])], 4);
    assert SetCurrent(NESTED_1, Frame(ArrayColl([Array([Int8(1)])], 4), 0, false)) == NESTED_4;
  }

  lemma NestedEncodings()
    ensures EncodeValue(Array([Array([])])) == [ARRAY_OPEN, ARRAY_OPEN, ARRAY_CLOSE, ARRAY_CLOSE]
    ensures EncodeValue(Array([Array([Int8(1)])])) == [ARRAY_OPEN, ARRAY_OPEN, INT8_MARKER, 1, ARRAY_CLOSE, ARRAY_CLOSE]
  {
    assert EncodeItems([Array([])]) == EncodeValue(Array([])) + EncodeItems([]);
    EncodeSignedByte(1);
    assert EncodeItems([Int8(1)]) == EncodeValue(Int8(1)) + EncodeItems([]);
    assert EncodeItems([Array([Int8(1)])]) == EncodeValue(Array([Int8(1)])) + EncodeItems([]);
  }

  /** An element added inside an open nested array is not rendered: the
      construction renders as `[[]]` until exit_collection writes the inner
      array back, and as `[[i\x01]]` after; the second rendering is appended
      to the first. */
  method NestedRendering() returns (before: seq<byte>, after: seq<byte>)
    ensures before == [ARRAY_OPEN, ARRAY_OPEN, ARRAY_CLOSE, ARRAY_CLOSE]
    ensures after == before + [ARRAY_OPEN, ARRAY_OPEN, INT8_MARKER, 1, ARRAY_CLOSE, ARRAY_CLOSE]
  {
    NestedSteps();
    NestedEncodings();
    var ctx := new Context.Init([]);
    var ok := Create.CreateArray(ctx);
    ok := Create.AddArray(ctx);
    ok := Create.EnterCollection(ctx);
    ok := Create.AddInt8(ctx, 1);
    assert ctx.frames == NESTED_3;
    ok := Render.RenderCreation(ctx);
    before := ctx.rendered;
    ok := Create.ExitCollection(ctx);
    assert ctx.frames == NESTED_4;
    ok := Render.RenderCreation(ctx);
    after := ctx.rendered;
  }
}
