/** Messages that the daemon (foobard.c) and the player plugin
    (foo_mpris/src/socket.cpp) send each other, built through the
    construction cursor on one side, rendered, then parsed and read back
    through the read cursor on the other. */
module Exchanges {
  import opened Bytes
  import opened Ubjson
  import opened Cursor
  import opened Encoding
  import opened Grammar
  import opened RoundTrip
  import opened Scenarios
  import Parse
  import Create
  import Render
  import Read

  const SEEK: seq<byte> := Ascii("seek")
  const OFFSET: seq<byte> := Ascii("offset")
  const ARTIST: seq<byte> := Ascii("artist")

  /** The tree of a seek command. */
  function SeekTree(offset: i64): Value
  {
    Object([KvPair(COMMAND, String(SEEK)), KvPair(OFFSET, Int64(offset))])
  }

  /** A rendered tree parses into a root frame holding that tree, at index
      0, marked as parsed. */
  method Receive(bytes: seq<byte>, ghost tree: Value) returns (ctx: Context)
    requires WellFormed(tree) && IsCollection(tree) && bytes == EncodeValue(tree)
    ensures ctx.root == tree && ctx.frames == [Frame(CollectionOf(tree), 0, true)]
    ensures fresh(ctx)
  {
    ctx := new Context.Init(bytes);
    DocumentRoundTrip(tree);
    var ok := Parse.Parse(ctx);
  }

  /** `foobar2000_player_Seek`: an object with the command "seek" and the
      offset as an int64, rendered from the construction. */
  method SendSeek(offset: i64) returns (bytes: seq<byte>)
    ensures bytes == EncodeValue(SeekTree(offset))
  {
    var ctx := new Context.Init([]);
    var ok := Create.CreateObject(ctx);
    ok := Create.AddKvPairString(ctx, COMMAND, SEEK);
    ok := Create.AddKvPairInt64(ctx, OFFSET, offset);
    SeekKeys();
    assert ctx.frames[0].coll.AsValue() == SeekTree(offset);
    ok := Render.RenderCreation(ctx);
    bytes := ctx.rendered;
  }

  /** The keys and the command text are C strings without a NUL. */
  lemma SeekKeys()
    ensures CStr(COMMAND) == COMMAND && CStr(SEEK) == SEEK && CStr(OFFSET) == OFFSET
    ensures StringOk(COMMAND) && StringOk(SEEK) && StringOk(OFFSET)
  {
    CStrNulFree(COMMAND);
    CStrNulFree(SEEK);
    CStrNulFree(OFFSET);
  }

  /** An object of two members with C-string keys and well-formed values
      is a tree the parser reads back. */
  lemma TwoMembers(k1: seq<byte>, v1: Value, k2: seq<byte>, v2: Value)
    requires StringOk(k1) && WellFormed(v1) && StringOk(k2) && WellFormed(v2)
    ensures WellFormed(Object([KvPair(k1, v1), KvPair(k2, v2)]))
  {
    var pairs := [KvPair(k1, v1), KvPair(k2, v2)];
    assert forall k | 0 <= k < |pairs| :: StringOk(pairs[k].key) && WellFormed(pairs[k].value);
  }

  /** The seek tree is one the parser reads back; reading its members
      copies out the command and the offset. */
  lemma SeekReads(offset: i64)
    ensures WellFormed(SeekTree(offset)) && IsCollection(SeekTree(offset))
    ensures Read.ReadValue(String(SEEK), TagString, true) == (true, Read.Str(SEEK))
    ensures Read.ReadValue(Int64(offset), TagInt64, true) == (true, Read.Integer(offset))
  {
    SeekKeys();
    TwoMembers(COMMAND, String(SEEK), OFFSET, Int64(offset));
    Read.ReadOwnTag(String(SEEK), TagString);
    Read.ReadOwnTag(Int64(offset), TagInt64);
  }

  /** The daemon's seek command as the plugin's receive loop reads it: the
      command as a string without its key, then, after
      `ubjson_ctx_next_value`, the key "offset" and the offset, whatever its
      sign or size. */
  method SeekExchange(offset: i64) returns (command: Read.Out, key: Option<seq<byte>>, delta: Read.Out)
    ensures command == Read.Str(SEEK)
    ensures key == Some(OFFSET) && delta == Read.Integer(offset)
  {
    var bytes := SendSeek(offset);
    SeekReads(offset);
    var ctx := Receive(bytes, SeekTree(offset));
    SeekKeys();
    var ok, none;
    ok, none, command := Read.ReadKvPair(ctx, false, true, TagString);
    ok := Read.NextValue(ctx);
    ok, key, delta := Read.ReadKvPair(ctx, true, true, TagInt64);
  }

  /** The seek of five seconds, in microseconds. */
  method SeekFiveSeconds() returns (command: Read.Out, delta: Read.Out)
    ensures command == Read.Str(SEEK) && delta == Read.Integer(5000000)
  {
    var key;
    command, key, delta := SeekExchange(5000000);
  }

  // ---- The artist list of the metadata reply ----

  /** The artist names as string values. */
  function Strings(names: seq<seq<byte>>): (r: seq<Value>)
    ensures |r| == |names| && forall k | 0 <= k < |names| :: r[k] == String(names[k])
  {
    seq(|names|, k requires 0 <= k < |names| => String(names[k]))
  }

  /** The artist names as the daemon's reads copy them out. */
  function Copies(names: seq<seq<byte>>): (r: seq<Read.Out>)
    ensures |r| == |names| && forall k | 0 <= k < |names| :: r[k] == Read.Str(names[k])
  {
    seq(|names|, k requires 0 <= k < |names| => Read.Str(names[k]))
  }

  /** A one-member object whose value is an array of strings: the artist
      part of a metadata reply is `ListTree("artist", names)`. */
  function ListTree(key: seq<byte>, names: seq<seq<byte>>): Value
  {
    Object([KvPair(key, Array(Strings(names)))])
  }

  /** The root frame of a list reply while its array is open. */
  function ListTop(key: seq<byte>): Frame
  {
    Frame(ObjectColl([KvPair(key, Array([]))], Grow(0, 0)), 0, false)
  }

  /** `create_object`, `add_kv_pair_array` of the key and
      `enter_collection` on a fresh context: the enter succeeds onto the
      empty array. */
  method StartList(key: seq<byte>) returns (ctx: Context, entered: bool)
    requires NulFree(key)
    ensures entered
    ensures ctx.frames == [ListTop(key), Frame(ArrayColl([], 0), 0, false)]
    ensures ctx.rendered == [] && ctx.renderCapacity == 0
    ensures fresh(ctx)
  {
    ctx := new Context.Init([]);
    var ok := Create.CreateObject(ctx);
    ghost var empty := ctx.frames;
    ok := Create.AddKvPairArray(ctx, key);
    CStrNulFree(key);
    assert ok;
    assert ctx.frames == SetCurrent(empty, Current(empty).(coll := PushPair(Current(empty).coll, KvPair(key, Array([])))));
    assert PushPair(ObjectColl([], 0), KvPair(key, Array([]))) == ObjectColl([KvPair(key, Array([]))], Grow(0, 0));
    assert ctx.frames == [ListTop(key)];
    entered := Create.EnterCollection(ctx);
  }

  /** The plugin's loop: one `add_string` per name, in order, into the open
      array. */
  method AddNames(ctx: Context, ghost top: Frame, names: seq<seq<byte>>)
    requires forall k | 0 <= k < |names| :: NulFree(names[k])
    requires ctx.frames == [top, Frame(ArrayColl([], 0), 0, false)] && FramesOk(ctx.frames)
    modifies ctx`frames
    ensures ctx.frames == [top, Frame(ArrayColl(Strings(names), Capacity(|names|)), 0, false)]
    ensures FramesOk(ctx.frames)
  {
    for i := 0 to |names|
      invariant ctx.frames == [top, Frame(ArrayColl(Strings(names[..i]), Capacity(i)), 0, false)]
      invariant FramesOk(ctx.frames)
    {
      CStrNulFree(names[i]);
      var ok := Create.AddString(ctx, names[i]);
      assert Strings(names[..i + 1]) == Strings(names[..i]) + [String(names[i])];
    }
    TakeAll(names);
  }

  /** The plugin's metadata reply, list part: `add_kv_pair_array` of the
      key, `enter_collection`, one `add_string` per name in order,
      `exit_collection`, then `render_creation`. Entering and exiting
      succeed and the output is the rendering of the list tree. */
  method SendList(key: seq<byte>, names: seq<seq<byte>>) returns (bytes: seq<byte>, entered: bool, exited: bool)
    requires NulFree(key)
    requires forall k | 0 <= k < |names| :: NulFree(names[k])
    ensures entered && exited
    ensures bytes == EncodeValue(ListTree(key, names))
  {
    var ctx;
    ctx, entered := StartList(key);
    ghost var top := ListTop(key);
    AddNames(ctx, top, names);
    exited := Create.ExitCollection(ctx);
    assert exited;
    assert ctx.frames == SetCurrent([top], top.(coll := SetLast(top.coll, Array(Strings(names)))));
    assert SetLast(top.coll, Array(Strings(names))).pairs == [KvPair(key, Array(Strings(names)))];
    var ok := Render.RenderCreation(ctx);
    bytes := ctx.rendered;
  }

  /** The list tree is one the parser reads back, and reading its member
      as an array gives the number of names. */
  lemma ListReads(key: seq<byte>, names: seq<seq<byte>>)
    requires StringOk(key)
    requires forall k | 0 <= k < |names| :: StringOk(names[k])
    ensures WellFormed(ListTree(key, names)) && IsCollection(ListTree(key, names))
    ensures CStr(key) == key
    ensures Read.ReadValue(Array(Strings(names)), TagArray, true) == (true, Read.Count(|names|))
  {
    CStrNulFree(key);
    var items := Strings(names);
    assert forall k | 0 <= k < |items| :: WellFormed(items[k]);
    var pairs := [KvPair(key, Array(items))];
    assert forall k | 0 <= k < |pairs| :: StringOk(pairs[k].key) && WellFormed(pairs[k].value);
    Read.ReadOwnTag(Array(items), TagArray);
  }

  /** Reading one name copies it out whole. */
  lemma NameRead(name: seq<byte>)
    requires NulFree(name)
    ensures Read.ReadValue(String(name), TagString, true) == (true, Read.Str(name))
  {
    CStrNulFree(name);
    Read.ReadOwnTag(String(name), TagString);
  }

  /** The daemon's metadata read, list part, up to the loop: parse, read the
      member as an array to learn the count, `enter_collection`. */
  method OpenList(bytes: seq<byte>, ghost key: seq<byte>, ghost names: seq<seq<byte>>)
      returns (ctx: Context, name: Option<seq<byte>>, count: Read.Out, entered: bool)
    requires StringOk(key)
    requires forall k | 0 <= k < |names| :: StringOk(names[k])
    requires bytes == EncodeValue(ListTree(key, names))
    ensures name == Some(key) && count == Read.Count(|names|) && entered
    ensures ctx.frames == [Frame(CollectionOf(ListTree(key, names)), 0, true),
                           Frame(CollectionOf(Array(Strings(names))), 0, true)]
    ensures fresh(ctx)
  {
    ListReads(key, names);
    ctx := Receive(bytes, ListTree(key, names));
    var ok;
    ok, name, count := Read.ReadKvPair(ctx, true, true, TagArray);
    entered := Create.EnterCollection(ctx);
  }

  /** The daemon's loop over the entered array: for each index below the
      count read out, `ubjson_ctx_read` a string and
      `ubjson_ctx_next_value`. The names come out in order; the last step
      forward fails and leaves the index on the last name. */
  method ReadNames(ctx: Context, count: nat, ghost top: Frame, ghost names: seq<seq<byte>>)
      returns (copies: seq<Read.Out>)
    requires count == |names|
    requires forall k | 0 <= k < |names| :: NulFree(names[k])
    requires ctx.frames == [top, Frame(CollectionOf(Array(Strings(names))), 0, true)]
    requires FramesOk(ctx.frames)
    modifies ctx`frames
    ensures copies == Copies(names)
    ensures ctx.frames == [top, Frame(CollectionOf(Array(Strings(names))), if count == 0 then 0 else count - 1, true)]
  {
    ghost var arr := CollectionOf(Array(Strings(names)));
    copies := [];
    for i := 0 to count
      invariant ctx.frames == [top, Frame(arr, if i < count || i == 0 then i else count - 1, true)]
      invariant FramesOk(ctx.frames)
      invariant copies == Copies(names[..i])
    {
      NameRead(names[i]);
      var ok, out := Read.ReadItem(ctx, true, TagString);
      copies := copies + [out];
      ok := Read.NextValue(ctx);
      assert Copies(names[..i + 1]) == Copies(names[..i]) + [Read.Str(names[i])];
    }
    TakeAll(names);
  }

  /** A list crosses from the plugin to the daemon intact: same key, same
      count, same names, same order, and every enter and exit on the way
      succeeds. */
  method ListExchange(key: seq<byte>, names: seq<seq<byte>>)
      returns (name: Option<seq<byte>>, count: Read.Out, copies: seq<Read.Out>, ok: bool)
    requires StringOk(key)
    requires forall k | 0 <= k < |names| :: StringOk(names[k])
    ensures name == Some(key) && count == Read.Count(|names|) && copies == Copies(names)
    ensures ok
  {
    var bytes, sentIn, sentOut := SendList(key, names);
    var ctx, readIn;
    ctx, name, count, readIn := OpenList(bytes, key, names);
    copies := ReadNames(ctx, count.n, Frame(CollectionOf(ListTree(key, names)), 0, true), names);
    var readOut := Create.ExitCollection(ctx);
    ok := sentIn && sentOut && readIn && readOut;
  }

  /** The artists of a metadata reply, sent by `foo_mpris` and read by the
      daemon. */
  method ArtistExchange(names: seq<seq<byte>>) returns (count: Read.Out, copies: seq<Read.Out>, ok: bool)
    requires forall k | 0 <= k < |names| :: StringOk(names[k])
    ensures count == Read.Count(|names|) && copies == Copies(names)
    ensures ok
  {
    CStrNulFree(ARTIST);
    var name;
    name, count, copies, ok := ListExchange(ARTIST, names);
  }

  /** No artist: the empty array is entered and exited on both sides and
      reads as a count of zero. */
  method NoArtists() returns (count: Read.Out, ok: bool)
    ensures count == Read.Count(0) && ok
  {
    var copies;
    count, copies, ok := ArtistExchange([]);
  }

  /** Three artists "A", "B", "C" arrive as three strings in that order. */
  method ThreeArtists() returns (count: Read.Out, copies: seq<Read.Out>)
    ensures count == Read.Count(3)
    ensures copies == [Read.Str(Ascii("A")), Read.Str(Ascii("B")), Read.Str(Ascii("C"))]
  {
    var names := [Ascii("A"), Ascii("B"), Ascii("C")];
    var ok;
    count, copies, ok := ArtistExchange(names);
  }
}
