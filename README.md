# ubjson in Dafny

A model of the small UBJSON (Universal Binary JSON, Draft 12) codec in
`ubjson/`: the value tree and context of `ubjson.h`, the recursive-descent
parser of `parse.c`, the renderer of `render.c`, the construction cursor of
`create.c` and the typed read cursor of `read.c`. It covers the markers
`Z N T F i U I l L d D C S [ ] {`, `}`; the optimized `$`/`#` container
headers and high-precision numbers are not implemented by the library
and are not modelled.

Modules, one per concern:

- `Bytes` (bytes.dfy): bytes as integers 0..255, big-endian unsigned and
  two's-complement codecs with their round trips, and `CStr`, the bytes a
  C string holds before its first NUL (what `strlen` sees).
- `Ubjson` (ubjson.dfy): the sixteen tags, the value tree, collections with
  the capacity their appends reserve (0, then 4, then doubling), cursor
  frames and the `Context` class whose fields are those of `struct
  ubjson_ctx`. The linked chain of `ubjson_collection_list` nodes is a
  sequence of frames: `frames[0]` is the root frame (the node without a
  parent), the last frame is `current`, and an empty sequence is a NULL
  `current`.
- `Grammar` (grammar.dfy): the grammar the parser accepts, as functions
  over `(bytes, index)`.
- `Parse` (parse.dfy): the parser as methods that advance `srcIndex` in
  place, each proved to compute what the same-named `Grammar` function
  says.
- `Encoding` (encoding.dfy): the bytes the renderer emits, as functions of
  the tree.
- `Render` (render.dfy): the renderer as methods appending to the render
  buffer, each proved to append exactly the `Encoding` of its argument.
- `Cursor` (cursor.dfy): enter, exit, add and next as functions on the
  frame stack, with the invariant `FramesOk` and the lemmas relating them.
- `Create` (create.dfy) and `Read` (read.dfy): the cursor entry points as
  methods on the context, proved against the `Cursor` functions.
- `RoundTrip` (roundtrip.dfy): parsing the rendering of any tree without
  high precision values and with NUL-free strings gives the tree back.
- `Scenarios` (scenarios.dfy): the handshake and keep-alive frames that
  foobard.c and foo_mpris/src/socket.cpp exchange, a truncated and a
  complete document, and a nested construction.
- `Exchanges` (exchanges.dfy): messages built through the construction
  cursor on one side and read through the read cursor on the other: the
  daemon's seek command, and the artist list of the plugin's metadata
  reply, for any list of names and for no name and for "A", "B", "C".

Decisions of the model:

- `ubjson_ctx_consume(n)` succeeds only when `srcIndex + n < |src|`, so the
  last byte of the input can be peeked but never consumed; on failure the
  index jumps to the end. A closing marker that is the last byte is
  therefore accepted (its consume fails but its result is ignored).
- Where the C dereferences the NULL of a failed consume, peeks past the
  end of the input, or reads a negative string length, the model fails
  the parse.
- Floats are opaque 4- and 8-byte payloads copied verbatim, in host order
  (UBJSON asks for big-endian; the code does not convert them).
- A failed `ubjson_ctx_parse` leaves in `root` the top-level collection
  with the elements parsed before the failure, as the C does through its
  pointer into `ctx->root`.
- Strings and keys are rendered and read through `strlen`, so only the
  bytes before the first NUL survive; the round trip is stated for
  NUL-free strings.
- Every cursor frame holds its own copy of the collection it was entered
  on; the element storage the C shares between a re-entered built frame
  and its parent is not modelled (see Left out).
- Rendering appends and never clears: a second render follows the first
  in the same buffer.

## Model

| member | source | states |
|---|---|---|
| Bytes.FromToBigEndian | ubjson/parse.c:152-160 | reading back n big-endian bytes written from u < 256^n gives u |
| Bytes.DecodeEncodeSigned | ubjson/parse.c:199-210 | the two's-complement bytes of an in-range integer decode to that integer |
| Bytes.EncodeSignedNonNegative | ubjson/render.c:61-77 | a non-negative length is written as its plain big-endian bytes |
| Bytes.ToSigned | ubjson/parse.c:147 | an unsigned reading becomes a signed value in range, negative exactly when its top bit is set |
| Bytes.CStrPrefix | ubjson/render.c:47 | what strlen sees is the longest NUL-free prefix, ended by a NUL or by the end |
| Bytes.CStrNulFree | ubjson/render.c:47 | a NUL-free string is seen whole |
| Ubjson.CapacityBounds | ubjson/parse.c:265-272 | the 0→4→doubling growth keeps count <= capacity, capacity 0 only when empty, and at most 2·count+2 |
| Ubjson.CollectionOf | ubjson/ubjson.h:59-71 | every object or array value is held by a collection with the capacity its appends reserved |
| Ubjson.Context.Init | ubjson/parse.c:22-32 | a zeroed context owning the input bytes: index 0, root tagged NULL, no frame, empty render buffer |
| Grammar.ReadInteger | ubjson/parse.c:146-160 | a length read ends at the marker's width past its start, strictly inside the input |
| Grammar.ReadIntegerRange | ubjson/parse.c:146-160 | a length read from a marker fits that marker's C type |
| Grammar.ParseString | ubjson/parse.c:140-170 | a parsed string ends past its start and strictly inside the input |
| Grammar.ParseValue | ubjson/parse.c:175-235 | a parsed value ends past its tag and within the input |
| Grammar.ArrayItemsStep | ubjson/parse.c:251-275 | one loop turn: the element parsed at i is appended and the loop continues after it |
| Grammar.ObjectPairsStep | ubjson/parse.c:292-318 | one loop turn: the member parsed at i is appended and the loop continues after it |
| Grammar.ParseMemberStep | ubjson/parse.c:302-306 | a member is a key string without `S` followed by a value |
| Grammar.Document | ubjson/parse.c:321-359 | a document's root is always an object or an array |
| Grammar.DocumentValue | ubjson/parse.c:321-359 | a document parses completely exactly when a value starting with `{` or `[` parses there, and then gives that value |
| Parse.Consume | ubjson/parse.c:124-133 | succeeds iff index + n < length; advances by n, or moves the index to the end on failure |
| Parse.Peek | ubjson/parse.c:135-138 | returns the byte at the index without moving it |
| Parse.ReadInteger | ubjson/parse.c:144-160 | the length field read in place agrees with Grammar.ReadInteger, result and index |
| Parse.ParseString | ubjson/parse.c:140-170 | succeeds exactly when Grammar.ParseString does, with its string and end index |
| Parse.ParseValue | ubjson/parse.c:175-235 | succeeds exactly when Grammar.ParseValue does, with its value and end index |
| Parse.ParseScalar | ubjson/parse.c:179-222 | the fixed-width cases agree with Grammar.ParseScalar |
| Parse.StopCheck | ubjson/parse.c:243-259 | the loop stops at the end of input, at the closer or at NUL, and succeeds only at the closer, consuming it |
| Parse.ParseArray | ubjson/parse.c:237-276 | the loop's elements, capacity and result agree with Grammar.ArrayItems |
| Parse.ParseObject | ubjson/parse.c:278-319 | the loop's members, capacity and result agree with Grammar.ObjectPairs |
| Parse.ParseMember | ubjson/parse.c:302-306 | a member read in place agrees with Grammar.ParseMember |
| Parse.FreeCreation | ubjson/parse.c:84-105 | exits every open frame and drops the construction stack |
| Parse.Parse | ubjson/parse.c:321-359 | succeeds iff Grammar.Document finds a complete document; root is the (partial) collection; on success one parsed frame at index 0 |
| Encoding.LengthTableFits | ubjson/render.c:49-78 | every length marker's maximum fits the width the parser reads after it |
| Encoding.LengthPrefixCases | ubjson/render.c:49-78 | the length field branch by branch: `i`/`U` one byte, `I` 2, `l` 4, `L` 8 bytes big-endian, nothing past INT64_MAX |
| Encoding.LengthPrefixMinimal | ubjson/render.c:49-78 | the length field uses the first marker whose maximum holds the length; every earlier one is too small |
| Encoding.EncodeItemsAppend | ubjson/render.c:149-152 | rendering one more element appends its bytes to the elements' rendering |
| Encoding.EncodePairsAppend | ubjson/render.c:163-167 | rendering one more member appends its key and value |
| Render.DoubledBounds | ubjson/render.c:25-26 | doubling ends past the needed index, never below the start, at most twice the need once it grew |
| Render.StringLayout | ubjson/render.c:42-83 | a rendered string is the optional `S`, the length field, then the bytes before the first NUL |
| Render.AppendByte | ubjson/render.c:33-40 | appends exactly one byte, growing the capacity by 256 when it would not leave room |
| Render.AppendBytes | ubjson/render.c:23-31 | appends exactly the given bytes; the capacity is doubled until the bytes and one more fit |
| Render.RenderString | ubjson/render.c:42-83 | appends the string's encoding and returns false |
| Render.RenderLength | ubjson/render.c:49-78 | appends the length field of LengthPrefix |
| Render.RenderValue | ubjson/render.c:85-143 | appends EncodeValue(v); fails for high precision (writing nothing) and strings |
| Render.RenderScalar | ubjson/render.c:89-132 | appends the tag and the fixed-width payload: integers big-endian two's complement, floats raw |
| Render.RenderArray | ubjson/render.c:145-157 | appends `[`, every element in order, `]`, and returns true |
| Render.RenderObject | ubjson/render.c:159-172 | appends `{`, every key without `S` and value in order, `}`, and returns true |
| Render.RenderMember | ubjson/render.c:165-166 | appends one member: key without `S`, then value |
| Render.RenderRoot | ubjson/render.c:174-185 | renders the parsed root iff it is a collection; otherwise false and nothing written |
| Render.RenderCreation | ubjson/render.c:187-205 | false with no frame; otherwise appends the rendering of the root frame's collection |
| Cursor.SetCurrent | ubjson/create.c:40-56 | replaces the current frame and nothing below it |
| Cursor.Created | ubjson/create.c:228-240 | one empty root frame at index 0, built rather than parsed, of the requested kind |
| Cursor.PushPair | ubjson/create.c:99-112 | appends exactly the pair after the earlier ones, keeping count <= capacity |
| Cursor.PushItem | ubjson/create.c:166-179 | appends exactly the value after the earlier ones, keeping count <= capacity |
| Cursor.AddPair | ubjson/create.c:90-113 | succeeds iff the current frame is an object; then appends the key's C string and the value to it |
| Cursor.AddItem | ubjson/create.c:161-180 | succeeds iff the current frame is an array; then appends the value to it |
| Cursor.SetCurrentOk | ubjson/create.c:40-56 | replacing the current frame by one of the same kind and origin keeps the stack well formed |
| Cursor.AddPairOk | ubjson/create.c:90-113 | a successful pair add keeps the stack well formed |
| Cursor.AddItemOk | ubjson/create.c:161-180 | a successful add keeps the stack well formed |
| Cursor.EnterOk | ubjson/create.c:10-58 | entering pushes one frame holding the target collection, at index 0, with the parent's origin |
| Cursor.EnterFails | ubjson/create.c:10-35 | entering fails exactly when the collection is empty or the target is not an object or array |
| Cursor.ExitParsed | ubjson/create.c:60-88 | exiting a parsed frame only pops it |
| Cursor.ExitWritesBack | ubjson/create.c:60-88 | exiting a built frame pops it and stores its collection in the parent's last element |
| Cursor.SetLastSame | ubjson/create.c:66-81 | writing back the collection already there changes nothing |
| Cursor.EnterExit | ubjson/create.c:10-88 | exiting right after entering restores the original stack |
| Cursor.EnterAddExit | ubjson/create.c:10-88 | enter, add, exit leaves the parent's last element holding the addition |
| Cursor.NestedAddInvisible | ubjson/create.c:66-81 | while a nested frame is open, an add leaves the root frame untouched |
| Cursor.NextOk | ubjson/read.c:96-111 | stepping succeeds iff another element follows; it moves the index by one and nothing else |
| Cursor.StepsForward | ubjson/read.c:96-111 | n successful steps move the read index forward by exactly n, still on an element |
| Create.CreateObject | ubjson/create.c:228-233 | installs one empty object root frame and returns true |
| Create.CreateArray | ubjson/create.c:235-240 | installs one empty array root frame and returns true |
| Create.EnterCollection | ubjson/create.c:10-58 | performs Cursor.Enter on the context, failing with no change |
| Create.ExitCollection | ubjson/create.c:60-88 | performs Cursor.Exit on the context, popping one frame on success |
| Create.AddKvPair | ubjson/create.c:90-113 | performs Cursor.AddPair on the context |
| Create.AddKvPairObject | ubjson/create.c:116-118 | adds the key with an empty object |
| Create.AddKvPairArray | ubjson/create.c:119-121 | adds the key with an empty array |
| Create.AddKvPairInt8 | ubjson/create.c:122-124 | adds the key with an int8 |
| Create.AddKvPairUInt8 | ubjson/create.c:125-127 | adds the key with a uint8 |
| Create.AddKvPairInt16 | ubjson/create.c:128-130 | adds the key with an int16 |
| Create.AddKvPairInt32 | ubjson/create.c:131-133 | adds the key with an int32 |
| Create.AddKvPairInt64 | ubjson/create.c:134-136 | adds the key with an int64 |
| Create.AddKvPairFloat32 | ubjson/create.c:137-139 | adds the key with a float payload |
| Create.AddKvPairFloat64 | ubjson/create.c:140-142 | adds the key with a double payload |
| Create.AddKvPairCharacter | ubjson/create.c:143-145 | adds the key with a char |
| Create.AddKvPairString | ubjson/create.c:147-159 | adds the key with a copy of the string's C string |
| Create.Add | ubjson/create.c:161-180 | performs Cursor.AddItem on the context |
| Create.AddObject | ubjson/create.c:183-185 | adds an empty object |
| Create.AddArray | ubjson/create.c:186-188 | adds an empty array |
| Create.AddInt8 | ubjson/create.c:189-191 | adds an int8 |
| Create.AddUInt8 | ubjson/create.c:192-194 | adds a uint8 |
| Create.AddInt16 | ubjson/create.c:195-197 | adds an int16 |
| Create.AddInt32 | ubjson/create.c:198-200 | adds an int32 |
| Create.AddInt64 | ubjson/create.c:201-203 | adds an int64 |
| Create.AddFloat32 | ubjson/create.c:204-206 | adds a float payload |
| Create.AddFloat64 | ubjson/create.c:207-209 | adds a double payload |
| Create.AddCharacter | ubjson/create.c:210-212 | adds a char |
| Create.AddString | ubjson/create.c:214-226 | adds a copy of the string's C string |
| Read.ReadValue | ubjson/read.c:14-74 | the check passes iff the tags are equal or both boolean; nothing is written on failure or with no out |
| Read.ReadOwnTag | ubjson/read.c:24-73 | a passing read writes the payload: booleans, integers, char, a string copy, a collection's count |
| Read.TypeCheckEquivalence | ubjson/read.c:16-19 | the type check is reflexive, symmetric and transitive on tags |
| Read.ReadBackAdded | ubjson/read.c:113-121 | an element appended by ubjson_ctx_add reads back as its payload under its own tag |
| Read.ReadKvPair | ubjson/read.c:76-94 | fails on a non-object frame; otherwise copies the key before the type check, then reads the value |
| Read.ReadItem | ubjson/read.c:113-121 | fails on a non-array frame; otherwise reads the element at the index |
| Read.NextValue | ubjson/read.c:96-111 | performs Cursor.Next on the context, failing with no change at the last element |
| RoundTrip.LengthRoundTrip | ubjson/parse.c:146-160 | the rendered length field of a length up to INT64_MAX reads back as that length |
| RoundTrip.StringRoundTrip | ubjson/parse.c:140-170 | a rendered NUL-free key parses back as itself |
| RoundTrip.KeyLayout | ubjson/render.c:42-83 | a NUL-free key renders as its length field and its bytes |
| RoundTrip.ParseStringAt | ubjson/parse.c:140-170 | after a length field, a string is exactly the next length bytes |
| RoundTrip.ValueRoundTrip | ubjson/parse.c:175-235 | a rendered well-formed value parses back as itself, ending after its bytes |
| RoundTrip.ArrayRoundTrip | ubjson/parse.c:237-276 | a rendered array of well-formed values parses back as itself |
| RoundTrip.ObjectRoundTrip | ubjson/parse.c:278-319 | a rendered object of NUL-free keys and well-formed values parses back as itself |
| RoundTrip.StringValueRoundTrip | ubjson/parse.c:223-225 | a rendered NUL-free string value parses back as itself |
| RoundTrip.IntegerRoundTrip | ubjson/parse.c:191-210 | a rendered signed integer reads back as itself |
| RoundTrip.ScalarRoundTrip | ubjson/parse.c:179-222 | every rendered scalar parses back as itself |
| RoundTrip.ItemsRoundTrip | ubjson/parse.c:251-275 | the array loop over rendered elements collects exactly them, ending after `]` |
| RoundTrip.PairsRoundTrip | ubjson/parse.c:292-318 | the object loop over rendered members collects exactly them, ending after `}` |
| RoundTrip.FirstByte | ubjson/render.c:85-143 | a rendered well-formed value never starts with NUL or a closing marker |
| RoundTrip.DocumentRoundTrip | ubjson/parse.c:321-359 | ubjson_ctx_parse of a rendered object or array gives the same tree back, consuming all its bytes |
| Scenarios.HelloLayout | foobard.c:561-563 | `{"command":"hello"}` renders to the 19 handshake bytes |
| Scenarios.PingLayout | foobard.c:571-580 | `{"ping": no-op}` renders to the 9 keep-alive bytes |
| Scenarios.SendHello | foobard.c:28-38 | create_object, add_kv_pair_string, render_creation on a fresh context emit the handshake bytes |
| Scenarios.SendPing | foo_mpris/src/socket.cpp:153-155 | the keep-alive frame is sent as a literal; building `{"ping": no-op}` through the cursor and rendering it reproduces that literal byte for byte |
| Scenarios.ReceiveHello | foobard.c:223-228 | the daemon's parse-then-`read_kv_pair` pattern, applied to the handshake bytes (which neither program parses), gives key "command" and a copy of "hello" |
| Scenarios.TruncatedDocument | ubjson/parse.c:251-263 | `[ZZ` has no closer: the root holds the one null and the parse fails |
| Scenarios.ParseTruncated | ubjson/parse.c:321-359 | ubjson_ctx_parse on `[ZZ` fails, keeps the partial root and installs no frame |
| Scenarios.ParseClosedArray | ubjson/parse.c:348-356 | ubjson_ctx_parse on `[Z]` succeeds with one parsed frame of capacity 4 |
| Scenarios.NestedSteps | ubjson/create.c:10-88 | a built `[[]]`, entered, added to and exited becomes `[[1]]` |
| Scenarios.NestedRendering | ubjson/render.c:187-205 | render_creation inside the open nested frame shows `[[]]`; after exit it appends `[[1]]` |
| Exchanges.Receive | foo_mpris/src/socket.cpp:160-169 | init and parse on the rendering of a well-formed collection leave that tree in the root and one parsed frame on it at index 0 |
| Exchanges.SendSeek | foobard.c:161-176 | create_object, add_kv_pair_string "command" "seek", add_kv_pair_int64 "offset", render_creation emit the encoding of `{"command": "seek", "offset": offset}` |
| Exchanges.SeekExchange | foo_mpris/src/socket.cpp:314-332 | the plugin reads the daemon's seek back as the string "seek", then after next_value the key "offset" and the same int64 offset, for every offset |
| Exchanges.SeekFiveSeconds | foobard.c:161-176 | a seek of 5000000 microseconds arrives as "seek" with offset 5000000 |
| Exchanges.StartList | foo_mpris/src/socket.cpp:262-263 | add_kv_pair_array on a created object and enter_collection succeed, leaving the open array empty above the root |
| Exchanges.AddNames | foo_mpris/src/socket.cpp:266-275 | the add_string loop leaves the open array holding the names in order, with the capacity its appends reserve |
| Exchanges.SendList | foo_mpris/src/socket.cpp:262-276 | add_kv_pair_array, enter, one add_string per name, exit and render_creation succeed at entering and exiting and emit the encoding of `{key: [names...]}` |
| Exchanges.ListReads | foobard.c:318-319 | that tree parses back, and reading its member as an array gives the number of names |
| Exchanges.OpenList | foobard.c:318-322 | after parse, read_kv_pair with TagArray gives the key and the count, and enter_collection succeeds onto the parsed array at index 0 |
| Exchanges.ReadNames | foobard.c:323-327 | the loop of read(TagString) and next_value copies out every name in order and leaves the index on the last element |
| Exchanges.ListExchange | foobard.c:318-328 | the key, the count and the names in order cross from builder to reader, and every enter and exit on both sides succeeds |
| Exchanges.ArtistExchange | foo_mpris/src/socket.cpp:262-276 | the same for the "artist" member of the metadata reply |
| Exchanges.NoArtists | foobard.c:318-328 | an empty artist list reads as a count of zero, with enter and exit succeeding on both sides |
| Exchanges.ThreeArtists | foobard.c:318-328 | the artists "A", "B", "C" arrive as three strings in that order |

## Left out

- ubjson_ctx_free, ubjson_free_object and ubjson_free_array (parse.c:37-122): memory management; the model owns values.
- Parse.FreeCreation: does not model that `ctx->current` is left dangling after the root frame is freed; the model leaves no frame.
- Leaks on the parser's failure paths, allocation failure, and create_object/create_array overwriting an existing chain: memory only.
- Float numerics: float and double payloads are opaque raw bytes, copied verbatim.
- Host endianness: integers are big-endian two's complement by definition.
- Render.AppendBytes: requires an allocated buffer, because from capacity 0 the C doubling loop never ends; no render path reaches it with capacity 0.
- Render.RenderString: requires an allocated buffer for a key longer than INT64_MAX, which gets no length field, for the same reason.
- Render.RenderValue: states the new capacity only as never shrinking and still holding the bytes, not its exact value.
- Create.EnterCollection: requires a current frame; the C dereferences a NULL `current`. The same holds for every Create and Read method.
- Create.AddKvPair: requires that an object frame was built, not parsed; the C would append into storage it shares with the parsed root. The same holds for Create.Add and the typed wrappers.
- Read.ReadKvPair: requires the read index to be on an element; the C indexes without a bound check. The same holds for Read.ReadItem.
- Parse.ParseValue: does not state where `srcIndex` ends after a failure.
- Render.RenderCreation: renders the root frame as the exits have written it back, which is what the C renders only when every built frame was entered on an empty collection (the add-then-enter order of foo_mpris/src/socket.cpp:262-263, the only construction that enters). `ubjson_ctx_enter_collection` copies the element's struct, so a frame entered on a collection that already has elements shares its element storage with the parent's element (create.c:40-56); an exit from a deeper frame then writes into that shared storage (create.c:66-81) and shows in the root before the middle frame exits, and a growth of that frame frees storage the root still points to. For create_array, add_array, enter, add_array, exit, enter, enter, add_int8(1), exit, render_creation the C renders `[[[i\x01]]]` and the model `[[[]]]`.
- Cursor.ExitWritesBack: writes the child's collection into the parent frame's own copy of its last element only; the write into storage shared with the root element, described under Render.RenderCreation, is not modelled. The same holds for Cursor.NestedAddInvisible, which does not model the reallocation of that shared storage.
- The render_creation walk up the parent links: the frame stack reaches the root as frames[0] without a loop.
- The unused `enum ubjson_ctx_state` and `struct _linked_list` (ubjson.h:47-57).
- The daemon and plugin around the library (sockets, threads, D-Bus, host player calls) are not part of this model; only their frames appear, in Scenarios.
