/** The construction and read cursor of create.c and read.c as functions on
    the frame stack: frames[0] is the root frame, the last frame is
    `ctx->current`, and each frame below it is its `parent`. The methods in
    Create and Read change the context exactly as these functions say. */
module Cursor {
  import opened Bytes
  import opened Ubjson

  /** `ctx->current`. */
  function Current(frames: seq<Frame>): Frame
    requires frames != []
  {
    frames[|frames| - 1]
  }

  /** The stack with its current frame replaced by f. */
  function SetCurrent(frames: seq<Frame>, f: Frame): (r: seq<Frame>)
    requires frames != []
    ensures |r| == |frames| && r != [] && Current(r) == f
    ensures forall k | 0 <= k < |frames| - 1 :: r[k] == frames[k]
  {
    frames[..|frames| - 1] + [f]
  }

  /** The root frame `create_object` / `create_array` install: an empty
      collection of the given kind, read index 0, built rather than parsed. */
  function Created(isObject: bool): (r: seq<Frame>)
    ensures |r| == 1 && FramesOk(r)
    ensures r[0].coll.Count() == 0 && r[0].index == 0 && !r[0].fromParse
    ensures r[0].coll.ObjectColl? == isObject
  {
    [Frame(if isObject then ObjectColl([], 0) else ArrayColl([], 0), 0, false)]
  }

  /** One append to an object's storage: the pair goes after the existing ones
      and the capacity grows when the count would exceed it. */
  function PushPair(c: Collection, p: KvPair): (r: Collection)
    requires c.ObjectColl?
    ensures r.ObjectColl? && r.pairs == c.pairs + [p]
    ensures c.CapacityOk() ==> r.CapacityOk() && r.Count() <= r.capacity
  {
    CapacityBounds(|c.pairs| + 1);
    ObjectColl(c.pairs + [p], Grow(c.capacity, |c.pairs|))
  }

  /** One append to an array's storage. */
  function PushItem(c: Collection, v: Value): (r: Collection)
    requires c.ArrayColl?
    ensures r.ArrayColl? && r.items == c.items + [v]
    ensures c.CapacityOk() ==> r.CapacityOk() && r.Count() <= r.capacity
  {
    CapacityBounds(|c.items| + 1);
    ArrayColl(c.items + [v], Grow(c.capacity, |c.items|))
  }

  /** `ubjson_ctx_add_kv_pair`: only an object frame accepts a pair; the key
      is copied up to its NUL. */
  function AddPair(frames: seq<Frame>, key: seq<byte>, v: Value): (r: Option<seq<Frame>>)
    requires frames != []
    ensures r.Some? <==> Current(frames).coll.ObjectColl?
    ensures r.Some? ==> r.value == SetCurrent(frames, Current(frames).(coll := PushPair(Current(frames).coll, KvPair(CStr(key), v))))
  {
    var cur := Current(frames);
    if !cur.coll.ObjectColl? then None
    else Some(SetCurrent(frames, cur.(coll := PushPair(cur.coll, KvPair(CStr(key), v)))))
  }

  /** `ubjson_ctx_add`: only an array frame accepts a value. */
  function AddItem(frames: seq<Frame>, v: Value): (r: Option<seq<Frame>>)
    requires frames != []
    ensures r.Some? <==> Current(frames).coll.ArrayColl?
    ensures r.Some? ==> r.value == SetCurrent(frames, Current(frames).(coll := PushItem(Current(frames).coll, v)))
  {
    var cur := Current(frames);
    if !cur.coll.ArrayColl? then None
    else Some(SetCurrent(frames, cur.(coll := PushItem(cur.coll, v))))
  }

  /** `ubjson_ctx_enter_collection`: fails on a collection without storage
      (no elements) or when the target element is not a collection; otherwise
      pushes a frame on the target, at index 0, with the parent's origin. */
  function Enter(frames: seq<Frame>): Option<seq<Frame>>
    requires frames != [] && Current(frames).Ok()
  {
    var cur := Current(frames);
    if cur.coll.Count() == 0 then None
    else if !IsCollection(cur.Target()) then None
    else Some(frames + [Frame(CollectionOf(cur.Target()), 0, cur.fromParse)])
  }

  /** c with the value of its last element replaced by v (keys stay). */
  function SetLast(c: Collection, v: Value): (r: Collection)
    requires c.Count() > 0
  {
    if c.ObjectColl? then
      ObjectColl(c.pairs[..|c.pairs| - 1] + [KvPair(c.pairs[|c.pairs| - 1].key, v)], c.capacity)
    else
      ArrayColl(c.items[..|c.items| - 1] + [v], c.capacity)
  }

  /** `ubjson_ctx_exit_collection`: fails at the root frame; a construction
      frame is first written into its parent's last element, a parsed frame is
      only popped. */
  function Exit(frames: seq<Frame>): Option<seq<Frame>>
    requires frames != []
    requires |frames| > 1 && !Current(frames).fromParse ==> frames[|frames| - 2].coll.Count() > 0
  {
    if |frames| == 1 then None
    else
      var child := Current(frames);
      var rest := frames[..|frames| - 1];
      if child.fromParse then Some(rest)
      else Some(SetCurrent(rest, Current(rest).(coll := SetLast(Current(rest).coll, child.coll.AsValue()))))
  }

  /** `ubjson_ctx_next_value`: the read index moves to the next element when
      there is one. */
  function Next(frames: seq<Frame>): Option<seq<Frame>>
    requires frames != []
  {
    var cur := Current(frames);
    if cur.index + 1 >= cur.coll.Count() then None
    else Some(SetCurrent(frames, cur.(index := cur.index + 1)))
  }

  /** A step that reports `ok` leaves `after` as the step's result when it
      succeeds, and leaves the stack as it was when it fails. */
  predicate Applied(before: seq<Frame>, after: seq<Frame>, ok: bool, step: Option<seq<Frame>>)
  {
    ok == step.Some? && after == (if ok then step.value else before)
  }

  // ---- The stack invariant is kept by every step ----

  /** Replacing the current frame by one of the same kind and origin that is
      itself well formed keeps the stack well formed. */
  lemma {:induction false} SetCurrentOk(frames: seq<Frame>, f: Frame)
    requires frames != [] && FramesOk(frames)
    requires f.Ok() && f.fromParse == Current(frames).fromParse
    requires f.coll.ObjectColl? == Current(frames).coll.ObjectColl?
    ensures FramesOk(SetCurrent(frames, f))
  {
    var r := SetCurrent(frames, f);
    forall k | 0 < k < |r|
      ensures Linked(r[k - 1], r[k])
    {
      assert Linked(frames[k - 1], frames[k]);
    }
  }

  lemma {:induction false} AddPairOk(frames: seq<Frame>, key: seq<byte>, v: Value)
    requires frames != [] && FramesOk(frames) && AddPair(frames, key, v).Some?
    ensures FramesOk(AddPair(frames, key, v).value)
  {
    var cur := Current(frames);
    SetCurrentOk(frames, cur.(coll := PushPair(cur.coll, KvPair(CStr(key), v))));
  }

  lemma {:induction false} AddItemOk(frames: seq<Frame>, v: Value)
    requires frames != [] && FramesOk(frames) && AddItem(frames, v).Some?
    ensures FramesOk(AddItem(frames, v).value)
  {
    var cur := Current(frames);
    SetCurrentOk(frames, cur.(coll := PushItem(cur.coll, v)));
  }

  /** Entering pushes exactly one frame that holds the target collection,
      starts reading at index 0, inherits the origin, and keeps the stack
      well formed. */
  lemma {:induction false} EnterOk(frames: seq<Frame>)
    requires frames != [] && FramesOk(frames) && Enter(frames).Some?
    ensures var r := Enter(frames).value;
      && |r| == |frames| + 1 && r[..|frames|] == frames
      && Current(r).coll.AsValue() == Current(frames).Target()
      && Current(r).index == 0 && Current(r).fromParse == Current(frames).fromParse
      && FramesOk(r)
  {
    var r := Enter(frames).value;
    assert r[..|frames|] == frames;
    assert forall k | 0 <= k < |frames| :: r[k] == frames[k];
  }

  /** Entering fails exactly when the current collection is empty or its
      target element is not an object or array. */
  lemma {:induction false} EnterFails(frames: seq<Frame>)
    requires frames != [] && FramesOk(frames)
    ensures Enter(frames).None? <==>
      Current(frames).coll.Count() == 0 || !IsCollection(Current(frames).Target())
  {
  }

  /** Exiting a parsed frame only pops it. */
  lemma {:induction false} ExitParsed(frames: seq<Frame>)
    requires |frames| > 1 && Current(frames).fromParse
    ensures Exit(frames) == Some(frames[..|frames| - 1])
  {
  }

  /** Exiting a construction frame pops it and makes the parent's last
      element hold the child's collection; nothing else in the stack
      changes and it stays well formed. Each frame holds its own copy of
      its collection, so storage the C shares between a re-entered frame
      and its parent's element is not modelled. */
  lemma {:induction false} ExitWritesBack(frames: seq<Frame>)
    requires |frames| > 1 && FramesOk(frames) && !Current(frames).fromParse
    ensures Linked(frames[|frames| - 2], Current(frames))
    ensures Exit(frames).Some?
    ensures var r := Exit(frames).value;
      && |r| == |frames| - 1
      && (forall k | 0 <= k < |r| - 1 :: r[k] == frames[k])
      && Current(r).coll.Count() == frames[|frames| - 2].coll.Count()
      && Current(r).Target() == Current(frames).coll.AsValue()
      && FramesOk(r)
  {
    var rest := frames[..|frames| - 1];
    var parent := Current(rest);
    assert parent == frames[|frames| - 2];
    assert Linked(parent, Current(frames));
    var f := parent.(coll := SetLast(parent.coll, Current(frames).coll.AsValue()));
    assert FramesOk(rest) by {
      assert forall k | 0 <= k < |rest| :: rest[k] == frames[k];
    }
    SetCurrentOk(rest, f);
  }

  /** A frame's collection is unchanged by writing back its own last element. */
  lemma {:induction false} SetLastSame(c: Collection)
    requires c.Count() > 0
    ensures SetLast(c, c.Element(c.Count() - 1)) == c
  {
    if c.ObjectColl? {
      var n := |c.pairs|;
      assert c.pairs[..n - 1] + [KvPair(c.pairs[n - 1].key, c.pairs[n - 1].value)] == c.pairs;
    } else {
      assert c.items[..|c.items| - 1] + [c.items[|c.items| - 1]] == c.items;
    }
  }

  /** Entering and then exiting again returns to the original stack: a
      construction frame writes back the same collection it was entered on. */
  lemma {:induction false} EnterExit(frames: seq<Frame>)
    requires frames != [] && FramesOk(frames) && Enter(frames).Some?
    ensures Exit(Enter(frames).value) == Some(frames)
  {
    var cur := Current(frames);
    var r := Enter(frames).value;
    assert r[..|r| - 1] == frames;
    if !cur.fromParse {
      SetLastSame(cur.coll);
      assert SetCurrent(frames, cur) == frames;
    }
  }

  /** Elements added while a nested construction frame is open reach its
      parent on exit: after entering, appending v and exiting, the parent's
      last element is the entered collection with v appended. */
  lemma {:induction false} EnterAddExit(frames: seq<Frame>, v: Value)
    requires frames != [] && FramesOk(frames) && !Current(frames).fromParse
    requires Enter(frames).Some? && Current(frames).Target().Array?
    ensures AddItem(Enter(frames).value, v).Some?
    ensures var r := Exit(AddItem(Enter(frames).value, v).value);
      && r.Some? && |r.value| == |frames|
      && Current(r.value).Target() == Array(Current(frames).Target().items + [v])
  {
    var e := Enter(frames).value;
    EnterOk(frames);
    AddItemOk(e, v);
    ExitWritesBack(AddItem(e, v).value);
  }

  /** While a nested frame is open, additions change only that frame: the
      root frame, which `render_creation` renders, is untouched (a
      reallocation of storage the C shares with the root is not
      modelled). */
  lemma {:induction false} NestedAddInvisible(frames: seq<Frame>, v: Value)
    requires |frames| > 1 && AddItem(frames, v).Some?
    ensures AddItem(frames, v).value[0] == frames[0]
  {
  }

  /** Stepping succeeds exactly when another element follows, moves the read
      index forward by one, changes nothing else and keeps the stack well
      formed; at the last element it fails and can be repeated. */
  lemma {:induction false} NextOk(frames: seq<Frame>)
    requires frames != [] && FramesOk(frames)
    ensures Next(frames).Some? <==> Current(frames).index + 1 < Current(frames).coll.Count()
    ensures Next(frames).Some? ==>
      && Next(frames).value == SetCurrent(frames, Current(frames).(index := Current(frames).index + 1))
      && FramesOk(Next(frames).value)
  {
    var cur := Current(frames);
    if cur.index + 1 < cur.coll.Count() {
      SetCurrentOk(frames, cur.(index := cur.index + 1));
    }
  }

  /** The read index only moves forward: n successful steps from index i
      leave it at i + n, still on an element. */
  function Steps(frames: seq<Frame>, n: nat): Option<seq<Frame>>
    requires frames != []
    decreases n
  {
    if n == 0 then Some(frames)
    else match Next(frames)
      case None => None
      case Some(f) => Steps(f, n - 1)
  }

  lemma {:induction false} StepsForward(frames: seq<Frame>, n: nat)
    requires frames != [] && FramesOk(frames)
    ensures Steps(frames, n).Some? <==> n == 0 || Current(frames).index + n < Current(frames).coll.Count()
    ensures Steps(frames, n).Some? ==>
      && Steps(frames, n).value != []
      && Current(Steps(frames, n).value) == Current(frames).(index := Current(frames).index + n)
      && |Steps(frames, n).value| == |frames|
    decreases n
  {
    if n > 0 {
      NextOk(frames);
      if Next(frames).Some? {
        StepsForward(Next(frames).value, n - 1);
      }
    }
  }
}
