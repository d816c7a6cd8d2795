/** What a serving side sends back for a request. */
module Serving {
  import opened Blobs
  import opened Engine
  import opened Protocol

  function HeldItem(st: Store, k: (Kind, BlobId)): seq<Item> {
    if k in st.blobs then [(k.0, k.1, st.blobs[k])] else []
  }

  /** The requested items the store holds, in request order. */
  function HeldItems(st: Store, asked: seq<(Kind, BlobId)>): seq<Item> {
    if asked == [] then []
    else HeldItem(st, asked[0]) + HeldItems(st, asked[1..])
  }

  function Flatten(bs: seq<seq<Item>>): seq<Item> {
    if bs == [] then [] else bs[0] + Flatten(bs[1..])
  }

  function Frames(bs: seq<seq<Item>>): seq<Frame> {
    seq(|bs|, i requires 0 <= i < |bs| => Items(bs[i]))
  }

  function ByteCount(b: seq<Item>): nat {
    if b == [] then 0 else ByteCount(b[..|b| - 1]) + |b[|b| - 1].2|
  }

  /** A batch goes out as soon as it is full: without its last item it was under both limits. */
  ghost predicate Batch(b: seq<Item>) {
    0 < |b| <= MAX_ITEMS && ByteCount(b[..|b| - 1]) < FLUSH_BYTES
  }

  /** It does not go out before: all batches but the last have reached a limit. */
  ghost predicate FullBatch(b: seq<Item>) {
    |b| == MAX_ITEMS || ByteCount(b) >= FLUSH_BYTES
  }

  lemma BatchCons(b: seq<Item>, rest: seq<seq<Item>>)
    ensures Frames([b] + rest) + [TERMINATOR] == [Items(b)] + (Frames(rest) + [TERMINATOR])
    ensures Flatten([b] + rest) == b + Flatten(rest)
  {
    assert ([b] + rest)[1..] == rest;
  }

  /** What has been gathered, what comes next, and the rest. */
  lemma HeldNext(st: Store, asked: seq<(Kind, BlobId)>, acc: seq<Item>)
    requires asked != []
    ensures acc + HeldItem(st, asked[0]) + HeldItems(st, asked[1..]) == acc + HeldItems(st, asked)
  {
    hide HeldItem;
    Regroup(acc, HeldItem(st, asked[0]), HeldItems(st, asked[1..]));
  }

  lemma Regroup<T>(a: seq<T>, b: seq<T>, c: seq<T>)
    ensures a + (b + c) == a + b + c
  {
  }

  lemma {:induction false} ServeLoopShape(st: Store, asked: seq<(Kind, BlobId)>, acc: seq<Item>, size: nat)
    returns (bs: seq<seq<Item>>)
    requires |acc| < MAX_ITEMS && size == ByteCount(acc) < FLUSH_BYTES
    ensures ServeLoop(st, asked, acc, size) == Frames(bs) + [TERMINATOR]
    ensures forall b :: b in bs ==> Batch(b)
    ensures forall i :: 0 <= i < |bs| - 1 ==> FullBatch(bs[i])
    ensures Flatten(bs) == acc + HeldItems(st, asked)
    ensures |bs| <= |asked| + if acc == [] then 0 else 1
    decreases |asked|
  {
    if asked == [] {
      bs := ServeEnd(st, acc, size);
    } else {
      hide Frames, Flatten, HeldItems;
      var k := asked[0];
      var acc' := acc + HeldItem(st, k);
      if k in st.blobs {
        assert acc'[..|acc'| - 1] == acc;
      } else {
        assert acc' == acc;
      }
      var size' := ByteCount(acc');
      HeldNext(st, asked, acc);
      if |acc'| >= MAX_ITEMS || size' >= FLUSH_BYTES {
        var rest := ServeLoopShape(st, asked[1..], [], 0);
        bs := [acc'] + rest;
        BatchCons(acc', rest);
        assert [] + HeldItems(st, asked[1..]) == HeldItems(st, asked[1..]);
      } else {
        bs := ServeLoopShape(st, asked[1..], acc', size');
      }
    }
  }

  lemma ServeEnd(st: Store, acc: seq<Item>, size: nat) returns (bs: seq<seq<Item>>)
    requires |acc| < MAX_ITEMS && size == ByteCount(acc) < FLUSH_BYTES
    ensures ServeLoop(st, [], acc, size) == Frames(bs) + [TERMINATOR] && (forall b :: b in bs ==> Batch(b))
    ensures Flatten(bs) == acc + HeldItems(st, []) && |bs| <= if acc == [] then 0 else 1
  {
    bs := if acc != [] then [acc] else [];
    if acc != [] {
      assert bs[1..] == [] && Flatten(bs) == acc + [] == acc;
      assert Frames(bs) == [Items(acc)];
      SmallerCount(acc);
    }
  }

  lemma SmallerCount(b: seq<Item>)
    requires b != []
    ensures ByteCount(b[..|b| - 1]) <= ByteCount(b)
  {
  }

  /** The reply to a request: non-empty batches within the limits, then one terminator; put
      together, the batches are the requested items the store holds, in request order. */
  lemma ServeShape(st: Store, asked: seq<(Kind, BlobId)>) returns (bs: seq<seq<Item>>)
    ensures ServeItems(st, asked) == Frames(bs) + [TERMINATOR]
    ensures forall b :: b in bs ==> Batch(b)
    ensures forall i :: 0 <= i < |bs| - 1 ==> FullBatch(bs[i])
    ensures Flatten(bs) == HeldItems(st, asked)
    ensures |bs| <= |asked|
  {
    bs := ServeLoopShape(st, asked, [], 0);
    assert [] + HeldItems(st, asked) == HeldItems(st, asked);
  }

  // ---- which, and in which order ---------------------------------------------------------

  /** `at` lists, in order, exactly the positions of `true`. */
  ghost predicate Picks(at: seq<nat>, flags: seq<bool>) {
    && (forall i, j :: 0 <= i < j < |at| ==> at[i] < at[j])
    && (forall k: nat :: k in at <==> k < |flags| && flags[k])
  }

  function Shifted(at: seq<nat>): seq<nat> { seq(|at|, i requires 0 <= i < |at| => at[i] + 1) }

  /** One more position in front. */
  lemma PicksCons(at: seq<nat>, flag: bool, flags: seq<bool>)
    requires Picks(at, flags)
    ensures Picks((if flag then [0] else []) + Shifted(at), [flag] + flags)
  {
    var r, all := (if flag then [0] else []) + Shifted(at), [flag] + flags;
    forall k: nat ensures k in r <==> k < |all| && all[k] {
      if 0 < k < |all| && all[k] {
        assert k - 1 in at;
        var i :| 0 <= i < |at| && at[i] == k - 1;
        assert Shifted(at)[i] == k && k in Shifted(at);
      }
      if k in Shifted(at) {
        var i :| 0 <= i < |at| && Shifted(at)[i] == k;
        assert at[i] in at;
      }
    }
  }

  function HeldFlags(st: Store, asked: seq<(Kind, BlobId)>): seq<bool> {
    seq(|asked|, i requires 0 <= i < |asked| => asked[i] in st.blobs)
  }

  /** The items of a reply are, in request order, exactly the requested ones that are held. */
  lemma {:induction false} HeldOrder(st: Store, asked: seq<(Kind, BlobId)>) returns (at: seq<nat>)
    ensures Picks(at, HeldFlags(st, asked)) && |at| == |HeldItems(st, asked)|
    ensures forall i :: 0 <= i < |at| ==>
      && at[i] < |asked| && asked[at[i]] in st.blobs
      && HeldItems(st, asked)[i] == (asked[at[i]].0, asked[at[i]].1, st.blobs[asked[at[i]]])
    decreases |asked|
  {
    if asked == [] {
      at := [];
    } else {
      var rest := HeldOrder(st, asked[1..]);
      PicksCons(rest, asked[0] in st.blobs, HeldFlags(st, asked[1..]));
      at := (if asked[0] in st.blobs then [0] else []) + Shifted(rest);
      assert HeldFlags(st, asked) == [asked[0] in st.blobs] + HeldFlags(st, asked[1..]);
      forall i | 0 <= i < |at|
        ensures at[i] < |asked| && asked[at[i]] in st.blobs
        ensures HeldItems(st, asked)[i] == (asked[at[i]].0, asked[at[i]].1, st.blobs[asked[at[i]]])
      {
        var n := if asked[0] in st.blobs then 1 else 0;
        if i >= n { assert at[i] == rest[i - n] + 1 && HeldItems(st, asked)[i] == HeldItems(st, asked[1..])[i - n]; }
      }
    }
  }

  /** The pack is there, and is what its name says. */
  predicate Intact(lib: Lib, st: Store, name: BlobId) {
    name in st.packs && lib.hash(st.packs[name]) == name
  }

  function IntactFlags(lib: Lib, st: Store, names: seq<BlobId>): seq<bool> {
    seq(|names|, i requires 0 <= i < |names| => Intact(lib, st, names[i]))
  }

  /** One pack frame per place, each with the stored bytes of the pack asked for there, and then one
      terminator. */
  ghost predicate PackReply(lib: Lib, st: Store, names: seq<BlobId>, at: seq<nat>, reply: seq<Frame>) {
    && |reply| == |at| + 1 && reply[|at|] == TERMINATOR
    && forall i :: 0 <= i < |at| ==> PackAt(lib, st, names, at[i], reply[i])
  }

  predicate PackAt(lib: Lib, st: Store, names: seq<BlobId>, k: nat, f: Frame) {
    k < |names| && Intact(lib, st, names[k]) && f == PackFile(names[k], st.packs[names[k]])
  }

  /** The reply to a pack request: one frame for each requested pack that is there and hashes to its
      name, in request order and with its bytes, then one terminator. */
  lemma {:induction false} PackShape(lib: Lib, st: Store, names: seq<BlobId>) returns (at: seq<nat>)
    ensures Picks(at, IntactFlags(lib, st, names)) && PackReply(lib, st, names, at, ServePacks(lib, st, names))
    decreases |names|
  {
    hide Picks, PackReply, Intact, IntactFlags;
    if names == [] {
      at := [];
      NoPacks(lib, st);
    } else {
      var rest := PackShape(lib, st, names[1..]);
      var first := Intact(lib, st, names[0]);
      PicksCons(rest, first, IntactFlags(lib, st, names[1..]));
      at := (if first then [0] else []) + Shifted(rest);
      FlagsCons(lib, st, names);
      PackCons(lib, st, names, rest, ServePacks(lib, st, names[1..]));
      ServeOne(lib, st, names);
    }
  }

  lemma NoPacks(lib: Lib, st: Store)
    ensures Picks([], IntactFlags(lib, st, [])) && PackReply(lib, st, [], [], ServePacks(lib, st, []))
  {
  }

  lemma FlagsCons(lib: Lib, st: Store, names: seq<BlobId>)
    requires names != []
    ensures IntactFlags(lib, st, names) == [Intact(lib, st, names[0])] + IntactFlags(lib, st, names[1..])
  {
    hide Intact;
  }

  lemma ServeOne(lib: Lib, st: Store, names: seq<BlobId>)
    requires names != []
    ensures ServePacks(lib, st, names) == PackOne(lib, st, names[0]) + ServePacks(lib, st, names[1..])
  {
  }

  function PackOne(lib: Lib, st: Store, name: BlobId): seq<Frame> {
    if Intact(lib, st, name) then [PackFile(name, st.packs[name])] else []
  }

  lemma PackCons(lib: Lib, st: Store, names: seq<BlobId>, rest: seq<nat>, more: seq<Frame>)
    requires names != [] && PackReply(lib, st, names[1..], rest, more)
    ensures PackReply(lib, st, names, (if Intact(lib, st, names[0]) then [0] else []) + Shifted(rest),
                      PackOne(lib, st, names[0]) + more)
  {
    var first := Intact(lib, st, names[0]);
    var at, reply := (if first then [0] else []) + Shifted(rest), PackOne(lib, st, names[0]) + more;
    hide Intact;
    var n := if first then 1 else 0;
    forall i | 0 <= i < |at| ensures PackAt(lib, st, names, at[i], reply[i]) {
      if i >= n {
        assert at[i] == rest[i - n] + 1 && reply[i] == more[i - n];
        assert PackAt(lib, st, names[1..], rest[i - n], more[i - n]);
      }
    }
  }

  // ---- whole replies -----------------------------------------------------------------------

  /** A reply to a request for packs, with no more said than what it holds. */
  ghost predicate AnswersPacks(lib: Lib, st: Store, names: seq<BlobId>, reply: seq<Frame>) {
    exists at: seq<nat> :: Picks(at, IntactFlags(lib, st, names)) && PackReply(lib, st, names, at, reply)
  }

  /** A reply to a request for items: batches that are full but the last, then one terminator; the
      items in them are those requested and held, in request order. */
  ghost predicate AnswersItems(st: Store, asked: seq<(Kind, BlobId)>, reply: seq<Frame>) {
    exists bs: seq<seq<Item>>, at: seq<nat> ::
      && Picks(at, HeldFlags(st, asked)) && ItemReply(st, asked, at, bs) && reply == Frames(bs) + [TERMINATOR]
  }

  ghost predicate ItemReply(st: Store, asked: seq<(Kind, BlobId)>, at: seq<nat>, bs: seq<seq<Item>>) {
    && (forall b :: b in bs ==> Batch(b)) && (forall i :: 0 <= i < |bs| - 1 ==> FullBatch(bs[i]))
    && |at| == |Flatten(bs)| && forall i :: 0 <= i < |at| ==> ItemAt(st, asked, at[i], Flatten(bs)[i])
  }

  predicate ItemAt(st: Store, asked: seq<(Kind, BlobId)>, k: nat, x: Item) {
    k < |asked| && asked[k] in st.blobs && x == (asked[k].0, asked[k].1, st.blobs[asked[k]])
  }

  lemma PacksAnswered(lib: Lib, st: Store, names: seq<BlobId>)
    ensures AnswersPacks(lib, st, names, ServePacks(lib, st, names))
  {
    hide Picks, PackReply, IntactFlags;
    var at := PackShape(lib, st, names);
  }

  lemma ItemsAnswered(st: Store, asked: seq<(Kind, BlobId)>)
    ensures AnswersItems(st, asked, ServeItems(st, asked))
  {
    hide Picks, HeldFlags, Batch, FullBatch, Frames, Flatten, HeldItems;
    var bs := ServeShape(st, asked);
    var at := HeldOrder(st, asked);
    forall i | 0 <= i < |at| ensures ItemAt(st, asked, at[i], Flatten(bs)[i]) {}
    assert ItemReply(st, asked, at, bs);
  }
}
