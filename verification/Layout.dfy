/** The bytes of a packet, place by place. */
module Layout {
  import opened Blobs
  import opened Protocol
  import opened Wire
  import opened Codec
  import opened Streams

  // ---- places ------------------------------------------------------------------------------------

  /** From `at` on, `n` bytes hold `v`, the lowest byte first; what does not fit is cut off. */
  predicate LowFirstAt(b: Bytes, at: nat, n: nat, v: nat) {
    at + n <= |b| && forall i :: 0 <= i < n ==> b[at + i] as nat == (v / Pow256(i)) % 256
  }

  predicate BytesAt(b: Bytes, at: nat, x: Bytes) { at + |x| <= |b| && b[at..at + |x|] == x }

  predicate KindByte(k: Kind, b: byte) {
    (k.DataChunk? && b == 1) || (k.TreeNode? && b == 2) || (k.Manifest? && b == 3) || (k.Polynomial? && b == 4)
  }

  predicate ReasonByte(r: Reason, b: byte) {
    || (r.Normal? && b == 0) || (r.VersionIncompatible? && b == 1) || (r.ProtocolViolation? && b == 2)
    || (r.AuthFailed? && b == 3) || (r.ResourceLimit? && b == 4) || (r.Internal? && b == 5)
  }

  predicate TypeByte(m: Message, b: byte) {
    || (m.Hello? && b == 0x01) || (m.HelloAck? && b == 0x02) || (m.FolderOffer? && b == 0x05)
    || (m.RequestItems? && b == 0x07) || (m.RequestPacks? && b == 0x08) || (m.ItemBatch? && b == 0x09)
    || (m.PackItem? && b == 0x0A) || (m.Bye? && b == 0x0B)
  }

  predicate ItemPlaced(b: Bytes, at: nat, x: Item) {
    at + 33 <= |b| && KindByte(x.0, b[at]) && BytesAt(b, at + 1, x.1)
  }

  predicate BlobPlaced(b: Bytes, at: nat, x: Blob) {
    && at + 41 <= |b| && KindByte(x.0, b[at]) && BytesAt(b, at + 1, x.1)
    && LowFirstAt(b, at + 33, 8, |x.2|) && BytesAt(b, at + 41, x.2)
  }

  /** The blobs follow one another from byte 4 to the end. */
  ghost predicate BlobsPlaced(b: Bytes, xs: seq<Blob>, at: seq<nat>) {
    && |at| == |xs| + 1 && at[0] == 4 && at[|xs|] == |b|
    && forall i :: 0 <= i < |xs| ==> BlobPlaced(b, at[i], xs[i]) && at[i + 1] == at[i] + 41 + |xs[i].2|
  }

  /** Where each field of a message is in its payload, and that nothing else is in it. */
  ghost predicate LaidOut(m: Message, b: Bytes) {
    match m
    case Hello(version, flags, eph, stat, nonce) =>
      && |b| == 106 && LowFirstAt(b, 0, 2, version) && LowFirstAt(b, 2, 8, flags)
      && BytesAt(b, 10, eph) && BytesAt(b, 42, stat) && BytesAt(b, 74, nonce)
    case HelloAck(version, agreed, flags, eph, stat, nonce) =>
      && |b| == 108 && LowFirstAt(b, 0, 2, version) && LowFirstAt(b, 2, 2, agreed) && LowFirstAt(b, 4, 8, flags)
      && BytesAt(b, 12, eph) && BytesAt(b, 44, stat) && BytesAt(b, 76, nonce)
    case FolderOffer(folder, manifest, reserved) =>
      |b| == 52 && BytesAt(b, 0, folder) && BytesAt(b, 16, manifest) && LowFirstAt(b, 48, 4, reserved)
    case RequestItems(folder, items) =>
      && |b| == 20 + 33 * |items| && BytesAt(b, 0, folder) && LowFirstAt(b, 16, 4, |items|)
      && forall i :: 0 <= i < |items| ==> ItemPlaced(b, 20 + 33 * i, items[i])
    case RequestPacks(folder, packs) =>
      && |b| == 20 + 32 * |packs| && BytesAt(b, 0, folder) && LowFirstAt(b, 16, 4, |packs|)
      && forall i :: 0 <= i < |packs| ==> BytesAt(b, 20 + 32 * i, packs[i])
    case ItemBatch(blobs) =>
      |b| >= 4 && LowFirstAt(b, 0, 4, |blobs|) && exists at: seq<nat> :: BlobsPlaced(b, blobs, at)
    case PackItem(pack, bytes) =>
      |b| == 36 + |bytes| && BytesAt(b, 0, pack) && LowFirstAt(b, 32, 4, |bytes|) && BytesAt(b, 36, bytes)
    case Bye(reason) => |b| == 1 && ReasonByte(reason, b[0])
  }

  // ---- how parts come to their places ------------------------------------------------------------

  lemma LittlePlaced(n: nat, v: nat)
    ensures LowFirstAt(Little(n, v), 0, n, v)
  {
    hide Little;
    forall i | 0 <= i < n ensures Little(n, v)[0 + i] as nat == (v / Pow256(i)) % 256 { LittleAt(n, v, i); }
  }

  /** A part stays in place when bytes are put around it. */
  lemma NumberMoves(b: Bytes, a: Bytes, c: Bytes, n: nat, v: nat)
    requires LowFirstAt(b, 0, n, v)
    ensures LowFirstAt(a + b + c, |a|, n, v)
  {
    forall i | 0 <= i < n ensures (a + b + c)[|a| + i] as nat == (v / Pow256(i)) % 256 {
      assert (a + b + c)[|a| + i] == b[0 + i];
    }
  }

  lemma LittleMoves(p: Bytes, a: Bytes, n: nat, v: nat, c: Bytes)
    requires p == a + Little(n, v) + c
    ensures LowFirstAt(p, |a|, n, v)
  {
    LittlePlaced(n, v);
    NumberMoves(Little(n, v), a, c, n, v);
  }

  // ---- fixed layouts -----------------------------------------------------------------------------

  lemma HelloGroups(p: Bytes, a: Bytes, b: Bytes, c: Bytes, d: Bytes, e: Bytes)
    requires p == a + b + c + d + e
    ensures p == [] + a + (b + c + d + e) && p == a + b + (c + d + e)
  {
  }

  lemma HelloLaid(m: Message)
    requires m.Hello? && Typed(m)
    ensures LaidOut(m, Image(m))
  {
    hide Little, Pow256, LowFirstAt;
    var b, v, f := Image(m), Little(2, m.version), Little(8, m.flags);
    HelloParts(b, v, f, m.ephPub, m.statPub, m.nonce);
    HelloGroups(b, v, f, m.ephPub, m.statPub, m.nonce);
    LittleMoves(b, [], 2, m.version, f + m.ephPub + m.statPub + m.nonce);
    LittleMoves(b, v, 8, m.flags, m.ephPub + m.statPub + m.nonce);
  }

  lemma AckGroups(p: Bytes, a: Bytes, b: Bytes, c: Bytes, d: Bytes, e: Bytes, f: Bytes)
    requires p == a + b + c + d + e + f
    ensures p == [] + a + (b + c + d + e + f) && p == a + b + (c + d + e + f) && p == a + b + c + (d + e + f)
  {
  }

  lemma AckParts(p: Bytes, a: Bytes, b: Bytes, c: Bytes, d: Bytes, e: Bytes, f: Bytes)
    requires p == a + b + c + d + e + f && |a| == 2 && |b| == 2 && |c| == 8 && |d| == 32 && |e| == 32 && |f| == 32
    ensures |p| == 108 && BytesAt(p, 12, d) && BytesAt(p, 44, e) && BytesAt(p, 76, f)
  {
  }

  lemma HelloAckLaid(m: Message)
    requires m.HelloAck? && Typed(m)
    ensures LaidOut(m, Image(m))
  {
    hide Little, Pow256, LowFirstAt, BytesAt;
    var b, v, g, f := Image(m), Little(2, m.version), Little(2, m.agreed), Little(8, m.flags);
    AckParts(b, v, g, f, m.ephPub, m.statPub, m.nonce);
    AckGroups(b, v, g, f, m.ephPub, m.statPub, m.nonce);
    LittleMoves(b, [], 2, m.version, g + f + m.ephPub + m.statPub + m.nonce);
    LittleMoves(b, v, 2, m.agreed, f + m.ephPub + m.statPub + m.nonce);
    LittleMoves(b, v + g, 8, m.flags, m.ephPub + m.statPub + m.nonce);
  }

  lemma OfferLaid(m: Message)
    requires m.FolderOffer? && Typed(m)
    ensures LaidOut(m, Image(m))
  {
    hide Little, Pow256, LowFirstAt;
    var b := Image(m);
    assert b == m.folder + m.manifest + Little(4, m.reserved) + [];
    LittleMoves(b, m.folder + m.manifest, 4, m.reserved, []);
  }

  lemma PackItemLaid(m: Message)
    requires m.PackItem? && Typed(m)
    ensures LaidOut(m, Image(m))
  {
    hide Little, Pow256, LowFirstAt;
    LittleMoves(Image(m), m.pack, 4, |m.bytes|, m.bytes);
  }

  // ---- lists -------------------------------------------------------------------------------------

  /** Each element of a list is where the ones before it end. */
  lemma {:induction false} PutPlaced<T>(f: Format<T>, xs: seq<T>, i: nat)
    requires i < |xs|
    ensures var a := |PutAll(f, xs[..i])|;
            && |PutAll(f, xs[..i + 1])| == a + |f.put(xs[i])| <= |PutAll(f, xs)|
            && PutAll(f, xs)[a..a + |f.put(xs[i])|] == f.put(xs[i])
    decreases |xs|
  {
    PutNext(f, xs, i);
    var last := |xs| - 1;
    var init := xs[..last];
    assert xs[..|xs|] == xs;
    if i < last {
      PutPlaced(f, init, i);
      assert init[i] == xs[i] && init[..i] == xs[..i] && init[..i + 1] == xs[..i + 1];
      assert PutAll(f, xs) == PutAll(f, init) + f.put(xs[last]);
    } else {
      assert PutAll(f, xs) == PutAll(f, xs[..i]) + f.put(xs[i]);
    }
  }

  lemma {:induction false} ItemsLong(items: seq<Item>)
    requires AllOk(ItemFormat(), items)
    ensures |PutAll(ItemFormat(), items)| == 33 * |items|
  {
    if items != [] {
      var init := items[..|items| - 1];
      assert AllOk(ItemFormat(), init);
      assert ItemFormat().ok(items[|items| - 1]);
      ItemsLong(init);
    }
  }

  lemma ItemsLaid(m: Message)
    requires m.RequestItems? && Typed(m)
    ensures LaidOut(m, Image(m))
  {
    hide Little, Pow256, LowFirstAt, PutAll;
    var b, items, f := Image(m), m.items, ItemFormat();
    LittleMoves(b, m.folder, 4, |items|, PutAll(f, items));
    ItemsLong(items);
    forall i | 0 <= i < |items| ensures ItemPlaced(b, 20 + 33 * i, items[i]) {
      ItemAt(items, i);
      PutInside(b, m.folder + Little(4, |items|), PutAll(f, items), 33 * i, f.put(items[i]));
      ItemSplit(b, 20 + 33 * i, items[i]);
    }
  }

  lemma ItemAt(items: seq<Item>, i: nat)
    requires AllOk(ItemFormat(), items) && i < |items|
    ensures var f := ItemFormat();
            && |f.put(items[i])| == 33 && 33 * i + 33 <= |PutAll(f, items)|
            && PutAll(f, items)[33 * i..33 * i + 33] == f.put(items[i])
  {
    hide PutAll;
    assert ItemFormat().ok(items[i]);
    ItemsLong(items[..i]);
    PutPlaced(ItemFormat(), items, i);
  }

  lemma PutInside(b: Bytes, head: Bytes, list: Bytes, a: nat, x: Bytes)
    requires b == head + list && a + |x| <= |list| && list[a..a + |x|] == x
    ensures BytesAt(b, |head| + a, x)
  {
  }

  lemma ItemSplit(b: Bytes, at: nat, x: Item)
    requires |x.1| == 32 && BytesAt(b, at, ItemFormat().put(x))
    ensures ItemPlaced(b, at, x)
  {
    var y := [KindCode(x.0)] + x.1;
    assert b[at..at + 33] == y;
    assert b[at] == y[0] && b[at + 1..at + 33] == b[at..at + 33][1..] && y[1..] == x.1;
  }

  lemma {:induction false} PacksLong(packs: seq<Bytes>)
    requires AllOk(PackFormat(), packs)
    ensures |PutAll(PackFormat(), packs)| == 32 * |packs|
  {
    if packs != [] {
      var init := packs[..|packs| - 1];
      assert AllOk(PackFormat(), init);
      assert PackFormat().ok(packs[|packs| - 1]);
      PacksLong(init);
    }
  }

  lemma PacksLaid(m: Message)
    requires m.RequestPacks? && Typed(m)
    ensures LaidOut(m, Image(m))
  {
    hide Little, Pow256, LowFirstAt, PutAll;
    var b, packs, f := Image(m), m.packs, PackFormat();
    LittleMoves(b, m.folder, 4, |packs|, PutAll(f, packs));
    PacksLong(packs);
    forall i | 0 <= i < |packs| ensures BytesAt(b, 20 + 32 * i, packs[i]) {
      PackAt(packs, i);
      PutInside(b, m.folder + Little(4, |packs|), PutAll(f, packs), 32 * i, f.put(packs[i]));
    }
  }

  lemma PackAt(packs: seq<Bytes>, i: nat)
    requires AllOk(PackFormat(), packs) && i < |packs|
    ensures var f := PackFormat();
            && |f.put(packs[i])| == 32 && 32 * i + 32 <= |PutAll(f, packs)|
            && PutAll(f, packs)[32 * i..32 * i + 32] == f.put(packs[i])
  {
    hide PutAll;
    assert PackFormat().ok(packs[i]);
    PacksLong(packs[..i]);
    PutPlaced(PackFormat(), packs, i);
  }

  lemma BatchLaid(m: Message)
    requires m.ItemBatch? && Typed(m)
    ensures LaidOut(m, Image(m))
  {
    hide Little, Pow256, LowFirstAt, PutAll;
    var b, xs, f := Image(m), m.blobs, BlobFormat();
    assert b == [] + Little(4, |xs|) + PutAll(f, xs);
    LittleMoves(b, [], 4, |xs|, PutAll(f, xs));
    var at: seq<nat> := seq(|xs| + 1, i requires 0 <= i <= |xs| => 4 + |PutAll(f, xs[..i])|);
    PutNone(f);
    assert xs[..0] == [] && xs[..|xs|] == xs;
    forall i | 0 <= i < |xs| ensures BlobPlaced(b, at[i], xs[i]) && at[i + 1] == at[i] + 41 + |xs[i].2| {
      BlobAt(xs, i);
      PutInside(b, Little(4, |xs|), PutAll(f, xs), |PutAll(f, xs[..i])|, PutBlob(xs[i]));
      BlobSplit(b, at[i], xs[i]);
    }
    assert BlobsPlaced(b, xs, at);
  }

  lemma BlobAt(xs: seq<Blob>, i: nat)
    requires AllOk(BlobFormat(), xs) && i < |xs|
    ensures var f := BlobFormat(); var a := |PutAll(f, xs[..i])|;
            && |xs[i].1| == 32 && |PutBlob(xs[i])| == 41 + |xs[i].2|
            && |PutAll(f, xs[..i + 1])| == a + |PutBlob(xs[i])| <= |PutAll(f, xs)|
            && PutAll(f, xs)[a..a + |PutBlob(xs[i])|] == PutBlob(xs[i])
  {
    hide PutAll, Little;
    assert BlobFormat().ok(xs[i]) && BlobFormat().put(xs[i]) == PutBlob(xs[i]);
    PutPlaced(BlobFormat(), xs, i);
  }

  lemma SliceTwice(b: Bytes, lo: nat, hi: nat, i: nat, j: nat)
    requires lo <= hi <= |b| && i <= j <= hi - lo
    ensures b[lo..hi][i..j] == b[lo + i..lo + j]
  {
    var c := b[lo..hi];
    forall k | 0 <= k < j - i ensures c[i..j][k] == b[lo + i..lo + j][k] { assert c[i + k] == b[lo + (i + k)]; }
  }

  lemma BlobAround(a: Bytes, k: Bytes, id: Bytes, n: Bytes, x: Bytes, c: Bytes)
    ensures a + (k + id + n + x) + c == (a + k + id) + n + (x + c)
  {
  }

  lemma BlobSplit(b: Bytes, at: nat, x: Blob)
    requires |x.1| == 32 && BytesAt(b, at, PutBlob(x))
    ensures BlobPlaced(b, at, x)
  {
    hide Little, Pow256, LowFirstAt;
    var y, n := PutBlob(x), Little(8, |x.2|);
    var end := at + |y|;
    assert b[at..end] == y;
    assert b[at] == y[0] == KindCode(x.0);
    SliceTwice(b, at, end, 1, 33);
    SliceTwice(b, at, end, 41, |y|);
    assert y[1..33] == x.1 && y[41..|y|] == x.2;
    BlobAround(b[..at], [KindCode(x.0)], x.1, n, x.2, b[end..]);
    assert b == b[..at] + y + b[end..];
    LittleMoves(b, b[..at] + [KindCode(x.0)] + x.1, 8, |x.2|, x.2 + b[end..]);
  }

  // ---- any message, and its packet -----------------------------------------------------------------

  /** A payload has each field in its place. */
  lemma PayloadLaid(m: Message)
    requires Typed(m)
    ensures LaidOut(m, Image(m)) && TypeByte(m, TypeOf(m))
  {
    hide LaidOut, Typed;
    match m {
      case Hello(_, _, _, _, _) => HelloLaid(m);
      case HelloAck(_, _, _, _, _, _) => HelloAckLaid(m);
      case FolderOffer(_, _, _) => OfferLaid(m);
      case RequestItems(_, _) => ItemsLaid(m);
      case RequestPacks(_, _) => PacksLaid(m);
      case ItemBatch(_) => BatchLaid(m);
      case PackItem(_, _) => PackItemLaid(m);
      case Bye(_) => ByeLaid(m);
    }
  }

  lemma ByeLaid(m: Message)
    requires m.Bye?
    ensures LaidOut(m, Image(m))
  {
  }

  /** A message on the wire: the length of what follows in four bytes, the highest first; the four
      bytes of "FRW1"; the type; the version in two bytes, the lowest first; and the payload. */
  lemma PacketLaid(m: Message, version: nat)
    requires Typed(m) && Fits(m)
    ensures var p, n := Packet(m, version), 7 + |Image(m)|;
            && |p| == 4 + n
            && (forall i :: 0 <= i < 4 ==> p[i] as nat == (n / Pow256(3 - i)) % 256)
            && p[4] == 0x46 && p[5] == 0x52 && p[6] == 0x57 && p[7] == 0x31
            && TypeByte(m, p[8]) && LowFirstAt(p, 9, 2, version) && LaidOut(m, p[11..])
  {
    hide Little, Big, Image, LaidOut, Typed, Fits, LowFirstAt, TypeByte, TypeOf, Pow256;
    PayloadLaid(m);
    var p, body := Packet(m, version), BodyImage(FrameBody(TypeOf(m), version, Image(m)));
    forall i | 0 <= i < 4 ensures p[i] as nat == (|body| / Pow256(3 - i)) % 256 { BigAt(4, |body|, i); }
    assert p == (Big(4, |body|) + MAGIC + [TypeOf(m)]) + Little(2, version) + Image(m);
    LittleMoves(p, Big(4, |body|) + MAGIC + [TypeOf(m)], 2, version, Image(m));
    assert p[11..] == Image(m);
  }
}
