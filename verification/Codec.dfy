/** The messages of the protocol and their bytes. */
module Codec {
  import opened Blobs
  import opened Protocol
  import opened Wire

  type Item = (Kind, Bytes)
  type Blob = (Kind, Bytes, Bytes)

  datatype Message =
    | Hello(version: nat, flags: nat, ephPub: Bytes, statPub: Bytes, nonce: Bytes)
    | HelloAck(version: nat, agreed: nat, flags: nat, ephPub: Bytes, statPub: Bytes, nonce: Bytes)
    | FolderOffer(folder: Bytes, manifest: Bytes, reserved: nat)
    | RequestItems(folder: Bytes, items: seq<Item>)
    | RequestPacks(folder: Bytes, packs: seq<Bytes>)
    | ItemBatch(blobs: seq<Blob>)
    | PackItem(pack: Bytes, bytes: Bytes)
    | Bye(reason: Reason)

  const U16 := 0x1_0000
  const U32 := 0x1_0000_0000
  const U64 := 0x1_0000_0000_0000_0000

  function KindCode(k: Kind): byte {
    match k case DataChunk => 1 case TreeNode => 2 case Manifest => 3 case Polynomial => 4
  }

  function KindOf(b: byte): Option<Kind> {
    if b == 1 then Some(DataChunk) else if b == 2 then Some(TreeNode) else if b == 3 then Some(Manifest)
    else if b == 4 then Some(Polynomial) else None
  }

  function ReasonCode(r: Reason): byte {
    match r case Normal => 0 case VersionIncompatible => 1 case ProtocolViolation => 2 case AuthFailed => 3
            case ResourceLimit => 4 case Internal => 5
  }

  function ReasonOf(b: byte): Option<Reason> {
    if b == 0 then Some(Normal) else if b == 1 then Some(VersionIncompatible) else if b == 2
      then Some(ProtocolViolation)
    else if b == 3 then Some(AuthFailed) else if b == 4 then Some(ResourceLimit) else if b == 5
      then Some(Internal) else None
  }

  // ---- elements of lists -----------------------------------------------------------------------

  function ItemFormat(): Format<Item> {
    Format((x: Item) => [KindCode(x.0)] + x.1,
           (b: Bytes) => if |b| < 33 || KindOf(b[0]).None?
             then None else Some(((KindOf(b[0]).value, b[1..33]), b[33..])),
           (x: Item) => |x.1| == 32)
  }

  lemma ItemExact()
    ensures Exact(ItemFormat())
  {
    var f := ItemFormat();
    forall b: Bytes, x: Item, rest: Bytes ensures f.get(b) == Some((x, rest)) <==> f.ok(x) && b == f.put(x) + rest {
      if f.get(b) == Some((x, rest)) { assert b == [b[0]] + b[1..33] + b[33..]; }
      if f.ok(x) && b == f.put(x) + rest { assert b[0] == KindCode(x.0) && b[1..33] == x.1 && b[33..] == rest; }
    }
  }

  function PackFormat(): Format<Bytes> {
    Format((x: Bytes) => x, (b: Bytes) => if |b| < 32 then None else Some((b[..32], b[32..])), (x: Bytes) => |x| == 32)
  }

  lemma PackExact()
    ensures Exact(PackFormat())
  {
    var f := PackFormat();
    forall b: Bytes, x: Bytes, rest: Bytes ensures f.get(b) == Some((x, rest)) <==> f.ok(x) && b == f.put(x) + rest {
      if |b| >= 32 { assert b == b[..32] + b[32..]; }
      if b == x + rest { assert b[..|x|] == x && b[|x|..] == rest; }
    }
  }

  function GetBlob(b: Bytes): Option<(Blob, Bytes)> {
    if |b| < 41 || KindOf(b[0]).None? then None
    else
      var len := FromLittle(b[33..41]);
      if |b| - 41 < len then None else Some(((KindOf(b[0]).value, b[1..33], b[41..41 + len]), b[41 + len..]))
  }

  function PutBlob(x: Blob): Bytes { [KindCode(x.0)] + x.1 + Little(8, |x.2|) + x.2 }

  function BlobFormat(): Format<Blob> {
    Format(PutBlob, GetBlob, (x: Blob) => |x.1| == 32 && |x.2| < U64)
  }

  lemma BlobExact()
    ensures Exact(BlobFormat())
  {
    var f := BlobFormat();
    forall b: Bytes, x: Blob, rest: Bytes ensures f.get(b) == Some((x, rest)) <==> f.ok(x) && b == f.put(x) + rest {
      if f.get(b) == Some((x, rest)) { BlobSound(b, x, rest); }
      if f.ok(x) && b == f.put(x) + rest { BlobComplete(x, rest); }
    }
  }

  lemma BlobSound(b: Bytes, x: Blob, rest: Bytes)
    requires GetBlob(b) == Some((x, rest))
    ensures |x.1| == 32 && |x.2| < U64 && b == PutBlob(x) + rest
  {
    var len := FromLittle(b[33..41]);
    Widths();
    FromLittleInverse(b[33..41]);
    assert b == [b[0]] + b[1..33] + b[33..41] + b[41..41 + len] + b[41 + len..];
  }

  lemma BlobComplete(x: Blob, rest: Bytes)
    requires |x.1| == 32 && |x.2| < U64
    ensures GetBlob(PutBlob(x) + rest) == Some((x, rest))
  {
    var b := PutBlob(x) + rest;
    Widths();
    LittleInverse(8, |x.2|);
    assert b[0] == KindCode(x.0) && b[1..33] == x.1 && b[33..41] == Little(8, |x.2|);
    assert b[41..41 + |x.2|] == x.2 && b[41 + |x.2|..] == rest;
  }

  // ---- images ----------------------------------------------------------------------------------

  /** What encoding writes. A pack's length is cut to 32 bits. */
  function Image(m: Message): Bytes {
    match m
    case Hello(version, flags, eph, stat, nonce) => Little(2, version) + Little(8, flags) + eph + stat + nonce
    case HelloAck(version, agreed, flags, eph, stat, nonce) =>
      Little(2, version) + Little(2, agreed) + Little(8, flags) + eph + stat + nonce
    case FolderOffer(folder, manifest, reserved) => folder + manifest + Little(4, reserved)
    case RequestItems(folder, items) => folder + Little(4, |items|) + PutAll(ItemFormat(), items)
    case RequestPacks(folder, packs) => folder + Little(4, |packs|) + PutAll(PackFormat(), packs)
    case ItemBatch(blobs) => Little(4, |blobs|) + PutAll(BlobFormat(), blobs)
    case PackItem(pack, bytes) => pack + Little(4, |bytes|) + bytes
    case Bye(reason) => [ReasonCode(reason)]
  }

  /** What the field types guarantee. */
  ghost predicate Typed(m: Message) {
    match m
    case Hello(version, flags, eph, stat, nonce) => version < U16 && flags < U64 && |eph| == 32 && |stat| == 32
      && |nonce| == 32
    case HelloAck(version, agreed, flags, eph, stat, nonce) =>
      version < U16 && agreed < U16 && flags < U64 && |eph| == 32 && |stat| == 32 && |nonce| == 32
    case FolderOffer(folder, manifest, reserved) => |folder| == 16 && |manifest| == 32 && reserved < U32
    case RequestItems(folder, items) => |folder| == 16 && AllOk(ItemFormat(), items)
    case RequestPacks(folder, packs) => |folder| == 16 && AllOk(PackFormat(), packs)
    case ItemBatch(blobs) => AllOk(BlobFormat(), blobs)
    case PackItem(pack, _) => |pack| == 32
    case Bye(_) => true
  }

  /** What parsing accepts, beyond the types. */
  predicate Canonical(m: Message) {
    match m
    case FolderOffer(_, _, reserved) => reserved == 0
    case RequestItems(_, items) => |items| <= MAX_ITEMS
    case RequestPacks(_, packs) => |packs| <= MAX_PACKS
    case ItemBatch(blobs) => |blobs| <= MAX_ITEMS
    case PackItem(_, bytes) => 0 < |bytes| < U32
    case _ => true
  }

  /** What encoding accepts. */
  predicate Encodable(m: Message) {
    match m
    case RequestItems(_, items) => |items| <= MAX_ITEMS
    case RequestPacks(_, packs) => |packs| <= MAX_PACKS
    case ItemBatch(blobs) => |blobs| <= MAX_ITEMS && forall i :: 0 <= i < |blobs| ==> blobs[i].2 != []
    case _ => true
  }

  ghost predicate Means(m: Message, payload: Bytes) {
    Typed(m) && Canonical(m) && Image(m) == payload
  }

  // ---- encoding ----------------------------------------------------------------------------------

  method Encode(m: Message) returns (out: Option<Bytes>)
    ensures out == if Encodable(m) then Some(Image(m)) else None
  {
    match m {
      case RequestItems(folder, items) => out := EncodeItems(folder, items);
      case RequestPacks(folder, packs) => out := EncodePacks(folder, packs);
      case ItemBatch(blobs) => out := EncodeBatch(blobs);
      case _ => var buf := EncodeFixed(m); out := Some(buf);
    }
  }

  /** The messages without a list: one field after the other. */
  method EncodeFixed(m: Message) returns (buf: Bytes)
    requires !m.RequestItems? && !m.RequestPacks? && !m.ItemBatch?
    ensures buf == Image(m)
  {
    hide Little;
    buf := [];
    match m {
      case Hello(version, flags, eph, stat, nonce) =>
        buf := buf + Little(2, version);
        buf := buf + Little(8, flags);
        buf := buf + eph;
        buf := buf + stat;
        buf := buf + nonce;
      case HelloAck(version, agreed, flags, eph, stat, nonce) =>
        buf := buf + Little(2, version);
        buf := buf + Little(2, agreed);
        buf := buf + Little(8, flags);
        buf := buf + eph;
        buf := buf + stat;
        buf := buf + nonce;
      case FolderOffer(folder, manifest, reserved) =>
        buf := buf + folder;
        buf := buf + manifest;
        buf := buf + Little(4, reserved);
      case PackItem(pack, bytes) =>
        buf := buf + pack;
        buf := buf + Little(4, |bytes|);
        buf := buf + bytes;
      case Bye(reason) => buf := [ReasonCode(reason)];
    }
  }

  method EncodeItems(folder: Bytes, items: seq<Item>) returns (out: Option<Bytes>)
    ensures var m := RequestItems(folder, items); out == if Encodable(m) then Some(Image(m)) else None
  {
    if |items| > MAX_ITEMS { return None; }
    var buf := folder + Little(4, |items|);
    ghost var head := buf;
    for i := 0 to |items|
      invariant buf == head + PutAll(ItemFormat(), items[..i])
    {
      assert items[..i + 1][..i] == items[..i];
      buf := buf + [KindCode(items[i].0)] + items[i].1;
      assert buf == head + (PutAll(ItemFormat(), items[..i]) + ItemFormat().put(items[i]));
    }
    assert items[..|items|] == items;
    out := Some(buf);
  }

  method EncodePacks(folder: Bytes, packs: seq<Bytes>) returns (out: Option<Bytes>)
    ensures var m := RequestPacks(folder, packs); out == if Encodable(m) then Some(Image(m)) else None
  {
    if |packs| > MAX_PACKS { return None; }
    var buf := folder + Little(4, |packs|);
    ghost var head := buf;
    for i := 0 to |packs|
      invariant buf == head + PutAll(PackFormat(), packs[..i])
    {
      assert packs[..i + 1][..i] == packs[..i];
      buf := buf + packs[i];
      assert buf == head + (PutAll(PackFormat(), packs[..i]) + PackFormat().put(packs[i]));
    }
    assert packs[..|packs|] == packs;
    out := Some(buf);
  }

  method EncodeBatch(blobs: seq<Blob>) returns (out: Option<Bytes>)
    ensures var m := ItemBatch(blobs); out == if Encodable(m) then Some(Image(m)) else None
  {
    hide PutAll, Little, KindCode;
    if |blobs| > MAX_ITEMS { return None; }
    var buf := Little(4, |blobs|);
    PutNone(BlobFormat());
    ghost var head := buf;
    for i := 0 to |blobs|
      invariant buf == head + PutAll(BlobFormat(), blobs[..i]) && forall k :: 0 <= k < i ==> blobs[k].2 != []
    {
      if blobs[i].2 == [] { return None; }
      PutNext(BlobFormat(), blobs, i);
      BlobAppended(buf, blobs[i]);
      ghost var done := PutAll(BlobFormat(), blobs[..i]);
      buf := buf + [KindCode(blobs[i].0)] + blobs[i].1 + Little(8, |blobs[i].2|) + blobs[i].2;
      assert buf == head + (done + BlobFormat().put(blobs[i]));
    }
    assert blobs[..|blobs|] == blobs;
    out := Some(buf);
  }

  lemma BlobAppended(buf: Bytes, x: Blob)
    ensures buf + [KindCode(x.0)] + x.1 + Little(8, |x.2|) + x.2 == buf + PutBlob(x)
  {
    hide Little, KindCode;
  }

  // ---- parsing: fixed layouts ----------------------------------------------------------------------

  lemma HelloRead(p: Bytes, m: Message)
    requires m.Hello? && Means(m, p)
    ensures |p| == 106 && m == Hello(FromLittle(p[..2]), FromLittle(p[2..10]), p[10..42], p[42..74], p[74..106])
  {
    Widths();
    LittleInverse(2, m.version);
    LittleInverse(8, m.flags);
    hide Little, FromLittle, Pow256;
    HelloParts(p, Little(2, m.version), Little(8, m.flags), m.ephPub, m.statPub, m.nonce);
  }

  lemma HelloParts(p: Bytes, a: Bytes, b: Bytes, c: Bytes, d: Bytes, e: Bytes)
    requires p == a + b + c + d + e && |a| == 2 && |b| == 8 && |c| == 32 && |d| == 32 && |e| == 32
    ensures |p| == 106 && p[..2] == a && p[2..10] == b && p[10..42] == c && p[42..74] == d && p[74..106] == e
  {
  }

  lemma HelloWritten(p: Bytes)
    requires |p| == 106
    ensures Means(Hello(FromLittle(p[..2]), FromLittle(p[2..10]), p[10..42], p[42..74], p[74..106]), p)
  {
    Widths();
    FromLittleInverse(p[..2]);
    FromLittleInverse(p[2..10]);
    hide Little, FromLittle, Pow256;
    FiveParts(p, 2, 10, 42, 74);
    assert p[74..106] == p[74..];
  }

  lemma FiveParts(p: Bytes, i: nat, j: nat, k: nat, l: nat)
    requires i <= j <= k <= l <= |p|
    ensures p == p[..i] + p[i..j] + p[j..k] + p[k..l] + p[l..]
  {
    assert p[..j] == p[..i] + p[i..j];
    assert p[..k] == p[..j] + p[j..k];
    assert p[..l] == p[..k] + p[k..l];
  }

  lemma HelloExact(p: Bytes, m: Message)
    requires m.Hello?
    ensures Means(m, p) <==>
        |p| == 106 && m == Hello(FromLittle(p[..2]), FromLittle(p[2..10]), p[10..42], p[42..74], p[74..106])
  {
    hide Means, FromLittle;
    if Means(m, p) { HelloRead(p, m); }
    if |p| == 106 { HelloWritten(p); }
  }

  method ParseHello(p: Bytes) returns (out: Option<Message>)
    ensures out.Some? ==> out.value.Hello?
    ensures forall m: Message :: m.Hello? ==> (out == Some(m) <==> Means(m, p))
  {
    hide Means;
    forall m: Message | m.Hello?
      ensures Means(m, p) <==>
          |p| == 106 && m == Hello(FromLittle(p[..2]), FromLittle(p[2..10]), p[10..42], p[42..74], p[74..106])
    { HelloExact(p, m); }
    var r := new Reader(p);
    var version := r.Number(2);
    if version.None? { return None; }
    var flags := r.Number(8);
    if flags.None? { return None; }
    var eph := r.Take(32);
    if eph.None? { return None; }
    var stat := r.Take(32);
    if stat.None? { return None; }
    var nonce := r.Take(32);
    if nonce.None? || r.Rest() != [] { return None; }
    assert p[2..][..8] == p[2..10] && p[2..][8..] == p[10..] && p[10..][..32] == p[10..42] && p[10..][32..] == p[42..];
    assert p[42..][..32] == p[42..74] && p[42..][32..] == p[74..] && p[74..][..32] == p[74..106];
    return Some(Hello(version.value, flags.value, eph.value, stat.value, nonce.value));
  }

  lemma HelloAckRead(p: Bytes, m: Message)
    requires m.HelloAck? && Means(m, p)
    ensures |p| == 108
    ensures m == HelloAck(FromLittle(p[..2]), FromLittle(p[2..4]), FromLittle(p[4..12]), p[12..44], p[44..76],
                          p[76..108])
  {
    Widths();
    LittleInverse(2, m.version);
    LittleInverse(2, m.agreed);
    LittleInverse(8, m.flags);
    hide Little, FromLittle, Pow256;
    HelloAckParts(p, Little(2, m.version), Little(2, m.agreed), Little(8, m.flags), m.ephPub, m.statPub, m.nonce);
  }

  lemma HelloAckParts(p: Bytes, a: Bytes, b: Bytes, c: Bytes, d: Bytes, e: Bytes, f: Bytes)
    requires p == a + b + c + d + e + f
    requires |a| == 2 && |b| == 2 && |c| == 8 && |d| == 32 && |e| == 32 && |f| == 32
    ensures |p| == 108 && p[..2] == a && p[2..4] == b && p[4..12] == c
    ensures p[12..44] == d && p[44..76] == e && p[76..108] == f
  {
  }

  lemma HelloAckWritten(p: Bytes)
    requires |p| == 108
    ensures Means(HelloAck(FromLittle(p[..2]), FromLittle(p[2..4]), FromLittle(p[4..12]), p[12..44], p[44..76],
                           p[76..108]), p)
  {
    Widths();
    FromLittleInverse(p[..2]);
    FromLittleInverse(p[2..4]);
    FromLittleInverse(p[4..12]);
    hide Little, FromLittle, Pow256;
    FiveParts(p, 2, 4, 12, 44);
    assert p[44..] == p[44..76] + p[76..];
    assert p[76..108] == p[76..];
  }

  lemma HelloAckExact(p: Bytes, m: Message)
    requires m.HelloAck?
    ensures Means(m, p) <==>
        && |p| == 108
        && m == HelloAck(FromLittle(p[..2]), FromLittle(p[2..4]), FromLittle(p[4..12]), p[12..44], p[44..76],
                         p[76..108])
  {
    hide Means, FromLittle;
    if Means(m, p) { HelloAckRead(p, m); }
    if |p| == 108 { HelloAckWritten(p); }
  }

  lemma AckSlices(p: Bytes)
    ensures |p| >= 12 ==> p[2..][..2] == p[2..4] && p[2..][2..] == p[4..] && p[4..][..8] == p[4..12]
    ensures |p| >= 44 ==> p[4..][8..] == p[12..] && p[12..][..32] == p[12..44]
    ensures |p| >= 76 ==> p[12..][32..] == p[44..] && p[44..][..32] == p[44..76]
    ensures |p| >= 108 ==> p[44..][32..] == p[76..] && p[76..][..32] == p[76..108]
  {
  }

  method ParseHelloAck(p: Bytes) returns (out: Option<Message>)
    ensures out.Some? ==> out.value.HelloAck?
    ensures forall m: Message :: m.HelloAck? ==> (out == Some(m) <==> Means(m, p))
  {
    hide Means, FromLittle, Pow256;
    forall m: Message | m.HelloAck?
      ensures Means(m, p) <==>
          && |p| == 108
          && m == HelloAck(FromLittle(p[..2]), FromLittle(p[2..4]), FromLittle(p[4..12]), p[12..44], p[44..76],
                           p[76..108])
    { HelloAckExact(p, m); }
    var r := new Reader(p);
    var version := r.Number(2);
    if version.None? { return None; }
    var agreed := r.Number(2);
    if agreed.None? { return None; }
    var flags := r.Number(8);
    if flags.None? { return None; }
    var eph := r.Take(32);
    if eph.None? { return None; }
    var stat := r.Take(32);
    if stat.None? { return None; }
    var nonce := r.Take(32);
    if nonce.None? || r.Rest() != [] { return None; }
    AckSlices(p);
    return Some(HelloAck(version.value, agreed.value, flags.value, eph.value, stat.value, nonce.value));
  }

  lemma OfferExact(p: Bytes, m: Message)
    requires m.FolderOffer?
    ensures Means(m, p) <==> |p| == 52 && FromLittle(p[48..52]) == 0 && m == FolderOffer(p[..16], p[16..48], 0)
  {
    Widths();
    LittleInverse(4, m.reserved);
    if Means(m, p) { assert p[..16] == m.folder && p[16..48] == m.manifest && p[48..52] == Little(4, m.reserved); }
    if |p| == 52 {
      FromLittleInverse(p[48..52]);
      assert p == p[..16] + p[16..48] + p[48..52];
    }
  }

  method ParseOffer(p: Bytes) returns (out: Option<Message>)
    ensures out.Some? ==> out.value.FolderOffer?
    ensures forall m: Message :: m.FolderOffer? ==> (out == Some(m) <==> Means(m, p))
  {
    hide Means;
    forall m: Message | m.FolderOffer?
      ensures Means(m, p) <==> |p| == 52 && FromLittle(p[48..52]) == 0 && m == FolderOffer(p[..16], p[16..48], 0)
    { OfferExact(p, m); }
    var r := new Reader(p);
    var folder := r.Take(16);
    if folder.None? { return None; }
    var manifest := r.Take(32);
    if manifest.None? { return None; }
    var reserved := r.Number(4);
    if reserved.None? || r.Rest() != [] { return None; }
    assert p[16..][..32] == p[16..48] && p[16..][32..] == p[48..] && p[48..][..4] == p[48..52];
    if reserved.value != 0 { return None; }
    return Some(FolderOffer(folder.value, manifest.value, reserved.value));
  }

  lemma PackItemExact(p: Bytes, m: Message)
    requires m.PackItem?
    ensures Means(m, p) <==>
        |p| >= 36 && |p| - 36 == FromLittle(p[32..36]) && |p| > 36 && m == PackItem(p[..32], p[36..])
  {
    Widths();
    LittleInverse(4, |m.bytes|);
    if Means(m, p) { assert p[..32] == m.pack && p[32..36] == Little(4, |m.bytes|) && p[36..] == m.bytes; }
    if |p| >= 36 {
      FromLittleInverse(p[32..36]);
      assert p == p[..32] + p[32..36] + p[36..];
    }
  }

  method ParsePackItem(p: Bytes) returns (out: Option<Message>)
    ensures out.Some? ==> out.value.PackItem?
    ensures forall m: Message :: m.PackItem? ==> (out == Some(m) <==> Means(m, p))
  {
    hide Means;
    forall m: Message | m.PackItem?
      ensures Means(m, p) <==>
          |p| >= 36 && |p| - 36 == FromLittle(p[32..36]) && |p| > 36 && m == PackItem(p[..32], p[36..])
    { PackItemExact(p, m); }
    var r := new Reader(p);
    var pack := r.Take(32);
    if pack.None? { return None; }
    var len := r.Number(4);
    if len.None? { return None; }
    assert p[32..][..4] == p[32..36] && p[32..][4..] == p[36..];
    var bytes := r.Take(len.value);
    if bytes.None? || r.Rest() != [] || bytes.value == [] { return None; }
    assert bytes.value == p[36..];
    return Some(PackItem(pack.value, bytes.value));
  }

  method ParseBye(p: Bytes) returns (out: Option<Message>)
    ensures out.Some? ==> out.value.Bye?
    ensures forall m: Message :: m.Bye? ==> (out == Some(m) <==> Means(m, p))
  {
    var r := new Reader(p);
    var code := r.Take(1);
    if code.None? || r.Rest() != [] { return None; }
    match ReasonOf(code.value[0]) {
      case None => return None;
      case Some(reason) => assert p == [ReasonCode(reason)]; return Some(Bye(reason));
    }
  }

  // ---- parsing: counted lists ------------------------------------------------------------------------

  lemma RequestItemsExact(p: Bytes, m: Message)
    requires m.RequestItems?
    ensures Means(m, p) <==>
        && |p| >= 20
        && FromLittle(p[16..20]) <= MAX_ITEMS
        && m.folder == p[..16]
        && GetAll(ItemFormat(), p[20..], FromLittle(p[16..20])) == Some(m.items)
  {
    Widths();
    ItemExact();
    if Means(m, p) {
      assert p[..16] == m.folder && p[16..20] == Little(4, |m.items|) && p[20..] == PutAll(ItemFormat(), m.items);
    }
    LittleInverse(4, |m.items|);
    if |p| >= 20 {
      var n := FromLittle(p[16..20]);
      ListExact(ItemFormat(), p[20..], n, m.items);
      FromLittleInverse(p[16..20]);
      assert p == p[..16] + p[16..20] + p[20..];
    }
  }

  lemma RequestPacksExact(p: Bytes, m: Message)
    requires m.RequestPacks?
    ensures Means(m, p) <==>
        && |p| >= 20
        && FromLittle(p[16..20]) <= MAX_PACKS
        && m.folder == p[..16]
        && GetAll(PackFormat(), p[20..], FromLittle(p[16..20])) == Some(m.packs)
  {
    Widths();
    PackExact();
    if Means(m, p) {
      assert p[..16] == m.folder && p[16..20] == Little(4, |m.packs|) && p[20..] == PutAll(PackFormat(), m.packs);
    }
    LittleInverse(4, |m.packs|);
    if |p| >= 20 {
      var n := FromLittle(p[16..20]);
      ListExact(PackFormat(), p[20..], n, m.packs);
      FromLittleInverse(p[16..20]);
      assert p == p[..16] + p[16..20] + p[20..];
    }
  }

  lemma BatchExact(p: Bytes, m: Message)
    requires m.ItemBatch?
    ensures Means(m, p) <==>
        |p| >= 4 && FromLittle(p[..4]) <= MAX_ITEMS && GetAll(BlobFormat(), p[4..], FromLittle(p[..4])) == Some(m.blobs)
  {
    Widths();
    BlobExact();
    if Means(m, p) { assert p[..4] == Little(4, |m.blobs|) && p[4..] == PutAll(BlobFormat(), m.blobs); }
    LittleInverse(4, |m.blobs|);
    if |p| >= 4 {
      var n := FromLittle(p[..4]);
      ListExact(BlobFormat(), p[4..], n, m.blobs);
      FromLittleInverse(p[..4]);
      assert p == p[..4] + p[4..];
    }
  }

  method ReadItem(r: Reader) returns (x: Option<Item>)
    requires r.Valid()
    modifies r
    ensures r.Valid()
    ensures match x case None => ItemFormat().get(old(r.Rest())) == None
                    case Some(i) => ItemFormat().get(old(r.Rest())) == Some((i, r.Rest()))
  {
    ghost var b := r.Rest();
    var code := r.Take(1);
    if code.None? { return None; }
    var kind := KindOf(code.value[0]);
    if kind.None? { return None; }
    var id := r.Take(32);
    if id.None? { return None; }
    assert b[1..][..32] == b[1..33] && b[1..][32..] == b[33..];
    return Some((kind.value, id.value));
  }

  method ReadBlob(r: Reader) returns (x: Option<Blob>)
    requires r.Valid()
    modifies r
    ensures r.Valid()
    ensures match x case None => GetBlob(old(r.Rest())) == None
                    case Some(i) => GetBlob(old(r.Rest())) == Some((i, r.Rest()))
  {
    ghost var b := r.Rest();
    var code := r.Take(1);
    if code.None? { return None; }
    var kind := KindOf(code.value[0]);
    if kind.None? { return None; }
    var id := r.Take(32);
    if id.None? { return None; }
    var len := r.Number(8);
    if len.None? { return None; }
    assert b[1..][..32] == b[1..33] && b[1..][32..] == b[33..] && b[33..][..8] == b[33..41] && b[33..][8..] == b[41..];
    var bytes := r.Take(len.value);
    if bytes.None? { return None; }
    assert b[41..][..len.value] == b[41..41 + len.value] && b[41..][len.value..] == b[41 + len.value..];
    return Some((kind.value, id.value, bytes.value));
  }

  method ParseRequestItems(p: Bytes) returns (out: Option<Message>)
    ensures out.Some? ==> out.value.RequestItems?
    ensures forall m: Message :: m.RequestItems? ==> (out == Some(m) <==> Means(m, p))
  {
    hide Means, ItemFormat, GetAll;
    forall m: Message | m.RequestItems?
      ensures Means(m, p) <==>
          && |p| >= 20
          && FromLittle(p[16..20]) <= MAX_ITEMS
          && m.folder == p[..16]
          && GetAll(ItemFormat(), p[20..], FromLittle(p[16..20])) == Some(m.items)
    { RequestItemsExact(p, m); }
    var r := new Reader(p);
    var folder := r.Take(16);
    if folder.None? { return None; }
    var count := r.Number(4);
    if count.None? { return None; }
    assert p[16..][..4] == p[16..20] && p[16..][4..] == p[20..];
    var n := count.value;
    if n > MAX_ITEMS { return None; }
    var items: seq<Item> := [];
    GetNone(ItemFormat(), p[20..], n);
    for i := 0 to n
      invariant r.Valid() && After(items, GetAll(ItemFormat(), r.Rest(), n - i)) == GetAll(ItemFormat(), p[20..], n)
    {
      GetNext(ItemFormat(), items, r.Rest(), n - i);
      var x := ReadItem(r);
      if x.None? { return None; }
      items := items + [x.value];
    }
    GetEnd(ItemFormat(), items, r.Rest());
    if r.Rest() != [] { return None; }
    return Some(RequestItems(folder.value, items));
  }

  lemma GetEnd<T>(f: Format<T>, xs: seq<T>, b: Bytes)
    ensures After(xs, GetAll(f, b, 0)) == if b == [] then Some(xs) else None
  {
    assert xs + [] == xs;
  }

  method ParseRequestPacks(p: Bytes) returns (out: Option<Message>)
    ensures out.Some? ==> out.value.RequestPacks?
    ensures forall m: Message :: m.RequestPacks? ==> (out == Some(m) <==> Means(m, p))
  {
    hide Means, GetAll;
    forall m: Message | m.RequestPacks?
      ensures Means(m, p) <==>
          && |p| >= 20
          && FromLittle(p[16..20]) <= MAX_PACKS
          && m.folder == p[..16]
          && GetAll(PackFormat(), p[20..], FromLittle(p[16..20])) == Some(m.packs)
    { RequestPacksExact(p, m); }
    var r := new Reader(p);
    var folder := r.Take(16);
    if folder.None? { return None; }
    var count := r.Number(4);
    if count.None? { return None; }
    assert p[16..][..4] == p[16..20] && p[16..][4..] == p[20..];
    var n := count.value;
    if n > MAX_PACKS { return None; }
    var packs: seq<Bytes> := [];
    GetNone(PackFormat(), p[20..], n);
    for i := 0 to n
      invariant r.Valid() && After(packs, GetAll(PackFormat(), r.Rest(), n - i)) == GetAll(PackFormat(), p[20..], n)
    {
      GetNext(PackFormat(), packs, r.Rest(), n - i);
      var x := r.Take(32);
      if x.None? { return None; }
      packs := packs + [x.value];
    }
    GetEnd(PackFormat(), packs, r.Rest());
    if r.Rest() != [] { return None; }
    return Some(RequestPacks(folder.value, packs));
  }

  method ParseBatch(p: Bytes) returns (out: Option<Message>)
    ensures out.Some? ==> out.value.ItemBatch?
    ensures forall m: Message :: m.ItemBatch? ==> (out == Some(m) <==> Means(m, p))
  {
    hide Means, GetAll, GetBlob, PutBlob;
    forall m: Message | m.ItemBatch?
      ensures Means(m, p) <==>
          && |p| >= 4
          && FromLittle(p[..4]) <= MAX_ITEMS
          && GetAll(BlobFormat(), p[4..], FromLittle(p[..4])) == Some(m.blobs)
    { BatchExact(p, m); }
    var r := new Reader(p);
    var count := r.Number(4);
    if count.None? { return None; }
    var n := count.value;
    if n > MAX_ITEMS { return None; }
    var blobs: seq<Blob> := [];
    GetNone(BlobFormat(), p[4..], n);
    for i := 0 to n
      invariant r.Valid() && After(blobs, GetAll(BlobFormat(), r.Rest(), n - i)) == GetAll(BlobFormat(), p[4..], n)
    {
      GetNext(BlobFormat(), blobs, r.Rest(), n - i);
      var x := ReadBlob(r);
      if x.None? { return None; }
      blobs := blobs + [x.value];
    }
    GetEnd(BlobFormat(), blobs, r.Rest());
    if r.Rest() != [] { return None; }
    return Some(ItemBatch(blobs));
  }

  // ---- any message -------------------------------------------------------------------------------------

  function TypeOf(m: Message): byte {
    match m
    case Hello(_, _, _, _, _) => 0x01 case HelloAck(_, _, _, _, _, _) => 0x02 case FolderOffer(_, _, _) => 0x05
    case RequestItems(_, _) => 0x07 case RequestPacks(_, _) => 0x08 case ItemBatch(_) => 0x09
    case PackItem(_, _) => 0x0A case Bye(_) => 0x0B
  }

  /** Each parser accepts exactly the bytes of one canonical message. */
  method Parse(t: byte, p: Bytes) returns (out: Option<Message>)
    ensures forall m: Message :: out == Some(m) <==> TypeOf(m) == t && Means(m, p)
  {
    hide Means;
    if t == 0x01 { out := ParseHello(p); }
    else if t == 0x02 { out := ParseHelloAck(p); }
    else if t == 0x05 { out := ParseOffer(p); }
    else if t == 0x07 { out := ParseRequestItems(p); }
    else if t == 0x08 { out := ParseRequestPacks(p); }
    else if t == 0x09 { out := ParseBatch(p); }
    else if t == 0x0A { out := ParsePackItem(p); }
    else if t == 0x0B { out := ParseBye(p); }
    else { out := None; }
  }

  /** Encode, then parse: the message comes back exactly if it is canonical. */
  method RoundTrip(m: Message) returns (out: Option<Message>)
    requires Typed(m) && Encodable(m)
    ensures out == Some(m) <==> Canonical(m)
  {
    hide Image;
    var b := Encode(m);
    out := Parse(TypeOf(m), b.value);
  }

  /** What encoding accepts and parsing does not, and the reverse. */
  lemma EncodableCanonical(m: Message)
    requires Typed(m)
    ensures Encodable(m) ==>
          (Canonical(m) <==> (m.FolderOffer? ==> m.reserved == 0) && (m.PackItem? ==> 0 < |m.bytes| < U32))
    ensures Canonical(m) ==>
          (Encodable(m) <==> (m.ItemBatch? ==> forall i :: 0 <= i < |m.blobs| ==> m.blobs[i].2 != []))
  {
  }

  /** An offer with a non-zero reserved field is written, but not read. */
  method ReservedOffer(folder: Bytes, manifest: Bytes) returns (sent: Option<Bytes>, out: Option<Message>)
    requires |folder| == 16 && |manifest| == 32
    ensures sent == Some(Image(FolderOffer(folder, manifest, 1))) && out == None
  {
    var m := FolderOffer(folder, manifest, 1);
    sent := Encode(m);
    out := Parse(0x05, sent.value);
    forall n: Message | TypeOf(n) == 0x05 ensures !Means(n, Image(m)) { OfferUnread(folder, manifest, n); }
  }

  lemma OfferUnread(folder: Bytes, manifest: Bytes, n: Message)
    requires |folder| == 16 && |manifest| == 32 && n.FolderOffer?
    ensures !Means(n, Image(FolderOffer(folder, manifest, 1)))
  {
    if Means(n, Image(FolderOffer(folder, manifest, 1))) {
      var p := Image(n);
      assert p[48..] == Little(4, 0) && p[48..] == Little(4, 1);
      LittleInverse(4, 0);
      LittleInverse(4, 1);
      assert false;
    }
  }

  /** A batch with an empty blob is read, but would never be written. */
  lemma EmptyBlobParses(id: Bytes)
    requires |id| == 32
    ensures var m := ItemBatch([(DataChunk, id, [])]); !Encodable(m) && Means(m, Image(m))
  {
    var m := ItemBatch([(DataChunk, id, [])]);
    assert m.blobs[0].2 == [];
  }
}
