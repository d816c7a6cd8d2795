/** Frames over the in-memory byte stream: a message, its frame body, its length prefix, and the
    records of a duplex pair. */
module Streams {
  import opened Blobs
  import opened Wire
  import opened Codec

  // ---- frame bodies ------------------------------------------------------------------------------

  const MAGIC: Bytes := [0x46, 0x52, 0x57, 0x31]
  const MAX_FRAME_BODY := 64 * 1024 * 1024

  datatype FrameBody = FrameBody(kind: byte, version: nat, payload: Bytes)

  function BodyImage(f: FrameBody): Bytes { MAGIC + [f.kind] + Little(2, f.version) + f.payload }

  /** FrameBody::parse accepts exactly what FrameBody::encode writes. */
  method ParseBody(b: Bytes) returns (out: Option<FrameBody>)
    ensures forall f: FrameBody :: out == Some(f) <==> f.version < U16 && BodyImage(f) == b
  {
    forall f: FrameBody
      ensures f.version < U16 && BodyImage(f) == b <==>
          |b| >= 7 && b[..4] == MAGIC && f == FrameBody(b[4], FromLittle(b[5..7]), b[7..])
    { BodyExact(b, f); }
    hide BodyImage;
    var r := new Reader(b);
    var magic := r.Take(4);
    if magic.None? || magic.value != MAGIC { return None; }
    var kind := r.Take(1);
    if kind.None? { return None; }
    var version := r.Number(2);
    if version.None? { return None; }
    assert b[4..][..1] == b[4..5] && b[4..][1..] == b[5..] && b[5..][..2] == b[5..7] && b[5..][2..] == b[7..];
    return Some(FrameBody(kind.value[0], version.value, r.Rest()));
  }

  lemma BodyExact(b: Bytes, f: FrameBody)
    ensures f.version < U16 && BodyImage(f) == b <==>
        |b| >= 7 && b[..4] == MAGIC && f == FrameBody(b[4], FromLittle(b[5..7]), b[7..])
  {
    Widths();
    LittleInverse(2, f.version);
    if f.version < U16 && BodyImage(f) == b {
      assert b[..4] == MAGIC && b[4] == f.kind && b[5..7] == Little(2, f.version) && b[7..] == f.payload;
    }
    if |b| >= 7 {
      FromLittleInverse(b[5..7]);
      assert b == b[..4] + [b[4]] + b[5..7] + b[7..];
    }
  }

  /** A body with its length in front. */
  function Framed(body: Bytes): Bytes { Big(4, |body|) + body }

  /** A message as it travels. */
  function Packet(m: Message, version: nat): Bytes { Framed(BodyImage(FrameBody(TypeOf(m), version, Image(m)))) }

  predicate Fits(m: Message) { 7 + |Image(m)| <= MAX_FRAME_BODY }

  function Packets(ms: seq<Message>, version: nat): Bytes {
    if ms == [] then [] else Packet(ms[0], version) + Packets(ms[1..], version)
  }

  // ---- the duplex pair ---------------------------------------------------------------------------

  function Joined(q: seq<Bytes>): Bytes { if q == [] then [] else q[0] + Joined(q[1..]) }

  lemma {:induction false} JoinedSnoc(q: seq<Bytes>, x: Bytes)
    ensures Joined(q + [x]) == Joined(q) + x
  {
    if q == [] { assert [] + [x] == [x] && [x][1..] == []; }
    else {
      JoinedSnoc(q[1..], x);
      assert (q + [x])[1..] == q[1..] + [x];
    }
  }

  /** Taking `n` bytes of the first record, and putting the rest of it back. */
  lemma Popped(q: seq<Bytes>, n: nat, before: Bytes)
    requires q != [] && n <= |q[0]|
    ensures var left := if n < |q[0]| then [q[0][n..]] + q[1..] else q[1..];
            && Joined(q) == q[0][..n] + Joined(left)
            && before + Joined(q) == before + q[0][..n] + Joined(left)
            && (NoEmpty(q) ==> NoEmpty(left))
  {
    var left := if n < |q[0]| then [q[0][n..]] + q[1..] else q[1..];
    if n < |q[0]| { assert left[1..] == q[1..]; } else { assert q[0][n..] == []; }
    assert q[0] == q[0][..n] + q[0][n..];
    assert Joined(left) == q[0][n..] + Joined(q[1..]);
  }

  predicate NoEmpty(q: seq<Bytes>) { forall i :: 0 <= i < |q| ==> q[i] != [] }

  datatype ReadResult = Got(bytes: Bytes) | Blocked
  datatype Exactly = Full(bytes: Bytes) | UnexpectedEof | Waiting

  type Half = h: nat | h < 2

  /** Two record queues and an open flag, shared by two halves. Half `h` reads queue `h` and
      writes the other. The ghost fields remember all bytes that went in and came out. */
  class Duplex {
    var queues: seq<seq<Bytes>>
    var open: bool
    ghost var sent: seq<Bytes>
    ghost var got: seq<Bytes>

    /** Nothing is lost, repeated or reordered. */
    ghost predicate Valid()
      reads this
    {
      |queues| == 2 && |sent| == 2 && |got| == 2 && forall h: Half :: sent[h] == got[h] + Joined(queues[h])
    }

    constructor ()
      ensures Valid() && open && queues == [[], []] && sent == [[], []] && got == [[], []]
    {
      queues, open, sent, got := [[], []], true, [[], []], [[], []];
    }

    method Close()
      requires Valid()
      modifies this
      ensures Valid() && !open && queues == old(queues) && sent == old(sent) && got == old(got)
    {
      open := false;
    }

    /** write: one record, of whatever length. */
    method Write(h: Half, buf: Bytes)
      requires Valid()
      modifies this
      ensures Valid() && open == old(open) && got == old(got)
      ensures queues == old(queues)[1 - h := old(queues)[1 - h] + [buf]]
      ensures sent == old(sent)[1 - h := old(sent)[1 - h] + buf]
    {
      JoinedSnoc(queues[1 - h], buf);
      assert got[1 - h] + (Joined(queues[1 - h]) + buf) == got[1 - h] + Joined(queues[1 - h]) + buf;
      queues := queues[1 - h := queues[1 - h] + [buf]];
      sent := sent[1 - h := sent[1 - h] + buf];
    }

    /** read into a buffer of `cap` bytes: at most one record. A thread that would wait is
        `Blocked`. */
    method Read(h: Half, cap: nat) returns (r: ReadResult)
      requires Valid()
      modifies this
      ensures Valid() && open == old(open) && sent == old(sent) && queues[1 - h] == old(queues)[1 - h]
      ensures got[1 - h] == old(got)[1 - h]
      ensures r.Blocked? <==> cap > 0 && old(queues)[h] == [] && open
      ensures r.Got? ==> |r.bytes| <= cap && got[h] == old(got)[h] + r.bytes
      ensures r.Got? ==> Joined(old(queues)[h]) == r.bytes + Joined(queues[h])
      ensures r.Blocked? ==> queues == old(queues) && got == old(got)
      ensures cap > 0 ==>
            (r == Got([]) <==> (old(queues)[h] == [] && !open) || (old(queues)[h] != [] && old(queues)[h][0] == []))
      ensures NoEmpty(old(queues)[h]) ==> NoEmpty(queues[h])
    {
      if cap == 0 { return Got([]); }
      if queues[h] != [] {
        var record := queues[h][0];
        var n := if |record| < cap then |record| else cap;
        var rest := queues[h][1..];
        if n < |record| { rest := [record[n..]] + rest; }
        Popped(queues[h], n, got[h]);
        queues := queues[h := rest];
        got := got[h := got[h] + record[..n]];
        return Got(record[..n]);
      }
      if !open { return Got([]); }
      return Blocked;
    }

    /** write_all: nothing is written for no bytes. */
    method WriteAll(h: Half, buf: Bytes)
      requires Valid()
      modifies this
      ensures Valid() && open == old(open) && got == old(got) && queues[h] == old(queues)[h]
      ensures NoEmpty(old(queues)[1 - h]) ==> NoEmpty(queues[1 - h])
      ensures sent == old(sent)[1 - h := old(sent)[1 - h] + buf]
      ensures Joined(queues[1 - h]) == Joined(old(queues)[1 - h]) + buf
    {
      if buf != [] { JoinedSnoc(queues[1 - h], buf); Write(h, buf); }
      else { assert sent[1 - h] + buf == sent[1 - h] && Joined(queues[1 - h]) + buf == Joined(queues[1 - h]); }
    }

    /** read_exact: what it gets is the next `n` bytes, however they were split into records. Without
        empty records it gets them if they are there, and fails only if the stream is closed first. */
    method ReadExact(h: Half, n: nat) returns (r: Exactly)
      requires Valid()
      modifies this
      ensures Valid() && open == old(open) && sent == old(sent) && queues[1 - h] == old(queues)[1 - h]
      ensures NoEmpty(old(queues)[h]) ==> NoEmpty(queues[h])
      ensures r.Full? ==> n <= |Joined(old(queues)[h])|
      ensures r.Full? ==> r.bytes == Joined(old(queues)[h])[..n] && Joined(queues[h]) == Joined(old(queues)[h])[n..]
      ensures NoEmpty(old(queues)[h]) && |Joined(old(queues)[h])| >= n ==> r.Full?
      ensures NoEmpty(old(queues)[h]) && r.UnexpectedEof? ==> !open
      ensures r.Waiting? ==> open
    {
      var buf: Bytes := [];
      ghost var all := Joined(queues[h]);
      while |buf| < n
        invariant Valid() && open == old(open) && sent == old(sent) && queues[1 - h] == old(queues)[1 - h]
        invariant NoEmpty(old(queues)[h]) ==> NoEmpty(queues[h])
        invariant |buf| <= n && all == buf + Joined(queues[h])
        decreases n - |buf|
      {
        var got := Read(h, n - |buf|);
        if got.Blocked? { return Waiting; }
        if got.bytes == [] { return UnexpectedEof; }
        assert buf + (got.bytes + Joined(queues[h])) == buf + got.bytes + Joined(queues[h]);
        buf := buf + got.bytes;
      }
      r := Full(buf);
    }
  }

  /** A zero-length read is taken for the end of the stream; after an empty record it is not. */
  method EmptyRecordReadsAsEnd(d: Duplex) returns (r: ReadResult)
    requires d.Valid() && d.queues == [[], []] && d.open
    modifies d
    ensures r == Got([]) && d.Valid() && d.open && d.got[1] < d.sent[1]
  {
    d.Write(0, []);
    d.Write(0, [7]);
    r := d.Read(1, 16);
  }

  // ---- frames over it ----------------------------------------------------------------------------

  datatype BodyRead = Body(bytes: Bytes) | TooLarge | Stopped(eof: bool)

  /** write_body: refused before anything is written, or one record. */
  method WriteBody(d: Duplex, h: Half, body: Bytes) returns (ok: bool)
    requires d.Valid()
    modifies d
    ensures d.Valid() && d.open == old(d.open) && d.got == old(d.got) && d.queues[h] == old(d.queues)[h]
    ensures NoEmpty(old(d.queues)[1 - h]) ==> NoEmpty(d.queues[1 - h])
    ensures ok <==> |body| <= MAX_FRAME_BODY
    ensures Joined(d.queues[1 - h]) == Joined(old(d.queues)[1 - h]) + if ok then Framed(body) else []
  {
    if |body| > MAX_FRAME_BODY {
      assert Joined(d.queues[1 - h]) + [] == Joined(d.queues[1 - h]);
      return false;
    }
    d.WriteAll(h, Big(4, |body|) + body);
    return true;
  }

  lemma FramedSplit(all: Bytes, body: Bytes, rest: Bytes)
    requires |body| <= MAX_FRAME_BODY && all == Framed(body) + rest
    ensures |all| >= 4 + |body| && FromBig(all[..4]) == |body| && all[4..][..|body|] == body
    ensures all[4..][|body|..] == rest
  {
    Widths();
    BigInverse(4, |body|);
    assert all[..4] == Big(4, |body|);
  }

  /** read_body: the next framed body, and not a byte more. */
  method ReadBody(d: Duplex, h: Half) returns (r: BodyRead)
    requires d.Valid()
    modifies d
    ensures d.Valid() && d.open == old(d.open) && d.queues[1 - h] == old(d.queues)[1 - h]
    ensures NoEmpty(old(d.queues)[h]) ==> NoEmpty(d.queues[h])
    ensures NoEmpty(old(d.queues)[h]) ==>
              forall body, rest :: |body| <= MAX_FRAME_BODY && Joined(old(d.queues)[h]) == Framed(body) + rest ==>
                r == Body(body) && Joined(d.queues[h]) == rest
    ensures r.Body? ==> |r.bytes| <= MAX_FRAME_BODY
    ensures NoEmpty(old(d.queues)[h]) && r.Stopped? ==> r.eof == !d.open
  {
    ghost var all := Joined(d.queues[h]);
    forall body, rest | |body| <= MAX_FRAME_BODY && all == Framed(body) + rest
      ensures |all| >= 4 + |body| && FromBig(all[..4]) == |body| && all[4..][..|body|] == body
      ensures all[4..][|body|..] == rest
    { FramedSplit(all, body, rest); }
    hide Framed;
    var head := d.ReadExact(h, 4);
    if !head.Full? { return Stopped(head.UnexpectedEof?); }
    var len := FromBig(head.bytes);
    if len > MAX_FRAME_BODY { return TooLarge; }
    var body := d.ReadExact(h, len);
    if !body.Full? { return Stopped(body.UnexpectedEof?); }
    return Body(body.bytes);
  }

  // ---- messages over it --------------------------------------------------------------------------

  ghost predicate Sendable(m: Message) { Typed(m) && Encodable(m) && Canonical(m) && Fits(m) }

  method Send(d: Duplex, h: Half, m: Message, version: nat) returns (ok: bool)
    requires d.Valid() && version < U16
    modifies d
    ensures d.Valid() && d.open == old(d.open) && d.got == old(d.got) && d.queues[h] == old(d.queues)[h]
    ensures NoEmpty(old(d.queues)[1 - h]) ==> NoEmpty(d.queues[1 - h])
    ensures ok <==> Encodable(m) && Fits(m)
    ensures Joined(d.queues[1 - h]) == Joined(old(d.queues)[1 - h]) + if ok then Packet(m, version) else []
  {
    hide Encodable, Image, Framed;
    var payload := Encode(m);
    if payload.None? {
      assert Joined(d.queues[1 - h]) + [] == Joined(d.queues[1 - h]);
      return false;
    }
    ok := WriteBody(d, h, BodyImage(FrameBody(TypeOf(m), version, payload.value)));
  }

  method Receive(d: Duplex, h: Half) returns (out: Option<Message>)
    requires d.Valid()
    modifies d
    ensures d.Valid() && d.open == old(d.open) && d.queues[1 - h] == old(d.queues)[1 - h]
    ensures NoEmpty(old(d.queues)[h]) ==> NoEmpty(d.queues[h])
    ensures forall m, version: nat, rest ::
              NoEmpty(old(d.queues)[h]) && Sendable(m) && version < U16
                && Joined(old(d.queues)[h]) == Packet(m, version) + rest ==>
                out == Some(m) && Joined(d.queues[h]) == rest
  {
    hide Sendable, Framed, Means, Packet;
    ghost var all, whole := Joined(d.queues[h]), NoEmpty(d.queues[h]);
    var r := ReadBody(d, h);
    forall m, version: nat, rest | whole && Sendable(m) && version < U16 && all == Packet(m, version) + rest
      ensures r == Body(BodyImage(FrameBody(TypeOf(m), version, Image(m)))) && Joined(d.queues[h]) == rest
      ensures Means(m, Image(m))
    { PacketParts(m, version); }
    if !r.Body? { return None; }
    var f := ParseBody(r.bytes);
    forall m, version: nat, rest | whole && Sendable(m) && version < U16 && all == Packet(m, version) + rest
      ensures f == Some(FrameBody(TypeOf(m), version, Image(m)))
    {}
    if f.None? { return None; }
    out := Parse(f.value.kind, f.value.payload);
  }

  lemma PacketParts(m: Message, version: nat)
    requires Sendable(m)
    ensures var body := BodyImage(FrameBody(TypeOf(m), version, Image(m)));
            |body| <= MAX_FRAME_BODY && Packet(m, version) == Framed(body) && Means(m, Image(m))
  {
  }

  ghost predicate AllSendable(ms: seq<Message>) { forall i :: 0 <= i < |ms| ==> Sendable(ms[i]) }

  method SendAll(d: Duplex, h: Half, ms: seq<Message>, version: nat)
    requires d.Valid() && NoEmpty(d.queues[1 - h]) && version < U16 && AllSendable(ms)
    modifies d
    ensures d.Valid() && d.open == old(d.open) && d.got == old(d.got) && d.queues[h] == old(d.queues)[h]
    ensures NoEmpty(d.queues[1 - h])
    ensures Joined(d.queues[1 - h]) == Joined(old(d.queues)[1 - h]) + Packets(ms, version)
  {
    hide Encodable, Typed, Canonical, Fits, Packet;
    for i := 0 to |ms|
      invariant d.Valid() && d.open == old(d.open) && d.got == old(d.got) && d.queues[h] == old(d.queues)[h]
      invariant NoEmpty(d.queues[1 - h])
      invariant Joined(d.queues[1 - h]) + Packets(ms[i..], version)
          == Joined(old(d.queues)[1 - h]) + Packets(ms, version)
    {
      assert ms[i..][0] == ms[i] && ms[i..][1..] == ms[i + 1..];
      ghost var before := Joined(d.queues[1 - h]);
      var ok := Send(d, h, ms[i], version);
      assert before + (Packet(ms[i], version) + Packets(ms[i + 1..], version))
        == before + Packet(ms[i], version) + Packets(ms[i + 1..], version);
    }
    assert ms[|ms|..] == [] && Joined(d.queues[1 - h]) + [] == Joined(d.queues[1 - h]);
  }

  /** Reading as many messages as were sent gives back those messages. */
  method ReceiveAll(d: Duplex, h: Half, ghost ms: seq<Message>, n: nat, ghost version: nat, ghost rest: Bytes)
    returns (got: seq<Message>)
    requires d.Valid() && NoEmpty(d.queues[h]) && version < U16 && AllSendable(ms) && n == |ms|
    requires Joined(d.queues[h]) == Packets(ms, version) + rest
    modifies d
    ensures d.Valid() && d.open == old(d.open) && d.queues[1 - h] == old(d.queues)[1 - h] && NoEmpty(d.queues[h])
    ensures got == ms && Joined(d.queues[h]) == rest
  {
    hide Packet, Sendable;
    got := [];
    for i := 0 to n
      invariant d.Valid() && d.open == old(d.open) && d.queues[1 - h] == old(d.queues)[1 - h] && NoEmpty(d.queues[h])
      invariant got == ms[..i] && Joined(d.queues[h]) == Packets(ms[i..], version) + rest
    {
      assert ms[i..][0] == ms[i] && ms[i..][1..] == ms[i + 1..];
      var tail := Packets(ms[i + 1..], version) + rest;
      assert Joined(d.queues[h]) == Packet(ms[i], version) + tail;
      var m := Receive(d, h);
      got := got + [m.value];
    }
    assert ms[..n] == ms && ms[n..] == [] && [] + rest == rest;
  }

  /** Whatever a peer has sent, it can be read as messages in one way only. */
  lemma {:induction false} StreamUnique(a: seq<Message>, v: nat, x: Bytes, b: seq<Message>, w: nat, y: Bytes)
    requires AllSendable(a) && AllSendable(b) && |a| == |b| && v < U16 && w < U16
    requires Packets(a, v) + x == Packets(b, w) + y
    ensures a == b && x == y
    decreases |a|
  {
    hide Packet, Sendable;
    if a == [] { assert [] + x == x && [] + y == y; }
    else {
      var xs, ys := Packets(a[1..], v) + x, Packets(b[1..], w) + y;
      assert Packet(a[0], v) + xs == Packets(a, v) + x;
      assert Packet(b[0], w) + ys == Packets(b, w) + y;
      PacketUnique(a[0], v, xs, b[0], w, ys);
      StreamUnique(a[1..], v, x, b[1..], w, y);
      assert a == [a[0]] + a[1..] && b == [b[0]] + b[1..];
    }
  }

  lemma PacketUnique(a: Message, v: nat, x: Bytes, b: Message, w: nat, y: Bytes)
    requires Sendable(a) && Sendable(b) && v < U16 && w < U16 && Packet(a, v) + x == Packet(b, w) + y
    ensures a == b && v == w && x == y
  {
    hide Framed, BodyImage, Sendable, Means;
    var all := Packet(a, v) + x;
    PacketParts(a, v);
    PacketParts(b, w);
    var fa, fb := FrameBody(TypeOf(a), v, Image(a)), FrameBody(TypeOf(b), w, Image(b));
    FramedSplit(all, BodyImage(fa), x);
    FramedSplit(all, BodyImage(fb), y);
    BodyExact(BodyImage(fa), fa);
    BodyExact(BodyImage(fa), fb);
    ImageUnique(a, b);
  }

  lemma ByeUnique(a: Message, b: Message)
    requires a.Bye? && b.Bye? && Means(a, Image(a)) && Means(b, Image(a))
    ensures a == b
  {
    assert ReasonOf(Image(a)[0]) == Some(a.reason) && ReasonOf(Image(b)[0]) == Some(b.reason);
  }

  lemma ImageUnique(a: Message, b: Message)
    requires TypeOf(a) == TypeOf(b) && Means(a, Image(a)) && Means(b, Image(a))
    ensures a == b
  {
    hide Means;
    var p := Image(a);
    if a.Hello? { HelloExact(p, a); HelloExact(p, b); }
    else if a.HelloAck? { HelloAckExact(p, a); HelloAckExact(p, b); }
    else if a.FolderOffer? { OfferExact(p, a); OfferExact(p, b); }
    else if a.RequestItems? { RequestItemsExact(p, a); RequestItemsExact(p, b); }
    else if a.RequestPacks? { RequestPacksExact(p, a); RequestPacksExact(p, b); }
    else if a.ItemBatch? { BatchExact(p, a); BatchExact(p, b); }
    else if a.PackItem? { PackItemExact(p, a); PackItemExact(p, b); }
    else { ByeUnique(a, b); }
  }
}
