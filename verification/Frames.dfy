/** The frames of a session and the messages on the wire are the same things. */
module Frames {
  import opened Blobs
  import opened Protocol
  import Codec
  import E = Engine

  /** The frames whose payloads the codec models; an advert's table is the store's own format. */
  predicate OnWire(f: E.Frame) { !f.Advert? && !f.Garbled? }

  function MessageOf(f: E.Frame): Codec.Message
    requires OnWire(f)
  {
    match f
    case Offer(folder, manifest) => Codec.FolderOffer(folder, manifest, 0)
    case AskItems(folder, items) => Codec.RequestItems(folder, items)
    case AskPacks(folder, packs) => Codec.RequestPacks(folder, packs)
    case Items(batch) => Codec.ItemBatch(batch)
    case PackFile(name, bytes) => Codec.PackItem(name, bytes)
    case Bye(reason) => Codec.Bye(reason)
  }

  lemma MessageDecides(f: E.Frame, g: E.Frame)
    requires OnWire(f) && OnWire(g) && MessageOf(f) == MessageOf(g)
    ensures f == g
  {
  }

  /** What the session takes for a frame that parses is what the parsers accept. */
  lemma CapsAreCanonical(f: E.Frame)
    requires OnWire(f) && (f.PackFile? ==> |f.bytes| < Codec.U32)
    ensures E.InCaps(f) <==> Codec.Canonical(MessageOf(f))
  {
  }

  /** A frame that can be encoded is what the other side reads, exactly if it is within the caps. */
  method Transmit(f: E.Frame) returns (out: Option<Codec.Message>)
    requires OnWire(f) && (f.PackFile? ==> |f.bytes| < Codec.U32)
    requires Codec.Typed(MessageOf(f)) && Codec.Encodable(MessageOf(f))
    ensures out == Some(MessageOf(f)) <==> E.InCaps(f)
  {
    CapsAreCanonical(f);
    out := Codec.RoundTrip(MessageOf(f));
  }
}
