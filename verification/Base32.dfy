/** The typeable base-32 text of pairing codes: groups of five bits, as in section 6 of RFC 4648
    without padding, over another alphabet. */
module Base32 {
  import opened Blobs
  import opened Bits

  const ALPHABET := "23456789ABCDEFGHJKLMNPQRSTUVWXYZ"
  const U32 := 0x1_0000_0000

  function Upper(c: char): char { if 'a' <= c <= 'z' then c - 'a' + 'A' else c }

  /** The value of a symbol, in either case. */
  function ValueOf(ch: char): Option<nat> {
    var up := Upper(ch);
    if '2' <= up <= '9' then Some((up - '2') as nat)
    else if 'A' <= up <= 'H' then Some(8 + (up - 'A') as nat)
    else if up == 'J' then Some(16)
    else if 'K' <= up <= 'N' then Some(17 + (up - 'K') as nat)
    else if 'P' <= up <= 'Z' then Some(21 + (up - 'P') as nat)
    else None
  }

  /** `c` is the symbol `s`, or the lower-case letter for it. */
  predicate EitherCase(c: char, s: char) { c == s || ('A' <= s <= 'Z' && c == s - 'A' + 'a') }

  /** The alphabet lists the symbols by value, and every accepted character is one of them, in either
      case. */
  lemma AlphabetExact(c: char, v: nat)
    ensures ValueOf(c) == Some(v) <==> v < 32 && EitherCase(c, ALPHABET[v])
  {
    hide *;
    ValueUpper(c, v);
    if v < 32 {
      SymbolAt(v);
      NotLower(v);
      UpperEither(c, Symbol(v));
    }
  }

  lemma ValueUpper(c: char, v: nat)
    ensures ValueOf(c) == Some(v) <==> v < 32 && Upper(c) == ALPHABET[v]
  {
    hide Upper;
    if v < 32 { SymbolAt(v); }
  }

  lemma NotLower(v: nat)
    requires v < 32
    ensures !('a' <= Symbol(v) <= 'z')
  {
  }

  lemma UpperEither(c: char, s: char)
    requires !('a' <= s <= 'z')
    ensures Upper(c) == s <==> EitherCase(c, s)
  {
  }

  lemma SymbolAt(v: nat)
    requires v < 32
    ensures ALPHABET[v] == Symbol(v)
  {
    assert |ALPHABET| == 32;
  }

  /** The alphabet by its runs of consecutive characters. */
  function Symbol(v: nat): char
    requires v < 32
  {
    if v < 8 then '2' + v as char
    else if v < 16 then 'A' + (v - 8) as char
    else if v == 16 then 'J'
    else if v < 21 then 'K' + (v - 17) as char
    else 'P' + (v - 21) as char
  }

  lemma SymbolValue(v: nat)
    requires v < 32
    ensures ValueOf(ALPHABET[v]) == Some(v)
  {
    SymbolAt(v);
  }

  function Nats(d: Bytes): seq<nat> { seq(|d|, i requires 0 <= i < |d| => d[i] as nat) }

  function ByteBits(d: Bytes): BitString { Spread(8, Nats(d)) }

  /** Groups of five bits, the last one filled up with zeros. */
  function Pack(bs: BitString): (vs: seq<nat>)
    ensures |vs| == (|bs| + 4) / 5
    decreases |bs|
  {
    if bs == [] then []
    else if |bs| <= 5 then [Value(bs + Zeros(5 - |bs|))]
    else [Value(bs[..5])] + Pack(bs[5..])
  }

  lemma SpreadOne(w: nat, v: nat)
    ensures Spread(w, [v]) == Low(w, v)
  {
    SpreadSnoc(w, [], v);
    assert [] + [v] == [v] && [] + Low(w, v) == Low(w, v);
  }

  lemma GroupSpread(bs: BitString)
    requires |bs| == 5
    ensures Spread(5, [Value(bs)]) == bs
  {
    SpreadOne(5, Value(bs));
    LowValue(bs);
  }

  lemma {:induction false} PackSpread(bs: BitString)
    ensures Within(5, Pack(bs)) && Spread(5, Pack(bs)) == bs + Zeros(5 * |Pack(bs)| - |bs|)
    decreases |bs|
  {
    hide Low, Value, Spread, Pow2;
    if bs == [] { assert bs + Zeros(0) == [] && Spread(5, Pack(bs)) == []; }
    else if |bs| <= 5 { GroupSpread(bs + Zeros(5 - |bs|)); }
    else {
      var first, rest := [Value(bs[..5])], Pack(bs[5..]);
      PackSpread(bs[5..]);
      GroupSpread(bs[..5]);
      SpreadAppend(5, first, rest);
      var zeros := Zeros(5 * |rest| - |bs[5..]|);
      assert bs[..5] + (bs[5..] + zeros) == bs + zeros;
    }
  }

  /** Any symbols whose bits are these, filled up with less than a group of zeros, are the packing. */
  lemma PackUnique(bs: BitString, vs: seq<nat>, pad: nat)
    requires Within(5, vs) && pad < 5 && Spread(5, vs) == bs + Zeros(pad)
    ensures vs == Pack(bs)
  {
    PackSpread(bs);
    assert 5 * |vs| == |bs| + pad;
    assert |vs| == |Pack(bs)|;
    SpreadInjective(5, vs, Pack(bs));
  }

  function Text(vs: seq<nat>): string
    requires forall i :: 0 <= i < |vs| ==> vs[i] < 32
  {
    seq(|vs|, i requires 0 <= i < |vs| => ALPHABET[vs[i]])
  }

  lemma Five()
    ensures Pow2(5) == 32 && Pow2(8) == 256 && Pow2(32) == U32
  {
    assert Pow2(12) == 2 * Pow2(11) && Pow2(11) == 2 * Pow2(10) && Pow2(10) == 2 * Pow2(9) && Pow2(9) == 2 * Pow2(8);
    assert Pow2(8) == 2 * Pow2(7) && Pow2(7) == 2 * Pow2(6) && Pow2(6) == 2 * Pow2(5) && Pow2(5) == 2 * Pow2(4);
    assert Pow2(12) == 4096;
    PowAdd(12, 12);
    PowAdd(24, 8);
  }

  lemma {:induction false} PowAdd(a: nat, b: nat)
    ensures Pow2(a + b) == Pow2(a) * Pow2(b)
    decreases b
  {
    if b > 0 {
      PowAdd(a, b - 1);
      assert Pow2(a + b) == 2 * Pow2(a + (b - 1)) && Pow2(b) == 2 * Pow2(b - 1);
      DoubleProduct(Pow2(a), Pow2(b - 1));
    }
  }

  lemma DoubleProduct(x: nat, y: nat)
    ensures 2 * (x * y) == x * (2 * y)
  {
  }

  /** The text of some bytes. */
  function Encoded(d: Bytes): string {
    var vs := Pack(ByteBits(d));
    assert forall i :: 0 <= i < |vs| ==> vs[i] < 32 by { PackSpread(ByteBits(d)); Five(); }
    Text(vs)
  }

  /** Shifting a value into a 32-bit accumulator appends its bits to the pending ones. */
  lemma Push(bits: nat, acc: nat, w: nat, v: nat)
    requires v < Pow2(w) && bits + w <= 32
    ensures Low(bits + w, (Shl(acc, w) + v) % U32) == Low(bits, acc) + Low(w, v)
  {
    Five();
    LowShift(bits, w, acc, v);
    LowMod(bits + w, 32, Shl(acc, w) + v);
  }

  /** Taking the top group of the pending bits off. */
  lemma Pull(bits: nat, w: nat, acc: nat)
    ensures Low(w + bits, acc) == Low(w, Shr(acc, bits) % Pow2(w)) + Low(bits, acc)
  {
    LowSplit(w, bits, acc);
    LowMod(w, w, Shr(acc, bits));
  }

  /** The bits so far: the symbols written, then what is pending in the accumulator. */
  ghost predicate Pending(bs: BitString, vs: seq<nat>, bits: nat, acc: nat) {
    Within(5, vs) && bs == Spread(5, vs) + Low(bits, acc)
  }

  lemma PendingByte(d: Bytes, k: nat, vs: seq<nat>, bits: nat, acc: nat)
    requires k < |d| && bits < 5 && Pending(ByteBits(d[..k]), vs, bits, acc)
    ensures Pending(ByteBits(d[..k + 1]), vs, bits + 8, (Shl(acc, 8) + d[k] as nat) % U32)
  {
    hide Low, Spread, Shl, ByteBits;
    Five();
    NextByte(d, k);
    Push(bits, acc, 8, d[k] as nat);
    assert (Spread(5, vs) + Low(bits, acc)) + Low(8, d[k] as nat)
      == Spread(5, vs) + (Low(bits, acc) + Low(8, d[k] as nat));
  }

  lemma PendingSymbol(bs: BitString, vs: seq<nat>, bits: nat, acc: nat)
    requires bits >= 5 && Pending(bs, vs, bits, acc)
    ensures Pending(bs, vs + [Shr(acc, bits - 5) % 32], bits - 5, acc)
  {
    hide Low, Spread, Shr;
    Five();
    var v := Shr(acc, bits - 5) % 32;
    Pull(bits - 5, 5, acc);
    SpreadSnoc(5, vs, v);
    assert Spread(5, vs) + (Low(5, v) + Low(bits - 5, acc)) == (Spread(5, vs) + Low(5, v)) + Low(bits - 5, acc);
  }

  lemma PendingEnd(bs: BitString, vs: seq<nat>, bits: nat, acc: nat)
    requires bits < 5 && Pending(bs, vs, bits, acc)
    ensures Pack(bs) == if bits > 0 then vs + [Shl(acc, 5 - bits) % 32] else vs
  {
    hide Spread, Shl, Pack;
    Five();
    if bits > 0 {
      var v := Shl(acc, 5 - bits) % 32;
      LastGroup(bits, acc);
      SpreadSnoc(5, vs, v);
      assert Spread(5, vs) + (Low(bits, acc) + Zeros(5 - bits)) == bs + Zeros(5 - bits);
      PackUnique(bs, vs + [v], 5 - bits);
    } else {
      assert bs == Spread(5, vs) && bs == bs + Zeros(0);
      PackUnique(bs, vs, 0);
    }
  }

  lemma PendingStart()
    ensures Pending(ByteBits([]), [], 0, 0)
  {
    assert Nats([]) == [];
  }

  /** encode, with a 32-bit accumulator that overflows. */
  method Encode(d: Bytes) returns (out: string)
    ensures out == Encoded(d)
  {
    hide Shl, Shr, ByteBits, Pack, Spread, Low, Pow2, Pending;
    out := "";
    var acc: nat, bits: nat := 0, 0;
    ghost var vs: seq<nat> := [];
    var k := 0;
    assert d[..0] == [];
    PendingStart();
    while k < |d|
      invariant 0 <= k <= |d| && bits < 5 && Pending(ByteBits(d[..k]), vs, bits, acc)
      invariant (forall i :: 0 <= i < |vs| ==> vs[i] < 32) && out == Text(vs)
    {
      PendingByte(d, k, vs, bits, acc);
      acc, bits := (Shl(acc, 8) + d[k] as nat) % U32, bits + 8;
      while bits >= 5
        invariant bits <= 12 && Pending(ByteBits(d[..k + 1]), vs, bits, acc)
        invariant (forall i :: 0 <= i < |vs| ==> vs[i] < 32) && out == Text(vs)
      {
        PendingSymbol(ByteBits(d[..k + 1]), vs, bits, acc);
        bits := bits - 5;
        var v := Shr(acc, bits) % 32;
        out := out + [ALPHABET[v]];
        vs := vs + [v];
      }
      k := k + 1;
    }
    assert d[..k] == d;
    PendingEnd(ByteBits(d), vs, bits, acc);
    if bits > 0 {
      var v := Shl(acc, 5 - bits) % 32;
      out := out + [ALPHABET[v]];
      vs := vs + [v];
    }
    assert out == Text(vs);
  }

  lemma NextByte(d: Bytes, k: nat)
    requires k < |d|
    ensures ByteBits(d[..k + 1]) == ByteBits(d[..k]) + Low(8, d[k] as nat)
  {
    assert Nats(d[..k + 1]) == Nats(d[..k]) + [d[k] as nat];
    SpreadSnoc(8, Nats(d[..k]), d[k] as nat);
  }

  lemma LastGroup(bits: nat, acc: nat)
    requires 0 < bits < 5
    ensures Low(5, Shl(acc, 5 - bits) % 32) == Low(bits, acc) + Zeros(5 - bits)
  {
    Five();
    LowMod(5, 5, Shl(acc, 5 - bits));
    LowShift(bits, 5 - bits, acc, 0);
    LowZero(5 - bits);
    assert Shl(acc, 5 - bits) + 0 == Shl(acc, 5 - bits);
  }

  // ---- decoding ------------------------------------------------------------------------------------

  datatype Decoded = Ok(bytes: Bytes) | InvalidChar(ch: char) | Empty

  /** The values of the symbols, if all are valid. */
  function Values(s: string): Option<seq<nat>> {
    if s == "" then Some([])
    else match (Values(s[..|s| - 1]), ValueOf(s[|s| - 1]))
         case (Some(vs), Some(v)) => Some(vs + [v])
         case _ => None
  }

  lemma {:induction false} ValuesSpec(s: string)
    ensures Values(s).Some? <==> forall i :: 0 <= i < |s| ==> ValueOf(s[i]).Some?
    ensures Values(s).Some? ==> |Values(s).value| == |s| && Within(5, Values(s).value)
    ensures Values(s).Some? ==> forall i :: 0 <= i < |s| ==> ValueOf(s[i]) == Some(Values(s).value[i])
  {
    hide ValueOf, Pow2;
    if s != "" {
      var init, c := s[..|s| - 1], s[|s| - 1];
      ValuesSpec(init);
      assert s == init + [c];
      if ValueOf(c).Some? { ValueSmall(c); }
      if forall i :: 0 <= i < |s| ==> ValueOf(s[i]).Some? {
        assert ValueOf(s[|s| - 1]).Some?;
        forall i | 0 <= i < |init| ensures ValueOf(init[i]).Some? { assert init[i] == s[i]; }
      }
    }
  }

  lemma ValueSmall(c: char)
    requires ValueOf(c).Some?
    ensures ValueOf(c).value < Pow2(5)
  {
    Five();
  }

  /** `out` holds the whole bytes of the symbols' bits; what is left over is dropped. */
  ghost predicate Unpacks(vs: seq<nat>, out: Bytes) {
    8 * |out| <= 5 * |vs| < 8 * |out| + 8 && ByteBits(out) == Spread(5, vs)[..8 * |out|]
  }

  lemma UnpackUnique(vs: seq<nat>, a: Bytes, b: Bytes)
    requires Unpacks(vs, a) && Unpacks(vs, b)
    ensures a == b
  {
    assert |a| == |b|;
    BytesInjective(a, b);
  }

  lemma BytesInjective(a: Bytes, b: Bytes)
    requires |a| == |b| && ByteBits(a) == ByteBits(b)
    ensures a == b
  {
    Five();
    SpreadInjective(8, Nats(a), Nats(b));
    forall i | 0 <= i < |a| ensures a[i] == b[i] { assert Nats(a)[i] == Nats(b)[i]; }
  }

  /** decode: the first character that is no symbol is reported. */
  method Decode(s: string) returns (r: Decoded)
    ensures r.Empty? <==> s == ""
    ensures r.InvalidChar? <==> s != "" && Values(s).None?
    ensures r.InvalidChar? ==> exists i :: 0 <= i < |s| && s[i] == r.ch && ValueOf(s[i]).None? && Values(s[..i]).Some?
    ensures r.Ok? ==> Unpacks(Values(s).value, r.bytes)
  {
    hide Shl, Shr, ByteBits, Spread, Low, Pow2, Unread, ValueOf;
    if s == "" { return Empty; }
    var out: Bytes := [];
    var acc: nat, bits: nat := 0, 0;
    var k := 0;
    assert s[..0] == "";
    UnreadStart();
    while k < |s|
      invariant 0 <= k <= |s| && bits < 8 && Values(s[..k]).Some? && |Values(s[..k]).value| == k
      invariant Unread(Values(s[..k]).value, out, bits, acc)
    {
      match ValueOf(s[k]) {
        case None => ValuesSpec(s); return InvalidChar(s[k]);
        case Some(v) =>
          AlphabetExact(s[k], v);
          ghost var vs := Values(s[..k]).value;
          assert s[..k + 1][..k] == s[..k] && Values(s[..k + 1]) == Some(vs + [v]);
          UnreadSymbol(vs, v, out, bits, acc);
          acc, bits := (Shl(acc, 5) + v) % U32, bits + 5;
          if bits >= 8 {
            UnreadByte(vs + [v], out, bits, acc);
            bits := bits - 8;
            out := out + [(Shr(acc, bits) % 256) as byte];
          }
      }
      k := k + 1;
    }
    assert s[..k] == s;
    UnreadEnd(Values(s).value, out, bits, acc);
    return Ok(out);
  }

  /** The bits of the symbols: the bytes written, then what is pending. */
  ghost predicate Unread(vs: seq<nat>, out: Bytes, bits: nat, acc: nat) {
    Spread(5, vs) == ByteBits(out) + Low(bits, acc)
  }

  lemma UnreadStart()
    ensures Unread([], [], 0, 0)
  {
    assert Nats([]) == [];
  }

  lemma UnreadSymbol(vs: seq<nat>, v: nat, out: Bytes, bits: nat, acc: nat)
    requires Unread(vs, out, bits, acc) && v < 32 && bits < 8
    ensures Unread(vs + [v], out, bits + 5, (Shl(acc, 5) + v) % U32)
  {
    hide Low, Spread, Shl, ByteBits;
    Five();
    SpreadSnoc(5, vs, v);
    Push(bits, acc, 5, v);
    assert (ByteBits(out) + Low(bits, acc)) + Low(5, v) == ByteBits(out) + (Low(bits, acc) + Low(5, v));
  }

  lemma UnreadByte(vs: seq<nat>, out: Bytes, bits: nat, acc: nat)
    requires Unread(vs, out, bits, acc) && bits >= 8
    ensures Unread(vs, out + [(Shr(acc, bits - 8) % 256) as byte], bits - 8, acc)
  {
    hide Low, Spread, Shr, ByteBits;
    Five();
    var b := Shr(acc, bits - 8) % 256;
    var more := out + [b as byte];
    Pull(bits - 8, 8, acc);
    NextByte(more, |out|);
    assert more[..|out|] == out && more[..|out| + 1] == more;
    assert ByteBits(out) + (Low(8, b) + Low(bits - 8, acc)) == (ByteBits(out) + Low(8, b)) + Low(bits - 8, acc);
  }

  lemma UnreadEnd(vs: seq<nat>, out: Bytes, bits: nat, acc: nat)
    requires Unread(vs, out, bits, acc) && bits < 8
    ensures Unpacks(vs, out)
  {
    hide Low, Spread;
  }

  // ---- round trip ------------------------------------------------------------------------------------

  lemma {:induction false} TextValues(vs: seq<nat>)
    requires forall i :: 0 <= i < |vs| ==> vs[i] < 32
    ensures Values(Text(vs)) == Some(vs)
  {
    hide ValueOf;
    if vs != [] {
      var n := |vs| - 1;
      TextValues(vs[..n]);
      assert Text(vs)[..n] == Text(vs[..n]) && vs == vs[..n] + [vs[n]];
      SymbolValue(vs[n]);
    }
  }

  /** The text of `d` has ceil(8n/5) symbols, and they stand for `d` and nothing else. */
  lemma RoundTrip(d: Bytes)
    ensures |Encoded(d)| == (8 * |d| + 4) / 5
    ensures Values(Encoded(d)) == Some(Pack(ByteBits(d))) && forall out :: Unpacks(Pack(ByteBits(d)), out) <==> out == d
  {
    Five();
    var bs := ByteBits(d);
    var vs := Pack(bs);
    PackSpread(bs);
    TextValues(vs);
    assert Spread(5, vs)[..8 * |d|] == bs;
    assert Unpacks(vs, d);
    forall out ensures Unpacks(vs, out) <==> out == d { if Unpacks(vs, out) { UnpackUnique(vs, out, d); } }
  }

  /** decode after encode gives the bytes back, for every non-empty input. */
  method DecodeEncoded(d: Bytes) returns (r: Decoded)
    ensures r == if d == [] then Empty else Ok(d)
  {
    var s := Encode(d);
    RoundTrip(d);
    r := Decode(s);
  }

  // ---- bit by bit --------------------------------------------------------------------------------------

  /** The bits of the bytes are those of the symbols, each from the highest down, and less than a byte
      is left over. */
  lemma UnpackedBits(vs: seq<nat>, out: Bytes)
    ensures Unpacks(vs, out) <==>
            && 8 * |out| <= 5 * |vs| < 8 * |out| + 8
            && forall n :: 0 <= n < 8 * |out| ==> (Bit(out[n / 8] as nat, 7 - n % 8) <==> Bit(vs[n / 5], 4 - n % 5))
  {
    hide Spread, Bit;
    if 8 * |out| <= 5 * |vs| {
      forall n | 0 <= n < 8 * |out|
        ensures ByteBits(out)[n] <==> Bit(out[n / 8] as nat, 7 - n % 8)
        ensures Spread(5, vs)[n] <==> Bit(vs[n / 5], 4 - n % 5)
      {
        ByteBitAt(out, n);
        SymbolBitAt(vs, n);
      }
      var part := Spread(5, vs)[..8 * |out|];
      if forall n :: 0 <= n < 8 * |out| ==> (Bit(out[n / 8] as nat, 7 - n % 8) <==> Bit(vs[n / 5], 4 - n % 5)) {
        forall n | 0 <= n < 8 * |out| ensures ByteBits(out)[n] == part[n] {}
        assert ByteBits(out) == part;
      }
      if ByteBits(out) == part {
        forall n | 0 <= n < 8 * |out| ensures Bit(out[n / 8] as nat, 7 - n % 8) <==> Bit(vs[n / 5], 4 - n % 5) {
          assert ByteBits(out)[n] == part[n];
        }
      }
    }
  }

  lemma ByteBitAt(d: Bytes, n: nat)
    requires n < 8 * |d|
    ensures n < |ByteBits(d)| && (ByteBits(d)[n] <==> Bit(d[n / 8] as nat, 7 - n % 8))
  {
    hide Spread, Bit;
    SpreadAt(8, Nats(d), n / 8, n % 8);
  }

  lemma SymbolBitAt(vs: seq<nat>, n: nat)
    requires n < 5 * |vs|
    ensures n < |Spread(5, vs)| && (Spread(5, vs)[n] <==> Bit(vs[n / 5], 4 - n % 5))
  {
    hide Spread, Bit;
    SpreadAt(5, vs, n / 5, n % 5);
  }
}
