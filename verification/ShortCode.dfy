/** The typed pairing code: transport hints and a digest prefix, with a checksum. */
module ShortCode {
  import opened Blobs
  import opened Bits
  import opened Base32
  import opened Wire

  /** BLAKE3 and CRC-32. */
  datatype Kit = Kit(hash: Bytes -> Bytes, crc: Bytes -> nat)

  ghost predicate ValidKit(kit: Kit) {
    forall b: Bytes :: |kit.hash(b)| == 32 && kit.crc(b) < 0x1_0000_0000
  }

  /** What the code carries: ten bytes, and the upper half of their checksum. */
  function Data(kit: Kit, offer: Bytes, hints: nat): Bytes
    requires |kit.hash(offer)| >= 8
  {
    Little(2, hints) + kit.hash(offer)[..8]
  }

  function Check(kit: Kit, data: Bytes): Bytes { Big(2, kit.crc(data) / 0x1_0000) }

  function Carried(kit: Kit, offer: Bytes, hints: nat): Bytes
    requires |kit.hash(offer)| >= 8
  {
    Data(kit, offer, hints) + Check(kit, Data(kit, offer, hints))
  }

  /** Hyphens and spaces do not count. */
  function Clean(code: string): string {
    if code == "" then ""
    else Clean(code[..|code| - 1]) + if code[|code| - 1] == '-'
      || code[|code| - 1] == ' ' then "" else [code[|code| - 1]]
  }

  /** The length of a string in UTF-8. */
  function ByteLen(s: string): nat {
    if s == "" then 0 else ByteLen(s[..|s| - 1]) + CharLen(s[|s| - 1])
  }

  function CharLen(c: char): nat {
    if c < 128 as char then 1 else if c < 2048 as char then 2 else if c < 65536 as char then 3 else 4
  }

  /** The bytes of a character hold 7, 11, 16 or 21 bits, and it takes as few as it can. */
  lemma CharLenExactly(c: char)
    ensures var n, v := CharLen(c), c as int;
            && 1 <= n <= 4 && v < [0x80, 0x800, 0x1_0000, 0x11_0000][n - 1]
            && (n > 1 ==> v >= [0x80, 0x800, 0x1_0000][n - 2])
  {
  }

  lemma {:induction false} SymbolsAreBytes(s: string)
    ensures |s| <= ByteLen(s)
    ensures Values(s).Some? ==> ByteLen(s) == |s|
  {
    if s != "" {
      SymbolsAreBytes(s[..|s| - 1]);
      var c := s[|s| - 1];
      if ValueOf(c).Some? { assert c < 128 as char; }
    }
  }

  lemma {:induction false} CleanAppend(a: string, b: string)
    ensures Clean(a + b) == Clean(a) + Clean(b)
    decreases |b|
  {
    hide *;
    if b == "" {
      CleanNone();
      PlusNone(a);
      PlusNone(Clean(a));
    } else {
      var init, last := b[..|b| - 1], b[|b| - 1];
      CleanAppend(a, init);
      assert b == init + [last];
      Assoc(a, init, [last]);
      CleanSnoc(a + init, last);
      CleanSnoc(init, last);
      Assoc(Clean(a), Clean(init), if last == '-' || last == ' ' then "" else [last]);
    }
  }

  lemma CleanNone()
    ensures Clean("") == ""
  {
  }

  lemma CleanSnoc(s: string, c: char)
    ensures Clean(s + [c]) == Clean(s) + if c == '-' || c == ' ' then "" else [c]
  {
    assert (s + [c])[..|s + [c]| - 1] == s;
  }

  lemma {:induction false} CleanSymbols(s: string)
    requires Values(s).Some?
    ensures Clean(s) == s
  {
    if s != "" {
      CleanSymbols(s[..|s| - 1]);
      assert s == s[..|s| - 1] + [s[|s| - 1]];
    }
  }

  /** The code as it is shown. */
  function Shown(main: string, tail: string): string
    requires |main| == 16
  {
    main[0..4] + "-" + main[4..8] + "-" + main[8..12] + "-" + main[12..16] + "-" + tail
  }

  lemma ShownClean(main: string, tail: string)
    requires |main| == 16 && Values(main).Some? && Values(tail).Some?
    ensures Clean(Shown(main, tail)) == main + tail
  {
    hide Clean, Values;
    var a, b, c, d := main[0..4], main[4..8], main[8..12], main[12..16];
    PartValues(main, 0, 4);
    PartValues(main, 4, 8);
    PartValues(main, 8, 12);
    PartValues(main, 12, 16);
    CleanSymbols(a);
    Hyphened(a, b);
    Hyphened(a + "-" + b, c);
    Hyphened(a + "-" + b + "-" + c, d);
    Hyphened(a + "-" + b + "-" + c + "-" + d, tail);
    assert a + b + c + d == main;
  }

  lemma Hyphened(a: string, b: string)
    requires Values(b).Some?
    ensures Clean(a + "-" + b) == Clean(a) + b
  {
    hide Clean, Values;
    CleanSymbols(b);
    HyphenClean();
    CleanAppend(a + "-", b);
    CleanAppend(a, "-");
  }

  lemma HyphenClean()
    ensures Clean("-") == ""
  {
    assert "-"[..0] == "";
  }

  lemma PartValues(s: string, i: nat, j: nat)
    requires Values(s).Some? && i <= j <= |s|
    ensures Values(s[i..j]).Some?
  {
    ValuesSpec(s);
    ValuesSpec(s[i..j]);
  }

  lemma {:induction false} ValuesAppend(a: string, b: string)
    requires Values(a).Some? && Values(b).Some?
    ensures Values(a + b) == Some(Values(a).value + Values(b).value)
    decreases |b|
  {
    if b == "" { assert a + b == a && Values(a).value + [] == Values(a).value; }
    else {
      var init := b[..|b| - 1];
      ValuesAppend(a, init);
      assert (a + b)[..|a + b| - 1] == a + init;
      assert (Values(a).value + Values(init).value) + [ValueOf(b[|b| - 1]).value] == Values(a).value + Values(b).value;
    }
  }

  /** The symbols of the code for an offer. */
  function CodeValues(kit: Kit, offer: Bytes, hints: nat): seq<nat>
    requires |kit.hash(offer)| >= 8
  {
    var data := Data(kit, offer, hints);
    Pack(ByteBits(data)) + Pack(ByteBits(Check(kit, data)))
  }

  /** Equal, but for the low four bits of the last symbol. */
  predicate SameButLow(vs: seq<nat>, ws: seq<nat>) {
    |vs| == 20 && |ws| == 20 && vs[..19] == ws[..19] && vs[19] / 16 == ws[19] / 16
  }

  lemma CodeShape(kit: Kit, offer: Bytes, hints: nat)
    requires ValidKit(kit)
    ensures var ws := CodeValues(kit, offer, hints);
            |ws| == 20 && Within(5, ws) && Spread(5, ws) == ByteBits(Carried(kit, offer, hints)) + Zeros(4)
  {
    hide Spread, Pack, Zeros;
    var data := Data(kit, offer, hints);
    var check := Check(kit, data);
    assert |data| == 10 && |check| == 2;
    var a, b := ByteBits(data), ByteBits(check);
    PackSpread(a);
    PackSpread(b);
    SpreadAppend(5, Pack(a), Pack(b));
    BitsAppend(data, check);
    assert a + Zeros(0) == a && a + (b + Zeros(4)) == (a + b) + Zeros(4);
  }

  lemma BitsAppend(a: Bytes, b: Bytes)
    ensures ByteBits(a + b) == ByteBits(a) + ByteBits(b)
  {
    assert Nats(a + b) == Nats(a) + Nats(b);
    SpreadAppend(8, Nats(a), Nats(b));
  }

  /** The last symbol keeps its top bit, in front of four that are dropped. */
  lemma LastSymbol(vs: seq<nat>)
    requires |vs| == 20 && Within(5, vs)
    ensures Spread(5, vs)[..96] == Spread(5, vs[..19]) + [vs[19] / 16 == 1]
  {
    Five();
    TopBit(vs[19]);
    hide Spread, Low, Pow2;
    var x, y := Spread(5, vs[..19]), Low(5, vs[19]);
    assert vs == vs[..19] + [vs[19]];
    SpreadSnoc(5, vs[..19], vs[19]);
    assert |x| == 95 && |y| == 5;
    OneMore(x, y);
  }

  lemma OneMore<T>(x: seq<T>, y: seq<T>)
    requires y != []
    ensures (x + y)[..|x| + 1] == x + [y[0]]
  {
  }

  lemma TopBit(v: nat)
    requires v < 32
    ensures Low(5, v)[0] == (v / 16 == 1)
  {
    LowSplit(1, 4, v);
    assert Shr(v, 4) == Shr(v / 2, 3) == Shr(v / 4, 2) == Shr(v / 8, 1) == v / 16;
    assert Low(1, v / 16) == [v / 16 == 1];
  }

  /** Twenty symbols unpack to the carried bytes exactly if they are the code's symbols, up to the
      four bits that are dropped. */
  lemma UnpacksCode(kit: Kit, offer: Bytes, hints: nat, vs: seq<nat>, out: Bytes)
    requires ValidKit(kit) && |vs| == 20 && Within(5, vs) && Unpacks(vs, out)
    ensures |out| == 12 && (out == Carried(kit, offer, hints) <==> SameButLow(vs, CodeValues(kit, offer, hints)))
  {
    hide Spread, Pack, CodeValues, Carried, ByteBits;
    var d, ws := Carried(kit, offer, hints), CodeValues(kit, offer, hints);
    CodeShape(kit, offer, hints);
    CarriedLength(kit, offer, hints);
    assert Spread(5, ws)[..96] == ByteBits(d);
    LastSymbol(vs);
    LastSymbol(ws);
    if out == d {
      var x, y := Spread(5, vs[..19]), Spread(5, ws[..19]);
      assert x == (x + [vs[19] / 16 == 1])[..95] && y == (y + [ws[19] / 16 == 1])[..95];
      SpreadInjective(5, vs[..19], ws[..19]);
      assert (x + [vs[19] / 16 == 1])[95] == (y + [ws[19] / 16 == 1])[95];
      Five();
    }
    if SameButLow(vs, ws) { BytesInjective(out, d); }
  }

  lemma CarriedLength(kit: Kit, offer: Bytes, hints: nat)
    requires ValidKit(kit)
    ensures |Carried(kit, offer, hints)| == 12 && |ByteBits(Carried(kit, offer, hints))| == 96
  {
  }

  // ---- the bytes and the characters of a code --------------------------------------------------------

  /** The twelve bytes a code for the offer stands for: the hints, the lower byte first; the first
      eight bytes of the offer's digest; and the upper half of the checksum of these ten, the higher
      byte first. */
  ghost predicate Carries(kit: Kit, offer: Bytes, hints: nat, b: Bytes)
    requires |kit.hash(offer)| >= 8
  {
    && |b| == 12 && b[0] as nat == hints % 256 && b[1] as nat == (hints / 256) % 256
    && (forall i :: 0 <= i < 8 ==> b[2 + i] == kit.hash(offer)[i])
    && b[10] as nat * 256 + b[11] as nat == kit.crc(b[..10]) / 0x1_0000
  }

  lemma CarriesExactly(kit: Kit, offer: Bytes, hints: nat, b: Bytes)
    requires ValidKit(kit)
    ensures Carries(kit, offer, hints, b) <==> b == Carried(kit, offer, hints)
  {
    hide ValidKit;
    HashSize(kit, offer);
    CrcSize(kit, b[..if |b| < 10 then |b| else 10]);
    var head := kit.hash(offer)[..8];
    TwoLittle(hints);
    if |b| == 12 {
      CarriedParts(kit, offer, hints, b);
      TwoBig(kit.crc(b[..10]) / 0x1_0000);
      var data := Data(kit, offer, hints);
      assert b[..10] == data <==> b[0] == data[0] && b[1] == data[1] && b[2..10] == data[2..] by {
        assert b[..10] == [b[0], b[1]] + b[2..10] && data == [data[0], data[1]] + data[2..];
      }
      assert data[2..] == head;
      if forall i :: 0 <= i < 8 ==> b[2 + i] == kit.hash(offer)[i] {
        forall i | 0 <= i < 8 ensures b[2..10][i] == head[i] {}
        assert b[2..10] == head;
      }
      if b[2..10] == head {
        forall i | 0 <= i < 8 ensures b[2 + i] == kit.hash(offer)[i] { assert b[2..10][i] == head[i]; }
      }
      assert b[10..12] == [b[10], b[11]];
    } else {
      CarriedLength(kit, offer, hints);
    }
  }

  lemma CrcSize(kit: Kit, b: Bytes)
    requires ValidKit(kit)
    ensures kit.crc(b) < 0x1_0000_0000
  {
  }

  lemma TwoLittle(v: nat)
    ensures Little(2, v) == [(v % 256) as byte, ((v / 256) % 256) as byte]
  {
    assert Little(1, v / 256) == [((v / 256) % 256) as byte] + Little(0, v / 256 / 256);
  }

  lemma TwoBig(v: nat)
    requires v < 0x1_0000
    ensures |Big(2, v)| == 2 && forall x: byte, y: byte :: [x, y] == Big(2, v) <==> x as nat * 256 + y as nat == v
  {
    assert Big(1, v / 256) == Big(0, v / 256 / 256) + [((v / 256) % 256) as byte];
    assert Big(2, v) == [(v / 256) as byte, (v % 256) as byte];
  }

  /** What is left of a code once hyphens and spaces are taken out: the other characters, in order. */
  ghost predicate Strips(code: string, at: seq<nat>, left: string) {
    && |left| == |at| && (forall i, j :: 0 <= i < j < |at| ==> at[i] < at[j])
    && (forall k: nat :: k in at <==> k < |code| && code[k] != '-' && code[k] != ' ')
    && (forall i :: 0 <= i < |at| ==> at[i] < |code| && left[i] == code[at[i]])
  }

  lemma {:induction false} CleanStrips(code: string) returns (at: seq<nat>)
    ensures Strips(code, at, Clean(code))
  {
    at := [];
    if code != "" {
      var last := |code| - 1;
      var init := code[..last];
      var rest := CleanStrips(init);
      at := rest + if code[last] == '-' || code[last] == ' ' then [] else [last];
      forall k: nat ensures k in at <==> k < |code| && code[k] != '-' && code[k] != ' ' {
        if k < last { assert init[k] == code[k]; assert k in at <==> k in rest; }
      }
      forall i | 0 <= i < |rest| ensures at[i] < last && Clean(code)[i] == code[at[i]] { assert rest[i] in rest; }
    }
  }

  /** Five groups of four symbols, with a hyphen between any two. */
  ghost predicate Grouped(code: string) {
    && |code| == 24
    && (forall i :: 0 <= i < 24 ==> (code[i] == '-' <==> i == 4 || i == 9 || i == 14 || i == 19))
    && (forall i :: 0 <= i < 24 && code[i] != '-' ==> code[i] in ALPHABET)
  }

  lemma ShownGrouped(main: string, tail: string)
    requires |main| == 16 && |tail| == 4
    requires (forall i :: 0 <= i < 16 ==> main[i] in ALPHABET) && forall i :: 0 <= i < 4 ==> tail[i] in ALPHABET
    ensures Grouped(Shown(main, tail))
  {
    hide Shown;
    NoHyphen();
    var code := Shown(main, tail);
    ShownAt(main, tail);
    forall i | 0 <= i < 24 && i != 4 && i != 9 && i != 14 && i != 19 ensures code[i] in ALPHABET {
      if i < 20 { assert main[i - i / 5] in ALPHABET; } else { assert tail[i - 20] in ALPHABET; }
    }
  }

  lemma ShownAt(main: string, tail: string)
    requires |main| == 16 && |tail| == 4
    ensures |Shown(main, tail)| == 24
    ensures forall i :: 0 <= i < 24 ==>
              Shown(main, tail)[i] == if i == 4 || i == 9 || i == 14 || i == 19 then '-'
                                      else if i < 20 then main[i - i / 5] else tail[i - 20]
  {
  }

  lemma NoHyphen()
    ensures '-' !in ALPHABET
  {
  }

  lemma TextInAlphabet(d: Bytes)
    ensures forall i :: 0 <= i < |Encoded(d)| ==> Encoded(d)[i] in ALPHABET
  {
    hide Pack, ByteBits;
    PackSpread(ByteBits(d));
    Five();
  }

  /** short_code_for */
  method ShortCodeFor(kit: Kit, offer: Bytes, hints: nat) returns (code: string)
    requires ValidKit(kit)
    ensures |kit.hash(offer)| == 32
    ensures var data := Data(kit, offer, hints);
            |Encoded(data)| == 16 && code == Shown(Encoded(data), Encoded(Check(kit, data)))
    ensures Values(Clean(code)) == Some(CodeValues(kit, offer, hints))
    ensures Grouped(code) && exists b: Bytes :: Unpacks(Values(Clean(code)).value, b) && Carries(kit, offer, hints, b)
  {
    hide ByteBits, Pack, ValidKit, Grouped, Unpacks, Carries;
    assert |kit.hash(offer)| == 32 by { HashSize(kit, offer); }
    var data := Little(2, hints) + kit.hash(offer)[..8];
    var check := Big(2, kit.crc(data) / 0x1_0000);
    var main := Encode(data);
    var tail := Encode(check);
    RoundTrip(data);
    RoundTrip(check);
    code := main[0..4] + "-" + main[4..8] + "-" + main[8..12] + "-" + main[12..16] + "-" + tail;
    ShownClean(main, tail);
    ValuesAppend(main, tail);
    TextInAlphabet(data);
    TextInAlphabet(check);
    ShownGrouped(main, tail);
    CodeUnpacks(kit, offer, hints);
  }

  lemma CodeUnpacks(kit: Kit, offer: Bytes, hints: nat)
    requires ValidKit(kit)
    ensures var b := Carried(kit, offer, hints);
            Unpacks(CodeValues(kit, offer, hints), b) && |kit.hash(offer)| >= 8 && Carries(kit, offer, hints, b)
  {
    hide Spread, Pack, Zeros, ValidKit, Carries, CodeValues, Carried, ByteBits;
    HashSize(kit, offer);
    var b, ws := Carried(kit, offer, hints), CodeValues(kit, offer, hints);
    CodeShape(kit, offer, hints);
    CarriedLength(kit, offer, hints);
    CarriesExactly(kit, offer, hints, b);
    assert Spread(5, ws)[..96] == ByteBits(b);
  }

  lemma HashSize(kit: Kit, offer: Bytes)
    requires ValidKit(kit)
    ensures |kit.hash(offer)| == 32
  {
  }

  datatype Verdict = Verified(hints: nat) | Truncated | BadSymbol | ChecksumMismatch | HashMismatch

  /** A code is accepted for an offer with these hints. */
  ghost predicate Accepts(kit: Kit, code: string, offer: Bytes, hints: nat)
    requires |kit.hash(offer)| >= 8
  {
    && hints < 0x1_0000
    && Values(Clean(code)).Some? && SameButLow(Values(Clean(code)).value, CodeValues(kit, offer, hints))
  }

  /** The code is one for these ten bytes: its symbols stand for them and their checksum. */
  ghost predicate IsCodeFor(kit: Kit, code: string, data: Bytes) {
    && |data| == 10 && ByteLen(Clean(code)) == 20 && Values(Clean(code)).Some?
    && Unpacks(Values(Clean(code)).value, data + Check(kit, data))
  }

  ghost predicate IsCode(kit: Kit, code: string) {
    exists data :: IsCodeFor(kit, code, data)
  }

  /** It is one, for a digest that is not the offer's. */
  ghost predicate IsForeign(kit: Kit, code: string, offer: Bytes)
    requires |kit.hash(offer)| >= 8
  {
    exists data :: IsCodeFor(kit, code, data) && data[2..] != kit.hash(offer)[..8]
  }

  lemma CodeForBytes(kit: Kit, code: string, bytes: Bytes, data: Bytes)
    requires ByteLen(Clean(code)) == 20 && Values(Clean(code)).Some? && |bytes| == 12
    requires Unpacks(Values(Clean(code)).value, bytes)
    ensures IsCodeFor(kit, code, data) <==> data == bytes[..10] && bytes[10..12] == Check(kit, data)
  {
    hide ByteLen, Unpacks, Clean, Values;
    var all := data + Check(kit, data);
    assert bytes == bytes[..10] + bytes[10..12];
    if IsCodeFor(kit, code, data) {
      UnpackUnique(Values(Clean(code)).value, bytes, all);
      assert all[..10] == data && all[10..12] == Check(kit, data);
    }
  }

  /** verify_short_code: exactly the code's own symbols are accepted, in either case, with any
      hyphens and spaces, and whatever the low four bits of the last. Of the rest, the length, then
      the symbols, then the checksum, then the digest is complained of. */
  method VerifyShortCode(kit: Kit, code: string, offer: Bytes) returns (r: Verdict)
    requires ValidKit(kit)
    ensures |kit.hash(offer)| >= 8 && forall hints: nat :: r == Verified(hints) <==> Accepts(kit, code, offer, hints)
    ensures forall hints: nat :: r == Verified(hints) <==> StandsFor(kit, code, offer, hints)
    ensures r.Truncated? <==> ByteLen(Clean(code)) != 20
    ensures r.BadSymbol? <==> ByteLen(Clean(code)) == 20 && Values(Clean(code)).None?
    ensures r.ChecksumMismatch? <==>
      ByteLen(Clean(code)) == 20 && Values(Clean(code)).Some? && !IsCode(kit, code)
    ensures r.HashMismatch? <==> IsForeign(kit, code, offer)
  {
    hide SameButLow, CodeValues, Carried, ByteBits, ValidKit, ByteLen, Unpacks, IsCodeFor, StandsFor, Clean, Values;
    HashSize(kit, offer);
    var cleaned := Clean(code);
    CodeParts(kit, code);
    SymbolsAreBytes(cleaned);
    ValuesSpec(cleaned);
    forall hints: nat ensures Accepts(kit, code, offer, hints) <==> StandsFor(kit, code, offer, hints) {
      AcceptsBytes(kit, code, offer, hints);
    }
    if ByteLen(cleaned) != 20 {
      forall hints: nat ensures !Accepts(kit, code, offer, hints) { WrongLength(kit, code, offer, hints); }
      return Truncated;
    }
    var d := Decode(cleaned);
    if !d.Ok? { return BadSymbol; }
    var bytes, vs := d.bytes, Values(cleaned).value;
    forall hints: nat
      ensures Accepts(kit, code, offer, hints) <==>
          hints < 0x1_0000 && bytes == Carried(kit, offer, hints) && |bytes| == 12
    {
      UnpacksCode(kit, offer, hints, vs, bytes);
    }
    UnpacksCode(kit, offer, 0, vs, bytes);
    var data, check := bytes[..10], bytes[10..12];
    forall other: Bytes
      ensures IsCodeFor(kit, code, other) <==> other == data && check == Check(kit, other)
    {
      CodeForBytes(kit, code, bytes, other);
    }
    forall hints: nat
      ensures Accepts(kit, code, offer, hints) <==>
          hints < 0x1_0000 && data == Data(kit, offer, hints) && check == Check(kit, data)
    {
      CarriedParts(kit, offer, hints, bytes);
    }
    if Big(2, kit.crc(data) / 0x1_0000) != check { return ChecksumMismatch; }
    forall hints: nat
      ensures hints < 0x1_0000 && data == Data(kit, offer, hints) <==>
          data[2..] == kit.hash(offer)[..8] && hints == FromLittle(data[..2])
    {
      DataParts(kit, offer, hints, data);
    }
    if data[2..] != kit.hash(offer)[..8] { return HashMismatch; }
    assert [data[0], data[1]] == data[..2];
    return Verified(FromLittle([data[0], data[1]]));
  }

  /** The symbols of the code are twenty, and stand for the bytes of a code for the offer. */
  ghost predicate StandsFor(kit: Kit, code: string, offer: Bytes, hints: nat)
    requires |kit.hash(offer)| >= 8
  {
    && hints < 0x1_0000 && ByteLen(Clean(code)) == 20 && Values(Clean(code)).Some?
    && exists b: Bytes :: Unpacks(Values(Clean(code)).value, b) && Carries(kit, offer, hints, b)
  }

  /** To be accepted is to stand for these bytes. */
  lemma AcceptsBytes(kit: Kit, code: string, offer: Bytes, hints: nat)
    requires ValidKit(kit)
    ensures |kit.hash(offer)| >= 8 && (Accepts(kit, code, offer, hints) <==> StandsFor(kit, code, offer, hints))
  {
    hide SameButLow, CodeValues, Carried, Carries, ByteBits, ValidKit, ByteLen, Unpacks;
    HashSize(kit, offer);
    SymbolsAreBytes(Clean(code));
    ValuesSpec(Clean(code));
    if Accepts(kit, code, offer, hints) {
      var vs := Values(Clean(code)).value;
      CodeUnpacks(kit, offer, hints);
      CodeShape(kit, offer, hints);
      SameUnpacks(vs, CodeValues(kit, offer, hints), Carried(kit, offer, hints));
    }
    if StandsFor(kit, code, offer, hints) {
      var vs := Values(Clean(code)).value;
      var b: Bytes :| Unpacks(vs, b) && Carries(kit, offer, hints, b);
      UnpacksCode(kit, offer, hints, vs, b);
      CarriesExactly(kit, offer, hints, b);
    }
  }

  /** The four low bits of the last symbol do not matter. */
  lemma SameUnpacks(vs: seq<nat>, ws: seq<nat>, b: Bytes)
    requires SameButLow(vs, ws) && Within(5, vs) && Within(5, ws) && Unpacks(ws, b)
    ensures |vs| == 20 && Unpacks(vs, b)
  {
    hide Spread, ByteBits;
    LastSymbol(vs);
    LastSymbol(ws);
  }

  lemma CodeParts(kit: Kit, code: string)
    ensures IsCode(kit, code) ==> ByteLen(Clean(code)) == 20 && Values(Clean(code)).Some?
    ensures forall data :: IsCodeFor(kit, code, data) ==> |data| == 10 && IsCode(kit, code)
  {
    hide ByteLen, Unpacks, Clean, Values;
  }

  lemma WrongLength(kit: Kit, code: string, offer: Bytes, hints: nat)
    requires |kit.hash(offer)| >= 8 && ByteLen(Clean(code)) != 20
    ensures !Accepts(kit, code, offer, hints)
  {
    SymbolsAreBytes(Clean(code));
    ValuesSpec(Clean(code));
  }

  lemma CarriedParts(kit: Kit, offer: Bytes, hints: nat, bytes: Bytes)
    requires |kit.hash(offer)| >= 8 && |bytes| == 12
    ensures bytes == Carried(kit, offer, hints) <==>
        bytes[..10] == Data(kit, offer, hints) && bytes[10..12] == Check(kit, bytes[..10])
  {
    assert bytes == bytes[..10] + bytes[10..12];
  }

  lemma DataParts(kit: Kit, offer: Bytes, hints: nat, data: Bytes)
    requires |kit.hash(offer)| >= 8 && |data| == 10
    ensures hints < 0x1_0000 && data == Data(kit, offer, hints) <==>
        data[2..] == kit.hash(offer)[..8] && hints == FromLittle(data[..2])
  {
    Widths();
    if hints < 0x1_0000 { NumberAt(data, 2, hints, kit.hash(offer)[..8]); }
  }

  /** The code made for an offer is accepted for it, with the hints it was made with. */
  method OwnCodeVerifies(kit: Kit, offer: Bytes, hints: nat) returns (r: Verdict)
    requires ValidKit(kit) && hints < 0x1_0000
    ensures r == Verified(hints)
  {
    var code := ShortCodeFor(kit, offer, hints);
    CodeShape(kit, offer, hints);
    r := VerifyShortCode(kit, code, offer);
    assert Accepts(kit, code, offer, hints);
  }
}
