/** Bytes on the wire: numbers, the cursor the parsers use, and counted lists. */
module Wire {
  import opened Blobs

  // ---- numbers -------------------------------------------------------------------------------

  function Pow256(n: nat): (p: nat)
    ensures p > 0
  {
    if n == 0 then 1 else 256 * Pow256(n - 1)
  }

  /** Little-endian, in `n` bytes; higher bytes are cut off. */
  function Little(n: nat, v: nat): (b: Bytes)
    ensures |b| == n
  {
    if n == 0 then [] else [(v % 256) as byte] + Little(n - 1, v / 256)
  }

  function FromLittle(b: Bytes): (v: nat)
    ensures v < Pow256(|b|)
  {
    if b == [] then 0 else b[0] as nat + 256 * FromLittle(b[1..])
  }

  /** Big-endian, in `n` bytes. */
  function Big(n: nat, v: nat): (b: Bytes)
    ensures |b| == n
  {
    if n == 0 then [] else Big(n - 1, v / 256) + [(v % 256) as byte]
  }

  function FromBig(b: Bytes): nat {
    if b == [] then 0 else 256 * FromBig(b[..|b| - 1]) + b[|b| - 1] as nat
  }

  lemma {:induction false} LittleInverse(n: nat, v: nat)
    ensures FromLittle(Little(n, v)) == v <==> v < Pow256(n)
  {
    if n > 0 {
      LittleInverse(n - 1, v / 256);
      assert Little(n, v)[1..] == Little(n - 1, v / 256);
    }
  }

  lemma {:induction false} FromLittleInverse(b: Bytes)
    ensures Little(|b|, FromLittle(b)) == b
  {
    if b != [] {
      FromLittleInverse(b[1..]);
      LowByte(b[0], FromLittle(b[1..]));
      hide FromLittle, Pow256;
      assert b == [b[0]] + b[1..];
    }
  }

  lemma LowByte(b: byte, v: nat)
    ensures (b as nat + 256 * v) % 256 == b as nat && (b as nat + 256 * v) / 256 == v
  {
  }

  lemma {:induction false} BigInverse(n: nat, v: nat)
    requires v < Pow256(n)
    ensures FromBig(Big(n, v)) == v
  {
    if n > 0 {
      BigInverse(n - 1, v / 256);
      var b := Big(n, v);
      assert b[..n - 1] == Big(n - 1, v / 256);
    }
  }

  // ---- the place of each byte ----------------------------------------------------------------

  lemma DivideTwice(v: nat, w: nat)
    requires w > 0
    ensures (v / 256) / w == v / (256 * w)
  {
    var q, r := v / 256, v % 256;
    var k, s := q / w, q % w;
    assert v == 256 * (k * w + s) + r;
    assert 256 * (k * w) == k * (256 * w) by { Swapped(k, w); }
    Quotient(v, 256 * w, k, 256 * s + r);
  }

  lemma Swapped(k: nat, w: nat)
    ensures 256 * (k * w) == k * (256 * w)
  {
  }

  lemma Quotient(v: nat, d: nat, k: nat, r: nat)
    requires v == k * d + r && r < d
    ensures v / d == k
  {
    var k', r' := v / d, v % d;
    assert v == k' * d + r';
    if k' > k { Steps(k', k, d); }
    if k > k' { Steps(k, k', d); }
  }

  lemma Steps(a: nat, b: nat, d: nat)
    requires a > b
    ensures a * d >= b * d + d
  {
    var n := a - b - 1;
    assert a * d == b * d + d + n * d;
  }

  /** Byte `i` of the little-endian image has weight 256 to the power `i`. */
  lemma {:induction false} LittleAt(n: nat, v: nat, i: nat)
    requires i < n
    ensures Little(n, v)[i] as nat == (v / Pow256(i)) % 256
  {
    if i > 0 {
      LittleAt(n - 1, v / 256, i - 1);
      DivideTwice(v, Pow256(i - 1));
    }
  }

  /** Byte `i` of the big-endian image has weight 256 to the power of the number of bytes after it. */
  lemma {:induction false} BigAt(n: nat, v: nat, i: nat)
    requires i < n
    ensures Big(n, v)[i] as nat == (v / Pow256(n - 1 - i)) % 256
  {
    if i < n - 1 {
      BigAt(n - 1, v / 256, i);
      DivideTwice(v, Pow256(n - 2 - i));
    }
  }

  /** The sum of the first `n` bytes by their weights, the first byte the lightest. */
  function Weighed(b: Bytes, n: nat): nat
    requires n <= |b|
  {
    if n == 0 then 0 else Weighed(b, n - 1) + b[n - 1] as nat * Pow256(n - 1)
  }

  /** The same with the first byte the heaviest. */
  function WeighedDown(b: Bytes, n: nat): nat
    requires n <= |b|
  {
    if n == 0 then 0 else WeighedDown(b, n - 1) + b[n - 1] as nat * Pow256(|b| - n)
  }

  lemma {:induction false} WeighedTail(b: Bytes, n: nat)
    requires 0 < n <= |b|
    ensures Weighed(b, n) == b[0] as nat + 256 * Weighed(b[1..], n - 1)
    decreases n
  {
    if n > 1 {
      WeighedTail(b, n - 1);
      assert b[1..][n - 2] == b[n - 1];
      Shifted(b[n - 1] as nat, Pow256(n - 2));
    }
  }

  lemma Shifted(x: nat, w: nat)
    ensures x * (256 * w) == 256 * (x * w)
  {
  }

  lemma {:induction false} FromLittleSum(b: Bytes)
    ensures FromLittle(b) == Weighed(b, |b|)
  {
    if b != [] {
      FromLittleSum(b[1..]);
      WeighedTail(b, |b|);
    }
  }

  lemma {:induction false} WeighedInit(b: Bytes, n: nat)
    requires n < |b|
    ensures WeighedDown(b, n) == 256 * WeighedDown(b[..|b| - 1], n)
  {
    if n > 0 {
      WeighedInit(b, n - 1);
      Shifted(b[n - 1] as nat, Pow256(|b| - 1 - n));
    }
  }

  lemma {:induction false} FromBigSum(b: Bytes)
    ensures FromBig(b) == WeighedDown(b, |b|)
    decreases |b|
  {
    if b != [] {
      FromBigSum(b[..|b| - 1]);
      WeighedInit(b, |b| - 1);
    }
  }

  lemma Widths()
    ensures Pow256(1) == 0x100 && Pow256(2) == 0x1_0000 && Pow256(4) == 0x1_0000_0000
    ensures Pow256(8) == 0x1_0000_0000_0000_0000
  {
    assert Pow256(3) == 256 * Pow256(2);
    assert Pow256(4) == 256 * Pow256(3);
    assert Pow256(5) == 256 * Pow256(4);
    assert Pow256(6) == 256 * Pow256(5);
    assert Pow256(7) == 256 * Pow256(6);
    assert Pow256(8) == 256 * Pow256(7);
  }

  /** The bytes of `b` start with the image of `v`, and only that value's. */
  lemma NumberAt(b: Bytes, w: nat, v: nat, rest: Bytes)
    requires w <= |b| && v < Pow256(w)
    ensures b == Little(w, v) + rest <==> FromLittle(b[..w]) == v && b[w..] == rest
  {
    LittleInverse(w, v);
    FromLittleInverse(b[..w]);
    if b == Little(w, v) + rest { assert b[..w] == Little(w, v); }
    if FromLittle(b[..w]) == v && b[w..] == rest { assert b == b[..w] + b[w..]; }
  }

  // ---- the cursor ------------------------------------------------------------------------------

  class Reader {
    const buf: Bytes
    var pos: nat

    ghost predicate Valid()
      reads this
    {
      pos <= |buf|
    }

    function Rest(): Bytes
      reads this
      requires Valid()
    {
      buf[pos..]
    }

    constructor (buf: Bytes)
      ensures Valid() && Rest() == buf
    {
      this.buf, pos := buf, 0;
    }

    method Take(n: nat) returns (r: Option<Bytes>)
      requires Valid()
      modifies this
      ensures Valid() && (r.Some? <==> n <= |old(Rest())|)
      ensures r.Some? ==> r.value == old(Rest())[..n] && Rest() == old(Rest())[n..]
      ensures r.None? ==> Rest() == old(Rest())
    {
      var end := pos + n;
      if end > |buf| { return None; }
      r := Some(buf[pos..end]);
      pos := end;
    }

    /** u8, u16, u32, u64 */
    method Number(w: nat) returns (r: Option<nat>)
      requires Valid()
      modifies this
      ensures Valid() && (r.Some? <==> w <= |old(Rest())|)
      ensures r.Some? ==> r.value == FromLittle(old(Rest())[..w]) && Rest() == old(Rest())[w..]
    {
      var b := Take(w);
      match b { case None => return None; case Some(x) => return Some(FromLittle(x)); }
    }
  }

  // ---- counted lists ---------------------------------------------------------------------------

  /** A way to write one element and to read one off the front. */
  datatype Format<!T> = Format(put: T -> Bytes, get: Bytes -> Option<(T, Bytes)>, ok: T -> bool)

  /** Reading is exactly the inverse of writing, on the values that are ok. */
  ghost predicate Exact<T(!new)>(f: Format<T>) {
    forall b, x, rest :: f.get(b) == Some((x, rest)) <==> f.ok(x) && b == f.put(x) + rest
  }

  function PutAll<T>(f: Format<T>, xs: seq<T>): Bytes {
    if xs == [] then [] else PutAll(f, xs[..|xs| - 1]) + f.put(xs[|xs| - 1])
  }

  lemma PutNone<T>(f: Format<T>)
    ensures PutAll(f, []) == []
  {
  }

  lemma PutNext<T>(f: Format<T>, xs: seq<T>, i: nat)
    requires i < |xs|
    ensures PutAll(f, xs[..i + 1]) == PutAll(f, xs[..i]) + f.put(xs[i])
  {
    assert xs[..i + 1][..i] == xs[..i];
  }

  /** `n` elements off the front, and nothing after them. */
  function GetAll<T>(f: Format<T>, b: Bytes, n: nat): Option<seq<T>>
    decreases n
  {
    if n == 0 then (if b == [] then Some([]) else None)
    else match f.get(b)
         case None => None
         case Some((x, rest)) => (match GetAll(f, rest, n - 1) case None => None case Some(xs) => Some([x] + xs))
  }

  lemma {:induction false} PutAllCons<T>(f: Format<T>, x: T, xs: seq<T>)
    ensures PutAll(f, [x] + xs) == f.put(x) + PutAll(f, xs)
    decreases |xs|
  {
    var all := [x] + xs;
    if xs == [] { assert all[..0] == []; }
    else {
      var init := xs[..|xs| - 1];
      assert all[..|all| - 1] == [x] + init;
      PutAllCons(f, x, init);
    }
  }

  ghost predicate AllOk<T>(f: Format<T>, xs: seq<T>) { forall i :: 0 <= i < |xs| ==> f.ok(xs[i]) }

  /** A counted list reads back as `xs` exactly if it was written from `xs`. */
  lemma {:induction false} ListExact<T(!new)>(f: Format<T>, b: Bytes, n: nat, xs: seq<T>)
    requires Exact(f)
    ensures GetAll(f, b, n) == Some(xs) <==> |xs| == n && AllOk(f, xs) && PutAll(f, xs) == b
    decreases n
  {
    if n > 0 && xs != [] {
      var x, tail := xs[0], xs[1..];
      assert xs == [x] + tail;
      PutAllCons(f, x, tail);
      match f.get(b) {
        case None => assert f.ok(x) ==> b != f.put(x) + PutAll(f, tail);
        case Some((y, rest)) =>
          assert f.ok(y) && b == f.put(y) + rest;
          ListExact(f, rest, n - 1, tail);
          if AllOk(f, xs) && PutAll(f, xs) == b {
            assert f.get(b) == Some((x, PutAll(f, tail)));
          }
      }
    }
  }

  /** What has been read, in front of what is still to come. */
  function After<T>(xs: seq<T>, more: Option<seq<T>>): Option<seq<T>> {
    match more case None => None case Some(ys) => Some(xs + ys)
  }

  lemma GetNext<T>(f: Format<T>, xs: seq<T>, b: Bytes, n: nat)
    requires n > 0
    ensures match f.get(b)
            case None => After(xs, GetAll(f, b, n)) == None
            case Some((x, rest)) => After(xs, GetAll(f, b, n)) == After(xs + [x], GetAll(f, rest, n - 1))
  {
    match f.get(b) {
      case None =>
      case Some((x, rest)) =>
        var more := GetAll(f, rest, n - 1);
        if more.Some? { assert xs + ([x] + more.value) == xs + [x] + more.value; }
    }
  }

  lemma GetNone<T>(f: Format<T>, b: Bytes, n: nat)
    ensures After([], GetAll(f, b, n)) == GetAll(f, b, n)
  {
    var r := GetAll(f, b, n);
    if r.Some? { assert [] + r.value == r.value; }
  }
}
