/** Numbers as bit strings, most significant bit first. */
module Bits {

  type BitString = seq<bool>

  function Pow2(n: nat): (r: nat)
    ensures r > 0
  {
    if n == 0 then 1 else 2 * Pow2(n - 1)
  }

  /** The low `w` bits of `v`. */
  function Low(w: nat, v: nat): (r: BitString)
    ensures |r| == w
  {
    if w == 0 then [] else Low(w - 1, v / 2) + [v % 2 == 1]
  }

  function Value(bs: BitString): (v: nat)
    ensures v < Pow2(|bs|)
  {
    if bs == [] then 0 else 2 * Value(bs[..|bs| - 1]) + if bs[|bs| - 1] then 1 else 0
  }

  function Zeros(n: nat): (r: BitString)
    ensures |r| == n && forall i :: 0 <= i < n ==> !r[i]
  {
    seq(n, _ => false)
  }

  lemma {:induction false} LowValue(bs: BitString)
    ensures Low(|bs|, Value(bs)) == bs
  {
    if bs != [] {
      LowValue(bs[..|bs| - 1]);
      assert bs == bs[..|bs| - 1] + [bs[|bs| - 1]];
    }
  }

  lemma {:induction false} ValueLow(w: nat, v: nat)
    ensures Value(Low(w, v)) == v % Pow2(w)
  {
    if w > 0 {
      ValueLow(w - 1, v / 2);
      assert Low(w, v)[..w - 1] == Low(w - 1, v / 2);
      HalfMod(v, Pow2(w - 1));
    }
  }

  lemma HalfMod(v: nat, m: nat)
    requires m > 0
    ensures v % (2 * m) == 2 * ((v / 2) % m) + v % 2
  {
    var q, r := (v / 2) / m, (v / 2) % m;
    assert v == 2 * m * q + (2 * r + v % 2);
    assert 2 * r + v % 2 < 2 * m;
    ModUnique(v, 2 * m, q, 2 * r + v % 2);
  }

  lemma AtLeast(k: int, m: int)
    requires m > 0 && k >= 1
    ensures m * k >= m
  {
  }

  lemma ModUnique(v: int, m: int, q: int, r: int)
    requires m > 0 && v == m * q + r && 0 <= r < m
    ensures v / m == q && v % m == r
  {
    var q', r' := v / m, v % m;
    assert m * (q' - q) == m * q' - m * q == r - r';
    if q' > q { AtLeast(q' - q, m); }
    assert m * (q - q') == r' - r;
    if q' < q { AtLeast(q - q', m); }
  }

  /** Shifts. */
  function Shr(v: nat, b: nat): nat { if b == 0 then v else Shr(v / 2, b - 1) }
  function Shl(v: nat, b: nat): nat { if b == 0 then v else 2 * Shl(v, b - 1) }

  /** The low bits, split in two. */
  lemma {:induction false} LowSplit(a: nat, b: nat, v: nat)
    ensures Low(a + b, v) == Low(a, Shr(v, b)) + Low(b, v)
    decreases b
  {
    if b > 0 {
      LowSplit(a, b - 1, v / 2);
      var top, low, bit := Low(a, Shr(v, b)), Low(b - 1, v / 2), [v % 2 == 1];
      assert Low(a + b, v) == Low(a + (b - 1), v / 2) + bit;
      assert (top + low) + bit == top + (low + bit);
    } else {
      assert Low(a, v) + [] == Low(a, v);
    }
  }

  lemma {:induction false} ShiftIn(b: nat, x: nat, y: nat)
    requires y < Pow2(b)
    ensures Shr(Shl(x, b) + y, b) == x && Low(b, Shl(x, b) + y) == Low(b, y)
  {
    if b > 0 {
      var v := Shl(x, b) + y;
      assert v / 2 == Shl(x, b - 1) + y / 2 && v % 2 == y % 2;
      ShiftIn(b - 1, x, y / 2);
    }
  }

  /** Shifting in `b` bits. */
  lemma LowShift(a: nat, b: nat, x: nat, y: nat)
    requires y < Pow2(b)
    ensures Low(a + b, Shl(x, b) + y) == Low(a, x) + Low(b, y)
  {
    LowSplit(a, b, Shl(x, b) + y);
    ShiftIn(b, x, y);
  }

  /** Only the low bits matter: cutting a number to `n` bits keeps its lower ones. */
  lemma {:induction false} LowMod(w: nat, n: nat, v: nat)
    requires w <= n
    ensures Low(w, v % Pow2(n)) == Low(w, v)
    decreases w
  {
    if w > 0 {
      HalfMod(v, Pow2(n - 1));
      var u := v % Pow2(n);
      assert u == 2 * ((v / 2) % Pow2(n - 1)) + v % 2;
      assert u / 2 == (v / 2) % Pow2(n - 1) && u % 2 == v % 2;
      LowMod(w - 1, n - 1, v / 2);
    }
  }

  lemma {:induction false} LowZero(w: nat)
    ensures Low(w, 0) == Zeros(w)
  {
    if w > 0 {
      LowZero(w - 1);
      assert Zeros(w) == Zeros(w - 1) + [false];
    }
  }

  lemma LowInjective(w: nat, x: nat, y: nat)
    requires x < Pow2(w) && y < Pow2(w) && Low(w, x) == Low(w, y)
    ensures x == y
  {
    ValueLow(w, x);
    ValueLow(w, y);
    ModUnique(x, Pow2(w), 0, x);
    ModUnique(y, Pow2(w), 0, y);
  }

  // ---- strings of equal-width groups ---------------------------------------------------------

  function Spread(w: nat, vs: seq<nat>): (r: BitString)
    ensures |r| == w * |vs|
  {
    if vs == [] then []
    else
      assert w * |vs| == w * (|vs| - 1) + w;
      Spread(w, vs[..|vs| - 1]) + Low(w, vs[|vs| - 1])
  }

  lemma SpreadSnoc(w: nat, vs: seq<nat>, v: nat)
    ensures Spread(w, vs + [v]) == Spread(w, vs) + Low(w, v)
  {
    var all := vs + [v];
    assert all[..|all| - 1] == vs;
  }

  lemma {:induction false} SpreadAppend(w: nat, a: seq<nat>, b: seq<nat>)
    ensures Spread(w, a + b) == Spread(w, a) + Spread(w, b)
    decreases |b|
  {
    hide *;
    if b == [] {
      SpreadNone(w);
      PlusNone(a);
      PlusNone(Spread(w, a));
    } else {
      var init, last := b[..|b| - 1], b[|b| - 1];
      SpreadAppend(w, a, init);
      assert b == init + [last];
      Assoc(a, init, [last]);
      SpreadSnoc(w, a + init, last);
      SpreadSnoc(w, init, last);
      Assoc(Spread(w, a), Spread(w, init), Low(w, last));
    }
  }

  lemma SpreadNone(w: nat)
    ensures Spread(w, []) == []
  {
  }

  lemma PlusNone<T>(a: seq<T>)
    ensures a + [] == a
  {
  }

  lemma Assoc<T>(a: seq<T>, b: seq<T>, c: seq<T>)
    ensures a + (b + c) == a + b + c
  {
  }

  ghost predicate Within(w: nat, vs: seq<nat>) { forall i :: 0 <= i < |vs| ==> vs[i] < Pow2(w) }

  lemma {:induction false} SpreadInjective(w: nat, a: seq<nat>, b: seq<nat>)
    requires Within(w, a) && Within(w, b) && |a| == |b| && Spread(w, a) == Spread(w, b)
    ensures a == b
    decreases |a|
  {
    hide Spread, Low, Pow2;
    if a != [] {
      var n := |a| - 1;
      assert a == a[..n] + [a[n]] && b == b[..n] + [b[n]];
      SpreadSnoc(w, a[..n], a[n]);
      SpreadSnoc(w, b[..n], b[n]);
      SameHalves(Spread(w, a[..n]), Low(w, a[n]), Spread(w, b[..n]), Low(w, b[n]));
      SpreadInjective(w, a[..n], b[..n]);
      LowInjective(w, a[n], b[n]);
    }
  }

  lemma SameHalves<T>(a: seq<T>, b: seq<T>, c: seq<T>, d: seq<T>)
    requires a + b == c + d && |a| == |c|
    ensures a == c && b == d
  {
    assert a == (a + b)[..|a|] && b == (a + b)[|a|..] && c == (c + d)[..|c|] && d == (c + d)[|c|..];
  }

  // ---- the place of each bit -----------------------------------------------------------------

  /** The bit of `v` with the weight 2^p. */
  predicate Bit(v: nat, p: nat) { (v / Pow2(p)) % 2 == 1 }

  lemma HalfThen(v: nat, m: nat)
    requires m > 0
    ensures (v / 2) / m == v / (2 * m)
  {
    var q, r := (v / 2) / m, (v / 2) % m;
    assert v == 2 * m * q + (2 * r + v % 2);
    ModUnique(v, 2 * m, q, 2 * r + v % 2);
  }

  lemma {:induction false} LowAt(w: nat, v: nat, i: nat)
    requires i < w
    ensures Low(w, v)[i] <==> Bit(v, w - 1 - i)
  {
    if i < w - 1 {
      LowAt(w - 1, v / 2, i);
      HalfThen(v, Pow2(w - 2 - i));
    }
  }

  /** Bit `i` of value `k`, after the `w` bits of each value before it. */
  lemma {:induction false} SpreadAt(w: nat, vs: seq<nat>, k: nat, i: nat)
    requires k < |vs| && i < w
    ensures var n := |Spread(w, vs[..k])| + i; n < |Spread(w, vs)| && (Spread(w, vs)[n] <==> Bit(vs[k], w - 1 - i))
    decreases |vs|
  {
    hide Bit;
    var last := |vs| - 1;
    var init := vs[..last];
    assert vs == init + [vs[last]];
    SpreadSnoc(w, init, vs[last]);
    if k < last {
      SpreadAt(w, init, k, i);
      assert init[..k] == vs[..k];
    } else {
      assert vs[..k] == init;
      LowAt(w, vs[k], i);
    }
  }
}
