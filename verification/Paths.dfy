/** Component paths, their order, and sorting by path. `p <= q` and `p < q` on paths are
    Dafny's prefix relations; the lexicographic order is `Leq`. */
module Paths {

  type Name = string
  type Path = seq<Name>

  function Parent(p: Path): Path
    requires p != []
  {
    p[..|p| - 1]
  }

  function Last(p: Path): Name
    requires p != []
  {
    p[|p| - 1]
  }

  lemma PrefixCases(p: Path, q: Path)
    ensures p <= q <==> p < q || p == q
  {
    if p <= q && |p| == |q| { assert q[..|p|] == q; }
  }

  predicate StrLess(a: string, b: string)
    decreases |a|
  {
    b != [] && (a == [] || a[0] < b[0] || (a[0] == b[0] && StrLess(a[1..], b[1..])))
  }

  /** The order of `Vec<String>`: component by component, a prefix before its extensions. */
  predicate Leq(p: Path, q: Path)
    decreases |p|
  {
    p == [] || (q != [] && (StrLess(p[0], q[0]) || (p[0] == q[0] && Leq(p[1..], q[1..]))))
  }

  lemma {:induction false} StrTotal(a: string, b: string)
    ensures StrLess(a, b) || StrLess(b, a) || a == b
    ensures !(StrLess(a, b) && StrLess(b, a)) && !StrLess(a, a)
    decreases |a|
  {
    if a != [] && b != [] && a[0] == b[0] {
      StrTotal(a[1..], b[1..]);
      assert a == [a[0]] + a[1..] && b == [b[0]] + b[1..];
    }
    if a != [] { StrIrrefl(a); }
  }

  lemma {:induction false} StrIrrefl(a: string)
    ensures !StrLess(a, a)
    decreases |a|
  {
    if a != [] { StrIrrefl(a[1..]); }
  }

  lemma {:induction false} StrTrans(a: string, b: string, c: string)
    requires StrLess(a, b) && StrLess(b, c)
    ensures StrLess(a, c)
    decreases |a|
  {
    if a != [] && a[0] == b[0] && b[0] == c[0] { StrTrans(a[1..], b[1..], c[1..]); }
  }

  lemma {:induction false} LeqTotal(p: Path, q: Path)
    ensures Leq(p, q) || Leq(q, p)
    decreases |p|
  {
    if p != [] && q != [] {
      StrTotal(p[0], q[0]);
      if p[0] == q[0] { LeqTotal(p[1..], q[1..]); }
    }
  }

  lemma {:induction false} LeqTrans(p: Path, q: Path, r: Path)
    requires Leq(p, q) && Leq(q, r)
    ensures Leq(p, r)
    decreases |p|
  {
    if p != [] {
      if StrLess(p[0], q[0]) && StrLess(q[0], r[0]) { StrTrans(p[0], q[0], r[0]); }
      else if p[0] == q[0] && q[0] == r[0] { LeqTrans(p[1..], q[1..], r[1..]); }
    }
  }

  /** A path is never after a proper extension of itself. */
  lemma {:induction false} PrefixFirst(p: Path, q: Path)
    requires p < q
    ensures Leq(p, q) && !Leq(q, p)
    decreases |p|
  {
    if p != [] {
      assert p[0] == q[0] && p[1..] < q[1..];
      StrIrrefl(p[0]);
      PrefixFirst(p[1..], q[1..]);
    }
  }

  /** Where two strings or paths part: alike before `k`, and at `k` one has ended or they differ. */
  ghost predicate PartsAt<T>(a: seq<T>, b: seq<T>, k: nat) { k <= |a| && k < |b| && a[..k] == b[..k] }

  lemma PartsNext<T>(a: seq<T>, b: seq<T>, k: nat)
    requires a != [] && b != []
    ensures PartsAt(a, b, k + 1) <==> a[0] == b[0] && PartsAt(a[1..], b[1..], k)
  {
    if k + 1 <= |a| && k + 1 < |b| {
      assert a[..k + 1] == [a[0]] + a[1..][..k] && b[..k + 1] == [b[0]] + b[1..][..k];
      assert a[..k + 1][1..] == a[1..][..k] && b[..k + 1][1..] == b[1..][..k];
    }
  }

  /** The order of strings: where they part, the one that has ended or has the lower character is
      less. */
  lemma {:induction false} StrLessExactly(a: string, b: string)
    ensures StrLess(a, b) <==> exists k: nat :: PartsAt(a, b, k) && (k == |a| || a[k] < b[k])
    decreases |a|
  {
    if b != [] && (a == [] || a[0] < b[0]) { assert PartsAt(a, b, 0); }
    if a != [] && b != [] && a[0] == b[0] {
      StrLessExactly(a[1..], b[1..]);
      if k: nat :| PartsAt(a[1..], b[1..], k) && (k == |a[1..]| || a[1..][k] < b[1..][k]) {
        PartsNext(a, b, k);
        assert PartsAt(a, b, k + 1) && (k + 1 == |a| || a[k + 1] < b[k + 1]);
      }
    }
    if k: nat :| PartsAt(a, b, k) && (k == |a| || a[k] < b[k]) {
      if k > 0 { PartsNext(a, b, k - 1); }
    }
  }

  /** The order of paths: equal, or where they part, the one that has ended or has the lesser name
      comes first. */
  lemma {:induction false} LeqExactly(p: Path, q: Path)
    ensures Leq(p, q) <==> p == q || exists k: nat :: PartsAt(p, q, k) && (k == |p| || StrLess(p[k], q[k]))
    decreases |p|
  {
    if p == [] {
      if q != [] { assert PartsAt(p, q, 0); }
    } else if q != [] {
      StrIrrefl(p[0]);
      if StrLess(p[0], q[0]) { assert PartsAt(p, q, 0); }
      if p[0] == q[0] {
        LeqExactly(p[1..], q[1..]);
        assert p == [p[0]] + p[1..] && q == [q[0]] + q[1..];
        if k: nat :| PartsAt(p[1..], q[1..], k) && (k == |p[1..]| || StrLess(p[1..][k], q[1..][k])) {
          PartsNext(p, q, k);
          assert PartsAt(p, q, k + 1) && (k + 1 == |p| || StrLess(p[k + 1], q[k + 1]));
        }
      }
      if k: nat :| PartsAt(p, q, k) && (k == |p| || StrLess(p[k], q[k])) {
        if k > 0 {
          PartsNext(p, q, k - 1);
          assert PartsAt(p[1..], q[1..], k - 1) && (k - 1 == |p[1..]| || StrLess(p[1..][k - 1], q[1..][k - 1]));
        }
      }
    }
  }

  // ---- sorting anything that has a path ----------------------------------------------

  /** The order of a sort, ascending or descending. */
  predicate Before(p: Path, q: Path, down: bool) {
    if down then Leq(q, p) else Leq(p, q)
  }

  lemma BeforeOrder(p: Path, q: Path, r: Path, down: bool)
    ensures Before(p, q, down) || Before(q, p, down)
    ensures Before(p, q, down) && Before(q, r, down) ==> Before(p, r, down)
  {
    LeqTotal(p, q);
    if Before(p, q, down) && Before(q, r, down) {
      if down { LeqTrans(r, q, p); } else { LeqTrans(p, q, r); }
    }
  }

  /** Insertion keeps earlier elements with an equal path in front, as a stable sort does. */
  function Insert<T>(x: T, s: seq<T>, key: T -> Path, down: bool): seq<T> {
    if s == [] then [x]
    else if Before(key(x), key(s[0]), down) then [x] + s
    else [s[0]] + Insert(x, s[1..], key, down)
  }

  function Sort<T>(s: seq<T>, key: T -> Path, down: bool): seq<T> {
    if s == [] then [] else Insert(s[0], Sort(s[1..], key, down), key, down)
  }

  ghost predicate Sorted<T>(s: seq<T>, key: T -> Path, down: bool) {
    forall i, j :: 0 <= i < j < |s| ==> Before(key(s[i]), key(s[j]), down)
  }

  lemma SortedCons<T>(x: T, s: seq<T>, key: T -> Path, down: bool)
    requires Sorted(s, key, down) && forall y :: y in s ==> Before(key(x), key(y), down)
    ensures Sorted([x] + s, key, down)
  {
    hide Before;
    var r := [x] + s;
    forall i, j | 0 <= i < j < |r| ensures Before(key(r[i]), key(r[j]), down) {
      if i == 0 { assert r[j] in s; } else { assert r[i] == s[i - 1] && r[j] == s[j - 1]; }
    }
  }

  lemma {:induction false} InsertSpec<T>(x: T, s: seq<T>, key: T -> Path, down: bool)
    requires Sorted(s, key, down)
    ensures Sorted(Insert(x, s, key, down), key, down)
    ensures multiset(Insert(x, s, key, down)) == multiset(s) + multiset{x}
    decreases |s|
  {
    hide Before;
    if s != [] {
      var y, rest := s[0], s[1..];
      assert s == [y] + rest;
      forall z | z in s ensures z == y || Before(key(y), key(z), down) { var k :| 0 <= k < |s| && s[k] == z; }
      if Before(key(x), key(y), down) {
        forall z | z in s ensures Before(key(x), key(z), down) { BeforeOrder(key(x), key(y), key(z), down); }
        SortedCons(x, s, key, down);
      } else {
        InsertSpec(x, rest, key, down);
        var r := Insert(x, rest, key, down);
        forall z | z in r ensures Before(key(y), key(z), down) {
          assert z in multiset(r);
          if z == x { BeforeOrder(key(y), key(x), key(x), down); }
          else {
            assert z in multiset(rest) && z in rest;
            var k :| 0 <= k < |rest| && rest[k] == z;
            assert s[k + 1] == z;
          }
        }
        SortedCons(y, r, key, down);
      }
    }
  }

  lemma {:induction false} SortSpec<T>(s: seq<T>, key: T -> Path, down: bool)
    ensures Sorted(Sort(s, key, down), key, down)
    ensures multiset(Sort(s, key, down)) == multiset(s)
    decreases |s|
  {
    hide Insert, Sorted;
    if s == [] {
      SortNone(key, down);
    } else {
      SortSpec(s[1..], key, down);
      InsertSpec(s[0], Sort(s[1..], key, down), key, down);
      FirstAndRest(s);
    }
  }

  lemma SortNone<T>(key: T -> Path, down: bool)
    ensures Sorted([], key, down)
  {
  }

  lemma FirstAndRest<T>(s: seq<T>)
    requires s != []
    ensures multiset(s) == multiset(s[1..]) + multiset{s[0]}
  {
    assert s == [s[0]] + s[1..];
  }

  lemma {:induction false} AlreadySorted<T>(s: seq<T>, key: T -> Path, down: bool)
    requires Sorted(s, key, down)
    ensures Sort(s, key, down) == s
    decreases |s|
  {
    hide Before;
    if s != [] {
      AlreadySorted(s[1..], key, down);
      assert s == [s[0]] + s[1..];
      if |s| > 1 { assert Before(key(s[0]), key(s[1]), down); }
    }
  }

  lemma SortMembers<T>(s: seq<T>, key: T -> Path, down: bool)
    ensures forall x :: x in Sort(s, key, down) <==> x in s
    ensures |Sort(s, key, down)| == |s|
  {
    SortSpec(s, key, down);
    forall x ensures x in Sort(s, key, down) <==> x in s {
      assert x in Sort(s, key, down) <==> x in multiset(Sort(s, key, down));
      assert x in s <==> x in multiset(s);
    }
    assert |multiset(Sort(s, key, down))| == |Sort(s, key, down)| && |multiset(s)| == |s|;
  }

  /** Ascending, no path follows a proper extension of it; descending, none precedes one. */
  lemma SortedPrefixes<T>(s: seq<T>, key: T -> Path, down: bool, i: nat, j: nat)
    requires Sorted(s, key, down) && i < j < |s|
    ensures if down then !(key(s[i]) < key(s[j])) else !(key(s[j]) < key(s[i]))
  {
    if down && key(s[i]) < key(s[j]) { PrefixFirst(key(s[i]), key(s[j])); }
    if !down && key(s[j]) < key(s[i]) { PrefixFirst(key(s[j]), key(s[i])); }
  }

  ghost predicate Distinct<T>(s: seq<T>, key: T -> Path) {
    forall i, j :: 0 <= i < j < |s| ==> key(s[i]) != key(s[j])
  }

  lemma DistinctCons<T>(x: T, s: seq<T>, key: T -> Path)
    requires Distinct(s, key) && forall y :: y in s ==> key(y) != key(x)
    ensures Distinct([x] + s, key)
  {
    var r := [x] + s;
    forall i, j | 0 <= i < j < |r| ensures key(r[i]) != key(r[j]) {
      if i == 0 { assert r[j] in s; } else { assert r[i] == s[i - 1] && r[j] == s[j - 1]; }
    }
  }

  lemma DistinctTail<T>(s: seq<T>, key: T -> Path)
    requires Distinct(s, key) && s != []
    ensures Distinct(s[1..], key) && forall y :: y in s[1..] ==> key(y) != key(s[0])
  {
    forall y | y in s[1..]
      ensures key(y) != key(s[0])
    {
      var k :| 0 <= k < |s[1..]| && s[1..][k] == y;
      assert s[k + 1] == y;
    }
  }

  lemma {:induction false} InsertDistinct<T>(x: T, s: seq<T>, key: T -> Path, down: bool)
    requires Sorted(s, key, down) && Distinct(s, key) && forall y :: y in s ==> key(y) != key(x)
    ensures Distinct(Insert(x, s, key, down), key)
    decreases |s|
  {
    hide Before, Distinct;
    if s == [] { DistinctCons(x, s, key); assert [x] + s == [x]; }
    else if Before(key(x), key(s[0]), down) { DistinctCons(x, s, key); }
    else {
      var rest := s[1..];
      assert s == [s[0]] + rest;
      DistinctTail(s, key);
      InsertDistinct(x, rest, key, down);
      InsertSpec(x, rest, key, down);
      var r := Insert(x, rest, key, down);
      forall y | y in r ensures key(y) != key(s[0]) {
        assert y in multiset(r) && s[0] in s;
        if y != x { assert y in multiset(rest) && y in rest; }
      }
      DistinctCons(s[0], r, key);
    }
  }

  lemma {:induction false} SortDistinct<T>(s: seq<T>, key: T -> Path, down: bool)
    requires Distinct(s, key)
    ensures Distinct(Sort(s, key, down), key)
    decreases |s|
  {
    if s != [] {
      SortDistinct(s[1..], key, down);
      SortMembers(s[1..], key, down);
      var r := Sort(s[1..], key, down);
      SortSpec(s[1..], key, down);
      forall y | y in r ensures key(y) != key(s[0]) {
        assert y in multiset(r) && y in multiset(s[1..]) && y in s[1..];
        var k :| 0 <= k < |s[1..]| && s[1..][k] == y;
        assert s[k + 1] == y;
      }
      InsertDistinct(s[0], r, key, down);
    }
  }
}
