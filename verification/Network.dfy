/** Two reactive machines joined by two FIFO channels, and every way the deliveries can
    interleave. Nothing here depends on what the machines do. */
module Network {

  /** `react` takes one frame and returns the next state with the frames sent; a state that
      is not `waiting` takes no more frames. */
  datatype Machine<!E, !F> = Machine(react: (E, F) -> (E, seq<F>), waiting: E -> bool)

  datatype Net<E, F> = Net(a: E, b: E, ab: seq<F>, ba: seq<F>)

  /** The side that moves: true for `a`, which takes the head of `ba`. */
  type Schedule = seq<bool>

  predicate Can<E, F>(mc: Machine<E, F>, n: Net<E, F>, side: bool) {
    if side then n.ba != [] && mc.waiting(n.a) else n.ab != [] && mc.waiting(n.b)
  }

  function Step<E, F>(mc: Machine<E, F>, n: Net<E, F>, side: bool): Net<E, F>
    requires Can(mc, n, side)
  {
    if side then
      var (a, out) := mc.react(n.a, n.ba[0]);
      Net(a, n.b, n.ab + out, n.ba[1..])
    else
      var (b, out) := mc.react(n.b, n.ab[0]);
      Net(n.a, b, n.ab[1..], n.ba + out)
  }

  predicate Valid<E, F>(mc: Machine<E, F>, n: Net<E, F>, s: Schedule)
    decreases |s|
  {
    s == [] || (Can(mc, n, s[0]) && Valid(mc, Step(mc, n, s[0]), s[1..]))
  }

  function Run<E, F>(mc: Machine<E, F>, n: Net<E, F>, s: Schedule): Net<E, F>
    requires Valid(mc, n, s)
    decreases |s|
  {
    if s == [] then n else Run(mc, Step(mc, n, s[0]), s[1..])
  }

  predicate Stuck<E, F>(mc: Machine<E, F>, n: Net<E, F>) { !Can(mc, n, true) && !Can(mc, n, false) }

  ghost predicate Reaches<E, F>(mc: Machine<E, F>, n: Net<E, F>, m: Net<E, F>) {
    exists s :: Valid(mc, n, s) && Run(mc, n, s) == m
  }

  lemma {:induction false} RunAppend<E, F>(mc: Machine<E, F>, n: Net<E, F>, s: Schedule, t: Schedule)
    requires Valid(mc, n, s) && Valid(mc, Run(mc, n, s), t)
    ensures Valid(mc, n, s + t) && Run(mc, n, s + t) == Run(mc, Run(mc, n, s), t)
    decreases |s|
  {
    if s == [] {
      assert s + t == t;
    } else {
      assert (s + t)[1..] == s[1..] + t;
      RunAppend(mc, Step(mc, n, s[0]), s[1..], t);
    }
  }

  lemma ReachesSelf<E, F>(mc: Machine<E, F>, n: Net<E, F>)
    ensures Reaches(mc, n, n)
  {
    assert Valid(mc, n, []) && Run(mc, n, []) == n;
  }

  lemma ReachesStep<E, F>(mc: Machine<E, F>, n: Net<E, F>, side: bool)
    requires Can(mc, n, side)
    ensures Reaches(mc, n, Step(mc, n, side))
  {
    var m := Step(mc, n, side);
    assert Valid(mc, m, []) && [side][1..] == [];
    assert Valid(mc, n, [side]) && Run(mc, n, [side]) == m;
  }

  lemma ReachesTrans<E, F>(mc: Machine<E, F>, n: Net<E, F>, m: Net<E, F>, k: Net<E, F>)
    requires Reaches(mc, n, m) && Reaches(mc, m, k)
    ensures Reaches(mc, n, k)
  {
    var s :| Valid(mc, n, s) && Run(mc, n, s) == m;
    var t :| Valid(mc, m, t) && Run(mc, m, t) == k;
    RunAppend(mc, n, s, t);
  }

  /** Steps of the two sides commute: a delivery only takes from the front of a channel the
      other side only adds to. */
  lemma Diamond<E, F>(mc: Machine<E, F>, n: Net<E, F>, side: bool)
    requires Can(mc, n, side) && Can(mc, n, !side)
    ensures Can(mc, Step(mc, n, side), !side) && Can(mc, Step(mc, n, !side), side)
    ensures Step(mc, Step(mc, n, side), !side) == Step(mc, Step(mc, n, !side), side)
  {
    var (a, outA) := mc.react(n.a, n.ba[0]);
    var (b, outB) := mc.react(n.b, n.ab[0]);
    assert (n.ab + outA)[0] == n.ab[0] && (n.ab + outA)[1..] == n.ab[1..] + outA;
    assert (n.ba + outB)[0] == n.ba[0] && (n.ba + outB)[1..] == n.ba[1..] + outB;
  }

  /** How many of the deliveries of a schedule go to this side. */
  function Count(s: Schedule, side: bool): nat {
    if s == [] then 0 else (if s[0] == side then 1 else 0) + Count(s[1..], side)
  }

  /** An enabled step that a run takes at some time can be put in front of it, at no extra cost. */
  lemma {:induction false} StepFirst<E, F>(mc: Machine<E, F>, n: Net<E, F>, s: Schedule, side: bool)
    returns (t: Schedule)
    requires Valid(mc, n, s) && Count(s, side) > 0 && Can(mc, n, side)
    ensures |s| == |t| + 1
    ensures Count(t, side) == Count(s, side) - 1 && Count(t, !side) == Count(s, !side)
    ensures Valid(mc, Step(mc, n, side), t) && Run(mc, Step(mc, n, side), t) == Run(mc, n, s)
    decreases |s|
  {
    if s[0] == side {
      t := s[1..];
    } else {
      Diamond(mc, n, side);
      var u := StepFirst(mc, Step(mc, n, s[0]), s[1..], side);
      t := [s[0]] + u;
      assert t[1..] == u;
    }
  }

  /** A run to a stuck net takes every step that is enabled. */
  lemma {:induction false} StuckTakesAll<E, F>(mc: Machine<E, F>, n: Net<E, F>, s: Schedule, side: bool)
    requires Valid(mc, n, s) && Stuck(mc, Run(mc, n, s)) && Can(mc, n, side)
    ensures Count(s, side) > 0
    decreases |s|
  {
    if s != [] && s[0] != side {
      Diamond(mc, n, side);
      StuckTakesAll(mc, Step(mc, n, s[0]), s[1..], side);
    }
  }

  /** If some run gets stuck at `m`, every run is a prefix of one that gets stuck at `m` after
      the same number of deliveries: the outcome of a session does not depend on timing. */
  lemma {:induction false} Confluence<E, F>(mc: Machine<E, F>, n: Net<E, F>, s: Schedule, r: Schedule)
    returns (t: Schedule)
    requires Valid(mc, n, s) && Stuck(mc, Run(mc, n, s)) && Valid(mc, n, r)
    ensures |s| == |r| + |t|
    ensures Valid(mc, Run(mc, n, r), t) && Run(mc, Run(mc, n, r), t) == Run(mc, n, s)
    decreases |r|
  {
    if r == [] {
      t := s;
    } else {
      StuckTakesAll(mc, n, s, r[0]);
      var u := StepFirst(mc, n, s, r[0]);
      t := Confluence(mc, Step(mc, n, r[0]), u, r[1..]);
    }
  }

  function Over(x: nat, y: nat): nat { if x > y then x - y else 0 }

  /** A step against a whole run: the two can always be joined again, with the deliveries that
      one of them has and the other has not. */
  lemma {:induction false} JoinStep<E, F>(mc: Machine<E, F>, n: Net<E, F>, s: Schedule, side: bool)
    returns (t: Schedule, u: Schedule)
    requires Valid(mc, n, s) && Can(mc, n, side)
    ensures Valid(mc, Step(mc, n, side), t) && Valid(mc, Run(mc, n, s), u)
    ensures Run(mc, Step(mc, n, side), t) == Run(mc, Run(mc, n, s), u)
    ensures Count(t, side) == Over(Count(s, side), 1) && Count(t, !side) == Count(s, !side)
    ensures Count(u, side) == Over(1, Count(s, side)) && Count(u, !side) == 0
    decreases |s|
  {
    if s == [] {
      t, u := [], [side];
      assert Valid(mc, Step(mc, n, side), []) && u[1..] == [];
    } else if s[0] == side {
      t, u := s[1..], [];
    } else {
      Diamond(mc, n, side);
      var t', u' := JoinStep(mc, Step(mc, n, s[0]), s[1..], side);
      t, u := [s[0]] + t', u';
      assert t[1..] == t';
    }
  }

  lemma {:induction false} CountAppend(s: Schedule, t: Schedule, side: bool)
    ensures Count(s + t, side) == Count(s, side) + Count(t, side)
    decreases |s|
  {
    if s == [] { assert s + t == t; }
    else {
      assert (s + t)[1..] == s[1..] + t;
      CountAppend(s[1..], t, side);
    }
  }

  lemma {:induction false} Join<E, F>(mc: Machine<E, F>, n: Net<E, F>, s: Schedule, r: Schedule)
    returns (t: Schedule, u: Schedule)
    requires Valid(mc, n, s) && Valid(mc, n, r)
    ensures Valid(mc, Run(mc, n, r), t) && Valid(mc, Run(mc, n, s), u)
    ensures Run(mc, Run(mc, n, r), t) == Run(mc, Run(mc, n, s), u)
    ensures forall side :: Count(t, side) == Over(Count(s, side), Count(r, side))
    ensures forall side :: Count(u, side) == Over(Count(r, side), Count(s, side))
    decreases |r|
  {
    if r == [] {
      t, u := s, [];
    } else {
      var t1, u1 := JoinStep(mc, n, s, r[0]);
      var n1 := Step(mc, n, r[0]);
      var t2, u2 := Join(mc, n1, t1, r[1..]);
      RunAppend(mc, Run(mc, n, s), u1, u2);
      t, u := t2, u1 + u2;
      forall side
        ensures Count(t, side) == Over(Count(s, side), Count(r, side))
        ensures Count(u, side) == Over(Count(r, side), Count(s, side))
      {
        JoinCounts(s, r, t1, u1, t2, u2, side);
      }
    }
  }

  lemma JoinCounts(s: Schedule, r: Schedule, t1: Schedule, u1: Schedule, t2: Schedule, u2: Schedule, side: bool)
    requires r != []
    requires Count(t1, r[0]) == Over(Count(s, r[0]), 1) && Count(t1, !r[0]) == Count(s, !r[0])
    requires Count(u1, r[0]) == Over(1, Count(s, r[0])) && Count(u1, !r[0]) == 0
    requires Count(t2, side) == Over(Count(t1, side), Count(r[1..], side))
    requires Count(u2, side) == Over(Count(r[1..], side), Count(t1, side))
    ensures Count(t2, side) == Over(Count(s, side), Count(r, side))
    ensures Count(u1 + u2, side) == Over(Count(r, side), Count(s, side))
  {
    CountAppend(u1, u2, side);
  }

  /** A side that has finished or failed stays as it is. */
  lemma {:induction false} Settled<E, F>(mc: Machine<E, F>, n: Net<E, F>, s: Schedule)
    requires Valid(mc, n, s)
    ensures !mc.waiting(n.a) ==> Run(mc, n, s).a == n.a
    ensures !mc.waiting(n.b) ==> Run(mc, n, s).b == n.b
    decreases |s|
  {
    if s != [] {
      Settled(mc, Step(mc, n, s[0]), s[1..]);
    }
  }

  /** Two runs that both bring a side to rest leave it in the same state. */
  lemma RestUnique<E, F>(mc: Machine<E, F>, n: Net<E, F>, m: Net<E, F>, r: Schedule)
    requires Reaches(mc, n, m) && Valid(mc, n, r)
    ensures !mc.waiting(m.a) && !mc.waiting(Run(mc, n, r).a) ==> Run(mc, n, r).a == m.a
    ensures !mc.waiting(m.b) && !mc.waiting(Run(mc, n, r).b) ==> Run(mc, n, r).b == m.b
  {
    var s :| Valid(mc, n, s) && Run(mc, n, s) == m;
    var t, u := Join(mc, n, s, r);
    Settled(mc, Run(mc, n, r), t);
    Settled(mc, m, u);
  }

  /** A stuck net decides: whatever side any run brings to rest, it rests as it does there. */
  lemma StuckDecides<E, F>(mc: Machine<E, F>, n: Net<E, F>, m: Net<E, F>, r: Schedule)
    requires Reaches(mc, n, m) && Stuck(mc, m) && Valid(mc, n, r)
    ensures !mc.waiting(Run(mc, n, r).a) ==> Run(mc, n, r).a == m.a
    ensures !mc.waiting(Run(mc, n, r).b) ==> Run(mc, n, r).b == m.b
  {
    var s :| Valid(mc, n, s) && Run(mc, n, s) == m;
    var t := Confluence(mc, n, s, r);
    Settled(mc, Run(mc, n, r), t);
  }

  // ---- every schedule on its way to a net ----------------------------------------------

  /** A side with no delivery stays as it is. */
  lemma {:induction false} Idle<E, F>(mc: Machine<E, F>, n: Net<E, F>, s: Schedule)
    requires Valid(mc, n, s)
    ensures Count(s, true) == 0 ==> Run(mc, n, s).a == n.a
    ensures Count(s, false) == 0 ==> Run(mc, n, s).b == n.b
    decreases |s|
  {
    if s != [] { Idle(mc, Step(mc, n, s[0]), s[1..]); }
  }

  lemma {:induction false} NoDeliveries(s: Schedule)
    ensures s == [] <==> Count(s, true) == 0 && Count(s, false) == 0
  {
  }

  ghost predicate Within(r: Schedule, s: Schedule) {
    Count(r, true) <= Count(s, true) && Count(r, false) <= Count(s, false)
  }

  /** How the schedule `r` stands to a run `s`. A side with no more deliveries than in `s` has not
      come to rest before it does there, and with as many it is in the same state. As long as a
      side has fewer, the net is not stuck. If no side has more, the end of `s` is still ahead. */
  ghost predicate Passes<E, F>(mc: Machine<E, F>, n: Net<E, F>, s: Schedule, r: Schedule)
    requires Valid(mc, n, s) && Valid(mc, n, r)
  {
    var m, k := Run(mc, n, s), Run(mc, n, r);
    && (Count(r, true) <= Count(s, true) && mc.waiting(m.a) ==> mc.waiting(k.a))
    && (Count(r, false) <= Count(s, false) && mc.waiting(m.b) ==> mc.waiting(k.b))
    && (Count(r, true) == Count(s, true) ==> k.a == m.a)
    && (Count(r, false) == Count(s, false) ==> k.b == m.b)
    && (Count(r, true) < Count(s, true) || Count(r, false) < Count(s, false) ==> !Stuck(mc, k))
    && (Within(r, s) ==> Reaches(mc, k, m))
    && (Within(r, s) && Within(s, r) ==> k == m)
  }

  /** Every schedule from `n` goes by way of `m`, each side at its own pace. */
  ghost predicate Unavoidable<E, F>(mc: Machine<E, F>, n: Net<E, F>, m: Net<E, F>) {
    exists s :: Valid(mc, n, s) && Run(mc, n, s) == m && forall r :: Valid(mc, n, r) ==> Passes(mc, n, s, r)
  }

  lemma EveryPasses<E, F>(mc: Machine<E, F>, n: Net<E, F>, s: Schedule, r: Schedule)
    requires Valid(mc, n, s) && Valid(mc, n, r)
    ensures Passes(mc, n, s, r)
  {
    var m, k := Run(mc, n, s), Run(mc, n, r);
    var t, u := Join(mc, n, s, r);
    Settled(mc, k, t);
    Idle(mc, k, t);
    Idle(mc, m, u);
    NoDeliveries(t);
    NoDeliveries(u);
    if t != [] { assert Can(mc, k, t[0]); }
  }

  /** What one schedule reaches, no schedule avoids. */
  lemma ReachedIsUnavoidable<E, F>(mc: Machine<E, F>, n: Net<E, F>, m: Net<E, F>)
    requires Reaches(mc, n, m)
    ensures Unavoidable(mc, n, m)
  {
    var s :| Valid(mc, n, s) && Run(mc, n, s) == m;
    forall r | Valid(mc, n, r) ensures Passes(mc, n, s, r) { EveryPasses(mc, n, s, r); }
  }

  lemma UnavoidableReaches<E, F>(mc: Machine<E, F>, n: Net<E, F>, m: Net<E, F>)
    requires Unavoidable(mc, n, m)
    ensures Reaches(mc, n, m)
  {
  }

  // ---- the two sides are interchangeable ---------------------------------------------

  function Swap<E, F>(n: Net<E, F>): Net<E, F> { Net(n.b, n.a, n.ba, n.ab) }

  lemma {:induction false} SwapRun<E, F>(mc: Machine<E, F>, n: Net<E, F>, s: Schedule) returns (t: Schedule)
    requires Valid(mc, n, s)
    ensures |t| == |s| && Valid(mc, Swap(n), t) && Run(mc, Swap(n), t) == Swap(Run(mc, n, s))
    decreases |s|
  {
    if s == [] {
      t := [];
    } else {
      assert Step(mc, Swap(n), !s[0]) == Swap(Step(mc, n, s[0]));
      var u := SwapRun(mc, Step(mc, n, s[0]), s[1..]);
      t := [!s[0]] + u;
      assert t[1..] == u;
    }
  }

  lemma SwapReaches<E, F>(mc: Machine<E, F>, n: Net<E, F>, m: Net<E, F>)
    requires Reaches(mc, n, m)
    ensures Reaches(mc, Swap(n), Swap(m))
  {
    var s :| Valid(mc, n, s) && Run(mc, n, s) == m;
    var t := SwapRun(mc, n, s);
  }

  // ---- delivering a run of frames ----------------------------------------------------

  /** A side takes these frames one after the other, and is waiting for each of them. */
  predicate Accepts<E, F>(mc: Machine<E, F>, e: E, fs: seq<F>)
    decreases |fs|
  {
    fs == [] || (mc.waiting(e) && Accepts(mc, mc.react(e, fs[0]).0, fs[1..]))
  }

  function Prepend<E, F>(out: seq<F>, r: (E, seq<F>)): (E, seq<F>) { (r.0, out + r.1) }

  function Feed<E, F>(mc: Machine<E, F>, e: E, fs: seq<F>): (E, seq<F>)
    decreases |fs|
  {
    if fs == [] then (e, [])
    else var (e', out) := mc.react(e, fs[0]); Prepend(out, Feed(mc, e', fs[1..]))
  }

  lemma {:induction false} FeedAppend<E, F>(mc: Machine<E, F>, e: E, fs: seq<F>, gs: seq<F>)
    requires Accepts(mc, e, fs) && Accepts(mc, Feed(mc, e, fs).0, gs)
    ensures Accepts(mc, e, fs + gs)
    ensures Feed(mc, e, fs + gs) == Prepend(Feed(mc, e, fs).1, Feed(mc, Feed(mc, e, fs).0, gs))
    decreases |fs|
  {
    if fs == [] {
      assert fs + gs == gs;
      assert [] + Feed(mc, e, gs).1 == Feed(mc, e, gs).1;
    } else {
      assert (fs + gs)[1..] == fs[1..] + gs;
      var (e', out) := mc.react(e, fs[0]);
      FeedAppend(mc, e', fs[1..], gs);
      var r := Feed(mc, e', fs[1..]);
      var q := Feed(mc, r.0, gs);
      assert out + (r.1 + q.1) == (out + r.1) + q.1;
    }
  }

  lemma {:induction false} DeliverToA<E, F>(mc: Machine<E, F>, n: Net<E, F>, fs: seq<F>, rest: seq<F>)
    requires n.ba == fs + rest && Accepts(mc, n.a, fs)
    ensures Reaches(mc, n, Net(Feed(mc, n.a, fs).0, n.b, n.ab + Feed(mc, n.a, fs).1, rest))
    decreases |fs|
  {
    if fs == [] {
      assert n.ba == rest && n.ab + [] == n.ab;
      ReachesSelf(mc, n);
    } else {
      assert n.ba[0] == fs[0];
      var m := Step(mc, n, true);
      ReachesStep(mc, n, true);
      var (a, out) := mc.react(n.a, fs[0]);
      assert m.ba == fs[1..] + rest;
      DeliverToA(mc, m, fs[1..], rest);
      var k := Net(Feed(mc, n.a, fs).0, n.b, n.ab + Feed(mc, n.a, fs).1, rest);
      assert (n.ab + out) + Feed(mc, a, fs[1..]).1 == n.ab + (out + Feed(mc, a, fs[1..]).1);
      assert k == Net(Feed(mc, a, fs[1..]).0, m.b, m.ab + Feed(mc, a, fs[1..]).1, rest);
      ReachesTrans(mc, n, m, k);
    }
  }

  /** Everything on its way to `b` arrives, and nothing was on its way to `a`. */
  lemma TurnB<E, F>(mc: Machine<E, F>, n: Net<E, F>)
    requires n.ba == [] && Accepts(mc, n.b, n.ab)
    ensures Reaches(mc, n, Net(n.a, Feed(mc, n.b, n.ab).0, [], Feed(mc, n.b, n.ab).1))
  {
    var sw := Swap(n);
    assert sw.ba == n.ab + [];
    DeliverToA(mc, sw, n.ab, []);
    var m := Net(Feed(mc, n.b, n.ab).0, n.a, n.ba + Feed(mc, n.b, n.ab).1, []);
    SwapReaches(mc, sw, m);
    assert n.ba + Feed(mc, n.b, n.ab).1 == Feed(mc, n.b, n.ab).1;
  }

  lemma TurnA<E, F>(mc: Machine<E, F>, n: Net<E, F>)
    requires n.ab == [] && Accepts(mc, n.a, n.ba)
    ensures Reaches(mc, n, Net(Feed(mc, n.a, n.ba).0, n.b, Feed(mc, n.a, n.ba).1, []))
  {
    assert n.ba == n.ba + [];
    DeliverToA(mc, n, n.ba, []);
    assert n.ab + Feed(mc, n.a, n.ba).1 == Feed(mc, n.a, n.ba).1;
  }

  // ---- a schedule, seen from each side -----------------------------------------------------

  /** Whatever the schedule, each side is where the frames delivered to it have brought it; what
      it has sent is what the other side has taken, then what is under way. */
  lemma {:induction false} SidesAreFed<E, F>(mc: Machine<E, F>, n: Net<E, F>, s: Schedule)
    returns (ca: seq<F>, cb: seq<F>)
    requires Valid(mc, n, s)
    ensures Accepts(mc, n.a, ca) && Run(mc, n, s).a == Feed(mc, n.a, ca).0
    ensures Accepts(mc, n.b, cb) && Run(mc, n, s).b == Feed(mc, n.b, cb).0
    ensures cb + Run(mc, n, s).ab == n.ab + Feed(mc, n.a, ca).1
    ensures ca + Run(mc, n, s).ba == n.ba + Feed(mc, n.b, cb).1
    decreases |s|
  {
    hide Feed, Accepts;
    if s == [] {
      ca, cb := [], [];
      FedNothing(mc, n.a);
      FedNothing(mc, n.b);
      assert [] + n.ab == n.ab + [] && [] + n.ba == n.ba + [];
    } else {
      var m := Run(mc, n, s);
      var x, y := SidesAreFed(mc, Step(mc, n, s[0]), s[1..]);
      if s[0] {
        ca, cb := [n.ba[0]] + x, y;
        assert ca[1..] == x && n.ba == [n.ba[0]] + n.ba[1..];
        Taken(mc, n.a, n.ba[0], x);
        var (e, out) := mc.react(n.a, n.ba[0]);
        assert n.ab + out + Feed(mc, e, x).1 == n.ab + (out + Feed(mc, e, x).1);
        assert ca + m.ba == [n.ba[0]] + (x + m.ba);
        assert n.ba + Feed(mc, n.b, y).1 == [n.ba[0]] + (n.ba[1..] + Feed(mc, n.b, y).1);
      } else {
        ca, cb := x, [n.ab[0]] + y;
        assert cb[1..] == y && n.ab == [n.ab[0]] + n.ab[1..];
        Taken(mc, n.b, n.ab[0], y);
        var (e, out) := mc.react(n.b, n.ab[0]);
        assert n.ba + out + Feed(mc, e, y).1 == n.ba + (out + Feed(mc, e, y).1);
        assert cb + m.ab == [n.ab[0]] + (y + m.ab);
        assert n.ab + Feed(mc, n.a, x).1 == [n.ab[0]] + (n.ab[1..] + Feed(mc, n.a, x).1);
      }
    }
  }

  lemma FedNothing<E, F>(mc: Machine<E, F>, e: E)
    ensures Feed(mc, e, []) == (e, []) && Accepts(mc, e, [])
  {
  }

  lemma Taken<E, F>(mc: Machine<E, F>, e: E, f: F, fs: seq<F>)
    ensures Feed(mc, e, [f] + fs) == Prepend(mc.react(e, f).1, Feed(mc, mc.react(e, f).0, fs))
    ensures Accepts(mc, e, [f] + fs) <==> mc.waiting(e) && Accepts(mc, mc.react(e, f).0, fs)
  {
    assert ([f] + fs)[0] == f && ([f] + fs)[1..] == fs;
  }
}
