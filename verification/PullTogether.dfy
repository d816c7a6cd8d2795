/** A pulling side and a serving side, run together: every request is answered in full before
    the next one goes out, and the pull ends exactly when the server holds what is asked for. */
module PullTogether {
  import opened Blobs
  import opened Network
  import opened Engine
  import opened Protocol
  import opened Offers
  import opened Serving
  import opened PullSafety

  /** Side `s` pulls folder `c.idxs[0]` from `b`, which is serving. */
  datatype Talk = Talk(lib: Lib, s: Side, c: PullCtx, b: Engine)

  ghost predicate Talking(t: Talk) {
    && t.c.idxs != [] && t.c.idxs[0] < |t.s.folders|
    && t.b.phase.Serving? && Find(t.b.self.folders, J(t).folder).Some?
    && Sound(t.lib, Peer(t)) && Lawful(t.lib)
  }

  function J(t: Talk): Job
    requires t.c.idxs != [] && t.c.idxs[0] < |t.s.folders|
  {
    JobOf(t.s, t.c.idxs[0], t.c.target, t.c.pa)
  }

  /** The server's store for the folder. */
  function Peer(t: Talk): Store
    requires t.c.idxs != [] && t.c.idxs[0] < |t.s.folders| && Find(t.b.self.folders, J(t).folder).Some?
  {
    t.b.self.folders[Find(t.b.self.folders, J(t).folder).value].store
  }

  /** The net once the puller has taken this step and nothing else is under way. */
  function At(t: Talk, step: PullStep): Net<Engine, Frame>
    requires t.c.idxs != [] && t.c.idxs[0] < |t.s.folders|
  {
    var (a, out) := Resume(t.lib, t.s, t.c, step);
    Net(a, t.b, out, [])
  }

  ghost predicate Breaks(lib: Lib, n: Net<Engine, Frame>) {
    exists m :: Reaches(M(lib), n, m) && (m.a.phase.Failed? || m.b.phase.Failed?)
  }

  /** `n` gets to where the puller has taken `step`, or to a failure if that is a stop. */
  ghost predicate Leads(t: Talk, n: Net<Engine, Frame>, step: PullStep)
    requires t.c.idxs != [] && t.c.idxs[0] < |t.s.folders|
  {
    if step.Stop? then Breaks(t.lib, n) else Reaches(M(t.lib), n, At(t, step))
  }

  lemma BreaksTrans(lib: Lib, n: Net<Engine, Frame>, m: Net<Engine, Frame>)
    requires Reaches(M(lib), n, m) && Breaks(lib, m)
    ensures Breaks(lib, n)
  {
    var k :| Reaches(M(lib), m, k) && (k.a.phase.Failed? || k.b.phase.Failed?);
    ReachesTrans(M(lib), n, m, k);
  }

  lemma LeadsSelf(t: Talk, step: PullStep)
    requires t.c.idxs != [] && t.c.idxs[0] < |t.s.folders|
    ensures Leads(t, At(t, step), step)
  {
    ReachesSelf(M(t.lib), At(t, step));
  }

  lemma LeadsTrans(t: Talk, n: Net<Engine, Frame>, step: PullStep, next: PullStep)
    requires t.c.idxs != [] && t.c.idxs[0] < |t.s.folders|
    requires Leads(t, n, step) && Leads(t, At(t, step), next)
    ensures step.Stop? || Leads(t, n, next)
  {
    if !step.Stop? {
      if next.Stop? { BreaksTrans(t.lib, n, At(t, step)); }
      else { ReachesTrans(M(t.lib), n, At(t, step), At(t, next)); }
    }
  }

  lemma BreaksOn(t: Talk, n: Net<Engine, Frame>, step: PullStep)
    requires t.c.idxs != [] && t.c.idxs[0] < |t.s.folders| && Leads(t, n, step)
    requires step.Stop? || Breaks(t.lib, At(t, step))
    ensures Breaks(t.lib, n)
  {
    if !step.Stop? { BreaksTrans(t.lib, n, At(t, step)); }
  }

  // ---- the puller between two frames -------------------------------------------------

  function Mid(t: Talk, p: Pull, st: Store, rej: nat): Engine
    requires t.c.idxs != [] && t.c.idxs[0] < |t.s.folders|
  {
    Resume(t.lib, t.s, t.c, Ask(p, st, rej, [])).0
  }

  lemma MidReact(t: Talk, p: Pull, st: Store, rej: nat, f: Frame)
    requires t.c.idxs != [] && t.c.idxs[0] < |t.s.folders| && InCaps(f)
    ensures var step := PullReact(t.lib, J(t), p, st, rej, f);
            if step.Stop? then React(t.lib, Mid(t, p, st, rej), f).0.phase.Failed?
            else React(t.lib, Mid(t, p, st, rej), f) == Resume(t.lib, t.s, t.c, step)
  {
    var i := t.c.idxs[0];
    var e := Mid(t, p, st, rej);
    assert JobOf(e.self, i, t.c.target, t.c.pa) == J(t);
    var step := PullReact(t.lib, J(t), p, st, rej, f);
    assert React(t.lib, e, f) == Resume(t.lib, e.self, t.c, step);
    if !step.Stop? { ResumeAgain(t.lib, t.s, t.c, st, rej, step); }
  }

  /** The pull in progress overwrites its own folder: what it wrote before does not matter. */
  lemma ResumeAgain(lib: Lib, s: Side, c: PullCtx, st: Store, rej: nat, step: PullStep)
    requires c.idxs != [] && c.idxs[0] < |s.folders| && !step.Stop?
    ensures var i := c.idxs[0];
            Resume(lib, s.(folders := s.folders[i := s.folders[i].(store := st, rejections := rej)]), c, step)
              == Resume(lib, s, c, step)
  {
    var i := c.idxs[0];
    var f := s.folders[i];
    var g := f.(store := st, rejections := rej);
    var fs := s.folders[i := g];
    match step
    case Ask(p, st', rej', out) =>
      assert fs[i := g.(store := st', rejections := rej')] == s.folders[i := f.(store := st', rejections := rej')];
    case Ended(st', rej') =>
      var after := if f.current.None? then Some(c.target) else f.after;
      assert fs[i := g.(store := st', rejections := rej', after := after)]
        == s.folders[i := f.(store := st', rejections := rej', after := after)];
  }

  lemma MidFrame(t: Talk, b: Engine, p: Pull, st: Store, rej: nat, f: Frame, ba: seq<Frame>)
    requires t.c.idxs != [] && t.c.idxs[0] < |t.s.folders| && InCaps(f) && b == t.b
    ensures var step := PullReact(t.lib, J(t), p, st, rej, f);
            var n := Net(Mid(t, p, st, rej), b, [], [f] + ba);
            if step.Stop? then Breaks(t.lib, n)
            else var r := Resume(t.lib, t.s, t.c, step); Reaches(M(t.lib), n, Net(r.0, b, r.1, ba))
  {
    var n := Net(Mid(t, p, st, rej), b, [], [f] + ba);
    MidReact(t, p, st, rej, f);
    ReachesStep(M(t.lib), n, true);
    var m := Step(M(t.lib), n, true);
    assert m.ba == ba;
    assert m.ab == [] + React(t.lib, n.a, f).1 == React(t.lib, n.a, f).1;
  }

  // ---- items -------------------------------------------------------------------------

  function PutAll(st: Store, items: seq<Item>): Store
    decreases |items|
  {
    if items == [] then st else PutAll(Put(st, items[0].0, items[0].1, items[0].2), items[1..])
  }

  function ItemIds(items: seq<Item>): set<BlobId> { set it | it in items :: it.1 }

  ghost predicate Verified(lib: Lib, items: seq<Item>) {
    forall it :: it in items ==> it.2 != [] && lib.hash(it.2) == it.1
  }

  lemma {:induction false} TakeInVerified(lib: Lib, batch: seq<Item>, st: Store, got: set<BlobId>, rej: nat)
    requires Verified(lib, batch)
    ensures TakeIn(lib, batch, st, got, rej) == Intake(PutAll(st, batch), got + ItemIds(batch), rej)
    decreases |batch|
  {
    if batch == [] {
      assert got + ItemIds(batch) == got;
    } else {
      var it := batch[0];
      assert it in batch && Verified(lib, batch[1..]);
      TakeInVerified(lib, batch[1..], Put(st, it.0, it.1, it.2), got + {it.1}, rej);
      assert batch == [it] + batch[1..];
      assert got + ItemIds(batch) == got + {it.1} + ItemIds(batch[1..]);
    }
  }

  lemma {:induction false} PutAllAppend(st: Store, x: seq<Item>, y: seq<Item>)
    ensures PutAll(st, x + y) == PutAll(PutAll(st, x), y)
    decreases |x|
  {
    if x == [] { assert x + y == y; }
    else {
      assert (x + y)[1..] == x[1..] + y;
      PutAllAppend(Put(st, x[0].0, x[0].1, x[0].2), x[1..], y);
    }
  }

  lemma {:induction false} PutAllSpec(lib: Lib, st: Store, items: seq<Item>)
    requires Sound(lib, st) && Verified(lib, items)
    ensures Sound(lib, PutAll(st, items)) && Extends(st, PutAll(st, items)) && PutAll(st, items).packs == st.packs
    ensures forall it :: it in items ==> Has(PutAll(st, items), it.0, it.1)
    decreases |items|
  {
    if items != [] {
      var st1 := Put(st, items[0].0, items[0].1, items[0].2);
      assert items[0] in items;
      assert Verified(lib, items[1..]);
      PutAllSpec(lib, st1, items[1..]);
      assert Has(st1, items[0].0, items[0].1);
      assert items == [items[0]] + items[1..];
    }
  }

  lemma {:induction false} HeldItemsSpec(lib: Lib, st: Store, asked: seq<(Kind, BlobId)>)
    requires Sound(lib, st)
    ensures Verified(lib, HeldItems(st, asked))
    ensures forall k :: k in asked && k in st.blobs ==> (k.0, k.1, st.blobs[k]) in HeldItems(st, asked)
    ensures forall it :: it in HeldItems(st, asked) ==> (it.0, it.1) in asked && (it.0, it.1) in st.blobs
  {
    if asked != [] {
      HeldItemsSpec(lib, st, asked[1..]);
      assert asked == [asked[0]] + asked[1..];
    }
  }

  function Advanced(p: Pull, items: seq<Item>, n: nat): Pull
    requires p.Fetch?
  {
    p.(got := p.got + ItemIds(items), batches := p.batches + n)
  }

  lemma BatchArrives(t: Talk, p: Pull, st: Store, rej: nat, x: seq<Item>, ba: seq<Frame>)
    requires Talking(t) && p.Fetch? && p.batches + 1 < BUDGET && Batch(x) && Verified(t.lib, x)
    ensures Reaches(M(t.lib), Net(Mid(t, p, st, rej), t.b, [], [Items(x)] + ba),
                    Net(Mid(t, Advanced(p, x, 1), PutAll(st, x), rej), t.b, [], ba))
  {
    TakeInVerified(t.lib, x, st, p.got, rej);
    assert PullReact(t.lib, J(t), p, st, rej, Items(x)) == Ask(Advanced(p, x, 1), PutAll(st, x), rej, []);
    MidFrame(t, t.b, p, st, rej, Items(x), ba);
  }

  function Incoming(bs: seq<seq<Item>>): seq<Frame> { Frames(bs) + [TERMINATOR] }

  lemma IncomingSplit(bs: seq<seq<Item>>)
    requires bs != []
    ensures Incoming(bs) == [Items(bs[0])] + Incoming(bs[1..])
  {
  }

  lemma AdvancedTwice(p: Pull, x: seq<Item>, y: seq<Item>, n: nat)
    requires p.Fetch?
    ensures Advanced(p, x, 1).Fetch? && Advanced(p, x, 1).batches == p.batches + 1
    ensures Advanced(Advanced(p, x, 1), y, n) == Advanced(p, x + y, n + 1)
  {
    assert ItemIds(x + y) == ItemIds(x) + ItemIds(y);
    assert p.got + ItemIds(x) + ItemIds(y) == p.got + (ItemIds(x) + ItemIds(y));
  }

  /** Batches of verified items come in one after the other; nothing is sent meanwhile. */
  lemma {:induction false} BatchesArrive(t: Talk, p: Pull, st: Store, rej: nat, bs: seq<seq<Item>>)
    requires Talking(t) && p.Fetch? && p.batches + |bs| < BUDGET
    requires forall b :: b in bs ==> Batch(b)
    requires Verified(t.lib, Flatten(bs))
    ensures Reaches(M(t.lib), Net(Mid(t, p, st, rej), t.b, [], Incoming(bs)),
                    Net(Mid(t, Advanced(p, Flatten(bs), |bs|), PutAll(st, Flatten(bs)), rej), t.b, [], [TERMINATOR]))
    decreases |bs|
  {
    hide *;
    TalkingGives(t);
    if bs == [] {
      NoBatches(t, p, st, rej);
    } else {
      var x, rest := bs[0], bs[1..];
      var p1, st1 := Advanced(p, x, 1), PutAll(st, x);
      FlattenFirst(bs);
      VerifiedSplit(t.lib, x, Flatten(rest));
      IncomingSplit(bs);
      BatchArrives(t, p, st, rej, x, Incoming(rest));
      AdvancedTwice(p, x, Flatten(rest), |rest|);
      BatchesArrive(t, p1, st1, rej, rest);
      PutAllAppend(st, x, Flatten(rest));
      ReachesTrans(M(t.lib), Net(Mid(t, p, st, rej), t.b, [], Incoming(bs)),
                   Net(Mid(t, p1, st1, rej), t.b, [], Incoming(rest)),
                   Net(Mid(t, Advanced(p, Flatten(bs), |bs|), PutAll(st, Flatten(bs)), rej), t.b, [], [TERMINATOR]));
    }
  }

  lemma NoBatches(t: Talk, p: Pull, st: Store, rej: nat)
    requires Talking(t) && p.Fetch?
    ensures Reaches(M(t.lib), Net(Mid(t, p, st, rej), t.b, [], Incoming([])),
                    Net(Mid(t, Advanced(p, Flatten([]), 0), PutAll(st, Flatten([])), rej), t.b, [], [TERMINATOR]))
  {
    assert p.got + ItemIds([]) == p.got;
    assert Advanced(p, [], 0) == p;
    assert Incoming([]) == [TERMINATOR];
    ReachesSelf(M(t.lib), Net(Mid(t, p, st, rej), t.b, [], Incoming([])));
  }

  lemma FlattenFirst(bs: seq<seq<Item>>)
    requires bs != []
    ensures Flatten(bs) == bs[0] + Flatten(bs[1..]) && bs[0] in bs && forall b :: b in bs[1..] ==> b in bs
  {
  }

  lemma VerifiedSplit(lib: Lib, x: seq<Item>, y: seq<Item>)
    requires Verified(lib, x + y)
    ensures Verified(lib, x) && Verified(lib, y)
  {
    forall it | it in x ensures it in x + y {}
    forall it | it in y ensures it in x + y {}
  }

  function HeldOf(st: Store, kind: Kind, ids: seq<BlobId>): set<BlobId> {
    set id | id in ids && Has(st, kind, id)
  }

  lemma HeldOfAppend(st: Store, kind: Kind, x: seq<BlobId>, y: seq<BlobId>)
    ensures HeldOf(st, kind, x + y) == HeldOf(st, kind, x) + HeldOf(st, kind, y)
  {
  }

  /** What one reply holds, and what storing it leaves. */
  lemma ReplyStored(t: Talk, kind: Kind, group: seq<BlobId>, st: Store) returns (items: seq<Item>)
    requires Talking(t) && Sound(t.lib, st)
    ensures items == HeldItems(Peer(t), Keyed(kind, group)) && ItemIds(items) == HeldOf(Peer(t), kind, group)
    ensures Verified(t.lib, items)
    ensures Sound(t.lib, PutAll(st, items)) && Extends(st, PutAll(st, items)) && PutAll(st, items).packs == st.packs
    ensures forall id :: id in group && Has(Peer(t), kind, id) ==> Has(PutAll(st, items), kind, id)
  {
    var asked := Keyed(kind, group);
    items := HeldItems(Peer(t), asked);
    HeldItemsSpec(t.lib, Peer(t), asked);
    PutAllSpec(t.lib, st, items);
    assert ItemIds(items) == HeldOf(Peer(t), kind, group) by {
      forall id | id in group && Has(Peer(t), kind, id) ensures id in ItemIds(items) {
        var k :| 0 <= k < |group| && group[k] == id;
        assert asked[k] == (kind, id);
      }
    }
    forall id | id in group && Has(Peer(t), kind, id) ensures Has(PutAll(st, items), kind, id) {
      var k :| 0 <= k < |group| && group[k] == id;
      assert asked[k] == (kind, id);
    }
  }

  /** The server answers a request in batches. */
  lemma Replied(t: Talk, p: Pull, st: Store, rej: nat, group: seq<BlobId>) returns (bs: seq<seq<Item>>)
    requires Talking(t) && p.Fetch? && 0 < |group| <= MAX_ITEMS
    ensures Flatten(bs) == HeldItems(Peer(t), Keyed(p.kind, group)) && |bs| <= |group|
    ensures forall b :: b in bs ==> Batch(b)
    ensures Reaches(M(t.lib), At(t, Ask(p, st, rej, [AskItems(J(t).folder, Keyed(p.kind, group))])),
                    Net(Mid(t, p, st, rej), t.b, [], Incoming(bs)))
  {
    hide HeldItems;
    var asked := Keyed(p.kind, group);
    bs := ServeShape(Peer(t), asked);
    var n := At(t, Ask(p, st, rej, [AskItems(J(t).folder, asked)]));
    FeedOne(t.lib, t.b, AskItems(J(t).folder, asked));
    TurnB(M(t.lib), n);
  }

  /** One request and its whole reply. */
  lemma AskOnce(t: Talk, p: Pull, st: Store, rej: nat, group: seq<BlobId>) returns (p': Pull, st': Store)
    requires Talking(t) && Sound(t.lib, st) && p.Fetch? && p.batches == 0 && 0 < |group| <= MAX_ITEMS
    ensures p'.Fetch? && p' == p.(got := p.got + HeldOf(Peer(t), p.kind, group), batches := p'.batches)
    ensures Sound(t.lib, st') && Extends(st, st') && st'.packs == st.packs
    ensures forall id :: id in group && Has(Peer(t), p.kind, id) ==> Has(st', p.kind, id)
    ensures Leads(t, At(t, Ask(p, st, rej, [AskItems(J(t).folder, Keyed(p.kind, group))])),
                  PullReact(t.lib, J(t), p', st', rej, TERMINATOR))
  {
    hide HeldOf, ItemIds, HeldItems, Keyed, Sound, PullReact, Reaches;
    var asked := Keyed(p.kind, group);
    var bs := Replied(t, p, st, rej, group);
    var items := ReplyStored(t, p.kind, group, st);
    p' := Advanced(p, items, |bs|);
    st' := PutAll(st, items);
    var n := At(t, Ask(p, st, rej, [AskItems(J(t).folder, asked)]));
    var n1 := Net(Mid(t, p, st, rej), t.b, [], Incoming(bs));
    BatchesArrive(t, p, st, rej, bs);
    var n2 := Net(Mid(t, p', st', rej), t.b, [], [TERMINATOR]);
    ReachesTrans(M(t.lib), n, n1, n2);
    assert n2.ba == [TERMINATOR] + [];
    MidFrame(t, t.b, p', st', rej, TERMINATOR, []);
    var step := PullReact(t.lib, J(t), p', st', rej, TERMINATOR);
    if step.Stop? { BreaksTrans(t.lib, n, n2); }
    else { ReachesTrans(M(t.lib), n, n2, At(t, step)); }
  }

  lemma AfterReply(lib: Lib, j: Job, p: Pull, st: Store, rej: nat)
    requires p.Fetch?
    ensures PullReact(lib, j, p, st, rej, TERMINATOR) ==
            if p.unsent != [] then Ask(p.(unsent := Drop(p.unsent, MAX_ITEMS), batches := 0), st, rej,
                                       [AskItems(j.folder, Keyed(p.kind, Take(p.unsent, MAX_ITEMS)))])
            else NextAttempt(lib, j, p.goal, p.kind, Without(p.outstanding, p.got), if p.left == 0
                             then 0 else p.left - 1, st, rej)
  {
    hide NextAttempt, Keyed, Without;
  }

  /** All groups of one attempt. */
  lemma {:induction false} AttemptRuns(t: Talk, p: Pull, st: Store, rej: nat, group: seq<BlobId>)
    returns (got: set<BlobId>, st': Store)
    requires Talking(t) && Sound(t.lib, st) && p.Fetch? && p.batches == 0 && 0 < |group| <= MAX_ITEMS
    ensures got == p.got + HeldOf(Peer(t), p.kind, group + p.unsent)
    ensures Sound(t.lib, st') && Extends(st, st') && st'.packs == st.packs
    ensures forall id :: id in group + p.unsent && Has(Peer(t), p.kind, id) ==> Has(st', p.kind, id)
    ensures Leads(t, At(t, Ask(p, st, rej, [AskItems(J(t).folder, Keyed(p.kind, group))])),
                  NextAttempt(t.lib, J(t), p.goal, p.kind, Without(p.outstanding, got), if p.left == 0
                              then 0 else p.left - 1, st', rej))
    decreases |p.unsent|
  {
    hide PullReact, NextAttempt, At, Leads, Keyed, HeldOf, Without, Sound;
    var p1, st1 := AskOnce(t, p, st, rej, group);
    var n := At(t, Ask(p, st, rej, [AskItems(J(t).folder, Keyed(p.kind, group))]));
    AfterReply(t.lib, J(t), p1, st1, rej);
    if p.unsent == [] {
      got, st' := p1.got, st1;
      assert group + p.unsent == group;
    } else {
      var next := Take(p.unsent, MAX_ITEMS);
      var p2 := p1.(unsent := Drop(p.unsent, MAX_ITEMS), batches := 0);
      var step := Ask(p2, st1, rej, [AskItems(J(t).folder, Keyed(p.kind, next))]);
      assert PullReact(t.lib, J(t), p1, st1, rej, TERMINATOR) == step;
      got, st' := AttemptRuns(t, p2, st1, rej, next);
      assert next + p2.unsent == p.unsent;
      HeldOfAppend(Peer(t), p.kind, group, p.unsent);
      LeadsTrans(t, n, step,
                 NextAttempt(t.lib, J(t), p.goal, p.kind, Without(p.outstanding, got), if p.left == 0
                             then 0 else p.left - 1, st', rej));
    }
  }

  ghost predicate AllHeld(st: Store, kind: Kind, ids: seq<BlobId>) {
    forall id :: id in ids ==> Has(st, kind, id)
  }

  /** One attempt at a list of ids: what is left is what the server does not hold. */
  lemma OneAttempt(t: Talk, goal: Goal, kind: Kind, ids: seq<BlobId>, left: nat, st: Store, rej: nat)
    returns (rest: seq<BlobId>, st': Store)
    requires Talking(t) && Sound(t.lib, st) && ids != [] && left > 0
    ensures forall id :: id in rest <==> id in ids && !Has(Peer(t), kind, id)
    ensures Sound(t.lib, st') && Extends(st, st') && st'.packs == st.packs
    ensures forall id :: id in ids && Has(Peer(t), kind, id) ==> Has(st', kind, id)
    ensures Leads(t, At(t, Request(J(t), goal, kind, ids, left, st, rej)),
                  NextAttempt(t.lib, J(t), goal, kind, rest, left - 1, st', rej))
  {
    hide PullReact, NextAttempt, At, Leads, Keyed, Sound, Without, Extends;
    var p := Fetch(goal, kind, ids, Drop(ids, MAX_ITEMS), {}, 0, left);
    var got, st1 := AttemptRuns(t, p, st, rej, Take(ids, MAX_ITEMS));
    assert Take(ids, MAX_ITEMS) + Drop(ids, MAX_ITEMS) == ids;
    WithoutSpec(ids, got);
    rest, st' := Without(ids, got), st1;
  }

  /** fetch_blobs against an honest server: it ends well, with every blob stored, exactly when
      the server holds every wanted blob; otherwise the session fails. */
  lemma {:induction false} FetchRuns(t: Talk, goal: Goal, kind: Kind, ids: seq<BlobId>, left: nat, st: Store,
                                     rej: nat) returns (st': Store)
    requires Talking(t) && Sound(t.lib, st) && ids != [] && left > 0
    ensures Sound(t.lib, st') && Extends(st, st') && st'.packs == st.packs
    ensures AllHeld(Peer(t), kind, ids) ==>
              && AllHeld(st', kind, ids)
              && Leads(t, At(t, Request(J(t), goal, kind, ids, left, st, rej)), FetchEnded(t.lib, J(t), goal, st', rej))
    ensures !AllHeld(Peer(t), kind, ids) ==> Breaks(t.lib, At(t, Request(J(t), goal, kind, ids, left, st, rej)))
    decreases left
  {
    var rest, st1 := OneAttempt(t, goal, kind, ids, left, st, rej);
    st' := st1;
    if rest != [] {
      assert rest[0] in rest;
      if left > 1 {
        var st2 := FetchRuns(t, goal, kind, rest, left - 1, st1, rej);
        BreaksTrans(t.lib, At(t, Request(J(t), goal, kind, ids, left, st, rej)),
                    At(t, Request(J(t), goal, kind, rest, left - 1, st1, rej)));
      }
    } else {
      assert AllHeld(Peer(t), kind, ids) by {
        forall id | id in ids ensures Has(Peer(t), kind, id) { assert id in rest || Has(Peer(t), kind, id); }
      }
    }
  }

  // ---- the breadth-first walk --------------------------------------------------------

  /** Child ids of a set of nodes. */
  function Below(lib: Lib, st: Store, level: set<BlobId>): set<BlobId> {
    set id, ch | id in level && NodeAt(lib, st, id).Some? && ch in Children(NodeAt(lib, st, id).value) :: ch
  }

  /** A breadth-first walk from here takes at most `k` rounds. */
  ghost predicate Shallow(lib: Lib, st: Store, level: set<BlobId>, seen: set<BlobId>, k: nat)
    decreases k
  {
    level == {} || (k > 0 && Shallow(lib, st, Below(lib, st, level) - seen, seen + Below(lib, st, level), k - 1))
  }

  lemma {:induction false} ScanLevelExact(lib: Lib, st: Store, level: seq<BlobId>, queue: seq<BlobId>, walk: Walk)
    requires Distinct(queue) && Elements(queue) <= walk.enqueued
    requires forall id :: id in level ==> NodeAt(lib, st, id).Some?
    ensures var r := ScanLevel(lib, st, level, queue, walk);
            && r.Scanned? && r.walk.enqueued == walk.enqueued + Below(lib, st, Elements(level))
            && (forall c :: c in r.walk.chunks ==>
                c in walk.chunks || exists id :: id in level && c in Chunks(NodeAt(lib, st, id).value))
    decreases |level|
  {
    if level == [] {
      assert Below(lib, st, Elements(level)) == {};
    } else {
      var id, rest := level[0], level[1..];
      assert id in level && level == [id] + rest;
      var ps := NodeAt(lib, st, id).value;
      ScanNodeSpec(ps, queue, walk);
      var (queue', walk') := ScanNode(ps, queue, walk);
      ScanLevelExact(lib, st, rest, queue', walk');
      assert Below(lib, st, Elements(level)) == Children(ps) + Below(lib, st, Elements(rest)) by {
        assert Elements(level) == {id} + Elements(rest);
      }
    }
  }

  /** The server can see the walk through: everything reachable is there. */
  ghost predicate Plenty(t: Talk, ids: set<BlobId>)
    requires Talking(t)
  {
    && CollisionFree(t.lib) && ClosedNodes(t.lib, Peer(t), ids) && ChunksHeld(t.lib, Peer(t), ids)
  }

  ghost predicate WalkInside(t: Talk, ids: set<BlobId>, queue: seq<BlobId>, walk: Walk, rounds: nat)
    requires Talking(t)
  {
    && walk.enqueued <= ids && (forall c :: c in walk.chunks ==> Has(Peer(t), DataChunk, c))
    && rounds <= BUDGET && Shallow(t.lib, Peer(t), Elements(queue), walk.enqueued, BUDGET - rounds)
  }

  /** Under a collision-free hash two sound stores agree on every node they both hold. */
  lemma SameNode(lib: Lib, a: Store, b: Store, id: BlobId)
    requires CollisionFree(lib) && Sound(lib, a) && Sound(lib, b) && Has(a, TreeNode, id) && Has(b, TreeNode, id)
    ensures NodeAt(lib, a, id) == NodeAt(lib, b, id)
  {
    assert lib.hash(a.blobs[(TreeNode, id)]) == lib.hash(b.blobs[(TreeNode, id)]);
  }

  /** One level has been fetched and is scanned, with the server seeing the walk through. */
  lemma ScanInside(t: Talk, ids: set<BlobId>, level: seq<BlobId>, walk: Walk, rounds: nat, st: Store)
    requires Talking(t) && Plenty(t, ids) && Sound(t.lib, st) && AllHeld(st, TreeNode, level)
    requires level != [] && Elements(level) <= walk.enqueued && WalkInside(t, ids, level, walk, rounds)
    ensures var r := ScanLevel(t.lib, st, level, [], walk);
            r.Scanned? && rounds < BUDGET
            && (Elements(r.queue) == r.walk.enqueued - walk.enqueued ==>
                WalkInside(t, ids, r.queue, r.walk, rounds + 1))
  {
    forall id | id in level ensures NodeAt(t.lib, st, id).Some? && NodeAt(t.lib, st, id) == NodeAt(t.lib, Peer(t), id) {
      assert id in ids;
      SameNode(t.lib, st, Peer(t), id);
    }
    assert level[0] in Elements(level);
    ScanLevelExact(t.lib, st, level, [], walk);
    var r := ScanLevel(t.lib, st, level, [], walk);
    assert Below(t.lib, st, Elements(level)) == Below(t.lib, Peer(t), Elements(level));
    var next := Below(t.lib, Peer(t), Elements(level));
    assert r.walk.enqueued - walk.enqueued == next - walk.enqueued;
    forall x | x in next ensures x in ids {
      var id :| id in Elements(level) && NodeAt(t.lib, Peer(t), id).Some?
        && x in Children(NodeAt(t.lib, Peer(t), id).value);
      assert id in ids;
    }
    forall c | c in r.walk.chunks ensures Has(Peer(t), DataChunk, c) {
      if c !in walk.chunks {
        var id :| id in level && c in Chunks(NodeAt(t.lib, st, id).value);
        assert id in ids;
      }
    }
  }

  /** The walk from `queue` on: it gets to the packs, or the session fails; it does not fail
      if the server can see the walk through. */
  lemma {:induction false} WalkRuns(t: Talk, queue: seq<BlobId>, walk: Walk, rounds: nat, st: Store, rej: nat,
                                    full: bool, ids: set<BlobId>)
    returns (ok: bool, walk': Walk, st': Store)
    requires Talking(t) && Sound(t.lib, st) && Distinct(queue) && Walked(t.lib, J(t), st, walk, Elements(queue))
    requires rounds <= BUDGET
    requires full ==> Plenty(t, ids) && WalkInside(t, ids, queue, walk, rounds)
    ensures full ==> ok
    ensures !ok ==> Breaks(t.lib, At(t, NextLevel(t.lib, J(t), queue, walk, rounds, st, rej)))
    ensures ok ==>
      && !NextLevel(t.lib, J(t), queue, walk, rounds, st, rej).Stop?
      && Sound(t.lib, st') && Extends(st, st') && st'.packs == st.packs && Walked(t.lib, J(t), st', walk', {})
      && (full ==> forall c :: c in walk'.chunks ==> Has(Peer(t), DataChunk, c))
      && Leads(t, At(t, NextLevel(t.lib, J(t), queue, walk, rounds, st, rej)), StartPacks(t.lib, J(t), walk', st', rej))
    decreases BUDGET - rounds
  {
    ok, walk', st' := false, walk, st;
    if queue == [] {
      assert Elements(queue) == {};
      LeadsSelf(t, StartPacks(t.lib, J(t), walk, st, rej));
      ok := true;
    } else if rounds == BUDGET {
      assert queue[0] in Elements(queue);
      LeadsSelf(t, Stop(Missing));
    } else {
      ok, walk', st' := LevelRuns(t, queue, walk, rounds, st, rej, full, ids);
    }
  }

  lemma TalkingGives(t: Talk)
    requires Talking(t)
    ensures t.c.idxs != [] && t.c.idxs[0] < |t.s.folders| && Find(t.b.self.folders, J(t).folder).Some?
  {
  }

  lemma LevelAsks(lib: Lib, j: Job, queue: seq<BlobId>, walk: Walk, rounds: nat, st: Store, rej: nat)
    requires rounds < BUDGET && queue != []
    ensures !NextLevel(lib, j, queue, walk, rounds, st, rej).Stop?
  {
  }

  /** One level is fetched and scanned. */
  lemma LevelScanned(t: Talk, queue: seq<BlobId>, walk: Walk, rounds: nat, st: Store, rej: nat, full: bool,
                     ids: set<BlobId>)
    returns (ok: bool, queue': seq<BlobId>, walk': Walk, st': Store)
    requires Talking(t) && Sound(t.lib, st) && Distinct(queue) && Walked(t.lib, J(t), st, walk, Elements(queue))
    requires rounds < BUDGET && queue != []
    requires full ==> Plenty(t, ids) && WalkInside(t, ids, queue, walk, rounds)
    ensures full ==> ok
    ensures !ok ==> Breaks(t.lib, At(t, NextLevel(t.lib, J(t), queue, walk, rounds, st, rej)))
    ensures ok ==>
      && Sound(t.lib, st') && Extends(st, st') && st'.packs == st.packs && Distinct(queue')
        && Walked(t.lib, J(t), st', walk', Elements(queue'))
      && (full ==> WalkInside(t, ids, queue', walk', rounds + 1))
      && Leads(t, At(t, NextLevel(t.lib, J(t), queue, walk, rounds, st, rej)),
               NextLevel(t.lib, J(t), queue', walk', rounds + 1, st', rej))
  {
    ok, queue', walk' := false, queue, walk;
    var goal := ForNodes(queue, walk, rounds + 1);
    st' := FetchRuns(t, goal, TreeNode, queue, J(t).retries + 1, st, rej);
    if full {
      forall id | id in queue ensures Has(Peer(t), TreeNode, id) { assert id in Elements(queue) && id in ids; }
    }
    if AllHeld(Peer(t), TreeNode, queue) {
      WalkedExtends(t.lib, J(t), st, st', walk, Elements(queue));
      assert Elements(queue) + Elements<BlobId>([]) == Elements(queue);
      ScanLevelSpec(t.lib, J(t), st', queue, [], walk);
      var r := ScanLevel(t.lib, st', queue, [], walk);
      if full { ScanInside(t, ids, queue, walk, rounds, st'); }
      if r.Scanned? {
        assert Elements<BlobId>([]) + (r.walk.enqueued - walk.enqueued) == r.walk.enqueued - walk.enqueued;
        ok, queue', walk' := true, r.queue, r.walk;
      }
    }
  }

  lemma {:induction false} LevelRuns(t: Talk, queue: seq<BlobId>, walk: Walk, rounds: nat, st: Store, rej: nat,
                                     full: bool, ids: set<BlobId>)
    returns (ok: bool, walk': Walk, st': Store)
    requires Talking(t) && Sound(t.lib, st) && Distinct(queue) && Walked(t.lib, J(t), st, walk, Elements(queue))
    requires rounds < BUDGET && queue != []
    requires full ==> Plenty(t, ids) && WalkInside(t, ids, queue, walk, rounds)
    ensures full ==> ok
    ensures !ok ==> Breaks(t.lib, At(t, NextLevel(t.lib, J(t), queue, walk, rounds, st, rej)))
    ensures ok ==>
      && !NextLevel(t.lib, J(t), queue, walk, rounds, st, rej).Stop?
      && Sound(t.lib, st') && Extends(st, st') && st'.packs == st.packs && Walked(t.lib, J(t), st', walk', {})
      && (full ==> forall c :: c in walk'.chunks ==> Has(Peer(t), DataChunk, c))
      && Leads(t, At(t, NextLevel(t.lib, J(t), queue, walk, rounds, st, rej)), StartPacks(t.lib, J(t), walk', st', rej))
    decreases BUDGET - rounds, 0
  {
    hide *;
    TalkingGives(t);
    LevelAsks(t.lib, J(t), queue, walk, rounds, st, rej);
    var n := At(t, NextLevel(t.lib, J(t), queue, walk, rounds, st, rej));
    var queue1, walk1, st1;
    ok, queue1, walk1, st1 := LevelScanned(t, queue, walk, rounds, st, rej, full, ids);
    walk', st' := walk1, st1;
    if ok {
      var step := NextLevel(t.lib, J(t), queue1, walk1, rounds + 1, st1, rej);
      ok, walk', st' := WalkRuns(t, queue1, walk1, rounds + 1, st1, rej, full, ids);
      if ok {
        ExtendsTrans(st, st1, st');
        LeadsTrans(t, n, step, StartPacks(t.lib, J(t), walk', st', rej));
      } else { BreaksOn(t, n, step); }
    }
  }
}
