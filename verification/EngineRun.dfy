/** A whole session as it is written, on a wire whose incoming frames are arbitrary: it does
    exactly what the reactive machine does when it is fed the same frames. */
module EngineRun {
  import opened Blobs
  import opened Network
  import opened Protocol
  import opened Engine
  import opened EngineLoops
  import opened OfferLoops
  import opened PullSafety
  import Offers
  import PullTogether

  // ---- following the machine -----------------------------------------------------------

  /** From `start`, the machine waits for each frame of `c` and is then at `cur`. The code has
      sent all the machine has, except what `cur` says is still to be sent. */
  ghost predicate Follows(lib: Lib, start: Reaction, c: seq<Frame>, was: seq<Frame>, now: seq<Frame>, cur: Reaction) {
    && Accepts(Offers.M(lib), start.0, c)
    && Feed(Offers.M(lib), start.0, c).0 == cur.0
    && was + start.1 + Feed(Offers.M(lib), start.0, c).1 == now + cur.1
  }

  ghost predicate Fails(lib: Lib, start: Reaction, c: seq<Frame>, was: seq<Frame>, now: seq<Frame>, e: Err) {
    exists s: Side :: Follows(lib, start, c, was, now, Fail(s, e))
  }

  /** The stream has ended where the machine waits. */
  ghost predicate Hangs(lib: Lib, start: Reaction, c: seq<Frame>, was: seq<Frame>, now: seq<Frame>) {
    exists e: Engine :: Waiting(e) && Follows(lib, start, c, was, now, (e, []))
  }

  ghost predicate Stops<T>(lib: Lib, start: Reaction, c: seq<Frame>, was: seq<Frame>, now: seq<Frame>, r: Res<T>) {
    match r
    case Ok(_) => true
    case Err(e) => Fails(lib, start, c, was, now, e)
    case Closed => Hangs(lib, start, c, was, now)
  }

  lemma FollowsSelf(lib: Lib, start: Reaction, was: seq<Frame>)
    ensures Follows(lib, start, [], was, was, start)
  {
    assert was + start.1 + [] == was + start.1;
  }

  lemma FollowsAppend(lib: Lib, start: Reaction, c: seq<Frame>, was: seq<Frame>, mid: seq<Frame>, cur: Reaction,
                      d: seq<Frame>, now: seq<Frame>, next: Reaction)
    requires Follows(lib, start, c, was, mid, cur) && Follows(lib, cur, d, mid, now, next)
    ensures Follows(lib, start, c + d, was, now, next)
  {
    hide Accepts, Feed;
    var mc := Offers.M(lib);
    FeedAppend(mc, start.0, c, d);
    var x, y := Feed(mc, start.0, c).1, Feed(mc, cur.0, d).1;
    assert was + start.1 + (x + y) == (was + start.1 + x) + y;
    assert mid + cur.1 + y == now + next.1;
  }

  lemma StopsAppend<T>(lib: Lib, start: Reaction, c: seq<Frame>, was: seq<Frame>, mid: seq<Frame>, cur: Reaction,
                       d: seq<Frame>, now: seq<Frame>, r: Res<T>)
    requires Follows(lib, start, c, was, mid, cur) && Stops(lib, cur, d, mid, now, r)
    ensures Stops(lib, start, c + d, was, now, r)
  {
    hide Follows;
    match r
    case Ok(_) =>
    case Err(e) =>
      var s: Side :| Follows(lib, cur, d, mid, now, Fail(s, e));
      FollowsAppend(lib, start, c, was, mid, cur, d, now, Fail(s, e));
    case Closed =>
      var e: Engine :| Waiting(e) && Follows(lib, cur, d, mid, now, (e, []));
      FollowsAppend(lib, start, c, was, mid, cur, d, now, (e, []));
  }

  lemma FollowsSend(lib: Lib, start: Reaction, c: seq<Frame>, was: seq<Frame>, now: seq<Frame>, e: Engine,
                    x: seq<Frame>, y: seq<Frame>)
    requires Follows(lib, start, c, was, now, (e, x + y))
    ensures Follows(lib, start, c, was, now + x, (e, y))
  {
    hide Accepts, Feed;
    assert now + (x + y) == now + x + y;
  }

  // ---- the parts, fed to the machine ---------------------------------------------------

  lemma {:induction false} ExchangeFed(lib: Lib, s: Side, first: bool, step: ExchangeStep, c: seq<Frame>)
    requires ExchAwaited(s.role, s.folders, first, step, c)
    ensures var r, end := Offered(lib, s, first, step), Offered(lib, s, first,
                                                                ExchRun(s.role, s.folders, first, step, c));
            var fed := Feed(Offers.M(lib), r.0, c);
            && Accepts(Offers.M(lib), r.0, c) && fed.0 == end.0
            && r.1 + fed.1 == ExchSaid(s.role, s.folders, first, step, c) + end.1
    decreases |c|
  {
    hide ExchangeReact, ExchangeDone;
    var r := Offered(lib, s, first, step);
    if c == [] {
      assert r.1 + [] == [] + r.1;
    } else {
      var next := Exch(s.role, s.folders, first, step.x, c[0]);
      assert React(lib, r.0, c[0]) == Offered(lib, s, first, next);
      ExchangeFed(lib, s, first, next, c[1..]);
      var n := Offered(lib, s, first, next);
      var rest := Feed(Offers.M(lib), n.0, c[1..]);
      assert Feed(Offers.M(lib), r.0, c) == Prepend(n.1, rest);
      var said, end := ExchSaid(s.role, s.folders, first, next, c[1..]), ExchRun(s.role, s.folders, first, step, c);
      assert step.out + (said + Offered(lib, s, first, end).1) == step.out + said + Offered(lib, s, first, end).1;
    }
  }

  lemma {:induction false} PullFed(lib: Lib, s: Side, c: PullCtx, step: PullStep, fs: seq<Frame>)
    requires c.idxs != [] && c.idxs[0] < |s.folders|
    requires Awaited(lib, JobOf(s, c.idxs[0], c.target, c.pa), step, fs)
    ensures var j := JobOf(s, c.idxs[0], c.target, c.pa);
            var r, end := Resume(lib, s, c, step), PullRun(lib, j, step, fs);
            var fed := Feed(Offers.M(lib), r.0, fs);
            && Accepts(Offers.M(lib), r.0, fs)
            && r.1 + fed.1 == Emitted(lib, j, step, fs) + Resume(lib, s, c, end).1
            && if end.Stop? then exists s' :: fed.0 == Fail(s', end.e).0 else fed.0 == Resume(lib, s, c, end).0
    decreases |fs|
  {
    hide PullReact, NextFolder;
    var j := JobOf(s, c.idxs[0], c.target, c.pa);
    var r := Resume(lib, s, c, step);
    if fs == [] {
      assert r.1 + [] == [] + r.1;
      if step.Stop? { assert r.0 == Fail(s, step.e).0; }
    } else {
      var next := PullTake(lib, j, step.pull, step.st, step.rejections, fs[0]);
      var n := PullStepFed(lib, s, c, step, fs[0]);
      var rest := Feed(Offers.M(lib), n.0, fs[1..]);
      assert Feed(Offers.M(lib), r.0, fs) == Prepend(n.1, rest);
      if next.Stop? {
        assert fs[1..] == [] && rest == (n.0, []);
        assert step.out + (n.1 + []) == step.out + [] + n.1;
      } else {
        PullFed(lib, s, c, next, fs[1..]);
        var said, end := Emitted(lib, j, next, fs[1..]), Resume(lib, s, c, PullRun(lib, j, step, fs));
        assert step.out + (said + end.1) == step.out + said + end.1;
      }
    }
  }

  lemma PullStepFed(lib: Lib, s: Side, c: PullCtx, step: PullStep, f: Frame) returns (n: Reaction)
    requires c.idxs != [] && c.idxs[0] < |s.folders| && step.Ask?
    ensures n == React(lib, Resume(lib, s, c, step).0, f)
    ensures var next := PullTake(lib, JobOf(s, c.idxs[0], c.target, c.pa), step.pull, step.st, step.rejections, f);
            if next.Stop? then n.1 == Resume(lib, s, c, next).1 && exists s' :: n.0 == Fail(s', next.e).0
            else n == Resume(lib, s, c, next)
  {
    hide PullReact, NextFolder;
    var i := c.idxs[0];
    var e := Resume(lib, s, c, step).0;
    n := React(lib, e, f);
    assert JobOf(e.self, i, c.target, c.pa) == JobOf(s, i, c.target, c.pa);
    var next := PullTake(lib, JobOf(s, i, c.target, c.pa), step.pull, step.st, step.rejections, f);
    if next.Stop? { assert n == Fail(e.self, next.e); }
    else { PullTogether.ResumeAgain(lib, s, c, step.st, step.rejections, next); }
  }

  lemma {:induction false} ServeFed(lib: Lib, s: Side, pf: PeerFolders, pa: PeerAdverts, plan: seq<Stage>,
                                    c: seq<Frame>)
    requires Answers(lib, s, c).Some?
    ensures var e := Engine(s, Serving(pf, pa, plan));
            Accepts(Offers.M(lib), e, c) && Feed(Offers.M(lib), e, c) == (e, Answers(lib, s, c).value)
    decreases |c|
  {
    hide Answer, React;
    if c != [] {
      var e := Engine(s, Serving(pf, pa, plan));
      var init, f := c[..|c| - 1], c[|c| - 1];
      ServeFed(lib, s, pf, pa, plan, init);
      AnswersAreTheMachines(lib, s, pf, pa, plan, f);
      Offers.FeedOne(lib, e, f);
      FeedAppend(Offers.M(lib), e, init, [f]);
      assert c == init + [f];
    }
  }

  // ---- the session ---------------------------------------------------------------------

  /** exchange_offers. */
  method Offering(w: Wire, ghost lib: Lib, s: Side, first: bool)
    returns (r: Res<(PeerFolders, PeerAdverts)>, ghost c: seq<Frame>)
    modifies w
    ensures w.taken == old(w.taken) + c && Stops(lib, Begin(lib, s, first), c, old(w.sent), w.sent, r)
    ensures r.Ok? ==>
          Follows(lib, Begin(lib, s, first), c, old(w.sent), w.sent, ExchangeDone(lib, s, first, r.value.0, r.value.1))
  {
    r, c := ExchangeOffers(w, s.role, s.folders, first);
    OfferingFollows(lib, s, first, c, old(w.sent), w.sent, r);
  }

  lemma OfferingFollows(lib: Lib, s: Side, first: bool, c: seq<Frame>, was: seq<Frame>, now: seq<Frame>,
                        r: Res<(PeerFolders, PeerAdverts)>)
    requires ExchMirrors(Party(s.role, s.folders, first, StartExchange(s.role, s.folders, first)), c, was, now, r)
    ensures Stops(lib, Begin(lib, s, first), c, was, now, r)
    ensures r.Ok? ==> Follows(lib, Begin(lib, s, first), c, was, now, ExchangeDone(lib, s, first, r.value.0, r.value.1))
  {
    hide ExchRun, ExchSaid, ExchAwaited, ExchangeDone, Accepts, Feed, StartExchange;
    var step := StartExchange(s.role, s.folders, first);
    var start := Begin(lib, s, first);
    ExchangeFed(lib, s, first, step, c);
    var end, said := ExchRun(s.role, s.folders, first, step, c), ExchSaid(s.role, s.folders, first, step, c);
    var fed := Feed(Offers.M(lib), start.0, c);
    var last := Offered(lib, s, first, end);
    assert was + start.1 + fed.1 == was + (start.1 + fed.1) && was + (said + last.1) == was + said + last.1;
    match r
    case Err(e) => assert Follows(lib, start, c, was, now, Fail(s, e));
    case Closed => assert was + said + end.out == now + []; assert Follows(lib, start, c, was, now, (last.0, []));
    case Ok((pf, pa)) =>
      var done := ExchangeDone(lib, s, first, pf, pa);
      assert was + said + (end.out + done.1) == was + said + end.out + done.1;
  }

  /** run_stage: pull the folders one after another, then send the end marker. */
  method RunStage(w: Wire, lib: Lib, s0: Side, idxs: seq<nat>, pf: PeerFolders, pa: PeerAdverts, ghost plan: seq<Stage>)
    returns (r: Res<Side>, ghost c: seq<Frame>)
    requires forall i :: 0 <= i < |idxs| ==> idxs[i] < |s0.folders|
    modifies w
    ensures w.taken == old(w.taken) + c
    ensures Stops(lib, NextFolder(lib, s0, pf, pa, idxs, plan), c, old(w.sent), w.sent, r)
    ensures r.Ok? ==> r.value.role == s0.role
    ensures r.Ok? ==>
          Follows(lib, NextFolder(lib, s0, pf, pa, idxs, plan), c, old(w.sent), w.sent,
                  NextStage(lib, r.value, pf, pa, plan))
  {
    hide Follows, NextFolder, NextStage, Stops;
    ghost var start := NextFolder(lib, s0, pf, pa, idxs, plan);
    var s := s0;
    c := [];
    FollowsSelf(lib, start, w.sent);
    assert idxs[0..] == idxs;
    for k := 0 to |idxs|
      invariant |s.folders| == |s0.folders| && s.role == s0.role && w.taken == old(w.taken) + c
      invariant Follows(lib, start, c, old(w.sent), w.sent, NextFolder(lib, s, pf, pa, idxs[k..], plan))
    {
      var f := s.folders[idxs[k]];
      assert idxs[k..][0] == idxs[k] && idxs[k..][1..] == idxs[k + 1..];
      if f.id !in pf || pf[f.id].None? {
        SkipFolder(lib, s, pf, pa, idxs[k..], plan);
      } else {
        var target := pf[f.id].value;
        ghost var was, ctx := w.sent, PullCtx(idxs[k..], target, pf, pa, plan);
        var j := JobOf(s, idxs[k], target, pa);
        ghost var d;
        var q, st, rej;
        q, st, rej, d := PullSteps(w, lib, j, f.store, f.rejections);
        ghost var cur := NextFolder(lib, s, pf, pa, idxs[k..], plan);
        var f' := f.(store := st, rejections := rej, after := if f.current.None? then Some(target) else f.after);
        ghost var next := NextFolder(lib, s.(folders := s.folders[idxs[k] := f']), pf, pa, idxs[k + 1..], plan);
        PullFollows(lib, s, ctx, d, was, w.sent, q, st, rej);
        StopsAppend(lib, start, c, old(w.sent), was, cur, d, w.sent, q);
        if q.Ok? { FollowsAppend(lib, start, c, old(w.sent), was, cur, d, w.sent, next); }
        assert old(w.taken) + c + d == old(w.taken) + (c + d);
        c := c + d;
        StopsAlike(lib, start, c, old(w.sent), w.sent, q);
        if q.Err? { return Err(q.e), c; }
        if q.Closed? { return Closed, c; }
        s := s.(folders := s.folders[idxs[k] := f']);
      }
    }
    assert idxs[|idxs|..] == [];
    EndOfStage(lib, s, pf, pa, plan);
    ghost var next := NextStage(lib, s, pf, pa, plan);
    FollowsSend(lib, start, c, old(w.sent), w.sent, next.0, [END_MARKER], next.1);
    w.Send(END_MARKER);
    StopsOk(lib, start, c, old(w.sent), w.sent, s);
    return Ok(s), c;
  }

  lemma StopsAlike(lib: Lib, start: Reaction, c: seq<Frame>, was: seq<Frame>, now: seq<Frame>, q: Res<()>)
    requires Stops(lib, start, c, was, now, q)
    ensures q.Err? ==> Stops<Side>(lib, start, c, was, now, Err(q.e))
    ensures q.Closed? ==> Stops<Side>(lib, start, c, was, now, Closed)
  {
    hide Fails, Hangs;
  }

  lemma StopsOk<T>(lib: Lib, start: Reaction, c: seq<Frame>, was: seq<Frame>, now: seq<Frame>, v: T)
    ensures Stops(lib, start, c, was, now, Ok(v))
  {
  }

  lemma SkipFolder(lib: Lib, s: Side, pf: PeerFolders, pa: PeerAdverts, idxs: seq<nat>, plan: seq<Stage>)
    requires idxs != [] && idxs[0] < |s.folders| && (s.folders[idxs[0]].id !in pf || pf[s.folders[idxs[0]].id].None?)
    ensures NextFolder(lib, s, pf, pa, idxs, plan) == NextFolder(lib, s, pf, pa, idxs[1..], plan)
  {
  }

  lemma EndOfStage(lib: Lib, s: Side, pf: PeerFolders, pa: PeerAdverts, plan: seq<Stage>)
    ensures var next := NextStage(lib, s, pf, pa, plan);
            NextFolder(lib, s, pf, pa, [], plan) == (next.0, [END_MARKER] + next.1)
  {
  }

  lemma PullFollows(lib: Lib, s: Side, c: PullCtx, d: seq<Frame>, was: seq<Frame>, now: seq<Frame>, q: Res<()>,
                    st: Store, rej: nat)
    requires c.idxs != [] && c.idxs[0] < |s.folders|
    requires var id := s.folders[c.idxs[0]].id; id in c.pf && c.pf[id] == Some(c.target)
    requires var f, j := s.folders[c.idxs[0]], JobOf(s, c.idxs[0], c.target, c.pa);
             Mirrors(lib, j, StartPull(lib, j, f.store, f.rejections), d, was, now, q, Ended(st, rej))
    ensures var cur := NextFolder(lib, s, c.pf, c.pa, c.idxs, c.plan);
            var f := s.folders[c.idxs[0]];
            var f' := f.(store := st, rejections := rej, after := if f.current.None? then Some(c.target) else f.after);
            && Stops(lib, cur, d, was, now, q)
            && (q.Ok? ==>
                Follows(lib, cur, d, was, now, NextFolder(lib, s.(folders := s.folders[c.idxs[0] := f']), c.pf, c.pa,
                                                          c.idxs[1..], c.plan)))
  {
    hide Accepts, Feed, PullRun, Emitted, Awaited;
    var f, j := s.folders[c.idxs[0]], JobOf(s, c.idxs[0], c.target, c.pa);
    var step := StartPull(lib, j, f.store, f.rejections);
    var cur := Resume(lib, s, c, step);
    assert NextFolder(lib, s, c.pf, c.pa, c.idxs, c.plan) == cur;
    PullFed(lib, s, c, step, d);
    var end, said, fed := PullRun(lib, j, step, d), Emitted(lib, j, step, d), Feed(Offers.M(lib), cur.0, d);
    var last := Resume(lib, s, c, end);
    assert was + cur.1 + fed.1 == was + (cur.1 + fed.1) && was + (said + last.1) == was + said + last.1;
    match q
    case Err(e) =>
      var s' :| fed.0 == Fail(s', e).0;
      assert Follows(lib, cur, d, was, now, Fail(s', e));
    case Closed => assert was + said + end.out == now + []; assert Follows(lib, cur, d, was, now,
                                                                           (Resume(lib, s, c, end).0, []));
    case Ok(_) =>
  }

  /** serve_stage. */
  method ServePeer(w: Wire, lib: Lib, s: Side, ghost pf: PeerFolders, ghost pa: PeerAdverts, ghost plan: seq<Stage>)
    returns (r: Res<()>, ghost c: seq<Frame>)
    modifies w
    ensures var start := (Engine(s, Serving(pf, pa, plan)), []);
            && w.taken == old(w.taken) + c && Stops(lib, start, c, old(w.sent), w.sent, r)
            && (r.Ok? ==> Follows(lib, start, c, old(w.sent), w.sent, NextStage(lib, s, pf, pa, plan)))
  {
    ghost var last;
    r, c, last := ServeRequests(w, lib, s);
    ServeFollows(lib, s, pf, pa, plan, c, last, old(w.sent), w.sent, r);
    if last.Some? {
      assert old(w.taken) + c + [last.value] == old(w.taken) + (c + [last.value]);
      c := c + [last.value];
    }
  }

  lemma ServeFollows(lib: Lib, s: Side, pf: PeerFolders, pa: PeerAdverts, plan: seq<Stage>, c: seq<Frame>,
                     last: Option<Frame>, was: seq<Frame>, now: seq<Frame>, r: Res<()>)
    requires Answers(lib, s, c).Some? && now == was + Answers(lib, s, c).value
    requires match r
             case Ok(_) => last.Some? && IsEnd(last.value)
             case Err(e) => last.Some? && Refusal(s, last.value) == Some(e)
             case Closed => last.None?
    ensures var start := (Engine(s, Serving(pf, pa, plan)), []);
            var all := if last.Some? then c + [last.value] else c;
            && Stops(lib, start, all, was, now, r)
            && (r.Ok? ==> Follows(lib, start, all, was, now, NextStage(lib, s, pf, pa, plan)))
  {
    hide Answers, Accepts, Feed, NextStage, React;
    var e := Engine(s, Serving(pf, pa, plan));
    ServeFed(lib, s, pf, pa, plan, c);
    assert was + [] + Answers(lib, s, c).value == now + [];
    assert Follows(lib, (e, []), c, was, now, (e, []));
    if last.Some? {
      var f := last.value;
      AnswersAreTheMachines(lib, s, pf, pa, plan, f);
      Offers.FeedOne(lib, e, f);
      var next := React(lib, e, f);
      assert now + [] + next.1 == now + next.1;
      assert Follows(lib, (e, []), [f], now, now, next);
      FollowsAppend(lib, (e, []), c, was, now, (e, []), [f], now, next);
    }
  }

  /** The outcomes after the first exchange. */
  method NoteFolders(fs: seq<Folder>, pf: PeerFolders) returns (out: seq<Folder>)
    ensures out == NoteRemotes(fs, pf)
  {
    out := [];
    for i := 0 to |fs|
      invariant |out| == i && forall k :: 0 <= k < i ==> out[k] == NoteRemotes(fs, pf)[k]
    {
      out := out + [fs[i].(remote := if fs[i].id in pf then pf[fs[i].id] else None)];
    }
  }

  /** A stage to pull, unless there is nothing in it. */
  method PullIfAny(w: Wire, lib: Lib, s: Side, idxs: seq<nat>, pf: PeerFolders, pa: PeerAdverts, ghost plan: seq<Stage>)
    returns (r: Res<Side>, ghost c: seq<Frame>)
    requires forall i :: 0 <= i < |idxs| ==> idxs[i] < |s.folders|
    modifies w
    ensures var start := NextStage(lib, s, pf, pa, PullPart(idxs) + plan);
            && w.taken == old(w.taken) + c && Stops(lib, start, c, old(w.sent), w.sent, r)
            && (r.Ok? ==>
                && r.value.role == s.role
                && Follows(lib, start, c, old(w.sent), w.sent, NextStage(lib, r.value, pf, pa, plan)))
  {
    hide Follows, NextFolder, NextStage, Stops;
    PullComes(lib, s, idxs, pf, pa, plan);
    if idxs != [] {
      r, c := RunStage(w, lib, s, idxs, pf, pa, plan);
    } else {
      FollowsSelf(lib, NextStage(lib, s, pf, pa, plan), w.sent);
      StopsOk(lib, NextStage(lib, s, pf, pa, plan), [], w.sent, w.sent, s);
      r, c := Ok(s), [];
    }
  }

  lemma PullComes(lib: Lib, s: Side, idxs: seq<nat>, pf: PeerFolders, pa: PeerAdverts, plan: seq<Stage>)
    ensures NextStage(lib, s, pf, pa, PullPart(idxs) + plan)
         == if idxs == [] then NextStage(lib, s, pf, pa, plan) else NextFolder(lib, s, pf, pa, idxs, plan)
  {
    hide NextFolder;
    assert idxs == [] ==> PullPart(idxs) + plan == plan;
    assert ([PullStage(idxs)] + plan)[1..] == plan;
  }

  /** A stage to serve, unless the peer has nothing to pull. */
  method ServeIfAny(w: Wire, lib: Lib, s: Side, idxs: seq<nat>, ghost pf: PeerFolders, ghost pa: PeerAdverts,
                    ghost plan: seq<Stage>)
    returns (r: Res<()>, ghost c: seq<Frame>)
    modifies w
    ensures var start := NextStage(lib, s, pf, pa, ServePart(idxs) + plan);
            && w.taken == old(w.taken) + c && Stops(lib, start, c, old(w.sent), w.sent, r)
            && (r.Ok? ==> Follows(lib, start, c, old(w.sent), w.sent, NextStage(lib, s, pf, pa, plan)))
  {
    hide Follows, NextStage, Stops;
    ServeComes(lib, s, idxs, pf, pa, plan);
    if idxs != [] {
      r, c := ServePeer(w, lib, s, pf, pa, plan);
    } else {
      FollowsSelf(lib, NextStage(lib, s, pf, pa, plan), w.sent);
      StopsOk(lib, NextStage(lib, s, pf, pa, plan), [], w.sent, w.sent, ());
      r, c := Ok(()), [];
    }
  }

  lemma ServeComes(lib: Lib, s: Side, idxs: seq<nat>, pf: PeerFolders, pa: PeerAdverts, plan: seq<Stage>)
    ensures NextStage(lib, s, pf, pa, ServePart(idxs) + plan)
         == if idxs == [] then NextStage(lib, s, pf, pa, plan) else (Engine(s, Serving(pf, pa, plan)), [])
  {
    assert idxs == [] ==> ServePart(idxs) + plan == plan;
    assert ([ServeStage] + plan)[1..] == plan;
  }

  /** Both stages, in the order of the role. */
  method BothStages(w: Wire, lib: Lib, s: Side, mine: seq<nat>, theirs: seq<nat>, pf: PeerFolders, pa: PeerAdverts)
    returns (r: Res<Side>, ghost c: seq<Frame>)
    requires forall i :: 0 <= i < |mine| ==> mine[i] < |s.folders|
    modifies w
    ensures var plan := if s.role.Initiator?
        then PullPart(mine) + ServePart(theirs) else ServePart(theirs) + PullPart(mine);
            var start := NextStage(lib, s, pf, pa, plan);
            && w.taken == old(w.taken) + c && Stops(lib, start, c, old(w.sent), w.sent, r)
            && (r.Ok? ==>
                && r.value.role == s.role
                && Follows(lib, start, c, old(w.sent), w.sent, NextStage(lib, r.value, pf, pa, [])))
  {
    hide Follows, NextStage, Stops, PullPart, ServePart;
    assert PullPart(mine) + [] == PullPart(mine) && ServePart(theirs) + [] == ServePart(theirs);
    ghost var d;
    var q;
    if s.role.Initiator? {
      ghost var start := NextStage(lib, s, pf, pa, PullPart(mine) + ServePart(theirs));
      r, c := PullIfAny(w, lib, s, mine, pf, pa, ServePart(theirs));
      if !r.Ok? { return; }
      ghost var was, mid := w.sent, NextStage(lib, r.value, pf, pa, ServePart(theirs));
      q, d := ServeIfAny(w, lib, r.value, theirs, pf, pa, []);
      StopsAppend(lib, start, c, old(w.sent), was, mid, d, w.sent, q);
      if q.Ok? { FollowsAppend(lib, start, c, old(w.sent), was, mid, d, w.sent, NextStage(lib, r.value, pf, pa, [])); }
      assert old(w.taken) + c + d == old(w.taken) + (c + d);
      c := c + d;
      StopsAlike(lib, start, c, old(w.sent), w.sent, q);
      StopsOk(lib, start, c, old(w.sent), w.sent, r.value);
      if q.Err? { r := Err(q.e); } else if q.Closed? { r := Closed; }
    } else {
      ghost var start := NextStage(lib, s, pf, pa, ServePart(theirs) + PullPart(mine));
      q, c := ServeIfAny(w, lib, s, theirs, pf, pa, PullPart(mine));
      StopsAlike(lib, start, c, old(w.sent), w.sent, q);
      if q.Err? { return Err(q.e), c; }
      if q.Closed? { return Closed, c; }
      ghost var was, mid := w.sent, NextStage(lib, s, pf, pa, PullPart(mine));
      r, d := PullIfAny(w, lib, s, mine, pf, pa, []);
      StopsAppend(lib, start, c, old(w.sent), was, mid, d, w.sent, r);
      if r.Ok? { FollowsAppend(lib, start, c, old(w.sent), was, mid, d, w.sent, NextStage(lib, r.value, pf, pa, [])); }
      assert old(w.taken) + c + d == old(w.taken) + (c + d);
      c := c + d;
    }
  }

  /** folder_phases, with finish_after_sync at its end. */
  method FolderPhases(w: Wire, lib: Lib, s0: Side) returns (r: Res<Side>, ghost c: seq<Frame>)
    modifies w
    ensures w.taken == old(w.taken) + c && Stops(lib, Begin(lib, s0, true), c, old(w.sent), w.sent, r)
    ensures r.Ok? ==> r.value.role == s0.role
    ensures r.Ok? ==> Follows(lib, Begin(lib, s0, true), c, old(w.sent), w.sent, Parting(r.value))
  {
    hide Follows, Stops, NextStage, Begin, ExchangeDone, Parting, PullPart, ServePart, StageNeeded, NoteRemotes;
    ghost var start := Begin(lib, s0, true);
    var x;
    x, c := Offering(w, lib, s0, true);
    StopsPeer(lib, start, c, old(w.sent), w.sent, x);
    if x.Err? { return Err(x.e), c; }
    if x.Closed? { return Closed, c; }
    var (pf, pa) := x.value;
    var noted := NoteFolders(s0.folders, pf);
    var s := s0.(folders := noted);
    var mine := ComputeStage(s0.folders, pf, s0.role, s0.role);
    var theirs := ComputeStage(s0.folders, pf, Other(s0.role), s0.role);
    PlanIs(lib, s0, pf, pa);
    ghost var was, d := w.sent, [];
    ghost var mid := ExchangeDone(lib, s0, true, pf, pa);
    r, d := BothStages(w, lib, s, mine, theirs, pf, pa);
    StopsAppend(lib, start, c, old(w.sent), was, mid, d, w.sent, r);
    if r.Ok? { FollowsAppend(lib, start, c, old(w.sent), was, mid, d, w.sent, NextStage(lib, r.value, pf, pa, [])); }
    assert old(w.taken) + c + d == old(w.taken) + (c + d);
    c := c + d;
    if !r.Ok? { return; }
    was := w.sent;
    mid := NextStage(lib, r.value, pf, pa, []);
    StagesOver(lib, r.value, pf, pa);
    r, d := FinishAfterSync(w, lib, r.value);
    StopsAppend(lib, start, c, old(w.sent), was, mid, d, w.sent, r);
    if r.Ok? { FollowsAppend(lib, start, c, old(w.sent), was, mid, d, w.sent, Parting(r.value)); }
    assert old(w.taken) + c + d == old(w.taken) + (c + d);
    c := c + d;
  }

  function Other(role: Role): Role { if role.Initiator? then Responder else Initiator }

  /** Both sides have settled; the initiator says goodbye first. */
  function Parting(s: Side): Reaction {
    (Engine(s, Closing), if s.role.Initiator? then [Bye(Normal)] else [])
  }

  lemma StopsPeer(lib: Lib, start: Reaction, c: seq<Frame>, was: seq<Frame>, now: seq<Frame>,
                  q: Res<(PeerFolders, PeerAdverts)>)
    requires Stops(lib, start, c, was, now, q)
    ensures q.Err? ==> Stops<Side>(lib, start, c, was, now, Err(q.e))
    ensures q.Closed? ==> Stops<Side>(lib, start, c, was, now, Closed)
  {
    hide Fails, Hangs;
  }

  /** The plan the machine makes is the two stages the code computes. */
  lemma PlanIs(lib: Lib, s: Side, pf: PeerFolders, pa: PeerAdverts)
    ensures var mine, theirs := StageNeeded(s.folders, pf, s.role, s.role),
        StageNeeded(s.folders, pf, Other(s.role), s.role);
            var plan := if s.role.Initiator? then PullPart(mine) + ServePart(theirs)
              else ServePart(theirs) + PullPart(mine);
            && ExchangeDone(lib, s, true, pf, pa) == NextStage(lib, s.(folders := NoteRemotes(s.folders, pf)), pf, pa,
                                                               plan)
            && forall i :: 0 <= i < |mine| ==> mine[i] < |NoteRemotes(s.folders, pf)|
  {
    hide NextStage, StageFrom;
    StageInRange(s.folders, pf, true, 0);
    var mine, theirs := StageNeeded(s.folders, pf, s.role, s.role), StageNeeded(s.folders, pf, Other(s.role), s.role);
    forall i | 0 <= i < |mine| ensures mine[i] < |NoteRemotes(s.folders, pf)| { assert mine[i] in mine; }
    match s.role
    case Initiator => assert Plan(s.role, s.folders, pf) == PullPart(mine) + ServePart(theirs);
    case Responder => assert Plan(s.role, s.folders, pf) == ServePart(theirs) + PullPart(mine);
  }

  lemma {:induction false} StageInRange(fs: seq<Folder>, pf: PeerFolders, thatSide: bool, i: nat)
    requires i <= |fs|
    ensures forall x :: x in StageFrom(fs, pf, thatSide, i) ==> x < |fs|
    decreases |fs| - i
  {
    if i < |fs| { StageInRange(fs, pf, thatSide, i + 1); }
  }

  lemma StagesOver(lib: Lib, s: Side, pf: PeerFolders, pa: PeerAdverts)
    ensures NextStage(lib, s, pf, pa, []) == Begin(lib, s, false)
  {
  }

  /** finish_after_sync: the second exchange, and what it settles. */
  method FinishAfterSync(w: Wire, ghost lib: Lib, s: Side) returns (r: Res<Side>, ghost c: seq<Frame>)
    modifies w
    ensures w.taken == old(w.taken) + c && Stops(lib, Begin(lib, s, false), c, old(w.sent), w.sent, r)
    ensures r.Ok? ==> r.value.role == s.role
    ensures r.Ok? ==> Follows(lib, Begin(lib, s, false), c, old(w.sent), w.sent, Parting(r.value))
  {
    hide Follows, Stops, Begin;
    var x;
    x, c := Offering(w, lib, s, false);
    StopsPeer(lib, Begin(lib, s, false), c, old(w.sent), w.sent, x);
    if x.Err? { return Err(x.e), c; }
    if x.Closed? { return Closed, c; }
    var folders := SettleFolders(s.folders, x.value.0);
    r := Ok(s.(folders := folders));
    StopsOk(lib, Begin(lib, s, false), c, old(w.sent), w.sent, r.value);
  }

  /** abort: say why, unless the peer closed first or the transport is gone. */
  method Abort(w: Wire, e: Err, ghost s: Side)
    modifies w
    ensures w.sent == old(w.sent) + Fail(s, e).1 && w.taken == old(w.taken)
  {
    match e {
      case ByeReceived => assert w.sent == w.sent + [];
      case Io => assert w.sent == w.sent + [];
      case Violation => w.Send(Bye(ProtocolViolation));
      case Limit => w.Send(Bye(ResourceLimit));
      case _ => w.Send(Bye(Internal));
    }
  }

  /** recv_expect_bye */
  method ExpectBye(w: Wire) returns (r: Res<()>, ghost c: seq<Frame>)
    modifies w
    ensures w.taken == old(w.taken) + c && w.sent == old(w.sent)
    ensures if r.Closed? then c == [] else |c| == 1 && r == ByeResult(c[0])
  {
    var m := w.Recv();
    if m.None? { return Closed, []; }
    c := [m.value];
    if !InCaps(m.value) || !m.value.Bye? { return Err(Violation), c; }
    if !m.value.reason.Normal? { return Err(ByeReceived), c; }
    return Ok(()), c;
  }

  function ByeResult(f: Frame): Res<()> {
    if !InCaps(f) || !f.Bye? then Err(Violation) else if !f.reason.Normal? then Err(ByeReceived) else Ok(())
  }

  lemma ByeReact(lib: Lib, s: Side, f: Frame)
    ensures var next := React(lib, Engine(s, Closing), f);
            match ByeResult(f)
            case Err(e) => next == Fail(s, e)
            case _ => next == (Engine(s, Finished), if s.role.Responder? then [Bye(Normal)] else [])
  {
  }

  /** What a session on the frames `c` comes to, and what it sends, is what the machine comes to
      and sends. It ends early only where the machine waits. */
  ghost predicate Ran(lib: Lib, s: Side, c: seq<Frame>, was: seq<Frame>, now: seq<Frame>, r: Res<Side>) {
    var start := Begin(lib, s, true);
    var (e, out) := Feed(Offers.M(lib), start.0, c);
    && Accepts(Offers.M(lib), start.0, c) && now == was + start.1 + out
    && match r
       case Ok(s') => e == Engine(s', Finished)
       case Err(err) => e.phase == Failed(err)
       case Closed => Waiting(e)
  }

  /** run_engine, after the handshake. */
  method RunEngine(w: Wire, lib: Lib, s0: Side) returns (r: Res<Side>, ghost c: seq<Frame>)
    modifies w
    ensures w.taken == old(w.taken) + c && Ran(lib, s0, c, old(w.sent), w.sent, r)
  {
    hide Follows, Begin, Fails, Hangs, Parting, Ran, Fail, ByeResult;
    ghost var start := Begin(lib, s0, true);
    r, c := FolderPhases(w, lib, s0);
    if r.Closed? {
      RanClosed(lib, s0, c, old(w.sent), w.sent);
      return;
    }
    if r.Err? {
      ghost var s := FailedSide(lib, start, c, old(w.sent), w.sent, r.e);
      RanErr(lib, s0, c, old(w.sent), w.sent, s, r.e);
      Abort(w, r.e, s);
      return;
    }
    var s := r.value;
    ghost var was := w.sent;
    if s.role.Initiator? { w.Send(Bye(Normal)); }
    PartingSent(lib, start, c, old(w.sent), was, s);
    was := w.sent;
    ghost var d;
    var q;
    q, d := ExpectBye(w);
    assert old(w.taken) + c + d == old(w.taken) + (c + d);
    if q.Closed? {
      assert c + d == c;
      HangsAt(lib, start, c, old(w.sent), w.sent, Engine(s, Closing));
      RanClosed(lib, s0, c, old(w.sent), w.sent);
      return Closed, c;
    }
    assert d == [d[0]];
    ByeFollows(lib, start, c, old(w.sent), w.sent, s, d[0]);
    c := c + d;
    if q.Err? {
      RanErr(lib, s0, c, old(w.sent), w.sent, s, q.e);
      Abort(w, q.e, s);
      return Err(q.e), c;
    }
    RanOk(lib, s0, c, old(w.sent), w.sent, s);
    if s.role.Responder? { w.Send(Bye(Normal)); } else { assert w.sent == w.sent + []; }
  }

  lemma FailedSide(lib: Lib, start: Reaction, c: seq<Frame>, was: seq<Frame>, now: seq<Frame>, e: Err) returns (s: Side)
    requires Fails(lib, start, c, was, now, e)
    ensures Follows(lib, start, c, was, now, Fail(s, e))
  {
    hide Follows;
    s :| Follows(lib, start, c, was, now, Fail(s, e));
  }

  lemma HangsAt(lib: Lib, start: Reaction, c: seq<Frame>, was: seq<Frame>, now: seq<Frame>, e: Engine)
    requires Waiting(e) && Follows(lib, start, c, was, now, (e, []))
    ensures Hangs(lib, start, c, was, now)
  {
  }

  lemma PartingSent(lib: Lib, start: Reaction, c: seq<Frame>, was: seq<Frame>, now: seq<Frame>, s: Side)
    requires Follows(lib, start, c, was, now, Parting(s))
    ensures Follows(lib, start, c, was, if s.role.Initiator?
                    then now + [Bye(Normal)] else now, (Engine(s, Closing), []))
  {
    hide Follows;
    if s.role.Initiator? {
      assert [Bye(Normal)] + [] == [Bye(Normal)];
      FollowsSend(lib, start, c, was, now, Engine(s, Closing), [Bye(Normal)], []);
    }
  }

  lemma ByeFollows(lib: Lib, start: Reaction, c: seq<Frame>, was: seq<Frame>, now: seq<Frame>, s: Side, f: Frame)
    requires Follows(lib, start, c, was, now, (Engine(s, Closing), []))
    ensures match ByeResult(f)
            case Err(e) => Follows(lib, start, c + [f], was, now, Fail(s, e))
            case _ => Follows(lib, start, c + [f], was, now, (Engine(s, Finished), if s.role.Responder?
                                                              then [Bye(Normal)] else []))
  {
    hide React, ByeResult, Accepts, Feed;
    ByeReact(lib, s, f);
    var e := Engine(s, Closing);
    Offers.FeedOne(lib, e, f);
    var next := React(lib, e, f);
    assert now + [] + next.1 == now + next.1;
    FollowsAppend(lib, start, c, was, now, (e, []), [f], now, next);
  }

  lemma RanClosed(lib: Lib, s0: Side, c: seq<Frame>, was: seq<Frame>, now: seq<Frame>)
    requires Hangs(lib, Begin(lib, s0, true), c, was, now)
    ensures Ran(lib, s0, c, was, now, Closed)
  {
    var e: Engine :| Waiting(e) && Follows(lib, Begin(lib, s0, true), c, was, now, (e, []));
    assert now + [] == now;
  }

  lemma RanErr(lib: Lib, s0: Side, c: seq<Frame>, was: seq<Frame>, now: seq<Frame>, s: Side, e: Err)
    requires Follows(lib, Begin(lib, s0, true), c, was, now, Fail(s, e))
    ensures forall t: Side :: Ran(lib, s0, c, was, now + Fail(t, e).1, Err(e))
  {
  }

  lemma RanOk(lib: Lib, s0: Side, c: seq<Frame>, was: seq<Frame>, now: seq<Frame>, s: Side)
    requires Follows(lib, Begin(lib, s0, true), c, was, now, (Engine(s, Finished), if s.role.Responder?
                                                              then [Bye(Normal)] else []))
    ensures Ran(lib, s0, c, was, now + (if s.role.Responder? then [Bye(Normal)] else []), Ok(s))
  {
  }

  // ---- two sessions --------------------------------------------------------------------

  function ResultOf(e: Engine): Res<Side> {
    match e.phase
    case Finished => Ok(e.self)
    case Failed(err) => Err(err)
    case _ => Closed
  }

  /** So what is proved of the two machines on a network is true of two such sessions: whatever
      the schedule, each side is where the code would be, given the frames delivered to it. */
  lemma ScheduleIsTwoRuns(lib: Lib, i: Side, r: Side, s: Schedule) returns (ca: seq<Frame>, cb: seq<Frame>)
    requires Valid(Offers.M(lib), Offers.Opening(lib, i, r, true), s)
    ensures var m := Run(Offers.M(lib), Offers.Opening(lib, i, r, true), s);
            && Ran(lib, i, ca, [], cb + m.ab, ResultOf(m.a))
            && Ran(lib, r, cb, [], ca + m.ba, ResultOf(m.b))
  {
    hide Run, Valid, Feed, Accepts, Begin;
    var n := Offers.Opening(lib, i, r, true);
    ca, cb := SidesAreFed(Offers.M(lib), n, s);
    assert [] + n.ab == n.ab && [] + n.ba == n.ba;
  }
}
