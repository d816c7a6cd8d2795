/** How a pull asks, how often, and when it gives up: against a peer that sends nothing, and against
    one that sends too much. */
module PullLimits {
  import opened Blobs
  import opened Engine
  import opened Protocol
  import Network
  import opened PullSafety
  import opened EngineLoops
  import opened OfferLoops

  // ---- a peer that answers every request with nothing ----------------------------------------------

  function Silence(n: nat): seq<Frame> { seq(n, i requires 0 <= i < n => TERMINATOR) }

  lemma SilenceAdds(m: nat, n: nat)
    ensures Silence(m) + Silence(n) == Silence(m + n)
  {
  }

  /** The number of requests for `n` ids. */
  function Requests(n: nat): nat { (n + 511) / 512 }

  /** The ids of one request: 512 of them, or what is left. */
  function Group(ids: seq<BlobId>, k: nat): seq<BlobId>
    requires 512 * k < |ids|
  {
    if 512 * k + 512 <= |ids| then ids[512 * k..512 * k + 512] else ids[512 * k..]
  }

  /** A fetch that waits for the reply to its request number `k`, with nothing in so far. */
  ghost predicate Asking(j: Job, goal: Goal, kind: Kind, ids: seq<BlobId>, left: nat, st: Store, rej: nat, k: nat,
                         step: PullStep)
    requires 512 * k < |ids|
  {
    && step.Ask? && step.pull == Fetch(goal, kind, ids, Drop(ids[512 * k..], 512), {}, 0, left)
    && step.st == st && step.rejections == rej && step.out == [AskItems(j.folder, Keyed(kind, Group(ids, k)))]
  }

  lemma NextGroup(lib: Lib, j: Job, goal: Goal, kind: Kind, ids: seq<BlobId>, left: nat, st: Store, rej: nat, k: nat,
                  step: PullStep)
    requires 512 * k < |ids| && Asking(j, goal, kind, ids, left, st, rej, k, step) && left > 0
    ensures var next := PullTake(lib, j, step.pull, st, rej, TERMINATOR);
            if 512 * (k + 1) < |ids| then Asking(j, goal, kind, ids, left, st, rej, k + 1, next)
            else next == NextAttempt(lib, j, goal, kind, ids, left - 1, st, rej)
  {
    hide NextAttempt, Keyed;
    var unsent := Drop(ids[512 * k..], 512);
    if 512 * (k + 1) < |ids| {
      assert unsent == ids[512 * (k + 1)..];
      assert Take(unsent, 512) == Group(ids, k + 1);
    } else {
      WithoutNone(ids);
    }
  }

  lemma {:induction false} WithoutNone(ids: seq<BlobId>)
    ensures Without(ids, {}) == ids
  {
    if ids != [] { WithoutNone(ids[1..]); assert ids == [ids[0]] + ids[1..]; }
  }

  lemma {:induction false} SilentGroups(lib: Lib, j: Job, goal: Goal, kind: Kind, ids: seq<BlobId>, left: nat,
                                        st: Store, rej: nat, k: nat)
    requires 512 * k < |ids| && left > 0
    ensures Asking(j, goal, kind, ids, left, st, rej, k,
                   PullRun(lib, j, Request(j, goal, kind, ids, left, st, rej), Silence(k)))
    decreases k
  {
    var start := Request(j, goal, kind, ids, left, st, rej);
    if k == 0 {
      assert ids[512 * 0..] == ids && Silence(0) == [] && Take(ids, 512) == Group(ids, 0);
    } else {
      SilentGroups(lib, j, goal, kind, ids, left, st, rej, k - 1);
      OneMore(lib, j, start, k - 1);
      NextGroup(lib, j, goal, kind, ids, left, st, rej, k - 1, PullRun(lib, j, start, Silence(k - 1)));
    }
  }

  lemma OneMore(lib: Lib, j: Job, start: PullStep, n: nat)
    requires PullRun(lib, j, start, Silence(n)).Ask?
    ensures var step := PullRun(lib, j, start, Silence(n));
            PullRun(lib, j, start, Silence(n + 1)) == PullTake(lib, j, step.pull, step.st, step.rejections, TERMINATOR)
  {
    hide PullTake, PullRun;
    SilenceAdds(n, 1);
    assert Silence(1) == [TERMINATOR];
    RunAppend(lib, j, start, Silence(n), [TERMINATOR]);
    RunOne(lib, j, PullRun(lib, j, start, Silence(n)), TERMINATOR);
  }

  /** One attempt without an answer: then the next one, with all that is missing, or none is left. */
  lemma SilentAttempt(lib: Lib, j: Job, goal: Goal, kind: Kind, ids: seq<BlobId>, left: nat, st: Store, rej: nat)
    requires ids != [] && left > 0
    ensures PullRun(lib, j, Request(j, goal, kind, ids, left, st, rej), Silence(Requests(|ids|)))
         == NextAttempt(lib, j, goal, kind, ids, left - 1, st, rej)
  {
    hide NextAttempt, PullRun, PullTake, Request;
    var start, k := Request(j, goal, kind, ids, left, st, rej), Requests(|ids|) - 1;
    SilentGroups(lib, j, goal, kind, ids, left, st, rej, k);
    OneMore(lib, j, start, k);
    NextGroup(lib, j, goal, kind, ids, left, st, rej, k, PullRun(lib, j, start, Silence(k)));
  }

  lemma {:induction false} SilentAttempts(lib: Lib, j: Job, goal: Goal, kind: Kind, ids: seq<BlobId>, left: nat,
                                          st: Store, rej: nat, a: nat)
    requires ids != [] && 0 < left && a <= left
    ensures PullRun(lib, j, Request(j, goal, kind, ids, left, st, rej), Silence(a * Requests(|ids|)))
         == if a < left then Request(j, goal, kind, ids, left - a, st, rej) else Stop(Missing)
    decreases a
  {
    var start, g := Request(j, goal, kind, ids, left, st, rej), Requests(|ids|);
    if a == 0 { assert Silence(0) == []; }
    else {
      hide PullRun, Request;
      SilentAttempts(lib, j, goal, kind, ids, left, st, rej, a - 1);
      assert (a - 1) * g + g == a * g;
      SilenceAdds((a - 1) * g, g);
      RunAppend(lib, j, start, Silence((a - 1) * g), Silence(g));
      SilentAttempt(lib, j, goal, kind, ids, left - (a - 1), st, rej);
    }
  }

  /** The fetch asks for all its ids in groups of 512, in order, and does so `retries + 1` times in
      all before it gives up. */
  ghost predicate Persists(lib: Lib, j: Job, kind: Kind, ids: seq<BlobId>, start: PullStep) {
    && (forall a: nat, k: nat :: a <= j.retries && 512 * k < |ids| ==> Repeats(lib, j, kind, ids, start, a, k))
    && PullRun(lib, j, start, Silence((j.retries + 1) * Requests(|ids|))) == Stop(Missing)
  }

  ghost predicate Repeats(lib: Lib, j: Job, kind: Kind, ids: seq<BlobId>, start: PullStep, a: nat, k: nat)
    requires 512 * k < |ids|
  {
    var step := PullRun(lib, j, start, Silence(a * Requests(|ids|) + k));
    step.Ask? && step.out == [AskItems(j.folder, Keyed(kind, Group(ids, k)))]
  }

  lemma SilentPeer(lib: Lib, j: Job, goal: Goal, kind: Kind, ids: seq<BlobId>, st: Store, rej: nat)
    requires ids != []
    ensures Persists(lib, j, kind, ids, Request(j, goal, kind, ids, j.retries + 1, st, rej))
  {
    hide PullRun, Request, Keyed;
    var start, g := Request(j, goal, kind, ids, j.retries + 1, st, rej), Requests(|ids|);
    forall a: nat, k: nat | a <= j.retries && 512 * k < |ids| ensures Repeats(lib, j, kind, ids, start, a, k) {
      SilentAttempts(lib, j, goal, kind, ids, j.retries + 1, st, rej, a);
      SilenceAdds(a * g, k);
      RunAppend(lib, j, start, Silence(a * g), Silence(k));
      SilentGroups(lib, j, goal, kind, ids, j.retries + 1 - a, st, rej, k);
    }
    SilentAttempts(lib, j, goal, kind, ids, j.retries + 1, st, rej, j.retries + 1);
  }

  /** The three fetches of a pull: the manifest, each level of nodes, and the chunks that no pack
      brought. */
  lemma PullPersists(lib: Lib, j: Job, queue: seq<BlobId>, walk: Walk, rounds: nat, wanted: seq<BlobId>,
                     satisfied: set<BlobId>, st: Store, rej: nat)
    ensures Persists(lib, j, Manifest, [j.target], StartPull(lib, j, st, rej))
    ensures queue != [] && rounds < 262_144 ==>
              Persists(lib, j, TreeNode, queue, NextLevel(lib, j, queue, walk, rounds, st, rej))
    ensures var rest := Without(wanted, satisfied); rest != [] ==>
              Persists(lib, j, DataChunk, rest, AfterPacks(lib, j, walk, wanted, satisfied, st, rej))
  {
    hide Persists, Request, Without;
    SilentPeer(lib, j, ForManifest, Manifest, [j.target], st, rej);
    if queue != [] { SilentPeer(lib, j, ForNodes(queue, walk, rounds + 1), TreeNode, queue, st, rej); }
    var rest := Without(wanted, satisfied);
    if rest != [] { SilentPeer(lib, j, ForChunks(walk), DataChunk, rest, st, rej); }
  }

  // ---- a peer that does not stop ---------------------------------------------------------------------

  /** A batch that a fetch takes in, whatever of it is rejected: not too long, and no blob of it is
      both empty and what its id says. */
  ghost predicate Digestible(lib: Lib, b: seq<Item>) {
    0 < |b| <= 512 && forall i :: 0 <= i < |b| ==> b[i].2 == [] ==> lib.hash(b[i].2) != b[i].1
  }

  function Batches(bs: seq<seq<Item>>): seq<Frame> { seq(|bs|, i requires 0 <= i < |bs| => Items(bs[i])) }

  lemma {:induction false} Digested(lib: Lib, b: seq<Item>, st: Store, got: set<BlobId>, rej: nat)
    requires forall i :: 0 <= i < |b| ==> b[i].2 == [] ==> lib.hash(b[i].2) != b[i].1
    ensures TakeIn(lib, b, st, got, rej).Intake?
    decreases |b|
  {
    if b != [] {
      var (kind, id, bytes) := b[0];
      if lib.hash(bytes) != id { Digested(lib, b[1..], st, got, rej + 1); }
      else { Digested(lib, b[1..], Put(st, kind, id, bytes), got + {id}, rej); }
    }
  }

  /** A reply of fewer than 262144 batches is taken in to its end; at that many the pull stops. */
  lemma {:induction false} ItemFlood(lib: Lib, j: Job, step: PullStep, bs: seq<seq<Item>>)
    requires step.Ask? && step.pull.Fetch? && step.pull.batches < 262_144
    requires forall i :: 0 <= i < |bs| ==> Digestible(lib, bs[i])
    ensures var end := PullRun(lib, j, step, Batches(bs));
            if step.pull.batches + |bs| < 262_144
            then end.Ask? && end.pull.Fetch? && end.pull.batches == step.pull.batches + |bs|
            else end == Stop(Limit)
    decreases |bs|
  {
    if bs != [] {
      var f, p := Items(bs[0]), step.pull;
      assert Batches(bs)[1..] == Batches(bs[1..]) && Batches(bs)[0] == f;
      assert Digestible(lib, bs[0]);
      Digested(lib, bs[0], step.st, p.got, step.rejections);
      var next := PullTake(lib, j, p, step.st, step.rejections, f);
      if p.batches + 1 < 262_144 { ItemFlood(lib, j, next, bs[1..]); }
    }
  }

  /** A pack frame that does not stop a pull by itself: not empty, and if it is what its name says, it
      can be opened. */
  predicate Bearable(lib: Lib, f: Frame) {
    f.PackFile? && f.bytes != [] && (lib.hash(f.bytes) == f.name ==> lib.pack(f.bytes).Some?)
  }

  /** A reply of fewer than 1024 packs is taken in to its end; at that many the pull stops. */
  lemma {:induction false} PackFlood(lib: Lib, j: Job, step: PullStep, fs: seq<Frame>)
    requires step.Ask? && step.pull.PackFetch? && step.pull.frames < 1_024
    requires forall i :: 0 <= i < |fs| ==> Bearable(lib, fs[i])
    ensures var end := PullRun(lib, j, step, fs);
            if step.pull.frames + |fs| < 1_024
            then end.Ask? && end.pull.PackFetch? && end.pull.frames == step.pull.frames + |fs|
            else end == Stop(Limit)
    decreases |fs|
  {
    hide Adopt, Arrived;
    if fs != [] {
      assert Bearable(lib, fs[0]);
      var next := PullTake(lib, j, step.pull, step.st, step.rejections, fs[0]);
      if step.pull.frames + 1 < 1_024 { PackFlood(lib, j, next, fs[1..]); }
    }
  }

  function RowCount(fs: seq<Frame>): nat
    requires forall i :: 0 <= i < |fs| ==> fs[i].Advert?
  {
    if fs == [] then 0 else |fs[0].rows| + RowCount(fs[1..])
  }

  /** The slices of one index are taken in as long as they have no more than 262144 rows together;
      beyond that the session stops. */
  lemma {:induction false} AdvertFlood(role: Role, folders: seq<Folder>, adverts: bool, x: Exchange, fs: seq<Frame>,
                                       out: seq<Frame>)
    requires x.pending.Some? && x.rows <= 262_144 && forall i :: 0 <= i < |fs| ==> fs[i].Advert? && fs[i].more
    ensures var end := ExchRun(role, folders, adverts, Going(x, out), fs);
            if x.rows + RowCount(fs) <= 262_144 then end.Going? && end.x.rows == x.rows + RowCount(fs)
            else end == Broken(Limit)
    decreases |fs|
  {
    hide InsertRows;
    if fs != [] {
      var next := Exch(role, folders, adverts, x, fs[0]);
      if x.rows + |fs[0].rows| <= 262_144 { AdvertFlood(role, folders, adverts, next.x, fs[1..], next.out); }
    }
  }

  /** Counting starts anew with each request. */
  lemma CountsAnew(lib: Lib, j: Job, step: PullStep)
    requires step.Ask?
    ensures var next := PullTake(lib, j, step.pull, step.st, step.rejections, TERMINATOR);
            next.Ask? ==> if next.pull.Fetch? then next.pull.batches == 0 else next.pull.frames == 0
  {
    hide ScanLevel, PacksWorthAsking, Lacking, Without;
  }

  // ---- what is counted as rejected --------------------------------------------------------------------

  function Forged(lib: Lib, b: seq<Item>): seq<bool> {
    seq(|b|, i requires 0 <= i < |b| => lib.hash(b[i].2) != b[i].1)
  }

  function CountTrue(flags: seq<bool>): nat {
    if flags == [] then 0 else (if flags[0] then 1 else 0) + CountTrue(flags[1..])
  }

  /** Every item that does not hash to its id is counted, and nothing else is; all others are stored
      under the kind they came with. */
  lemma {:induction false} RejectionsCounted(lib: Lib, b: seq<Item>, st: Store, got: set<BlobId>, rej: nat)
    requires TakeIn(lib, b, st, got, rej).Intake?
    ensures TakeIn(lib, b, st, got, rej).rejections == rej + CountTrue(Forged(lib, b))
    decreases |b|
  {
    if b != [] {
      var (kind, id, bytes) := b[0];
      assert Forged(lib, b)[1..] == Forged(lib, b[1..]);
      if lib.hash(bytes) != id { RejectionsCounted(lib, b[1..], st, got, rej + 1); }
      else { RejectionsCounted(lib, b[1..], Put(st, kind, id, bytes), got + {id}, rej); }
    }
  }

  // ---- items only --------------------------------------------------------------------------------------

  ghost predicate Packless(step: PullStep) {
    step.Ask? ==> step.pull.Fetch? && forall i :: 0 <= i < |step.out| ==> !step.out[i].AskPacks?
  }

  lemma PacklessStep(lib: Lib, j: Job, p: Pull, st: Store, rej: nat, f: Frame)
    requires j.gran.ItemsOnly? && p.Fetch?
    ensures Packless(PullTake(lib, j, p, st, rej, f))
  {
    hide ScanLevel, Lacking, Without, TakeIn, Keyed;
  }

  /** A side that wants items only never asks for a pack, whatever the peer sends. */
  lemma {:induction false} ItemsOnlyRun(lib: Lib, j: Job, step: PullStep, fs: seq<Frame>)
    requires j.gran.ItemsOnly? && Packless(step)
    ensures Packless(PullRun(lib, j, step, fs))
    ensures forall f :: f in Emitted(lib, j, step, fs) ==> !f.AskPacks?
    decreases |fs|
  {
    hide PullTake;
    if fs != [] && step.Ask? {
      PacklessStep(lib, j, step.pull, step.st, step.rejections, fs[0]);
      ItemsOnlyRun(lib, j, PullTake(lib, j, step.pull, step.st, step.rejections, fs[0]), fs[1..]);
    }
  }

  // ---- adverts, and the last word ------------------------------------------------------------------------

  /** The slices of an index: 2048 rows each but for the last, in order, each but the last marked as
      followed by more; an empty index is one empty slice. */
  lemma {:induction false} AdvertShape(rows: seq<Row>)
    ensures var fs := AdvertFrames(rows);
            && |fs| == (if rows == [] then 1 else (|rows| + 2047) / 2048)
            && forall i :: 0 <= i < |fs| ==> AdvertAt(rows, i, i + 1 < |fs|, fs[i])
    decreases |rows|
  {
    if |rows| > 2048 {
      var rest := rows[2048..];
      AdvertShape(rest);
      var fs, more := AdvertFrames(rows), AdvertFrames(rest);
      assert fs == [Advert(rows[..2048], true)] + more;
      forall i | 0 <= i < |fs| ensures AdvertAt(rows, i, i + 1 < |fs|, fs[i]) {
        if i > 0 {
          assert AdvertAt(rest, i - 1, i < |more|, more[i - 1]);
          AdvertShift(rows, i - 1, i < |more|, more[i - 1]);
        }
      }
    }
  }

  predicate AdvertAt(rows: seq<Row>, i: nat, more: bool, f: Frame) {
    && f.Advert? && f.more == more && 2048 * i <= |rows|
    && f.rows == (if 2048 * i + 2048 <= |rows| then rows[2048 * i..2048 * i + 2048] else rows[2048 * i..])
  }

  lemma AdvertShift(rows: seq<Row>, i: nat, more: bool, f: Frame)
    requires |rows| > 2048 && AdvertAt(rows[2048..], i, more, f)
    ensures AdvertAt(rows, i + 1, more, f)
  {
    var rest := rows[2048..];
    if 2048 * i + 2048 <= |rest| {
      assert rest[2048 * i..2048 * i + 2048] == rows[2048 * (i + 1)..2048 * (i + 1) + 2048];
    } else {
      assert rest[2048 * i..] == rows[2048 * (i + 1)..];
    }
  }

  /** What a failing side says: nothing if the peer has closed or the transport is gone; of a broken
      rule, that the protocol was violated; of too much, that a limit was reached; of anything else,
      that the error is internal. */
  function Farewell(e: Err): seq<Frame> {
    match e
    case ByeReceived => []
    case Io => []
    case Violation => [Bye(ProtocolViolation)]
    case Limit => [Bye(ResourceLimit)]
    case Missing => [Bye(Internal)]
    case FolderUnknown => [Bye(Internal)]
  }

  ghost predicate NoBye(fs: seq<Frame>) { forall i :: 0 <= i < |fs| ==> !fs[i].Bye? }

  /** A side that fails says farewell once, and last. */
  ghost predicate FarewellLast(r: Reaction) {
    r.0.phase.Failed? ==> exists before :: r.1 == before + Farewell(r.0.phase.e) && NoBye(before)
  }

  lemma FailsLast(s: Side, e: Err)
    ensures FarewellLast(Fail(s, e))
  {
    assert Fail(s, e).1 == [] + Farewell(e) && NoBye([]);
  }

  lemma PrependLast(out: seq<Frame>, r: Reaction)
    requires NoBye(out) && FarewellLast(r)
    ensures FarewellLast(Network.Prepend(out, r))
  {
    if r.0.phase.Failed? {
      var before :| r.1 == before + Farewell(r.0.phase.e) && NoBye(before);
      assert out + r.1 == (out + before) + Farewell(r.0.phase.e) && NoBye(out + before);
    }
  }

  lemma {:induction false} StageLast(lib: Lib, s: Side, pf: PeerFolders, pa: PeerAdverts, plan: seq<Stage>)
    ensures FarewellLast(NextStage(lib, s, pf, pa, plan))
    decreases |plan|, 1
  {
    hide FarewellLast, Fail, AnnounceFrom;
    FailsLast(s, Violation);
    if plan == [] {
      match StartExchange(s.role, s.folders, false)
      case Going(x, out) => NotFailed(NextStage(lib, s, pf, pa, plan));
      case _ =>
    } else if plan[0].ServeStage? {
      NotFailed(NextStage(lib, s, pf, pa, plan));
    } else {
      FolderLast(lib, s, pf, pa, plan[0].idxs, plan[1..]);
    }
  }

  lemma {:induction false} FolderLast(lib: Lib, s: Side, pf: PeerFolders, pa: PeerAdverts, idxs: seq<nat>,
                                      plan: seq<Stage>)
    ensures FarewellLast(NextFolder(lib, s, pf, pa, idxs, plan))
    decreases |plan|, 2, |idxs|
  {
    hide FarewellLast, Fail;
    FailsLast(s, Violation);
    if idxs == [] {
      StageLast(lib, s, pf, pa, plan);
      PrependLast([END_MARKER], NextStage(lib, s, pf, pa, plan));
    } else if idxs[0] < |s.folders| {
      var f := s.folders[idxs[0]];
      if f.id !in pf || pf[f.id].None? { FolderLast(lib, s, pf, pa, idxs[1..], plan); }
      else {
        var target := pf[f.id].value;
        var c, step := PullCtx(idxs, target, pf, pa, plan), StartPull(lib, JobOf(s, idxs[0], target, pa), f.store,
                                                                      f.rejections);
        assert NextFolder(lib, s, pf, pa, idxs, plan) == Resume(lib, s, c, step);
        NotFailed(Resume(lib, s, c, step));
      }
    }
  }

  lemma NotFailed(r: Reaction)
    requires !r.0.phase.Failed?
    ensures FarewellLast(r)
  {
  }

  lemma ResumeLast(lib: Lib, s: Side, c: PullCtx, step: PullStep)
    requires c.idxs != [] && c.idxs[0] < |s.folders|
    ensures FarewellLast(Resume(lib, s, c, step))
  {
    hide FarewellLast, Fail, NextFolder;
    match step
    case Stop(err) => FailsLast(s, err);
    case Ask(_, _, _, _) => NotFailed(Resume(lib, s, c, step));
    case Ended(st, rej) =>
      var i := c.idxs[0];
      var f := s.folders[i];
      var f' := f.(store := st, rejections := rej, after := if f.current.None? then Some(c.target) else f.after);
      FolderLast(lib, s.(folders := s.folders[i := f']), c.pf, c.pa, c.idxs[1..], c.plan);
  }

  lemma {:induction false} AnnouncesNoBye(role: Role, fs: seq<Folder>, adverts: bool, i: nat, pf: PeerFolders,
                                          pa: PeerAdverts)
    requires i <= |fs|
    ensures var r := AnnounceFrom(role, fs, adverts, i, pf, pa); r.Agreed? ==> NoBye(r.out)
    decreases |fs| - i
  {
    if i < |fs| { AnnouncesNoBye(role, fs, adverts, i + 1, pf, pa); }
  }

  lemma ExchangesNoBye(role: Role, fs: seq<Folder>, adverts: bool, x: Exchange, f: Frame)
    ensures var r := ExchangeReact(role, fs, adverts, x, f); r.Agreed? ==> NoBye(r.out)
  {
    hide AnnounceFrom, InsertRows, OfferFrames;
    forall i: nat, pf, pa | i <= |fs|
      ensures var r := AnnounceFrom(role, fs, adverts, i, pf, pa); r.Agreed? ==> NoBye(r.out)
    {
      AnnouncesNoBye(role, fs, adverts, i, pf, pa);
    }
  }

  lemma OfferedLast(lib: Lib, s: Side, first: bool, step: ExchangeStep)
    requires step.Agreed? ==> NoBye(step.out)
    ensures FarewellLast(Offered(lib, s, first, step))
  {
    hide FarewellLast, Fail, NextStage, NoteRemotes, SettleAll;
    match step
    case Broken(err) => FailsLast(s, err);
    case Going(_, _) => NotFailed(Offered(lib, s, first, step));
    case Agreed(pf, pa, out) =>
      if first { StageLast(lib, s.(folders := NoteRemotes(s.folders, pf)), pf, pa, Plan(s.role, s.folders, pf)); }
      else { NotFailed(ExchangeDone(lib, s, first, pf, pa)); }
      PrependLast(out, ExchangeDone(lib, s, first, pf, pa));
  }

  lemma ServingLast(lib: Lib, s: Side, pf: PeerFolders, pa: PeerAdverts, plan: seq<Stage>, f: Frame)
    ensures FarewellLast(ServingReact(lib, s, pf, pa, plan, f))
  {
    hide FarewellLast, Fail, NextStage, ServeItems, ServePacks;
    StageLast(lib, s, pf, pa, plan);
    FailsLast(s, FolderUnknown);
    FailsLast(s, Violation);
    FailsLast(s, ByeReceived);
    if !ServingReact(lib, s, pf, pa, plan, f).0.phase.Failed? { NotFailed(ServingReact(lib, s, pf, pa, plan, f)); }
  }

  /** Whatever a side is doing and whatever frame makes it fail, its farewell is the last it says, and
      the only one. */
  lemma LastWord(lib: Lib, e: Engine, f: Frame)
    requires Waiting(e)
    ensures FarewellLast(React(lib, e, f))
  {
    hide FarewellLast, Fail, Offered, Resume, ServingReact, PullReact, ExchangeReact;
    var s := e.self;
    FailsLast(s, Violation);
    FailsLast(s, ByeReceived);
    if InCaps(f) {
      match e.phase
      case Offering(first, x) =>
        ExchangesNoBye(s.role, s.folders, first, x, f);
        OfferedLast(lib, s, first, ExchangeReact(s.role, s.folders, first, x, f));
      case Pulling(c, p) =>
        if c.idxs != [] && c.idxs[0] < |s.folders| {
          var g := s.folders[c.idxs[0]];
          ResumeLast(lib, s, c, PullReact(lib, JobOf(s, c.idxs[0], c.target, c.pa), p, g.store, g.rejections, f));
        }
      case Serving(pf, pa, plan) => ServingLast(lib, s, pf, pa, plan, f);
      case Closing => if f.Bye? && f.reason.Normal? { NotFailed(React(lib, e, f)); }
      case _ =>
    }
  }

  // ---- a frame out of place ----------------------------------------------------------------------------

  /** The frames a side takes where it is: an offer, or the slices of its index; items, or packs and
      the terminator; requests; a goodbye. None of them is garbled or over a cap. */
  predicate Takes(e: Engine, f: Frame) {
    InCaps(f) && match e.phase
                 case Offering(_, x) => if x.pending.None? then f.Offer? else f.Advert?
                 case Pulling(_, p) => if p.Fetch? then f.Items? else f.PackFile? || f == TERMINATOR
                 case Serving(_, _, _) => f.AskItems? || f.AskPacks?
                 case _ => f.Bye?
  }

  /** Any other frame ends the session at once, and the peer is told that it broke the protocol. */
  lemma OutOfPlace(lib: Lib, e: Engine, f: Frame)
    requires Waiting(e) && !Takes(e, f)
    requires e.phase.Pulling? ==> e.phase.c.idxs != [] && e.phase.c.idxs[0] < |e.self.folders|
    ensures React(lib, e, f) == (Engine(e.self, Failed(Violation)), [Bye(ProtocolViolation)])
  {
    hide NextStage, NextFolder, AnnounceFrom, TakeIn, Adopt, NextAttempt, NextPacks, InsertRows;
  }
}
