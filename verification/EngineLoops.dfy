/** The engine's loops as they are written, against a wire whose incoming frames are arbitrary.
    Each is proved to send and to conclude exactly what the reactive machine does when it is
    given the same frames, so what holds of the machine holds of the loops. */
module EngineLoops {
  import opened Blobs
  import opened Engine
  import opened Protocol
  import opened PullSafety

  /** One side's end of a session. `inbox` is what the peer will have sent. */
  class Wire {
    var inbox: seq<Frame>
    var sent: seq<Frame>
    ghost var taken: seq<Frame>

    method Send(f: Frame)
      modifies this
      ensures sent == old(sent) + [f] && inbox == old(inbox) && taken == old(taken)
    {
      sent := sent + [f];
    }

    /** The next frame, or none once the stream has ended. */
    method Recv() returns (r: Option<Frame>)
      modifies this
      ensures sent == old(sent)
      ensures r.None? ==> old(inbox) == [] && inbox == [] && taken == old(taken)
      ensures r.Some? ==> old(inbox) == [r.value] + inbox && taken == old(taken) + [r.value]
    {
      if inbox == [] {
        r := None;
      } else {
        r := Some(inbox[0]);
        taken := taken + [inbox[0]];
        inbox := inbox[1..];
      }
    }
  }

  /** Closed: the stream ended while a frame was awaited. */
  datatype Res<+T> = Ok(value: T) | Err(e: Err) | Closed

  // ---- runs of the machine -----------------------------------------------------------

  /** What a pull has sent by the time it has taken these frames (not what it sends next). */
  function Emitted(lib: Lib, j: Job, step: PullStep, fs: seq<Frame>): seq<Frame>
    decreases |fs|
  {
    if fs == [] || !step.Ask? then []
    else step.out + Emitted(lib, j, PullTake(lib, j, step.pull, step.st, step.rejections, fs[0]), fs[1..])
  }

  /** The pull waits for each of these frames. */
  predicate Awaited(lib: Lib, j: Job, step: PullStep, fs: seq<Frame>)
    decreases |fs|
  {
    fs == [] || (step.Ask? && Awaited(lib, j, PullTake(lib, j, step.pull, step.st, step.rejections, fs[0]), fs[1..]))
  }

  lemma {:induction false} RunAppend(lib: Lib, j: Job, step: PullStep, x: seq<Frame>, y: seq<Frame>)
    ensures Awaited(lib, j, step, x) && Awaited(lib, j, PullRun(lib, j, step, x), y) ==> Awaited(lib, j, step, x + y)
    ensures PullRun(lib, j, step, x + y) == PullRun(lib, j, PullRun(lib, j, step, x), y)
    ensures Emitted(lib, j, step, x + y) == Emitted(lib, j, step, x) + Emitted(lib, j, PullRun(lib, j, step, x), y)
    decreases |x|
  {
    if x == [] {
      assert x + y == y;
      assert [] + Emitted(lib, j, step, y) == Emitted(lib, j, step, y);
    } else if step.Ask? {
      assert (x + y)[1..] == x[1..] + y;
      RunAppend(lib, j, PullTake(lib, j, step.pull, step.st, step.rejections, x[0]), x[1..], y);
    }
  }

  lemma RunNone(lib: Lib, j: Job, step: PullStep)
    ensures PullRun(lib, j, step, []) == step && Emitted(lib, j, step, []) == [] && Awaited(lib, j, step, [])
  {
  }

  lemma RunOne(lib: Lib, j: Job, step: PullStep, f: Frame)
    requires step.Ask?
    ensures PullRun(lib, j, step, [f]) == PullTake(lib, j, step.pull, step.st, step.rejections, f)
    ensures Emitted(lib, j, step, [f]) == step.out && Awaited(lib, j, step, [f])
  {
    var next := PullTake(lib, j, step.pull, step.st, step.rejections, f);
    assert [f][1..] == [];
    assert PullRun(lib, j, next, []) == next && Emitted(lib, j, next, []) == [];
  }

  /** The loop so far did what the machine does: it is where the machine is after `c`, having
      sent what the machine sent; `next` is not sent yet. */
  ghost predicate Tracks(lib: Lib, j: Job, start: PullStep, c: seq<Frame>, was: seq<Frame>, now: seq<Frame>,
                         step: PullStep) {
    Awaited(lib, j, start, c) && PullRun(lib, j, start, c) == step && now == was + Emitted(lib, j, start, c)
  }

  /** How a loop may leave off, relative to the machine started at `start`. */
  ghost predicate Mirrors<T>(lib: Lib, j: Job, start: PullStep, c: seq<Frame>, was: seq<Frame>, now: seq<Frame>,
                             r: Res<T>, end: PullStep) {
    match r
    case Ok(_) => Tracks(lib, j, start, c, was, now, end)
    case Err(e) => Tracks(lib, j, start, c, was, now, Stop(e))
    case Closed =>
      && Awaited(lib, j, start, c) && PullRun(lib, j, start, c).Ask?
      && now == was + Emitted(lib, j, start, c) + PullRun(lib, j, start, c).out
  }

  lemma TracksStart(lib: Lib, j: Job, start: PullStep, was: seq<Frame>)
    ensures Tracks(lib, j, start, [], was, was, start)
  {
    assert was + [] == was;
  }

  lemma MirrorsAppend<T>(lib: Lib, j: Job, start: PullStep, c: seq<Frame>, was: seq<Frame>, mid: seq<Frame>,
                         step: PullStep, d: seq<Frame>, now: seq<Frame>, r: Res<T>, end: PullStep)
    requires Tracks(lib, j, start, c, was, mid, step) && Mirrors(lib, j, step, d, mid, now, r, end)
    ensures Mirrors(lib, j, start, c + d, was, now, r, end)
  {
    hide PullTake, PullRun, Emitted, Awaited;
    RunAppend(lib, j, start, c, d);
    assert was + Emitted(lib, j, start, c) + Emitted(lib, j, step, d)
      == was + (Emitted(lib, j, start, c) + Emitted(lib, j, step, d));
  }

  // ---- read_item_batches -------------------------------------------------------------

  lemma {:induction false} TakeInGot(lib: Lib, batch: seq<Item>, st: Store, a: set<BlobId>, b: set<BlobId>, rej: nat)
    ensures var x, y := TakeIn(lib, batch, st, b, rej), TakeIn(lib, batch, st, a + b, rej);
            if x.EmptyBlob? then y.EmptyBlob? else y == x.(got := a + x.got)
    decreases |batch|
  {
    if batch != [] {
      var (kind, id, bytes) := batch[0];
      if lib.hash(bytes) != id {
        TakeInGot(lib, batch[1..], st, a, b, rej + 1);
      } else if bytes != [] {
        assert a + b + {id} == a + (b + {id});
        TakeInGot(lib, batch[1..], Put(st, kind, id, bytes), a, b + {id}, rej);
      }
    }
  }

  /** One received batch, item by item. */
  method TakeBatch(lib: Lib, batch: seq<Item>, st0: Store, got0: set<BlobId>, rej0: nat) returns (r: Intake)
    ensures r == TakeIn(lib, batch, st0, got0, rej0)
  {
    var st, got, rej := st0, got0, rej0;
    var i := 0;
    while i < |batch|
      invariant 0 <= i <= |batch|
      invariant TakeIn(lib, batch[i..], st, got, rej) == TakeIn(lib, batch, st0, got0, rej0)
    {
      var (kind, id, bytes) := batch[i];
      assert batch[i..][0] == batch[i] && batch[i..][1..] == batch[i + 1..];
      if lib.hash(bytes) != id {
        rej := rej + 1;
      } else {
        if bytes == [] { return EmptyBlob; }
        st := Put(st, kind, id, bytes);
        got := got + {id};
      }
      i := i + 1;
    }
    return Intake(st, got, rej);
  }

  /** Everything up to the terminator. `p` is the machine's state when the loop starts. */
  method ReadItemBatches(w: Wire, lib: Lib, ghost j: Job, ghost p: Pull, st0: Store, rej0: nat, ghost out: seq<Frame>)
    returns (r: Res<set<BlobId>>, st: Store, rej: nat, ghost c: seq<Frame>)
    requires p.Fetch? && p.batches == 0
    modifies w
    ensures w.taken == old(w.taken) + c && w.sent == old(w.sent) && Awaited(lib, j, Ask(p, st0, rej0, out), c)
    ensures var start := Ask(p, st0, rej0, out);
            match r
            case Ok(got) =>
              && c != [] && c[|c| - 1] == TERMINATOR && Emitted(lib, j, start, c) == out
              && exists n ::
                PullRun(lib, j, start, c) == PullReact(lib, j, p.(got := p.got + got, batches := n), st, rej,
                                                       TERMINATOR)
            case Err(e) => c != [] && PullRun(lib, j, start, c) == Stop(e) && Emitted(lib, j, start, c) == out
            case Closed => var s := PullRun(lib, j, start, c); s.Ask? && Emitted(lib, j, start, c) + s.out == out
  {
    hide PullRun, Emitted, Awaited, NextAttempt, Without;
    ghost var start := Ask(p, st0, rej0, out);
    RunNone(lib, j, start);
    st, rej, c := st0, rej0, [];
    var got: set<BlobId> := {};
    var batches := 0;
    ghost var o := out;
    assert p.got + got == p.got;
    while true
      invariant w.taken == old(w.taken) + c && w.sent == old(w.sent)
      invariant batches < BUDGET
      invariant o == if c == [] then out else []
      invariant PullRun(lib, j, start, c) == Ask(p.(got := p.got + got, batches := batches), st, rej, o)
      invariant Emitted(lib, j, start, c) == (if c == [] then [] else out) && Awaited(lib, j, start, c)
      decreases |w.inbox|
    {
      batches := batches + 1;
      var m := w.Recv();
      if m.None? { return Closed, st, rej, c; }
      var f := m.value;
      ghost var step := PullRun(lib, j, start, c);
      RunAppend(lib, j, start, c, [f]);
      RunOne(lib, j, step, f);
      assert old(w.taken) + c + [f] == old(w.taken) + (c + [f]);
      c := c + [f];
      if !InCaps(f) || !f.Items? { return Err(Violation), st, rej, c; }
      if f.batch == [] { return Ok(got), st, rej, c; }
      var t := TakeBatch(lib, f.batch, st, got, rej);
      TakeInGot(lib, f.batch, st, p.got, got, rej);
      if t.EmptyBlob? { return Err(Io), st, rej, c; }
      st, got, rej := t.st, t.got, t.rejections;
      o := [];
      if batches >= BUDGET { return Err(Limit), st, rej, c; }
    }
  }

  // ---- fetch_blobs -------------------------------------------------------------------

  function Groups(n: nat): nat { (n + MAX_ITEMS - 1) / MAX_ITEMS }

  lemma GroupsStep(s: seq<BlobId>)
    requires s != []
    ensures Groups(|s|) == 1 + Groups(|Drop(s, MAX_ITEMS)|)
  {
  }

  lemma GroupsMonotone(a: nat, b: nat)
    requires a <= b
    ensures Groups(a) <= Groups(b)
  {
  }

  /** Ask for the outstanding ids in groups, as often as retries allow; no more requests than
      attempts times groups. `goal` is what the machine is fetching for. */
  method FetchBlobs(w: Wire, lib: Lib, j: Job, ghost goal: Goal, kind: Kind, want: seq<BlobId>, st0: Store, rej0: nat)
    returns (r: Res<()>, st: Store, rej: nat, ghost c: seq<Frame>)
    modifies w
    ensures w.taken == old(w.taken) + c
    ensures Mirrors(lib, j, NextAttempt(lib, j, goal, kind, want, j.retries + 1, st0, rej0), c, old(w.sent), w.sent, r,
                    FetchEnded(lib, j, goal, st, rej))
    ensures |w.sent| - |old(w.sent)| <= (j.retries + 1) * Groups(|want|)
  {
    hide PullTake, FetchEnded, PullRun, Emitted, Awaited;
    ghost var start := NextAttempt(lib, j, goal, kind, want, j.retries + 1, st0, rej0);
    var outstanding := want;
    st, rej, c := st0, rej0, [];
    TracksStart(lib, j, start, w.sent);
    var attempt := 0;
    while attempt <= j.retries
      invariant 0 <= attempt <= j.retries + 1 && |outstanding| <= |want|
      invariant w.taken == old(w.taken) + c
      invariant Tracks(lib, j, start, c, old(w.sent), w.sent,
                       NextAttempt(lib, j, goal, kind, outstanding, j.retries + 1 - attempt, st, rej))
      invariant |w.sent| - |old(w.sent)| <= attempt * Groups(|want|)
    {
      if outstanding == [] {
        MoreRoom(attempt, j.retries + 1, Groups(|want|));
        return Ok(()), st, rej, c;
      }
      var got: set<BlobId>;
      ghost var d;
      ghost var was := w.sent;
      ghost var before := Request(j, goal, kind, outstanding, j.retries + 1 - attempt, st, rej);
      r, got, st, rej, d := OneAttempt(w, lib, j, goal, kind, outstanding, j.retries + 1 - attempt, st, rej);
      ghost var end := NextAttempt(lib, j, goal, kind, Without(outstanding, got), j.retries - attempt, st, rej);
      MirrorsAppend(lib, j, start, c, old(w.sent), was, before, d, w.sent, r, end);
      assert old(w.taken) + c + d == old(w.taken) + (c + d);
      c := c + d;
      GroupsMonotone(|outstanding|, |want|);
      assert (attempt + 1) * Groups(|want|) == attempt * Groups(|want|) + Groups(|want|);
      MoreRoom(attempt + 1, j.retries + 1, Groups(|want|));
      if !r.Ok? { return r, st, rej, c; }
      WithoutSpec(outstanding, got);
      outstanding := Without(outstanding, got);
      attempt := attempt + 1;
    }
    r := if outstanding == [] then Ok(()) else Err(Missing);
  }

  lemma MoreRoom(a: nat, b: nat, g: nat)
    requires a <= b
    ensures a * g <= b * g
  {
  }

  /** One attempt: every group is requested and its reply read. */
  method OneAttempt(w: Wire, lib: Lib, j: Job, ghost goal: Goal, kind: Kind, outstanding: seq<BlobId>, ghost left: nat,
                    st0: Store, rej0: nat)
    returns (r: Res<()>, got: set<BlobId>, st: Store, rej: nat, ghost c: seq<Frame>)
    requires outstanding != [] && left > 0
    modifies w
    ensures w.taken == old(w.taken) + c
    ensures Mirrors(lib, j, Request(j, goal, kind, outstanding, left, st0, rej0), c, old(w.sent), w.sent, r,
                    NextAttempt(lib, j, goal, kind, Without(outstanding, got), left - 1, st, rej))
    ensures |w.sent| - |old(w.sent)| <= Groups(|outstanding|)
  {
    hide PullTake, FetchEnded, PullRun, Emitted, Awaited;
    ghost var start := Request(j, goal, kind, outstanding, left, st0, rej0);
    got, st, rej, c := {}, st0, rej0, [];
    var rest := outstanding;
    TracksStart(lib, j, start, w.sent);
    while rest != []
      invariant w.taken == old(w.taken) + c
      invariant rest != [] ==>
            Tracks(lib, j, start, c, old(w.sent), w.sent, GroupStep(j, goal, kind, outstanding, rest, got, left, st,
                                                                    rej))
      invariant rest == [] ==> Tracks(lib, j, start, c, old(w.sent), w.sent,
                                      NextAttempt(lib, j, goal, kind, Without(outstanding, got), left - 1, st, rej))
      invariant |w.sent| - |old(w.sent)| + Groups(|rest|) <= Groups(|outstanding|)
      decreases |rest|
    {
      GroupsStep(rest);
      var ask := AskItems(j.folder, Keyed(kind, Take(rest, MAX_ITEMS)));
      ghost var was := w.sent;
      w.Send(ask);
      ghost var p := Fetch(goal, kind, outstanding, Drop(rest, MAX_ITEMS), got, 0, left);
      ghost var step := GroupStep(j, goal, kind, outstanding, rest, got, left, st, rej);
      var rr;
      ghost var d;
      rr, st, rej, d := ReadItemBatches(w, lib, j, p, st, rej, [ask]);
      assert old(w.taken) + c + d == old(w.taken) + (c + d);
      RunAppend(lib, j, start, c, d);
      assert Emitted(lib, j, start, c + d) == Emitted(lib, j, start, c) + Emitted(lib, j, step, d);
      c := c + d;
      match rr
      case Err(e) => return Err(e), got, st, rej, c;
      case Closed => return Closed, got, st, rej, c;
      case Ok(g) =>
        got := got + g;
        rest := Drop(rest, MAX_ITEMS);
    }
    r := Ok(());
  }

  /** The machine about to send the request for the next group. */
  function GroupStep(j: Job, goal: Goal, kind: Kind, outstanding: seq<BlobId>, rest: seq<BlobId>, got: set<BlobId>,
                     left: nat, st: Store, rej: nat): PullStep {
    Ask(Fetch(goal, kind, outstanding, Drop(rest, MAX_ITEMS), got, 0, left), st, rej,
        [AskItems(j.folder, Keyed(kind, Take(rest, MAX_ITEMS)))])
  }

  // ---- the breadth-first walk --------------------------------------------------------

  /** Visit every entry of every node of a level: new children are queued, chunks noted. */
  method VisitLevel(lib: Lib, st: Store, level: seq<BlobId>, walk0: Walk) returns (r: Scan)
    ensures r == ScanLevel(lib, st, level, [], walk0)
  {
    var queue: seq<BlobId>, walk := [], walk0;
    var i := 0;
    while i < |level|
      invariant 0 <= i <= |level|
      invariant ScanLevel(lib, st, level[i..], queue, walk) == ScanLevel(lib, st, level, [], walk0)
    {
      var id := level[i];
      assert level[i..][0] == id && level[i..][1..] == level[i + 1..];
      if !Has(st, TreeNode, id) { return ScanErr(Io); }
      var node := lib.node(st.blobs[(TreeNode, id)]);
      if node.None? { return ScanErr(Violation); }
      var ps := node.value;
      ghost var end := ScanNode(ps, queue, walk);
      var k := 0;
      while k < |ps|
        invariant 0 <= k <= |ps|
        invariant ScanNode(ps[k..], queue, walk) == end
      {
        assert ps[k..][0] == ps[k] && ps[k..][1..] == ps[k + 1..];
        match ps[k] {
          case DirOf(child) =>
            if child !in walk.enqueued {
              walk := walk.(enqueued := walk.enqueued + {child});
              queue := queue + [child];
            }
          case FileOf(_, chunks) => walk := walk.(chunks := walk.chunks + ChunkIds(chunks));
          case LinkOf(_) =>
        }
        k := k + 1;
      }
      assert ps[k..] == [];
      i := i + 1;
    }
    assert level[i..] == [];
    return Scanned(queue, walk);
  }

  // ---- fetch_via_packs ---------------------------------------------------------------

  /** The packs sent in reply to one request, up to the terminator. */
  method ReadPackFrames(w: Wire, lib: Lib, j: Job, ghost p: Pull, wanted: seq<BlobId>, satisfied0: set<BlobId>,
                        st0: Store, rej0: nat, ghost out: seq<Frame>)
    returns (r: Res<set<BlobId>>, st: Store, rej: nat, ghost c: seq<Frame>)
    requires p.PackFetch? && p.frames == 0 && p.wanted == wanted && p.satisfied == satisfied0
    modifies w
    ensures w.taken == old(w.taken) + c && w.sent == old(w.sent) && Awaited(lib, j, Ask(p, st0, rej0, out), c)
    ensures var start := Ask(p, st0, rej0, out);
            match r
            case Ok(satisfied) =>
              && Emitted(lib, j, start, c) == out
              && PullRun(lib, j, start, c) == NextPacks(lib, j, p.walk, wanted, p.unsent, satisfied, st, rej)
            case Err(e) => PullRun(lib, j, start, c) == Stop(e) && Emitted(lib, j, start, c) == out
            case Closed => var s := PullRun(lib, j, start, c); s.Ask? && Emitted(lib, j, start, c) + s.out == out
  {
    hide NextPacks, StartPacks, FetchEnded, PullRun, Emitted, Awaited, Adopt, Arrived;
    ghost var start := Ask(p, st0, rej0, out);
    RunNone(lib, j, start);
    st, rej, c := st0, rej0, [];
    var satisfied := satisfied0;
    var frames := 0;
    ghost var o := out;
    while true
      invariant w.taken == old(w.taken) + c && w.sent == old(w.sent)
      invariant 0 <= frames < MAX_PACK_FRAMES
      invariant o == if c == [] then out else []
      invariant PullRun(lib, j, start, c) == Ask(p.(satisfied := satisfied, frames := frames), st, rej, o)
      invariant Emitted(lib, j, start, c) == (if c == [] then [] else out) && Awaited(lib, j, start, c)
      decreases |w.inbox|
    {
      frames := frames + 1;
      var m := w.Recv();
      if m.None? { return Closed, st, rej, c; }
      var f := m.value;
      ghost var step := PullRun(lib, j, start, c);
      RunAppend(lib, j, start, c, [f]);
      RunOne(lib, j, step, f);
      assert old(w.taken) + c + [f] == old(w.taken) + (c + [f]);
      c := c + [f];
      if !InCaps(f) || !(f.PackFile? || f.Items?) { return Err(Violation), st, rej, c; }
      if f.Items? {
        if f.batch == [] { return Ok(satisfied), st, rej, c; }
        return Err(Violation), st, rej, c;
      }
      if lib.hash(f.bytes) != f.name {
        rej := rej + 1;
      } else {
        var inside := lib.pack(f.bytes);
        if inside.None? { return Err(Io), st, rej, c; }
        st := Adopt(lib, st, f.name, f.bytes, inside.value);
        satisfied := satisfied + Arrived(j, wanted, f.name, st);
      }
      o := [];
      if frames >= MAX_PACK_FRAMES { return Err(Limit), st, rej, c; }
    }
  }

  /** Ask for the packs that hold enough of what is wanted, in groups. */
  method FetchViaPacks(w: Wire, lib: Lib, j: Job, ghost walk: Walk, wanted: seq<BlobId>, st0: Store, rej0: nat)
    returns (r: Res<set<BlobId>>, st: Store, rej: nat, ghost c: seq<Frame>)
    requires wanted == Lacking(st0, lib.sorted(walk.chunks))
    modifies w
    ensures w.taken == old(w.taken) + c
    ensures Mirrors(lib, j, StartPacks(lib, j, walk, st0, rej0), c, old(w.sent), w.sent, r,
                    AfterPacks(lib, j, walk, wanted, if r.Ok? then r.value else {}, st, rej))
  {
    hide PullTake, FetchEnded, PullRun, Emitted, Awaited, AfterPacks;
    ghost var start := StartPacks(lib, j, walk, st0, rej0);
    st, rej, c := st0, rej0, [];
    var satisfied: set<BlobId> := {};
    TracksStart(lib, j, start, w.sent);
    if j.gran.ItemsOnly? || wanted == [] { return Ok(satisfied), st, rej, c; }
    var rest := PacksWorthAsking(lib, j, wanted);
    while rest != []
      invariant w.taken == old(w.taken) + c
      invariant Tracks(lib, j, start, c, old(w.sent), w.sent, NextPacks(lib, j, walk, wanted, rest, satisfied, st, rej))
      decreases |rest|
    {
      var ask := AskPacks(j.folder, Take(rest, MAX_PACKS));
      ghost var step := NextPacks(lib, j, walk, wanted, rest, satisfied, st, rej);
      w.Send(ask);
      var rr;
      ghost var d;
      rr, st, rej, d := ReadPackFrames(w, lib, j, step.pull, wanted, satisfied, st, rej, [ask]);
      assert old(w.taken) + c + d == old(w.taken) + (c + d);
      RunAppend(lib, j, start, c, d);
      c := c + d;
      match rr
      case Err(e) => return Err(e), st, rej, c;
      case Closed => return Closed, st, rej, c;
      case Ok(s) =>
        satisfied := s;
        rest := Drop(rest, MAX_PACKS);
    }
    r := Ok(satisfied);
  }

  // ---- pull_folder -------------------------------------------------------------------

  /** The walk: fetch a level, visit it, until no new node turns up. */
  method WalkTree(w: Wire, lib: Lib, j: Job, root: BlobId, st0: Store, rej0: nat)
    returns (r: Res<Walk>, st: Store, rej: nat, ghost c: seq<Frame>)
    modifies w
    ensures w.taken == old(w.taken) + c
    ensures Mirrors(lib, j, NextLevel(lib, j, [root], Walk({root}, {}), 0, st0, rej0), c, old(w.sent), w.sent, r,
                    StartPacks(lib, j, if r.Ok? then r.value else Walk({}, {}), st, rej))
  {
    hide PullTake, PullRun, Emitted, Awaited, StartPacks;
    ghost var start := NextLevel(lib, j, [root], Walk({root}, {}), 0, st0, rej0);
    var queue, walk, rounds := [root], Walk({root}, {}), 0;
    st, rej, c := st0, rej0, [];
    TracksStart(lib, j, start, w.sent);
    while queue != []
      invariant 0 <= rounds <= BUDGET && w.taken == old(w.taken) + c
      invariant Tracks(lib, j, start, c, old(w.sent), w.sent, NextLevel(lib, j, queue, walk, rounds, st, rej))
      decreases BUDGET - rounds
    {
      rounds := rounds + 1;
      if rounds > BUDGET { return Err(Missing), st, rej, c; }
      var level := queue;
      ghost var was := w.sent;
      ghost var goal := ForNodes(level, walk, rounds);
      ghost var step := Request(j, goal, TreeNode, level, j.retries + 1, st, rej);
      var rr;
      ghost var d;
      rr, st, rej, d := FetchBlobs(w, lib, j, goal, TreeNode, level, st, rej);
      MirrorsAppend(lib, j, start, c, old(w.sent), was, step, d, w.sent, rr, FetchEnded(lib, j, goal, st, rej));
      assert old(w.taken) + c + d == old(w.taken) + (c + d);
      c := c + d;
      match rr {
        case Err(e) => return Err(e), st, rej, c;
        case Closed => return Closed, st, rej, c;
        case Ok(_) =>
      }
      var scan := VisitLevel(lib, st, level, walk);
      match scan {
        case ScanErr(e) => return Err(e), st, rej, c;
        case Scanned(q, wk) => queue, walk := q, wk;
      }
    }
    r := Ok(walk);
  }

  /** pull_folder. It ends well exactly as the machine does on the frames it was given, and by
      then the local store holds the target's tree, whoever the peer is. */
  method PullFolder(w: Wire, lib: Lib, j: Job, st0: Store, rej0: nat)
    returns (r: Res<()>, st: Store, rej: nat, ghost c: seq<Frame>)
    requires Lawful(lib) && Sound(lib, st0)
    modifies w
    ensures w.taken == old(w.taken) + c
    ensures Mirrors(lib, j, StartPull(lib, j, st0, rej0), c, old(w.sent), w.sent, r, Ended(st, rej))
    ensures r.Ok? ==> Sound(lib, st) && Extends(st0, st) && HoldsTree(lib, st, j.target)
    ensures r.Ok? && AllHonestKinds(lib, j, StartPull(lib, j, st0, rej0), c) ==> HoldsClosure(lib, st, j.target)
  {
    r, st, rej, c := PullSteps(w, lib, j, st0, rej0);
    if r.Ok? { PullCompletes(lib, j, st0, rej0, c, st, rej); }
  }

  method PullSteps(w: Wire, lib: Lib, j: Job, st0: Store, rej0: nat)
    returns (r: Res<()>, st: Store, rej: nat, ghost c: seq<Frame>)
    modifies w
    ensures w.taken == old(w.taken) + c
    ensures Mirrors(lib, j, StartPull(lib, j, st0, rej0), c, old(w.sent), w.sent, r, Ended(st, rej))
  {
    hide PullTake, PullRun, Emitted, Awaited, StartPacks, NextLevel;
    ghost var start := StartPull(lib, j, st0, rej0);
    r, st, rej, c := FetchBlobs(w, lib, j, ForManifest, Manifest, [j.target], st0, rej0);
    if !r.Ok? { return; }
    if !Has(st, Manifest, j.target) { return Err(Io), st, rej, c; }
    var root := lib.root(st.blobs[(Manifest, j.target)]);
    if root.None? { return Err(Violation), st, rej, c; }

    ghost var was := w.sent;
    ghost var step := NextLevel(lib, j, [root.value], Walk({root.value}, {}), 0, st, rej);
    var rw;
    ghost var d;
    rw, st, rej, d := WalkTree(w, lib, j, root.value, st, rej);
    ghost var after := StartPacks(lib, j, if rw.Ok? then rw.value else Walk({}, {}), st, rej);
    MirrorsAppend(lib, j, start, c, old(w.sent), was, step, d, w.sent, rw, after);
    assert old(w.taken) + c + d == old(w.taken) + (c + d);
    c := c + d;
    if rw.Err? { return Err(rw.e), st, rej, c; }
    if rw.Closed? { return Closed, st, rej, c; }
    was := w.sent;
    r, st, rej, d := PullChunks(w, lib, j, rw.value, st, rej);
    MirrorsAppend(lib, j, start, c, old(w.sent), was, after, d, w.sent, r, Ended(st, rej));
    assert old(w.taken) + c + d == old(w.taken) + (c + d);
    c := c + d;
  }

  /** The chunks that are missing: whole packs first, then one by one. */
  method PullChunks(w: Wire, lib: Lib, j: Job, walk: Walk, st0: Store, rej0: nat)
    returns (r: Res<()>, st: Store, rej: nat, ghost c: seq<Frame>)
    modifies w
    ensures w.taken == old(w.taken) + c
    ensures Mirrors(lib, j, StartPacks(lib, j, walk, st0, rej0), c, old(w.sent), w.sent, r, Ended(st, rej))
  {
    hide PullTake, PullRun, Emitted, Awaited, StartPacks;
    ghost var start := StartPacks(lib, j, walk, st0, rej0);
    var wanted := Lacking(st0, lib.sorted(walk.chunks));
    var rp;
    rp, st, rej, c := FetchViaPacks(w, lib, j, walk, wanted, st0, rej0);
    if rp.Err? { return Err(rp.e), st, rej, c; }
    if rp.Closed? { return Closed, st, rej, c; }
    var leftover := Without(wanted, rp.value);
    if leftover == [] { return Ok(()), st, rej, c; }
    ghost var was := w.sent;
    ghost var step := Request(j, ForChunks(walk), DataChunk, leftover, j.retries + 1, st, rej);
    ghost var d;
    r, st, rej, d := FetchBlobs(w, lib, j, ForChunks(walk), DataChunk, leftover, st, rej);
    MirrorsAppend(lib, j, start, c, old(w.sent), was, step, d, w.sent, r, Ended(st, rej));
    assert old(w.taken) + c + d == old(w.taken) + (c + d);
    c := c + d;
  }
}
