/** What a pull guarantees about the local store, whatever the peer sends. */
module PullSafety {
  import opened Blobs
  import opened Engine

  predicate HeldSomehow(st: Store, id: BlobId) {
    Has(st, DataChunk, id) || Has(st, TreeNode, id) || Has(st, Manifest, id) || Has(st, Polynomial, id)
  }

  /** Received under the kind that was asked for; or, of a peer that labels items as it likes,
      under some kind. */
  predicate Received(st: Store, strict: bool, kind: Kind, id: BlobId) {
    if strict then Has(st, kind, id) else HeldSomehow(st, id)
  }

  /** The frame's items carry the requested kind, as `serve_items` sends them. */
  ghost predicate HonestKinds(p: Pull, f: Frame) {
    p.Fetch? && f.Items? ==> forall it :: it in f.batch ==> it.0 == p.kind
  }

  /** The walk so far: all enqueued nodes but those in `todo` are held and looked at. */
  ghost predicate Walked(lib: Lib, j: Job, st: Store, walk: Walk, todo: set<BlobId>) {
    && RootAt(lib, st, j.target).Some? && RootAt(lib, st, j.target).value in walk.enqueued
    && todo <= walk.enqueued
    && forall id :: id in walk.enqueued && id !in todo ==>
         && NodeAt(lib, st, id).Some?
         && Children(NodeAt(lib, st, id).value) <= walk.enqueued
         && Chunks(NodeAt(lib, st, id).value) <= walk.chunks
  }

  ghost predicate PullInv(lib: Lib, j: Job, strict: bool, p: Pull, st: Store) {
    match p
    case Fetch(goal, kind, outstanding, unsent, got, batches, left) =>
      && (forall id :: id in got ==> Received(st, strict, kind, id))
      && (match goal
          case ForManifest => kind == Manifest
          case ForNodes(level, walk, _) =>
            kind == TreeNode && Distinct(level) && Walked(lib, j, st, walk, Elements(level))
          case ForChunks(walk) =>
            && kind == DataChunk && Walked(lib, j, st, walk, {})
            && forall c :: c in walk.chunks ==> Received(st, strict, DataChunk, c) || c in outstanding)
    case PackFetch(walk, wanted, unsent, satisfied, frames) =>
      && Walked(lib, j, st, walk, {})
      && (forall c :: c in walk.chunks ==> Has(st, DataChunk, c) || c in wanted)
      && (forall c :: c in satisfied ==> Has(st, DataChunk, c))
  }

  function Elements<T>(s: seq<T>): set<T> { set x | x in s }

  /** The manifest, every node reachable from it, and every chunk they name. */
  ghost predicate Complete(lib: Lib, st: Store, manifest: BlobId, strict: bool) {
    && RootAt(lib, st, manifest).Some?
    && exists ids ::
         RootAt(lib, st, manifest).value in ids && ClosedNodes(lib, st, ids) && ChunksReceived(lib, st, ids, strict)
  }

  ghost predicate ChunksReceived(lib: Lib, st: Store, ids: set<BlobId>, strict: bool)
    requires ClosedNodes(lib, st, ids)
  {
    forall id, c :: id in ids && c in Chunks(NodeAt(lib, st, id).value) ==> Received(st, strict, DataChunk, c)
  }

  ghost predicate StepInv(lib: Lib, j: Job, strict: bool, before: Store, step: PullStep) {
    match step
    case Stop(_) => true
    case Ask(p, st, _, _) => Sound(lib, st) && Extends(before, st) && PullInv(lib, j, strict, p, st)
    case Ended(st, _) => Sound(lib, st) && Extends(before, st) && Complete(lib, st, j.target, strict)
  }

  lemma {:induction false} TakeInKeeps(lib: Lib, batch: seq<Item>, st: Store, got: set<BlobId>, rej: nat, strict: bool,
                                       kind: Kind)
    requires Sound(lib, st)
    requires strict ==> forall it :: it in batch ==> it.0 == kind
    requires forall id :: id in got ==> Received(st, strict, kind, id)
    ensures var r := TakeIn(lib, batch, st, got, rej);
            r.Intake? ==>
              && Sound(lib, r.st) && Extends(st, r.st) && got <= r.got
              && (forall id :: id in r.got ==> Received(r.st, strict, kind, id))
    decreases |batch|
  {
    if batch != [] {
      var (k, id, bytes) := batch[0];
      assert batch[0] in batch;
      if lib.hash(bytes) != id {
        TakeInKeeps(lib, batch[1..], st, got, rej + 1, strict, kind);
      } else if bytes != [] {
        var st1 := Put(st, k, id, bytes);
        forall x | x in got + {id} ensures Received(st1, strict, kind, x) {
          assert Has(st1, k, id) && (strict ==> k == kind);
          match k case DataChunk => case TreeNode => case Manifest => case Polynomial =>
        }
        TakeInKeeps(lib, batch[1..], st1, got + {id}, rej, strict, kind);
      }
    }
  }

  lemma WalkedExtends(lib: Lib, j: Job, a: Store, b: Store, walk: Walk, todo: set<BlobId>)
    requires Extends(a, b) && Walked(lib, j, a, walk, todo)
    ensures Walked(lib, j, b, walk, todo)
  {
    assert (Manifest, j.target) in a.blobs;
    forall id | id in walk.enqueued && id !in todo ensures NodeAt(lib, b, id) == NodeAt(lib, a, id) {
      assert (TreeNode, id) in a.blobs;
    }
  }

  // ---- visiting nodes ----------------------------------------------------------------

  lemma {:induction false} ScanNodeSpec(ps: seq<Payload>, queue: seq<BlobId>, walk: Walk)
    requires Distinct(queue) && Elements(queue) <= walk.enqueued
    ensures var r := ScanNode(ps, queue, walk);
            && Distinct(r.0) && queue <= r.0 && Elements(r.0) <= r.1.enqueued
            && r.1.enqueued == walk.enqueued + Children(ps)
            && r.1.chunks == walk.chunks + Chunks(ps)
            && Elements(r.0) == Elements(queue) + (r.1.enqueued - walk.enqueued)
    decreases |ps|
  {
    if ps != [] {
      var rest := ps[1..];
      assert ps == [ps[0]] + rest;
      match ps[0]
      case DirOf(child) =>
        assert Children(ps) == {child} + Children(rest) by {
          assert ps[0] in ps;
        }
        assert Chunks(ps) == Chunks(rest);
        if child in walk.enqueued {
          ScanNodeSpec(rest, queue, walk);
        } else {
          ScanNodeSpec(rest, queue + [child], walk.(enqueued := walk.enqueued + {child}));
        }
      case FileOf(_, chunks) =>
        assert Children(ps) == Children(rest);
        assert Chunks(ps) == ChunkIds(chunks) + Chunks(rest) by {
          assert ps[0] in ps;
        }
        ScanNodeSpec(rest, queue, walk.(chunks := walk.chunks + ChunkIds(chunks)));
      case LinkOf(_) =>
        assert Children(ps) == Children(rest) && Chunks(ps) == Chunks(rest);
        ScanNodeSpec(rest, queue, walk);
    }
  }

  /** Scanning a level: the nodes leave `todo`, new children join it, and the ids queued are
      exactly the ones never enqueued before, each once. */
  lemma {:induction false} ScanLevelSpec(lib: Lib, j: Job, st: Store, level: seq<BlobId>, queue: seq<BlobId>,
                                         walk: Walk)
    requires Distinct(queue) && Walked(lib, j, st, walk, Elements(level) + Elements(queue))
    ensures var r := ScanLevel(lib, st, level, queue, walk);
            r.Scanned? ==>
              && Distinct(r.queue) && Walked(lib, j, st, r.walk, Elements(r.queue))
              && walk.enqueued <= r.walk.enqueued && walk.chunks <= r.walk.chunks
              && Elements(r.queue) == Elements(queue) + (r.walk.enqueued - walk.enqueued)
    decreases |level|
  {
    if level != [] && NodeAt(lib, st, level[0]).Some? {
      var ps := NodeAt(lib, st, level[0]).value;
      ScanNodeSpec(ps, queue, walk);
      var (queue', walk') := ScanNode(ps, queue, walk);
      assert Elements(level) == {level[0]} + Elements(level[1..]) by { assert level == [level[0]] + level[1..]; }
      ScanLevelSpec(lib, j, st, level[1..], queue', walk');
    } else if level == [] {
      assert Elements(level) + Elements(queue) == Elements(queue);
    }
  }

  // ---- every step keeps the invariant --------------------------------------------------

  lemma NextLevelKeeps(lib: Lib, j: Job, strict: bool, queue: seq<BlobId>, walk: Walk, rounds: nat, st: Store, rej: nat)
    requires Lawful(lib) && Sound(lib, st) && Distinct(queue) && Walked(lib, j, st, walk, Elements(queue))
    ensures StepInv(lib, j, strict, st, NextLevel(lib, j, queue, walk, rounds, st, rej))
  {
    if queue == [] {
      assert Elements(queue) == {};
      StartPacksKeeps(lib, j, strict, walk, st, rej);
    }
  }

  lemma {:induction false} LackingSpec(st: Store, ids: seq<BlobId>)
    ensures forall id :: id in Lacking(st, ids) <==> id in ids && !Has(st, DataChunk, id)
  {
    if ids != [] { LackingSpec(st, ids[1..]); }
  }

  lemma {:induction false} WithoutSpec(ids: seq<BlobId>, gone: set<BlobId>)
    ensures forall id :: id in Without(ids, gone) <==> id in ids && id !in gone
    ensures |Without(ids, gone)| <= |ids|
  {
    if ids != [] { WithoutSpec(ids[1..], gone); }
  }

  lemma StartPacksKeeps(lib: Lib, j: Job, strict: bool, walk: Walk, st: Store, rej: nat)
    requires Lawful(lib) && Sound(lib, st) && Walked(lib, j, st, walk, {})
    ensures StepInv(lib, j, strict, st, StartPacks(lib, j, walk, st, rej))
  {
    var wanted := Lacking(st, lib.sorted(walk.chunks));
    LackingSpec(st, lib.sorted(walk.chunks));
    if j.gran.ItemsOnly? || wanted == [] {
      AfterPacksKeeps(lib, j, strict, walk, wanted, {}, st, rej);
    } else {
      NextPacksKeeps(lib, j, strict, walk, wanted, PacksWorthAsking(lib, j, wanted), {}, st, rej);
    }
  }

  lemma NextPacksKeeps(lib: Lib, j: Job, strict: bool, walk: Walk, wanted: seq<BlobId>, packs: seq<BlobId>,
                       satisfied: set<BlobId>, st: Store, rej: nat)
    requires Sound(lib, st) && Walked(lib, j, st, walk, {})
    requires forall c :: c in walk.chunks ==> Has(st, DataChunk, c) || c in wanted
    requires forall c :: c in satisfied ==> Has(st, DataChunk, c)
    ensures StepInv(lib, j, strict, st, NextPacks(lib, j, walk, wanted, packs, satisfied, st, rej))
  {
    if packs == [] { AfterPacksKeeps(lib, j, strict, walk, wanted, satisfied, st, rej); }
  }

  lemma AfterPacksKeeps(lib: Lib, j: Job, strict: bool, walk: Walk, wanted: seq<BlobId>, satisfied: set<BlobId>,
                        st: Store, rej: nat)
    requires Sound(lib, st) && Walked(lib, j, st, walk, {})
    requires forall c :: c in walk.chunks ==> Has(st, DataChunk, c) || c in wanted
    requires forall c :: c in satisfied ==> Has(st, DataChunk, c)
    ensures StepInv(lib, j, strict, st, AfterPacks(lib, j, walk, wanted, satisfied, st, rej))
  {
    WithoutSpec(wanted, satisfied);
    if Without(wanted, satisfied) == [] {
      CompleteFrom(lib, j, strict, walk, st);
    }
  }

  lemma CompleteFrom(lib: Lib, j: Job, strict: bool, walk: Walk, st: Store)
    requires Walked(lib, j, st, walk, {})
    requires forall c :: c in walk.chunks ==> Received(st, strict, DataChunk, c)
    ensures Complete(lib, st, j.target, strict)
  {
    var ids := walk.enqueued;
    assert ClosedNodes(lib, st, ids);
    assert ChunksReceived(lib, st, ids, strict) by {
      forall id, c | id in ids && c in Chunks(NodeAt(lib, st, id).value) ensures Received(st, strict, DataChunk, c) {
        assert c in walk.chunks;
      }
    }
  }

  lemma FetchEndedKeeps(lib: Lib, j: Job, strict: bool, p: Pull, st: Store, rej: nat)
    requires Lawful(lib) && Sound(lib, st) && p.Fetch? && PullInv(lib, j, strict, p, st)
    requires p.goal.ForChunks? ==> forall c :: c in p.goal.walk.chunks ==> Received(st, strict, DataChunk, c)
    ensures StepInv(lib, j, strict, st, FetchEnded(lib, j, p.goal, st, rej))
  {
    match p.goal
    case ForManifest =>
      if RootAt(lib, st, j.target).Some? {
        var root := RootAt(lib, st, j.target).value;
        assert Elements([root]) == {root};
        NextLevelKeeps(lib, j, strict, [root], Walk({root}, {}), 0, st, rej);
      }
    case ForNodes(level, walk, rounds) =>
      assert Elements(level) + Elements<BlobId>([]) == Elements(level);
      ScanLevelSpec(lib, j, st, level, [], walk);
      var r := ScanLevel(lib, st, level, [], walk);
      if r.Scanned? {
        NextLevelKeeps(lib, j, strict, r.queue, r.walk, rounds, st, rej);
      }
    case ForChunks(walk) =>
      CompleteFrom(lib, j, strict, walk, st);
  }

  lemma AdoptKeeps(lib: Lib, st: Store, name: BlobId, bytes: Bytes, inside: map<(Kind, BlobId), Bytes>)
    requires Sound(lib, st)
    ensures Sound(lib, Adopt(lib, st, name, bytes, inside)) && Extends(st, Adopt(lib, st, name, bytes, inside))
  {
  }

  lemma FetchInvExtends(lib: Lib, j: Job, strict: bool, p: Pull, a: Store, b: Store)
    requires p.Fetch? && Extends(a, b) && PullInv(lib, j, strict, p, a)
    ensures PullInv(lib, j, strict, p, b)
  {
    match p.goal
    case ForManifest =>
    case ForNodes(level, walk, _) => WalkedExtends(lib, j, a, b, walk, Elements(level));
    case ForChunks(walk) => WalkedExtends(lib, j, a, b, walk, {});
  }

  lemma StartKeeps(lib: Lib, j: Job, strict: bool, st: Store, rej: nat)
    requires Sound(lib, st)
    ensures StepInv(lib, j, strict, st, StartPull(lib, j, st, rej))
  {
  }

  /** Whatever frame arrives, the pull keeps its invariant; if it ends, the local store is
      complete. Under `strict` the frame's items carry the requested kind. */
  lemma ReactKeeps(lib: Lib, j: Job, strict: bool, p: Pull, st: Store, rej: nat, f: Frame)
    requires Lawful(lib) && Sound(lib, st) && PullInv(lib, j, strict, p, st)
    requires strict ==> HonestKinds(p, f)
    ensures StepInv(lib, j, strict, st, PullReact(lib, j, p, st, rej, f))
  {
    match p
    case Fetch(goal, kind, outstanding, unsent, got, batches, left) =>
      if f.Items? && f.batch == [] && unsent == [] {
        WithoutSpec(outstanding, got);
        if Without(outstanding, got) == [] { FetchEndedKeeps(lib, j, strict, p, st, rej); }
      } else if f.Items? && f.batch != [] {
        TakeInKeeps(lib, f.batch, st, got, rej, strict, kind);
        var r := TakeIn(lib, f.batch, st, got, rej);
        if r.Intake? { FetchInvExtends(lib, j, strict, p, st, r.st); }
      }
    case PackFetch(walk, wanted, unsent, satisfied, frames) =>
      if f.Items? && f.batch == [] {
        NextPacksKeeps(lib, j, strict, walk, wanted, unsent, satisfied, st, rej);
      } else if f.PackFile? && lib.hash(f.bytes) == f.name && lib.pack(f.bytes).Some? {
        AdoptKeeps(lib, st, f.name, f.bytes, lib.pack(f.bytes).value);
        WalkedExtends(lib, j, st, Adopt(lib, st, f.name, f.bytes, lib.pack(f.bytes).value), walk, {});
      }
  }

  // ---- whole pulls -------------------------------------------------------------------

  /** A pull against a peer that sends these frames, whatever they are. */
  function PullRun(lib: Lib, j: Job, step: PullStep, fs: seq<Frame>): PullStep
    decreases |fs|
  {
    if fs == [] || !step.Ask? then step
    else PullRun(lib, j, PullTake(lib, j, step.pull, step.st, step.rejections, fs[0]), fs[1..])
  }

  ghost predicate AllHonestKinds(lib: Lib, j: Job, step: PullStep, fs: seq<Frame>)
    decreases |fs|
  {
    fs == [] || !step.Ask? ||
    (HonestKinds(step.pull, fs[0])
     && AllHonestKinds(lib, j, PullTake(lib, j, step.pull, step.st, step.rejections, fs[0]), fs[1..]))
  }

  lemma {:induction false} RunKeeps(lib: Lib, j: Job, strict: bool, before: Store, step: PullStep, fs: seq<Frame>)
    requires Lawful(lib) && StepInv(lib, j, strict, before, step)
    requires strict ==> AllHonestKinds(lib, j, step, fs)
    ensures StepInv(lib, j, strict, before, PullRun(lib, j, step, fs))
    decreases |fs|
  {
    if fs != [] && step.Ask? {
      ReactKeeps(lib, j, strict, step.pull, step.st, step.rejections, fs[0]);
      RunKeeps(lib, j, strict, before, PullTake(lib, j, step.pull, step.st, step.rejections, fs[0]), fs[1..]);
    }
  }

  /** If a pull ends well against any peer, the store has only grown, holds nothing that does
      not hash to its id, and holds the target manifest and every tree node reachable from it.
      Every chunk they name was received; it is held as a chunk if the peer labels its replies
      with the requested kind. */
  lemma PullCompletes(lib: Lib, j: Job, st: Store, rej: nat, fs: seq<Frame>, st': Store, rej': nat)
    requires Lawful(lib) && Sound(lib, st)
    requires PullRun(lib, j, StartPull(lib, j, st, rej), fs) == Ended(st', rej')
    ensures Sound(lib, st') && Extends(st, st') && HoldsTree(lib, st', j.target)
    ensures Complete(lib, st', j.target, false)
    ensures AllHonestKinds(lib, j, StartPull(lib, j, st, rej), fs) ==> HoldsClosure(lib, st', j.target)
  {
    StartKeeps(lib, j, false, st, rej);
    RunKeeps(lib, j, false, st, StartPull(lib, j, st, rej), fs);
    if AllHonestKinds(lib, j, StartPull(lib, j, st, rej), fs) {
      StartKeeps(lib, j, true, st, rej);
      RunKeeps(lib, j, true, st, StartPull(lib, j, st, rej), fs);
      CompleteIsClosure(lib, st', j.target);
    }
  }

  lemma CompleteIsClosure(lib: Lib, st: Store, manifest: BlobId)
    requires Complete(lib, st, manifest, true)
    ensures HoldsClosure(lib, st, manifest)
  {
    var ids :| RootAt(lib, st, manifest).value in ids && ClosedNodes(lib, st, ids)
      && ChunksReceived(lib, st, ids, true);
    assert ChunksHeld(lib, st, ids) by {
      forall id, c | id in ids && c in Chunks(NodeAt(lib, st, id).value) ensures Has(st, DataChunk, c) {
        assert Received(st, true, DataChunk, c);
      }
    }
  }

  // ---- when the closure is there ---------------------------------------------------------

  /** This frame, at this point of the pull, delivers the chunk `c`: as an item that hashes to
      it and is labelled a chunk, or readable inside a pack that hashes to its name. */
  ghost predicate Brings(lib: Lib, p: Pull, f: Frame, c: BlobId) {
    match p
    case Fetch(_, _, _, _, _, _, _) => f.Items? && exists bytes ::
      (DataChunk, c, bytes) in f.batch && lib.hash(bytes) == c
    case PackFetch(_, _, _, _, _) =>
      && f.PackFile? && lib.hash(f.bytes) == f.name && lib.pack(f.bytes).Some?
      && var inside := lib.pack(f.bytes).value;
         (DataChunk, c) in inside && inside[(DataChunk, c)] != [] && lib.hash(inside[(DataChunk, c)]) == c
  }

  ghost predicate Arrives(lib: Lib, j: Job, step: PullStep, fs: seq<Frame>, c: BlobId)
    decreases |fs|
  {
    fs != [] && step.Ask? &&
    (Brings(lib, step.pull, fs[0], c)
     || Arrives(lib, j, PullTake(lib, j, step.pull, step.st, step.rejections, fs[0]), fs[1..], c))
  }

  lemma {:induction false} TakeInHas(lib: Lib, batch: seq<Item>, st: Store, got: set<BlobId>, rej: nat, c: BlobId)
    requires TakeIn(lib, batch, st, got, rej).Intake?
    ensures Has(TakeIn(lib, batch, st, got, rej).st, DataChunk, c) <==>
            Has(st, DataChunk, c) || exists bytes :: (DataChunk, c, bytes) in batch && lib.hash(bytes) == c
    decreases |batch|
  {
    if batch != [] {
      var (k, id, bytes) := batch[0];
      assert batch == [batch[0]] + batch[1..];
      if lib.hash(bytes) != id {
        TakeInHas(lib, batch[1..], st, got, rej + 1, c);
      } else {
        TakeInHas(lib, batch[1..], Put(st, k, id, bytes), got + {id}, rej, c);
      }
    }
  }

  lemma NextAttemptStore(lib: Lib, j: Job, goal: Goal, kind: Kind, ids: seq<BlobId>, left: nat, st: Store, rej: nat)
    ensures var r := NextAttempt(lib, j, goal, kind, ids, left, st, rej); r.Stop? || r.st == st
  {
  }

  lemma TakeHas(lib: Lib, j: Job, p: Pull, st: Store, rej: nat, f: Frame, c: BlobId)
    ensures var r := PullTake(lib, j, p, st, rej, f);
            r.Stop? || (Has(r.st, DataChunk, c) <==> Has(st, DataChunk, c) || Brings(lib, p, f, c))
  {
    if p.Fetch? && f.Items? && f.batch == [] {
      NextAttemptStore(lib, j, p.goal, p.kind, Without(p.outstanding, p.got), if p.left == 0
                       then 0 else p.left - 1, st, rej);
    } else if p.Fetch? && f.Items? && TakeIn(lib, f.batch, st, p.got, rej).Intake? {
      TakeInHas(lib, f.batch, st, p.got, rej, c);
    }
  }

  lemma {:induction false} RunHas(lib: Lib, j: Job, step: PullStep, fs: seq<Frame>, c: BlobId)
    requires !PullRun(lib, j, step, fs).Stop? && !step.Stop?
    ensures Has(PullRun(lib, j, step, fs).st, DataChunk, c) <==>
        Has(step.st, DataChunk, c) || Arrives(lib, j, step, fs, c)
    decreases |fs|
  {
    if fs != [] && step.Ask? {
      TakeHas(lib, j, step.pull, step.st, step.rejections, fs[0], c);
      RunHas(lib, j, PullTake(lib, j, step.pull, step.st, step.rejections, fs[0]), fs[1..], c);
    }
  }

  /** Against any peer, a pull that ends well leaves the full closure exactly if every chunk the
      tree names was there before, or came in labelled a chunk, or inside a pack. */
  lemma PullHoldsExactly(lib: Lib, j: Job, st: Store, rej: nat, fs: seq<Frame>, st': Store, rej': nat)
    requires Lawful(lib) && Sound(lib, st)
    requires PullRun(lib, j, StartPull(lib, j, st, rej), fs) == Ended(st', rej')
    ensures HoldsClosure(lib, st', j.target) <==>
            forall c :: TreeNames(lib, st', j.target, c) ==>
              Has(st, DataChunk, c) || Arrives(lib, j, StartPull(lib, j, st, rej), fs, c)
  {
    PullCompletes(lib, j, st, rej, fs, st', rej');
    ClosureExactly(lib, st', j.target);
    forall c
      ensures Has(st', DataChunk, c) <==> Has(st, DataChunk, c) || Arrives(lib, j, StartPull(lib, j, st, rej), fs, c)
    {
      RunHas(lib, j, StartPull(lib, j, st, rej), fs, c);
    }
  }

  // ---- a pull that ends well without its closure -------------------------------------------

  /** One wanted blob, sent under some kind and terminated, ends the fetch. */
  lemma FetchOne(lib: Lib, j: Job, goal: Goal, kind: Kind, left: nat, st: Store, rej: nat, sentAs: Kind, bytes: Bytes,
                 fs: seq<Frame>)
    requires bytes != []
    ensures var id := lib.hash(bytes);
            PullRun(lib, j, Request(j, goal, kind, [id], left, st, rej), [Items([(sentAs, id, bytes)]), Items([])] + fs)
            == PullRun(lib, j, FetchEnded(lib, j, goal, Put(st, sentAs, id, bytes), rej), fs)
  {
    hide FetchEnded;
    var id := lib.hash(bytes);
    var asked := Request(j, goal, kind, [id], left, st, rej);
    var batch := [(sentAs, id, bytes)];
    var st' := Put(st, sentAs, id, bytes);
    assert batch[1..] == [] && TakeIn(lib, batch, st, {}, rej) == Intake(st', {} + {id}, rej);
    var next := PullTake(lib, j, asked.pull, st, rej, Items(batch));
    assert next.pull.got == {id} && next.pull.outstanding == [id] && next.pull.unsent == [];
    assert [id][1..] == [] && Without([id], next.pull.got) == Without([id][1..], next.pull.got) == [];
    var all := [Items(batch), Items([])] + fs;
    assert all[1..] == [Items([])] + fs && ([Items([])] + fs)[1..] == fs;
  }

  /** A peer that holds a one-file tree and labels the file's chunk a polynomial: every reply
      parses and hashes, the pull into an empty store ends well, and the closure is not there. */
  lemma MislabelledPull(lib: Lib, j: Job, rej: nat, manifest: Bytes, node: Bytes, chunk: Bytes, n: nat)
    requires Lawful(lib) && manifest != [] && node != [] && chunk != []
    requires lib.root(manifest) == Some(lib.hash(node))
    requires lib.node(node) == Some([FileOf(n, [(lib.hash(chunk), n)])])
    requires j.target == lib.hash(manifest) && j.gran.ItemsOnly?
    ensures var end := PullRun(lib, j, StartPull(lib, j, Store(map[], map[]), rej),
                               MislabellingPeer(lib, manifest, node, chunk));
            end.Ended? && !HoldsClosure(lib, end.st, j.target)
  {
    hide PullRun, ScanLevel, HoldsClosure;
    var (target, root, c) := (lib.hash(manifest), lib.hash(node), lib.hash(chunk));
    var st0 := Store(map[], map[]);
    var st1 := Put(st0, Manifest, target, manifest);
    var st2 := Put(st1, TreeNode, root, node);
    var st3 := Put(st2, Polynomial, c, chunk);
    var fs := MislabellingPeer(lib, manifest, node, chunk);
    assert fs == [fs[0], fs[1]] + fs[2..] && fs[2..] == [fs[2], fs[3]] + fs[4..] && fs[4..] == [fs[4], fs[5]] + [];
    FetchOne(lib, j, ForManifest, Manifest, j.retries + 1, st0, rej, Manifest, manifest, fs[2..]);
    var walk := Walk({root}, {});
    assert FetchEnded(lib, j, ForManifest, st1, rej)
        == Request(j, ForNodes([root], walk, 1), TreeNode, [root], j.retries + 1, st1, rej);
    FetchOne(lib, j, ForNodes([root], walk, 1), TreeNode, j.retries + 1, st1, rej, TreeNode, node, fs[4..]);
    var walk' := Walk({root}, {c});
    OneFile(lib, j, st2, root, n, c, walk, rej);
    FetchOne(lib, j, ForChunks(walk'), DataChunk, j.retries + 1, st2, rej, Polynomial, chunk, []);
    RunOver(lib, j, FetchEnded(lib, j, ForChunks(walk'), st3, rej));
    NotHeld(lib, st3, target, root, n, c);
  }

  lemma NotHeld(lib: Lib, st: Store, target: BlobId, root: BlobId, n: nat, c: BlobId)
    requires RootAt(lib, st, target) == Some(root) && NodeAt(lib, st, root) == Some([FileOf(n, [(c, n)])])
    requires !Has(st, DataChunk, c)
    ensures !HoldsClosure(lib, st, target)
  {
    var ps := [FileOf(n, [(c, n)])];
    assert c in Chunks(ps) by { assert ps[0] in ps && (c, n) in ps[0].chunks; }
    if HoldsClosure(lib, st, target) {
      ClosureCoversPaths(lib, st, target, [root]);
      assert false;
    }
  }

  lemma RunOver(lib: Lib, j: Job, step: PullStep)
    ensures PullRun(lib, j, step, []) == step
  {
  }

  function MislabellingPeer(lib: Lib, manifest: Bytes, node: Bytes, chunk: Bytes): seq<Frame> {
    [Items([(Manifest, lib.hash(manifest), manifest)]), Items([]),
     Items([(TreeNode, lib.hash(node), node)]), Items([]),
     Items([(Polynomial, lib.hash(chunk), chunk)]), Items([])]
  }

  /** The empty and every other set in some order. */
  ghost function Listed(s: set<BlobId>): (r: seq<BlobId>)
    ensures Distinct(r) && forall x :: x in s <==> x in r
  {
    if s == {} then [] else var x :| x in s; [x] + Listed(s - {x})
  }

  /** Such a library exists: bytes are their own ids, [1] is a manifest with root [2], and [2] a
      node with one file of the one chunk [3]. */
  lemma MislabelledExists(rej: nat)
    ensures exists lib, j, fs ::
      && Lawful(lib) && CollisionFree(lib)
      && var end := PullRun(lib, j, StartPull(lib, j, Store(map[], map[]), rej), fs);
         end.Ended? && !HoldsClosure(lib, end.st, j.target)
  {
    hide PullRun, HoldsClosure;
    var lib := Lib(
      (b: Bytes) => b, (b: Bytes) => if b == [1] then Some([2]) else None,
      (b: Bytes) => if b == [2] then Some([FileOf(1, [([3], 1)])]) else None, (b: Bytes) => None,
      (s: set<BlobId>) => Listed(s));
    var j := Job([0], [1], map[], ItemsOnly, 0);
    MislabelledPull(lib, j, rej, [1], [2], [3], 1);
  }

  lemma OneFile(lib: Lib, j: Job, st: Store, root: BlobId, n: nat, c: BlobId, walk: Walk, rej: nat)
    requires Lawful(lib) && j.gran.ItemsOnly? && !Has(st, DataChunk, c) && walk.chunks == {}
    requires NodeAt(lib, st, root) == Some([FileOf(n, [(c, n)])])
    ensures FetchEnded(lib, j, ForNodes([root], walk, 1), st, rej)
         == Request(j, ForChunks(walk.(chunks := {c})), DataChunk, [c], j.retries + 1, st, rej)
  {
    var ps := [FileOf(n, [(c, n)])];
    assert ps[1..] == [] && [root][1..] == [];
    assert ChunkIds([(c, n)]) == {c} by { assert (c, n) in [(c, n)]; }
    var walk' := walk.(chunks := {c});
    assert ScanNode(ps, [], walk) == ([], walk') by { assert walk.chunks + ChunkIds([(c, n)]) == {c}; }
    assert ScanLevel(lib, st, [root], [], walk) == ScanLevel(lib, st, [root][1..], [], walk') == Scanned([], walk');
    var ids := lib.sorted({c});
    assert |ids| > 1 ==> ids[0] != ids[1];
    assert c in {c} && c in ids;
    forall i | 0 <= i < |ids| ensures ids[i] == c { assert ids[i] in ids && ids[i] in {c}; }
    assert ids == [c] && [c][1..] == [];
    assert Lacking(st, [c]) == [c] + Lacking(st, []) && Without([c], {}) == [c] + Without([c][1..], {}) == [c];
    assert NextLevel(lib, j, [], walk', 1, st, rej) == AfterPacks(lib, j, walk', [c], {}, st, rej);
    assert AfterPacks(lib, j, walk', [c], {}, st, rej)
      == Request(j, ForChunks(walk'), DataChunk, [c], j.retries + 1, st, rej);
    assert FetchEnded(lib, j, ForNodes([root], walk, 1), st, rej) == NextLevel(lib, j, [], walk', 1, st, rej);
  }
}
