/** Whole sessions between two honest sides: what every completed session leaves behind, and
    exactly when a session can complete. */
module Session {
  import opened Blobs
  import opened Network
  import opened Engine
  import opened Offers
  import opened Stages
  import opened PullSafety
  import opened PullTogether
  import opened FolderPull

  ghost predicate SoundAll(lib: Lib, fs: seq<Folder>) {
    forall k :: 0 <= k < |fs| ==> Sound(lib, fs[k].store)
  }

  /** Each folder with a manifest can be served in full. */
  ghost predicate ServesAll(lib: Lib, fs: seq<Folder>) {
    forall k :: 0 <= k < |fs| && fs[k].current.Some? ==> CanServe(lib, fs[k].store, fs[k].current.value)
  }

  // ---- one stage ---------------------------------------------------------------------

  /** What pulling does to one folder. */
  ghost predicate Moved(lib: Lib, f: Folder, g: Folder) {
    && g == f.(store := g.store, after := g.after)
    && Extends(f.store, g.store) && (Sound(lib, f.store) ==> Sound(lib, g.store))
    && (PacksOpen(lib, f.store) ==> PacksOpen(lib, g.store))
  }

  ghost predicate PulledTo(lib: Lib, f: Folder, g: Folder, target: BlobId) {
    && Moved(lib, f, g)
    && HoldsClosure(lib, g.store, target)
    && g.after == if f.current.None? then Some(target) else f.after
  }

  /** The folders of `idxs` were pulled to what `pf` says; the others are as before. */
  ghost predicate Pulled(lib: Lib, fs: seq<Folder>, gs: seq<Folder>, pf: PeerFolders, idxs: seq<nat>) {
    && |gs| == |fs|
    && forall k :: 0 <= k < |fs| ==>
         if k in idxs then fs[k].id in pf && pf[fs[k].id].Some? && PulledTo(lib, fs[k], gs[k], pf[fs[k].id].value)
         else gs[k] == fs[k]
  }

  ghost predicate Ready(lib: Lib, s: Side, pf: PeerFolders, idxs: seq<nat>, b: Side) {
    && Lawful(lib) && Distinct(idxs) && SoundAll(lib, b.folders) && SoundAll(lib, s.folders)
    && forall k :: k in idxs ==>
         k < |s.folders| && s.folders[k].id in pf && pf[s.folders[k].id].Some? && Find(b.folders, s.folders[k].id).Some?
  }

  ghost predicate Served(lib: Lib, s: Side, pf: PeerFolders, idxs: seq<nat>, b: Side)
    requires Ready(lib, s, pf, idxs, b)
  {
    forall k :: k in idxs ==>
      var id := s.folders[k].id; CanServe(lib, b.folders[Find(b.folders, id).value].store, pf[id].value)
  }

  /** Both sides enter their next stage. */
  function Staged(lib: Lib, s: Side, b: Side, c: PullCtx, d: PullCtx): Net<Engine, Frame> {
    var (x, xb) := NextStage(lib, s, c.pf, c.pa, c.plan);
    var (y, yb) := NextStage(lib, b, d.pf, d.pa, d.plan);
    Net(x, y, xb, yb)
  }

  function Pending(lib: Lib, s: Side, b: Side, c: PullCtx, d: PullCtx): Net<Engine, Frame> {
    var (x, xb) := NextFolder(lib, s, c.pf, c.pa, c.idxs, c.plan);
    Net(x, Engine(b, Serving(d.pf, d.pa, d.plan)), xb, [])
  }

  /** The end marker reaches the server, and both sides move on; nothing else is under way. */
  lemma StageCloses(lib: Lib, s: Side, b: Side, c: PullCtx, d: PullCtx)
    requires c.idxs == []
    ensures Reaches(M(lib), Pending(lib, s, b, c, d), Staged(lib, s, b, c, d))
  {
    var n := Pending(lib, s, b, c, d);
    var (x, xb) := NextStage(lib, s, c.pf, c.pa, c.plan);
    var sw := Swap(n);
    assert sw.ba == [END_MARKER] + xb;
    FeedOne(lib, n.b, END_MARKER);
    DeliverToA(M(lib), sw, [END_MARKER], xb);
    var (y, yb) := NextStage(lib, b, d.pf, d.pa, d.plan);
    assert React(lib, n.b, END_MARKER) == (y, yb);
    var m := Net(y, x, [] + yb, xb);
    assert [] + yb == yb;
    SwapReaches(M(lib), sw, m);
    assert Swap(m) == Staged(lib, s, b, c, d);
  }

  /** A pull stage and the serve stage facing it: every schedule goes by way of the net where all
      folders are pulled and both sides enter their next stage; or the session fails. */
  lemma StageRuns(lib: Lib, s: Side, b: Side, c: PullCtx, d: PullCtx) returns (ok: bool, s': Side)
    requires Ready(lib, s, c.pf, c.idxs, b)
    ensures Served(lib, s, c.pf, c.idxs, b) ==> ok
    ensures !ok ==> Breaks(lib, Pending(lib, s, b, c, d))
    ensures ok ==>
      && s' == s.(folders := s'.folders) && Pulled(lib, s.folders, s'.folders, c.pf, c.idxs)
      && Unavoidable(M(lib), Pending(lib, s, b, c, d), Staged(lib, s', b, c, d))
  {
    ok, s' := StageGoes(lib, s, b, c, d);
    if ok { ReachedIsUnavoidable(M(lib), Pending(lib, s, b, c, d), Staged(lib, s', b, c, d)); }
  }

  /** One schedule of the stage: every reply is taken before the next request. */
  lemma {:induction false} StageGoes(lib: Lib, s: Side, b: Side, c: PullCtx, d: PullCtx) returns (ok: bool, s': Side)
    requires Ready(lib, s, c.pf, c.idxs, b)
    ensures Served(lib, s, c.pf, c.idxs, b) ==> ok
    ensures !ok ==> Breaks(lib, Pending(lib, s, b, c, d))
    ensures ok ==>
      && s' == s.(folders := s'.folders) && Pulled(lib, s.folders, s'.folders, c.pf, c.idxs)
      && Reaches(M(lib), Pending(lib, s, b, c, d), Staged(lib, s', b, c, d))
    decreases |c.idxs|
  {
    var n := Pending(lib, s, b, c, d);
    if c.idxs == [] {
      ok, s' := true, s;
      StageCloses(lib, s, b, c, d);
    } else {
      var k := c.idxs[0];
      assert k in c.idxs;
      var f := s.folders[k];
      var target := c.pf[f.id].value;
      var t := Talk(lib, s, c.(target := target), Engine(b, Serving(d.pf, d.pa, d.plan)));
      assert n == At(t, StartPull(lib, J(t), f.store, f.rejections));
      var st;
      ok, st := FolderRuns(t, f.store, f.rejections);
      s' := s;
      if ok {
        var g := f.(store := st, after := if f.current.None? then Some(target) else f.after);
        var s1 := s.(folders := s.folders[k := g]);
        var c1 := c.(idxs := c.idxs[1..]);
        var m := Pending(lib, s1, b, c1, d);
        assert Reaches(M(lib), n, m);
        NextReady(lib, s, s1, c.pf, c.idxs, b);
        ok, s' := StageGoes(lib, s1, b, c1, d);
        if ok {
          ReachesTrans(M(lib), n, m, Staged(lib, s', b, c1, d));
          assert Staged(lib, s', b, c1, d) == Staged(lib, s', b, c, d);
          PulledNext(lib, s.folders, s1.folders, s'.folders, c.pf, c.idxs);
        } else {
          BreaksTrans(lib, n, m);
        }
      }
    }
  }

  lemma NextReady(lib: Lib, s: Side, s1: Side, pf: PeerFolders, idxs: seq<nat>, b: Side)
    requires Ready(lib, s, pf, idxs, b) && idxs != []
    requires idxs[0] < |s.folders| == |s1.folders| && s1.folders == s.folders[idxs[0] := s1.folders[idxs[0]]]
    requires s1.folders[idxs[0]].id == s.folders[idxs[0]].id && Sound(lib, s1.folders[idxs[0]].store)
    ensures Ready(lib, s1, pf, idxs[1..], b)
    ensures Served(lib, s, pf, idxs, b) ==> Served(lib, s1, pf, idxs[1..], b)
  {
    forall k | k in idxs[1..] ensures k in idxs && k < |s.folders| && s1.folders[k].id == s.folders[k].id {
    }
  }

  lemma PulledNext(lib: Lib, fs: seq<Folder>, fs1: seq<Folder>, gs: seq<Folder>, pf: PeerFolders, idxs: seq<nat>)
    requires idxs != [] && Distinct(idxs) && idxs[0] < |fs| == |fs1| && fs1 == fs[idxs[0] := fs1[idxs[0]]]
    requires fs[idxs[0]].id in pf && pf[fs[idxs[0]].id].Some?
    requires PulledTo(lib, fs[idxs[0]], fs1[idxs[0]], pf[fs[idxs[0]].id].value)
    requires Pulled(lib, fs1, gs, pf, idxs[1..])
    ensures Pulled(lib, fs, gs, pf, idxs)
  {
    assert idxs == [idxs[0]] + idxs[1..];
    assert idxs[0] !in idxs[1..];
  }

  // ---- a store that grew can still serve ----------------------------------------------

  lemma {:induction false} ShallowExtends(lib: Lib, a: Store, b: Store, ids: set<BlobId>, level: set<BlobId>,
                                          seen: set<BlobId>, k: nat)
    requires Extends(a, b) && ClosedNodes(lib, a, ids) && level <= ids && Shallow(lib, a, level, seen, k)
    ensures Shallow(lib, b, level, seen, k)
    decreases k
  {
    if level != {} {
      ClosedNodesExtends(lib, a, b, ids);
      assert Below(lib, b, level) == Below(lib, a, level);
      forall x | x in Below(lib, a, level) ensures x in ids {
        var id :| id in level && NodeAt(lib, a, id).Some? && x in Children(NodeAt(lib, a, id).value);
        assert id in ids;
      }
      ShallowExtends(lib, a, b, ids, Below(lib, a, level) - seen, seen + Below(lib, a, level), k - 1);
    }
  }

  lemma CanServeExtends(lib: Lib, a: Store, b: Store, target: BlobId)
    requires Extends(a, b) && PacksOpen(lib, b) && CanServe(lib, a, target)
    ensures CanServe(lib, b, target)
  {
    ClosureExtends(lib, a, b, target);
    var root := RootAt(lib, a, target).value;
    var ids :| root in ids && ClosedNodes(lib, a, ids) && ChunksHeld(lib, a, ids);
    ShallowExtends(lib, a, b, ids, {root}, {root}, BUDGET);
  }

  // ---- from the first exchange to the second -------------------------------------------

  function All(s: Side, p: Side): set<FolderId> { Ids(s.folders) + Ids(p.folders) }

  function Noted(s: Side, p: Side): Side { s.(folders := NoteRemotes(s.folders, Told(All(s, p), p.folders))) }

  function Ctx(s: Side, p: Side, idxs: seq<nat>, plan: seq<Stage>): PullCtx {
    PullCtx(idxs, [], Told(All(s, p), p.folders), ToldRows(All(s, p), p.folders, true), plan)
  }

  /** The folders side `s` has to pull. */
  function Mine(s: Side, p: Side): seq<nat> { StageNeeded(s.folders, Told(All(s, p), p.folders), s.role, s.role) }

  ghost predicate Start(lib: Lib, i: Side, r: Side) {
    && Lawful(lib) && i.role.Initiator? && r.role.Responder?
    && WellFormed(i.folders) && WellFormed(r.folders) && Fresh(i.folders) && Fresh(r.folders)
    && SoundAll(lib, i.folders) && SoundAll(lib, r.folders)
  }

  lemma ExchangedIsStaged(lib: Lib, i: Side, r: Side)
    requires i.role.Initiator? && r.role.Responder?
    ensures Exchanged(lib, i, r, true)
         == Staged(lib, Noted(i, r), Noted(r, i), Ctx(i, r, [], Plan(i.role, i.folders, Told(All(i, r), r.folders))),
                   Ctx(r, i, [], Plan(r.role, r.folders, Told(All(r, i), i.folders))))
  {
    assert All(i, r) == All(r, i);
  }

  /** `s` now has whatever `p` had for it at the start, and nothing was lost. */
  ghost predicate Ends(lib: Lib, s: Side, p: Side, s': Side) {
    && s' == s.(folders := s'.folders) && |s'.folders| == |s.folders|
    && forall k :: 0 <= k < |s.folders| ==>
         var f, g := s.folders[k], s'.folders[k];
         var theirs := Effective(p.folders, f.id);
         && g.id == f.id && g.rows == f.rows && g.current == f.current && g.agreed == f.agreed
         && g.rejections == f.rejections
         && Extends(f.store, g.store) && Sound(lib, g.store) && (PacksOpen(lib, f.store) ==> PacksOpen(lib, g.store))
         && g.after == (if f.current.None? then theirs else f.current)
         && (theirs.Some? && theirs != f.current ==> HoldsClosure(lib, g.store, theirs.value))
  }

  lemma EndsFromPulled(lib: Lib, s: Side, p: Side, s': Side)
    requires WellFormed(s.folders) && WellFormed(p.folders) && Fresh(s.folders) && SoundAll(lib, s.folders)
    requires s' == Noted(s, p).(folders := s'.folders)
    requires Pulled(lib, Noted(s, p).folders, s'.folders, Told(All(s, p), p.folders), Mine(s, p))
    ensures Ends(lib, s, p, s')
  {
    var pf := Told(All(s, p), p.folders);
    StageFromSpec(s.folders, pf, true, 0);
    forall k | 0 <= k < |s.folders|
      ensures s.folders[k].id in pf && pf[s.folders[k].id] == Effective(p.folders, s.folders[k].id)
    {
      assert s.folders[k].id in Ids(s.folders);
    }
  }

  lemma NothingToPull(lib: Lib, s: Side, p: Side)
    requires Mine(s, p) == []
    ensures Pulled(lib, Noted(s, p).folders, Noted(s, p).folders, Told(All(s, p), p.folders), Mine(s, p))
  {
  }

  lemma FindSameIds(fs: seq<Folder>, gs: seq<Folder>, id: FolderId)
    requires |fs| == |gs| && forall k :: 0 <= k < |fs| ==> gs[k].id == fs[k].id
    ensures Find(gs, id) == Find(fs, id)
  {
  }

  /** `s` is ready to pull from `b`, which is `p` with its stores possibly grown. */
  lemma ReadyToPull(lib: Lib, s: Side, p: Side, b: Side)
    requires Lawful(lib) && WellFormed(s.folders) && WellFormed(p.folders) && Fresh(p.folders)
    requires SoundAll(lib, s.folders) && SoundAll(lib, b.folders)
    requires |b.folders| == |p.folders|
    requires forall k :: 0 <= k < |p.folders| ==>
      && b.folders[k].id == p.folders[k].id && Extends(p.folders[k].store, b.folders[k].store)
      && (PacksOpen(lib, p.folders[k].store) ==> PacksOpen(lib, b.folders[k].store))
    ensures Ready(lib, Noted(s, p), Told(All(s, p), p.folders), Mine(s, p), b)
    ensures ServesAll(lib, p.folders) ==> Served(lib, Noted(s, p), Told(All(s, p), p.folders), Mine(s, p), b)
  {
    var pf := Told(All(s, p), p.folders);
    StageFromSpec(s.folders, pf, true, 0);
    forall k | k in Mine(s, p)
      ensures Find(b.folders, s.folders[k].id).Some?
      ensures ServesAll(lib, p.folders) ==>
                CanServe(lib, b.folders[Find(b.folders, s.folders[k].id).value].store, pf[s.folders[k].id].value)
    {
      var id := s.folders[k].id;
      FindSameIds(p.folders, b.folders, id);
      var q := Find(p.folders, id).value;
      if ServesAll(lib, p.folders) {
        assert CanServe(lib, p.folders[q].store, p.folders[q].current.value);
        CanServeExtends(lib, p.folders[q].store, b.folders[q].store, p.folders[q].current.value);
      }
    }
  }

  /** A side about to pull faces a side about to serve. */
  lemma StagedIsPending(lib: Lib, s: Side, b: Side, c: PullCtx, d: PullCtx)
    requires c.plan != [] && c.plan[0] == PullStage(c.idxs) && d.plan != [] && d.plan[0] == ServeStage
    ensures Staged(lib, s, b, c, d) == Pending(lib, s, b, c.(plan := c.plan[1..]), d.(plan := d.plan[1..]))
  {
  }

  lemma BreaksSwap(lib: Lib, n: Net<Engine, Frame>)
    requires Breaks(lib, n)
    ensures Breaks(lib, Swap(n))
  {
    var k :| Reaches(M(lib), n, k) && (k.a.phase.Failed? || k.b.phase.Failed?);
    SwapReaches(M(lib), n, k);
  }

  /** One side's stage, if there is one: `s` pulls from `b`, which is `p` with its stores
      possibly grown. */
  lemma OneStage(lib: Lib, s: Side, p: Side, b: Side, plans: seq<Stage>, planb: seq<Stage>) returns (ok: bool, s': Side)
    requires Lawful(lib) && WellFormed(s.folders) && WellFormed(p.folders) && Fresh(s.folders) && Fresh(p.folders)
    requires SoundAll(lib, s.folders) && SoundAll(lib, b.folders)
    requires |b.folders| == |p.folders|
    requires forall k :: 0 <= k < |p.folders| ==>
      && b.folders[k].id == p.folders[k].id && Extends(p.folders[k].store, b.folders[k].store)
      && (PacksOpen(lib, p.folders[k].store) ==> PacksOpen(lib, b.folders[k].store))
    ensures ServesAll(lib, p.folders) ==> ok
    ensures var n := Staged(lib, Noted(s, p), b, Ctx(s, p, [], PullPart(Mine(s, p)) + plans),
                            Ctx(p, s, [], ServePart(Mine(s, p)) + planb));
            && (!ok ==> Breaks(lib, n))
            && (ok ==> Ends(lib, s, p, s') && Reaches(M(lib), n, Staged(lib, s', b, Ctx(s, p, [], plans),
                                                                        Ctx(p, s, [], planb))))
  {
    var idxs := Mine(s, p);
    var c0, d0 := Ctx(s, p, [], PullPart(idxs) + plans), Ctx(p, s, [], ServePart(idxs) + planb);
    var n := Staged(lib, Noted(s, p), b, c0, d0);
    if idxs == [] {
      ok, s' := true, Noted(s, p);
      NothingToPull(lib, s, p);
      assert [] + plans == plans && [] + planb == planb;
      ReachesSelf(M(lib), n);
    } else {
      var c, d := Ctx(s, p, idxs, plans), Ctx(p, s, [], planb);
      assert c0.plan[1..] == plans && d0.plan[1..] == planb;
      StagedIsPending(lib, Noted(s, p), b, c0.(idxs := idxs), d0);
      assert n == Pending(lib, Noted(s, p), b, c, d);
      ReadyToPull(lib, s, p, b);
      ok, s' := StageRuns(lib, Noted(s, p), b, c, d);
      if ok { UnavoidableReaches(M(lib), Pending(lib, Noted(s, p), b, c, d), Staged(lib, s', b, c, d)); }
      assert Staged(lib, s', b, c, d) == Staged(lib, s', b, Ctx(s, p, [], plans), d);
    }
    if ok { EndsFromPulled(lib, s, p, s'); }
  }

  /** The responder's stage; the initiator serves with what it now holds. */
  lemma SecondStage(lib: Lib, i: Side, r: Side, i': Side) returns (ok: bool, r': Side)
    requires Start(lib, i, r) && Ends(lib, i, r, i')
    ensures ServesAll(lib, i.folders) ==> ok
    ensures var n := Staged(lib, i', Noted(r, i), Ctx(i, r, [], ServePart(Mine(r, i))),
                            Ctx(r, i, [], PullPart(Mine(r, i))));
            && (!ok ==> Breaks(lib, n))
            && (ok ==> Ends(lib, r, i, r') && Reaches(M(lib), n, Staged(lib, i', r', Ctx(i, r, [], []),
                                                                        Ctx(r, i, [], []))))
  {
    ok, r' := OneStage(lib, r, i, i', [], []);
    assert ServePart(Mine(r, i)) + [] == ServePart(Mine(r, i)) && PullPart(Mine(r, i)) + [] == PullPart(Mine(r, i));
    var k := Staged(lib, Noted(r, i), i', Ctx(r, i, [], PullPart(Mine(r, i))), Ctx(i, r, [], ServePart(Mine(r, i))));
    if ok { SwapReaches(M(lib), k, Staged(lib, r', i', Ctx(r, i, [], []), Ctx(i, r, [], []))); }
    else { BreaksSwap(lib, k); }
  }

  lemma NotedGrows(lib: Lib, s: Side, p: Side)
    ensures |Noted(s, p).folders| == |s.folders|
    ensures SoundAll(lib, s.folders) ==> SoundAll(lib, Noted(s, p).folders)
    ensures forall k :: 0 <= k < |s.folders| ==>
      && Noted(s, p).folders[k].id == s.folders[k].id && Extends(s.folders[k].store, Noted(s, p).folders[k].store)
      && (PacksOpen(lib, s.folders[k].store) ==> PacksOpen(lib, Noted(s, p).folders[k].store))
  {
  }

  /** Both stages: every schedule goes by way of the net that opens the second exchange, where each
      side has what the other had for it, and nothing of the stages is left on the channels; or the
      session fails. */
  lemma BothStages(lib: Lib, i: Side, r: Side) returns (ok: bool, i': Side, r': Side)
    requires Start(lib, i, r)
    ensures ServesAll(lib, i.folders) && ServesAll(lib, r.folders) ==> ok
    ensures var n := Staged(lib, Noted(i, r), Noted(r, i), Ctx(i, r, [], PullPart(Mine(i, r)) + ServePart(Mine(r, i))),
                            Ctx(r, i, [], ServePart(Mine(i, r)) + PullPart(Mine(r, i))));
            && (!ok ==> Breaks(lib, n))
            && (ok ==> Ends(lib, i, r, i') && Ends(lib, r, i, r')
                       && Unavoidable(M(lib), n, Staged(lib, i', r', Ctx(i, r, [], []), Ctx(r, i, [], [])))
                       && Staged(lib, i', r', Ctx(i, r, [], []), Ctx(r, i, [], [])) == Opening(lib, i', r', false))
  {
    hide NextStage, NextFolder, Staged, Noted, Mine, Ends, Ctx;
    var si, sr := ServePart(Mine(r, i)), PullPart(Mine(r, i));
    NotedGrows(lib, r, i);
    var n := Staged(lib, Noted(i, r), Noted(r, i), Ctx(i, r, [], PullPart(Mine(i, r)) + si),
                    Ctx(r, i, [], ServePart(Mine(i, r)) + sr));
    ok, i' := OneStage(lib, i, r, Noted(r, i), si, sr);
    r' := r;
    if ok {
      var m := Staged(lib, i', Noted(r, i), Ctx(i, r, [], si), Ctx(r, i, [], sr));
      ok, r' := SecondStage(lib, i, r, i');
      if ok {
        ReachesTrans(M(lib), n, m, Staged(lib, i', r', Ctx(i, r, [], []), Ctx(r, i, [], [])));
        ReachedIsUnavoidable(M(lib), n, Staged(lib, i', r', Ctx(i, r, [], []), Ctx(r, i, [], [])));
        EndsRole(lib, i, r, i');
        EndsRole(lib, r, i, r');
        CtxPlan(i, r);
        CtxPlan(r, i);
        StagedIsOpening(lib, i', r', Ctx(i, r, [], []), Ctx(r, i, [], []));
      } else { BreaksTrans(lib, n, m); }
    }
  }

  lemma CtxPlan(s: Side, p: Side)
    ensures Ctx(s, p, [], []).plan == []
  {
  }

  lemma EndsRole(lib: Lib, s: Side, p: Side, s': Side)
    requires Ends(lib, s, p, s')
    ensures s'.role == s.role
  {
  }

  lemma StagedIsOpening(lib: Lib, i: Side, r: Side, c: PullCtx, d: PullCtx)
    requires i.role.Initiator? && r.role.Responder? && c.plan == [] && d.plan == []
    ensures Staged(lib, i, r, c, d) == Opening(lib, i, r, false)
  {
  }

  lemma EndsWellFormed(lib: Lib, s: Side, p: Side, s': Side)
    requires WellFormed(s.folders) && WellFormed(p.folders) && Ends(lib, s, p, s')
    ensures WellFormed(s'.folders)
  {
    forall k | 0 <= k < |s.folders| ensures Effective(p.folders, s.folders[k].id) != Some(ZERO) {
      EffectiveNonZero(p.folders, s.folders[k].id);
    }
  }
}
