/** The theorems about whole sessions, for every interleaving of deliveries. */
module Agreement {
  import opened Blobs
  import opened Network
  import opened Engine
  import opened Protocol
  import opened Offers
  import opened Stages
  import opened PullSafety
  import opened PullTogether
  import opened FolderPull
  import opened Session

  function FinalOf(s: Side, p: Side): Engine {
    Engine(s.(folders := SettleAll(s.folders, Told(Ids(s.folders) + Ids(p.folders), p.folders))), Finished)
  }

  /** After the second exchange both sides say goodbye and rest; the channels are empty. */
  lemma ClosingRuns(lib: Lib, i: Side, r: Side)
    requires i.role.Initiator? && r.role.Responder?
    ensures Reaches(M(lib), Exchanged(lib, i, r, false), Net(FinalOf(i, r), FinalOf(r, i), [], []))
  {
    var n := Exchanged(lib, i, r, false);
    assert Ids(i.folders) + Ids(r.folders) == Ids(r.folders) + Ids(i.folders);
    assert n.ab == [Bye(Normal)] && n.ba == [];
    FeedOne(lib, n.b, Bye(Normal));
    TurnB(M(lib), n);
    var m := Net(n.a, FinalOf(r, i), [], [Bye(Normal)]);
    assert Feed(M(lib), n.b, n.ab) == (FinalOf(r, i), [Bye(Normal)]);
    FeedOne(lib, m.a, Bye(Normal));
    TurnA(M(lib), m);
    assert Feed(M(lib), m.a, m.ba) == (FinalOf(i, r), []);
    ReachesTrans(M(lib), n, m, Net(FinalOf(i, r), FinalOf(r, i), [], []));
  }

  /** From the stages to the end. */
  lemma TailRuns(lib: Lib, i: Side, r: Side, c: PullCtx, d: PullCtx)
    requires i.role.Initiator? && r.role.Responder? && c.plan == [] && d.plan == []
    requires WellFormed(i.folders) && WellFormed(r.folders)
    ensures Reaches(M(lib), Staged(lib, i, r, c, d), Net(FinalOf(i, r), FinalOf(r, i), [], []))
  {
    StagedIsOpening(lib, i, r, c, d);
    ExchangeCompletes(lib, i, r, false);
    ClosingRuns(lib, i, r);
    ReachesTrans(M(lib), Opening(lib, i, r, false), Exchanged(lib, i, r, false),
                 Net(FinalOf(i, r), FinalOf(r, i), [], []));
  }

  /** The net as it enters the stages. */
  function Planned(lib: Lib, i: Side, r: Side): Net<Engine, Frame> {
    Staged(lib, Noted(i, r), Noted(r, i), Ctx(i, r, [], PullPart(Mine(i, r)) + ServePart(Mine(r, i))),
           Ctx(r, i, [], ServePart(Mine(i, r)) + PullPart(Mine(r, i))))
  }

  lemma MineIsStage(s: Side, p: Side)
    requires WellFormed(s.folders)
    ensures Mine(s, p) == [] <==> StageIds(s, p, s.role) == {}
  {
    EmptyStage(s, p, s.role);
  }

  lemma InStepPlans(lib: Lib, i: Side, r: Side)
    requires Start(lib, i, r) && InStep(i, r)
    ensures Exchanged(lib, i, r, true) == Planned(lib, i, r)
  {
    ExchangedIsStaged(lib, i, r);
    PlanShape(i, r);
    PlanShape(r, i);
    MineIsStage(i, r);
    MineIsStage(r, i);
  }

  /** The canonical run of a session whose sides are in step: it completes with both sides
      settled, or a side fails; it completes if both sides can serve their manifests. */
  lemma SessionRuns(lib: Lib, i: Side, r: Side) returns (ok: bool, i': Side, r': Side)
    requires Start(lib, i, r) && InStep(i, r)
    ensures ServesAll(lib, i.folders) && ServesAll(lib, r.folders) ==> ok
    ensures !ok ==> Breaks(lib, Opening(lib, i, r, true))
    ensures ok ==> && Ends(lib, i, r, i') && Ends(lib, r, i, r')
                   && Reaches(M(lib), Opening(lib, i, r, true), Net(FinalOf(i', r'), FinalOf(r', i'), [], []))
  {
    var n := Opening(lib, i, r, true);
    ExchangeCompletes(lib, i, r, true);
    InStepPlans(lib, i, r);
    var m := Planned(lib, i, r);
    ok, i', r' := BothStages(lib, i, r);
    if ok {
      EndsWellFormed(lib, i, r, i');
      EndsWellFormed(lib, r, i, r');
      var k := Staged(lib, i', r', Ctx(i, r, [], []), Ctx(r, i, [], []));
      TailRuns(lib, i', r', Ctx(i, r, [], []), Ctx(r, i, [], []));
      ReachesTrans(M(lib), n, m, k);
      ReachesTrans(M(lib), n, k, Net(FinalOf(i', r'), FinalOf(r', i'), [], []));
    } else {
      BreaksTrans(lib, n, m);
    }
  }

  // ---- what is recorded --------------------------------------------------------------

  /** The manifest both sides end up at: equal ones, or the only one there is. */
  function Meet(mine: Option<BlobId>, theirs: Option<BlobId>): Option<BlobId> {
    if mine.None? then theirs else if theirs.None? || theirs == mine then mine else None
  }

  /** What a completed session leaves with side `s`, in terms of what both sides started with. */
  ghost predicate Settlement(lib: Lib, s: Side, p: Side, out: seq<Folder>) {
    && |out| == |s.folders|
    && forall k :: 0 <= k < |s.folders| ==> SettledFolder(lib, s.folders[k], p, out[k])
  }

  ghost predicate SettledFolder(lib: Lib, f: Folder, p: Side, g: Folder) {
    var theirs := Effective(p.folders, f.id);
    && g.id == f.id && g.rows == f.rows && g.current == f.current && g.rejections == f.rejections
    && Extends(f.store, g.store) && Sound(lib, g.store)
    && g.after == (if f.current.Some? then f.current else theirs)
    && g.remote == (if theirs.Some? then theirs else if f.id in Ids(p.folders) then f.current else None)
    && g.agreed == (if f.id in Ids(p.folders) then Meet(f.current, theirs) else None)
    && (theirs.Some? && theirs != f.current ==> HoldsClosure(lib, g.store, theirs.value))
  }

  lemma EffectiveAt(fs: seq<Folder>, k: nat)
    requires WellFormed(fs) && k < |fs|
    ensures Effective(fs, fs[k].id) == if fs[k].after.Some? then fs[k].after else fs[k].current
  {
    FindAt(fs, k);
  }

  lemma EffectiveEnds(lib: Lib, s: Side, p: Side, s': Side, id: FolderId)
    requires WellFormed(s.folders) && WellFormed(p.folders) && Fresh(s.folders) && Ends(lib, s, p, s')
    ensures id !in Ids(s.folders) ==> Effective(s'.folders, id).None?
    ensures id in Ids(s.folders) ==>
              Effective(s'.folders, id) == if Effective(s.folders, id).None?
                then Effective(p.folders, id) else Effective(s.folders, id)
  {
    EndsWellFormed(lib, s, p, s');
    FindSameIds(s.folders, s'.folders, id);
    if id in Ids(s.folders) {
      var k := Find(s.folders, id).value;
      EffectiveAt(s.folders, k);
      EffectiveAt(s'.folders, k);
    } else {
      UnknownHasNoManifest(s.folders, id);
    }
  }

  lemma SettlementFromEnds(lib: Lib, s: Side, p: Side, s': Side, p': Side)
    requires WellFormed(s.folders) && WellFormed(p.folders) && Fresh(s.folders) && Fresh(p.folders)
    requires Ends(lib, s, p, s') && Ends(lib, p, s, p')
    ensures Settlement(lib, s, p, FinalOf(s', p').self.folders)
  {
    var out := FinalOf(s', p').self.folders;
    forall k | 0 <= k < |s.folders| ensures SettledFolder(lib, s.folders[k], p, out[k]) {
      var f, g := s.folders[k], s'.folders[k];
      EffectiveAt(s.folders, k);
      EffectiveEnds(lib, p, s, p', f.id);
      assert g.id in Ids(s'.folders);
      assert out[k] == Settle(g, Told(Ids(s'.folders) + Ids(p'.folders), p'.folders));
      if f.id !in Ids(p.folders) { UnknownHasNoManifest(p.folders, f.id); }
    }
  }

  ghost predicate Done(n: Net<Engine, Frame>) { n.a.phase.Finished? && n.b.phase.Finished? }

  lemma BreaksExcludesDone(lib: Lib, n: Net<Engine, Frame>, sched: Schedule)
    requires Breaks(lib, n) && Valid(M(lib), n, sched)
    ensures !Done(Run(M(lib), n, sched))
  {
    var m :| Reaches(M(lib), n, m) && (m.a.phase.Failed? || m.b.phase.Failed?);
    RestUnique(M(lib), n, m, sched);
  }

  lemma StuckExcludesDone(lib: Lib, n: Net<Engine, Frame>, m: Net<Engine, Frame>, sched: Schedule)
    requires Reaches(M(lib), n, m) && Stuck(M(lib), m) && !Done(m) && Valid(M(lib), n, sched)
    ensures !Done(Run(M(lib), n, sched))
  {
    StuckDecides(M(lib), n, m, sched);
  }

  // ---- out of step -------------------------------------------------------------------

  lemma OpeningSpeaks(lib: Lib, i: Side)
    requires i.role.Initiator?
    ensures Begin(lib, i, false).1 != [] && Begin(lib, i, false).1[0].Offer?
  {
  }

  /** The initiator sees nothing to pull where the responder waits to serve: either both wait
      to serve, or the initiator goes on to its second round of offers. */
  lemma FirstJam(lib: Lib, i: Side, r: Side)
    requires Start(lib, i, r) && StageIds(i, r, Initiator) == {} && StageIds(r, i, Initiator) != {}
    ensures var m := Exchanged(lib, i, r, true);
            && m.b.phase.Serving? && m.ba == []
            && if StageIds(i, r, Responder) != {} then m.a.phase.Serving? && m.ab == []
               else m.ab != [] && m.ab[0].Offer?
  {
    ExchangedIsStaged(lib, i, r);
    PlanShape(i, r);
    PlanShape(r, i);
    OpeningSpeaks(lib, Noted(i, r));
    StagedIsOpeningLeft(lib, Noted(i, r), Told(All(i, r), r.folders), ToldRows(All(i, r), r.folders, true));
  }

  lemma StagedIsOpeningLeft(lib: Lib, s: Side, pf: PeerFolders, pa: PeerAdverts)
    requires s.role.Initiator?
    ensures NextStage(lib, s, pf, pa, []) == Begin(lib, s, false)
  {
  }

  lemma OfferToServer(lib: Lib, m: Net<Engine, Frame>)
    requires m.b.phase.Serving? && m.ab != [] && m.ab[0].Offer?
    ensures Breaks(lib, m)
  {
    ReachesStep(M(lib), m, false);
  }

  lemma OutOfStepFirst(lib: Lib, i: Side, r: Side, sched: Schedule)
    requires Start(lib, i, r) && StageIds(i, r, Initiator) == {} && StageIds(r, i, Initiator) != {}
    requires Valid(M(lib), Opening(lib, i, r, true), sched)
    ensures !Done(Run(M(lib), Opening(lib, i, r, true), sched))
  {
    var n, m := Opening(lib, i, r, true), Exchanged(lib, i, r, true);
    ExchangeCompletes(lib, i, r, true);
    FirstJam(lib, i, r);
    if StageIds(i, r, Responder) != {} {
      StuckExcludesDone(lib, n, m, sched);
    } else {
      OfferToServer(lib, m);
      BreaksTrans(lib, n, m);
      BreaksExcludesDone(lib, n, sched);
    }
  }

  /** The initiator waits to serve where the responder sees nothing to pull. */
  lemma SecondJam(lib: Lib, i: Side, r: Side)
    requires Start(lib, i, r) && (StageIds(i, r, Initiator) == {} <==> StageIds(r, i, Initiator) == {})
    requires StageIds(i, r, Responder) != {} && StageIds(r, i, Responder) == {}
    ensures Exchanged(lib, i, r, true) == Lopsided(lib, i, r)
  {
    ExchangedIsStaged(lib, i, r);
    PlanShape(i, r);
    PlanShape(r, i);
    MineIsStage(i, r);
  }

  lemma BothWait(lib: Lib, i: Side, r: Side, c: PullCtx, d: PullCtx)
    requires r.role.Responder? && c.plan == [ServeStage] && d.plan == []
    ensures Stuck(M(lib), Staged(lib, i, r, c, d)) && !Done(Staged(lib, i, r, c, d))
  {
  }

  /** The initiator pulls if it has to, then waits to serve; the responder waits for offers. */
  function Lopsided(lib: Lib, i: Side, r: Side): Net<Engine, Frame> {
    Staged(lib, Noted(i, r), Noted(r, i), Ctx(i, r, [], PullPart(Mine(i, r)) + [ServeStage]),
           Ctx(r, i, [], ServePart(Mine(i, r)) + []))
  }

  lemma LopsidedRuns(lib: Lib, i: Side, r: Side) returns (ok: bool, i': Side)
    requires Start(lib, i, r)
    ensures !ok ==> Breaks(lib, Lopsided(lib, i, r))
    ensures ok ==>
          Reaches(M(lib), Lopsided(lib, i, r), Staged(lib, i', Noted(r, i), Ctx(i, r, [], [ServeStage]),
                                                      Ctx(r, i, [], [])))
  {
    ok, i' := OneStage(lib, i, r, Noted(r, i), [ServeStage], []);
  }

  lemma SecondJamRuns(lib: Lib, i: Side, r: Side) returns (ok: bool, k: Net<Engine, Frame>)
    requires Start(lib, i, r) && Exchanged(lib, i, r, true) == Lopsided(lib, i, r)
    ensures !ok ==> Breaks(lib, Exchanged(lib, i, r, true))
    ensures ok ==> Reaches(M(lib), Exchanged(lib, i, r, true), k) && Stuck(M(lib), k) && !Done(k)
  {
    var i';
    ok, i' := LopsidedRuns(lib, i, r);
    k := Staged(lib, i', Noted(r, i), Ctx(i, r, [], [ServeStage]), Ctx(r, i, [], []));
    BothWait(lib, i', Noted(r, i), Ctx(i, r, [], [ServeStage]), Ctx(r, i, [], []));
  }

  lemma OutOfStepSecond(lib: Lib, i: Side, r: Side, sched: Schedule)
    requires Start(lib, i, r) && (StageIds(i, r, Initiator) == {} <==> StageIds(r, i, Initiator) == {})
    requires StageIds(i, r, Responder) != {} && StageIds(r, i, Responder) == {}
    requires Valid(M(lib), Opening(lib, i, r, true), sched)
    ensures !Done(Run(M(lib), Opening(lib, i, r, true), sched))
  {
    var n, m := Opening(lib, i, r, true), Exchanged(lib, i, r, true);
    ExchangeCompletes(lib, i, r, true);
    SecondJam(lib, i, r);
    var ok, k := SecondJamRuns(lib, i, r);
    if ok {
      ReachesTrans(M(lib), n, m, k);
      StuckExcludesDone(lib, n, k, sched);
    } else {
      BreaksTrans(lib, n, m);
      BreaksExcludesDone(lib, n, sched);
    }
  }

  /** A session can complete on both sides only if the two sides are in step. */
  lemma OnlyInStepCompletes(lib: Lib, i: Side, r: Side, sched: Schedule)
    requires Start(lib, i, r) && Valid(M(lib), Opening(lib, i, r, true), sched)
    requires Done(Run(M(lib), Opening(lib, i, r, true), sched))
    ensures InStep(i, r)
  {
    if !InStep(i, r) {
      StageGap(i, r);
      StageGap(r, i);
      if StageIds(i, r, Initiator) == {} && StageIds(r, i, Initiator) != {} {
        OutOfStepFirst(lib, i, r, sched);
      } else {
        OutOfStepSecond(lib, i, r, sched);
      }
    }
  }

  // ---- main results ------------------------------------------------------------------

  /** In every session that completes on both sides, whatever the stores held and however the
      deliveries interleaved, each side is left with the settlement of what both started with. */
  lemma CompletedSession(lib: Lib, i: Side, r: Side, sched: Schedule)
    requires Start(lib, i, r) && Valid(M(lib), Opening(lib, i, r, true), sched)
    requires Done(Run(M(lib), Opening(lib, i, r, true), sched))
    ensures var n := Run(M(lib), Opening(lib, i, r, true), sched);
            Settlement(lib, i, r, n.a.self.folders) && Settlement(lib, r, i, n.b.self.folders)
  {
    OnlyInStepCompletes(lib, i, r, sched);
    var n := Opening(lib, i, r, true);
    var ok, i', r' := SessionRuns(lib, i, r);
    if ok {
      RestUnique(M(lib), n, Net(FinalOf(i', r'), FinalOf(r', i'), [], []), sched);
      SettlementFromEnds(lib, i, r, i', r');
      SettlementFromEnds(lib, r, i, r', i');
    } else {
      BreaksExcludesDone(lib, n, sched);
    }
  }

  ghost predicate HoldsOwn(lib: Lib, fs: seq<Folder>) {
    forall k :: 0 <= k < |fs| && fs[k].current.Some? ==> HoldsClosure(lib, fs[k].store, fs[k].current.value)
  }

  /** What a recorded agreement means. For a folder both sides configure, both record the same
      manifest or neither records one. If each side started with the closure of its manifest,
      a recorded agreement is backed by the full closure in both stores; and two different
      manifests are never agreed on, but both closures are then in both stores. */
  lemma AgreementMeans(lib: Lib, i: Side, r: Side, sched: Schedule, k: nat, l: nat)
    requires Start(lib, i, r) && Valid(M(lib), Opening(lib, i, r, true), sched)
    requires Done(Run(M(lib), Opening(lib, i, r, true), sched))
    requires k < |i.folders| && l < |r.folders| && i.folders[k].id == r.folders[l].id
    ensures var n := Run(M(lib), Opening(lib, i, r, true), sched);
            && |n.a.self.folders| == |i.folders| && |n.b.self.folders| == |r.folders|
            && var f, g := n.a.self.folders[k], n.b.self.folders[l];
               var mine, theirs := i.folders[k].current, r.folders[l].current;
               && f.agreed == g.agreed
               && (HoldsOwn(lib, i.folders) && HoldsOwn(lib, r.folders) && f.agreed.Some? ==>
                     HoldsClosure(lib, f.store, f.agreed.value) && HoldsClosure(lib, g.store, f.agreed.value))
               && (mine.Some? && theirs.Some? && mine != theirs ==>
                     && f.agreed.None?
                     && (HoldsOwn(lib, i.folders) && HoldsOwn(lib, r.folders) ==>
                           && HoldsClosure(lib, f.store, mine.value) && HoldsClosure(lib, f.store, theirs.value)
                           && HoldsClosure(lib, g.store, mine.value) && HoldsClosure(lib, g.store, theirs.value)))
  {
    CompletedSession(lib, i, r, sched);
    var n := Run(M(lib), Opening(lib, i, r, true), sched);
    var a, b := i.folders[k], r.folders[l];
    var f, g := n.a.self.folders[k], n.b.self.folders[l];
    EffectiveAt(i.folders, k);
    EffectiveAt(r.folders, l);
    assert a.id in Ids(i.folders) && b.id in Ids(r.folders);
    assert SettledFolder(lib, a, r, f) && SettledFolder(lib, b, i, g);
    if HoldsOwn(lib, i.folders) && a.current.Some? { ClosureExtends(lib, a.store, f.store, a.current.value); }
    if HoldsOwn(lib, r.folders) && b.current.Some? { ClosureExtends(lib, b.store, g.store, b.current.value); }
  }

  /** Two sides in step that can serve their manifests always complete: no interleaving gets
      stuck or fails, and at the end both channels are empty. */
  lemma SessionCompletes(lib: Lib, i: Side, r: Side, sched: Schedule) returns (rest: Schedule)
    requires Start(lib, i, r) && InStep(i, r) && ServesAll(lib, i.folders) && ServesAll(lib, r.folders)
    requires Valid(M(lib), Opening(lib, i, r, true), sched)
    ensures var n := Run(M(lib), Opening(lib, i, r, true), sched);
            Valid(M(lib), n, rest) && Done(Run(M(lib), n, rest))
            && Run(M(lib), n, rest).ab == [] && Run(M(lib), n, rest).ba == []
  {
    var n := Opening(lib, i, r, true);
    var ok, i', r' := SessionRuns(lib, i, r);
    var m := Net(FinalOf(i', r'), FinalOf(r', i'), [], []);
    var s :| Valid(M(lib), n, s) && Run(M(lib), n, s) == m;
    rest := Confluence(M(lib), n, s, sched);
  }

  /** Sides in step stay in step: every schedule goes by way of the net that opens the second
      exchange, with each side holding what the other had for it and nothing of the stages left on
      the channels; or the session fails, which it does not if both sides can serve. */
  lemma Lockstep(lib: Lib, i: Side, r: Side) returns (ok: bool, i': Side, r': Side)
    requires Start(lib, i, r) && InStep(i, r)
    ensures ServesAll(lib, i.folders) && ServesAll(lib, r.folders) ==> ok
    ensures !ok ==> Breaks(lib, Opening(lib, i, r, true))
    ensures ok ==> && Ends(lib, i, r, i') && Ends(lib, r, i, r')
                   && Unavoidable(M(lib), Opening(lib, i, r, true), Opening(lib, i', r', false))
                   && Waiting(Opening(lib, i', r', false).a) && Waiting(Opening(lib, i', r', false).b)
  {
    var n := Opening(lib, i, r, true);
    ExchangeCompletes(lib, i, r, true);
    InStepPlans(lib, i, r);
    var m := Planned(lib, i, r);
    ok, i', r' := BothStages(lib, i, r);
    if ok {
      var k := Opening(lib, i', r', false);
      UnavoidableReaches(M(lib), m, k);
      ReachesTrans(M(lib), n, m, k);
      ReachedIsUnavoidable(M(lib), n, k);
    } else {
      BreaksTrans(lib, n, m);
    }
  }

  /** A session between sides that can serve their manifests can complete if and only if every
      side with an orphan faces one that has something to pull from it anyway; and then every
      schedule completes. */
  lemma CompletesExactly(lib: Lib, i: Side, r: Side)
    requires Start(lib, i, r) && ServesAll(lib, i.folders) && ServesAll(lib, r.folders)
    ensures (exists sched ::
             Valid(M(lib), Opening(lib, i, r, true), sched) && Done(Run(M(lib), Opening(lib, i, r, true), sched)))
       <==> Masked(i, r)
  {
    InStepExactly(i, r);
    var n := Opening(lib, i, r, true);
    if sched :| Valid(M(lib), n, sched) && Done(Run(M(lib), n, sched)) {
      OnlyInStepCompletes(lib, i, r, sched);
    }
    if Masked(i, r) {
      assert Valid(M(lib), n, []) && Run(M(lib), n, []) == n;
      var rest := SessionCompletes(lib, i, r, []);
    }
  }

  /** Without orphans nothing else is needed. */
  lemma SharedSessionCompletes(lib: Lib, i: Side, r: Side, sched: Schedule) returns (rest: Schedule)
    requires Start(lib, i, r) && ServesAll(lib, i.folders) && ServesAll(lib, r.folders)
    requires forall id :: !Orphan(i, r, id) && !Orphan(r, i, id)
    requires Valid(M(lib), Opening(lib, i, r, true), sched)
    ensures var n := Run(M(lib), Opening(lib, i, r, true), sched);
            Valid(M(lib), n, rest) && Done(Run(M(lib), n, rest))
            && Run(M(lib), n, rest).ab == [] && Run(M(lib), n, rest).ba == []
  {
    NoOrphansInStep(i, r);
    rest := SessionCompletes(lib, i, r, sched);
  }

  // ---- two orphans ---------------------------------------------------------------------

  function Lone(role: Role, id: FolderId, manifest: BlobId, st: Store): Side {
    Side(role, Auto, 0, [Folder(id, [], Some(manifest), st, Some(manifest), None, None, 0)])
  }

  /** Each side has one folder, with a manifest it can serve, that the other does not configure. Each
      thinks the other has to pull, so both wait to serve: the stages differ, and every schedule
      comes to a net that is stuck with neither side finished. */
  lemma OrphansJam(lib: Lib, x: FolderId, y: FolderId, m: BlobId, a: Store, b: Store)
    requires Lawful(lib) && x != y && x != SENTINEL && y != SENTINEL && m != ZERO
    requires Sound(lib, a) && Sound(lib, b) && CanServe(lib, a, m) && CanServe(lib, b, m)
    ensures var i, r := Lone(Initiator, x, m, a), Lone(Responder, y, m, b);
            && ServesAll(lib, i.folders) && ServesAll(lib, r.folders) && Jams(lib, i, r)
            && StageIds(i, r, Initiator) != StageIds(r, i, Initiator)
            && StageIds(i, r, Responder) != StageIds(r, i, Responder)
  {
    hide *;
    var i, r := Lone(Initiator, x, m, a), Lone(Responder, y, m, b);
    LoneStart(lib, x, y, m, a, b);
    LoneStages(x, y, m, a, b);
    StartWellFormed(lib, i, r);
    ExchangeCompletes(lib, i, r, true);
    FirstJam(lib, i, r);
    BothServing(lib, Exchanged(lib, i, r, true));
    JamsAt(lib, i, r);
  }

  /** Every schedule of the session comes to one net, which is stuck with neither side finished. */
  ghost predicate Jams(lib: Lib, i: Side, r: Side) {
    var n, k := Opening(lib, i, r, true), Exchanged(lib, i, r, true);
    && Start(lib, i, r) && Unavoidable(M(lib), n, k) && Stuck(M(lib), k)
    && !k.a.phase.Finished? && !k.b.phase.Finished?
  }

  lemma JamsAt(lib: Lib, i: Side, r: Side)
    requires Start(lib, i, r) && Unavoidable(M(lib), Opening(lib, i, r, true), Exchanged(lib, i, r, true))
    requires var k := Exchanged(lib, i, r, true); Stuck(M(lib), k) && !k.a.phase.Finished? && !k.b.phase.Finished?
    ensures Jams(lib, i, r)
  {
    hide Start, Unavoidable, Stuck, Exchanged, Opening;
  }

  /** Bytes are their own ids, [1] is a manifest with root [2], and [2] an empty directory. */
  ghost function EmptyTreeLib(): Lib {
    Lib((b: Bytes) => b, (b: Bytes) => if b == [1] then Some([2]) else None,
        (b: Bytes) => if b == [2] then Some([]) else None, (b: Bytes) => None,
        (s: set<BlobId>) => Listed(s))
  }

  const EMPTY_TREE: Store := Store(map[(Manifest, [1]) := [1], (TreeNode, [2]) := [2]], map[])

  /** Such sides exist. */
  lemma JamExists()
    ensures exists lib: Lib, i: Side, r: Side ::
      ServesAll(lib, i.folders) && ServesAll(lib, r.folders) && Jams(lib, i, r)
  {
    hide *;
    var lib := EmptyTreeLib();
    EmptyTreeFacts();
    OrphansJam(lib, [1], [2], [1], EMPTY_TREE, EMPTY_TREE);
  }

  lemma EmptyTreeFacts()
    ensures Lawful(EmptyTreeLib()) && Sound(EmptyTreeLib(), EMPTY_TREE) && CanServe(EmptyTreeLib(), EMPTY_TREE, [1])
    ensures [1] != SENTINEL && [2] != SENTINEL && [1] != ZERO
  {
    assert |SENTINEL| == 16 && |ZERO| == 32;
    EmptyTreeServes(EmptyTreeLib(), EMPTY_TREE);
  }

  lemma EmptyTreeServes(lib: Lib, st: Store)
    requires CollisionFree(lib) && st.packs == map[]
    requires RootAt(lib, st, [1]) == Some([2]) && NodeAt(lib, st, [2]) == Some([])
    ensures CanServe(lib, st, [1])
  {
    var ids: set<BlobId> := {[2]};
    assert Children([]) == {} && Chunks([]) == {};
    assert ClosedNodes(lib, st, ids) && ChunksHeld(lib, st, ids);
    assert Below(lib, st, ids) == {};
    assert Shallow(lib, st, Below(lib, st, ids) - ids, ids + Below(lib, st, ids), BUDGET - 1);
  }

  lemma StartWellFormed(lib: Lib, i: Side, r: Side)
    requires Start(lib, i, r)
    ensures i.role.Initiator? && r.role.Responder? && WellFormed(i.folders) && WellFormed(r.folders)
  {
  }

  lemma BothServing(lib: Lib, k: Net<Engine, Frame>)
    requires k.a.phase.Serving? && k.b.phase.Serving? && k.ab == [] && k.ba == []
    ensures Stuck(M(lib), k) && !k.a.phase.Finished? && !k.b.phase.Finished?
  {
  }

  lemma LoneStages(x: FolderId, y: FolderId, m: BlobId, a: Store, b: Store)
    requires x != y && x != SENTINEL && y != SENTINEL && m != ZERO
    ensures var i, r := Lone(Initiator, x, m, a), Lone(Responder, y, m, b);
            && StageIds(i, r, Initiator) == {} && StageIds(r, i, Initiator) != {}
            && StageIds(r, i, Responder) == {} && StageIds(i, r, Responder) != {}
  {
    var i, r := Lone(Initiator, x, m, a), Lone(Responder, y, m, b);
    LoneOrphans(x, y, m, a, b);
    hide StageIds, Orphan, MustPull;
    StageGap(i, r);
    StageGap(r, i);
    MustPullIsStage(i, r);
    MustPullIsStage(r, i);
  }

  lemma LoneStart(lib: Lib, x: FolderId, y: FolderId, m: BlobId, a: Store, b: Store)
    requires Lawful(lib) && x != SENTINEL && y != SENTINEL && m != ZERO
    requires Sound(lib, a) && Sound(lib, b) && CanServe(lib, a, m) && CanServe(lib, b, m)
    ensures var i, r := Lone(Initiator, x, m, a), Lone(Responder, y, m, b);
            Start(lib, i, r) && ServesAll(lib, i.folders) && ServesAll(lib, r.folders)
  {
    hide CanServe, Sound, Lawful;
  }

  lemma LoneOrphans(x: FolderId, y: FolderId, m: BlobId, a: Store, b: Store)
    requires x != y && x != SENTINEL && y != SENTINEL && m != ZERO
    ensures var i, r := Lone(Initiator, x, m, a), Lone(Responder, y, m, b);
            Orphan(i, r, x) && Orphan(r, i, y) && !MustPull(i, r) && !MustPull(r, i)
  {
    var i, r := Lone(Initiator, x, m, a), Lone(Responder, y, m, b);
    assert i.folders[0].id == x && r.folders[0].id == y && i.folders[0] in i.folders && r.folders[0] in r.folders;
    assert Ids(i.folders) == {x} && Ids(r.folders) == {y};
    EffectiveAt(i.folders, 0);
    EffectiveAt(r.folders, 0);
  }
}
