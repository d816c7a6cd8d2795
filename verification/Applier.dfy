/** The applier's entry points: a whole tree, a change set, and a change set at the end of a
    session. */
module Applier {
  import opened Blobs
  import opened Paths
  import opened TempNames
  import opened UnixTime
  import opened FileTree
  import opened ApplyPlan
  import opened ApplyExec
  import opened ApplyGuard
  import opened ApplyRun
  import opened ApplyLaws
  import opened ApplyStates
  import opened ApplyRecord
  import opened Desired
  import opened Changes

  // ---- the live walk -----------------------------------------------------------------------

  /** `q` is below `dir`, through a child that is no longer to do. */
  predicate Through(dir: Path, todo: set<Path>, q: Path) {
    dir < q && q[..|dir| + 1] !in todo
  }

  /** walk_live from `dir` down: everything but what has a temporary name on its way. */
  method Descend(t: Tree, dir: Path, out: seq<Path>) returns (ok: bool, more: seq<Path>)
    requires IsTree(t) && dir in t && Clean(dir)
    ensures ok ==> forall q :: q in more <==> q in out || (q in t && dir < q && Clean(q))
    decreases |BelowOf(t, dir)|
  {
    hide IsTree, IsTemp, Clean, Through, ChildrenOf;
    ok, more := *, out;
    if !ok { return; }
    var todo := ChildrenOf(t, dir);
    ThroughNone(t, dir);
    while todo != {}
      invariant todo <= ChildrenOf(t, dir)
      invariant forall q :: q in more <==> q in out || (q in t && Through(dir, todo, q) && Clean(q))
      decreases todo
    {
      var c :| c in todo;
      ghost var before := more;
      IsChild(t, dir, c);
      CleanChild(dir, c);
      if !IsTemp(Last(c)) {
        more := more + [c];
        if t[c].Dir? {
          BelowShrinks(t, dir, c);
          ok, more := Descend(t, c, more);
          if !ok { return; }
        }
      }
      ThroughChild(t, dir, todo, c, before, more);
      todo := todo - {c};
    }
    ThroughAll(dir);
  }

  lemma IsChild(t: Tree, dir: Path, c: Path)
    requires c in ChildrenOf(t, dir)
    ensures c in t && c != [] && Parent(c) == dir && dir < c
  {
  }

  lemma ThroughNone(t: Tree, dir: Path)
    requires IsTree(t)
    ensures forall q :: q in t ==> !Through(dir, ChildrenOf(t, dir), q)
  {
    hide IsTree;
    forall q | q in t ensures !Through(dir, ChildrenOf(t, dir), q) {
      if dir < q { var c := ChildToward(t, dir, q); assert c == q[..|dir| + 1]; }
    }
  }

  lemma ThroughAll(dir: Path)
    ensures forall q :: Through(dir, {}, q) <==> dir < q
  {
  }

  lemma ThroughChild(t: Tree, dir: Path, todo: set<Path>, c: Path, before: seq<Path>, more: seq<Path>)
    requires IsTree(t) && c in t && c != [] && Parent(c) == dir && c in todo
    requires if !Clean(c) then more == before
             else if t[c].Dir? then forall q :: q in more <==> q in before || q == c || (q in t && c < q && Clean(q))
             else more == before + [c]
    ensures forall q :: q in more <==> q in before || (q in t && c <= q && Clean(q))
    ensures forall q :: Through(dir, todo - {c}, q) <==> Through(dir, todo, q) || c <= q
  {
    hide IsTree, IsTemp;
    forall q ensures q in more <==> q in before || (q in t && c <= q && Clean(q)) {
      PrefixCases(c, q);
      if q in t && c < q { Ancestors(t, c, q); if Clean(q) { CleanPrefix(c, q); } }
    }
    forall q ensures Through(dir, todo - {c}, q) <==> Through(dir, todo, q) || c <= q {
      if dir < q && q[..|dir| + 1] == c { assert c <= q; }
      if c <= q { assert q[..|dir| + 1] == c && dir <= c; assert dir < q; }
    }
  }

  lemma CleanChild(dir: Path, c: Path)
    requires c != [] && Parent(c) == dir && Clean(dir)
    ensures Clean(c) <==> !IsTemp(Last(c))
  {
    hide IsTemp;
    if !IsTemp(Last(c)) {
      forall i | 0 <= i < |c| ensures !IsTemp(c[i]) { if i < |dir| { assert c[i] == dir[i]; } }
    }
  }

  lemma CleanPrefix(c: Path, q: Path)
    requires c <= q && Clean(q)
    ensures Clean(c)
  {
    hide IsTemp;
    forall i | 0 <= i < |c| ensures !IsTemp(c[i]) { assert c[i] == q[i]; }
  }

  method WalkLive(t: Tree) returns (ok: bool, out: seq<Path>)
    requires IsTree(t)
    ensures ok ==> forall q :: q in out <==> q in t && q != [] && Clean(q)
  {
    ok, out := Descend(t, [], []);
    forall q | q in t ensures [] < q <==> q != [] {}
  }

  // ---- a whole tree ------------------------------------------------------------------------

  /** validate_components for a list of paths. */
  method Validate(env: Env, ps: seq<Path>) returns (ok: bool)
    ensures ok <==> forall p, c :: p in ps && c in p ==> env.nameOk(c)
  {
    var i := 0;
    while i < |ps|
      invariant 0 <= i <= |ps| && forall p, c :: p in ps[..i] && c in p ==> env.nameOk(c)
    {
      var j := 0;
      while j < |ps[i]|
        invariant 0 <= j <= |ps[i]| && forall c :: c in ps[i][..j] ==> env.nameOk(c)
      {
        if !env.nameOk(ps[i][j]) { assert ps[i] in ps && ps[i][j] in ps[i]; return false; }
        j := j + 1;
      }
      assert ps[i][..j] == ps[i] && ps[..i + 1] == ps[..i] + [ps[i]];
      i := i + 1;
    }
    assert ps[..i] == ps;
    return true;
  }

  function PathsOf(us: seq<Upsert>): seq<Path> { seq(|us|, i requires 0 <= i < |us| => us[i].path) }

  /** The live paths that are not wanted, as shallow removals. */
  method Unwanted(live: seq<Path>, desired: seq<Upsert>) returns (rms: seq<Remove>)
    ensures forall q :: Takes(rms, q) <==> q in live && !Lists(desired, q)
    ensures (forall q :: q in live ==> Lists(desired, q)) ==> rms == []
    ensures forall i :: 0 <= i < |rms| ==> !rms[i].deep
  {
    hide Lists;
    rms := [];
    var keys := set u | u in desired :: u.path;
    var i := 0;
    while i < |live|
      invariant 0 <= i <= |live|
      invariant forall q :: Takes(rms, q) <==> q in live[..i] && !Lists(desired, q)
      invariant (forall q :: q in live ==> Lists(desired, q)) ==> rms == []
      invariant forall k :: 0 <= k < |rms| ==> !rms[k].deep
    {
      ListsKeys(desired, live[i]);
      assert live[..i + 1] == live[..i] + [live[i]];
      if live[i] !in keys {
        assert live[i] in live;
        TakesSnoc(rms, live[i]);
        rms := rms + [Remove(live[i], false)];
      }
      i := i + 1;
    }
    assert live[..i] == live;
  }

  lemma ListsKeys(desired: seq<Upsert>, q: Path)
    ensures Lists(desired, q) <==> q in set u | u in desired :: u.path
  {
  }

  lemma TakesSnoc(rms: seq<Remove>, p: Path)
    ensures forall q :: Takes(rms + [Remove(p, false)], q) <==> Takes(rms, q) || q == p
  {
    var all := rms + [Remove(p, false)];
    forall q ensures Takes(all, q) <==> Takes(rms, q) || q == p {
      if Takes(rms, q) { var i :| 0 <= i < |rms| && TakesOne(rms[i], q); assert TakesOne(all[i], q); }
      if q == p { assert TakesOne(all[|rms|], q); }
    }
  }

  /** What a refusal lists: something, in order of paths, and nothing that is not so. */
  ghost predicate Objections(st: Store, t: Tree, base: seq<Entry>, ds: seq<Divergence>) {
    ds != [] && Sorted(ds, ByDivergence(), false) && forall x :: x in ds ==> Truthful(st, t, base, x)
  }

  lemma IsObjections(st: Store, t: Tree, base: seq<Entry>, ds: seq<Divergence>)
    requires ds != [] && Sorted(ds, ByDivergence(), false) && forall x :: x in ds ==> Truthful(st, t, base, x)
    ensures Objections(st, t, base, ds)
  {
    hide Sorted, Truthful;
  }

  /** apply_tree */
  method ApplyTree(d: Disk, env: Env, fold: Path -> string, base: Option<seq<Entry>>, root: seq<Entry>)
    returns (r: Outcome)
    requires IsTree(d.tree) && ValidEnv(env) && ValidEntries(root) && CleanNames(root)
    requires base.Some? ==> ValidEntries(base.value)
    modifies d
    ensures IsTree(d.tree) && old(d.trace) <= d.trace
    ensures r.Done? ==> TreeIs(env.st, d.tree, root) && Neat(env.st, fold, old(d.tree), root, d.tree, r.stats)
    ensures Unharmed(env.st, old(d.tree), root, d.tree)
    ensures forall i :: |old(d.trace)| <= i < |d.trace| ==> Unharmed(env.st, old(d.tree), root, d.trace[i])
    ensures r.Diverged? ==> base.Some? && d.tree == old(d.tree) && d.trace == old(d.trace)
    ensures r.Diverged? ==> !LiveIsBase(env.st, old(d.tree), base.value)
    ensures r.Diverged? ==> Objections(env.st, old(d.tree), base.value, r.paths)
    ensures base.Some? ==> GuardedTree(env.st, old(d.tree), base.value, root, d.tree)
    ensures base.Some? ==> forall i :: |old(d.trace)| <= i < |d.trace| ==>
          GuardedTree(env.st, old(d.tree), base.value, root, d.trace[i])
    ensures TreeIs(env.st, old(d.tree), root) && TimesFit(root) ==>
              d.tree == old(d.tree) && d.trace == old(d.trace)
              && (r.Done? ==> Mutations(r.stats) == 0 && r.stats.skipped == EntryCount(root))
  {
    hide *;
    var desired := Flatten([], root);
    FlattenTreeShaped([], root);
    CleanTree(root);
    CleanPlain(desired);
    NothingYet(env.st, d.tree, base, desired);
    ghost var t, trail := d.tree, d.trace;
    StateMeant(env.st, t, base, root, t);
    var ok := Validate(env, PathsOf(desired));
    if !ok { return Failed; }
    var live;
    ok, live := WalkLive(d.tree);
    if !ok { return Failed; }
    var rms := Unwanted(live, desired);
    ghost var ups := Sort(desired, ByUpsert(), false);
    ClearsSorted(t, rms, live, desired);
    ClearsUnsorted(t, rms, live, desired);
    ShapedSort(desired);
    SortMembers(desired, ByUpsert(), false);
    InputsOf(desired);
    ghost var begun, plan, touches, steps;
    r, begun, plan, touches, steps := Run(d, env, fold, base, rms, desired);
    if begun {
      StatesSound(env, fold, t, rms, desired, ups, plan, steps, d.tree, trail, d.trace);
      if base.Some? {
        StatesGuarded(env, fold, t, base.value, rms, desired, ups, plan, steps, d.tree, trail, d.trace);
      }
      StatesMeant(env.st, t, base, root, d.tree, trail, d.trace);
      if r.Done? {
        TreeDone(env, fold, t, rms, desired, ups, plan, touches, steps, d.tree, r.stats);
        RunTidied(env, fold, t, rms, desired, ups, plan, touches, steps, d.tree, r.stats);
        ChangesInOrder(env, fold, t, rms, desired, ups, plan, touches, steps, d.tree, r.stats);
        TreeHeld(env.st, d.tree, root);
        NeatTree(env, fold, t, root, rms, plan, touches, steps, d.tree, r.stats);
      }
      TreeTwice(env, fold, t, rms, live, desired, ups, plan, touches, steps, d.tree, r);
    } else if r.Diverged? {
      IsObjections(env.st, t, base.value, r.paths);
      TreeAccepted(env, fold, t, base.value, rms, live, desired, ups, plan);
    }
    if TreeIs(env.st, t, root) && TimesFit(root) { TwiceMeant(env.st, t, root); }
  }

  /** A state of the run, in terms of the entries. */
  lemma StateMeant(st: Store, t: Tree, base: Option<seq<Entry>>, root: seq<Entry>, s: Tree)
    requires Intact(st, t, Flatten([], root), s) && (base.Some? ==> Guarded(st, t, base.value, Flatten([], root), s))
    ensures Unharmed(st, t, root, s) && (base.Some? ==> GuardedTree(st, t, base.value, root, s))
  {
    hide *;
    IntactTree(st, t, root, s);
    if base.Some? { GuardTree(st, t, base.value, root, s); }
  }

  lemma StatesMeant(st: Store, t: Tree, base: Option<seq<Entry>>, root: seq<Entry>, now: Tree, a: seq<Tree>,
                    b: seq<Tree>)
    requires Intact(st, t, Flatten([], root), now)
    requires forall i :: |a| <= i < |b| ==> Intact(st, t, Flatten([], root), b[i])
    requires base.Some? ==> Guarded(st, t, base.value, Flatten([], root), now)
    requires base.Some? ==> forall i :: |a| <= i < |b| ==> Guarded(st, t, base.value, Flatten([], root), b[i])
    ensures Unharmed(st, t, root, now) && forall i :: |a| <= i < |b| ==> Unharmed(st, t, root, b[i])
    ensures base.Some? ==> GuardedTree(st, t, base.value, root, now)
    ensures base.Some? ==> forall i :: |a| <= i < |b| ==> GuardedTree(st, t, base.value, root, b[i])
  {
    hide *;
    StateMeant(st, t, base, root, now);
    forall i | |a| <= i < |b|
      ensures Unharmed(st, t, root, b[i]) && (base.Some? ==> GuardedTree(st, t, base.value, root, b[i]))
    {
      StateMeant(st, t, base, root, b[i]);
    }
  }

  lemma ClearsUnsorted(t: Tree, rms: seq<Remove>, live: seq<Path>, desired: seq<Upsert>)
    requires forall q :: q in live <==> q in t && q != [] && Clean(q)
    requires forall q :: Takes(rms, q) <==> q in live && !Lists(desired, q)
    ensures Clears(t, rms, desired)
  {
    hide Takes, Clean, Lists;
  }

  lemma TwiceMeant(st: Store, t: Tree, root: seq<Entry>)
    requires TreeIs(st, t, root) && TimesFit(root)
    ensures Holds(st, t, Flatten([], root)) && TimesInRange(Flatten([], root))
    ensures |Flatten([], root)| == EntryCount(root)
  {
    hide *;
    TreeHeld(st, t, root);
    TimesTree(root);
    CountFlatten([], root);
  }

  /** Where the live tree is the base, the guard lets any tree be applied. */
  lemma TreeAccepted(env: Env, fold: Path -> string, t: Tree, base: seq<Entry>, rms: seq<Remove>, live: seq<Path>,
                     desired: seq<Upsert>, ups: seq<Upsert>, plan: seq<Upsert>)
    requires ValidEntries(base) && Plain(desired) && ups == Sort(desired, ByUpsert(), false)
    requires forall i :: 0 <= i < |desired| ==> IsInput(desired[i].mutation)
    requires forall q :: q in live <==> q in t && q != [] && Clean(q)
    requires (forall q :: Takes(rms, q) <==> q in live && !Lists(desired, q)) && PlanOf(env, fold, t, rms, ups, plan)
    ensures LiveIsBase(env.st, t, base) ==> GuardPasses(env.st, t, base, rms, plan)
  {
    hide ValidEntries, Clean, Lists, HasEntry, GuardPasses, PlanOf, SameAs, LeadsTo, IsInput, IsTemp;
    if LiveIsBase(env.st, t, base) {
      SortMembers(desired, ByUpsert(), false);
      SortedPlain(desired, ups);
      PlanPlain(env, fold, t, rms, ups, plan);
      forall i | 0 <= i < |rms| ensures HasEntry(base, rms[i].path) {
        assert TakesOne(rms[i], rms[i].path);
        assert Takes(rms, rms[i].path);
      }
      GuardAccepts(env.st, t, base, rms, plan);
    }
  }

  lemma CleanPlain(us: seq<Upsert>)
    requires TreeShaped(us, []) && AllClean(us)
    ensures Plain(us)
  {
    hide IsTemp;
    forall i | 0 <= i < |us|
      ensures us[i].path != [] && !IsTemp(Last(us[i].path))
    {
      assert us[i] in us && [] < us[i].path;
    }
  }

  // ---- change sets ---------------------------------------------------------------------------

  /** apply_change_set */
  method ApplyChangeSet(d: Disk, env: Env, fold: Path -> string, base: Option<seq<Entry>>, cs: ChangeSet)
    returns (r: Outcome, ghost plan: seq<Upsert>, ghost touches: seq<Touch>, ghost steps: seq<Tree>)
    requires IsTree(d.tree) && ValidEnv(env) && (base.Some? ==> ValidEntries(base.value))
    requires forall p :: Names(cs, p) ==> p != [] && !IsTemp(Last(p))
    modifies d
    ensures IsTree(d.tree) && old(d.trace) <= d.trace
    ensures r.Done? ==> Fulfilled(env.st, d.tree, cs) && OnRecord(env.st, fold, old(d.tree), cs, d.tree, r.stats)
    ensures Confined(old(d.tree), cs, d.tree)
    ensures forall i :: |old(d.trace)| <= i < |d.trace| ==> Confined(old(d.tree), cs, d.trace[i])
    ensures r.Diverged? ==> base.Some? && d.tree == old(d.tree) && d.trace == old(d.trace)
    ensures r.Diverged? ==> !(LiveIsBase(env.st, old(d.tree), base.value) && DropsKnown(cs, base.value))
    ensures r.Diverged? ==> Objections(env.st, old(d.tree), base.value, r.paths)
    ensures base.Some? ==> GuardedSet(env.st, old(d.tree), base.value, cs, d.tree)
    ensures base.Some? ==> forall i :: |old(d.trace)| <= i < |d.trace| ==>
          GuardedSet(env.st, old(d.tree), base.value, cs, d.trace[i])
    ensures r.Done? ==> PlanOf(env, fold, old(d.tree), RemovesOf(cs), Sort(UpsertsOf(cs), ByUpsert(), false), plan)
    ensures r.Done? ==> Complete(env.st, old(d.tree), RemovesOf(cs), plan, touches, steps, d.tree, r.stats)
  {
    hide *;
    var rms, ups := Divide(cs);
    DivideNames(cs, rms, ups);
    ChangesPlain(cs, rms, ups);
    NothingYet(env.st, d.tree, base, ups);
    StillConfined(d.tree, cs);
    ghost var t, trail := d.tree, d.trace;
    if base.Some? { GuardSet(env.st, t, base.value, cs, t); }
    var ok := ValidateChanges(env, rms, ups);
    plan, touches, steps := [], [], [];
    if !ok { return Failed, plan, touches, steps; }
    ghost var begun;
    ghost var sorted := Sort(ups, ByUpsert(), false);
    r, begun, plan, touches, steps := Run(d, env, fold, base, rms, ups);
    if begun {
      StatesConfined(env, fold, t, cs, rms, ups, sorted, plan, steps, d.tree, trail, d.trace);
      if base.Some? {
        StatesGuarded(env, fold, t, base.value, rms, ups, sorted, plan, steps, d.tree, trail, d.trace);
        SetsMeant(env.st, t, base.value, cs, d.tree, trail, d.trace);
      }
      if r.Done? {
        RunTidied(env, fold, t, rms, ups, sorted, plan, touches, steps, d.tree, r.stats);
        ChangesApplied(env, fold, t, rms, ups, sorted, plan, touches, steps, d.tree, r.stats);
        ChangesInOrder(env, fold, t, rms, ups, sorted, plan, touches, steps, d.tree, r.stats);
        AppliedFulfils(env.st, d.tree, cs);
        RecordedSet(env, fold, t, cs, plan, touches, steps, d.tree, r.stats);
      }
    } else if r.Diverged? {
      IsObjections(env.st, t, base.value, r.paths);
      SetAccepted(env, fold, t, base.value, cs, rms, ups, sorted, plan);
    }
  }

  lemma SetsMeant(st: Store, t: Tree, base: seq<Entry>, cs: ChangeSet, now: Tree, a: seq<Tree>, b: seq<Tree>)
    requires Guarded(st, t, base, UpsertsOf(cs), now)
    requires forall i :: |a| <= i < |b| ==> Guarded(st, t, base, UpsertsOf(cs), b[i])
    ensures GuardedSet(st, t, base, cs, now) && forall i :: |a| <= i < |b| ==> GuardedSet(st, t, base, cs, b[i])
  {
    hide *;
    GuardSet(st, t, base, cs, now);
    forall i | |a| <= i < |b| ensures GuardedSet(st, t, base, cs, b[i]) { GuardSet(st, t, base, cs, b[i]); }
  }

  /** The base has everything the change set takes away. */
  ghost predicate DropsKnown(cs: ChangeSet, base: seq<Entry>) {
    forall p :: DropsAt(cs, p) ==> HasEntry(base, p)
  }

  /** Where the live tree is the base, and the base has what is to go, the guard lets the change set
      be applied. */
  lemma SetAccepted(env: Env, fold: Path -> string, t: Tree, base: seq<Entry>, cs: ChangeSet, rms: seq<Remove>,
                    ups: seq<Upsert>, sorted: seq<Upsert>, plan: seq<Upsert>)
    requires ValidEntries(base) && rms == RemovesOf(cs) && sorted == Sort(ups, ByUpsert(), false)
    requires Plain(ups) && forall i :: 0 <= i < |ups| ==> IsInput(ups[i].mutation)
    requires PlanOf(env, fold, t, rms, sorted, plan)
    ensures LiveIsBase(env.st, t, base) && DropsKnown(cs, base) ==> GuardPasses(env.st, t, base, rms, plan)
  {
    hide ValidEntries, HasEntry, GuardPasses, PlanOf, LiveIsBase, IsInput, IsTemp, RemovesOf, DropsAt, Takes, Drops;
    if LiveIsBase(env.st, t, base) && DropsKnown(cs, base) {
      SortMembers(ups, ByUpsert(), false);
      SortedPlain(ups, sorted);
      PlanPlain(env, fold, t, rms, sorted, plan);
      forall i | 0 <= i < |rms| ensures HasEntry(base, rms[i].path) {
        assert rms[i] in rms;
        RemovalsExactly(cs, rms[i].path);
      }
      GuardAccepts(env.st, t, base, rms, plan);
    }
  }

  method ValidateChanges(env: Env, rms: seq<Remove>, ups: seq<Upsert>) returns (ok: bool)
  {
    ok := Validate(env, seq(|rms|, i requires 0 <= i < |rms| => rms[i].path));
    if ok { ok := Validate(env, PathsOf(ups)); }
  }

  // ---- a path upserted twice ---------------------------------------------------------------------

  /** File `p`, directory `p`, directory `p/x` and file `p/x`, all added. */
  function Twice(p: Path, x: Name, f: State, g: State, dir: State): ChangeSet {
    ChangeSet([], [Change(p, f), Change(p, dir), Change(p + [x], dir), Change(p + [x], g)], [], [], [])
  }

  function TwiceUpserts(p: Path, x: Name, f: State, g: State, dir: State): seq<Upsert> {
    [Upsert(p, StateMutation(f)), Upsert(p, StateMutation(dir)),
     Upsert(p + [x], StateMutation(dir)), Upsert(p + [x], StateMutation(g))]
  }

  /** Why no path may be upserted twice: where a live file `p` has to change, this change set, if it
      is applied to the end, records the deletions `p`, then `p/x`. */
  method UpsertedTwice(d: Disk, env: Env, fold: Path -> string, p: Path, x: Name, f: State, g: State, dir: State)
    returns (r: Outcome)
    requires IsTree(d.tree) && ValidEnv(env) && p != [] && !IsTemp(Last(p)) && !IsTemp(x)
    requires f.FileState? && g.FileState? && dir.DirState?
    requires p in d.tree && d.tree[p].File? && d.tree[p].exec != f.exec
    modifies d
    ensures r.Done? ==> r.stats.deletions == [p, p + [x]] && !ChildrenFirst(r.stats.deletions)
  {
    hide *;
    TwiceNames(p, x, f, g, dir);
    ghost var plan, touches, steps;
    ghost var t := d.tree;
    r, plan, touches, steps := ApplyChangeSet(d, env, fold, None, Twice(p, x, f, g, dir));
    if r.Done? {
      TwiceDivided(p, x, f, g, dir);
      TwicePlanned(env, fold, t, p, x, f, g, dir, plan);
      TwiceDeletes(env.st, t, p, x, f, g, dir, touches, steps, d.tree, r.stats);
      OutOfOrder(p, p + [x]);
    }
  }

  lemma TwiceNames(p: Path, x: Name, f: State, g: State, dir: State)
    requires p != [] && !IsTemp(Last(p)) && !IsTemp(x)
    ensures forall q :: Names(Twice(p, x, f, g, dir), q) ==> q != [] && !IsTemp(Last(q))
  {
    hide IsTemp;
    assert Last(p + [x]) == x;
  }

  lemma TwiceDivided(p: Path, x: Name, f: State, g: State, dir: State)
    ensures RemovesOf(Twice(p, x, f, g, dir)) == []
    ensures UpsertsOf(Twice(p, x, f, g, dir)) == TwiceUpserts(p, x, f, g, dir)
  {
    hide StateMutation;
    var cs := Twice(p, x, f, g, dir);
    assert cs.added + (cs.content + cs.metadata) == cs.added;
  }

  /** Sorting leaves the list as it is, and planning finds nothing to skip. */
  lemma TwicePlanned(env: Env, fold: Path -> string, t: Tree, p: Path, x: Name, f: State, g: State, dir: State,
                     plan: seq<Upsert>)
    requires IsTree(t) && p in t && t[p].File? && f.FileState? && g.FileState? && dir.DirState? && t[p].exec != f.exec
    requires PlanOf(env, fold, t, [], Sort(TwiceUpserts(p, x, f, g, dir), ByUpsert(), false), plan)
    ensures plan == TwiceUpserts(p, x, f, g, dir)
  {
    hide IsTree;
    var ups := TwiceUpserts(p, x, f, g, dir);
    assert Sorted(ups, ByUpsert(), false) by {
      LeqTotal(p, p);
      LeqTotal(p + [x], p + [x]);
      PrefixFirst(p, p + [x]);
    }
    AlreadySorted(ups, ByUpsert(), false);
    assert p + [x] !in t by { LeafBelow(t, p); assert p < p + [x]; }
  }

  lemma TwiceDeletes(st: Store, t: Tree, p: Path, x: Name, f: State, g: State, dir: State, touches: seq<Touch>,
                     steps: seq<Tree>, now: Tree, stats: Stats)
    requires f.FileState? && g.FileState? && dir.DirState? && p in t && t[p].File?
    requires Complete(st, t, [], TwiceUpserts(p, x, f, g, dir), touches, steps, now, stats)
    ensures stats.deletions == [p, p + [x]]
  {
    hide MadeRoom, Carried, During, IsTree, Alike, AllHonoured, Ascending, ChildrenFirst, StateMutation;
    var plan, q := TwiceUpserts(p, x, f, g, dir), p + [x];
    var logs :| Logged(plan, steps, logs) && Tallied(t, steps[0], logs[0]) && logs[|steps| - 1] == stats.deletions;
    assert |plan| == 4 && |steps| == 5;
    forall i | 0 <= i < 5 ensures IsTree(steps[i]) { assert steps[i] in steps; }
    NothingRemoved(t, steps[0], logs[0], p);
    FilePlaced(st, steps[0], steps[1], p, plan[0].mutation, logs[0], logs[1], f);
    DirPlaced(st, steps[1], steps[2], p, plan[1].mutation, logs[1], logs[2], dir);
    assert p < q;
    BelowChild(steps[1], steps[2], p, q);
    DirPlaced(st, steps[2], steps[3], q, plan[2].mutation, logs[2], logs[3], dir);
    FilePlaced(st, steps[3], steps[4], q, plan[3].mutation, logs[3], logs[4], g);
  }

  lemma NothingRemoved(t: Tree, s: Tree, ds: seq<Path>, p: Path)
    requires Reduced(t, s, []) && Tallied(t, s, ds) && p in t && t[p].File?
    ensures ds == [] && p in s && s[p].File?
  {
    assert Agree(t, s, p);
    assert ds != [] ==> ds[0] in ds;
    forall q ensures q !in ds { assert Agree(t, s, q); }
  }

  /** A file is put where nothing lies below: a directory there is recorded as deleted. */
  lemma FilePlaced(st: Store, t: Tree, u: Tree, p: Path, m: Mutation, before: seq<Path>, after: seq<Path>, f: State)
    requires f.FileState? && m == StateMutation(f) && p in t && Carried(st, t, u, p, m)
    requires MadeRoom(before, after, t, p, m)
    requires t[p].Dir? ==> forall r :: r in t ==> !(p < r)
    ensures p in u && u[p].File? && (forall r :: r in u ==> !(p < r))
    ensures after == if t[p].Dir? then before + [p] else before
  {
  }

  /** A directory is put where nothing lies below: a file there is recorded as deleted. */
  lemma DirPlaced(st: Store, t: Tree, u: Tree, p: Path, m: Mutation, before: seq<Path>, after: seq<Path>, dir: State)
    requires dir.DirState? && m == StateMutation(dir) && Carried(st, t, u, p, m)
    requires MadeRoom(before, after, t, p, m)
    requires (forall r :: r in t ==> !(p < r)) && (p in t ==> !t[p].Dir?)
    ensures p in u && u[p].Dir? && (forall r :: r in u ==> r in t || r == p)
    ensures forall r :: r in u ==> !(p < r)
    ensures after == if p in t then before + [p] else before
  {
  }

  lemma BelowChild(t: Tree, u: Tree, p: Path, q: Path)
    requires p < q && (forall r :: r in t ==> !(p < r)) && forall r :: r in u ==> r in t || r == p
    ensures q !in u && forall r :: r in u ==> !(q < r)
  {
  }

  lemma OutOfOrder(p: Path, q: Path)
    requires p < q
    ensures [p] + [q] == [p, q] && !ChildrenFirst([p, q])
  {
    var ds := [p, q];
    assert ds[0] < ds[1];
  }

  // ---- the end of a session --------------------------------------------------------------------

  /** collect_dir_mtimes */
  function DirTimes(prefix: Path, es: seq<Entry>): seq<Touch>
    decreases es
  {
    if es == [] then []
    else
      var path := prefix + [es[0].name];
      (if es[0].body.DirBody? then [Touch(path, es[0].sec, es[0].nsec)] + DirTimes(path, es[0].body.children) else [])
      + DirTimes(prefix, es[1..])
  }

  /** The times collected are those of the directories listed. */
  lemma {:induction false} DirTimesListed(prefix: Path, es: seq<Entry>, x: Touch)
    ensures x in DirTimes(prefix, es) <==> exists u :: u in Flatten(prefix, es) && u.mutation.Mkdir? && Wants(u) == x
    decreases es
  {
    if es != [] {
      var e, path := es[0], prefix + [es[0].name];
      DirTimesListed(prefix, es[1..], x);
      var head := Upsert(path, MutationOf(e));
      assert Flatten(prefix, es) == [head] + (if e.body.DirBody? then Flatten(path, e.body.children) else [])
        + Flatten(prefix, es[1..]);
      if e.body.DirBody? {
        DirTimesListed(path, e.body.children, x);
        assert Wants(head) == Touch(path, e.sec, e.nsec);
      }
      if exists u :: u in Flatten(prefix, es) && u.mutation.Mkdir? && Wants(u) == x {
        var u :| u in Flatten(prefix, es) && u.mutation.Mkdir? && Wants(u) == x;
        assert u == head || (e.body.DirBody? && u in Flatten(path, e.body.children)) || u in Flatten(prefix, es[1..]);
      }
    }
  }

  /** Longest paths first, in a stable order. */
  function InsertByDepth(x: Touch, s: seq<Touch>): (r: seq<Touch>)
    ensures multiset(r) == multiset(s) + multiset{x}
  {
    if s == [] || |x.path| >= |s[0].path| then [x] + s
    else
      assert s == [s[0]] + s[1..];
      [s[0]] + InsertByDepth(x, s[1..])
  }

  predicate DeepestFirst(s: seq<Touch>) { forall i, j :: 0 <= i < j < |s| ==> |s[i].path| >= |s[j].path| }

  lemma {:induction false} InsertDeepest(x: Touch, s: seq<Touch>)
    requires DeepestFirst(s)
    ensures DeepestFirst(InsertByDepth(x, s)) && InsertByDepth(x, s) != []
    ensures var first := InsertByDepth(x, s)[0]; first == x || (s != [] && first == s[0])
  {
    if s != [] && |x.path| < |s[0].path| {
      var rest := InsertByDepth(x, s[1..]);
      InsertDeepest(x, s[1..]);
      var r := [s[0]] + rest;
      forall i, j | 0 <= i < j < |r| ensures |r[i].path| >= |r[j].path| {
        assert r[j] == rest[j - 1] && |rest[0].path| <= |s[0].path|;
        if i > 0 { assert r[i] == rest[i - 1]; }
      }
    }
  }

  /** The directories are gone through from the deepest up. */
  lemma {:induction false} SortedByDepth(s: seq<Touch>)
    ensures DeepestFirst(SortByDepth(s))
  {
    if s != [] {
      SortedByDepth(s[1..]);
      InsertDeepest(s[0], SortByDepth(s[1..]));
    }
  }

  function SortByDepth(s: seq<Touch>): (r: seq<Touch>)
    ensures multiset(r) == multiset(s)
  {
    if s == [] then []
    else
      assert s == [s[0]] + s[1..];
      InsertByDepth(s[0], SortByDepth(s[1..]))
  }

  /** Every directory of the tree that is live has the tree's time. */
  ghost predicate DirTimesHold(t: Tree, root: seq<Entry>) {
    forall p, e :: LeadsTo(root, p, e) && e.body.DirBody? && p in t && t[p].Dir? ==> Stands(t[p].mtime, e.sec, e.nsec)
  }

  /** What is not a directory of the tree is as it was. */
  ghost predicate OnlyDirs(t: Tree, s: Tree, root: seq<Entry>) {
    forall q :: q in t && !HasDir(root, q) ==> q in s && s[q] == t[q]
  }

  /** restore_dir_mtimes_from_tree: only directory times change. */
  method RestoreDirTimes(d: Disk, env: Env, root: seq<Entry>) returns (r: Outcome)
    requires IsTree(d.tree) && ValidEntries(root)
    modifies d
    ensures AlikeTrail(old(d.tree), d.tree, old(d.trace), d.trace) && !r.Diverged?
    ensures OnlyDirs(old(d.tree), d.tree, root)
    ensures r.Done? ==> DirTimesHold(d.tree, root)
  {
    hide IsTree, Alike, Honoured, ValidEntries, Flatten, TreeShaped, OnlyTouched, OnlyDirs, DirTimesHold, HasDir;
    var dirs := DirTimes([], root);
    AlikeSelf(d.tree, d.trace);
    OnlyDirsSelf(d.tree, root);
    var ok := Validate(env, seq(|dirs|, i requires 0 <= i < |dirs| => dirs[i].path));
    if !ok { return Failed; }
    var order := SortByDepth(dirs);
    var stats;
    ghost var t := d.tree;
    ok, stats := TouchAll(d, order, NO_STATS);
    DirsTouched(t, d.tree, root, order);
    if !ok { return Failed; }
    forall x | x in dirs ensures Honoured(d.tree, x) {
      assert x in multiset(dirs) && x in multiset(order) && x in order;
      var k := LastOf(order, x);
      assert order[k] in multiset(order) && order[k] in multiset(dirs) && order[k] in dirs;
      OneTime(root, order[k], x);
    }
    DirsTimed(d.tree, root);
    return Done(stats);
  }

  lemma OnlyDirsSelf(t: Tree, root: seq<Entry>)
    ensures OnlyDirs(t, t, root)
  {
  }

  lemma DirsTouched(t: Tree, s: Tree, root: seq<Entry>, order: seq<Touch>)
    requires OnlyTouched(t, s, order) && multiset(order) == multiset(DirTimes([], root))
    ensures OnlyDirs(t, s, root)
  {
    hide LeadsTo, DirTimes, Flatten;
    forall q | q in t && !HasDir(root, q) ensures q in s && s[q] == t[q] {
      forall x | x in order ensures x.path != q {
        assert x in multiset(order) && x in multiset(DirTimes([], root)) && x in DirTimes([], root);
        DirTimesListed([], root, x);
        var u :| u in Flatten([], root) && u.mutation.Mkdir? && Wants(u) == x;
        var e := RootLeads(root, u);
      }
    }
  }

  lemma DirsTimed(t: Tree, root: seq<Entry>)
    requires forall x :: x in DirTimes([], root) ==> Honoured(t, x)
    ensures DirTimesHold(t, root)
  {
    hide LeadsTo, DirTimes, Flatten, Stands;
    forall p, e | LeadsTo(root, p, e) && e.body.DirBody? && p in t && t[p].Dir?
      ensures Stands(t[p].mtime, e.sec, e.nsec)
    {
      LeadsRoot(root, p, e);
      DirTimesListed([], root, Touch(p, e.sec, e.nsec));
      assert Wants(Upsert(p, MutationOf(e))) == Touch(p, e.sec, e.nsec);
    }
  }

  lemma AlikeSelf(t: Tree, a: seq<Tree>)
    requires IsTree(t)
    ensures AlikeTrail(t, t, a, a)
  {
  }

  lemma OneTime(root: seq<Entry>, x: Touch, y: Touch)
    requires ValidEntries(root) && x in DirTimes([], root) && y in DirTimes([], root) && x.path == y.path
    ensures x == y
  {
    hide DirTimes, ValidEntries, IsInput, WellSized, Flatten, ListsDir;
    var us := Flatten([], root);
    FlattenTreeShaped([], root);
    DirTimesListed([], root, x);
    DirTimesListed([], root, y);
    var u :| u in us && u.mutation.Mkdir? && Wants(u) == x;
    var v :| v in us && v.mutation.Mkdir? && Wants(v) == y;
    var i :| 0 <= i < |us| && us[i] == u;
    var j :| 0 <= j < |us| && us[j] == v;
    assert i == j;
  }

  /** What a finished session has made of the change set: as before, only that a directory of the
      agreed tree has the tree's time. */
  ghost predicate FulfilledUnder(st: Store, t: Tree, cs: ChangeSet, root: seq<Entry>) {
    && (forall q :: q in t && Drops(cs, q) ==> PutsSome(cs, q))
    && (Coherent(cs) ==> forall p, s :: Puts(cs, p, s) ==> IsPutUnder(st, t, p, s, root))
  }

  ghost predicate IsPutUnder(st: Store, t: Tree, p: Path, s: State, root: seq<Entry>) {
    p in t && SameState(st, t[p], s) && (Timed(t[p], s.sec, s.nsec) || (s.DirState? && HasDir(root, p)))
  }

  /** apply_session_change_set: the change set, then the times of the directories of the tree
      the session has agreed on. */
  method ApplySession(d: Disk, env: Env, fold: Path -> string, base: Option<seq<Entry>>, cs: ChangeSet,
                      root: seq<Entry>)
    returns (r: Outcome, ghost changed: Outcome)
    requires IsTree(d.tree) && ValidEnv(env) && (base.Some? ==> ValidEntries(base.value)) && ValidEntries(root)
    requires forall p :: Names(cs, p) ==> p != [] && !IsTemp(Last(p))
    modifies d
    ensures IsTree(d.tree) && old(d.trace) <= d.trace
    ensures r.Done? ==> FulfilledUnder(env.st, d.tree, cs, root) && DirTimesHold(d.tree, root)
    ensures r.Done? ==> changed.Done? && OnRecord(env.st, fold, old(d.tree), cs, d.tree, changed.stats)
    ensures Confined(old(d.tree), cs, d.tree)
    ensures forall i :: |old(d.trace)| <= i < |d.trace| ==> Confined(old(d.tree), cs, d.trace[i])
    ensures r.Diverged? ==> base.Some? && d.tree == old(d.tree) && d.trace == old(d.trace)
    ensures r.Diverged? ==> !(LiveIsBase(env.st, old(d.tree), base.value) && DropsKnown(cs, base.value))
    ensures r.Diverged? ==> Objections(env.st, old(d.tree), base.value, r.paths)
    ensures base.Some? ==> GuardedSet(env.st, old(d.tree), base.value, cs, d.tree)
    ensures base.Some? ==> forall i :: |old(d.trace)| <= i < |d.trace| ==>
          GuardedSet(env.st, old(d.tree), base.value, cs, d.trace[i])
  {
    hide *;
    ghost var plan, touches, steps;
    ghost var t0, trail0 := d.tree, d.trace;
    r, plan, touches, steps := ApplyChangeSet(d, env, fold, base, cs);
    changed := r;
    if r.Done? {
      ghost var t, trail := d.tree, d.trace;
      r := RestoreDirTimes(d, env, root);
      TrailAlike(t, d.tree, trail, d.trace);
      FulfilledAlike(env.st, t, d.tree, cs, root);
      RecordAlike(env.st, fold, t0, cs, t, d.tree, changed.stats);
      forall s | Alike(t, s) ensures Confined(t0, cs, s) { ConfinedAlike(t0, cs, t, s); }
      forall i | |trail0| <= i < |d.trace| ensures Confined(t0, cs, d.trace[i]) {
        if i < |trail| { assert d.trace[i] == trail[i]; }
      }
      if base.Some? {
        forall s | Alike(t, s) ensures GuardedSet(env.st, t0, base.value, cs, s) {
          GuardedAlike(env.st, t0, base.value, cs, t, s);
        }
        forall i | |trail0| <= i < |d.trace| ensures GuardedSet(env.st, t0, base.value, cs, d.trace[i]) {
          if i < |trail| { assert d.trace[i] == trail[i]; }
        }
      }
    }
  }

  lemma TrailAlike(t: Tree, s: Tree, a: seq<Tree>, b: seq<Tree>)
    requires AlikeTrail(t, s, a, b)
    ensures IsTree(s) && Alike(t, s) && a <= b && forall i :: |a| <= i < |b| ==> Alike(t, b[i])
  {
    hide IsTree, Alike;
  }

  lemma FulfilledAlike(st: Store, t: Tree, s: Tree, cs: ChangeSet, root: seq<Entry>)
    requires Fulfilled(st, t, cs) && Alike(t, s) && OnlyDirs(t, s, root)
    ensures FulfilledUnder(st, s, cs, root)
  {
    hide Drops, PutsSome, Coherent, Puts, Spells, Stands, LinkStands, HasDir;
    forall q | q in s && Drops(cs, q) ensures PutsSome(cs, q) { assert Agree(t, s, q); }
    if Coherent(cs) {
      forall p, x | Puts(cs, p, x) ensures IsPutUnder(st, s, p, x, root) {
        assert IsPut(st, t, p, x);
        assert Agree(t, s, p);
      }
    }
  }

  lemma {:induction false} BytesAlike(s: Tree, u: Tree, cs: seq<Path>)
    requires Alike(s, u)
    ensures BytesOf(u, cs) == BytesOf(s, cs)
  {
    if cs != [] {
      BytesAlike(s, u, cs[..|cs| - 1]);
      assert Agree(s, u, cs[|cs| - 1]);
    }
  }

  lemma RecordAlike(st: Store, fold: Path -> string, t: Tree, cs: ChangeSet, s: Tree, u: Tree, stats: Stats)
    requires OnRecord(st, fold, t, cs, s, stats) && Alike(s, u)
    ensures OnRecord(st, fold, t, cs, u, stats)
  {
    hide PutsSome, IsTemp, OneEach, ParentsFirst, ChildrenFirst, Puts, IsRewritten, Coherent, Drops, BytesOf;
    forall q ensures (q in u <==> q in s) && (Struck(t, u, q) <==> Struck(t, s, q)) { assert Agree(s, u, q); }
    BytesAlike(s, u, stats.creations);
  }

  /** A change of directory times loses nothing. */
  lemma GuardedAlike(st: Store, t: Tree, base: seq<Entry>, cs: ChangeSet, s: Tree, u: Tree)
    requires GuardedSet(st, t, base, cs, s) && Alike(s, u)
    ensures GuardedSet(st, t, base, cs, u)
  {
    hide AsBase, Overruled, IsTemp, HasEntry;
    forall q ensures q in u <==> q in s { assert Agree(s, u, q); }
    forall q | Lost(t, u, q) && q != [] && !IsTemp(Last(q))
      ensures AsBase(st, t, base, q) || Overruled(t, base, cs, q)
    {
      assert Agree(s, u, q);
      assert Lost(t, s, q);
    }
  }
}
