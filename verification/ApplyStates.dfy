/** What a run of removals and upserts has done when it ends, and what holds in every state on the way. */
module ApplyStates {
  import opened Blobs
  import opened Paths
  import opened TempNames
  import opened UnixTime
  import opened FileTree
  import opened ApplyPlan
  import opened ApplyExec
  import opened ApplyGuard
  import opened ApplyRun
  import opened ApplyLaws

  /** What holds in every state, wherever the run stops: no file that stays a file is torn, and
      a name of neither tree is a temporary one. */
  ghost predicate Intact(st: Store, t: Tree, desired: seq<Upsert>, s: Tree) {
    && (forall u :: u in desired && u.mutation.WriteFile? && u.path in t && t[u.path].File? ==>
        OldOrNew(st, t[u.path], s, u.path, u.mutation))
    && (forall q :: q in s && q != [] ==> q in t || Lists(desired, q) || IsTemp(Last(q)))
  }

  /** An upsert of `p` reaches `q` where the base has a directory at `p`, other than to leave a
      directory in place. */
  ghost predicate Overrides(t: Tree, base: seq<Entry>, p: Path, dir: bool, q: Path) {
    p <= q && HasDir(base, p) && !(dir && p in t && t[p].Dir?)
  }

  ghost predicate Exempt(t: Tree, base: seq<Entry>, desired: seq<Upsert>, q: Path) {
    exists u :: u in desired && Overrides(t, base, u.path, u.mutation.Mkdir?, q)
  }

  /** What the base has and the live tree has not is not made again. */
  ghost predicate NothingRevived(t: Tree, base: seq<Entry>, s: Tree) {
    forall q :: q in s && q !in t && q != [] && !IsTemp(Last(q)) ==> !HasEntry(base, q)
  }

  /** Whatever is lost in `s` was as the base says, and whatever is new was not in the base. */
  ghost predicate Guarded(st: Store, t: Tree, base: seq<Entry>, desired: seq<Upsert>, s: Tree) {
    && (forall q :: Lost(t, s, q) && q != [] && !IsTemp(Last(q)) ==>
        AsBase(st, t, base, q) || Exempt(t, base, desired, q))
    && NothingRevived(t, base, s)
  }

  /** What a finished run leaves of names, and what it says of them: no draft is left, and all that is
      gone is in the record. */
  ghost predicate Tidied(t: Tree, ups: seq<Upsert>, s: Tree, ds: seq<Path>) {
    && (forall q :: q in s ==> q in t || Lists(ups, q))
    && (forall q :: q in t && q !in s && q != [] && !IsTemp(Last(q)) ==> q in ds)
  }

  /** Parents were created before what is in them; children were deleted before what they were in,
      unless some path is upserted twice. */
  ghost predicate InOrder(stats: Stats, ups: seq<Upsert>) {
    && ParentsFirst(stats.creations)
    && (Paths.Distinct(ups, ByUpsert()) ==> ChildrenFirst(stats.deletions))
  }

  /** No path is upserted twice or below a file or link that is upserted too, nor upserted while
      a removal of a directory above takes it. */
  ghost predicate Consistent(rms: seq<Remove>, ups: seq<Upsert>) {
    && (forall i, j :: 0 <= i < |ups| && 0 <= j < |ups| && i != j ==>
        ups[i].path != ups[j].path && !(Replaces(ups[j].mutation) && ups[j].path < ups[i].path))
    && (forall i :: 0 <= i < |ups| && Takes(rms, ups[i].path) ==>
        exists k :: 0 <= k < |rms| && rms[k].path == ups[i].path)
  }

  /** What a finished run has done with the removals and upserts it was given. */
  ghost predicate Applied(st: Store, t: Tree, rms: seq<Remove>, ups: seq<Upsert>) {
    && (forall q :: q in t && Takes(rms, q) ==> Lists(ups, q))
    && (Consistent(rms, ups) ==> forall u :: u in ups ==> HoldsAt(st, t, u))
  }

  lemma RunTidied(env: Env, fold: Path -> string, t: Tree, rms: seq<Remove>, ups: seq<Upsert>, sorted: seq<Upsert>,
                  plan: seq<Upsert>, touches: seq<Touch>, steps: seq<Tree>, now: Tree, stats: Stats)
    requires sorted == Sort(ups, ByUpsert(), false) && PlanOf(env, fold, t, rms, sorted, plan)
    requires Complete(env.st, t, rms, plan, touches, steps, now, stats)
    ensures Tidied(t, ups, now, stats.deletions)
  {
    hide Complete, PlanStep, IsTemp;
    SortMembers(ups, ByUpsert(), false);
    forall q | q in now ensures q in t || Lists(ups, q) {
      CompleteKeys(env.st, t, rms, plan, touches, steps, now, stats, q);
      if q !in t {
        var k :| 0 <= k < |plan| && plan[k].path == q;
        assert sorted[k].path == q && sorted[k] in sorted && sorted[k] in ups;
        var i :| 0 <= i < |ups| && ups[i] == sorted[k];
      }
    }
    forall q | q in t && q !in now && q != [] && !IsTemp(Last(q)) ensures q in stats.deletions {
      LossRecorded(env.st, t, rms, plan, touches, steps, now, stats, q);
    }
  }

  lemma InputsOf(us: seq<Upsert>)
    requires TreeShaped(us, [])
    ensures forall i :: 0 <= i < |us| ==> IsInput(us[i].mutation)
  {
  }

  lemma ListsSorted(us: seq<Upsert>, q: Path)
    ensures Lists(us, q) <==> Lists(Sort(us, ByUpsert(), false), q)
  {
    SortMembers(us, ByUpsert(), false);
  }

  lemma SortedPlan(us: seq<Upsert>)
    requires TreeShaped(us, []) && Plain(us)
    ensures var s := Sort(us, ByUpsert(), false); TreeShaped(s, []) && Plain(s)
  {
    ShapedSort(us);
    InputsOf(us);
    SortedPlain(us, Sort(us, ByUpsert(), false));
  }

  lemma ClearsSorted(t: Tree, rms: seq<Remove>, live: seq<Path>, desired: seq<Upsert>)
    requires forall q :: q in live <==> q in t && q != [] && Clean(q)
    requires forall q :: Takes(rms, q) <==> q in live && !Lists(desired, q)
    ensures Clears(t, rms, Sort(desired, ByUpsert(), false))
  {
    hide Takes, Clean;
    SortMembers(desired, ByUpsert(), false);
    forall q ensures Lists(desired, q) <==> Lists(Sort(desired, ByUpsert(), false), q) { ListsSorted(desired, q); }
  }

  lemma NothingYet(st: Store, t: Tree, base: Option<seq<Entry>>, desired: seq<Upsert>)
    ensures Intact(st, t, desired, t) && (base.Some? ==> Guarded(st, t, base.value, desired, t))
  {
  }

  lemma TreeDone(env: Env, fold: Path -> string, t: Tree, rms: seq<Remove>, desired: seq<Upsert>, ups: seq<Upsert>,
                 plan: seq<Upsert>, touches: seq<Touch>, steps: seq<Tree>, now: Tree, stats: Stats)
    requires TreeShaped(desired, []) && Plain(desired) && ups == Sort(desired, ByUpsert(), false) && Clears(t, rms, ups)
    requires PlanOf(env, fold, t, rms, ups, plan) && TouchesOf(env, fold, t, rms, ups, touches)
    requires Complete(env.st, t, rms, plan, touches, steps, now, stats)
    ensures Holds(env.st, now, desired)
  {
    hide TreeShaped, Plain, PlanOf, TouchesOf, Complete, Clears, Clean, HoldsAt;
    SortedPlan(desired);
    ShapedSort(desired);
    CompleteHolds(env, fold, t, rms, ups, plan, touches, steps, now, stats);
    forall q | q in now && q != [] && Clean(q) ensures Lists(desired, q) { ListsSorted(desired, q); }
  }

  lemma StateSound(env: Env, fold: Path -> string, t: Tree, rms: seq<Remove>, desired: seq<Upsert>, ups: seq<Upsert>,
                   plan: seq<Upsert>, steps: seq<Tree>, s: Tree)
    requires TreeShaped(desired, []) && Plain(desired) && ups == Sort(desired, ByUpsert(), false) && Clears(t, rms, ups)
    requires PlanOf(env, fold, t, rms, ups, plan) && InRun(env.st, t, rms, plan, steps, s)
    ensures Intact(env.st, t, desired, s)
  {
    hide TreeShaped, Plain, PlanStep, InRun, Clean, Takes, OldOrNew, IsTemp;
    SortedPlan(desired);
    ShapedSort(desired);
    forall u | u in desired && u.mutation.WriteFile? && u.path in t && t[u.path].File?
      ensures OldOrNew(env.st, t[u.path], s, u.path, u.mutation)
    {
      assert u in ups && Lists(ups, u.path);
      var i :| 0 <= i < |ups| && ups[i] == u;
      NeverTorn(env, fold, t, rms, ups, plan, steps, s, i);
    }
    forall q | q in s && q != [] ensures q in t || Lists(desired, q) || IsTemp(Last(q)) {
      RunKeys(env.st, t, rms, plan, steps, s, q);
      if q !in t {
        var k :| 0 <= k < |plan| && (plan[k].path == q || TempBeside(plan[k].path, q));
        if plan[k].path == q { assert ups[k] in ups && ups[k].path == q; }
      }
    }
  }

  lemma StatesSound(env: Env, fold: Path -> string, t: Tree, rms: seq<Remove>, desired: seq<Upsert>, ups: seq<Upsert>,
                    plan: seq<Upsert>, steps: seq<Tree>, now: Tree, a: seq<Tree>, b: seq<Tree>)
    requires TreeShaped(desired, []) && Plain(desired) && ups == Sort(desired, ByUpsert(), false) && Clears(t, rms, ups)
    requires PlanOf(env, fold, t, rms, ups, plan) && AllInRun(env.st, t, rms, plan, steps, now, a, b)
    ensures Intact(env.st, t, desired, now) && a <= b && forall i :: |a| <= i < |b| ==> Intact(env.st, t, desired, b[i])
  {
    hide TreeShaped, Plain, PlanOf, InRun, Clears, Intact;
    StateSound(env, fold, t, rms, desired, ups, plan, steps, now);
    forall i | |a| <= i < |b|
      ensures Intact(env.st, t, desired, b[i])
    {
      StateSound(env, fold, t, rms, desired, ups, plan, steps, b[i]);
    }
  }

  lemma StateGuarded(env: Env, fold: Path -> string, t: Tree, base: seq<Entry>, rms: seq<Remove>, desired: seq<Upsert>,
                     ups: seq<Upsert>, plan: seq<Upsert>, steps: seq<Tree>, s: Tree)
    requires IsTree(t) && ValidEntries(base) && Plain(ups) && (forall i :: 0 <= i < |ups| ==> IsInput(ups[i].mutation))
    requires (forall u :: u in ups ==> u in desired) && PlanOf(env, fold, t, rms, ups, plan)
    requires GuardPasses(env.st, t, base, rms, plan) && InRun(env.st, t, rms, plan, steps, s)
    ensures Guarded(env.st, t, base, desired, s)
  {
    hide IsTree, ValidEntries, GuardPasses, InRun, IsTemp, AsBase, Lost, HasDir, HasEntry, PlanStep;
    PlanPlain(env, fold, t, rms, ups, plan);
    forall q | Lost(t, s, q) && q != [] && !IsTemp(Last(q))
      ensures AsBase(env.st, t, base, q) || Exempt(t, base, desired, q)
    {
      GuardedLoss(env.st, t, base, rms, plan, steps, s, q);
      if !AsBase(env.st, t, base, q) {
        var k :| 0 <= k < |plan| && Concerns(plan[k], q) && plan[k].path <= q && HasDir(base, plan[k].path);
        LostIsNoDir(t, s, q);
        ExemptFrom(env, fold, t, rms, ups, plan, k, q);
        assert ups[k] in ups && ups[k] in desired;
      }
    }
    forall q | q in s && q !in t && q != [] && !IsTemp(Last(q)) ensures !HasEntry(base, q) {
      RunKeys(env.st, t, rms, plan, steps, s, q);
      var k :| 0 <= k < |plan| && (plan[k].path == q || TempBeside(plan[k].path, q));
      MadeAnew(env, fold, t, base, rms, ups, plan, k);
    }
  }

  /** What is to be made where nothing is live is not in the base. */
  lemma MadeAnew(env: Env, fold: Path -> string, t: Tree, base: seq<Entry>, rms: seq<Remove>, ups: seq<Upsert>,
                 plan: seq<Upsert>, k: nat)
    requires ValidEntries(base) && PlanOf(env, fold, t, rms, ups, plan) && GuardPasses(env.st, t, base, rms, plan)
    requires k < |plan| && plan[k].path !in t && IsInput(ups[k].mutation)
    ensures !HasEntry(base, plan[k].path)
  {
    hide RemovalMatches, Lookup, HasEntry, ValidEntries, Shadowed, Compare;
    LookupEntry(base, plan[k].path);
    assert PlanStep(env, fold, t, rms, ups[k]).Planned?;
    assert UpsertMatches(env.st, t, base, plan[k].path);
  }

  lemma LostIsNoDir(t: Tree, s: Tree, q: Path)
    requires Lost(t, s, q)
    ensures q in t && !t[q].Dir?
  {
  }

  /** What an upsert reaches, it reaches by more than leaving a directory in place. */
  lemma ExemptFrom(env: Env, fold: Path -> string, t: Tree, rms: seq<Remove>, ups: seq<Upsert>, plan: seq<Upsert>,
                   k: nat, q: Path)
    requires PlanOf(env, fold, t, rms, ups, plan) && k < |plan| && Concerns(plan[k], q) && IsInput(ups[k].mutation)
    requires q in t && !t[q].Dir? && q != [] && !IsTemp(Last(q))
    ensures plan[k].path == ups[k].path && !(ups[k].mutation.Mkdir? && ups[k].path in t && t[ups[k].path].Dir?)
  {
    hide IsTemp;
    assert PlanStep(env, fold, t, rms, ups[k]).Planned?;
  }

  lemma StatesGuarded(env: Env, fold: Path -> string, t: Tree, base: seq<Entry>, rms: seq<Remove>, desired: seq<Upsert>,
                      ups: seq<Upsert>, plan: seq<Upsert>, steps: seq<Tree>, now: Tree, a: seq<Tree>, b: seq<Tree>)
    requires IsTree(t) && ValidEntries(base) && Plain(desired)
    requires forall i :: 0 <= i < |desired| ==> IsInput(desired[i].mutation)
    requires ups == Sort(desired, ByUpsert(), false) && PlanOf(env, fold, t, rms, ups, plan)
    requires GuardPasses(env.st, t, base, rms, plan) && AllInRun(env.st, t, rms, plan, steps, now, a, b)
    ensures Guarded(env.st, t, base, desired, now) && forall i :: |a| <= i < |b| ==>
          Guarded(env.st, t, base, desired, b[i])
  {
    hide IsTree, ValidEntries, Plain, PlanOf, GuardPasses, InRun, Guarded;
    SortMembers(desired, ByUpsert(), false);
    SortedPlain(desired, ups);
    StateGuarded(env, fold, t, base, rms, desired, ups, plan, steps, now);
    forall i | |a| <= i < |b| ensures Guarded(env.st, t, base, desired, b[i]) {
      StateGuarded(env, fold, t, base, rms, desired, ups, plan, steps, b[i]);
    }
  }

  lemma TreeTwice(env: Env, fold: Path -> string, t: Tree, rms: seq<Remove>, live: seq<Path>, desired: seq<Upsert>,
                  ups: seq<Upsert>, plan: seq<Upsert>, touches: seq<Touch>, steps: seq<Tree>, now: Tree, r: Outcome)
    requires TreeShaped(desired, []) && ups == Sort(desired, ByUpsert(), false)
    requires forall q :: q in live <==> q in t && q != [] && Clean(q)
    requires (forall q :: q in live ==> Lists(desired, q)) ==> rms == []
    requires PlanOf(env, fold, t, rms, ups, plan) && TouchesOf(env, fold, t, rms, ups, touches)
    requires r.Done? ==> Complete(env.st, t, rms, plan, touches, steps, now, r.stats)
    ensures Holds(env.st, t, desired) && TimesInRange(desired) ==>
              rms == [] && AllSkips(plan) && (forall x :: x in touches ==> Current(t, x))
                && (r.Done? ==> r.stats.skipped == |desired|)
  {
    hide TreeShaped, PlanOf, TouchesOf, Clean, HoldsAt, AllSkips, Current;
    if Holds(env.st, t, desired) && TimesInRange(desired) {
      ShapedSort(desired);
      SortMembers(desired, ByUpsert(), false);
      assert Holds(env.st, t, ups) by {
        forall q | q in t && q != [] && Clean(q) ensures Lists(ups, q) { ListsSorted(desired, q); }
      }
      assert TimesInRange(ups);
      assert rms == [];
      SecondPlan(env, fold, t, ups, plan, touches);
    }
  }

  lemma SortedApart(env: Env, fold: Path -> string, t: Tree, rms: seq<Remove>, ups: seq<Upsert>, sorted: seq<Upsert>,
                    plan: seq<Upsert>)
    requires Consistent(rms, ups) && Plain(ups) && (forall i :: 0 <= i < |ups| ==> IsInput(ups[i].mutation))
    requires sorted == Sort(ups, ByUpsert(), false) && PlanOf(env, fold, t, rms, sorted, plan)
    ensures Apart(plan)
  {
    hide IsTemp, Takes;
    SortMembers(ups, ByUpsert(), false);
    SortedPlain(ups, sorted);
    assert Paths.Distinct(ups, ByUpsert());
    SortDistinct(ups, ByUpsert(), false);
    forall i, j | 0 <= i < |plan| && 0 <= j < |plan| && i != j ensures !Concerns(plan[j], plan[i].path) {
      assert ByUpsert()(sorted[i]) == sorted[i].path && ByUpsert()(sorted[j]) == sorted[j].path;
      assert sorted[i] in ups && sorted[j] in ups;
      var i' :| 0 <= i' < |ups| && ups[i'] == sorted[i];
      var j' :| 0 <= j' < |ups| && ups[j'] == sorted[j];
      assert sorted[i].path != sorted[j].path;
      PlannedReplaces(env, fold, t, rms, sorted[j]);
    }
  }

  lemma PlannedReplaces(env: Env, fold: Path -> string, t: Tree, rms: seq<Remove>, u: Upsert)
    requires IsInput(u.mutation)
    ensures var r := PlanStep(env, fold, t, rms, u); r.Planned? && Replaces(r.mutation) ==> Replaces(u.mutation)
  {
    hide Compare, Shadowed;
  }

  lemma ChangesApplied(env: Env, fold: Path -> string, t: Tree, rms: seq<Remove>, ups: seq<Upsert>, sorted: seq<Upsert>,
                       plan: seq<Upsert>, touches: seq<Touch>, steps: seq<Tree>, now: Tree, stats: Stats)
    requires Plain(ups) && (forall i :: 0 <= i < |ups| ==> IsInput(ups[i].mutation) && WellSized(ups[i].mutation))
    requires sorted == Sort(ups, ByUpsert(), false) && PlanOf(env, fold, t, rms, sorted, plan)
    requires TouchesOf(env, fold, t, rms, sorted, touches)
    requires Complete(env.st, t, rms, plan, touches, steps, now, stats)
    ensures Applied(env.st, now, rms, ups)
  {
    hide Takes, PlanStep, IsTree, During, Carried, Realised, Apart, Consistent, AllHonoured, ChildrenFirst, Ascending,
      Plain, HoldsAt, TouchesOf, IsInput, WellSized, Accounted;
    SortMembers(ups, ByUpsert(), false);
    forall q | q in now && Takes(rms, q) ensures Lists(ups, q) {
      KeptIsListed(env, fold, t, rms, ups, sorted, plan, touches, steps, now, stats, q);
    }
    if Consistent(rms, ups) {
      SortedApart(env, fold, t, rms, ups, sorted, plan);
      SortedOnce(rms, ups, sorted);
      SortedInputs(ups, sorted);
      forall u | u in ups ensures HoldsAt(env.st, now, u) {
        assert u in sorted;
        var i :| 0 <= i < |sorted| && sorted[i] == u;
        var j :| 0 <= j < |ups| && ups[j] == u;
        SparedBy(fold, rms, ups, j);
        ChangeApplied(env, fold, t, rms, sorted, plan, touches, steps, now, stats, i);
      }
    }
  }

  /** What is live in the end although a removal takes it is listed. */
  lemma KeptIsListed(env: Env, fold: Path -> string, t: Tree, rms: seq<Remove>, ups: seq<Upsert>, sorted: seq<Upsert>,
                     plan: seq<Upsert>, touches: seq<Touch>, steps: seq<Tree>, now: Tree, stats: Stats, q: Path)
    requires sorted == Sort(ups, ByUpsert(), false) && PlanOf(env, fold, t, rms, sorted, plan)
    requires Complete(env.st, t, rms, plan, touches, steps, now, stats) && q in now && Takes(rms, q)
    ensures Lists(ups, q)
  {
    hide Takes, PlanStep, IsTree, AllHonoured, ChildrenFirst, Ascending, Accounted, Stepping;
    SortMembers(ups, ByUpsert(), false);
    assert Agree(steps[|plan|], now, q);
    StepsKeys(env.st, plan, steps, |plan|, q);
    var k :| 0 <= k < |plan| && plan[k].path == q;
    assert sorted[k] in ups && sorted[k].path == q;
  }

  lemma SortedInputs(ups: seq<Upsert>, sorted: seq<Upsert>)
    requires forall i :: 0 <= i < |ups| ==> IsInput(ups[i].mutation) && WellSized(ups[i].mutation)
    requires forall u :: u in sorted <==> u in ups
    ensures forall i :: 0 <= i < |sorted| ==> IsInput(sorted[i].mutation) && WellSized(sorted[i].mutation)
  {
    hide IsInput, WellSized;
    forall i | 0 <= i < |sorted| ensures IsInput(sorted[i].mutation) && WellSized(sorted[i].mutation) {
      assert sorted[i] in ups;
      var k :| 0 <= k < |ups| && ups[k] == sorted[i];
    }
  }

  lemma ChangeApplied(env: Env, fold: Path -> string, t: Tree, rms: seq<Remove>, ups: seq<Upsert>, plan: seq<Upsert>,
                      touches: seq<Touch>, steps: seq<Tree>, now: Tree, stats: Stats, i: nat)
    requires PlanOf(env, fold, t, rms, ups, plan) && TouchesOf(env, fold, t, rms, ups, touches) && Apart(plan)
    requires forall k :: 0 <= k < |ups| ==> IsInput(ups[k].mutation) && WellSized(ups[k].mutation)
    requires Complete(env.st, t, rms, plan, touches, steps, now, stats) && Paths.Distinct(ups, ByUpsert())
    requires i < |ups| && Spared(fold, rms, ups[i].path)
    ensures HoldsAt(env.st, now, ups[i])
  {
    hide *;
    var u := ups[i];
    Completed(env.st, t, rms, plan, touches, steps, now, stats, u.path);
    PathRealised(env, fold, t, rms, ups, plan, steps, i);
    RealisedAgrees(env.st, steps[|plan|], now, u.path, u.mutation);
    if u.mutation.Mkdir? { DirTimed(env, fold, t, rms, ups, plan, touches, now, i); }
    HeldBy(env.st, now, u);
  }

  lemma Completed(st: Store, t: Tree, rms: seq<Remove>, plan: seq<Upsert>, touches: seq<Touch>, steps: seq<Tree>,
                  now: Tree, stats: Stats, q: Path)
    requires Complete(st, t, rms, plan, touches, steps, now, stats)
    ensures Cleared(st, t, rms, plan, steps) && |steps| == |plan| + 1 && Agree(steps[|plan|], now, q)
    ensures AllHonoured(now, touches + TouchesAfter(plan))
  {
    hide Cleared, AllHonoured, Agree, Accounted, TouchesAfter;
  }

  lemma HeldBy(st: Store, t: Tree, u: Upsert)
    requires u.path in t && Realised(st, t[u.path], u.mutation) && (u.mutation.Mkdir? ==> Honoured(t, Wants(u)))
    ensures HoldsAt(st, t, u)
  {
    hide Stands, LinkStands, Content;
  }

  lemma SortedOnce(rms: seq<Remove>, ups: seq<Upsert>, sorted: seq<Upsert>)
    requires Consistent(rms, ups) && sorted == Sort(ups, ByUpsert(), false)
    ensures Paths.Distinct(sorted, ByUpsert())
  {
    hide Takes;
    assert Paths.Distinct(ups, ByUpsert());
    SortDistinct(ups, ByUpsert(), false);
  }

  /** A directory that is asked for once has the time it was asked for with. */
  lemma DirTimed(env: Env, fold: Path -> string, t: Tree, rms: seq<Remove>, ups: seq<Upsert>, plan: seq<Upsert>,
                 touches: seq<Touch>, now: Tree, i: nat)
    requires Paths.Distinct(ups, ByUpsert()) && PlanOf(env, fold, t, rms, ups, plan)
    requires forall k :: 0 <= k < |ups| ==> IsInput(ups[k].mutation) && WellSized(ups[k].mutation)
    requires TouchesOf(env, fold, t, rms, ups, touches) && i < |ups| && ups[i].mutation.Mkdir?
    requires AllHonoured(now, touches + TouchesAfter(plan))
    ensures Honoured(now, Wants(ups[i]))
  {
    hide PlanOf, TouchesOf, IsInput, WellSized, Honoured, Wants;
    DirTouched(env, fold, t, rms, ups, plan, touches, i);
  }

  lemma SparedBy(fold: Path -> string, rms: seq<Remove>, ups: seq<Upsert>, i: nat)
    requires Consistent(rms, ups) && i < |ups|
    ensures Spared(fold, rms, ups[i].path)
  {
    hide Takes;
    if Takes(rms, ups[i].path) {
      var k :| 0 <= k < |rms| && rms[k].path == ups[i].path;
      assert fold(rms[k].path) == fold(ups[i].path);
    }
  }

  lemma ChangesInOrder(env: Env, fold: Path -> string, t: Tree, rms: seq<Remove>, ups: seq<Upsert>, sorted: seq<Upsert>,
                       plan: seq<Upsert>, touches: seq<Touch>, steps: seq<Tree>, now: Tree, stats: Stats)
    requires sorted == Sort(ups, ByUpsert(), false) && PlanOf(env, fold, t, rms, sorted, plan)
    requires Complete(env.st, t, rms, plan, touches, steps, now, stats)
    ensures InOrder(stats, ups)
  {
    hide Takes, PlanStep, Cleared, AllHonoured, ChildrenFirst, ParentsFirst, Alike, Sorted, Ascending;
    PlanSorted(env, fold, t, rms, ups, sorted, plan);
    CreationsAscend(plan);
    if Paths.Distinct(ups, ByUpsert()) { PlanAscends(env, fold, t, rms, ups, sorted, plan); }
  }

  lemma PlanSorted(env: Env, fold: Path -> string, t: Tree, rms: seq<Remove>, ups: seq<Upsert>, sorted: seq<Upsert>,
                   plan: seq<Upsert>)
    requires sorted == Sort(ups, ByUpsert(), false) && PlanOf(env, fold, t, rms, sorted, plan)
    ensures Sorted(plan, ByUpsert(), false)
  {
    hide PlanStep;
    SortSpec(ups, ByUpsert(), false);
    forall i, j | 0 <= i < j < |plan| ensures Leq(ByUpsert()(plan[i]), ByUpsert()(plan[j])) {
      assert plan[i].path == sorted[i].path && plan[j].path == sorted[j].path;
      assert Leq(ByUpsert()(sorted[i]), ByUpsert()(sorted[j]));
    }
  }

  lemma PlanAscends(env: Env, fold: Path -> string, t: Tree, rms: seq<Remove>, ups: seq<Upsert>, sorted: seq<Upsert>,
                    plan: seq<Upsert>)
    requires sorted == Sort(ups, ByUpsert(), false) && PlanOf(env, fold, t, rms, sorted, plan)
    requires Paths.Distinct(ups, ByUpsert())
    ensures Ascending(plan)
  {
    hide PlanStep;
    PlanSorted(env, fold, t, rms, ups, sorted, plan);
    SortDistinct(ups, ByUpsert(), false);
    forall k, i | 0 <= k < i < |plan| ensures !(plan[i].path <= plan[k].path) {
      assert ByUpsert()(sorted[k]) != ByUpsert()(sorted[i]) && sorted[k].path == plan[k].path
        && sorted[i].path == plan[i].path;
      SortedPrefixes(plan, ByUpsert(), false, k, i);
      PrefixCases(plan[i].path, plan[k].path);
    }
  }
}
