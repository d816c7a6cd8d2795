/** What a run of the applier means for the tree, drawn from its history. */
module ApplyLaws {
  import opened Blobs
  import opened Paths
  import opened TempNames
  import opened UnixTime
  import opened FileTree
  import opened ApplyPlan
  import opened ApplyExec
  import opened ApplyGuard
  import opened ApplyRun

  // ---- frames over a history ---------------------------------------------------------------

  /** The upsert may change what is at `q`. */
  predicate Concerns(u: Upsert, q: Path) {
    Reaches(u.path, u.mutation, q)
  }

  lemma {:induction false} StepsAgree(st: Store, ups: seq<Upsert>, steps: seq<Tree>, a: nat, b: nat, q: Path)
    requires Stepping(st, ups, steps) && a <= b < |steps| && forall k :: a <= k < b ==> !Concerns(ups[k], q)
    ensures Agree(steps[a], steps[b], q)
    decreases b
  {
    hide Carried;
    if a < b {
      StepsAgree(st, ups, steps, a, b - 1, q);
      assert During(st, steps[b - 1], steps[b - 1 + 1], ups[b - 1].path, ups[b - 1].mutation);
      assert !Concerns(ups[b - 1], q);
    }
  }

  lemma AmidAgrees(st: Store, ups: seq<Upsert>, steps: seq<Tree>, s: Tree, q: Path)
    requires Stepping(st, ups, steps) && Amid(st, ups, steps, s) && forall k :: 0 <= k < |ups| ==> !Concerns(ups[k], q)
    ensures Agree(steps[0], s, q)
  {
    hide Carried, Stepping;
    var i :| 0 <= i < |steps| && i < |ups| && During(st, steps[i], s, ups[i].path, ups[i].mutation);
    StepsAgree(st, ups, steps, 0, i, q);
    assert !Concerns(ups[i], q);
  }

  lemma {:induction false} StepsKeys(st: Store, ups: seq<Upsert>, steps: seq<Tree>, b: nat, q: Path)
    requires Stepping(st, ups, steps) && b < |steps| && q in steps[b]
    ensures q in steps[0] || exists k :: 0 <= k < b && ups[k].path == q
    decreases b
  {
    hide During;
    if b > 0 {
      assert Carried(st, steps[b - 1], steps[b - 1 + 1], ups[b - 1].path, ups[b - 1].mutation);
      if q != ups[b - 1].path { StepsKeys(st, ups, steps, b - 1, q); }
    }
  }

  lemma AmidKeys(st: Store, ups: seq<Upsert>, steps: seq<Tree>, s: Tree, q: Path)
    requires Stepping(st, ups, steps) && Amid(st, ups, steps, s) && q in s
    ensures q in steps[0] || exists k :: 0 <= k < |ups| && (ups[k].path == q || TempBeside(ups[k].path, q))
  {
    hide Carried, Stepping;
    var i :| 0 <= i < |steps| && i < |ups| && During(st, steps[i], s, ups[i].path, ups[i].mutation);
    if q in steps[i] { StepsKeys(st, ups, steps, i, q); }
  }

  /** In no state of a run has anything changed that no listed path reaches. */
  lemma RunFrame(st: Store, t: Tree, rms: seq<Remove>, plan: seq<Upsert>, steps: seq<Tree>, s: Tree, q: Path)
    requires InRun(st, t, rms, plan, steps, s)
    requires !Takes(rms, q) && forall k :: 0 <= k < |plan| ==> !Concerns(plan[k], q)
    ensures Agree(t, s, q)
  {
    hide Takes, During, Carried, Amid;
    if Reduced(t, s, rms) { assert Agree(t, s, q); }
    else {
      assert Agree(t, steps[0], q);
      if Amid(st, plan, steps, s) { AmidAgrees(st, plan, steps, s, q); }
      else { StepsAgree(st, plan, steps, 0, |plan|, q); assert Agree(steps[|plan|], s, q); }
    }
  }

  /** In every state of a run, a name that is neither old nor listed is a temporary one. */
  lemma RunKeys(st: Store, t: Tree, rms: seq<Remove>, plan: seq<Upsert>, steps: seq<Tree>, s: Tree, q: Path)
    requires InRun(st, t, rms, plan, steps, s) && q in s
    ensures q in t || exists k :: 0 <= k < |plan| && (plan[k].path == q || TempBeside(plan[k].path, q))
  {
    hide Takes, Stepping, Amid, TempBeside;
    if Reduced(t, s, rms) {}
    else if Amid(st, plan, steps, s) { AmidKeys(st, plan, steps, s, q); }
    else { assert Agree(steps[|plan|], s, q); StepsKeys(st, plan, steps, |plan|, q); }
  }

  /** A run that went through leaves no draft: every name is old or listed. */
  lemma CompleteKeys(st: Store, t: Tree, rms: seq<Remove>, plan: seq<Upsert>, touches: seq<Touch>, steps: seq<Tree>,
                     now: Tree, stats: Stats, q: Path)
    requires Complete(st, t, rms, plan, touches, steps, now, stats) && q in now
    ensures q in t || exists k :: 0 <= k < |plan| && plan[k].path == q
  {
    hide Takes, Stepping, AllHonoured, Accounted, Ascending, ChildrenFirst, IsTree;
    assert Agree(steps[|plan|], now, q);
    StepsKeys(st, plan, steps, |plan|, q);
  }

  // ---- what the deletions say ------------------------------------------------------------------

  lemma RoomGrows(before: seq<Path>, after: seq<Path>, t: Tree, p: Path, m: Mutation, q: Path)
    requires MadeRoom(before, after, t, p, m)
    ensures before <= after && (q in before ==> q in after)
  {
    if q in before { var k :| 0 <= k < |before| && before[k] == q; assert after[k] == q; }
  }

  /** What an upsert removes from a tree, temporary names aside, it records. */
  lemma StepLoss(st: Store, s: Tree, u: Tree, p: Path, m: Mutation, before: seq<Path>, after: seq<Path>, q: Path)
    requires IsTree(s) && During(st, s, u, p, m) && Carried(st, s, u, p, m) && MadeRoom(before, after, s, p, m)
    requires q in s && q !in u && q != [] && !IsTemp(Last(q))
    ensures q in after
  {
    hide IsTemp, Result;
    assert Reaches(p, m, q) by { assert Reaches(p, m, q) || Agree(s, u, q); }
    assert p < q;
    Ancestors(s, p, q);
    assert q in after[|before|..];
  }

  lemma {:induction false} LoggedLoss(st: Store, t: Tree, plan: seq<Upsert>, steps: seq<Tree>, logs: seq<seq<Path>>,
                                      i: nat, q: Path)
    requires Stepping(st, plan, steps) && (forall s :: s in steps ==> IsTree(s)) && Logged(plan, steps, logs)
    requires Tallied(t, steps[0], logs[0]) && i < |steps|
    requires q in t && q !in steps[i] && q != [] && !IsTemp(Last(q))
    ensures q in logs[i]
    decreases i
  {
    hide During, Carried, MadeRoom, IsTree, IsTemp;
    if i > 0 {
      assert steps[i - 1] in steps;
      var p, m := plan[i - 1].path, plan[i - 1].mutation;
      assert MadeRoom(logs[i - 1], logs[i - 1 + 1], steps[i - 1], p, m);
      assert During(st, steps[i - 1], steps[i - 1 + 1], p, m) && Carried(st, steps[i - 1], steps[i - 1 + 1], p, m);
      if q in steps[i - 1] {
        StepLoss(st, steps[i - 1], steps[i], p, m, logs[i - 1], logs[i], q);
      } else {
        LoggedLoss(st, t, plan, steps, logs, i - 1, q);
        RoomGrows(logs[i - 1], logs[i], steps[i - 1], p, m, q);
      }
    }
  }

  /** Whatever a run that went through has taken away, temporary names aside, it has recorded. */
  lemma LossRecorded(st: Store, t: Tree, rms: seq<Remove>, plan: seq<Upsert>, touches: seq<Touch>, steps: seq<Tree>,
                     now: Tree, stats: Stats, q: Path)
    requires Complete(st, t, rms, plan, touches, steps, now, stats)
    requires q in t && q !in now && q != [] && !IsTemp(Last(q))
    ensures q in stats.deletions
  {
    hide Takes, Stepping, AllHonoured, Ascending, ChildrenFirst, IsTree, MadeRoom, Tallied, IsTemp;
    assert Agree(steps[|plan|], now, q);
    var logs :| Logged(plan, steps, logs) && Tallied(t, steps[0], logs[0]) && logs[|steps| - 1] == stats.deletions;
    LoggedLoss(st, t, plan, steps, logs, |plan|, q);
  }

  // ---- plans of whole trees ------------------------------------------------------------------

  /** No upsert of the plan concerns another one's path. */
  ghost predicate Apart(plan: seq<Upsert>) {
    forall i, j :: 0 <= i < |plan| && 0 <= j < |plan| && i != j ==> !Concerns(plan[j], plan[i].path)
  }

  lemma {:induction false} AncestorListed(ups: seq<Upsert>, i: nat, p: Path)
    requires TreeShaped(ups, []) && i < |ups| && p != [] && p < ups[i].path
    ensures exists k :: 0 <= k < |ups| && ups[k].path == p && ups[k].mutation.Mkdir?
    decreases |ups[i].path|
  {
    var x := Parent(ups[i].path);
    var k :| 0 <= k < |ups| && ups[k].path == x && ups[k].mutation.Mkdir?;
    if |p| < |x| { AncestorListed(ups, k, p); } else { assert p == x; }
  }

  lemma PlanApart(env: Env, fold: Path -> string, t: Tree, rms: seq<Remove>, ups: seq<Upsert>, plan: seq<Upsert>)
    requires TreeShaped(ups, []) && Plain(ups) && PlanOf(env, fold, t, rms, ups, plan)
    ensures Apart(plan)
  {
    hide PlanStep, IsTemp, TreeShaped, IsInput, WellSized;
    forall i, j | 0 <= i < |plan| && 0 <= j < |plan| && i != j ensures !Concerns(plan[j], plan[i].path) {
      assert plan[i].path == ups[i].path && plan[j].path == ups[j].path;
      ShapedDistinct(ups, i, j);
      if plan[j].path < plan[i].path { DirStaysPlanned(env, fold, t, rms, ups, plan, i, j); }
    }
  }

  lemma ShapedDistinct(ups: seq<Upsert>, i: nat, j: nat)
    requires TreeShaped(ups, []) && i < |ups| && j < |ups| && i != j
    ensures ups[i].path != ups[j].path && ups[i].path != []
  {
    hide IsInput, WellSized;
    if i < j { assert ups[i].path != ups[j].path; } else { assert ups[j].path != ups[i].path; }
  }

  lemma DirStaysPlanned(env: Env, fold: Path -> string, t: Tree, rms: seq<Remove>, ups: seq<Upsert>, plan: seq<Upsert>,
                        i: nat, j: nat)
    requires TreeShaped(ups, []) && PlanOf(env, fold, t, rms, ups, plan) && i < |ups| && j < |ups| && i != j
    requires ups[j].path < ups[i].path
    ensures !Replaces(plan[j].mutation)
  {
    hide TreeShaped, IsInput, WellSized, Compare, Shadowed;
    ShapedDistinct(ups, j, i);
    AncestorListed(ups, i, ups[j].path);
    var k :| 0 <= k < |ups| && ups[k].path == ups[j].path && ups[k].mutation.Mkdir?;
    if k != j { ShapedDistinct(ups, k, j); }
    assert PlanStep(env, fold, t, rms, ups[j]).Planned?;
  }

  /** Until its turn comes, a planned path is as the removals left it; afterwards it stays as
      its upsert left it. */
  lemma OwnTurn(st: Store, plan: seq<Upsert>, steps: seq<Tree>, i: nat, b: nat)
    requires Stepping(st, plan, steps) && Apart(plan) && i < |plan| && b < |steps|
    ensures b <= i ==> Agree(steps[0], steps[b], plan[i].path)
    ensures b > i ==> Agree(steps[i + 1], steps[b], plan[i].path)
  {
    hide During, Carried, Concerns;
    if b <= i {
      StepsAgree(st, plan, steps, 0, b, plan[i].path);
    } else { StepsAgree(st, plan, steps, i + 1, b, plan[i].path); }
  }

  /** Carrying out enough realises what was asked. */
  lemma EnoughRealises(st: Store, was: Option<Node>, now: Node, m0: Mutation, m: Mutation)
    requires IsInput(m0) && Enough(st, was, m0, m) && Result(st, was, now, m)
    ensures Realised(st, now, m0)
  {
  }

  lemma EnoughAgrees(st: Store, t: Tree, s: Tree, p: Path, m0: Mutation, m: Mutation)
    requires IsInput(m0) && Enough(st, At(t, p), m0, m) && Agree(t, s, p)
    ensures Enough(st, At(s, p), m0, m)
  {
  }

  lemma RealisedAgrees(st: Store, t: Tree, s: Tree, p: Path, m: Mutation)
    requires IsInput(m) && p in t && Realised(st, t[p], m) && Agree(t, s, p)
    ensures p in s && Realised(st, s[p], m)
  {
  }

  lemma PlanEnough(env: Env, fold: Path -> string, t: Tree, rms: seq<Remove>, ups: seq<Upsert>, plan: seq<Upsert>,
                   i: nat)
    requires PlanOf(env, fold, t, rms, ups, plan) && i < |ups| && IsInput(ups[i].mutation) && WellSized(ups[i].mutation)
    ensures plan[i].path == ups[i].path && Enough(env.st, At(t, ups[i].path), ups[i].mutation, plan[i].mutation)
    ensures ups[i].mutation.Mkdir? && plan[i].mutation.Skip? ==>
          PlanStep(env, fold, t, rms, ups[i]) == Planned(Skip, true, true)
  {
    PlanSound(env.st, At(t, ups[i].path), ups[i].mutation);
    assert PlanStep(env, fold, t, rms, ups[i]).Planned?;
  }

  /** The removals spare this path, or name it themselves, so that it was not planned for. */
  ghost predicate Spared(fold: Path -> string, rms: seq<Remove>, p: Path) {
    Takes(rms, p) ==> Shadowed(fold, rms, p)
  }

  /** A complete run leaves every listed path as it was asked for. */
  lemma PathRealised(env: Env, fold: Path -> string, t: Tree, rms: seq<Remove>, ups: seq<Upsert>, plan: seq<Upsert>,
                     steps: seq<Tree>, i: nat)
    requires PlanOf(env, fold, t, rms, ups, plan) && Apart(plan) && i < |ups| && IsInput(ups[i].mutation)
    requires WellSized(ups[i].mutation)
    requires Cleared(env.st, t, rms, plan, steps) && |steps| == |plan| + 1 && Spared(fold, rms, ups[i].path)
    ensures ups[i].path in steps[|plan|] && Realised(env.st, steps[|plan|][ups[i].path], ups[i].mutation)
  {
    hide Takes, PlanStep, Enough, Realised, Result, IsTree, During, Apart, IsInput, WellSized, Shadowed;
    var p, m0, m := ups[i].path, ups[i].mutation, plan[i].mutation;
    PlanEnough(env, fold, t, rms, ups, plan, i);
    OwnTurn(env.st, plan, steps, i, i);
    if Takes(rms, p) {
      HiddenPlan(env, fold, t, rms, ups, plan, i, At(steps[i], p));
    } else {
      assert Agree(t, steps[0], p);
      EnoughAgrees(env.st, t, steps[i], p, m0, m) by { assert Agree(steps[0], steps[i], p); }
    }
    assert Carried(env.st, steps[i], steps[i + 1], p, m);
    StepRealises(env.st, steps[i], steps[i + 1], p, m0, m);
    OwnTurn(env.st, plan, steps, i, |plan|);
    RealisedAgrees(env.st, steps[i + 1], steps[|plan|], p, m0);
  }

  lemma HiddenPlan(env: Env, fold: Path -> string, t: Tree, rms: seq<Remove>, ups: seq<Upsert>, plan: seq<Upsert>,
                   i: nat, live: Option<Node>)
    requires PlanOf(env, fold, t, rms, ups, plan) && i < |ups| && IsInput(ups[i].mutation)
    requires Shadowed(fold, rms, ups[i].path)
    ensures Enough(env.st, live, ups[i].mutation, plan[i].mutation)
  {
    assert PlanStep(env, fold, t, rms, ups[i]).Planned?;
  }

  lemma ShapedInput(ups: seq<Upsert>, i: nat)
    requires TreeShaped(ups, []) && i < |ups|
    ensures IsInput(ups[i].mutation) && WellSized(ups[i].mutation)
  {
  }

  lemma ShapedInputs(ups: seq<Upsert>)
    requires TreeShaped(ups, [])
    ensures forall k :: 0 <= k < |ups| ==> IsInput(ups[k].mutation) && WellSized(ups[k].mutation)
  {
  }

  lemma StepRealises(st: Store, t: Tree, u: Tree, p: Path, m0: Mutation, m: Mutation)
    requires IsInput(m0) && Enough(st, At(t, p), m0, m) && Carried(st, t, u, p, m)
    ensures p in u && Realised(st, u[p], m0)
  {
    if !m.Skip? { EnoughRealises(st, At(t, p), u[p], m0, m); }
  }

  lemma {:induction false} TouchesAfterSpec(plan: seq<Upsert>, x: Touch)
    ensures x in TouchesAfter(plan) <==> exists k :: 0 <= k < |plan| && plan[k].mutation.Mkdir? && Wants(plan[k]) == x
  {
    if plan != [] {
      var last := |plan| - 1;
      TouchesAfterSpec(plan[..last], x);
      assert plan == plan[..last] + [plan[last]];
      hide Wants;
      WantedSnoc(plan[..last], plan[last], x);
      LastWanted(plan[last], x);
    }
  }

  lemma WantedSnoc(us: seq<Upsert>, u: Upsert, x: Touch)
    ensures (exists k :: 0 <= k < |us + [u]| && (us + [u])[k].mutation.Mkdir? && Wants((us + [u])[k]) == x)
       <==> (exists k :: 0 <= k < |us| && us[k].mutation.Mkdir? && Wants(us[k]) == x)
            || (u.mutation.Mkdir? && Wants(u) == x)
  {
    hide Wants;
    var all := us + [u];
    if k :| 0 <= k < |us| && us[k].mutation.Mkdir? && Wants(us[k]) == x { assert all[k] == us[k]; }
    if u.mutation.Mkdir? && Wants(u) == x { assert all[|us|] == u; }
  }

  lemma LastWanted(u: Upsert, x: Touch)
    ensures x in TouchOf(u) <==> u.mutation.Mkdir? && Wants(u) == x
  {
  }

  /** Every listed directory is touched, with one time only. */
  lemma DirTouched(env: Env, fold: Path -> string, t: Tree, rms: seq<Remove>, ups: seq<Upsert>, plan: seq<Upsert>,
                   touches: seq<Touch>, i: nat)
    requires Paths.Distinct(ups, ByUpsert()) && PlanOf(env, fold, t, rms, ups, plan)
    requires forall k :: 0 <= k < |ups| ==> IsInput(ups[k].mutation) && WellSized(ups[k].mutation)
    requires TouchesOf(env, fold, t, rms, ups, touches) && i < |ups| && ups[i].mutation.Mkdir?
    ensures var all := touches + TouchesAfter(plan); var x := Wants(ups[i]);
            x in all && forall y :: y in all && y.path == x.path ==> y == x
  {
    hide PlanStep;
    var all, x := touches + TouchesAfter(plan), Wants(ups[i]);
    PlanEnough(env, fold, t, rms, ups, plan, i);
    if plan[i].mutation.Skip? { assert x in touches; }
    else { assert plan[i] == ups[i]; TouchesAfterSpec(plan, x); }
    forall y | y in all && y.path == x.path ensures y == x {
      if y in touches {
        var k :| 0 <= k < |ups| && ups[k].mutation.Mkdir? && y == Wants(ups[k]);
        OnePlace(ups, i, k);
      }
      else {
        TouchesAfterSpec(plan, y);
        var k :| 0 <= k < |plan| && plan[k].mutation.Mkdir? && Wants(plan[k]) == y;
        PlanEnough(env, fold, t, rms, ups, plan, k);
        OnePlace(ups, i, k);
      }
    }
  }

  lemma OnePlace(ups: seq<Upsert>, i: nat, k: nat)
    requires Paths.Distinct(ups, ByUpsert()) && i < |ups| && k < |ups| && ups[i].path == ups[k].path
    ensures i == k
  {
    assert ByUpsert()(ups[i]) == ByUpsert()(ups[k]);
  }

  // ---- the state a whole tree asks for -------------------------------------------------------

  /** No component is a temporary name. */
  predicate Clean(q: Path) { forall i :: 0 <= i < |q| ==> !IsTemp(q[i]) }

  ghost predicate Lists(ups: seq<Upsert>, q: Path) {
    exists u :: u in ups && u.path == q
  }

  /** The live tree is the desired one: kinds, bytes, exec bits, targets, and all times. */
  ghost predicate Holds(st: Store, t: Tree, ups: seq<Upsert>) {
    && (forall q :: q in t && q != [] && Clean(q) ==> Lists(ups, q))
    && (forall u :: u in ups ==> HoldsAt(st, t, u))
  }

  predicate HoldsAt(st: Store, t: Tree, u: Upsert) {
    && u.path in t && Realised(st, t[u.path], u.mutation)
    && (u.mutation.Mkdir? && t[u.path].Dir? ==> Stands(t[u.path].mtime, u.mutation.sec, u.mutation.nsec))
  }

  /** The removals a tree asks for: every live clean path that is not listed, and only those. */
  ghost predicate Clears(t: Tree, rms: seq<Remove>, ups: seq<Upsert>) {
    forall q :: Takes(rms, q) <==> q in t && q != [] && Clean(q) && !Lists(ups, q)
  }

  lemma CompleteHolds(env: Env, fold: Path -> string, t: Tree, rms: seq<Remove>, ups: seq<Upsert>, plan: seq<Upsert>,
                      touches: seq<Touch>, steps: seq<Tree>, now: Tree, stats: Stats)
    requires TreeShaped(ups, []) && Plain(ups) && Clears(t, rms, ups)
    requires PlanOf(env, fold, t, rms, ups, plan) && TouchesOf(env, fold, t, rms, ups, touches)
    requires Complete(env.st, t, rms, plan, touches, steps, now, stats)
    ensures Holds(env.st, now, ups)
  {
    hide TreeShaped, PlanOf, TouchesOf, Takes, Stands, Realised, PlanStep, IsTree, Plain, Reduced, Stepping,
      ChildrenFirst, Ascending, Apart, Shadowed;
    forall i | 0 <= i < |ups| ensures HoldsAt(env.st, now, ups[i]) {
      assert ups[i] in ups && Lists(ups, ups[i].path);
      ShapedInput(ups, i);
      PlanApart(env, fold, t, rms, ups, plan);
      PathRealised(env, fold, t, rms, ups, plan, steps, i);
      assert Agree(steps[|plan|], now, ups[i].path);
      RealisedAgrees(env.st, steps[|plan|], now, ups[i].path, ups[i].mutation);
      if ups[i].mutation.Mkdir? {
        ShapedOnce(ups, []);
        ShapedInputs(ups);
        DirTouched(env, fold, t, rms, ups, plan, touches, i);
        assert Honoured(now, Wants(ups[i]));
      }
    }
    forall q | q in now && q != [] && Clean(q) ensures Lists(ups, q) {
      NothingElse(env, fold, t, rms, ups, plan, steps, now, q);
    }
  }

  lemma NothingElse(env: Env, fold: Path -> string, t: Tree, rms: seq<Remove>, ups: seq<Upsert>, plan: seq<Upsert>,
                    steps: seq<Tree>, now: Tree, q: Path)
    requires Clears(t, rms, ups) && PlanOf(env, fold, t, rms, ups, plan)
    requires Cleared(env.st, t, rms, plan, steps) && |steps| == |plan| + 1 && Alike(steps[|plan|], now)
    requires q in now && q != [] && Clean(q)
    ensures Lists(ups, q)
  {
    hide Takes, PlanStep, IsTree, During, Carried;
    assert Agree(steps[|plan|], now, q);
    StepsKeys(env.st, plan, steps, |plan|, q);
    if q in steps[0] { assert q in t && !Takes(rms, q); }
    else { var k :| 0 <= k < |plan| && plan[k].path == q; assert ups[k] in ups; }
  }

  // ---- stopping anywhere -----------------------------------------------------------------------

  /** Old bytes or new bytes, whole. */
  predicate OldOrNew(st: Store, was: Node, t: Tree, p: Path, m: Mutation)
    requires was.File? && m.WriteFile?
  {
    p in t && t[p].File? && (t[p].bytes == was.bytes || Content(st, m.chunks) == Some(t[p].bytes))
  }

  /** In every state of a run, a file that is to be a file holds its old or its new bytes. */
  lemma NeverTorn(env: Env, fold: Path -> string, t: Tree, rms: seq<Remove>, ups: seq<Upsert>, plan: seq<Upsert>,
                  steps: seq<Tree>, s: Tree, i: nat)
    requires TreeShaped(ups, []) && Plain(ups) && PlanOf(env, fold, t, rms, ups, plan) && i < |ups|
    requires InRun(env.st, t, rms, plan, steps, s) && !Takes(rms, ups[i].path)
    requires ups[i].path in t && t[ups[i].path].File? && ups[i].mutation.WriteFile?
    ensures OldOrNew(env.st, t[ups[i].path], s, ups[i].path, ups[i].mutation)
  {
    hide Takes, TreeShaped, PlanStep, Result, IsTree, During, Carried, Apart, Content;
    var p := ups[i].path;
    if Reduced(t, s, rms) { assert Agree(t, s, p); return; }
    assert Agree(t, steps[0], p);
    PlanApart(env, fold, t, rms, ups, plan);
    ShapedInput(ups, i);
    PlanEnough(env, fold, t, rms, ups, plan, i);
    if Amid(env.st, plan, steps, s) {
      var k :| 0 <= k < |steps| && k < |plan| && During(env.st, steps[k], s, plan[k].path, plan[k].mutation);
      StepNotTorn(env.st, t[p], plan, steps, i, k, ups[i].mutation);
      DuringNotTorn(env.st, t[p], plan, steps[k], s, i, k, ups[i].mutation);
    } else {
      StepNotTorn(env.st, t[p], plan, steps, i, |plan|, ups[i].mutation);
      assert Agree(steps[|plan|], s, p);
    }
  }

  /** The plan for a file to be written over a file: write it, restore its time, or nothing. */
  predicate KeepsFile(m0: Mutation, m: Mutation) {
    m0.WriteFile? && (m == m0 || m.Skip? || m.RestoreTime?)
  }

  lemma DuringNotTorn(st: Store, was: Node, plan: seq<Upsert>, t: Tree, s: Tree, i: nat, k: nat, m0: Mutation)
    requires Apart(plan) && i < |plan| && k < |plan| && During(st, t, s, plan[k].path, plan[k].mutation)
    requires was.File? && KeepsFile(m0, plan[i].mutation)
    requires if k <= i then Unchanged(was, t, plan[i].path) else OldOrNew(st, was, t, plan[i].path, m0)
    ensures OldOrNew(st, was, s, plan[i].path, m0)
  {
    hide Content;
    if k != i { assert !Concerns(plan[k], plan[i].path); assert Agree(t, s, plan[i].path); }
  }

  predicate Unchanged(was: Node, t: Tree, p: Path) { p in t && t[p] == was }

  lemma StepNotTorn(st: Store, was: Node, plan: seq<Upsert>, steps: seq<Tree>, i: nat, k: nat, m0: Mutation)
    requires Stepping(st, plan, steps) && Apart(plan) && i < |plan| && k < |steps|
    requires was.File? && KeepsFile(m0, plan[i].mutation) && Unchanged(was, steps[0], plan[i].path)
    ensures if k <= i then Unchanged(was, steps[k], plan[i].path) else OldOrNew(st, was, steps[k], plan[i].path, m0)
  {
    hide During, Carried, Apart, Content;
    OwnTurn(st, plan, steps, i, k);
    if k > i {
      OwnTurn(st, plan, steps, i, i);
      assert During(st, steps[i], steps[i + 1], plan[i].path, plan[i].mutation);
      DuringNotTorn(st, was, plan, steps[i], steps[i + 1], i, i, m0);
    }
  }

  // ---- a second run ----------------------------------------------------------------------------

  predicate TimesInRange(ups: seq<Upsert>) {
    forall u :: u in ups && IsInput(u.mutation) ==> InRange(u.mutation.sec, u.mutation.nsec)
  }

  /** On a tree that already holds everything, planning decides to do nothing. */
  lemma SecondPlan(env: Env, fold: Path -> string, t: Tree, ups: seq<Upsert>, plan: seq<Upsert>, touches: seq<Touch>)
    requires TreeShaped(ups, []) && Holds(env.st, t, ups) && TimesInRange(ups)
    requires PlanOf(env, fold, t, [], ups, plan) && TouchesOf(env, fold, t, [], ups, touches)
    ensures AllSkips(plan) && CountSkips(plan) == |ups| && forall x :: x in touches ==> Current(t, x)
  {
    forall i | 0 <= i < |plan| ensures plan[i].mutation.Skip? {
      assert ups[i] in ups && HoldsAt(env.st, t, ups[i]);
      PlanSkips(env.st, t[ups[i].path], ups[i].mutation);
    }
    CountAll(plan);
    forall x | x in touches ensures Current(t, x) {
      var i :| 0 <= i < |ups| && ups[i].mutation.Mkdir? && x == Wants(ups[i]);
      assert ups[i] in ups && HoldsAt(env.st, t, ups[i]);
      StandsInRange(t[x.path].mtime, x.sec, x.nsec);
    }
  }

  lemma {:induction false} CountAll(plan: seq<Upsert>)
    requires AllSkips(plan)
    ensures CountSkips(plan) == |plan|
  {
    if plan != [] { CountAll(plan[..|plan| - 1]); }
  }

  // ---- sorting a tree's upserts -----------------------------------------------------------------

  lemma ShapedSort(ups: seq<Upsert>)
    requires TreeShaped(ups, [])
    ensures TreeShaped(Sort(ups, ByUpsert(), false), [])
    ensures forall u :: u in Sort(ups, ByUpsert(), false) <==> u in ups
  {
    SortMembers(ups, ByUpsert(), false);
    ShapedOnce(ups, []);
    SortDistinct(ups, ByUpsert(), false);
    ShapeMoves(ups, Sort(ups, ByUpsert(), false), []);
  }

  lemma ShapedOnce(us: seq<Upsert>, prefix: Path)
    requires TreeShaped(us, prefix)
    ensures Paths.Distinct(us, ByUpsert())
  {
    hide ListsDir, IsInput, WellSized;
  }

  /** The order of a tree's entries does not matter to its shape. */
  lemma ShapeMoves(us: seq<Upsert>, s: seq<Upsert>, prefix: Path)
    requires TreeShaped(us, prefix) && Paths.Distinct(s, ByUpsert()) && forall u :: u in s <==> u in us
    ensures TreeShaped(s, prefix)
  {
    hide ListsDir, IsInput, WellSized;
    forall i, j | 0 <= i < j < |s| ensures s[i].path != s[j].path { assert ByUpsert()(s[i]) != ByUpsert()(s[j]); }
    forall i | 0 <= i < |s|
      ensures prefix < s[i].path && IsInput(s[i].mutation) && WellSized(s[i].mutation)
      ensures Parent(s[i].path) != prefix ==> ListsDir(s, Parent(s[i].path))
    {
      assert s[i] in us;
      var j :| 0 <= j < |us| && us[j] == s[i];
      if Parent(s[i].path) != prefix { DirStays(us, s, Parent(s[i].path)); }
    }
  }

  lemma DirStays(us: seq<Upsert>, s: seq<Upsert>, p: Path)
    requires ListsDir(us, p) && forall u :: u in s <==> u in us
    ensures ListsDir(s, p)
  {
    var k :| 0 <= k < |us| && us[k].path == p && us[k].mutation.Mkdir?;
    assert us[k] in s;
  }

  /** Creations come out parents first. */
  lemma {:induction false} CreationsAscend(plan: seq<Upsert>)
    requires Sorted(plan, ByUpsert(), false)
    ensures ParentsFirst(CreationsOf(plan)) && forall c :: c in CreationsOf(plan) ==> Lists(plan, c)
  {
    if plan != [] {
      var last := |plan| - 1;
      var init := plan[..last];
      CreationsAscend(init);
      var cs := CreationsOf(init);
      forall c | c in cs ensures Lists(plan, c) && !(plan[last].path < c) {
        assert Lists(init, c);
        var u :| u in init && u.path == c;
        var k :| 0 <= k < |init| && init[k] == u;
        assert plan[k] == init[k] && plan[k] in plan && ByUpsert()(plan[k]) == c
          && ByUpsert()(plan[last]) == plan[last].path;
        SortedPrefixes(plan, ByUpsert(), false, k, last);
      }
      assert plan[last] in plan && Lists(plan, plan[last].path);
      var all := CreationsOf(plan);
      assert all == cs + if Creates(plan[last].mutation) then [plan[last].path] else [];
      forall i, j | 0 <= i < j < |all| ensures !(all[j] < all[i]) {
        assert all[i] == cs[i];
        if j < |cs| { assert all[j] == cs[j]; } else { assert cs[i] in cs; }
      }
    }
  }

  /** No path is created after one inside it. */
  ghost predicate ParentsFirst(cs: seq<Path>) {
    forall i, j :: 0 <= i < j < |cs| ==> !(cs[j] < cs[i])
  }

  // ---- what a guarded run may destroy -----------------------------------------------------------

  /** A live file or link is gone, or no longer what it was (its time aside). */
  predicate Lost(t: Tree, s: Tree, q: Path) {
    q in t && !t[q].Dir? && (q !in s || WithTime(s[q], 0) != WithTime(t[q], 0))
  }

  /** The one case the guard lets pass unchecked: the base has a directory where an upsert goes. */
  ghost predicate Unguarded(base: seq<Entry>, plan: seq<Upsert>, q: Path) {
    exists k :: 0 <= k < |plan| && Concerns(plan[k], q) && plan[k].path <= q && HasDir(base, plan[k].path)
  }

  /** Once the guard has passed, no state of the run has lost anything but what was as the base
      says, apart from the unguarded case. */
  lemma GuardedLoss(st: Store, t: Tree, base: seq<Entry>, rms: seq<Remove>, plan: seq<Upsert>, steps: seq<Tree>,
                    s: Tree, q: Path)
    requires IsTree(t) && ValidEntries(base) && GuardPasses(st, t, base, rms, plan) && InRun(st, t, rms, plan, steps, s)
    requires Lost(t, s, q) && !IsTemp(Last(q)) && forall k :: 0 <= k < |plan| ==> plan[k].path != []
    ensures AsBase(st, t, base, q) || Unguarded(base, plan, q)
  {
    hide ValidEntries, InRun, SubtreeMatches, Matches, Lookup;
    if Takes(rms, q) {
      var i :| 0 <= i < |rms| && TakesOne(rms[i], q);
      RemovalLoss(st, t, base, rms[i], q);
    } else if exists k :: 0 <= k < |plan| && Concerns(plan[k], q) {
      var k :| 0 <= k < |plan| && Concerns(plan[k], q);
      UpsertLoss(st, t, base, plan, k, q);
    } else {
      RunFrame(st, t, rms, plan, steps, s, q);
    }
  }

  lemma RemovalLoss(st: Store, t: Tree, base: seq<Entry>, rm: Remove, q: Path)
    requires IsTree(t) && ValidEntries(base) && RemovalMatches(st, t, base, rm) && TakesOne(rm, q) && q in t
    requires !t[q].Dir?
    ensures AsBase(st, t, base, q)
  {
    hide ValidEntries, SubtreeMatches, Matches, Lookup;
    var e := Lookup(base, rm.path).value;
    PrefixCases(rm.path, q);
    if q != rm.path {
      Ancestors(t, rm.path, q);
      SubtreeAsBase(st, t, base, rm.path, e, q);
    } else {
      MatchesAsBase(st, t, base, q);
    }
  }

  lemma UpsertLoss(st: Store, t: Tree, base: seq<Entry>, plan: seq<Upsert>, k: nat, q: Path)
    requires IsTree(t) && ValidEntries(base) && k < |plan| && UpsertMatches(st, t, base, plan[k].path)
    requires Concerns(plan[k], q)
    requires q in t && !t[q].Dir? && !IsTemp(Last(q)) && plan[k].path != []
    ensures AsBase(st, t, base, q) || Unguarded(base, plan, q)
  {
    hide Lookup, ValidEntries, HasDir, AsBase;
    var p := plan[k].path;
    PrefixCases(p, q);
    if p < q { Ancestors(t, p, q); }
    LookupEntry(base, p);
    if HasDir(base, p) { assert plan[k].path <= q; } else { MatchesAsBase(st, t, base, q); }
  }
}
