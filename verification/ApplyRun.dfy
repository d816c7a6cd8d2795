/** `run`: plan, guard, remove, upsert, touch. The upsert phase leaves a history of states behind,
    from which the lemmas below draw what a whole run does. */
module ApplyRun {
  import opened Blobs
  import opened Paths
  import opened TempNames
  import opened UnixTime
  import opened FileTree
  import opened ApplyPlan
  import opened ApplyExec
  import opened ApplyGuard

  // ---- planning ----------------------------------------------------------------------

  /** A removal of the same path, case and normal form aside, hides the entry from the planner. */
  ghost predicate Shadowed(fold: Path -> string, rms: seq<Remove>, p: Path) {
    exists i :: 0 <= i < |rms| && fold(rms[i].path) == fold(p)
  }

  function FoldKeys(fold: Path -> string, rms: seq<Remove>): set<string> {
    set i | 0 <= i < |rms| :: fold(rms[i].path)
  }

  ghost function PlanStep(env: Env, fold: Path -> string, t: Tree, rms: seq<Remove>, u: Upsert): Planned {
    if Shadowed(fold, rms, u.path) then Planned(u.mutation, false, false)
      else PlanOne(env.st, At(t, u.path), u.mutation)
  }

  function CountSkips(ups: seq<Upsert>): nat {
    if ups == [] then 0 else CountSkips(ups[..|ups| - 1]) + if ups[|ups| - 1].mutation.Skip? then 1 else 0
  }

  /** `plan` is what planning makes of `ups` on the tree `t`. */
  ghost predicate PlanOf(env: Env, fold: Path -> string, t: Tree, rms: seq<Remove>, ups: seq<Upsert>,
                         plan: seq<Upsert>) {
    && |plan| == |ups|
    && forall i :: 0 <= i < |ups| ==>
         var r := PlanStep(env, fold, t, rms, ups[i]);
         r.Planned? && plan[i] == Upsert(ups[i].path, r.mutation)
  }

  /** The touches planned: one for every directory that is already there. */
  ghost predicate TouchesOf(env: Env, fold: Path -> string, t: Tree, rms: seq<Remove>, ups: seq<Upsert>,
                            touches: seq<Touch>) {
    && (forall i :: 0 <= i < |ups| && PlanStep(env, fold, t, rms, ups[i]) == Planned(Skip, true, true) ==>
          Wants(ups[i]) in touches)
    && (forall x :: x in touches ==> exists i :: 0 <= i < |ups| && ups[i].mutation.Mkdir? && x == Wants(ups[i]))
  }

  function Wants(u: Upsert): Touch {
    if u.mutation.Mkdir? then Touch(u.path, u.mutation.sec, u.mutation.nsec) else Touch(u.path, 0, 0)
  }

  method PlanAll(d: Disk, env: Env, fold: Path -> string, rms: seq<Remove>, ups: seq<Upsert>)
    returns (ok: bool, plan: seq<Upsert>, touches: seq<Touch>, skipped: nat)
    requires forall i :: 0 <= i < |ups| ==> IsInput(ups[i].mutation)
    ensures ok ==> PlanOf(env, fold, d.tree, rms, ups, plan) && TouchesOf(env, fold, d.tree, rms, ups, touches)
    ensures ok ==> skipped == CountSkips(plan)
    ensures |touches| <= |ups|
  {
    hide PlanOf, TouchesOf, Shadowed, PlanOne, FoldKeys;
    var keys := FoldKeys(fold, rms);
    ok, plan, touches, skipped := true, [], [], 0;
    PlanStarts(env, fold, d.tree, rms);
    var i := 0;
    while i < |ups|
      invariant 0 <= i <= |ups| && |touches| <= i
      invariant PlanOf(env, fold, d.tree, rms, ups[..i], plan) && TouchesOf(env, fold, d.tree, rms, ups[..i], touches)
      invariant skipped == CountSkips(plan)
    {
      var u := ups[i];
      KeysShadow(fold, rms, u.path);
      var readable: bool := *;
      if !readable { return false, plan, touches, skipped; }
      var r := Planned(u.mutation, false, false);
      if fold(u.path) !in keys { r := PlanOne(env.st, At(d.tree, u.path), u.mutation); }
      if r.Trouble? { return false, plan, touches, skipped; }
      StepShape(env, fold, d.tree, rms, u);
      PlanGrows(env, fold, d.tree, rms, ups[..i], u, plan, touches);
      assert ups[..i + 1] == ups[..i] + [u];
      if r.touch { touches := touches + [Wants(u)]; }
      if r.skipped { skipped := skipped + 1; }
      assert (plan + [Upsert(u.path, r.mutation)])[..|plan|] == plan;
      plan := plan + [Upsert(u.path, r.mutation)];
      i := i + 1;
    }
    assert ups[..i] == ups;
  }

  lemma PlanStarts(env: Env, fold: Path -> string, t: Tree, rms: seq<Remove>)
    ensures PlanOf(env, fold, t, rms, [], []) && TouchesOf(env, fold, t, rms, [], [])
  {
  }

  /** A skip is counted; only a directory already in place is touched. */
  lemma StepShape(env: Env, fold: Path -> string, t: Tree, rms: seq<Remove>, u: Upsert)
    requires IsInput(u.mutation)
    ensures var r := PlanStep(env, fold, t, rms, u);
            r.Planned? ==>
              && (r.skipped <==> r.mutation.Skip?)
              && (r.touch <==> r == Planned(Skip, true, true))
              && (r.touch ==> u.mutation.Mkdir?)
  {
    hide Compare, Shadowed;
  }

  lemma PlanGrows(env: Env, fold: Path -> string, t: Tree, rms: seq<Remove>, ups: seq<Upsert>, u: Upsert,
                  plan: seq<Upsert>, touches: seq<Touch>)
    requires PlanOf(env, fold, t, rms, ups, plan) && TouchesOf(env, fold, t, rms, ups, touches)
    requires var r := PlanStep(env, fold, t, rms, u);
             r.Planned? && (r.touch <==> r == Planned(Skip, true, true)) && (r.touch ==> u.mutation.Mkdir?)
    ensures var r := PlanStep(env, fold, t, rms, u);
            && PlanOf(env, fold, t, rms, ups + [u], plan + [Upsert(u.path, r.mutation)])
            && TouchesOf(env, fold, t, rms, ups + [u], if r.touch then touches + [Wants(u)] else touches)
  {
    hide PlanStep, Wants;
    var r, all := PlanStep(env, fold, t, rms, u), ups + [u];
    var ts := if r.touch then touches + [Wants(u)] else touches;
    forall i | 0 <= i < |all| && PlanStep(env, fold, t, rms, all[i]) == Planned(Skip, true, true)
      ensures Wants(all[i]) in ts
    {
      if i < |ups| { assert all[i] == ups[i]; }
    }
    forall x | x in ts ensures exists i :: 0 <= i < |all| && all[i].mutation.Mkdir? && x == Wants(all[i]) {
      if x in touches {
        var i :| 0 <= i < |ups| && ups[i].mutation.Mkdir? && x == Wants(ups[i]);
        assert all[i] == ups[i];
      }
      else { assert all[|ups|] == u; }
    }
  }

  lemma KeysShadow(fold: Path -> string, rms: seq<Remove>, p: Path)
    ensures fold(p) in FoldKeys(fold, rms) <==> Shadowed(fold, rms, p)
  {
  }

  // ---- the upsert phase ----------------------------------------------------------------

  ghost predicate Stepping(st: Store, ups: seq<Upsert>, steps: seq<Tree>) {
    && 1 <= |steps| <= |ups| + 1
    && forall i :: 0 <= i < |steps| - 1 ==>
         During(st, steps[i], steps[i + 1], ups[i].path, ups[i].mutation)
           && Carried(st, steps[i], steps[i + 1], ups[i].path, ups[i].mutation)
  }

  /** `s` is a state of the upsert phase. */
  ghost predicate Amid(st: Store, ups: seq<Upsert>, steps: seq<Tree>, s: Tree) {
    exists i :: 0 <= i < |steps| && i < |ups| && During(st, steps[i], s, ups[i].path, ups[i].mutation)
  }

  ghost predicate Plain(ups: seq<Upsert>) {
    forall i :: 0 <= i < |ups| ==> ups[i].path != [] && !IsTemp(Last(ups[i].path))
  }

  function Creates(m: Mutation): bool { Replaces(m) || m.Mkdir? }

  function CreationsOf(ups: seq<Upsert>): seq<Path> {
    if ups == [] then []
    else CreationsOf(ups[..|ups| - 1]) + if Creates(ups[|ups| - 1].mutation) then [ups[|ups| - 1].path] else []
  }

  /** The sizes of the files to be written. */
  function WrittenBytes(ups: seq<Upsert>): nat {
    if ups == [] then 0
    else
      var m := ups[|ups| - 1].mutation;
      WrittenBytes(ups[..|ups| - 1]) + if m.WriteFile? then m.size else 0
  }

  function TouchesAfter(ups: seq<Upsert>): seq<Touch> {
    if ups == [] then [] else TouchesAfter(ups[..|ups| - 1]) + TouchOf(ups[|ups| - 1])
  }

  /** The phase so far: the states between upserts, and every state on the way. */
  ghost predicate Phase(st: Store, ups: seq<Upsert>, steps: seq<Tree>, a: seq<Tree>, b: seq<Tree>) {
    && Stepping(st, ups, steps) && (forall s :: s in steps ==> IsTree(s))
    && a <= b && forall i :: |a| <= i < |b| ==> Amid(st, ups, steps, b[i])
  }

  /** What the books say after `ups`. */
  ghost predicate Ledger(stats: Stats, out: Stats, touches: seq<Touch>, more: seq<Touch>, ups: seq<Upsert>) {
    && more == touches + TouchesAfter(ups) && out.creations == stats.creations + CreationsOf(ups)
      && out.skipped == stats.skipped && Balanced(stats, out) && out.bytes == stats.bytes + WrittenBytes(ups)
    && (AllSkips(ups) ==> out == stats)
  }

  ghost predicate AllSkips(ups: seq<Upsert>) {
    forall i :: 0 <= i < |ups| ==> ups[i].mutation.Skip?
  }

  /** In the order of a run, and no path twice: no upsert is at or above an earlier one. */
  ghost predicate Ascending(ups: seq<Upsert>) {
    forall k, i :: 0 <= k < i < |ups| ==> !(ups[i].path <= ups[k].path)
  }

  ghost predicate Did(done: seq<Upsert>, q: Path) { exists j :: 0 <= j < |done| && done[j].path == q }

  /** Deletions are in order, and what stands at or below one has been put there since. */
  ghost predicate InTurn(ds: seq<Path>, t: Tree, done: seq<Upsert>) {
    ChildrenFirst(ds) && forall k, q :: 0 <= k < |ds| && q in t && ds[k] <= q ==> Did(done, q)
  }

  lemma InTurnNext(ds: seq<Path>, es: seq<Path>, t: Tree, u: Tree, ups: seq<Upsert>, i: nat)
    requires i < |ups| && Ascending(ups) && InTurn(ds, t, ups[..i]) && Deletes(ds, es, t, ups[i].path)
    requires Emptied(ds, es, u, ups[i].path) && forall q :: q in u ==> q in t || q == ups[i].path
    ensures InTurn(es, u, ups[..i + 1])
  {
    hide Ascending;
    forall a, b | 0 <= a < b < |es| ensures !(es[a] < es[b]) {
      if a >= |ds| { assert es[|ds|..][a - |ds|] == es[a] && es[|ds|..][b - |ds|] == es[b]; }
      else if b >= |ds| && es[a] < es[b] {
        assert es[a] == ds[a];
        NotAbove(ups, i, es[b]);
      }
    }
    forall k, q | 0 <= k < |es| && q in u && es[k] <= q ensures Did(ups[..i + 1], q) {
      if q == ups[i].path { assert ups[..i + 1][i].path == q; }
      else {
        assert es[k] == ds[k];
        var j :| 0 <= j < |ups[..i]| && ups[..i][j].path == q;
        assert ups[..i + 1][j].path == q;
      }
    }
  }

  /** An upsert is not at or above one that was done before. */
  lemma NotAbove(ups: seq<Upsert>, i: nat, q: Path)
    requires i < |ups| && Ascending(ups) && Did(ups[..i], q)
    ensures !(ups[i].path <= q)
  {
    var j :| 0 <= j < |ups[..i]| && ups[..i][j].path == q;
    assert ups[j].path == q;
  }

  /** The deletions recorded before and after each upsert: what it had to make room for. */
  ghost predicate Logged(ups: seq<Upsert>, steps: seq<Tree>, logs: seq<seq<Path>>) {
    && |logs| == |steps| && 1 <= |steps| <= |ups| + 1
    && forall i :: 0 <= i < |steps| - 1 ==> MadeRoom(logs[i], logs[i + 1], steps[i], ups[i].path, ups[i].mutation)
  }

  lemma LoggedNext(ups: seq<Upsert>, steps: seq<Tree>, logs: seq<seq<Path>>, u: Tree, log: seq<Path>)
    requires Logged(ups, steps, logs) && |steps| <= |ups|
    requires var i := |steps| - 1; MadeRoom(logs[i], log, steps[i], ups[i].path, ups[i].mutation)
    ensures Logged(ups, steps + [u], logs + [log])
  {
    hide MadeRoom;
    var ss, ls := steps + [u], logs + [log];
    forall i | 0 <= i < |ss| - 1 ensures MadeRoom(ls[i], ls[i + 1], ss[i], ups[i].path, ups[i].mutation) {
      assert ls[i] == logs[i] && ss[i] == steps[i];
      if i < |steps| - 1 { assert ls[i + 1] == logs[i + 1]; }
    }
  }

  /** How far the phase has got, in all respects. */
  ghost predicate Going(st: Store, ups: seq<Upsert>, stats: Stats, out: Stats, touches: seq<Touch>, more: seq<Touch>,
                        steps: seq<Tree>, logs: seq<seq<Path>>, now: Tree, a: seq<Tree>, b: seq<Tree>) {
    && IsTree(now) && Phase(st, ups, steps, a, b) && Logged(ups, steps, logs) && 1 <= |steps| <= |ups| + 1
    && now == steps[|steps| - 1] && logs[0] == stats.deletions && logs[|steps| - 1] == out.deletions
    && Ledger(stats, out, touches, more, ups[..|steps| - 1])
    && (Ascending(ups) ==> InTurn(out.deletions, now, ups[..|steps| - 1]))
  }

  lemma GoingStarts(st: Store, ups: seq<Upsert>, stats: Stats, touches: seq<Touch>, t: Tree, a: seq<Tree>)
    requires IsTree(t) && ChildrenFirst(stats.deletions) && Gone(stats.deletions, t)
    ensures Going(st, ups, stats, stats, touches, touches, [t], [stats.deletions], t, a, a)
  {
    hide IsTree, Ascending, ChildrenFirst, Gone, InTurn, Phase, Ledger;
    InTurnStarts(stats.deletions, t);
    PhaseStarts(st, ups, t, a);
    LedgerStarts(stats, touches);
    assert ups[..0] == [];
  }

  lemma GoingOn(st: Store, ups: seq<Upsert>, stats: Stats, out: Stats, out': Stats, touches: seq<Touch>,
                more: seq<Touch>, steps: seq<Tree>, logs: seq<seq<Path>>, t: Tree, u: Tree, a: seq<Tree>, b: seq<Tree>,
                c: seq<Tree>)
    requires Going(st, ups, stats, out, touches, more, steps, logs, t, a, b) && |steps| <= |ups|
    requires var x := ups[|steps| - 1];
             && DuringTrail(st, t, u, b, c, x.path, x.mutation) && Carried(st, t, u, x.path, x.mutation)
             && Counted(out, out', x.path, x.mutation) && Deletes(out.deletions, out'.deletions, t, x.path)
             && Emptied(out.deletions, out'.deletions, u, x.path)
             && MadeRoom(out.deletions, out'.deletions, t, x.path, x.mutation)
    ensures Going(st, ups, stats, out', touches, more + TouchOf(ups[|steps| - 1]), steps + [u],
                  logs + [out'.deletions], u, a, c)
  {
    hide During, DuringTrail, Carried, IsTree, Amid, Phase, Ledger, Counted, Deletes, Emptied, InTurn, Ascending,
      Logged, MadeRoom, TouchOf;
    var i := |steps| - 1;
    PhaseMoves(st, ups, steps, u, a, b, c);
    PhaseSteps(st, ups, steps, u, a, c);
    assert ups[..i + 1] == ups[..i] + [ups[i]];
    LedgerGrows(stats, out, out', touches, more, more + TouchOf(ups[i]), ups[..i], ups[i]);
    LoggedLength(ups, steps, logs);
    LoggedNext(ups, steps, logs, u, out'.deletions);
    if Ascending(ups) {
      CarriedKeys(st, t, u, ups[i].path, ups[i].mutation);
      InTurnNext(out.deletions, out'.deletions, t, u, ups, i);
    }
  }

  lemma LoggedLength(ups: seq<Upsert>, steps: seq<Tree>, logs: seq<seq<Path>>)
    requires Logged(ups, steps, logs)
    ensures |logs| == |steps|
  {
  }

  /** An upsert that did not go through: the phase stops amid it. */
  lemma GoingStops(st: Store, ups: seq<Upsert>, stats: Stats, out: Stats, touches: seq<Touch>, more: seq<Touch>,
                   steps: seq<Tree>, logs: seq<seq<Path>>, t: Tree, u: Tree, a: seq<Tree>, b: seq<Tree>, c: seq<Tree>)
    requires Going(st, ups, stats, out, touches, more, steps, logs, t, a, b) && |steps| <= |ups|
    requires var x := ups[|steps| - 1]; DuringTrail(st, t, u, b, c, x.path, x.mutation)
    ensures Phase(st, ups, steps, a, c) && IsTree(u) && Amid(st, ups, steps, u)
    ensures Logged(ups, steps, logs) && |logs| == |steps| && logs[0] == stats.deletions
  {
    hide During, DuringTrail, IsTree, Amid, Phase, Ledger, InTurn, Ascending, MadeRoom;
    PhaseMoves(st, ups, steps, u, a, b, c);
  }

  lemma GoingEnds(st: Store, ups: seq<Upsert>, stats: Stats, out: Stats, touches: seq<Touch>, more: seq<Touch>,
                  steps: seq<Tree>, logs: seq<seq<Path>>, t: Tree, a: seq<Tree>, b: seq<Tree>)
    requires Going(st, ups, stats, out, touches, more, steps, logs, t, a, b) && |steps| == |ups| + 1
    ensures Phase(st, ups, steps, a, b) && IsTree(t) && t == steps[|ups|] && Ledger(stats, out, touches, more, ups)
    ensures Logged(ups, steps, logs) && |logs| == |steps|
    ensures logs[0] == stats.deletions && logs[|ups|] == out.deletions
    ensures Ascending(ups) ==> ChildrenFirst(out.deletions)
  {
    hide IsTree, Amid, Phase, Ledger, Ascending, MadeRoom;
    assert ups[..|ups|] == ups;
  }

  lemma GoingTree(st: Store, ups: seq<Upsert>, stats: Stats, out: Stats, touches: seq<Touch>, more: seq<Touch>,
                  steps: seq<Tree>, logs: seq<seq<Path>>, t: Tree, a: seq<Tree>, b: seq<Tree>)
    requires Going(st, ups, stats, out, touches, more, steps, logs, t, a, b)
    ensures IsTree(t) && |logs| == |steps|
  {
  }

  lemma PlainAt(ups: seq<Upsert>, i: nat)
    requires Plain(ups) && i < |ups|
    ensures ups[i].path != [] && !IsTemp(Last(ups[i].path))
  {
  }

  method UpsertAll(d: Disk, env: Env, ups: seq<Upsert>, stats: Stats, touches: seq<Touch>)
    returns (ok: bool, out: Stats, more: seq<Touch>, ghost steps: seq<Tree>, ghost logs: seq<seq<Path>>)
    requires IsTree(d.tree) && ValidEnv(env) && Plain(ups) && ChildrenFirst(stats.deletions)
    requires Gone(stats.deletions, d.tree)
    modifies d
    ensures ok && Ascending(ups) ==> ChildrenFirst(out.deletions)
    ensures Phase(env.st, ups, steps, old(d.trace), d.trace) && steps[0] == old(d.tree) && IsTree(d.tree)
    ensures if ok then |steps| == |ups| + 1 && d.tree == steps[|ups|] else Amid(env.st, ups, steps, d.tree)
    ensures ok ==> Ledger(stats, out, touches, more, ups)
    ensures Logged(ups, steps, logs) && logs[0] == stats.deletions && (ok ==> logs[|ups|] == out.deletions)
    ensures AllSkips(ups) ==> ok && d.tree == old(d.tree) && d.trace == old(d.trace)
  {
    hide During, DuringTrail, Carried, IsTree, Amid, Phase, Ledger, Counted, Deletes, Emptied, Ascending,
      ChildrenFirst, Gone, Logged, MadeRoom, Going, Plain, IsTemp, ValidEnv;
    ok, out, more, steps, logs := true, stats, touches, [d.tree], [stats.deletions];
    GoingStarts(env.st, ups, stats, touches, d.tree, d.trace);
    var i := 0;
    while i < |ups|
      invariant 0 <= i <= |ups| && |steps| == i + 1 && |logs| == i + 1 && steps[0] == old(d.tree)
      invariant Going(env.st, ups, stats, out, touches, more, steps, logs, d.tree, old(d.trace), d.trace)
      invariant AllSkips(ups) ==> d.tree == old(d.tree) && d.trace == old(d.trace)
    {
      ghost var t, trail, out', more' := d.tree, d.trace, out, more;
      GoingTree(env.st, ups, stats, out, touches, more, steps, logs, t, old(d.trace), trail);
      PlainAt(ups, i);
      ok, out, more := ExecUpsert(d, env, ups[i], out, more);
      GoingStops(env.st, ups, stats, out', touches, more', steps, logs, t, d.tree, old(d.trace), trail, d.trace);
      if !ok { return; }
      GoingOn(env.st, ups, stats, out', out, touches, more', steps, logs, t, d.tree, old(d.trace), trail, d.trace);
      steps, logs := steps + [d.tree], logs + [out.deletions];
      i := i + 1;
    }
    GoingEnds(env.st, ups, stats, out, touches, more, steps, logs, d.tree, old(d.trace), d.trace);
  }

  lemma CarriedKeys(st: Store, t: Tree, u: Tree, p: Path, m: Mutation)
    requires Carried(st, t, u, p, m)
    ensures forall q :: q in u ==> q in t || q == p
  {
  }

  lemma InTurnStarts(ds: seq<Path>, t: Tree)
    requires ChildrenFirst(ds) && Gone(ds, t)
    ensures InTurn(ds, t, [])
  {
  }

  lemma PhaseStarts(st: Store, ups: seq<Upsert>, t: Tree, a: seq<Tree>)
    requires IsTree(t)
    ensures Phase(st, ups, [t], a, a)
  {
  }

  lemma LedgerStarts(stats: Stats, touches: seq<Touch>)
    ensures Ledger(stats, stats, touches, touches, [])
  {
  }

  lemma LedgerGrows(stats: Stats, out: Stats, out': Stats, ts: seq<Touch>, more: seq<Touch>, more': seq<Touch>,
                    ups: seq<Upsert>, u: Upsert)
    requires Ledger(stats, out, ts, more, ups) && Counted(out, out', u.path, u.mutation) && more' == more + TouchOf(u)
    ensures Ledger(stats, out', ts, more', ups + [u])
  {
    var all := ups + [u];
    assert all[..|all| - 1] == ups && all[|all| - 1] == u;
    assert AllSkips(all) ==> AllSkips(ups) && u.mutation.Skip?;
  }

  lemma PhaseMoves(st: Store, ups: seq<Upsert>, steps: seq<Tree>, now: Tree, a: seq<Tree>, b: seq<Tree>, c: seq<Tree>)
    requires Phase(st, ups, steps, a, b) && |steps| <= |ups|
    requires var i := |steps| - 1; DuringTrail(st, steps[i], now, b, c, ups[i].path, ups[i].mutation)
    ensures Phase(st, ups, steps, a, c) && IsTree(now) && Amid(st, ups, steps, now)
    ensures var i := |steps| - 1; During(st, steps[i], now, ups[i].path, ups[i].mutation)
  {
    hide During, Carried, IsTree;
    var i := |steps| - 1;
    forall k | |a| <= k < |c| ensures Amid(st, ups, steps, c[k]) {
      if k < |b| { assert c[k] == b[k]; } else { assert During(st, steps[i], c[k], ups[i].path, ups[i].mutation); }
    }
  }

  lemma PhaseSteps(st: Store, ups: seq<Upsert>, steps: seq<Tree>, u: Tree, a: seq<Tree>, b: seq<Tree>)
    requires Phase(st, ups, steps, a, b) && |steps| <= |ups| && IsTree(u)
    requires var i := |steps| - 1;
             During(st, steps[i], u, ups[i].path, ups[i].mutation)
               && Carried(st, steps[i], u, ups[i].path, ups[i].mutation)
    ensures Phase(st, ups, steps + [u], a, b)
  {
    hide During, Carried, IsTree;
    forall k | |a| <= k < |b| ensures Amid(st, ups, steps + [u], b[k]) { AmidGrows(st, ups, steps, u, b[k]); }
  }

  lemma AmidGrows(st: Store, ups: seq<Upsert>, steps: seq<Tree>, u: Tree, s: Tree)
    requires Amid(st, ups, steps, s)
    ensures Amid(st, ups, steps + [u], s)
  {
    var i :| 0 <= i < |steps| && i < |ups| && During(st, steps[i], s, ups[i].path, ups[i].mutation);
    assert (steps + [u])[i] == steps[i];
  }

  // ---- the touch phase -----------------------------------------------------------------

  /** Nothing but directory times has changed. */
  ghost predicate Alike(t: Tree, s: Tree) { forall q :: Agree(t, s, q) }

  ghost predicate AlikeTrail(t: Tree, s: Tree, a: seq<Tree>, b: seq<Tree>) {
    IsTree(s) && Alike(t, s) && a <= b && forall i :: |a| <= i < |b| ==> Alike(t, b[i])
  }

  lemma AlikeStep(t: Tree, s: Tree, u: Tree, a: seq<Tree>, b: seq<Tree>, p: Path, time: int)
    requires AlikeTrail(t, s, a, b) && IsTree(u) && p in s && s[p].Dir? && u == s[p := WithTime(s[p], time)]
    ensures AlikeTrail(t, u, a, b + [u])
  {
    forall q ensures Agree(t, u, q) { assert Agree(t, s, q); }
  }

  /** The directory this touch names, if there is one, has the time it asks for. */
  predicate Honoured(t: Tree, x: Touch) {
    x.path in t && t[x.path].Dir? ==> Stands(t[x.path].mtime, x.sec, x.nsec)
  }

  predicate Current(t: Tree, x: Touch) {
    x.path in t && t[x.path].Dir? ==> Split(t[x.path].mtime) == (x.sec, x.nsec)
  }

  /** The last touch of each directory holds. */
  ghost predicate LastHonoured(t: Tree, touches: seq<Touch>) {
    forall i :: 0 <= i < |touches| && (forall j :: i < j < |touches| ==> touches[j].path != touches[i].path) ==>
      Honoured(t, touches[i])
  }

  lemma HonouredNext(t: Tree, u: Tree, done: seq<Touch>, x: Touch)
    requires LastHonoured(t, done) && Honoured(u, x)
    requires forall q :: q != x.path ==> (q in t <==> q in u) && (q in t ==> t[q] == u[q])
    ensures LastHonoured(u, done + [x])
  {
    var all := done + [x];
    forall i | 0 <= i < |all| && (forall j :: i < j < |all| ==> all[j].path != all[i].path)
      ensures Honoured(u, all[i])
    {
      if i < |done| {
        assert all[|done|].path != all[i].path;
        forall j | i < j < |done| ensures done[j].path != done[i].path { assert all[j] == done[j]; }
        assert Honoured(t, done[i]);
      }
    }
  }

  ghost predicate AllCurrent(t: Tree, touches: seq<Touch>) {
    forall x :: x in touches ==> Current(t, x)
  }

  /** What no touch names is as it was. */
  ghost predicate OnlyTouched(t: Tree, s: Tree, touches: seq<Touch>) {
    forall q :: q in t && q !in (set x | x in touches :: x.path) ==> q in s && s[q] == t[q]
  }

  lemma TouchedNext(t: Tree, s: Tree, u: Tree, touches: seq<Touch>, x: Touch)
    requires OnlyTouched(t, s, touches) && x in touches
    requires forall q :: q in s && q != x.path ==> q in u && u[q] == s[q]
    ensures OnlyTouched(t, u, touches)
  {
  }

  /** execute_touch for each; directories that are gone, or are in order, are left alone. */
  method TouchAll(d: Disk, touches: seq<Touch>, stats: Stats) returns (ok: bool, out: Stats)
    requires IsTree(d.tree)
    modifies d
    ensures AlikeTrail(old(d.tree), d.tree, old(d.trace), d.trace)
    ensures out == stats.(mtimes := out.mtimes)
    ensures ok ==> LastHonoured(d.tree, touches)
    ensures OnlyTouched(old(d.tree), d.tree, touches)
    ensures AllCurrent(old(d.tree), touches) ==> d.tree == old(d.tree) && d.trace == old(d.trace) && out == stats
  {
    hide LastHonoured, Alike, OnlyTouched;
    ok, out := true, stats;
    TouchStarts(d.tree, d.trace);
    var i := 0;
    while i < |touches|
      invariant 0 <= i <= |touches| && AlikeTrail(old(d.tree), d.tree, old(d.trace), d.trace)
      invariant out == stats.(mtimes := out.mtimes)
      invariant LastHonoured(d.tree, touches[..i]) && OnlyTouched(old(d.tree), d.tree, touches)
      invariant AllCurrent(old(d.tree), touches) ==> d.tree == old(d.tree) && d.trace == old(d.trace) && out == stats
    {
      ghost var before, trail := d.tree, d.trace;
      var x := touches[i];
      var readable: bool := *;
      if !readable || Blocked(d.tree, x.path) { return false, out; }
      if x.path in d.tree && d.tree[x.path].Dir? && Split(d.tree[x.path].mtime) != (x.sec, x.nsec) {
        assert x in touches;
        ok := d.SetTime(x.path, Join(x.sec, x.nsec));
        if !ok { return; }
        AlikeStep(old(d.tree), before, d.tree, old(d.trace), trail, x.path, Join(x.sec, x.nsec));
        TouchedNext(old(d.tree), before, d.tree, touches, x);
        out := out.(mtimes := out.mtimes + 1);
      }
      HonouredNext(before, d.tree, touches[..i], x);
      assert touches[..i + 1] == touches[..i] + [x];
      i := i + 1;
    }
    assert touches[..i] == touches;
  }

  lemma TouchStarts(t: Tree, a: seq<Tree>)
    requires IsTree(t)
    ensures AlikeTrail(t, t, a, a) && LastHonoured(t, [])
    ensures forall xs :: OnlyTouched(t, t, xs)
  {
  }

  // ---- run -------------------------------------------------------------------------------

  datatype Outcome = Done(stats: Stats) | Failed | Diverged(paths: seq<Divergence>)

  const NO_STATS := Stats(0, 0, 0, 0, 0, 0, 0, [], [])

  /** The removal phase is over and the upsert phase has got as far as `steps`. */
  ghost predicate Cleared(st: Store, t: Tree, rms: seq<Remove>, plan: seq<Upsert>, steps: seq<Tree>) {
    && Stepping(st, plan, steps) && (forall s :: s in steps ==> IsTree(s))
    && Reduced(t, steps[0], rms) && forall q :: q in steps[0] ==> !Takes(rms, q)
  }

  /** `s` is a state of a run from `t`: removing, upserting or touching. */
  ghost predicate InRun(st: Store, t: Tree, rms: seq<Remove>, plan: seq<Upsert>, steps: seq<Tree>, s: Tree) {
    || Reduced(t, s, rms)
    || (Cleared(st, t, rms, plan, steps) && (Amid(st, plan, steps, s)
                                             || (|steps| == |plan| + 1 && Alike(steps[|plan|], s))))
  }

  ghost predicate AllInRun(st: Store, t: Tree, rms: seq<Remove>, plan: seq<Upsert>, steps: seq<Tree>, now: Tree,
                           a: seq<Tree>, b: seq<Tree>) {
    InRun(st, t, rms, plan, steps, now) && a <= b && forall i :: |a| <= i < |b| ==> InRun(st, t, rms, plan, steps, b[i])
  }

  /** Every touch whose path has no other touch is honoured. */
  ghost predicate AllHonoured(t: Tree, touches: seq<Touch>) {
    forall x :: x in touches && (forall y :: y in touches && y.path == x.path ==> y == x) ==> Honoured(t, x)
  }

  /** The deletions add up: what the removals took, then what the upserts made room for. */
  ghost predicate Accounted(t: Tree, plan: seq<Upsert>, steps: seq<Tree>, ds: seq<Path>) {
    exists logs :: Logged(plan, steps, logs) && Tallied(t, steps[0], logs[0]) && logs[|steps| - 1] == ds
  }

  /** A run that went through. */
  ghost predicate Complete(st: Store, t: Tree, rms: seq<Remove>, plan: seq<Upsert>, touches: seq<Touch>,
                           steps: seq<Tree>, now: Tree, stats: Stats) {
    && Cleared(st, t, rms, plan, steps) && |steps| == |plan| + 1 && Alike(steps[|plan|], now)
    && AllHonoured(now, touches + TouchesAfter(plan))
    && stats.skipped == CountSkips(plan) && stats.creations == CreationsOf(plan)
    && (Ascending(plan) ==> ChildrenFirst(stats.deletions))
    && Accounted(t, plan, steps, stats.deletions) && Balanced(NO_STATS, stats) && stats.bytes == WrittenBytes(plan)
  }

  function ByUpsert(): Upsert -> Path { (u: Upsert) => u.path }
  function ByRemove(): Remove -> Path { (r: Remove) => r.path }
  function ByDivergence(): Divergence -> Path { (x: Divergence) => x.path }
  function ByTouch(): Touch -> Path { (x: Touch) => x.path }

  /** run: everything is planned, and in Expect mode guarded, before anything is touched. */
  method Run(d: Disk, env: Env, fold: Path -> string, base: Option<seq<Entry>>, rms: seq<Remove>, ups: seq<Upsert>)
    returns (r: Outcome, ghost begun: bool, ghost plan: seq<Upsert>, ghost touches: seq<Touch>, ghost steps: seq<Tree>)
    requires IsTree(d.tree) && ValidEnv(env) && Plain(ups) && forall i :: 0 <= i < |ups| ==> IsInput(ups[i].mutation)
    requires base.Some? ==> ValidEntries(base.value)
    modifies d
    ensures IsTree(d.tree) && (r.Done? ==> begun) && (r.Diverged? ==> !begun && base.Some? && r.paths != [])
    ensures r.Diverged? ==> forall x :: x in r.paths ==> Truthful(env.st, old(d.tree), base.value, x)
    ensures r.Diverged? ==> Sorted(r.paths, ByDivergence(), false)
    ensures !begun ==> d.tree == old(d.tree) && d.trace == old(d.trace)
    ensures begun || r.Diverged? ==> PlanOf(env, fold, old(d.tree), rms, Sort(ups, ByUpsert(), false), plan)
    ensures begun ==> TouchesOf(env, fold, old(d.tree), rms, Sort(ups, ByUpsert(), false), touches)
    ensures begun && base.Some? ==> GuardPasses(env.st, old(d.tree), base.value, rms, plan)
    ensures r.Diverged? ==> !GuardPasses(env.st, old(d.tree), base.value, rms, plan)
    ensures begun ==> AllInRun(env.st, old(d.tree), rms, plan, steps, d.tree, old(d.trace), d.trace)
    ensures r.Done? ==> Complete(env.st, old(d.tree), rms, plan, touches, steps, d.tree, r.stats)
    ensures begun && rms == [] && AllSkips(plan) && (forall x :: x in touches ==> Current(old(d.tree), x)) ==>
              d.tree == old(d.tree) && d.trace == old(d.trace) && (r.Done? ==> Mutations(r.stats) == 0)
  {
    begun, steps := false, [];
    var sorted := Sort(ups, ByUpsert(), false);
    SortMembers(ups, ByUpsert(), false);
    SortedPlain(ups, sorted);
    var ok, plan', touches', skipped := PlanAll(d, env, fold, rms, sorted);
    plan, touches := plan', touches';
    if !ok { return Failed, begun, plan, touches, steps; }
    if base.Some? {
      var readable, ds := GuardAll(d.tree, env, base.value, rms, plan');
      if !readable { return Failed, begun, plan, touches, steps; }
      if ds != [] {
        SortMembers(ds, ByDivergence(), false);
        SortSpec(ds, ByDivergence(), false);
        AllTruthful(env.st, d.tree, base.value, ds);
        return Diverged(Sort(ds, ByDivergence(), false)), begun, plan, touches, steps;
      }
    }
    begun := true;
    PlanPlain(env, fold, d.tree, rms, sorted, plan');
    var stats;
    r, stats, steps := Execute(d, env, rms, plan', touches', NO_STATS.(skipped := skipped));
  }

  lemma AllTruthful(st: Store, t: Tree, base: seq<Entry>, ds: seq<Divergence>)
    requires ValidEntries(base) && ReportsBase(st, t, base, [], ds)
    ensures forall x :: x in ds ==> Truthful(st, t, base, x)
  {
    hide ValidEntries, IsSo, Truthful, Expected;
    forall x | x in ds ensures Truthful(st, t, base, x) {
      var i :| 0 <= i < |ds| && ds[i] == x;
      SoIsTruthful(st, t, base, x);
    }
  }

  lemma SortedPlain(ups: seq<Upsert>, sorted: seq<Upsert>)
    requires Plain(ups) && (forall u :: u in sorted <==> u in ups) && forall i :: 0 <= i < |ups| ==>
          IsInput(ups[i].mutation)
    ensures Plain(sorted) && forall i :: 0 <= i < |sorted| ==> IsInput(sorted[i].mutation)
  {
    forall i | 0 <= i < |sorted|
      ensures sorted[i].path != [] && !IsTemp(Last(sorted[i].path)) && IsInput(sorted[i].mutation)
    {
      assert sorted[i] in ups;
    }
  }

  lemma PlanPlain(env: Env, fold: Path -> string, t: Tree, rms: seq<Remove>, ups: seq<Upsert>, plan: seq<Upsert>)
    requires Plain(ups) && PlanOf(env, fold, t, rms, ups, plan)
    ensures Plain(plan)
  {
    hide PlanStep, IsTemp;
    forall i | 0 <= i < |plan|
      ensures plan[i].path != [] && !IsTemp(Last(plan[i].path))
    {
      assert plan[i].path == ups[i].path;
    }
  }

  /** The three phases. */
  method Execute(d: Disk, env: Env, rms: seq<Remove>, plan: seq<Upsert>, touches: seq<Touch>, zero: Stats)
    returns (r: Outcome, stats: Stats, ghost steps: seq<Tree>)
    requires IsTree(d.tree) && ValidEnv(env) && Plain(plan) && zero == NO_STATS.(skipped := CountSkips(plan))
    modifies d
    ensures IsTree(d.tree) && !r.Diverged?
    ensures AllInRun(env.st, old(d.tree), rms, plan, steps, d.tree, old(d.trace), d.trace)
    ensures r.Done? ==> Complete(env.st, old(d.tree), rms, plan, touches, steps, d.tree, r.stats)
    ensures rms == [] && AllSkips(plan) && (forall x :: x in touches ==> Current(old(d.tree), x)) ==>
              d.tree == old(d.tree) && d.trace == old(d.trace) && (r.Done? ==> Mutations(r.stats) == 0)
  {
    hide Reduced, Takes, Phase, Stepping, Cleared, Amid, Alike, Ledger, AllHonoured, Ascending, ChildrenFirst, Gone,
      IsTree, Honoured, Current, ValidEnv, Plain, AllSkips, Logged, Tallied, LastHonoured;
    steps := [];
    var down := Sort(rms, ByRemove(), true);
    var ok;
    ok, stats := RemoveAll(d, down, zero);
    ghost var t1, trail1 := d.tree, d.trace;
    RemovedInRun(env.st, old(d.tree), rms, plan, t1, old(d.trace), trail1);
    if !ok { return Failed, stats, steps; }
    RemovedAll(old(d.tree), t1, rms);
    ghost var removed := stats;
    var all;
    ghost var logs;
    ok, stats, all, steps, logs := UpsertAll(d, env, plan, stats, touches);
    ghost var t2, trail2 := d.tree, d.trace;
    UpsertsInRun(env.st, old(d.tree), rms, plan, steps, old(d.trace), trail1, trail2);
    if !ok { return Failed, stats, steps; }
    ghost var upserted := stats;
    var order := Sort(all, ByTouch(), true);
    ok, stats := TouchAll(d, order, stats);
    TouchesInRun(env.st, old(d.tree), rms, plan, steps, d.tree, old(d.trace), trail2, d.trace);
    IdleRun(zero, removed, upserted, touches, all, plan, order, old(d.tree));
    if !ok { return Failed, stats, steps; }
    RunCompletes(env.st, old(d.tree), rms, plan, touches, all, order, steps, logs, d.tree, zero, removed, upserted,
                 stats);
    r := Done(stats);
  }

  lemma TakesSorted(rms: seq<Remove>)
    ensures forall q :: Takes(Sort(rms, ByRemove(), true), q) <==> Takes(rms, q)
  {
    var s := Sort(rms, ByRemove(), true);
    SortMembers(rms, ByRemove(), true);
    forall q ensures Takes(s, q) <==> Takes(rms, q) {
      if Takes(s, q) {
        var i :| 0 <= i < |s| && TakesOne(s[i], q);
        assert s[i] in rms;
        var k :| 0 <= k < |rms| && rms[k] == s[i];
      }
      if Takes(rms, q) {
        var i :| 0 <= i < |rms| && TakesOne(rms[i], q);
        assert rms[i] in s;
        var k :| 0 <= k < |s| && s[k] == rms[i];
      }
    }
  }

  lemma RemovedInRun(st: Store, t: Tree, rms: seq<Remove>, plan: seq<Upsert>, s: Tree, a: seq<Tree>, b: seq<Tree>)
    requires Reducing(t, s, a, b, Sort(rms, ByRemove(), true))
    ensures IsTree(s) && Reduced(t, s, rms) && (forall steps :: AllInRun(st, t, rms, plan, steps, s, a, b))
    ensures a <= b && forall i :: |a| <= i < |b| ==> Reduced(t, b[i], rms)
  {
    hide IsTree, Cleared, Amid, Alike, Takes;
    TakesSorted(rms);
  }

  lemma RemovedAll(t: Tree, s: Tree, rms: seq<Remove>)
    requires forall q :: q in s ==> !Takes(Sort(rms, ByRemove(), true), q)
    ensures forall q :: q in s ==> !Takes(rms, q)
  {
    hide Takes;
    TakesSorted(rms);
  }

  lemma UpsertsInRun(st: Store, t: Tree, rms: seq<Remove>, plan: seq<Upsert>, steps: seq<Tree>, a: seq<Tree>,
                     b: seq<Tree>, c: seq<Tree>)
    requires Phase(st, plan, steps, b, c) && Reduced(t, steps[0], rms) && forall q :: q in steps[0] ==> !Takes(rms, q)
    requires a <= b && forall i :: |a| <= i < |b| ==> Reduced(t, b[i], rms)
    ensures Cleared(st, t, rms, plan, steps) && a <= c
    ensures forall i :: |a| <= i < |c| ==> InRun(st, t, rms, plan, steps, c[i])
    ensures forall s :: Amid(st, plan, steps, s) ==> InRun(st, t, rms, plan, steps, s)
  {
    hide Reduced, Takes, Amid, Stepping, IsTree, Alike;
    assert Stepping(st, plan, steps);
    forall i | |a| <= i < |c| ensures InRun(st, t, rms, plan, steps, c[i]) {
      if i < |b| { assert c[i] == b[i]; }
    }
  }

  lemma TouchesInRun(st: Store, t: Tree, rms: seq<Remove>, plan: seq<Upsert>, steps: seq<Tree>, now: Tree, a: seq<Tree>,
                     b: seq<Tree>, c: seq<Tree>)
    requires Cleared(st, t, rms, plan, steps) && |steps| == |plan| + 1 && AlikeTrail(steps[|plan|], now, b, c)
    requires a <= b && forall i :: |a| <= i < |b| ==> InRun(st, t, rms, plan, steps, b[i])
    ensures AllInRun(st, t, rms, plan, steps, now, a, c) && IsTree(now)
  {
    hide Reduced, Cleared, Amid, Alike, IsTree;
    forall i | |a| <= i < |c| ensures InRun(st, t, rms, plan, steps, c[i]) {
      if i < |b| { assert c[i] == b[i]; }
    }
  }

  lemma IdleRun(zero: Stats, removed: Stats, upserted: Stats, touches: seq<Touch>, all: seq<Touch>, plan: seq<Upsert>,
                order: seq<Touch>, t: Tree)
    requires Ledger(removed, upserted, touches, all, plan) && order == Sort(all, ByTouch(), true)
    ensures AllSkips(plan) ==> upserted == removed
    ensures AllSkips(plan) && (forall x :: x in touches ==> Current(t, x)) ==> forall x :: x in order ==> Current(t, x)
  {
    SortMembers(all, ByTouch(), true);
    if AllSkips(plan) { NoTouchesAfter(plan); }
  }

  lemma {:induction false} NoTouchesAfter(plan: seq<Upsert>)
    requires AllSkips(plan)
    ensures TouchesAfter(plan) == []
  {
    if plan != [] { NoTouchesAfter(plan[..|plan| - 1]); }
  }

  lemma RunCompletes(st: Store, t: Tree, rms: seq<Remove>, plan: seq<Upsert>, touches: seq<Touch>, all: seq<Touch>,
                     order: seq<Touch>, steps: seq<Tree>, logs: seq<seq<Path>>, now: Tree, zero: Stats,
                     removed: Stats, upserted: Stats, stats: Stats)
    requires Cleared(st, t, rms, plan, steps) && |steps| == |plan| + 1 && Alike(steps[|plan|], now)
    requires zero == NO_STATS.(skipped := CountSkips(plan)) && Tidy(zero, removed, steps[0])
    requires Ascending(plan) ==> ChildrenFirst(upserted.deletions)
    requires Ledger(removed, upserted, touches, all, plan) && stats == upserted.(mtimes := stats.mtimes)
    requires order == Sort(all, ByTouch(), true) && LastHonoured(now, order)
    requires Logged(plan, steps, logs) && Tallied(t, steps[0], logs[0]) && logs[|plan|] == upserted.deletions
    ensures Complete(st, t, rms, plan, touches, steps, now, stats)
  {
    hide Cleared, Alike, LastHonoured, AllHonoured, ChildrenFirst, Gone, Ascending, Logged, Tallied;
    SortMembers(all, ByTouch(), true);
    OnesHonoured(now, all, order);
    AccountedBy(t, plan, steps, logs, stats.deletions);
  }

  lemma AccountedBy(t: Tree, plan: seq<Upsert>, steps: seq<Tree>, logs: seq<seq<Path>>, ds: seq<Path>)
    requires |steps| == |plan| + 1 && Logged(plan, steps, logs) && Tallied(t, steps[0], logs[0]) && logs[|plan|] == ds
    ensures Accounted(t, plan, steps, ds)
  {
    hide MadeRoom, Tallied;
  }

  lemma OnesHonoured(t: Tree, all: seq<Touch>, order: seq<Touch>)
    requires LastHonoured(t, order) && forall x :: x in order <==> x in all
    ensures AllHonoured(t, all)
  {
    hide Honoured;
    forall x | x in all && (forall y :: y in all && y.path == x.path ==> y == x) ensures Honoured(t, x) {
      assert x in order;
      var k := LastOf(order, x);
      assert order[k] in all && order[k] == x;
    }
  }

  lemma {:induction false} LastOf(order: seq<Touch>, x: Touch) returns (k: nat)
    requires x in order
    ensures k < |order| && order[k].path == x.path && forall j :: k < j < |order| ==> order[j].path != x.path
    decreases |order|
  {
    var last := |order| - 1;
    if order[last].path == x.path { k := last; }
    else {
      assert order == order[..last] + [order[last]];
      k := LastOf(order[..last], x);
    }
  }
}
