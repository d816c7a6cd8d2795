/** What a finished run says it has done: the creations and deletions it records are exactly those
    it has made. */
module ApplyRecord {
  import opened Blobs
  import opened Paths
  import opened TempNames
  import opened UnixTime
  import opened FileTree
  import opened ApplyPlan
  import opened ApplyExec
  import opened ApplyGuard
  import opened ApplyRun
  import opened ApplyLaws
  import opened ApplyStates

  // ---- what is rewritten, and what is left alone -----------------------------------------------

  /** Something is made of what is live exactly if that is not what is asked for, time aside. */
  lemma CreatesExactly(st: Store, live: Option<Node>, m: Mutation)
    requires IsInput(m) && WellSized(m)
    ensures var r := PlanOne(st, live, m);
            r.Planned? ==> (Creates(r.mutation) <==> !(live.Some? && Equals(st, live.value, m)))
  {
    hide Split, Compare, Content, SumOf;
    if live.Some? && live.value.File? && m.WriteFile? {
      MatchesBytes(st, live.value, m);
      CompareSound(st, live.value.bytes, m.chunks);
    }
  }

  lemma {:induction false} CreationsExactly(plan: seq<Upsert>, c: Path)
    ensures c in CreationsOf(plan) <==> exists k :: 0 <= k < |plan| && plan[k].path == c && Creates(plan[k].mutation)
  {
    if plan != [] {
      var last := |plan| - 1;
      CreationsExactly(plan[..last], c);
      if k :| 0 <= k < last && plan[..last][k].path == c && Creates(plan[..last][k].mutation) {
        assert plan[k] == plan[..last][k];
      }
      if k :| 0 <= k < |plan| && plan[k].path == c && Creates(plan[k].mutation) {
        if k < last { assert plan[..last][k] == plan[k]; }
      }
    }
  }

  /** The upsert is carried out whole: what is live is not what it asks for, or a removal hides it. */
  ghost predicate Rewrites(st: Store, fold: Path -> string, t: Tree, rms: seq<Remove>, u: Upsert) {
    Shadowed(fold, rms, u.path) || !(u.path in t && Equals(st, t[u.path], u.mutation))
  }

  lemma StepCreates(env: Env, fold: Path -> string, t: Tree, rms: seq<Remove>, u: Upsert)
    requires IsInput(u.mutation) && WellSized(u.mutation)
    ensures var r := PlanStep(env, fold, t, rms, u);
            r.Planned? ==> (Creates(r.mutation) <==> Rewrites(env.st, fold, t, rms, u))
  {
    hide PlanOne, Shadowed, Equals;
    CreatesExactly(env.st, At(t, u.path), u.mutation);
  }

  lemma RunCreates(env: Env, fold: Path -> string, t: Tree, rms: seq<Remove>, ups: seq<Upsert>, sorted: seq<Upsert>,
                   plan: seq<Upsert>, c: Path)
    requires forall i :: 0 <= i < |ups| ==> IsInput(ups[i].mutation) && WellSized(ups[i].mutation)
    requires sorted == Sort(ups, ByUpsert(), false) && PlanOf(env, fold, t, rms, sorted, plan)
    ensures c in CreationsOf(plan) <==> exists u :: u in ups && u.path == c && Rewrites(env.st, fold, t, rms, u)
  {
    hide PlanStep, Rewrites, IsInput, WellSized, Creates;
    SortMembers(ups, ByUpsert(), false);
    SortedInputs(ups, sorted);
    CreationsExactly(plan, c);
    if k :| 0 <= k < |plan| && plan[k].path == c && Creates(plan[k].mutation) {
      assert PlanStep(env, fold, t, rms, sorted[k]).Planned? && sorted[k] in sorted;
      StepCreates(env, fold, t, rms, sorted[k]);
    }
    if u :| u in ups && u.path == c && Rewrites(env.st, fold, t, rms, u) {
      assert u in sorted;
      var k :| 0 <= k < |sorted| && sorted[k] == u;
      assert PlanStep(env, fold, t, rms, sorted[k]).Planned?;
      StepCreates(env, fold, t, rms, u);
    }
  }

  // ---- what is deleted -------------------------------------------------------------------------

  /** What was live is gone, or a directory is where none was, or none where one was. */
  predicate Struck(t: Tree, now: Tree, q: Path) {
    q in t && (q !in now || t[q].Dir? != now[q].Dir?)
  }

  /** `q` had to make room for the upsert. */
  ghost predicate RoomMade(steps: seq<Tree>, plan: seq<Upsert>, k: nat, q: Path) {
    k < |plan| && k < |steps| && InTheWay(steps[k], plan[k].path, plan[k].mutation)
    && q in steps[k] && plan[k].path <= q
  }

  lemma {:induction false} LoggedFrom(t: Tree, plan: seq<Upsert>, steps: seq<Tree>, logs: seq<seq<Path>>, i: nat,
                                      q: Path)
    requires Logged(plan, steps, logs) && Tallied(t, steps[0], logs[0]) && i < |steps| && q in logs[i]
    ensures (q in t && q !in steps[0]) || exists k: nat :: RoomMade(steps, plan, k, q)
    decreases i
  {
    hide InTheWay;
    if i > 0 {
      var p, m := plan[i - 1].path, plan[i - 1].mutation;
      assert MadeRoom(logs[i - 1], logs[i - 1 + 1], steps[i - 1], p, m);
      if q in logs[i - 1] { LoggedFrom(t, plan, steps, logs, i - 1, q); }
      else {
        assert logs[i] == logs[i - 1] + logs[i][|logs[i - 1]|..];
        assert RoomMade(steps, plan, i - 1, q);
      }
    }
  }

  lemma {:induction false} LoggedStays(plan: seq<Upsert>, steps: seq<Tree>, logs: seq<seq<Path>>, a: nat, b: nat,
                                       q: Path)
    requires Logged(plan, steps, logs) && a <= b < |steps| && q in logs[a]
    ensures q in logs[b]
    decreases b
  {
    hide MadeRoom;
    if a < b {
      LoggedStays(plan, steps, logs, a, b - 1, q);
      assert MadeRoom(logs[b - 1], logs[b - 1 + 1], steps[b - 1], plan[b - 1].path, plan[b - 1].mutation);
      RoomGrows(logs[b - 1], logs[b], steps[b - 1], plan[b - 1].path, plan[b - 1].mutation, q);
    }
  }

  /** A finished run of upserts none of which concerns another one's path, in order. */
  ghost predicate Orderly(st: Store, t: Tree, rms: seq<Remove>, plan: seq<Upsert>, steps: seq<Tree>, now: Tree) {
    && IsTree(t) && IsTree(now) && Apart(plan) && Ascending(plan) && Cleared(st, t, rms, plan, steps)
    && |steps| == |plan| + 1 && Alike(steps[|plan|], now)
  }

  /** What a planned path was, is just before its turn, is just after it, and is in the end. */
  lemma TurnOf(st: Store, t: Tree, rms: seq<Remove>, plan: seq<Upsert>, steps: seq<Tree>, now: Tree, k: nat)
    requires Orderly(st, t, rms, plan, steps, now) && k < |plan|
    ensures var p := plan[k].path;
            && (p in steps[k] || !Takes(rms, p) ==> Agree(t, steps[k], p) && !Takes(rms, p))
            && Agree(steps[k + 1], now, p) && Carried(st, steps[k], steps[k + 1], p, plan[k].mutation)
  {
    hide Takes, IsTree, During, Carried, Apart, Ascending;
    var p := plan[k].path;
    assert !Takes(rms, p) ==> Agree(t, steps[0], p);
    OwnTurn(st, plan, steps, k, k);
    OwnTurn(st, plan, steps, k, |plan|);
    assert Agree(steps[|plan|], now, p);
    assert Carried(st, steps[k], steps[k + 1], plan[k].path, plan[k].mutation);
  }

  /** What makes room at its own turn changes kind. */
  lemma TurnStrikes(st: Store, t: Tree, u: Tree, s: Tree, now: Tree, p: Path, m: Mutation)
    requires Agree(t, u, p) && Carried(st, u, s, p, m) && Agree(s, now, p)
    ensures InTheWay(u, p, m) ==> Struck(t, now, p) && p in now && (now[p].Dir? <==> m.Mkdir?)
    ensures Struck(t, now, p) && p in now ==> InTheWay(u, p, m)
  {
  }

  lemma DeletedStruck(st: Store, t: Tree, rms: seq<Remove>, plan: seq<Upsert>, steps: seq<Tree>, now: Tree,
                      logs: seq<seq<Path>>, q: Path)
    requires Orderly(st, t, rms, plan, steps, now) && Logged(plan, steps, logs) && Tallied(t, steps[0], logs[0])
    requires q in logs[|plan|]
    ensures q in t && (Takes(rms, q) || Struck(t, now, q))
  {
    hide Takes, IsTree, During, Carried, Apart, MadeRoom, InTheWay;
    LoggedFrom(t, plan, steps, logs, |plan|, q);
    if q in t && q !in steps[0] {
      assert Takes(rms, q) by { assert Agree(t, steps[0], q) || Takes(rms, q); }
    } else {
      var k: nat :| RoomMade(steps, plan, k, q);
      var p, m := plan[k].path, plan[k].mutation;
      StepsKeys(st, plan, steps, k, q);
      assert q in steps[0] && q in t;
      assert p in steps[k] by { InTheWayIsThere(steps[k], p, m); }
      TurnOf(st, t, rms, plan, steps, now, k);
      TurnStrikes(st, t, steps[k], steps[k + 1], now, p, m);
      if p != q {
        assert steps[k] in steps;
        RoomBelow(steps[k], now, p, q, m);
      }
    }
  }

  lemma InTheWayIsThere(t: Tree, p: Path, m: Mutation)
    requires InTheWay(t, p, m)
    ensures p in t
  {
  }

  lemma RoomBelow(s: Tree, now: Tree, p: Path, q: Path, m: Mutation)
    requires IsTree(s) && IsTree(now) && p < q && q in s && InTheWay(s, p, m) && p in now && (now[p].Dir? <==> m.Mkdir?)
    ensures q !in now
  {
    hide IsTree;
    Ancestors(s, p, q);
    if q in now { Ancestors(now, p, q); }
  }

  lemma StruckDeleted(st: Store, t: Tree, rms: seq<Remove>, plan: seq<Upsert>, steps: seq<Tree>, now: Tree,
                      logs: seq<seq<Path>>, q: Path)
    requires Orderly(st, t, rms, plan, steps, now) && Logged(plan, steps, logs) && Tallied(t, steps[0], logs[0])
    requires q != [] && !IsTemp(Last(q)) && q in t && (Takes(rms, q) || Struck(t, now, q))
    ensures q in logs[|plan|]
  {
    hide Takes, IsTree, During, Carried, Apart, Ascending, MadeRoom, InTheWay, IsTemp;
    assert Agree(steps[|plan|], now, q);
    if Takes(rms, q) { LoggedStays(plan, steps, logs, 0, |plan|, q); }
    else if q !in now { LoggedLoss(st, t, plan, steps, logs, |plan|, q); }
    else {
      var k := PlannedFor(st, t, rms, plan, steps, now, q);
      TurnOf(st, t, rms, plan, steps, now, k);
      TurnStrikes(st, t, steps[k], steps[k + 1], now, q, plan[k].mutation);
      assert MadeRoom(logs[k], logs[k + 1], steps[k], plan[k].path, plan[k].mutation);
      RoomHas(logs[k], logs[k + 1], steps[k], q, plan[k].mutation);
      LoggedStays(plan, steps, logs, k + 1, |plan|, q);
    }
  }

  lemma RoomHas(before: seq<Path>, after: seq<Path>, t: Tree, p: Path, m: Mutation)
    requires MadeRoom(before, after, t, p, m) && InTheWay(t, p, m)
    ensures p in after
  {
    assert p in after[|before|..];
  }

  /** What is still live but of another kind was planned for. */
  lemma PlannedFor(st: Store, t: Tree, rms: seq<Remove>, plan: seq<Upsert>, steps: seq<Tree>, now: Tree, q: Path)
    returns (k: nat)
    requires Orderly(st, t, rms, plan, steps, now) && q in now && q != [] && !IsTemp(Last(q)) && Struck(t, now, q)
    requires !Takes(rms, q)
    ensures k < |plan| && plan[k].path == q
  {
    hide Takes, IsTree, During, Carried, Apart, Ascending, IsTemp;
    assert Agree(steps[|plan|], now, q);
    if q !in steps[0] {
      StepsKeys(st, plan, steps, |plan|, q);
      k :| 0 <= k < |plan| && plan[k].path == q;
    } else {
      assert Agree(t, steps[0], q);
      if forall i :: 0 <= i < |plan| ==> !Concerns(plan[i], q) {
        StepsAgree(st, plan, steps, 0, |plan|, q);
        assert false;
      }
      k :| 0 <= k < |plan| && Concerns(plan[k], q);
      TurnOf(st, t, rms, plan, steps, now, k);
      NotAboveIt(st, steps[k], steps[k + 1], now, plan[k], q);
    }
  }

  lemma NotAboveIt(st: Store, u: Tree, s: Tree, now: Tree, x: Upsert, q: Path)
    requires IsTree(now) && Carried(st, u, s, x.path, x.mutation) && Agree(s, now, x.path)
    requires q in now && q != [] && !IsTemp(Last(q)) && Concerns(x, q)
    ensures x.path == q
  {
    hide IsTree, IsTemp;
    if x.path < q { Ancestors(now, x.path, q); }
  }

  /** The deletions recorded are exactly what was removed or struck; of temporary names, only such
      are. */
  lemma DeletedExactly(st: Store, t: Tree, rms: seq<Remove>, plan: seq<Upsert>, touches: seq<Touch>, steps: seq<Tree>,
                       now: Tree, stats: Stats, q: Path)
    requires Complete(st, t, rms, plan, touches, steps, now, stats) && Orderly(st, t, rms, plan, steps, now)
    ensures q in stats.deletions ==> q in t && (Takes(rms, q) || Struck(t, now, q))
    ensures q != [] && !IsTemp(Last(q)) && q in t && (Takes(rms, q) || Struck(t, now, q)) ==> q in stats.deletions
  {
    hide Takes, Cleared, AllHonoured, Alike, Orderly, IsTemp, Struck, MadeRoom, Tallied;
    var logs :| Logged(plan, steps, logs) && Tallied(t, steps[0], logs[0]) && logs[|steps| - 1] == stats.deletions;
    if q in stats.deletions { DeletedStruck(st, t, rms, plan, steps, now, logs, q); }
    if q != [] && !IsTemp(Last(q)) && q in t && (Takes(rms, q) || Struck(t, now, q)) {
      StruckDeleted(st, t, rms, plan, steps, now, logs, q);
    }
  }

  // ---- how much is written ------------------------------------------------------------------------

  /** The bytes of the files among these paths. */
  function BytesOf(t: Tree, cs: seq<Path>): nat {
    if cs == [] then 0
    else
      var c := cs[|cs| - 1];
      BytesOf(t, cs[..|cs| - 1]) + if c in t && t[c].File? then |t[c].bytes| else 0
  }

  /** What was made is there, and of the size it was planned with. */
  ghost predicate MadeWhole(st: Store, now: Tree, u: Upsert) {
    IsInput(u.mutation) && WellSized(u.mutation) && u.path in now && Realised(st, now[u.path], u.mutation)
  }

  lemma {:induction false} WrittenExactly(st: Store, now: Tree, plan: seq<Upsert>)
    requires forall k :: 0 <= k < |plan| && Creates(plan[k].mutation) ==> MadeWhole(st, now, plan[k])
    ensures BytesOf(now, CreationsOf(plan)) == WrittenBytes(plan)
  {
    if plan != [] {
      var last := |plan| - 1;
      var init, u := plan[..last], plan[last];
      WrittenExactly(st, now, init);
      if Creates(u.mutation) {
        assert MadeWhole(st, now, u);
        var cs := CreationsOf(init) + [u.path];
        assert cs[..|cs| - 1] == CreationsOf(init);
        if u.mutation.WriteFile? { ContentSize(st, u.mutation.chunks); }
      } else {
        assert CreationsOf(init) + [] == CreationsOf(init);
      }
    }
  }

  /** If every upsert holds in the end, the bytes counted are those of the files made. */
  lemma RunWritten(env: Env, fold: Path -> string, t: Tree, rms: seq<Remove>, ups: seq<Upsert>, sorted: seq<Upsert>,
                   plan: seq<Upsert>, touches: seq<Touch>, steps: seq<Tree>, now: Tree, stats: Stats)
    requires forall i :: 0 <= i < |ups| ==> IsInput(ups[i].mutation) && WellSized(ups[i].mutation)
    requires sorted == Sort(ups, ByUpsert(), false) && PlanOf(env, fold, t, rms, sorted, plan)
    requires Complete(env.st, t, rms, plan, touches, steps, now, stats)
    requires forall u :: u in ups ==> HoldsAt(env.st, now, u)
    ensures stats.bytes == BytesOf(now, stats.creations)
  {
    hide Cleared, AllHonoured, Alike, Accounted, ChildrenFirst, Ascending, CreationsOf, WrittenBytes, PlanStep, HoldsAt,
      MadeWhole, IsInput, WellSized, BytesOf;
    SortMembers(ups, ByUpsert(), false);
    SortedInputs(ups, sorted);
    forall k | 0 <= k < |plan| && Creates(plan[k].mutation) ensures MadeWhole(env.st, now, plan[k]) {
      assert PlanStep(env, fold, t, rms, sorted[k]).Planned? && sorted[k] in sorted && sorted[k] in ups;
      StepKept(env, fold, t, rms, sorted[k]);
      IsMadeWhole(env.st, now, sorted[k]);
    }
    WrittenExactly(env.st, now, plan);
  }

  lemma StepKept(env: Env, fold: Path -> string, t: Tree, rms: seq<Remove>, u: Upsert)
    requires IsInput(u.mutation)
    ensures var r := PlanStep(env, fold, t, rms, u); r.Planned? && Creates(r.mutation) ==> r.mutation == u.mutation
  {
    hide Compare, Shadowed;
  }

  lemma IsMadeWhole(st: Store, now: Tree, u: Upsert)
    requires IsInput(u.mutation) && WellSized(u.mutation) && HoldsAt(st, now, u)
    ensures MadeWhole(st, now, u)
  {
  }

  // ---- putting the record together ---------------------------------------------------------------

  lemma RecordCounts(st: Store, t: Tree, rms: seq<Remove>, plan: seq<Upsert>, touches: seq<Touch>, steps: seq<Tree>,
                     now: Tree, stats: Stats)
    requires Complete(st, t, rms, plan, touches, steps, now, stats)
    ensures stats.unlinked == |stats.deletions| && stats.dirs + stats.files + stats.links == |stats.creations|
    ensures stats.creations == CreationsOf(plan)
  {
    hide Cleared, AllHonoured, Alike, Accounted, ChildrenFirst, Ascending, CreationsOf;
  }

  lemma TidiedNames(t: Tree, ups: seq<Upsert>, s: Tree, ds: seq<Path>)
    requires Tidied(t, ups, s, ds)
    ensures forall q :: q in s ==> q in t || Lists(ups, q)
  {
    hide Lists, IsTemp;
  }

  lemma OrderKept(stats: Stats, ups: seq<Upsert>)
    requires InOrder(stats, ups) && Paths.Distinct(ups, ByUpsert())
    ensures ParentsFirst(stats.creations) && ChildrenFirst(stats.deletions)
  {
    hide ParentsFirst, ChildrenFirst;
  }

  /** A run for a whole tree is orderly. */
  lemma TreeOrderly(env: Env, fold: Path -> string, t: Tree, rms: seq<Remove>, us: seq<Upsert>, sorted: seq<Upsert>,
                    plan: seq<Upsert>, touches: seq<Touch>, steps: seq<Tree>, now: Tree, stats: Stats)
    requires IsTree(t) && IsTree(now) && TreeShaped(us, []) && Plain(us) && Clears(t, rms, us)
    requires sorted == Sort(us, ByUpsert(), false) && PlanOf(env, fold, t, rms, sorted, plan)
    requires Complete(env.st, t, rms, plan, touches, steps, now, stats)
    ensures Orderly(env.st, t, rms, plan, steps, now)
  {
    hide IsTree, TreeShaped, Plain, PlanStep, Cleared, AllHonoured, Alike, Accounted, Apart, Ascending, Takes, Clean;
    SortedPlan(us);
    ShapedOnce(us, []);
    PlanApart(env, fold, t, rms, sorted, plan);
    PlanAscends(env, fold, t, rms, us, sorted, plan);
  }

  /** What a tree's removals take is gone in the end. */
  lemma TreeTakes(env: Env, fold: Path -> string, t: Tree, rms: seq<Remove>, us: seq<Upsert>, sorted: seq<Upsert>,
                  plan: seq<Upsert>, touches: seq<Touch>, steps: seq<Tree>, now: Tree, stats: Stats, q: Path)
    requires Clears(t, rms, us) && sorted == Sort(us, ByUpsert(), false) && PlanOf(env, fold, t, rms, sorted, plan)
    requires Complete(env.st, t, rms, plan, touches, steps, now, stats) && q in t && Takes(rms, q)
    ensures Struck(t, now, q)
  {
    hide Complete, PlanOf, Takes, Clean, Lists;
    if q in now { KeptIsListed(env, fold, t, rms, us, sorted, plan, touches, steps, now, stats, q); }
  }

  /** A run for a consistent list is orderly. */
  lemma ListOrderly(env: Env, fold: Path -> string, t: Tree, rms: seq<Remove>, us: seq<Upsert>, sorted: seq<Upsert>,
                    plan: seq<Upsert>, touches: seq<Touch>, steps: seq<Tree>, now: Tree, stats: Stats)
    requires IsTree(t) && IsTree(now) && Consistent(rms, us) && Plain(us)
    requires forall i :: 0 <= i < |us| ==> IsInput(us[i].mutation)
    requires sorted == Sort(us, ByUpsert(), false) && PlanOf(env, fold, t, rms, sorted, plan)
    requires Complete(env.st, t, rms, plan, touches, steps, now, stats)
    ensures Orderly(env.st, t, rms, plan, steps, now)
  {
    hide IsTree, Plain, PlanStep, Cleared, AllHonoured, Alike, Accounted, Apart, Ascending, Takes, IsInput;
    SortedApart(env, fold, t, rms, us, sorted, plan);
    assert Paths.Distinct(us, ByUpsert());
    PlanAscends(env, fold, t, rms, us, sorted, plan);
  }
}
