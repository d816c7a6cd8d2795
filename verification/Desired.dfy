/** What applying a whole tree promises, said of the entries of the tree themselves: of the path
    that leads to each of them, and of its own kind, exec bit, bytes, target and time. */
module Desired {
  import opened Blobs
  import opened Paths
  import opened TempNames
  import opened UnixTime
  import opened FileTree
  import opened ApplyPlan
  import opened ApplyExec
  import opened ApplyGuard
  import opened ApplyRun
  import opened ApplyLaws
  import opened ApplyStates
  import opened ApplyRecord

  // ---- the finished tree -----------------------------------------------------------------------

  /** The entry is live at `p`: its kind, exec bit, bytes or target, and its time. */
  ghost predicate IsThere(st: Store, t: Tree, p: Path, e: Entry) {
    p in t && SameAs(st, t[p], e) && Timed(t[p], e.sec, e.nsec)
  }

  /** The live tree is the desired one: every entry is live where its names lead, and every live
      path without a temporary name on it leads to an entry. */
  ghost predicate TreeIs(st: Store, t: Tree, root: seq<Entry>) {
    && (forall p, e :: LeadsTo(root, p, e) ==> IsThere(st, t, p, e))
    && (forall q :: q in t && q != [] && Clean(q) ==> HasEntry(root, q))
  }

  /** No entry has a temporary name on its way. */
  ghost predicate CleanNames(root: seq<Entry>) {
    forall p, e :: LeadsTo(root, p, e) ==> Clean(p)
  }

  /** Every entry's time survives the trip through a file system. */
  ghost predicate TimesFit(root: seq<Entry>) {
    forall p, e :: LeadsTo(root, p, e) ==> InRange(e.sec, e.nsec)
  }

  lemma RootLeads(root: seq<Entry>, u: Upsert) returns (e: Entry)
    requires u in Flatten([], root)
    ensures LeadsTo(root, u.path, e) && u.mutation == MutationOf(e)
  {
    hide Flatten, LeadsTo, MutationOf;
    e := FlattenLeads([], root, u);
    assert u.path[0..] == u.path;
  }

  lemma LeadsRoot(root: seq<Entry>, p: Path, e: Entry)
    requires LeadsTo(root, p, e)
    ensures Upsert(p, MutationOf(e)) in Flatten([], root)
  {
    hide Flatten, LeadsTo, MutationOf;
    LeadsFlatten([], root, p, e);
    assert [] + p == p;
  }

  lemma ListsEntry(root: seq<Entry>, q: Path)
    ensures Lists(Flatten([], root), q) <==> HasEntry(root, q)
  {
    hide Flatten, LeadsTo, MutationOf;
    if u :| u in Flatten([], root) && u.path == q { var e := RootLeads(root, u); }
    if e :| LeadsTo(root, q, e) { LeadsRoot(root, q, e); }
  }

  lemma HoldsThere(st: Store, t: Tree, p: Path, e: Entry)
    ensures HoldsAt(st, t, Upsert(p, MutationOf(e))) <==> IsThere(st, t, p, e)
  {
    hide Spells, Content, Stands, LinkStands;
    if p in t && t[p].File? && e.body.FileBody? { SpellsContent(st, e.body.chunks, t[p].bytes); }
  }

  lemma TreeHeld(st: Store, t: Tree, root: seq<Entry>)
    ensures Holds(st, t, Flatten([], root)) <==> TreeIs(st, t, root)
  {
    hide Flatten, LeadsTo, MutationOf, HoldsAt, IsThere, Lists, HasEntry, Clean;
    var us := Flatten([], root);
    forall q ensures Lists(us, q) <==> HasEntry(root, q) { ListsEntry(root, q); }
    if Holds(st, t, us) {
      forall p, e | LeadsTo(root, p, e) ensures IsThere(st, t, p, e) {
        LeadsRoot(root, p, e);
        HoldsThere(st, t, p, e);
      }
    }
    if TreeIs(st, t, root) {
      forall u | u in us ensures HoldsAt(st, t, u) {
        var e := RootLeads(root, u);
        HoldsThere(st, t, u.path, e);
        assert u == Upsert(u.path, MutationOf(e));
      }
    }
  }

  ghost predicate AllClean(us: seq<Upsert>) {
    forall u :: u in us ==> Clean(u.path)
  }

  lemma CleanTree(root: seq<Entry>)
    requires CleanNames(root)
    ensures AllClean(Flatten([], root))
  {
    hide Flatten, LeadsTo, MutationOf, Clean;
    forall u | u in Flatten([], root) ensures Clean(u.path) { var e := RootLeads(root, u); }
  }

  lemma TimesTree(root: seq<Entry>)
    requires TimesFit(root)
    ensures TimesInRange(Flatten([], root))
  {
    hide Flatten, LeadsTo, InRange;
    forall u | u in Flatten([], root) && IsInput(u.mutation)
      ensures InRange(u.mutation.sec, u.mutation.nsec)
    {
      var e := RootLeads(root, u);
    }
  }

  /** How many entries a tree has. */
  function EntryCount(es: seq<Entry>): nat
    decreases es
  {
    if es == [] then 0
    else 1 + (if es[0].body.DirBody? then EntryCount(es[0].body.children) else 0) + EntryCount(es[1..])
  }

  lemma {:induction false} CountFlatten(prefix: Path, es: seq<Entry>)
    ensures |Flatten(prefix, es)| == EntryCount(es)
    decreases es
  {
    if es != [] {
      CountFlatten(prefix, es[1..]);
      if es[0].body.DirBody? { CountFlatten(prefix + [es[0].name], es[0].body.children); }
    }
  }

  // ---- every state ------------------------------------------------------------------------------

  /** Whole old bytes or whole new bytes. */
  ghost predicate OldOrSpelt(st: Store, was: Bytes, s: Tree, p: Path, chunks: seq<(BlobId, nat)>) {
    p in s && s[p].File? && (s[p].bytes == was || Spells(st, chunks, s[p].bytes))
  }

  /** What holds in every state, wherever the run stops: no file that stays a file is torn, and
      a name of neither tree is a temporary one. */
  ghost predicate Unharmed(st: Store, t: Tree, root: seq<Entry>, s: Tree) {
    && (forall p, e :: LeadsTo(root, p, e) && e.body.FileBody? && p in t && t[p].File? ==>
        OldOrSpelt(st, t[p].bytes, s, p, e.body.chunks))
    && (forall q :: q in s && q != [] ==> q in t || HasEntry(root, q) || IsTemp(Last(q)))
  }

  lemma IntactTree(st: Store, t: Tree, root: seq<Entry>, s: Tree)
    requires Intact(st, t, Flatten([], root), s)
    ensures Unharmed(st, t, root, s)
  {
    hide Flatten, LeadsTo, Lists, HasEntry, IsTemp, Spells, Content;
    forall p, e | LeadsTo(root, p, e) && e.body.FileBody? && p in t && t[p].File?
      ensures OldOrSpelt(st, t[p].bytes, s, p, e.body.chunks)
    {
      LeadsRoot(root, p, e);
      var u := Upsert(p, MutationOf(e));
      assert OldOrNew(st, t[u.path], s, u.path, u.mutation);
      SpellsContent(st, e.body.chunks, s[p].bytes);
    }
    forall q | q in s && q != [] ensures q in t || HasEntry(root, q) || IsTemp(Last(q)) { ListsEntry(root, q); }
  }

  // ---- the record ---------------------------------------------------------------------------------

  /** A live path that is to go folds to the same key as `c`: the planner does not look at `c` then. */
  ghost predicate Confusable(fold: Path -> string, t: Tree, root: seq<Entry>, c: Path) {
    exists q :: q in t && q != [] && Clean(q) && !HasEntry(root, q) && fold(q) == fold(c)
  }

  /** The entry is written anew: what is live is not it, times aside, or could not be looked at. */
  ghost predicate IsRemade(st: Store, fold: Path -> string, t: Tree, root: seq<Entry>, p: Path, e: Entry) {
    Confusable(fold, t, root, p) || !(p in t && SameAs(st, t[p], e))
  }

  /** What a finished run leaves of names, and what it says of them. No draft is left. The creations
      are the entries written anew, and only those. The deletions are what is gone or has turned from
      a directory into something else or the reverse; temporary names may be missing. The counts
      and the bytes written agree with both. */
  ghost predicate Neat(st: Store, fold: Path -> string, t: Tree, root: seq<Entry>, s: Tree, stats: Stats) {
    && (forall q :: q in s ==> q in t || HasEntry(root, q))
    && (forall c :: c in stats.creations <==> exists e :: LeadsTo(root, c, e) && IsRemade(st, fold, t, root, c, e))
    && (forall q :: q in stats.deletions ==> Struck(t, s, q))
    && (forall q :: q != [] && !IsTemp(Last(q)) && Struck(t, s, q) ==> q in stats.deletions)
    && stats.unlinked == |stats.deletions| && stats.dirs + stats.files + stats.links == |stats.creations|
    && stats.bytes == BytesOf(s, stats.creations)
    && ParentsFirst(stats.creations) && ChildrenFirst(stats.deletions)
  }

  /** The removals, each of one path, hide what the live paths to go are confusable with. */
  lemma ShadowedTree(fold: Path -> string, t: Tree, root: seq<Entry>, rms: seq<Remove>, c: Path)
    requires Clears(t, rms, Flatten([], root)) && forall i :: 0 <= i < |rms| ==> !rms[i].deep
    ensures Shadowed(fold, rms, c) <==> Confusable(fold, t, root, c)
  {
    hide Flatten, LeadsTo, Lists, HasEntry, Clean;
    if i :| 0 <= i < |rms| && fold(rms[i].path) == fold(c) {
      assert TakesOne(rms[i], rms[i].path);
      assert Takes(rms, rms[i].path);
      ListsEntry(root, rms[i].path);
    }
    if q :| q in t && q != [] && Clean(q) && !HasEntry(root, q) && fold(q) == fold(c) {
      ListsEntry(root, q);
      assert Takes(rms, q);
      var i :| 0 <= i < |rms| && TakesOne(rms[i], q);
      assert rms[i].path == q;
    }
  }

  lemma RemadeTree(st: Store, fold: Path -> string, t: Tree, root: seq<Entry>, rms: seq<Remove>, p: Path, e: Entry)
    requires Clears(t, rms, Flatten([], root)) && forall i :: 0 <= i < |rms| ==> !rms[i].deep
    ensures Rewrites(st, fold, t, rms, Upsert(p, MutationOf(e))) <==> IsRemade(st, fold, t, root, p, e)
  {
    hide Clears, Shadowed, Confusable, SameAs, Equals, MutationOf;
    ShadowedTree(fold, t, root, rms, p);
    if p in t { EqualsSame(st, t[p], e); }
  }

  /** The creations of a tree are its entries written anew. */
  lemma CreatedTree(env: Env, fold: Path -> string, t: Tree, root: seq<Entry>, rms: seq<Remove>, plan: seq<Upsert>,
                    c: Path)
    requires Clears(t, rms, Flatten([], root)) && forall i :: 0 <= i < |rms| ==> !rms[i].deep
    requires TreeShaped(Flatten([], root), [])
    requires PlanOf(env, fold, t, rms, Sort(Flatten([], root), ByUpsert(), false), plan)
    ensures c in CreationsOf(plan) <==> exists e :: LeadsTo(root, c, e) && IsRemade(env.st, fold, t, root, c, e)
  {
    hide *;
    var us := Flatten([], root);
    ShapedInputs(us);
    RunCreates(env, fold, t, rms, us, Sort(us, ByUpsert(), false), plan, c);
    if u :| u in us && u.path == c && Rewrites(env.st, fold, t, rms, u) {
      var e := RootLeads(root, u);
      RemadeTree(env.st, fold, t, root, rms, c, e);
      assert u == Upsert(c, MutationOf(e));
    }
    if e :| LeadsTo(root, c, e) && IsRemade(env.st, fold, t, root, c, e) {
      LeadsRoot(root, c, e);
      RemadeTree(env.st, fold, t, root, rms, c, e);
    }
  }

  lemma NeatTree(env: Env, fold: Path -> string, t: Tree, root: seq<Entry>, rms: seq<Remove>, plan: seq<Upsert>,
                 touches: seq<Touch>, steps: seq<Tree>, s: Tree, stats: Stats)
    requires Clears(t, rms, Flatten([], root)) && forall i :: 0 <= i < |rms| ==> !rms[i].deep
    requires TreeShaped(Flatten([], root), []) && Plain(Flatten([], root)) && IsTree(t) && IsTree(s)
    requires PlanOf(env, fold, t, rms, Sort(Flatten([], root), ByUpsert(), false), plan)
    requires Complete(env.st, t, rms, plan, touches, steps, s, stats)
    requires Tidied(t, Flatten([], root), s, stats.deletions) && InOrder(stats, Flatten([], root))
    requires Holds(env.st, s, Flatten([], root))
    ensures Neat(env.st, fold, t, root, s, stats)
  {
    hide *;
    var us := Flatten([], root);
    var sorted := Sort(us, ByUpsert(), false);
    ShapedOnce(us, []);
    RecordCounts(env.st, t, rms, plan, touches, steps, s, stats);
    ShapedInputs(us);
    AllHold(env.st, s, us);
    RunWritten(env, fold, t, rms, us, sorted, plan, touches, steps, s, stats);
    TidiedNames(t, us, s, stats.deletions);
    OrderKept(stats, us);
    forall q | q in s ensures q in t || HasEntry(root, q) { ListsEntry(root, q); }
    forall c ensures c in stats.creations
                <==> exists e :: LeadsTo(root, c, e) && IsRemade(env.st, fold, t, root, c, e) {
      CreatedTree(env, fold, t, root, rms, plan, c);
    }
    TreeOrderly(env, fold, t, rms, us, sorted, plan, touches, steps, s, stats);
    forall q
      ensures q in stats.deletions ==> Struck(t, s, q)
      ensures q != [] && !IsTemp(Last(q)) && Struck(t, s, q) ==> q in stats.deletions
    {
      DeletedExactly(env.st, t, rms, plan, touches, steps, s, stats, q);
      if q in t && Takes(rms, q) { TreeTakes(env, fold, t, rms, us, sorted, plan, touches, steps, s, stats, q); }
      StruckLived(t, s, q);
    }
    NeatWhole(env.st, fold, t, root, s, stats);
  }

  lemma AllHold(st: Store, t: Tree, us: seq<Upsert>)
    requires Holds(st, t, us)
    ensures forall u :: u in us ==> HoldsAt(st, t, u)
  {
    hide HoldsAt;
  }

  lemma StruckLived(t: Tree, s: Tree, q: Path)
    ensures Struck(t, s, q) ==> q in t
  {
  }

  lemma NeatWhole(st: Store, fold: Path -> string, t: Tree, root: seq<Entry>, s: Tree, stats: Stats)
    requires forall q :: q in s ==> q in t || HasEntry(root, q)
    requires forall c :: c in stats.creations
               <==> exists e :: LeadsTo(root, c, e) && IsRemade(st, fold, t, root, c, e)
    requires forall q :: q in stats.deletions ==> Struck(t, s, q)
    requires forall q :: q != [] && !IsTemp(Last(q)) && Struck(t, s, q) ==> q in stats.deletions
    requires stats.unlinked == |stats.deletions| && stats.dirs + stats.files + stats.links == |stats.creations|
    requires stats.bytes == BytesOf(s, stats.creations)
    requires ParentsFirst(stats.creations) && ChildrenFirst(stats.deletions)
    ensures Neat(st, fold, t, root, s, stats)
  {
    hide HasEntry, LeadsTo, IsRemade, Struck, IsTemp, ParentsFirst, ChildrenFirst;
  }

  // ---- the guard ----------------------------------------------------------------------------------

  /** The one case the guard lets pass unchecked: an entry, other than a directory that is left in
      place, goes where the base has a directory. */
  ghost predicate Overridden(t: Tree, base: seq<Entry>, root: seq<Entry>, q: Path) {
    exists p, e :: LeadsTo(root, p, e) && Overrides(t, base, p, e.body.DirBody?, q)
  }

  /** Whatever is lost was as the base says, and whatever is new was not in the base. */
  ghost predicate GuardedTree(st: Store, t: Tree, base: seq<Entry>, root: seq<Entry>, s: Tree) {
    && (forall q :: Lost(t, s, q) && q != [] && !IsTemp(Last(q)) ==>
        AsBase(st, t, base, q) || Overridden(t, base, root, q))
    && NothingRevived(t, base, s)
  }

  lemma ExemptTree(t: Tree, base: seq<Entry>, root: seq<Entry>, q: Path)
    requires Exempt(t, base, Flatten([], root), q)
    ensures Overridden(t, base, root, q)
  {
    hide Flatten, LeadsTo, HasDir;
    var u :| u in Flatten([], root) && Overrides(t, base, u.path, u.mutation.Mkdir?, q);
    var e := RootLeads(root, u);
  }

  lemma GuardTree(st: Store, t: Tree, base: seq<Entry>, root: seq<Entry>, s: Tree)
    requires Guarded(st, t, base, Flatten([], root), s)
    ensures GuardedTree(st, t, base, root, s)
  {
    hide *;
    GuardedParts(st, t, base, Flatten([], root), s);
    forall q | Lost(t, s, q) && q != [] && !IsTemp(Last(q))
      ensures AsBase(st, t, base, q) || Overridden(t, base, root, q)
    {
      if !AsBase(st, t, base, q) { ExemptTree(t, base, root, q); }
    }
    GuardedWhole(st, t, base, root, s);
  }

  lemma GuardedParts(st: Store, t: Tree, base: seq<Entry>, desired: seq<Upsert>, s: Tree)
    requires Guarded(st, t, base, desired, s)
    ensures NothingRevived(t, base, s)
    ensures forall q :: Lost(t, s, q) && q != [] && !IsTemp(Last(q)) ==>
              AsBase(st, t, base, q) || Exempt(t, base, desired, q)
  {
    hide Lost, IsTemp, AsBase, Exempt;
  }

  lemma GuardedWhole(st: Store, t: Tree, base: seq<Entry>, root: seq<Entry>, s: Tree)
    requires NothingRevived(t, base, s)
    requires forall q :: Lost(t, s, q) && q != [] && !IsTemp(Last(q)) ==>
               AsBase(st, t, base, q) || Overridden(t, base, root, q)
    ensures GuardedTree(st, t, base, root, s)
  {
    hide Lost, IsTemp, AsBase, Overridden;
  }
}
