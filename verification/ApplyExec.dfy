/** Carrying out a plan on the disk, one file-system call at a time. Every contract also speaks
    about each state in between, since the process may stop after any call. */
module ApplyExec {
  import opened Blobs
  import opened Paths
  import opened TempNames
  import opened UnixTime
  import opened FileTree
  import opened ApplyPlan

  datatype Stats = Stats(dirs: nat, files: nat, links: nat, unlinked: nat, mtimes: nat, bytes: nat, skipped: nat,
                         deletions: seq<Path>, creations: seq<Path>)

  /** ApplyStats::mutations */
  function Mutations(s: Stats): nat { s.dirs + s.files + s.links + s.unlinked + s.mtimes }

  function Deleted(s: Stats, p: Path): Stats { s.(unlinked := s.unlinked + 1, deletions := s.deletions + [p]) }
  function Created(s: Stats, p: Path): Stats { s.(creations := s.creations + [p]) }

  // ---- states in between -------------------------------------------------------------

  /** `s` is `t` with some of what lies at or below `p` gone. */
  ghost predicate Pruned(t: Tree, s: Tree, p: Path) {
    && (forall q :: !(p <= q) ==> Agree(t, s, q))
    && (forall q :: q in s ==> q in t && Agree(t, s, q))
  }

  lemma PrunedTrans(t: Tree, s: Tree, u: Tree, p: Path, c: Path)
    requires Pruned(t, s, p) && Pruned(s, u, c) && p <= c
    ensures Pruned(t, u, p)
  {
    forall q | !(p <= q) ensures Agree(t, u, q) {
      assert !(c <= q);
      assert Agree(t, s, q) && Agree(s, u, q);
    }
    forall q | q in u ensures q in t && Agree(t, u, q) {
      assert q in s && Agree(s, u, q) && Agree(t, s, q);
    }
  }

  /** The trace went on, through states that are all prunings of `t`. */
  ghost predicate PrunedTrail(t: Tree, before: seq<Tree>, after: seq<Tree>, p: Path) {
    before <= after && forall i :: |before| <= i < |after| ==> Pruned(t, after[i], p)
  }

  lemma PrunedTrailExtends(t: Tree, s: Tree, a: seq<Tree>, b: seq<Tree>, c: seq<Tree>, p: Path, q: Path)
    requires PrunedTrail(t, a, b, p) && Pruned(t, s, p) && PrunedTrail(s, b, c, q) && p <= q
    ensures PrunedTrail(t, a, c, p)
  {
    forall i | |a| <= i < |c| ensures Pruned(t, c[i], p) {
      if i < |b| { assert c[i] == b[i]; } else { PrunedTrans(t, s, c[i], p, q); }
    }
  }

  // ---- removals ----------------------------------------------------------------------

  /** Deletions in this order never take a directory before something inside it. */
  ghost predicate ChildrenFirst(ds: seq<Path>) {
    forall i, j :: 0 <= i < j < |ds| ==> !(ds[i] < ds[j])
  }

  /** Nothing is left at or below what was deleted. */
  ghost predicate Gone(ds: seq<Path>, t: Tree) {
    forall i, q :: 0 <= i < |ds| && q in t ==> !(ds[i] <= q)
  }

  lemma DeleteNext(ds: seq<Path>, t: Tree, u: Tree, p: Path)
    requires ChildrenFirst(ds) && Gone(ds, t) && p in t
    requires forall q :: q in u ==> q in t && !(p <= q)
    ensures ChildrenFirst(ds + [p]) && Gone(ds + [p], u)
  {
    var es := ds + [p];
    forall i, j | 0 <= i < j < |es| ensures !(es[i] < es[j]) {
      if j == |ds| { assert !(ds[i] <= p); }
    }
  }

  /** The deletions recorded from `before` to `after`: children first, and of things at or below `p`. */
  ghost predicate Deletes(before: seq<Path>, after: seq<Path>, t: Tree, p: Path) {
    && before <= after && ChildrenFirst(after[|before|..])
    && forall k :: |before| <= k < |after| ==> after[k] in t && p <= after[k]
  }

  /** Whatever is gone from `t` in `s` was recorded. */
  ghost predicate Recorded(before: seq<Path>, after: seq<Path>, t: Tree, s: Tree) {
    before <= after && forall q :: q in t && q !in s ==> q in after[|before|..]
  }

  lemma RecordedTrans(a: seq<Path>, b: seq<Path>, c: seq<Path>, t: Tree, s: Tree, u: Tree)
    requires Recorded(a, b, t, s) && Recorded(b, c, s, u)
    ensures Recorded(a, c, t, u)
  {
    assert c[|a|..] == b[|a|..] + c[|b|..];
  }

  /** Something stands where `m` has to put another kind of thing. */
  predicate InTheWay(t: Tree, p: Path, m: Mutation) {
    p in t && ((m.Mkdir? && !t[p].Dir?) || (Replaces(m) && t[p].Dir?))
  }

  /** The deletions that carrying out `m` records: none if nothing is in the way, else all that
      stood at or below `p`. */
  ghost predicate MadeRoom(before: seq<Path>, after: seq<Path>, t: Tree, p: Path, m: Mutation) {
    if !InTheWay(t, p, m) then after == before
    else
      && before <= after && (forall q :: q in after[|before|..] <==> q in t && p <= q)
      && ((forall q :: q in t ==> !(p < q)) ==> after == before + [p])
  }

  /** Nothing is left at or below these deletions, except what was put at `p` since. */
  ghost predicate Emptied(before: seq<Path>, after: seq<Path>, t: Tree, p: Path) {
    forall k, q :: |before| <= k < |after| && q in t && after[k] <= q ==> q == p
  }

  lemma EmptiedUnder(before: seq<Path>, after: seq<Path>, t: Tree, u: Tree, p: Path)
    requires Deletes(before, after, t, p) && forall q :: q in u ==> !(p < q)
    ensures Emptied(before, after, u, p)
  {
    forall k, q | |before| <= k < |after| && q in u && after[k] <= q ensures q == p {
      assert p <= after[k] <= q;
      PrefixCases(p, q);
    }
  }

  lemma DeletesOne(ds: seq<Path>, t: Tree, p: Path)
    requires p in t
    ensures Deletes(ds, ds + [p], t, p)
  {
    assert (ds + [p])[|ds|..] == [p];
  }

  lemma DeletesShift(ds: seq<Path>, es: seq<Path>, t: Tree, p: Path)
    requires Deletes([], es, t, p)
    ensures Deletes(ds, ds + es, t, p)
  {
    assert es[0..] == es && (ds + es)[|ds|..] == es;
    forall k | |ds| <= k < |ds + es|
      ensures (ds + es)[k] in t && p <= (ds + es)[k]
    {
      assert (ds + es)[k] == es[k - |ds|];
    }
  }

  lemma DeletesTrans(a: seq<Path>, b: seq<Path>, c: seq<Path>, t: Tree, s: Tree, p: Path, q: Path)
    requires Deletes(a, b, t, p) && Deletes(b, c, s, q) && p <= q && (forall x :: x in s ==> x in t) && ChildrenFirst(c)
    ensures Deletes(a, c, t, p)
  {
    forall k | |a| <= k < |c| ensures c[k] in t && p <= c[k] { if k < |b| { assert c[k] == b[k]; } }
  }

  /** As many entries were unlinked as deletions recorded, and as many made as creations. */
  predicate Balanced(stats: Stats, out: Stats) {
    && out.unlinked + |stats.deletions| == stats.unlinked + |out.deletions|
    && out.dirs + out.files + out.links + |stats.creations| == stats.dirs + stats.files + stats.links + |out.creations|
  }

  /** The deletions recorded so far are in order, and what they took is gone. */
  ghost predicate Tidy(stats: Stats, out: Stats, t: Tree) {
    && out == stats.(unlinked := out.unlinked, deletions := out.deletions) && Balanced(stats, out)
    && ChildrenFirst(out.deletions) && Gone(out.deletions, t)
  }

  lemma TidyParts(stats: Stats, out: Stats, t: Tree)
    requires Tidy(stats, out, t)
    ensures ChildrenFirst(out.deletions) && Gone(out.deletions, t)
  {
    hide ChildrenFirst, Gone;
  }

  lemma TidySelf(stats: Stats, t: Tree)
    requires ChildrenFirst(stats.deletions) && Gone(stats.deletions, t)
    ensures Tidy(stats, stats, t)
  {
    hide ChildrenFirst, Gone;
  }

  lemma TidyTrans(a: Stats, b: Stats, c: Stats, t: Tree, u: Tree)
    requires Tidy(a, b, t) && Tidy(b, c, u)
    ensures Tidy(a, c, u)
  {
    hide ChildrenFirst, Gone;
  }

  /** The disk went from `t` to `s`, losing only what lies at or below `p`. */
  ghost predicate Pruning(t: Tree, s: Tree, before: seq<Tree>, after: seq<Tree>, p: Path) {
    IsTree(s) && Pruned(t, s, p) && PrunedTrail(t, before, after, p)
  }

  lemma PruningTrans(t: Tree, s: Tree, u: Tree, a: seq<Tree>, b: seq<Tree>, c: seq<Tree>, p: Path, q: Path)
    requires Pruning(t, s, a, b, p) && Pruning(s, u, b, c, q) && p <= q
    ensures Pruning(t, u, a, c, p)
  {
    PrunedTrailExtends(t, s, a, b, c, p, q);
    PrunedTrans(t, s, u, p, q);
  }

  lemma PruningSelf(t: Tree, a: seq<Tree>, p: Path)
    requires IsTree(t)
    ensures Pruning(t, t, a, a, p)
  {
  }

  lemma PruningStep(t: Tree, s: Tree, a: seq<Tree>, p: Path)
    requires IsTree(s) && Pruned(t, s, p)
    ensures Pruning(t, s, a, a + [s], p)
  {
  }

  method RemoveLeaf(d: Disk, p: Path, stats: Stats) returns (ok: bool, out: Stats)
    requires IsTree(d.tree) && p in d.tree && !d.tree[p].Dir? && ChildrenFirst(stats.deletions)
    requires Gone(stats.deletions, d.tree)
    modifies d
    ensures Pruning(old(d.tree), d.tree, old(d.trace), d.trace, p) && Tidy(stats, out, d.tree)
    ensures Deletes(stats.deletions, out.deletions, old(d.tree), p)
    ensures ok ==> (forall q :: q in d.tree ==> !(p <= q)) && forall q :: q != p ==> Agree(old(d.tree), d.tree, q)
    ensures out == if ok then Deleted(stats, p) else stats
    ensures if ok then d.trace == old(d.trace) + [d.tree] else d.tree == old(d.tree) && d.trace == old(d.trace)
  {
    out := stats;
    ok := d.RemoveFile(p);
    if ok {
      LeafPruned(old(d.tree), d.tree, p);
      PruningStep(old(d.tree), d.tree, old(d.trace), p);
      DeleteNext(out.deletions, old(d.tree), d.tree, p);
      DeletesOne(out.deletions, old(d.tree), p);
      out := Deleted(out, p);
    } else {
      PruningSelf(d.tree, d.trace, p);
    }
  }

  method RemoveEmpty(d: Disk, p: Path, stats: Stats) returns (ok: bool, out: Stats)
    requires IsTree(d.tree) && p in d.tree && d.tree[p].Dir? && ChildrenFirst(stats.deletions)
    requires Gone(stats.deletions, d.tree)
    modifies d
    ensures Pruning(old(d.tree), d.tree, old(d.trace), d.trace, p) && Tidy(stats, out, d.tree)
    ensures Deletes(stats.deletions, out.deletions, old(d.tree), p)
    ensures ok ==> (forall q :: q in d.tree ==> !(p <= q)) && forall q :: q != p ==> Agree(old(d.tree), d.tree, q)
    ensures out == if ok then Deleted(stats, p) else stats
    ensures if ok then d.trace == old(d.trace) + [d.tree] else d.tree == old(d.tree) && d.trace == old(d.trace)
  {
    out := stats;
    ok := d.RemoveDir(p);
    if ok {
      EmptyPruned(old(d.tree), d.tree, p);
      PruningStep(old(d.tree), d.tree, old(d.trace), p);
      DeleteNext(out.deletions, old(d.tree), d.tree, p);
      DeletesOne(out.deletions, old(d.tree), p);
      out := Deleted(out, p);
    } else {
      PruningSelf(d.tree, d.trace, p);
    }
  }

  /** remove_dir_children_first */
  method RemoveDeep(d: Disk, p: Path, stats: Stats) returns (ok: bool, out: Stats)
    requires IsTree(d.tree) && p in d.tree && d.tree[p].Dir? && ChildrenFirst(stats.deletions)
    requires Gone(stats.deletions, d.tree)
    modifies d
    ensures Pruning(old(d.tree), d.tree, old(d.trace), d.trace, p) && Tidy(stats, out, d.tree)
    ensures Deletes(stats.deletions, out.deletions, old(d.tree), p)
    ensures ok ==> forall q :: q in d.tree ==> !(p <= q)
    ensures Recorded(stats.deletions, out.deletions, old(d.tree), d.tree)
    ensures ok && (forall q :: q in old(d.tree) ==> !(p < q)) ==> out.deletions == stats.deletions + [p]
    ensures out.unlinked >= stats.unlinked + if ok then 1 else 0
    decreases |BelowOf(d.tree, p)|
  {
    hide PrunedTrail, Recorded, ChildrenFirst, Gone, Deletes, IsTree, Tidy;
    out := stats;
    TidySelf(stats, d.tree);
    PruningSelf(d.tree, d.trace, p);
    RecordedSelf(stats.deletions, d.tree, p);
    var todo := ChildrenOf(d.tree, p);
    while todo != {}
      invariant Pruning(old(d.tree), d.tree, old(d.trace), d.trace, p) && Tidy(stats, out, d.tree)
      invariant Deletes(stats.deletions, out.deletions, old(d.tree), p)
      invariant p in d.tree && d.tree[p].Dir? && out.unlinked >= stats.unlinked
      invariant Recorded(stats.deletions, out.deletions, old(d.tree), d.tree)
      invariant (forall q :: q in old(d.tree) ==> !(p < q)) ==> todo == {} && out == stats
      invariant forall c :: c in todo ==> c in d.tree && c != [] && Parent(c) == p
      decreases |todo|
    {
      var c :| c in todo;
      ghost var before, trail, ds, was := d.tree, d.trace, out.deletions, out;
      TidyParts(stats, was, before);
      if d.tree[c].Dir? {
        BelowShrinks(d.tree, p, c);
        BelowMonotone(d.tree, old(d.tree), p);
        ok, out := RemoveDeep(d, c, out);
      } else {
        ok, out := RemoveLeaf(d, c, out);
        LeafRecorded(ds, before, d.tree, c, ok);
      }
      TidyTrans(stats, was, out, before, d.tree);
      TidyParts(stats, out, d.tree);
      RecordedTrans(stats.deletions, ds, out.deletions, old(d.tree), before, d.tree);
      PruningTrans(old(d.tree), before, d.tree, old(d.trace), trail, d.trace, p, c);
      DeletesTrans(stats.deletions, ds, out.deletions, old(d.tree), before, p, c);
      if !ok { return; }
      SiblingsStay(before, d.tree, p, c, todo);
      todo := todo - {c};
    }
    ghost var before, trail, ds, was := d.tree, d.trace, out.deletions, out;
    TidyParts(stats, was, before);
    ok, out := RemoveEmpty(d, p, out);
    TidyTrans(stats, was, out, before, d.tree);
    TidyParts(stats, out, d.tree);
    PruningTrans(old(d.tree), before, d.tree, old(d.trace), trail, d.trace, p, p);
    DeletesTrans(stats.deletions, ds, out.deletions, old(d.tree), before, p, p);
    LeafRecorded(ds, before, d.tree, p, ok);
    RecordedTrans(stats.deletions, ds, out.deletions, old(d.tree), before, d.tree);
  }

  lemma RecordedSelf(ds: seq<Path>, t: Tree, p: Path)
    ensures Recorded(ds, ds, t, t) && Deletes(ds, ds, t, p)
  {
    assert ds[|ds|..] == [];
  }

  lemma LeafRecorded(ds: seq<Path>, t: Tree, s: Tree, p: Path, ok: bool)
    requires if ok then forall q :: q != p ==> Agree(t, s, q) else s == t
    ensures Recorded(ds, if ok then ds + [p] else ds, t, s)
  {
    assert (ds + [p])[|ds|..] == [p];
    forall q | q in t && q !in s ensures q == p { assert q == p || Agree(t, s, q); }
  }

  lemma SiblingsStay(t: Tree, s: Tree, p: Path, c: Path, todo: set<Path>)
    requires Pruned(t, s, c) && c != [] && Parent(c) == p && p in t && t[p].Dir?
    requires forall x :: x in todo ==> x in t && x != [] && Parent(x) == p
    ensures p in s && s[p].Dir? && forall x :: x in todo - {c} ==> x in s && x != [] && Parent(x) == p
  {
    assert !(c <= p) && Agree(t, s, p);
    forall x | x in todo - {c} ensures x in s && x != [] && Parent(x) == p {
      if c <= x {
        assert |c| == |x|;
        PrefixCases(c, x);
      }
      assert Agree(t, s, x);
    }
  }

  lemma BelowMonotone(s: Tree, t: Tree, p: Path)
    requires forall q :: q in s ==> q in t
    ensures |BelowOf(s, p)| <= |BelowOf(t, p)|
  {
    assert BelowOf(s, p) <= BelowOf(t, p);
    if BelowOf(s, p) != BelowOf(t, p) { Smaller(BelowOf(s, p), BelowOf(t, p)); }
  }

  lemma LeafPruned(t: Tree, s: Tree, c: Path)
    requires IsTree(t) && c in t && !t[c].Dir? && c !in s && forall q :: q != c ==> Agree(t, s, q)
    ensures Pruned(t, s, c) && forall q :: q in s ==> q in t && !(c <= q)
  {
    forall q | q in s ensures q in t && !(c <= q) {
      assert Agree(t, s, q);
      PrefixCases(c, q);
      if c < q { Ancestors(t, c, q); }
    }
  }

  lemma EmptyPruned(t: Tree, s: Tree, p: Path)
    requires p in t && (forall q :: q in t ==> !(p < q)) && p !in s && forall q :: q != p ==> Agree(t, s, q)
    ensures Pruned(t, s, p) && forall q :: q in s ==> q in t && !(p <= q)
  {
    forall q | q in s ensures q in t && !(p <= q) { assert Agree(t, s, q); PrefixCases(p, q); }
  }

  /** What one removal takes away. */
  predicate TakesOne(rm: Remove, q: Path) { q == rm.path || (rm.deep && rm.path <= q) }

  /** What a list of removals takes away. */
  ghost predicate Takes(rms: seq<Remove>, q: Path) {
    exists i :: 0 <= i < |rms| && TakesOne(rms[i], q)
  }

  /** `s` is `t` with some of what the removals take gone, and nothing else. */
  ghost predicate Reduced(t: Tree, s: Tree, rms: seq<Remove>) {
    && (forall q :: !Takes(rms, q) ==> Agree(t, s, q))
    && (forall q :: q in s ==> q in t && Agree(t, s, q))
  }

  ghost predicate Reducing(t: Tree, s: Tree, before: seq<Tree>, after: seq<Tree>, rms: seq<Remove>) {
    IsTree(s) && Reduced(t, s, rms) && before <= after && forall i :: |before| <= i < |after| ==>
      Reduced(t, after[i], rms)
  }

  lemma ReducedTrans(t: Tree, s: Tree, u: Tree, rms: seq<Remove>, one: seq<Remove>)
    requires Reduced(t, s, rms) && Reduced(s, u, one) && forall q :: Takes(one, q) ==> Takes(rms, q)
    ensures Reduced(t, u, rms)
  {
    forall q | !Takes(rms, q) ensures Agree(t, u, q) { assert Agree(t, s, q) && Agree(s, u, q); }
    forall q | q in u ensures q in t && Agree(t, u, q) { assert q in s && Agree(s, u, q) && Agree(t, s, q); }
  }

  lemma ReducingTrans(t: Tree, s: Tree, u: Tree, a: seq<Tree>, b: seq<Tree>, c: seq<Tree>, rms: seq<Remove>,
                      one: seq<Remove>)
    requires Reducing(t, s, a, b, rms) && Reducing(s, u, b, c, one) && forall q :: Takes(one, q) ==> Takes(rms, q)
    ensures Reducing(t, u, a, c, rms) && IsTree(u) && forall q :: q in u ==> q in s
  {
    ReducedTrans(t, s, u, rms, one);
    forall i | |a| <= i < |c| ensures Reduced(t, c[i], rms) {
      if i < |b| { assert c[i] == b[i]; } else { ReducedTrans(t, s, c[i], rms, one); }
    }
  }

  lemma PruningReduces(t: Tree, s: Tree, a: seq<Tree>, b: seq<Tree>, rm: Remove)
    requires rm.deep && Pruning(t, s, a, b, rm.path)
    ensures Reducing(t, s, a, b, [rm])
  {
    forall q | !Takes([rm], q) ensures !(rm.path <= q) { assert [rm][0] == rm; }
  }

  lemma StepReduces(t: Tree, s: Tree, a: seq<Tree>, rm: Remove)
    requires IsTree(s) && rm.path !in s && forall q :: q != rm.path ==> Agree(t, s, q)
    ensures Reducing(t, s, a, a + [s], [rm])
  {
    forall q | !Takes([rm], q) ensures q != rm.path { assert [rm][0] == rm; }
    forall q | q in s ensures q in t && Agree(t, s, q) { assert Agree(t, s, q); }
  }

  /** execute_remove: what is not there is no trouble, what cannot be looked at is. */
  method ExecRemove(d: Disk, rm: Remove, stats: Stats) returns (ok: bool, out: Stats)
    requires IsTree(d.tree) && ChildrenFirst(stats.deletions) && Gone(stats.deletions, d.tree)
    modifies d
    ensures Reducing(old(d.tree), d.tree, old(d.trace), d.trace, [rm]) && Tidy(stats, out, d.tree)
    ensures ok ==> forall q :: q in d.tree ==> !(rm.path <= q)
    ensures Recorded(stats.deletions, out.deletions, old(d.tree), d.tree)
    ensures Deletes(stats.deletions, out.deletions, old(d.tree), rm.path)
    ensures rm.path !in old(d.tree) ==> (ok <==> !Blocked(old(d.tree), rm.path)) && d.trace == old(d.trace)
  {
    hide Recorded, Deletes;
    out := stats;
    var p := rm.path;
    RecordedSelf(stats.deletions, d.tree, p);
    if p !in d.tree {
      AbsentBelow(d.tree, p);
      ok := !Blocked(d.tree, p);
    } else if d.tree[p].Dir? {
      if rm.deep {
        ok, out := RemoveDeep(d, p, stats);
        PruningReduces(old(d.tree), d.tree, old(d.trace), d.trace, rm);
      } else {
        ok, out := RemoveEmpty(d, p, stats);
        LeafRecorded(stats.deletions, old(d.tree), d.tree, p, ok);
        if ok { StepReduces(old(d.tree), d.tree, old(d.trace), rm); }
      }
    } else {
      ok, out := RemoveLeaf(d, p, stats);
      LeafRecorded(stats.deletions, old(d.tree), d.tree, p, ok);
      if ok { StepReduces(old(d.tree), d.tree, old(d.trace), rm); }
    }
  }

  /** The deletions list exactly what is gone. */
  ghost predicate Tallied(t: Tree, s: Tree, ds: seq<Path>) {
    forall q :: q in ds <==> q in t && q !in s
  }

  lemma GoneIsOut(ds: seq<Path>, t: Tree, k: nat)
    requires Gone(ds, t) && k < |ds|
    ensures ds[k] !in t
  {
  }

  lemma TalliedNext(t: Tree, s: Tree, u: Tree, ds: seq<Path>, es: seq<Path>, p: Path)
    requires Tallied(t, s, ds) && Recorded(ds, es, s, u) && Deletes(ds, es, s, p) && Gone(es, u)
    requires (forall q :: q in s ==> q in t) && forall q :: q in u ==> q in s
    ensures Tallied(t, u, es)
  {
    assert es == ds + es[|ds|..];
    forall q | q in es ensures q in t && q !in u {
      var k :| 0 <= k < |es| && es[k] == q;
      GoneIsOut(es, u, k);
      if k < |ds| { assert es[k] == ds[k] && q in ds; }
    }
  }

  /** The removal phase of `run`: after it, exactly what the removals take is gone. */
  method RemoveAll(d: Disk, rms: seq<Remove>, stats: Stats) returns (ok: bool, out: Stats)
    requires IsTree(d.tree) && stats.deletions == []
    modifies d
    ensures Reducing(old(d.tree), d.tree, old(d.trace), d.trace, rms) && Tidy(stats, out, d.tree)
    ensures ok ==> forall q :: q in d.tree ==> !Takes(rms, q)
    ensures rms == [] ==> ok && out == stats && d.tree == old(d.tree) && d.trace == old(d.trace)
    ensures Tallied(old(d.tree), d.tree, out.deletions)
  {
    hide Reducing, IsTree, ChildrenFirst, Gone, Tallied, Recorded, Deletes;
    out := stats;
    var i := 0;
    ReducingSelf(d.tree, d.trace, rms);
    NothingDeleted(d.tree);
    while i < |rms|
      invariant 0 <= i <= |rms| && IsTree(d.tree) && Tallied(old(d.tree), d.tree, out.deletions)
      invariant Reducing(old(d.tree), d.tree, old(d.trace), d.trace, rms) && Tidy(stats, out, d.tree)
      invariant forall k, q :: 0 <= k < i && q in d.tree ==> !TakesOne(rms[k], q)
      invariant i == 0 ==> out == stats && d.tree == old(d.tree) && d.trace == old(d.trace)
    {
      ghost var before, trail, ds := d.tree, d.trace, out.deletions;
      ok, out := ExecRemove(d, rms[i], out);
      OneTakes(rms, i);
      ReducingKeys(old(d.tree), before, old(d.trace), trail, rms);
      ReducingTrans(old(d.tree), before, d.tree, old(d.trace), trail, d.trace, rms, [rms[i]]);
      TalliedNext(old(d.tree), before, d.tree, ds, out.deletions, rms[i].path);
      if !ok { return; }
      i := i + 1;
    }
    ok := true;
  }

  lemma ReducingSelf(t: Tree, a: seq<Tree>, rms: seq<Remove>)
    requires IsTree(t)
    ensures Reducing(t, t, a, a, rms)
  {
  }

  lemma ReducingKeys(t: Tree, s: Tree, a: seq<Tree>, b: seq<Tree>, rms: seq<Remove>)
    requires Reducing(t, s, a, b, rms)
    ensures forall q :: q in s ==> q in t
  {
  }

  lemma NothingDeleted(t: Tree)
    ensures ChildrenFirst([]) && Gone([], t) && Tallied(t, t, [])
  {
  }

  lemma OneTakes(rms: seq<Remove>, i: nat)
    requires i < |rms|
    ensures forall q :: Takes([rms[i]], q) ==> Takes(rms, q)
  {
    forall q | Takes([rms[i]], q) ensures Takes(rms, q) { assert TakesOne(rms[i], q); }
  }

  lemma AbsentBelow(t: Tree, p: Path)
    requires IsTree(t) && p !in t
    ensures forall q :: q in t ==> !(p <= q)
  {
    forall q | q in t ensures !(p <= q) {
      PrefixCases(p, q);
      if p < q { Ancestors(t, p, q); }
    }
  }

  // ---- upserts -----------------------------------------------------------------------

  /** What the applier works with: the store, its hash, how names are made up, which link targets
      are acceptable at which depth, and which names are acceptable. */
  datatype Env = Env(st: Store, hash: Bytes -> BlobId, digest: Path -> string, size: string -> nat,
                     linkOk: (nat, string) -> bool, nameOk: Name -> bool)

  ghost predicate ValidEnv(env: Env) {
    forall p: Path :: |env.digest(p)| >= 16
  }

  predicate Replaces(m: Mutation) { m.WriteFile? || m.WriteLink? }

  /** Carrying out `m` at `p` may change what is at `q`. */
  predicate Reaches(p: Path, m: Mutation, q: Path) {
    !m.Skip? && (q == p || (Replaces(m) && p < q) || TempBeside(p, q))
  }

  /** `s` is a state in the middle of carrying out `m` at `p`, from `t`. Only `p`, what is below
      it if it is being replaced, and temporary names beside it are concerned; and a file that
      is being rewritten holds its old bytes or its new bytes, whole. */
  ghost predicate During(st: Store, t: Tree, s: Tree, p: Path, m: Mutation) {
    && (forall q :: !Reaches(p, m, q) ==> Agree(t, s, q))
    && (forall q :: q in s ==> q in t || q == p || TempBeside(p, q))
    && (p in t && !t[p].Dir? && !m.Mkdir? ==> p in s)
    && (p in s && s[p].Dir? && !m.Mkdir? ==> p in t && t[p].Dir?)
    && (p in t && t[p].File? && !m.Mkdir? && !m.WriteLink? ==>
          s[p].File? && (s[p].bytes == t[p].bytes || (m.WriteFile? && Content(st, m.chunks) == Some(s[p].bytes))))
  }

  ghost predicate DuringTrail(st: Store, t: Tree, s: Tree, before: seq<Tree>, after: seq<Tree>, p: Path, m: Mutation) {
    && IsTree(s) && During(st, t, s, p, m) && before <= after
    && forall i :: |before| <= i < |after| ==> During(st, t, after[i], p, m)
  }

  /** What stands at `p` once `m` has been carried out on `was`. */
  ghost predicate Result(st: Store, was: Option<Node>, now: Node, m: Mutation) {
    match m
    case Mkdir(_, _) => now.Dir?
    case WriteFile(exec, sec, nsec, _, chunks) =>
      Content(st, chunks).Some? && now == File(Content(st, chunks).value, exec, Join(sec, nsec))
    case WriteLink(target, sec, nsec) => now == Link(target, sec * BILLION + nsec)
    case Skip => was == Some(now)
    case RestoreTime(sec, nsec) => was.Some? && now == WithTime(was.value, Join(sec, nsec))
    case RestoreLinkTime(sec, nsec) => was.Some? && now == WithTime(was.value, sec * BILLION + nsec)
  }

  function At(t: Tree, p: Path): Option<Node> { if p in t then Some(t[p]) else None }

  ghost predicate Carried(st: Store, t: Tree, u: Tree, p: Path, m: Mutation) {
    && (forall q :: q in u ==> q in t || q == p)
    && (m.Skip? ==> u == t)
    && (!m.Skip? ==> p in u && Result(st, At(t, p), u[p], m))
    && (Replaces(m) ==> forall q :: q in u ==> !(p < q))
  }

  method FreshEntropy() returns (e: string)
    ensures |e| == ENTROPY_LEN && AllHex(e)
  {
    e := "00000000";
  }

  /** Where the new version of `p` is put together. */
  method TempPath(env: Env, p: Path) returns (tmp: Path)
    requires ValidEnv(env) && p != []
    ensures TempBeside(p, tmp)
  {
    var e := FreshEntropy();
    var name := NameFor(Last(p), Dot, e, env.digest(p), env.size);
    NameForIsTemp(Last(p), Dot, e, env.digest(p), env.size);
    tmp := Parent(p) + [name];
    assert Parent(tmp) == Parent(p);
  }

  /** Only the temporary file differs. */
  ghost predicate Drafted(t: Tree, s: Tree, tmp: Path) {
    forall q :: q != tmp ==> Agree(t, s, q)
  }

  ghost predicate DraftTrail(t: Tree, s: Tree, before: seq<Tree>, after: seq<Tree>, tmp: Path) {
    && IsTree(s) && Drafted(t, s, tmp) && before <= after
    && forall i :: |before| <= i < |after| ==> Drafted(t, after[i], tmp)
  }

  lemma DraftStep(t: Tree, s: Tree, u: Tree, a: seq<Tree>, b: seq<Tree>, tmp: Path)
    requires DraftTrail(t, s, a, b, tmp) && IsTree(u) && forall q :: q != tmp ==> Agree(s, u, q)
    ensures DraftTrail(t, u, a, b + [u], tmp)
  {
    forall q | q != tmp ensures Agree(t, u, q) { assert Agree(t, s, q) && Agree(s, u, q); }
  }

  /** One change to the draft. */
  method Tweak(d: Disk, tmp: Path, n: Node, ghost t: Tree, ghost trail: seq<Tree>) returns (ok: bool)
    requires tmp in d.tree && d.tree[tmp].File? && n.File? && DraftTrail(t, d.tree, trail, d.trace, tmp)
    modifies d
    ensures DraftTrail(t, d.tree, trail, d.trace, tmp)
    ensures ok ==> tmp in d.tree && d.tree[tmp] == n
  {
    ok := d.Modify(tmp, n);
    if ok { DraftStep(t, old(d.tree), d.tree, trail, old(d.trace), tmp); }
  }

  /** write_all: the bytes reach the draft in pieces of any size, and the process may stop between. */
  method WriteAll(d: Disk, tmp: Path, bytes: Bytes, ghost t: Tree, ghost trail: seq<Tree>) returns (ok: bool)
    requires tmp in d.tree && d.tree[tmp].File? && DraftTrail(t, d.tree, trail, d.trace, tmp)
    modifies d
    ensures DraftTrail(t, d.tree, trail, d.trace, tmp)
    ensures ok ==> tmp in d.tree && d.tree[tmp] == old(d.tree)[tmp].(bytes := old(d.tree)[tmp].bytes + bytes)
  {
    hide DraftTrail;
    ok := true;
    var file, done := d.tree[tmp], 0;
    assert file.bytes + bytes[..0] == file.bytes;
    while done < |bytes|
      invariant 0 <= done <= |bytes| && DraftTrail(t, d.tree, trail, d.trace, tmp)
      invariant tmp in d.tree && d.tree[tmp] == file.(bytes := file.bytes + bytes[..done])
    {
      var upTo :| done < upTo <= |bytes|;
      ok := Tweak(d, tmp, file.(bytes := file.bytes + bytes[..upTo]), t, trail);
      if !ok { return; }
      done := upTo;
    }
    assert bytes[..done] == bytes;
  }

  lemma DraftDuring(st: Store, t: Tree, s: Tree, p: Path, tmp: Path, m: Mutation)
    requires Drafted(t, s, tmp) && TempBeside(p, tmp) && tmp != p && !m.Skip?
    ensures During(st, t, s, p, m)
  {
    forall q | q in s ensures q in t || q == p || TempBeside(p, q) { if q != tmp { assert Agree(t, s, q); } }
    assert Agree(t, s, p);
  }

  lemma DuringTrans(st: Store, t: Tree, s: Tree, u: Tree, p: Path, m: Mutation)
    requires During(st, t, s, p, m) && During(st, s, u, p, m)
    ensures During(st, t, u, p, m)
  {
    forall q | !Reaches(p, m, q) ensures Agree(t, u, q) {
      assert Agree(t, s, q) && Agree(s, u, q);
    }
  }

  lemma DuringTrailTrans(st: Store, t: Tree, s: Tree, u: Tree, a: seq<Tree>, b: seq<Tree>, c: seq<Tree>, p: Path,
                         m: Mutation)
    requires DuringTrail(st, t, s, a, b, p, m) && DuringTrail(st, s, u, b, c, p, m)
    ensures DuringTrail(st, t, u, a, c, p, m)
  {
    DuringTrans(st, t, s, u, p, m);
    forall i | |a| <= i < |c| ensures During(st, t, c[i], p, m) {
      if i < |b| { assert c[i] == b[i]; } else { DuringTrans(st, t, s, c[i], p, m); }
    }
  }

  lemma DuringSelf(st: Store, t: Tree, a: seq<Tree>, p: Path, m: Mutation)
    requires IsTree(t)
    ensures DuringTrail(st, t, t, a, a, p, m)
  {
  }

  lemma DuringStep(st: Store, t: Tree, s: Tree, a: seq<Tree>, p: Path, m: Mutation)
    requires IsTree(s) && During(st, t, s, p, m)
    ensures DuringTrail(st, t, s, a, a + [s], p, m)
  {
  }

  lemma PruningDuring(st: Store, t: Tree, s: Tree, a: seq<Tree>, b: seq<Tree>, p: Path, m: Mutation)
    requires Pruning(t, s, a, b, p) && Replaces(m) && p in t && t[p].Dir?
    ensures DuringTrail(st, t, s, a, b, p, m)
  {
    forall u | Pruned(t, u, p) ensures During(st, t, u, p, m) {
      forall q | !Reaches(p, m, q) ensures Agree(t, u, q) { PrefixCases(p, q); }
    }
  }

  /** write_temp_then_rename, up to the rename: the draft is complete. */
  method Draft(d: Disk, env: Env, tmp: Path, m: Mutation) returns (ok: bool)
    requires IsTree(d.tree) && tmp != [] && m.WriteFile?
    modifies d
    ensures DraftTrail(old(d.tree), d.tree, old(d.trace), d.trace, tmp)
    ensures ok ==> tmp in d.tree && Result(env.st, None, d.tree[tmp], m)
  {
    hide DraftTrail;
    ghost var t, trail := d.tree, d.trace;
    assert DraftTrail(t, t, trail, trail, tmp) by { DraftSelf(t, trail, tmp); }
    ok := d.CreateFile(tmp);
    if !ok { return; }
    DraftStep(t, t, d.tree, trail, trail, tmp);
    ok := Tweak(d, tmp, d.tree[tmp].(exec := m.exec), t, trail);
    if !ok { return; }
    var i := 0;
    while i < |m.chunks|
      invariant 0 <= i <= |m.chunks| && DraftTrail(t, d.tree, trail, d.trace, tmp)
      invariant tmp in d.tree && d.tree[tmp].File? && d.tree[tmp].exec == m.exec
      invariant Content(env.st, m.chunks[..i]) == Some(d.tree[tmp].bytes)
    {
      var (id, len) := m.chunks[i];
      if !Has(env.st, DataChunk, id) { return false; }
      var bytes := env.st.blobs[(DataChunk, id)];
      if |bytes| != len || env.hash(bytes) != id { return false; }
      ContentNext(env.st, m.chunks, i);
      ok := WriteAll(d, tmp, bytes, t, trail);
      if !ok { return; }
      i := i + 1;
    }
    assert m.chunks[..i] == m.chunks;
    ok := Tweak(d, tmp, File(d.tree[tmp].bytes, m.exec, Join(m.sec, m.nsec)), t, trail);
  }

  lemma DraftSelf(t: Tree, trail: seq<Tree>, tmp: Path)
    requires IsTree(t)
    ensures DraftTrail(t, t, trail, trail, tmp)
  {
  }

  lemma {:induction false} ContentNext(st: Store, chunks: seq<(BlobId, nat)>, i: nat)
    requires i < |chunks| && Has(st, DataChunk, chunks[i].0) && |st.blobs[(DataChunk, chunks[i].0)]| == chunks[i].1
    requires Content(st, chunks[..i]).Some?
    ensures Content(st, chunks[..i + 1]) == Some(Content(st, chunks[..i]).value + st.blobs[(DataChunk, chunks[i].0)])
    decreases i
  {
    var b := st.blobs[(DataChunk, chunks[i].0)];
    if i == 0 {
      var c := chunks[..1];
      assert c[0] == chunks[0] && c[1..] == [] && Content(st, c[1..]) == Some([]) && b + [] == b == [] + b;
    } else {
      var rest := chunks[1..];
      var a, c := chunks[..i], chunks[..i + 1];
      assert a[1..] == rest[..i - 1] && c[1..] == rest[..i] && a[0] == c[0] == chunks[0] && rest[i - 1] == chunks[i];
      ContentNext(st, rest, i - 1);
      var first, mid := st.blobs[(DataChunk, chunks[0].0)], Content(st, a[1..]).value;
      assert first + (mid + b) == (first + mid) + b;
    }
  }

  /** write_file_atomically: a draft beside the destination, then one rename. */
  method WriteAtomically(d: Disk, env: Env, p: Path, m: Mutation) returns (ok: bool)
    requires IsTree(d.tree) && ValidEnv(env) && p != [] && m.WriteFile? && !IsTemp(Last(p))
    modifies d
    ensures DuringTrail(env.st, old(d.tree), d.tree, old(d.trace), d.trace, p, m)
    ensures ok ==> Carried(env.st, old(d.tree), d.tree, p, m)
  {
    DuringSelf(env.st, d.tree, d.trace, p, m);
    if SumOf(m.chunks) != m.size { return false; }
    var tmp := TempPath(env, p);
    assert tmp != p;
    ok := Draft(d, env, tmp, m);
    DraftsDuring(env.st, old(d.tree), p, tmp, m);
    if ok {
      ghost var before := d.tree;
      ok := d.Rename(tmp, p);
      if ok {
        RenameDuring(env.st, old(d.tree), before, d.tree, p, tmp, m);
        var synced: bool := *;
        return synced;
      }
    }
    Discard(d, tmp, old(d.tree), old(d.trace));
  }

  /** Clean up, best effort. */
  method Discard(d: Disk, tmp: Path, ghost t: Tree, ghost trail: seq<Tree>)
    requires DraftTrail(t, d.tree, trail, d.trace, tmp)
    modifies d
    ensures DraftTrail(t, d.tree, trail, d.trace, tmp)
  {
    var gone := d.RemoveFile(tmp);
    if gone { DraftStep(t, old(d.tree), d.tree, trail, old(d.trace), tmp); }
  }

  /** Once the draft has taken the place of `p`, nothing of it is left beside it. */
  lemma RenameDuring(st: Store, t: Tree, s: Tree, u: Tree, p: Path, tmp: Path, m: Mutation)
    requires IsTree(t) && IsTree(u) && Drafted(t, s, tmp) && TempBeside(p, tmp) && tmp != p && Replaces(m)
    requires tmp in s && !s[tmp].Dir? && (m.WriteFile? ==> Result(st, None, s[tmp], m)) && (p in s ==> !s[p].Dir?)
    requires tmp !in u && p in u && u[p] == s[tmp] && forall q :: q != tmp && q != p ==> Agree(s, u, q)
    ensures During(st, t, u, p, m) && Placed(t, u, p)
  {
    forall q | q != p && q != tmp ensures Agree(t, u, q) { assert Agree(t, s, q) && Agree(s, u, q); }
    forall q | q in u ensures q in t || q == p { if q != p { assert Agree(t, u, q); } }
    forall q | q in u ensures !(p < q) { if p < q { Ancestors(u, p, q); } }
    assert Agree(t, s, p);
  }

  /** Something stands at `p`, nothing below it, and no other name is new. */
  ghost predicate Placed(t: Tree, u: Tree, p: Path) {
    p in u && (forall q :: q in u ==> q in t || q == p) && forall q :: q in u ==> !(p < q)
  }

  /** A directory in the way of a file or link goes first, with all that is in it. */
  method ClearDir(d: Disk, env: Env, p: Path, m: Mutation, stats: Stats) returns (ok: bool, out: Stats)
    requires IsTree(d.tree) && p != [] && Replaces(m)
    modifies d
    ensures DuringTrail(env.st, old(d.tree), d.tree, old(d.trace), d.trace, p, m)
    ensures forall q :: q in d.tree ==> q in old(d.tree)
    ensures out == stats.(unlinked := out.unlinked, deletions := out.deletions) && Balanced(stats, out)
    ensures Mutations(out) >= Mutations(stats) && Deletes(stats.deletions, out.deletions, old(d.tree), p)
    ensures ok ==> MadeRoom(stats.deletions, out.deletions, old(d.tree), p, m)
  {
    ok, out := true, stats;
    DuringSelf(env.st, d.tree, d.trace, p, m);
    if p in d.tree && d.tree[p].Dir? {
      ok, out := RemoveDeep(d, p, stats.(deletions := []));
      assert out.deletions[0..] == out.deletions
        && (stats.deletions + out.deletions)[|stats.deletions|..] == out.deletions;
      PruningDuring(env.st, old(d.tree), d.tree, old(d.trace), d.trace, p, m);
      DeletesShift(stats.deletions, out.deletions, old(d.tree), p);
      out := out.(deletions := stats.deletions + out.deletions);
    }
  }

  method ExecFile(d: Disk, env: Env, p: Path, m: Mutation, stats: Stats) returns (ok: bool, out: Stats)
    requires IsTree(d.tree) && ValidEnv(env) && p != [] && m.WriteFile? && !IsTemp(Last(p))
    modifies d
    ensures DuringTrail(env.st, old(d.tree), d.tree, old(d.trace), d.trace, p, m)
    ensures ok ==> Carried(env.st, old(d.tree), d.tree, p, m)
    ensures ok ==> Counted(stats, out, p, m) && Deletes(stats.deletions, out.deletions, old(d.tree), p)
    ensures ok ==> Emptied(stats.deletions, out.deletions, d.tree, p)
    ensures ok ==> MadeRoom(stats.deletions, out.deletions, old(d.tree), p, m)
  {
    hide MadeRoom, Deletes, During, DuringTrail, IsTree, Emptied;
    ok, out := ClearDir(d, env, p, m, stats);
    if !ok { return; }
    ghost var before, trail := d.tree, d.trace;
    ok := WriteAtomically(d, env, p, m);
    DuringTrailTrans(env.st, old(d.tree), before, d.tree, old(d.trace), trail, d.trace, p, m);
    if ok {
      EmptiedUnder(stats.deletions, out.deletions, old(d.tree), d.tree, p);
      out := Created(out.(files := out.files + 1, bytes := out.bytes + m.size), p);
    }
  }

  /** What an upsert does to the counts: a mutation is counted, a skip is not. */
  ghost predicate Counted(stats: Stats, out: Stats, p: Path, m: Mutation) {
    && out.skipped == stats.skipped && Balanced(stats, out)
    && (m.Skip? ==> out == stats)
    && (!m.Skip? ==> Mutations(out) > Mutations(stats))
    && out.dirs == stats.dirs + (if m.Mkdir? then 1 else 0)
    && out.files == stats.files + (if m.WriteFile? then 1 else 0)
    && out.bytes == stats.bytes + (if m.WriteFile? then m.size else 0)
    && out.links == stats.links + (if m.WriteLink? then 1 else 0)
    && out.creations == if Replaces(m) || m.Mkdir? then stats.creations + [p] else stats.creations
  }

  method ExecLink(d: Disk, env: Env, p: Path, m: Mutation, stats: Stats) returns (ok: bool, out: Stats)
    requires IsTree(d.tree) && ValidEnv(env) && p != [] && m.WriteLink? && !IsTemp(Last(p))
    modifies d
    ensures DuringTrail(env.st, old(d.tree), d.tree, old(d.trace), d.trace, p, m)
    ensures ok ==> Carried(env.st, old(d.tree), d.tree, p, m)
    ensures ok ==> Counted(stats, out, p, m) && Deletes(stats.deletions, out.deletions, old(d.tree), p)
    ensures ok ==> Emptied(stats.deletions, out.deletions, d.tree, p)
    ensures ok ==> MadeRoom(stats.deletions, out.deletions, old(d.tree), p, m)
  {
    hide MadeRoom, Deletes, During, DuringTrail, Carried, Placed, IsTree, Emptied;
    if !env.linkOk(|p| - 1, m.target) {
      DuringSelf(env.st, d.tree, d.trace, p, m);
      return false, stats;
    }
    ok, out := ClearDir(d, env, p, m, stats);
    if !ok { return; }
    ghost var before, trail := d.tree, d.trace;
    ok := PlaceLink(d, env, p, m);
    DuringTrailTrans(env.st, old(d.tree), before, d.tree, old(d.trace), trail, d.trace, p, m);
    if !ok { return; }
    out := Created(out.(links := out.links + 1), p);
    ghost var placed, trail2 := d.tree, d.trace;
    ok := d.SetLinkTime(p, m.sec * BILLION + m.nsec);
    if ok {
      out := out.(mtimes := out.mtimes + 1);
      RetimeDuring(env.st, placed, p, m.sec * BILLION + m.nsec, m);
      DuringStep(env.st, placed, d.tree, trail2, p, m);
      DuringTrailTrans(env.st, old(d.tree), placed, d.tree, old(d.trace), trail2, d.trace, p, m);
      LinkCarried(env.st, old(d.tree), before, placed, d.tree, p, m);
      EmptiedUnder(stats.deletions, out.deletions, old(d.tree), d.tree, p);
    }
  }

  /** The link stands, with its time. */
  lemma LinkCarried(st: Store, t: Tree, s: Tree, placed: Tree, u: Tree, p: Path, m: Mutation)
    requires m.WriteLink? && Placed(s, placed, p) && (forall q :: q in s ==> q in t)
    requires placed[p].Link? && placed[p].target == m.target
    requires u == placed[p := WithTime(placed[p], m.sec * BILLION + m.nsec)]
    ensures Carried(st, t, u, p, m) && forall q :: q in u ==> !(p < q)
  {
  }

  lemma RetimeDuring(st: Store, t: Tree, p: Path, time: int, m: Mutation)
    requires p in t && !m.WriteFile? && !m.Skip?
    ensures During(st, t, t[p := WithTime(t[p], time)], p, m)
  {
  }

  /** A link made under a temporary name, then renamed. */
  method PlaceLink(d: Disk, env: Env, p: Path, m: Mutation) returns (ok: bool)
    requires IsTree(d.tree) && ValidEnv(env) && p != [] && m.WriteLink? && !IsTemp(Last(p))
    modifies d
    ensures DuringTrail(env.st, old(d.tree), d.tree, old(d.trace), d.trace, p, m)
    ensures ok ==> Placed(old(d.tree), d.tree, p) && d.tree[p].Link? && d.tree[p].target == m.target
  {
    ghost var t, trail := d.tree, d.trace;
    var tmp := TempPath(env, p);
    assert tmp != p;
    DraftSelf(t, trail, tmp);
    ok := d.MakeLink(m.target, tmp);
    if ok {
      DraftStep(t, t, d.tree, trail, trail, tmp);
      ghost var before := d.tree;
      ok := d.Rename(tmp, p);
      DraftsDuring(env.st, t, p, tmp, m);
      if ok {
        RenameDuring(env.st, t, before, d.tree, p, tmp, m);
        var synced: bool := *;
        return synced;
      }
    }
    Discard(d, tmp, t, trail);
    DraftsDuring(env.st, t, p, tmp, m);
  }

  lemma DraftsDuring(st: Store, t: Tree, p: Path, tmp: Path, m: Mutation)
    requires TempBeside(p, tmp) && tmp != p && !m.Skip?
    ensures forall s :: Drafted(t, s, tmp) ==> During(st, t, s, p, m)
  {
    forall s | Drafted(t, s, tmp) ensures During(st, t, s, p, m) { DraftDuring(st, t, s, p, tmp, m); }
  }

  method ExecMkdir(d: Disk, env: Env, p: Path, m: Mutation, stats: Stats) returns (ok: bool, out: Stats)
    requires IsTree(d.tree) && p != [] && m.Mkdir?
    modifies d
    ensures DuringTrail(env.st, old(d.tree), d.tree, old(d.trace), d.trace, p, m)
    ensures ok ==> Carried(env.st, old(d.tree), d.tree, p, m)
    ensures ok ==> Counted(stats, out, p, m) && Deletes(stats.deletions, out.deletions, old(d.tree), p)
    ensures ok ==> Emptied(stats.deletions, out.deletions, d.tree, p)
    ensures ok ==> MadeRoom(stats.deletions, out.deletions, old(d.tree), p, m)
  {
    hide MadeRoom, Deletes, Emptied, During, DuringTrail, IsTree;
    ok, out := true, stats;
    DeletesNone(out.deletions, d.tree, p);
    DuringSelf(env.st, d.tree, d.trace, p, m);
    if p in d.tree && !d.tree[p].Dir? {
      ok := d.RemoveFile(p);
      if !ok { return; }
      GoneDuring(env.st, old(d.tree), d.tree, p, m);
      DuringStep(env.st, old(d.tree), d.tree, old(d.trace), p, m);
      DeletesOne(out.deletions, old(d.tree), p);
      out := Deleted(out, p);
    }
    ghost var before, trail := d.tree, d.trace;
    var r := d.CreateDir(p);
    if r.Refused? { return false, out; }
    if r.Made? {
      MadeDuring(env.st, before, d.tree, p, m);
      DuringStep(env.st, before, d.tree, trail, p, m);
      DuringTrailTrans(env.st, old(d.tree), before, d.tree, old(d.trace), trail, d.trace, p, m);
    }
    MkdirCleared(stats.deletions, old(d.tree), p, m);
    if out.deletions != stats.deletions {
      LeafStays(old(d.tree), d.tree, p);
      EmptiedUnder(stats.deletions, out.deletions, old(d.tree), d.tree, p);
    }
    out := Created(out.(dirs := out.dirs + 1), p);
  }

  lemma DeletesNone(ds: seq<Path>, t: Tree, p: Path)
    ensures Deletes(ds, ds, t, p) && forall u :: Emptied(ds, ds, u, p)
  {
    assert ds[|ds|..] == [];
  }

  lemma MkdirCleared(ds: seq<Path>, t: Tree, p: Path, m: Mutation)
    requires IsTree(t) && m.Mkdir?
    ensures MadeRoom(ds, if InTheWay(t, p, m) then ds + [p] else ds, t, p, m)
  {
    assert (ds + [p])[|ds|..] == [p];
    if InTheWay(t, p, m) {
      LeafBelow(t, p);
      forall q | q in t && p <= q ensures q == p { PrefixCases(p, q); }
    }
  }

  lemma LeafStays(t: Tree, u: Tree, p: Path)
    requires IsTree(t) && p in t && !t[p].Dir? && forall q :: q in u ==> q in t || q == p
    ensures forall q :: q in u ==> !(p < q)
  {
    LeafBelow(t, p);
  }

  lemma GoneDuring(st: Store, t: Tree, s: Tree, p: Path, m: Mutation)
    requires m.Mkdir? && p !in s && forall q :: q != p ==> Agree(t, s, q)
    ensures During(st, t, s, p, m) && forall q :: q in s ==> q in t
  {
    forall q | q in s ensures q in t { assert Agree(t, s, q); }
  }

  lemma MadeDuring(st: Store, t: Tree, s: Tree, p: Path, m: Mutation)
    requires m.Mkdir? && p in s && forall q :: q != p ==> Agree(t, s, q)
    ensures During(st, t, s, p, m) && forall q :: q in s ==> q in t || q == p
  {
    forall q | q in s ensures q in t || q == p { if q != p { assert Agree(t, s, q); } }
  }

  method ExecRestore(d: Disk, env: Env, p: Path, m: Mutation, stats: Stats) returns (ok: bool, out: Stats)
    requires IsTree(d.tree) && (m.RestoreTime? || m.RestoreLinkTime?)
    modifies d
    ensures DuringTrail(env.st, old(d.tree), d.tree, old(d.trace), d.trace, p, m)
    ensures ok ==> Carried(env.st, old(d.tree), d.tree, p, m)
    ensures ok ==> Counted(stats, out, p, m) && Deletes(stats.deletions, out.deletions, old(d.tree), p)
    ensures ok ==> Emptied(stats.deletions, out.deletions, d.tree, p)
    ensures ok ==> MadeRoom(stats.deletions, out.deletions, old(d.tree), p, m)
  {
    out := stats;
    DuringSelf(env.st, d.tree, d.trace, p, m);
    var time := if m.RestoreTime? then Join(m.sec, m.nsec) else m.sec * BILLION + m.nsec;
    if m.RestoreTime? { ok := d.SetTime(p, time); } else { ok := d.SetLinkTime(p, time); }
    if ok {
      RetimeDuring(env.st, old(d.tree), p, time, m);
      DuringStep(env.st, old(d.tree), d.tree, old(d.trace), p, m);
      out := out.(mtimes := out.mtimes + 1);
    }
  }

  /** execute_upsert */
  method ExecUpsert(d: Disk, env: Env, up: Upsert, stats: Stats, touches: seq<Touch>)
    returns (ok: bool, out: Stats, more: seq<Touch>)
    requires IsTree(d.tree) && ValidEnv(env) && up.path != [] && !IsTemp(Last(up.path))
    modifies d
    ensures DuringTrail(env.st, old(d.tree), d.tree, old(d.trace), d.trace, up.path, up.mutation)
    ensures ok ==> Carried(env.st, old(d.tree), d.tree, up.path, up.mutation)
    ensures ok ==> Counted(stats, out, up.path, up.mutation)
    ensures ok ==> Deletes(stats.deletions, out.deletions, old(d.tree), up.path)
    ensures ok ==> Emptied(stats.deletions, out.deletions, d.tree, up.path)
    ensures ok ==> MadeRoom(stats.deletions, out.deletions, old(d.tree), up.path, up.mutation)
    ensures ok ==> more == touches + TouchOf(up)
    ensures up.mutation.Skip? ==> ok && d.tree == old(d.tree) && d.trace == old(d.trace)
  {
    var p, m := up.path, up.mutation;
    ok, out, more := true, stats, touches;
    match m {
      case Skip => DuringSelf(env.st, d.tree, d.trace, p, m);
      case Mkdir(sec, nsec) =>
        ok, out := ExecMkdir(d, env, p, m, stats);
        more := more + [Touch(p, sec, nsec)];
      case WriteFile(_, _, _, _, _) => ok, out := ExecFile(d, env, p, m, stats);
      case WriteLink(_, _, _) => ok, out := ExecLink(d, env, p, m, stats);
      case _ => ok, out := ExecRestore(d, env, p, m, stats);
    }
  }

  function TouchOf(up: Upsert): seq<Touch> {
    if up.mutation.Mkdir? then [Touch(up.path, up.mutation.sec, up.mutation.nsec)] else []
  }
}
