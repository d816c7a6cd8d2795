/** Change sets: what they say of paths, and the removals and upserts they are divided into. */
module Changes {
  import opened Blobs
  import opened Paths
  import opened TempNames
  import opened UnixTime
  import opened FileTree
  import opened ApplyPlan
  import opened ApplyExec
  import opened ApplyGuard
  import opened ApplyRun
  import opened ApplyLaws
  import opened ApplyStates
  import opened ApplyRecord

  datatype State =
    | DirState(sec: int, nsec: int)
    | FileState(exec: bool, sec: int, nsec: int, chunks: seq<(BlobId, nat)>)
    | LinkState(target: Option<string>, sec: int, nsec: int)

  datatype Change = Change(path: Path, state: State)
  datatype TypeChange = TypeChange(path: Path, before: State, after: State)
  datatype ChangeSet = ChangeSet(removed: seq<Change>, added: seq<Change>, content: seq<Change>, metadata: seq<Change>,
                                 types: seq<TypeChange>)

  /** state_mutation */
  function StateMutation(s: State): (m: Mutation)
    ensures IsInput(m) && WellSized(m)
  {
    match s
    case DirState(sec, nsec) => Mkdir(sec, nsec)
    case FileState(exec, sec, nsec, chunks) => WriteFile(exec, sec, nsec, SumOf(chunks), chunks)
    case LinkState(target, sec, nsec) => WriteLink(if target.Some? then target.value else "", sec, nsec)
  }

  function AsUpserts(cs: seq<Change>): seq<Upsert> {
    seq(|cs|, i requires 0 <= i < |cs| => Upsert(cs[i].path, StateMutation(cs[i].state)))
  }

  function AsRemoves(cs: seq<Change>): seq<Remove> {
    seq(|cs|, i requires 0 <= i < |cs| => Remove(cs[i].path, cs[i].state.DirState?))
  }

  /** The path is named in the change set. */
  ghost predicate Names(cs: ChangeSet, p: Path) {
    || (exists c :: c in cs.removed + cs.added + cs.content + cs.metadata && c.path == p)
    || (exists c :: c in cs.types && c.path == p)
  }

  /** The removals and upserts of a change set: one of each for a change of type. */
  function RemovesOf(cs: ChangeSet): seq<Remove> {
    AsRemoves(cs.removed)
    + seq(|cs.types|, i requires 0 <= i < |cs.types| => Remove(cs.types[i].path, cs.types[i].before.DirState?))
  }

  function UpsertsOf(cs: ChangeSet): seq<Upsert> {
    AsUpserts(cs.added + (cs.content + cs.metadata))
    + seq(|cs.types|, i requires 0 <= i < |cs.types| => Upsert(cs.types[i].path, StateMutation(cs.types[i].after)))
  }

  method Divide(cs: ChangeSet) returns (rms: seq<Remove>, ups: seq<Upsert>)
    ensures rms == RemovesOf(cs) && ups == UpsertsOf(cs)
  {
    rms, ups := AsRemoves(cs.removed), AsUpserts(cs.added);
    var modified := cs.content + cs.metadata;
    var i := 0;
    while i < |modified|
      invariant 0 <= i <= |modified| && ups == AsUpserts(cs.added + modified[..i])
    {
      ups := ups + [Upsert(modified[i].path, StateMutation(modified[i].state))];
      i := i + 1;
    }
    assert modified[..i] == modified;
    ghost var rms0, ups0 := rms, ups;
    i := 0;
    while i < |cs.types|
      invariant 0 <= i <= |cs.types|
      invariant rms == rms0 + seq(i, k requires 0 <= k < i => Remove(cs.types[k].path, cs.types[k].before.DirState?))
      invariant ups == ups0 + seq(i, k requires 0 <= k < i =>
                                  Upsert(cs.types[k].path, StateMutation(cs.types[k].after)))
    {
      var c := cs.types[i];
      rms := rms + [Remove(c.path, c.before.DirState?)];
      ups := ups + [Upsert(c.path, StateMutation(c.after))];
      i := i + 1;
    }
  }

  ghost predicate Divided(cs: ChangeSet, rms: seq<Remove>, ups: seq<Upsert>) {
    && (forall rm :: rm in rms ==> Names(cs, rm.path))
    && (forall u :: u in ups ==> Names(cs, u.path) && IsInput(u.mutation) && WellSized(u.mutation))
  }

  lemma DivideNames(cs: ChangeSet, rms: seq<Remove>, ups: seq<Upsert>)
    requires rms == RemovesOf(cs) && ups == UpsertsOf(cs)
    ensures Divided(cs, rms, ups)
  {
    var all := cs.removed + cs.added + cs.content + cs.metadata;
    forall rm | rm in rms ensures Names(cs, rm.path) {
      var i :| 0 <= i < |rms| && rms[i] == rm;
      if i < |cs.removed| { assert cs.removed[i] in all && cs.removed[i].path == rm.path; }
      else { assert cs.types[i - |cs.removed|] in cs.types; }
    }
    var some := cs.added + (cs.content + cs.metadata);
    forall u | u in ups ensures Names(cs, u.path) && IsInput(u.mutation) && WellSized(u.mutation) {
      var i :| 0 <= i < |ups| && ups[i] == u;
      if i < |some| { assert some[i] in some; assert some[i] in all && some[i].path == u.path; }
      else { assert cs.types[i - |some|] in cs.types; }
    }
  }

  /** The change set has a say about `q`: it names `q` or a directory above it, or `q` is a
      temporary name next to one it names. */
  ghost predicate InReach(cs: ChangeSet, q: Path) {
    exists p :: Names(cs, p) && (p <= q || TempBeside(p, q))
  }

  /** A state of applying a change set to `t`. */
  ghost predicate Confined(t: Tree, cs: ChangeSet, s: Tree) {
    && (forall q :: !InReach(cs, q) ==> Agree(t, s, q))
    && (forall q :: q in s && q != [] ==> q in t || Names(cs, q) || IsTemp(Last(q)))
  }

  lemma ChangesPlain(cs: ChangeSet, rms: seq<Remove>, ups: seq<Upsert>)
    requires Divided(cs, rms, ups) && forall p :: Names(cs, p) ==> p != [] && !IsTemp(Last(p))
    ensures Plain(ups) && forall i :: 0 <= i < |ups| ==> IsInput(ups[i].mutation)
  {
    hide Names, IsTemp, IsInput, WellSized;
    forall i | 0 <= i < |ups|
      ensures ups[i].path != [] && !IsTemp(Last(ups[i].path)) && IsInput(ups[i].mutation)
    {
      assert ups[i] in ups;
    }
  }

  lemma StillConfined(t: Tree, cs: ChangeSet)
    ensures Confined(t, cs, t)
  {
  }

  lemma TakenInReach(cs: ChangeSet, rms: seq<Remove>, q: Path)
    requires (forall rm :: rm in rms ==> Names(cs, rm.path)) && Takes(rms, q)
    ensures InReach(cs, q)
  {
    hide Names;
    var i :| 0 <= i < |rms| && TakesOne(rms[i], q);
    assert rms[i] in rms && rms[i].path <= q;
  }

  lemma ConcernInReach(cs: ChangeSet, u: Upsert, q: Path)
    requires Names(cs, u.path) && Concerns(u, q)
    ensures InReach(cs, q)
  {
    hide Names;
    PrefixCases(u.path, q);
  }

  lemma StateConfined(env: Env, fold: Path -> string, t: Tree, cs: ChangeSet, rms: seq<Remove>, ups: seq<Upsert>,
                      sorted: seq<Upsert>, plan: seq<Upsert>, steps: seq<Tree>, s: Tree)
    requires Divided(cs, rms, ups) && (forall u :: u in sorted ==> u in ups) && PlanOf(env, fold, t, rms, sorted, plan)
    requires InRun(env.st, t, rms, plan, steps, s)
    ensures Confined(t, cs, s)
  {
    hide PlanStep, InRun, Names, IsTemp, IsInput, WellSized;
    forall k | 0 <= k < |plan|
      ensures Names(cs, plan[k].path)
    {
      assert plan[k].path == sorted[k].path && sorted[k] in sorted && sorted[k] in ups;
    }
    forall q | !InReach(cs, q) ensures Agree(t, s, q) {
      if Takes(rms, q) { TakenInReach(cs, rms, q); }
      forall k | 0 <= k < |plan| ensures !Concerns(plan[k], q) {
        if Concerns(plan[k], q) { ConcernInReach(cs, plan[k], q); }
      }
      RunFrame(env.st, t, rms, plan, steps, s, q);
    }
    forall q | q in s && q != [] ensures q in t || Names(cs, q) || IsTemp(Last(q)) {
      RunKeys(env.st, t, rms, plan, steps, s, q);
    }
  }

  lemma StatesConfined(env: Env, fold: Path -> string, t: Tree, cs: ChangeSet, rms: seq<Remove>, ups: seq<Upsert>,
                       sorted: seq<Upsert>, plan: seq<Upsert>, steps: seq<Tree>, now: Tree, a: seq<Tree>, b: seq<Tree>)
    requires Divided(cs, rms, ups) && sorted == Sort(ups, ByUpsert(), false) && PlanOf(env, fold, t, rms, sorted, plan)
    requires AllInRun(env.st, t, rms, plan, steps, now, a, b)
    ensures Confined(t, cs, now) && a <= b && forall i :: |a| <= i < |b| ==> Confined(t, cs, b[i])
  {
    hide Divided, PlanOf, InRun, Confined;
    SortMembers(ups, ByUpsert(), false);
    StateConfined(env, fold, t, cs, rms, ups, sorted, plan, steps, now);
    forall i | |a| <= i < |b|
      ensures Confined(t, cs, b[i])
    {
      StateConfined(env, fold, t, cs, rms, ups, sorted, plan, steps, b[i]);
    }
  }

  lemma ConfinedAlike(t: Tree, cs: ChangeSet, s: Tree, u: Tree)
    requires Confined(t, cs, s) && Alike(s, u)
    ensures Confined(t, cs, u)
  {
    hide InReach, Names, IsTemp;
    forall q | !InReach(cs, q) ensures Agree(t, u, q) { assert Agree(t, s, q) && Agree(s, u, q); }
    forall q | q in u && q != [] ensures q in t || Names(cs, q) || IsTemp(Last(q)) { assert Agree(s, u, q); }
  }

  // ---- what a change set says of each path --------------------------------------------------------

  /** The change set puts `s` at `p`: it adds it, gives it new content or metadata, or changes
      what is there to it. */
  ghost predicate Puts(cs: ChangeSet, p: Path, s: State) {
    || Change(p, s) in cs.added || Change(p, s) in cs.content || Change(p, s) in cs.metadata
    || exists c :: c in cs.types && c.path == p && c.after == s
  }

  ghost predicate PutsSome(cs: ChangeSet, p: Path) { exists s :: Puts(cs, p, s) }

  /** The change set takes `p` away itself: it removes it or changes its type. */
  ghost predicate DropsAt(cs: ChangeSet, p: Path) {
    (exists c :: c in cs.removed && c.path == p) || (exists c :: c in cs.types && c.path == p)
  }

  /** The change set takes `q` away: itself, or with a directory above it. */
  ghost predicate Drops(cs: ChangeSet, q: Path) {
    || (exists c :: c in cs.removed && WithIt(c.path, c.state, q))
    || (exists c :: c in cs.types && WithIt(c.path, c.before, q))
  }

  predicate WithIt(p: Path, s: State, q: Path) { q == p || (s.DirState? && p <= q) }

  /** The node is what the state says, its time aside; an unknown target is an empty one. */
  ghost predicate SameState(st: Store, n: Node, s: State) {
    match s
    case DirState(_, _) => n.Dir?
    case FileState(exec, _, _, chunks) => n.File? && n.exec == exec && Spells(st, chunks, n.bytes)
    case LinkState(target, _, _) => n.Link? && n.target == match target case Some(x) => x case None => ""
  }

  ghost predicate IsPut(st: Store, t: Tree, p: Path, s: State) {
    p in t && SameState(st, t[p], s) && Timed(t[p], s.sec, s.nsec)
  }

  /** No path is put twice. */
  ghost predicate OneEach(cs: ChangeSet) {
    var all := cs.added + (cs.content + cs.metadata);
    && (forall i, j :: 0 <= i < j < |all| ==> all[i].path != all[j].path)
    && (forall i, j :: 0 <= i < j < |cs.types| ==> cs.types[i].path != cs.types[j].path)
    && (forall i, j :: 0 <= i < |all| && 0 <= j < |cs.types| ==> all[i].path != cs.types[j].path)
  }

  /** No path is put twice, or below a file or link that is put too, or while a directory above it
      is taken away and it is not itself. */
  ghost predicate Coherent(cs: ChangeSet) {
    && OneEach(cs)
    && (forall p, s, q, x :: Puts(cs, p, s) && Puts(cs, q, x) && p < q ==> s.DirState?)
    && (forall p, s :: Puts(cs, p, s) && Drops(cs, p) ==> DropsAt(cs, p))
  }

  /** What a finished run has made of the change set: what was taken away is gone unless it was put
      back, and what was put is there, with its own kind, exec bit, bytes or target, and time. */
  ghost predicate Fulfilled(st: Store, t: Tree, cs: ChangeSet) {
    && (forall q :: q in t && Drops(cs, q) ==> PutsSome(cs, q))
    && (Coherent(cs) ==> forall p, s :: Puts(cs, p, s) ==> IsPut(st, t, p, s))
  }

  lemma UpsertAt(cs: ChangeSet, i: nat) returns (s: State)
    requires i < |UpsertsOf(cs)|
    ensures var u := UpsertsOf(cs)[i]; Puts(cs, u.path, s) && u.mutation == StateMutation(s)
    ensures var all := cs.added + (cs.content + cs.metadata);
            if i < |all| then all[i] == Change(UpsertsOf(cs)[i].path, s)
            else i - |all| < |cs.types| && cs.types[i - |all|].path == UpsertsOf(cs)[i].path
  {
    hide StateMutation;
    var all := cs.added + (cs.content + cs.metadata);
    if i < |all| {
      s := all[i].state;
      assert all[i] in all;
    } else {
      s := cs.types[i - |all|].after;
      assert cs.types[i - |all|] in cs.types;
    }
  }

  lemma PutListed(cs: ChangeSet, p: Path, s: State)
    requires Puts(cs, p, s)
    ensures Upsert(p, StateMutation(s)) in UpsertsOf(cs)
  {
    hide StateMutation;
    var all, us := cs.added + (cs.content + cs.metadata), UpsertsOf(cs);
    if Change(p, s) in all {
      var i :| 0 <= i < |all| && all[i] == Change(p, s);
      assert us[i] == Upsert(p, StateMutation(s));
    } else {
      var c :| c in cs.types && c.path == p && c.after == s;
      var i :| 0 <= i < |cs.types| && cs.types[i] == c;
      assert us[|all| + i] == Upsert(p, StateMutation(s));
    }
  }

  /** The removals and upserts are those of the change set, and no others. */
  lemma DividedExactly(cs: ChangeSet, q: Path, u: Upsert)
    ensures Takes(RemovesOf(cs), q) <==> Drops(cs, q)
    ensures (exists rm :: rm in RemovesOf(cs) && rm.path == q) <==> DropsAt(cs, q)
    ensures u in UpsertsOf(cs) <==> exists s :: Puts(cs, u.path, s) && u.mutation == StateMutation(s)
    ensures Lists(UpsertsOf(cs), q) <==> PutsSome(cs, q)
  {
    hide StateMutation, UpsertsOf, Puts, RemovesOf, Drops, DropsAt, Takes;
    RemovalsExactly(cs, q);
    if u in UpsertsOf(cs) {
      var i :| 0 <= i < |UpsertsOf(cs)| && UpsertsOf(cs)[i] == u;
      var s := UpsertAt(cs, i);
    }
    if s :| Puts(cs, u.path, s) && u.mutation == StateMutation(s) { PutListed(cs, u.path, s); }
    if x :| x in UpsertsOf(cs) && x.path == q {
      var i :| 0 <= i < |UpsertsOf(cs)| && UpsertsOf(cs)[i] == x;
      var s := UpsertAt(cs, i);
    }
    if s :| Puts(cs, q, s) { PutListed(cs, q, s); }
  }

  lemma RemovalsExactly(cs: ChangeSet, q: Path)
    ensures Takes(RemovesOf(cs), q) <==> Drops(cs, q)
    ensures (exists rm :: rm in RemovesOf(cs) && rm.path == q) <==> DropsAt(cs, q)
  {
    var rms, n := RemovesOf(cs), |cs.removed|;
    forall i | 0 <= i < |rms|
      ensures TakesOne(rms[i], q) ==> Drops(cs, q)
      ensures rms[i].path == q ==> DropsAt(cs, q)
    {
      if i < n { assert cs.removed[i] in cs.removed; } else { assert cs.types[i - n] in cs.types; }
    }
    forall i | 0 <= i < n
      ensures WithIt(cs.removed[i].path, cs.removed[i].state, q) ==> Takes(rms, q)
      ensures cs.removed[i].path == q ==> exists rm :: rm in rms && rm.path == q
    {
      assert rms[i] == Remove(cs.removed[i].path, cs.removed[i].state.DirState?) && rms[i] in rms;
    }
    forall i | 0 <= i < |cs.types|
      ensures WithIt(cs.types[i].path, cs.types[i].before, q) ==> Takes(rms, q)
      ensures cs.types[i].path == q ==> exists rm :: rm in rms && rm.path == q
    {
      assert rms[n + i] == Remove(cs.types[i].path, cs.types[i].before.DirState?) && rms[n + i] in rms;
    }
  }

  lemma HoldsPut(st: Store, t: Tree, p: Path, s: State)
    ensures HoldsAt(st, t, Upsert(p, StateMutation(s))) <==> IsPut(st, t, p, s)
  {
    hide Spells, Content, Stands, LinkStands;
    if p in t && t[p].File? && s.FileState? { SpellsContent(st, s.chunks, t[p].bytes); }
  }

  lemma OneEachDistinct(cs: ChangeSet)
    requires OneEach(cs)
    ensures Paths.Distinct(UpsertsOf(cs), ByUpsert())
  {
    hide UpsertsOf, Puts, StateMutation;
    var us, all := UpsertsOf(cs), cs.added + (cs.content + cs.metadata);
    forall i, j | 0 <= i < j < |us| ensures ByUpsert()(us[i]) != ByUpsert()(us[j]) {
      var s := UpsertAt(cs, i);
      var x := UpsertAt(cs, j);
      assert us[i].path != us[j].path by {
        if j < |all| { assert all[i].path != all[j].path; }
        else if i < |all| { assert all[i].path != cs.types[j - |all|].path; }
        else { assert cs.types[i - |all|].path != cs.types[j - |all|].path; }
      }
    }
  }

  lemma CoherentDivided(cs: ChangeSet)
    requires Coherent(cs)
    ensures Consistent(RemovesOf(cs), UpsertsOf(cs))
  {
    hide UpsertsOf, RemovesOf, Puts, Drops, DropsAt, OneEach, Takes;
    var rms, us := RemovesOf(cs), UpsertsOf(cs);
    OneEachDistinct(cs);
    forall i, j | 0 <= i < |us| && 0 <= j < |us| && i != j
      ensures us[i].path != us[j].path && !(Replaces(us[j].mutation) && us[j].path < us[i].path)
    {
      assert ByUpsert()(us[i]) != ByUpsert()(us[j]);
      var s := UpsertAt(cs, i);
      var x := UpsertAt(cs, j);
      if us[j].path < us[i].path { assert x.DirState?; }
    }
    forall i | 0 <= i < |us| && Takes(rms, us[i].path) ensures exists k :: 0 <= k < |rms| && rms[k].path == us[i].path {
      var s := UpsertAt(cs, i);
      DividedExactly(cs, us[i].path, us[i]);
      var rm :| rm in rms && rm.path == us[i].path;
      var k :| 0 <= k < |rms| && rms[k] == rm;
    }
  }

  lemma AppliedFulfils(st: Store, t: Tree, cs: ChangeSet)
    requires Applied(st, t, RemovesOf(cs), UpsertsOf(cs))
    ensures Fulfilled(st, t, cs)
  {
    hide UpsertsOf, RemovesOf, Puts, PutsSome, Drops, Takes, Lists, Consistent, Coherent, HoldsAt, IsPut, StateMutation;
    forall q | q in t && Drops(cs, q) ensures PutsSome(cs, q) { DividedExactly(cs, q, Upsert(q, Skip)); }
    if Coherent(cs) {
      CoherentDivided(cs);
      forall p, s | Puts(cs, p, s) ensures IsPut(st, t, p, s) {
        PutListed(cs, p, s);
        HoldsPut(st, t, p, s);
      }
    }
  }

  // ---- the record, and the guard --------------------------------------------------------------------

  /** Something taken away folds to the same key as `c`: the planner does not look at `c` then. */
  ghost predicate Dodged(fold: Path -> string, cs: ChangeSet, c: Path) {
    exists q :: DropsAt(cs, q) && fold(q) == fold(c)
  }

  /** The state is written anew: what is live is not it, times aside, or could not be looked at. */
  ghost predicate IsRewritten(st: Store, fold: Path -> string, t: Tree, cs: ChangeSet, p: Path, s: State) {
    Dodged(fold, cs, p) || !(p in t && SameState(st, t[p], s))
  }

  /** What a finished run leaves of names, and what it says of them. No draft is left. The creations
      are what was put and written anew, and only that. All that is gone is among the deletions, and
      of a coherent change set these are exactly what was taken away, is gone, or has turned from a
      directory into something else or the reverse; temporary names may be missing. The counts agree
      with both, and both are in order. */
  ghost predicate OnRecord(st: Store, fold: Path -> string, t: Tree, cs: ChangeSet, s: Tree, stats: Stats) {
    && (forall q :: q in s ==> q in t || PutsSome(cs, q))
    && (forall c :: c in stats.creations <==> exists x :: Puts(cs, c, x) && IsRewritten(st, fold, t, cs, c, x))
    && (forall q :: q in t && q !in s && q != [] && !IsTemp(Last(q)) ==> q in stats.deletions)
    && (Coherent(cs) ==> DeletesOnly(t, cs, s, stats.deletions) && stats.bytes == BytesOf(s, stats.creations))
    && stats.unlinked == |stats.deletions| && stats.dirs + stats.files + stats.links == |stats.creations|
    && ParentsFirst(stats.creations) && (OneEach(cs) ==> ChildrenFirst(stats.deletions))
  }

  ghost predicate DeletesOnly(t: Tree, cs: ChangeSet, s: Tree, ds: seq<Path>) {
    && (forall q :: q in ds ==> q in t && (Drops(cs, q) || Struck(t, s, q)))
    && (forall q :: q != [] && !IsTemp(Last(q)) && q in t && (Drops(cs, q) || Struck(t, s, q)) ==> q in ds)
  }

  lemma RewrittenSet(st: Store, fold: Path -> string, t: Tree, cs: ChangeSet, p: Path, s: State)
    ensures Rewrites(st, fold, t, RemovesOf(cs), Upsert(p, StateMutation(s))) <==> IsRewritten(st, fold, t, cs, p, s)
  {
    hide RemovesOf, DropsAt, Spells, Content, Takes, Drops;
    var rms := RemovesOf(cs);
    if i :| 0 <= i < |rms| && fold(rms[i].path) == fold(p) {
      assert rms[i] in rms;
      RemovalsExactly(cs, rms[i].path);
    }
    if q :| DropsAt(cs, q) && fold(q) == fold(p) {
      RemovalsExactly(cs, q);
      var rm :| rm in rms && rm.path == q;
      var i :| 0 <= i < |rms| && rms[i] == rm;
    }
    if p in t && t[p].File? && s.FileState? { SpellsContent(st, s.chunks, t[p].bytes); }
  }

  lemma CreatedSet(env: Env, fold: Path -> string, t: Tree, cs: ChangeSet, plan: seq<Upsert>, c: Path)
    requires forall i :: 0 <= i < |UpsertsOf(cs)| ==>
               IsInput(UpsertsOf(cs)[i].mutation) && WellSized(UpsertsOf(cs)[i].mutation)
    requires PlanOf(env, fold, t, RemovesOf(cs), Sort(UpsertsOf(cs), ByUpsert(), false), plan)
    ensures c in CreationsOf(plan) <==> exists x :: Puts(cs, c, x) && IsRewritten(env.st, fold, t, cs, c, x)
  {
    hide *;
    var us := UpsertsOf(cs);
    RunCreates(env, fold, t, RemovesOf(cs), us, Sort(us, ByUpsert(), false), plan, c);
    if u :| u in us && u.path == c && Rewrites(env.st, fold, t, RemovesOf(cs), u) {
      var i :| 0 <= i < |us| && us[i] == u;
      var x := UpsertAt(cs, i);
      assert u == Upsert(c, StateMutation(x));
      RewrittenSet(env.st, fold, t, cs, c, x);
    }
    if x :| Puts(cs, c, x) && IsRewritten(env.st, fold, t, cs, c, x) {
      PutListed(cs, c, x);
      RewrittenSet(env.st, fold, t, cs, c, x);
    }
  }

  lemma RecordedSet(env: Env, fold: Path -> string, t: Tree, cs: ChangeSet, plan: seq<Upsert>, touches: seq<Touch>,
                    steps: seq<Tree>, s: Tree, stats: Stats)
    requires IsTree(t) && IsTree(s) && Plain(UpsertsOf(cs))
    requires forall i :: 0 <= i < |UpsertsOf(cs)| ==>
               IsInput(UpsertsOf(cs)[i].mutation) && WellSized(UpsertsOf(cs)[i].mutation)
    requires PlanOf(env, fold, t, RemovesOf(cs), Sort(UpsertsOf(cs), ByUpsert(), false), plan)
    requires Complete(env.st, t, RemovesOf(cs), plan, touches, steps, s, stats)
    requires Tidied(t, UpsertsOf(cs), s, stats.deletions) && InOrder(stats, UpsertsOf(cs))
    requires Applied(env.st, s, RemovesOf(cs), UpsertsOf(cs))
    ensures OnRecord(env.st, fold, t, cs, s, stats)
  {
    hide *;
    var rms, us := RemovesOf(cs), UpsertsOf(cs);
    RecordCounts(env.st, t, rms, plan, touches, steps, s, stats);
    forall c ensures c in stats.creations <==> exists x :: Puts(cs, c, x) && IsRewritten(env.st, fold, t, cs, c, x) {
      CreatedSet(env, fold, t, cs, plan, c);
    }
    if Coherent(cs) {
      CoherentDivided(cs);
      ListOrderly(env, fold, t, rms, us, Sort(us, ByUpsert(), false), plan, touches, steps, s, stats);
      forall q
        ensures q in stats.deletions ==> q in t && (Drops(cs, q) || Struck(t, s, q))
        ensures q != [] && !IsTemp(Last(q)) && q in t && (Drops(cs, q) || Struck(t, s, q)) ==> q in stats.deletions
      {
        RemovalsExactly(cs, q);
        DeletedExactly(env.st, t, rms, plan, touches, steps, s, stats, q);
      }
      DeletesWhole(t, cs, s, stats.deletions);
      AppliedHold(env.st, s, rms, us);
      RunWritten(env, fold, t, rms, us, Sort(us, ByUpsert(), false), plan, touches, steps, s, stats);
    }
    TidiedSet(env.st, fold, t, cs, s, stats);
  }

  lemma AppliedHold(st: Store, t: Tree, rms: seq<Remove>, ups: seq<Upsert>)
    requires Applied(st, t, rms, ups) && Consistent(rms, ups)
    ensures forall u :: u in ups ==> HoldsAt(st, t, u)
  {
    hide HoldsAt, Consistent, Takes;
  }

  lemma DeletesWhole(t: Tree, cs: ChangeSet, s: Tree, ds: seq<Path>)
    requires forall q :: q in ds ==> q in t && (Drops(cs, q) || Struck(t, s, q))
    requires forall q :: q != [] && !IsTemp(Last(q)) && q in t && (Drops(cs, q) || Struck(t, s, q)) ==> q in ds
    ensures DeletesOnly(t, cs, s, ds)
  {
    hide Drops, Struck, IsTemp;
  }

  lemma TidiedSet(st: Store, fold: Path -> string, t: Tree, cs: ChangeSet, s: Tree, stats: Stats)
    requires Tidied(t, UpsertsOf(cs), s, stats.deletions) && InOrder(stats, UpsertsOf(cs))
    requires forall c :: c in stats.creations <==> exists x :: Puts(cs, c, x) && IsRewritten(st, fold, t, cs, c, x)
    requires Coherent(cs) ==> DeletesOnly(t, cs, s, stats.deletions) && stats.bytes == BytesOf(s, stats.creations)
    requires stats.unlinked == |stats.deletions| && stats.dirs + stats.files + stats.links == |stats.creations|
    ensures OnRecord(st, fold, t, cs, s, stats)
  {
    hide UpsertsOf, PutsSome, Lists, IsTemp, OneEach, ParentsFirst, ChildrenFirst, Puts, IsRewritten, DeletesOnly,
      Coherent;
    forall q | q in s ensures q in t || PutsSome(cs, q) { DividedExactly(cs, q, Upsert(q, Skip)); }
    if OneEach(cs) { OneEachDistinct(cs); }
  }

  /** Something is put, other than a directory left in place, where the base has a directory. */
  ghost predicate Overruled(t: Tree, base: seq<Entry>, cs: ChangeSet, q: Path) {
    exists p, s :: Puts(cs, p, s) && Overrides(t, base, p, s.DirState?, q)
  }

  /** Whatever is lost was as the base says, and whatever is new was not in the base. */
  ghost predicate GuardedSet(st: Store, t: Tree, base: seq<Entry>, cs: ChangeSet, s: Tree) {
    && (forall q :: Lost(t, s, q) && q != [] && !IsTemp(Last(q)) ==>
        AsBase(st, t, base, q) || Overruled(t, base, cs, q))
    && NothingRevived(t, base, s)
  }

  lemma ExemptSet(t: Tree, base: seq<Entry>, cs: ChangeSet, q: Path)
    requires Exempt(t, base, UpsertsOf(cs), q)
    ensures Overruled(t, base, cs, q)
  {
    hide UpsertsOf, Puts, HasDir;
    var us := UpsertsOf(cs);
    var u :| u in us && Overrides(t, base, u.path, u.mutation.Mkdir?, q);
    var i :| 0 <= i < |us| && us[i] == u;
    var s := UpsertAt(cs, i);
  }

  lemma GuardSet(st: Store, t: Tree, base: seq<Entry>, cs: ChangeSet, s: Tree)
    requires Guarded(st, t, base, UpsertsOf(cs), s)
    ensures GuardedSet(st, t, base, cs, s)
  {
    hide Lost, IsTemp, AsBase, Exempt, Overruled, UpsertsOf, NothingRevived;
    forall q | Lost(t, s, q) && q != [] && !IsTemp(Last(q))
      ensures AsBase(st, t, base, q) || Overruled(t, base, cs, q)
    {
      if !AsBase(st, t, base, q) { ExemptSet(t, base, cs, q); }
    }
  }
}
