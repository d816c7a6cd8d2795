/** The guard of Expect mode: every planned mutation is compared with an expected base tree
    before anything is touched. */
module ApplyGuard {
  import opened Blobs
  import opened Paths
  import opened FileTree
  import opened ApplyPlan
  import opened ApplyExec

  // ---- the base ------------------------------------------------------------------------

  function Find(es: seq<Entry>, name: Name): Option<Entry> {
    if es == [] then None else if es[0].name == name then Some(es[0]) else Find(es[1..], name)
  }

  lemma {:induction false} FindIn(es: seq<Entry>, name: Name)
    ensures Find(es, name).Some? ==> Find(es, name).value in es
  {
    if es != [] && es[0].name != name { FindIn(es[1..], name); }
  }

  /** What the base holds at a path. */
  function Lookup(es: seq<Entry>, path: Path): Option<Entry>
    decreases |path|
  {
    if path == [] then None
    else match Find(es, path[0])
         case None => None
         case Some(e) =>
           if |path| == 1 then Some(e) else if e.body.DirBody? then Lookup(e.body.children, path[1..]) else None
  }

  /** Looking up finds what the names lead to. */
  lemma {:induction false} LookupLeads(es: seq<Entry>, p: Path, e: Entry)
    requires ValidEntries(es)
    ensures Lookup(es, p) == Some(e) <==> LeadsTo(es, p, e)
    decreases |p|
  {
    if p != [] {
      if i :| 0 <= i < |es| && Heads(es[i], p, e) {
        FindFirst(es, i);
        if |p| > 1 { LookupLeads(es[i].body.children, p[1..], e); }
      }
      if Lookup(es, p) == Some(e) {
        var x := Find(es, p[0]).value;
        FindNamed(es, p[0]);
        var i :| 0 <= i < |es| && es[i] == x;
        if |p| > 1 { LookupLeads(x.body.children, p[1..], e); }
        assert Heads(es[i], p, e);
      }
    }
  }

  lemma {:induction false} FindNamed(es: seq<Entry>, name: Name)
    requires Find(es, name).Some?
    ensures Find(es, name).value in es && Find(es, name).value.name == name
  {
    if es[0].name != name { FindNamed(es[1..], name); }
  }

  lemma LookupEntry(base: seq<Entry>, p: Path)
    requires ValidEntries(base)
    ensures Lookup(base, p).Some? <==> HasEntry(base, p)
    ensures HasDir(base, p) <==> Lookup(base, p).Some? && Lookup(base, p).value.body.DirBody?
  {
    hide Lookup, ValidEntries, LeadsTo;
    if Lookup(base, p).Some? { LookupLeads(base, p, Lookup(base, p).value); }
    if e :| LeadsTo(base, p, e) { LookupLeads(base, p, e); }
    if e :| LeadsTo(base, p, e) && e.body.DirBody? { LookupLeads(base, p, e); }
  }

  /** Base::lookup, descending one node per component. */
  method LookUp(base: seq<Entry>, path: Path) returns (r: Option<Entry>)
    ensures r == Lookup(base, path)
  {
    if path == [] { return None; }
    var node, i := base, 0;
    while i < |path|
      invariant 0 <= i < |path| && Lookup(node, path[i..]) == Lookup(base, path)
      decreases |path| - i
    {
      assert path[i..][0] == path[i] && path[i..][1..] == path[i + 1..];
      match Find(node, path[i]) {
        case None => return None;
        case Some(e) =>
          if i == |path| - 1 { return Some(e); }
          match e.body {
            case DirBody(children) => node := children;
            case _ => return None;
          }
      }
      i := i + 1;
    }
    return None;
  }

  // ---- comparing with live entries -------------------------------------------------------

  /** A live node is what the base describes: kind, and for a file exec bit and bytes, for a
      link the target. */
  predicate Matches(st: Store, n: Node, m: Mutation) {
    match m
    case Mkdir(_, _) => n.Dir?
    case WriteFile(exec, _, _, size, chunks) =>
      n.File? && n.exec == exec && |n.bytes| == size && Compare(st, n.bytes, chunks).Same?
    case WriteLink(target, _, _) => n.Link? && n.target == target
    case _ => false
  }

  /** The same said of the content: a file has the very bytes of its chunks. */
  predicate Equals(st: Store, n: Node, m: Mutation) {
    match m
    case Mkdir(_, _) => n.Dir?
    case WriteFile(exec, _, _, _, chunks) => n.File? && n.exec == exec && Content(st, chunks) == Some(n.bytes)
    case WriteLink(target, _, _) => n.Link? && n.target == target
    case _ => false
  }

  /** With the size a validated manifest has, to match is to be equal. */
  lemma MatchesBytes(st: Store, n: Node, m: Mutation)
    requires WellSized(m)
    ensures Matches(st, n, m) <==> Equals(st, n, m)
  {
    if n.File? && m.WriteFile? {
      CompareSound(st, n.bytes, m.chunks);
      ContentSize(st, m.chunks);
    }
  }

  predicate SameKind(n: Node, m: Mutation) {
    (n.Dir? && m.Mkdir?) || (n.File? && m.WriteFile?) || (n.Link? && m.WriteLink?)
  }

  datatype Reason =
    | NotInBase | ExpectedPresent | ExpectedAbsent
    | KindMismatch | SizeMismatch | ExecMismatch | TargetMismatch | ContentMismatch
  datatype Divergence = Divergence(path: Path, reason: Reason)

  /** What a divergence says is so, where `m` is expected at its path, or nothing. */
  predicate IsSo(st: Store, t: Tree, m: Option<Mutation>, x: Divergence) {
    match x.reason
    case NotInBase => m.None?
    case ExpectedPresent => m.Some? && x.path !in t
    case ExpectedAbsent => m.None? && x.path in t
    case _ => m.Some? && x.path in t && Differs(st, t[x.path], m.value, x.reason)
  }

  predicate Differs(st: Store, n: Node, m: Mutation, r: Reason) {
    match r
    case KindMismatch => !SameKind(n, m)
    case SizeMismatch => n.File? && m.WriteFile? && |n.bytes| != m.size
    case ExecMismatch => n.File? && m.WriteFile? && n.exec != m.exec
    case TargetMismatch => n.Link? && m.WriteLink? && n.target != m.target
    case _ => n.File? && m.WriteFile? && Compare(st, n.bytes, m.chunks).Different?
  }

  function Wanted(want: map<Path, Mutation>, p: Path): Option<Mutation> {
    if p in want then Some(want[p]) else None
  }

  function Expected(base: seq<Entry>, p: Path): Option<Mutation> {
    match Lookup(base, p) case None => None case Some(e) => Some(MutationOf(e))
  }

  /** All divergences added are below `p` and are so. */
  ghost predicate Reports(st: Store, t: Tree, p: Path, want: map<Path, Mutation>, out: seq<Divergence>,
                          more: seq<Divergence>) {
    && out <= more
    && forall i :: |out| <= i < |more| ==> p < more[i].path && IsSo(st, t, Wanted(want, more[i].path), more[i])
  }

  ghost predicate ReportsBase(st: Store, t: Tree, base: seq<Entry>, out: seq<Divergence>, more: seq<Divergence>) {
    out <= more && forall i :: |out| <= i < |more| ==> IsSo(st, t, Expected(base, more[i].path), more[i])
  }

  lemma ReportsTrans(st: Store, t: Tree, p: Path, want: map<Path, Mutation>, a: seq<Divergence>, b: seq<Divergence>,
                     c: seq<Divergence>)
    requires Reports(st, t, p, want, a, b) && Reports(st, t, p, want, b, c)
    ensures Reports(st, t, p, want, a, c)
  {
    hide IsSo, Wanted;
    forall i | |a| <= i < |c| ensures p < c[i].path && IsSo(st, t, Wanted(want, c[i].path), c[i]) {
      if i < |b| { assert c[i] == b[i]; }
    }
  }

  lemma ReportsBaseTrans(st: Store, t: Tree, base: seq<Entry>, a: seq<Divergence>, b: seq<Divergence>,
                         c: seq<Divergence>)
    requires ReportsBase(st, t, base, a, b) && ReportsBase(st, t, base, b, c)
    ensures ReportsBase(st, t, base, a, c)
  {
    hide IsSo, Expected;
    forall i | |a| <= i < |c| ensures IsSo(st, t, Expected(base, c[i].path), c[i]) {
      if i < |b| { assert c[i] == b[i]; }
    }
  }

  /** check_live_matches: one divergence unless the live entry matches. */
  method CheckLive(t: Tree, env: Env, p: Path, m: Mutation, out: seq<Divergence>)
    returns (ok: bool, more: seq<Divergence>)
    requires IsInput(m)
    ensures out <= more && (ok ==> (more == out <==> p in t && Matches(env.st, t[p], m)))
    ensures forall i :: |out| <= i < |more| ==> more[i].path == p && IsSo(env.st, t, Some(m), more[i])
  {
    ok, more := true, out;
    if p !in t { return true, out + [Divergence(p, ExpectedPresent)]; }
    var n := t[p];
    if !SameKind(n, m) { return true, out + [Divergence(p, KindMismatch)]; }
    match n {
      case Dir(_) =>
      case Link(target, _) => if target != m.target { more := out + [Divergence(p, TargetMismatch)]; }
      case File(bytes, exec, _) =>
        if |bytes| != m.size { return true, out + [Divergence(p, SizeMismatch)]; }
        if exec != m.exec { return true, out + [Divergence(p, ExecMismatch)]; }
        var readable: bool := *;
        if !readable { return false, out; }
        var v := CompareFile(env.st, bytes, m.chunks);
        if v.Broken? { return false, out; }
        if v.Different? { more := out + [Divergence(p, ContentMismatch)]; }
    }
  }

  // ---- whole subtrees --------------------------------------------------------------------

  /** The expected entries below a directory, by path. */
  function ByPath(us: seq<Upsert>): map<Path, Mutation> {
    if us == [] then map[] else ByPath(us[..|us| - 1])[us[|us| - 1].path := us[|us| - 1].mutation]
  }

  lemma {:induction false} ByPathSpec(us: seq<Upsert>)
    ensures forall q :: q in ByPath(us) <==> exists i :: 0 <= i < |us| && us[i].path == q
    ensures forall q :: q in ByPath(us) ==> Upsert(q, ByPath(us)[q]) in us
  {
    if us != [] {
      var init, u := us[..|us| - 1], us[|us| - 1];
      ByPathSpec(init);
      forall q ensures q in ByPath(us) <==> exists i :: 0 <= i < |us| && us[i].path == q {
        if q in ByPath(init) { var i :| 0 <= i < |init| && init[i].path == q; assert us[i] == init[i]; }
        if exists i :: 0 <= i < |us| && us[i].path == q {
          var i :| 0 <= i < |us| && us[i].path == q;
          if i < |init| { assert init[i].path == q; }
        }
        if q == u.path { assert us[|us| - 1].path == q; }
      }
      forall q | q in ByPath(us) ensures Upsert(q, ByPath(us)[q]) in us {
        if q != u.path { assert Upsert(q, ByPath(init)[q]) in init; }
      }
    }
  }

  /** What is found at `q` is expected there. A live directory only has to be listed. */
  predicate Listed(st: Store, t: Tree, want: map<Path, Mutation>, q: Path)
    requires q in t
  {
    q in want && (t[q].Dir? || Matches(st, t[q], want[q]))
  }

  ghost predicate SubtreeMatches(st: Store, t: Tree, want: map<Path, Mutation>, p: Path) {
    && (forall q :: q in t && p < q ==> Listed(st, t, want, q))
    && (forall q :: q in want ==> q in t && p < q)
  }

  /** A directory whose entries have been looked at. */
  predicate Expanded(p: Path, stack: seq<Path>, seen: set<Path>, x: Path) {
    (x == p || x in seen) && x !in stack
  }

  /** Where the walk of a live subtree stands: an entry has been seen exactly if its directory
      has been looked at; the others are on the stack, once each. */
  ghost predicate Frontier(t: Tree, p: Path, stack: seq<Path>, seen: set<Path>) {
    && seen <= BelowOf(t, p) && Stacked(t, p, stack, seen)
    && forall q :: q in BelowOf(t, p) ==> (q in seen <==> Expanded(p, stack, seen, Parent(q)))
  }

  ghost predicate Stacked(t: Tree, p: Path, stack: seq<Path>, seen: set<Path>) {
    && (forall k :: 0 <= k < |stack| ==> stack[k] in t && t[stack[k]].Dir? && (stack[k] == p || stack[k] in seen))
    && (forall j, k :: 0 <= j < k < |stack| ==> stack[j] != stack[k])
  }

  /** ... with one directory popped and its entries `todo` not yet looked at. */
  ghost predicate Opened(t: Tree, p: Path, stack: seq<Path>, seen: set<Path>, dir: Path, todo: set<Path>) {
    && seen <= BelowOf(t, p) && Stacked(t, p, stack, seen)
    && dir !in stack && p <= dir && (dir == p || dir in seen) && todo <= ChildrenOf(t, dir)
    && forall q :: q in BelowOf(t, p) ==>
         (q in seen <==> if Parent(q) == dir then q !in todo else Expanded(p, stack, seen, Parent(q)))
  }

  lemma Pop(t: Tree, p: Path, stack: seq<Path>, seen: set<Path>)
    requires Frontier(t, p, stack, seen) && stack != []
    ensures var last := |stack| - 1; Opened(t, p, stack[..last], seen, stack[last], ChildrenOf(t, stack[last]))
  {
    var last := |stack| - 1;
    var rest, dir := stack[..last], stack[last];
    assert stack == rest + [dir];
    PrefixCases(p, dir);
    assert Stacked(t, p, rest, seen) && dir !in rest;
    hide Stacked;
    forall q | q in BelowOf(t, p)
      ensures q in seen <==> if Parent(q) == dir then q !in ChildrenOf(t, dir) else Expanded(p, rest, seen, Parent(q))
    {
      assert Parent(q) in stack <==> Parent(q) == dir || Parent(q) in rest;
    }
  }

  lemma See(t: Tree, p: Path, stack: seq<Path>, seen: set<Path>, dir: Path, todo: set<Path>, c: Path)
    requires IsTree(t) && Opened(t, p, stack, seen, dir, todo) && c in todo
    ensures Opened(t, p, if t[c].Dir? then stack + [c] else stack, seen + {c}, dir, todo - {c})
    ensures c !in seen && c in BelowOf(t, p)
  {
    var stack', seen', todo' := if t[c].Dir? then stack + [c] else stack, seen + {c}, todo - {c};
    assert Parent(c) == dir && p < c && c in BelowOf(t, p);
    assert c !in stack;
    assert |Parent(c)| < |c|;
    forall q | q in BelowOf(t, p)
      ensures q in seen' <==> if Parent(q) == dir then q !in todo' else Expanded(p, stack', seen', Parent(q))
    {
      if Parent(q) == c { assert t[c].Dir?; assert c in stack' && !Expanded(p, stack, seen, c); }
    }
  }

  lemma Close(t: Tree, p: Path, stack: seq<Path>, seen: set<Path>, dir: Path)
    requires Opened(t, p, stack, seen, dir, {})
    ensures Frontier(t, p, stack, seen)
  {
  }

  lemma {:induction false} AllSeen(t: Tree, p: Path, seen: set<Path>, q: Path)
    requires IsTree(t) && Frontier(t, p, [], seen) && q in t && p < q
    ensures q in seen
    decreases |q|
  {
    assert q in BelowOf(t, p);
    var x := Parent(q);
    if |x| == |p| { assert x == p; } else { assert p < x; AllSeen(t, p, seen, x); }
  }

  /** One entry of the walk. */
  method SeeEntry(t: Tree, env: Env, p: Path, want: map<Path, Mutation>, c: Path, out: seq<Divergence>)
    returns (ok: bool, more: seq<Divergence>)
    requires c in t && p < c && forall q :: q in want ==> IsInput(want[q])
    ensures out <= more && (ok ==> (more == out <==> Listed(env.st, t, want, c)))
    ensures Reports(env.st, t, p, want, out, more)
  {
    ok, more := true, out;
    if c !in want { more := out + [Divergence(c, ExpectedAbsent)]; }
    else if !t[c].Dir? { ok, more := CheckLive(t, env, c, want[c], out); }
  }

  ghost predicate AllListed(st: Store, t: Tree, want: map<Path, Mutation>, seen: set<Path>) {
    forall q :: q in seen ==> q in t && Listed(st, t, want, q)
  }

  /** All entries of one directory: they have been seen, the directories among them stacked. */
  method SeeDir(t: Tree, env: Env, p: Path, want: map<Path, Mutation>, dir: Path, stack0: seq<Path>, seen0: set<Path>,
                out: seq<Divergence>)
    returns (ok: bool, more: seq<Divergence>, stack: seq<Path>, seen: set<Path>)
    requires IsTree(t) && Opened(t, p, stack0, seen0, dir, ChildrenOf(t, dir)) && forall q :: q in want ==>
          IsInput(want[q])
    ensures out <= more && (ok ==> Frontier(t, p, stack, seen))
    ensures seen0 <= seen && (seen == seen0 ==> stack == stack0)
    ensures ok && AllListed(env.st, t, want, seen) ==> more == out
    ensures ok && more == out && AllListed(env.st, t, want, seen0) ==> AllListed(env.st, t, want, seen)
    ensures Reports(env.st, t, p, want, out, more)
  {
    hide Opened, Frontier, Listed, IsTree, Reports;
    ok, more, stack, seen := true, out, stack0, seen0;
    ReportsNone(env.st, t, p, want, out);
    var todo := ChildrenOf(t, dir);
    while todo != {}
      invariant Opened(t, p, stack, seen, dir, todo) && todo <= ChildrenOf(t, dir)
      invariant out <= more && seen0 <= seen && (seen == seen0 ==> stack == stack0)
      invariant Reports(env.st, t, p, want, out, more)
      invariant AllListed(env.st, t, want, seen) ==> more == out
      invariant more == out && AllListed(env.st, t, want, seen0) ==> AllListed(env.st, t, want, seen)
      decreases todo
    {
      var c :| c in todo;
      See(t, p, stack, seen, dir, todo, c);
      if t[c].Dir? { stack := stack + [c]; }
      seen := seen + {c};
      ghost var before := more;
      ok, more := SeeEntry(t, env, p, want, c, more);
      ReportsTrans(env.st, t, p, want, out, before, more);
      if !ok { return; }
      todo := todo - {c};
    }
    Close(t, p, stack, seen, dir);
  }

  /** verify_subtree_matches_base: a stack of live directories, then what is missing. */
  method VerifySubtree(t: Tree, env: Env, p: Path, want: map<Path, Mutation>, out: seq<Divergence>)
    returns (ok: bool, more: seq<Divergence>)
    requires IsTree(t) && p in t && t[p].Dir? && forall q :: q in want ==> p < q && IsInput(want[q])
    ensures out <= more && (ok ==> (more == out <==> SubtreeMatches(env.st, t, want, p)))
    ensures Reports(env.st, t, p, want, out, more)
  {
    hide Opened, Listed, IsTree, Stacked, Expanded, Reports, Frontier, SubtreeMatches, AllListed;
    ok, more := true, out;
    ReportsNone(env.st, t, p, want, out);
    var stack: seq<Path>, seen: set<Path> := [p], {};
    StartWalk(env.st, t, p, want);
    while stack != []
      invariant Frontier(t, p, stack, seen) && out <= more && Reports(env.st, t, p, want, out, more)
      invariant more == out <==> AllListed(env.st, t, want, seen)
      decreases |BelowOf(t, p) - seen|, |stack|
    {
      var dir := stack[|stack| - 1];
      Pop(t, p, stack, seen);
      ghost var seen0, before := seen, more;
      ok, more, stack, seen := SeeDir(t, env, p, want, dir, stack[..|stack| - 1], seen, more);
      ReportsTrans(env.st, t, p, want, out, before, more);
      if !ok { return; }
      FewerLeft(t, p, seen0, stack, seen);
      ListedBefore(env.st, t, want, seen0, seen);
    }
    var missing := want.Keys - seen;
    WalkEnds(env.st, t, p, want, seen);
    ghost var before := more;
    more := Missing(t, env, p, want, missing, more);
    ReportsTrans(env.st, t, p, want, out, before, more);
  }

  lemma ReportsNone(st: Store, t: Tree, p: Path, want: map<Path, Mutation>, out: seq<Divergence>)
    ensures Reports(st, t, p, want, out, out)
  {
  }

  lemma StartWalk(st: Store, t: Tree, p: Path, want: map<Path, Mutation>)
    requires p in t && t[p].Dir?
    ensures Frontier(t, p, [p], {}) && AllListed(st, t, want, {})
  {
  }

  lemma ListedBefore(st: Store, t: Tree, want: map<Path, Mutation>, seen0: set<Path>, seen: set<Path>)
    requires seen0 <= seen
    ensures AllListed(st, t, want, seen) ==> AllListed(st, t, want, seen0)
  {
    hide Listed;
  }

  lemma FewerLeft(t: Tree, p: Path, seen0: set<Path>, stack: seq<Path>, seen: set<Path>)
    requires Frontier(t, p, stack, seen) && seen0 <= seen
    ensures seen != seen0 ==> |BelowOf(t, p) - seen| < |BelowOf(t, p) - seen0|
  {
    hide Stacked, Expanded;
    if seen != seen0 { Smaller(BelowOf(t, p) - seen, BelowOf(t, p) - seen0); }
  }

  /** When the stack is empty everything live has been seen, and what is expected and was not is
      missing. */
  lemma WalkEnds(st: Store, t: Tree, p: Path, want: map<Path, Mutation>, seen: set<Path>)
    requires IsTree(t) && Frontier(t, p, [], seen) && forall q :: q in want ==> p < q
    ensures AllListed(st, t, want, seen) && want.Keys - seen == {} <==> SubtreeMatches(st, t, want, p)
    ensures forall q :: q in want.Keys - seen ==> q !in t
  {
    hide Listed, IsTree, Stacked, Expanded;
    forall q | q in BelowOf(t, p) ensures q in seen { AllSeen(t, p, seen, q); }
    assert seen == BelowOf(t, p);
    if SubtreeMatches(st, t, want, p) { assert want.Keys - seen == {}; }
    if AllListed(st, t, want, seen) && want.Keys - seen == {} {
      forall q | q in want ensures q in t && p < q { assert q !in want.Keys - seen; }
      assert SubtreeMatches(st, t, want, p);
    }
  }

  method Missing(t: Tree, env: Env, p: Path, want: map<Path, Mutation>, keys: set<Path>, out: seq<Divergence>)
    returns (more: seq<Divergence>)
    requires forall q :: q in keys ==> q in want && q !in t && p < q
    ensures out <= more && (more == out <==> keys == {})
    ensures Reports(env.st, t, p, want, out, more)
  {
    more := out;
    var todo := keys;
    while todo != {}
      invariant out <= more && (todo == keys || more != out) && (keys == {} ==> more == out) && todo <= keys
      invariant Reports(env.st, t, p, want, out, more)
      decreases todo
    {
      var q :| q in todo;
      more := more + [Divergence(q, ExpectedPresent)];
      todo := todo - {q};
    }
  }

  // ---- the two guards ----------------------------------------------------------------------

  function Below(p: Path, e: Entry): map<Path, Mutation> {
    if e.body.DirBody? then ByPath(Flatten(p, e.body.children)) else map[]
  }

  /** What the guard asks of a planned removal. */
  ghost predicate RemovalMatches(st: Store, t: Tree, base: seq<Entry>, rm: Remove) {
    match Lookup(base, rm.path)
    case None => false
    case Some(e) =>
      && rm.path in t && SameKind(t[rm.path], MutationOf(e))
      && if rm.deep && t[rm.path].Dir? then SubtreeMatches(st, t, Below(rm.path, e), rm.path)
         else Matches(st, t[rm.path], MutationOf(e))
  }

  method GuardRemoval(t: Tree, env: Env, base: seq<Entry>, rm: Remove, out: seq<Divergence>)
    returns (ok: bool, more: seq<Divergence>)
    requires IsTree(t)
    requires ValidEntries(base)
    ensures out <= more && (ok ==> (more == out <==> RemovalMatches(env.st, t, base, rm)))
    ensures ReportsBase(env.st, t, base, out, more)
  {
    hide ValidEntries, Below, SubtreeMatches, Reports;
    var r := LookUp(base, rm.path);
    match r {
      case None => return true, out + [Divergence(rm.path, NotInBase)];
      case Some(e) =>
        if rm.path !in t { return true, out + [Divergence(rm.path, ExpectedPresent)]; }
        if !SameKind(t[rm.path], MutationOf(e)) { return true, out + [Divergence(rm.path, KindMismatch)]; }
        if rm.deep && t[rm.path].Dir? {
          var want := Below(rm.path, e);
          BelowIsBelow(rm.path, e);
          ok, more := VerifySubtree(t, env, rm.path, want, out);
          SubtreeReports(env.st, t, base, rm.path, e, out, more);
        } else {
          ok, more := CheckLive(t, env, rm.path, MutationOf(e), out);
        }
    }
  }

  lemma {:induction false} FlattenInputs(prefix: Path, es: seq<Entry>)
    ensures forall u :: u in Flatten(prefix, es) ==> IsInput(u.mutation)
    decreases es
  {
    if es != [] {
      FlattenInputs(prefix, es[1..]);
      if es[0].body.DirBody? { FlattenInputs(prefix + [es[0].name], es[0].body.children); }
    }
  }

  lemma BelowIsBelow(p: Path, e: Entry)
    ensures forall q :: q in Below(p, e) ==> p < q && IsInput(Below(p, e)[q])
  {
    if e.body.DirBody? {
      var us := Flatten(p, e.body.children);
      ByPathSpec(us);
      FlattenUnder(p, e.body.children);
      FlattenInputs(p, e.body.children);
    }
  }

  /** What is so of the entries below a directory of the base is so of the base. */
  lemma SubtreeReports(st: Store, t: Tree, base: seq<Entry>, p: Path, e: Entry, out: seq<Divergence>,
                       more: seq<Divergence>)
    requires ValidEntries(base) && Lookup(base, p) == Some(e) && e.body.DirBody?
    requires Reports(st, t, p, Below(p, e), out, more)
    ensures ReportsBase(st, t, base, out, more)
  {
    hide ValidEntries, Below, IsSo, Lookup, MutationOf;
    forall i | |out| <= i < |more| ensures IsSo(st, t, Expected(base, more[i].path), more[i]) {
      BelowLookup(base, p, e, more[i].path);
    }
  }

  /** What the guard asks of an upsert. Where the base has a directory, it asks nothing. */
  predicate UpsertMatches(st: Store, t: Tree, base: seq<Entry>, p: Path) {
    match (Lookup(base, p), At(t, p))
    case (None, None) => true
    case (None, Some(_)) => false
    case (Some(_), None) => false
    case (Some(e), Some(n)) => e.body.DirBody? || Matches(st, n, MutationOf(e))
  }

  method GuardUpsert(t: Tree, env: Env, base: seq<Entry>, p: Path, out: seq<Divergence>)
    returns (ok: bool, more: seq<Divergence>)
    ensures out <= more && (ok ==> (more == out <==> UpsertMatches(env.st, t, base, p)))
    ensures ReportsBase(env.st, t, base, out, more)
  {
    ok, more := true, out;
    var r := LookUp(base, p);
    match r {
      case None => if p in t { more := out + [Divergence(p, ExpectedAbsent)]; }
      case Some(e) =>
        if p !in t { more := out + [Divergence(p, ExpectedPresent)]; }
        else if !e.body.DirBody? { ok, more := CheckLive(t, env, p, MutationOf(e), out); }
    }
  }

  ghost predicate GuardPasses(st: Store, t: Tree, base: seq<Entry>, rms: seq<Remove>, plan: seq<Upsert>) {
    && (forall i :: 0 <= i < |rms| ==> RemovalMatches(st, t, base, rms[i]))
    && (forall i :: 0 <= i < |plan| && !plan[i].mutation.Skip? ==> UpsertMatches(st, t, base, plan[i].path))
  }

  /** The guard finds no divergence exactly when every mutation has its base. */
  method GuardAll(t: Tree, env: Env, base: seq<Entry>, rms: seq<Remove>, plan: seq<Upsert>)
    returns (ok: bool, out: seq<Divergence>)
    requires IsTree(t) && ValidEntries(base)
    ensures ok ==> (out == [] <==> GuardPasses(env.st, t, base, rms, plan))
    ensures ReportsBase(env.st, t, base, [], out)
  {
    hide ReportsBase, ValidEntries, RemovalMatches, UpsertMatches;
    out := [];
    ReportsBaseNone(env.st, t, base);
    var i := 0;
    while i < |rms|
      invariant 0 <= i <= |rms|
      invariant out == [] <==> forall k :: 0 <= k < i ==> RemovalMatches(env.st, t, base, rms[k])
      invariant ReportsBase(env.st, t, base, [], out)
    {
      ghost var before := out;
      ok, out := GuardRemoval(t, env, base, rms[i], out);
      ReportsBaseTrans(env.st, t, base, [], before, out);
      if !ok { return; }
      i := i + 1;
    }
    i := 0;
    assert out == [] <==> GuardPasses(env.st, t, base, rms, plan[..0]);
    while i < |plan|
      invariant 0 <= i <= |plan|
      invariant out == [] <==> GuardPasses(env.st, t, base, rms, plan[..i])
      invariant ReportsBase(env.st, t, base, [], out)
    {
      if !plan[i].mutation.Skip? {
        ghost var before := out;
        ok, out := GuardUpsert(t, env, base, plan[i].path, out);
        ReportsBaseTrans(env.st, t, base, [], before, out);
        if !ok { return; }
      }
      GuardNext(env.st, t, base, rms, plan, i);
      i := i + 1;
    }
    assert plan[..i] == plan;
    ok := true;
  }

  lemma ReportsBaseNone(st: Store, t: Tree, base: seq<Entry>)
    ensures ReportsBase(st, t, base, [], [])
  {
  }

  lemma GuardNext(st: Store, t: Tree, base: seq<Entry>, rms: seq<Remove>, plan: seq<Upsert>, i: nat)
    requires i < |plan|
    ensures GuardPasses(st, t, base, rms, plan[..i + 1]) <==>
            GuardPasses(st, t, base, rms, plan[..i])
              && (!plan[i].mutation.Skip? ==> UpsertMatches(st, t, base, plan[i].path))
  {
    hide RemovalMatches, UpsertMatches;
    var a, b := plan[..i], plan[..i + 1];
    assert b == a + [plan[i]];
    if GuardPasses(st, t, base, rms, b) {
      forall k | 0 <= k < |a| && !a[k].mutation.Skip?
        ensures UpsertMatches(st, t, base, a[k].path)
      {
        assert b[k] == a[k];
      }
      assert b[i] == plan[i];
    }
  }

  // ---- what a matching subtree says of each path ----------------------------------------------

  /** The live node at `q` is the one the base has there. */
  ghost predicate AsBase(st: Store, t: Tree, base: seq<Entry>, q: Path) {
    q in t && exists e :: LeadsTo(base, q, e) && SameAs(st, t[q], e)
  }

  lemma EqualsSame(st: Store, n: Node, e: Entry)
    ensures Equals(st, n, MutationOf(e)) <==> SameAs(st, n, e)
  {
    hide Spells, Content;
    if n.File? && e.body.FileBody? { SpellsContent(st, e.body.chunks, n.bytes); }
  }

  lemma MatchesAsBase(st: Store, t: Tree, base: seq<Entry>, q: Path)
    requires ValidEntries(base) && q in t && Lookup(base, q).Some?
    requires Matches(st, t[q], MutationOf(Lookup(base, q).value))
    ensures AsBase(st, t, base, q)
  {
    hide *;
    var e := Lookup(base, q).value;
    LookupSized(base, q);
    MatchesBytes(st, t[q], MutationOf(e));
    EqualsSame(st, t[q], e);
    LookupLeads(base, q, e);
    IsAsBase(st, t, base, q, e);
  }

  lemma IsAsBase(st: Store, t: Tree, base: seq<Entry>, q: Path, e: Entry)
    requires q in t && LeadsTo(base, q, e) && SameAs(st, t[q], e)
    ensures AsBase(st, t, base, q)
  {
  }

  lemma {:induction false} LookupSized(es: seq<Entry>, p: Path)
    requires ValidEntries(es) && Lookup(es, p).Some?
    ensures WellSized(MutationOf(Lookup(es, p).value))
    decreases |p|
  {
    FindIn(es, p[0]);
    if |p| > 1 { LookupSized(Find(es, p[0]).value.body.children, p[1..]); }
  }

  lemma {:induction false} FindFirst(es: seq<Entry>, i: nat)
    requires ValidEntries(es) && i < |es|
    ensures Find(es, es[i].name) == Some(es[i])
    decreases |es|
  {
    if i > 0 {
      assert ValidEntries(es[1..]);
      FindFirst(es[1..], i - 1);
    }
  }

  /** Looking up further below a directory goes on from its children. */
  lemma {:induction false} LookupBelow(es: seq<Entry>, p: Path, rest: Path)
    requires Lookup(es, p).Some? && Lookup(es, p).value.body.DirBody? && rest != []
    ensures Lookup(es, p + rest) == Lookup(Lookup(es, p).value.body.children, rest)
    decreases |p|
  {
    var e := Find(es, p[0]).value;
    assert (p + rest)[0] == p[0] && (p + rest)[1..] == p[1..] + rest;
    if |p| > 1 { LookupBelow(e.body.children, p[1..], rest); }
  }

  lemma {:induction false} LookupValid(es: seq<Entry>, p: Path)
    requires ValidEntries(es) && Lookup(es, p).Some? && Lookup(es, p).value.body.DirBody?
    ensures ValidEntries(Lookup(es, p).value.body.children)
    decreases |p|
  {
    FindIn(es, p[0]);
    if |p| > 1 { LookupValid(Find(es, p[0]).value.body.children, p[1..]); }
  }

  lemma SubtreeAsBase(st: Store, t: Tree, base: seq<Entry>, p: Path, e: Entry, q: Path)
    requires ValidEntries(base) && Lookup(base, p) == Some(e) && SubtreeMatches(st, t, Below(p, e), p)
    requires q in t && p < q && !t[q].Dir?
    ensures AsBase(st, t, base, q)
  {
    hide ValidEntries, Lookup, Matches, MutationOf, AsBase;
    assert Listed(st, t, Below(p, e), q);
    BelowLookup(base, p, e, q);
    MatchesAsBase(st, t, base, q);
  }

  // ---- a live tree that is the base -----------------------------------------------------------

  /** The live tree is the base, times aside. */
  ghost predicate LiveIsBase(st: Store, t: Tree, base: seq<Entry>) {
    && (forall p, e :: LeadsTo(base, p, e) ==> p in t && SameAs(st, t[p], e))
    && (forall q :: q in t && q != [] ==> HasEntry(base, q))
  }

  lemma BaseMatches(st: Store, t: Tree, base: seq<Entry>, p: Path)
    requires ValidEntries(base) && LiveIsBase(st, t, base) && Lookup(base, p).Some?
    ensures p in t && Matches(st, t[p], MutationOf(Lookup(base, p).value))
    ensures t[p].Dir? <==> Lookup(base, p).value.body.DirBody?
    ensures SameKind(t[p], MutationOf(Lookup(base, p).value))
  {
    hide ValidEntries, LeadsTo, Lookup, HasEntry, Spells, Compare;
    var e := Lookup(base, p).value;
    LookupLeads(base, p, e);
    LookupSized(base, p);
    EqualsSame(st, t[p], e);
    MatchesBytes(st, t[p], MutationOf(e));
  }

  /** What the base has below a directory, by the path from the top. */
  lemma BelowLookup(base: seq<Entry>, p: Path, e: Entry, q: Path)
    requires ValidEntries(base) && Lookup(base, p) == Some(e) && e.body.DirBody? && p < q
    ensures q in Below(p, e) <==> Lookup(base, q).Some?
    ensures q in Below(p, e) ==> Below(p, e)[q] == MutationOf(Lookup(base, q).value)
  {
    hide ValidEntries, Lookup, LeadsTo, Flatten, ByPath, MutationOf;
    var us, rest, cs := Flatten(p, e.body.children), q[|p|..], e.body.children;
    ByPathSpec(us);
    LookupValid(base, p);
    assert q == p + rest;
    LookupBelow(base, p, rest);
    if q in Below(p, e) {
      var x := FlattenLeads(p, cs, Upsert(q, ByPath(us)[q]));
      LookupLeads(cs, rest, x);
    }
    if Lookup(base, q).Some? {
      var x := Lookup(base, q).value;
      LookupLeads(cs, rest, x);
      LeadsFlatten(p, cs, rest, x);
      var i :| 0 <= i < |us| && us[i] == Upsert(q, MutationOf(x));
    }
  }

  lemma BaseSubtree(st: Store, t: Tree, base: seq<Entry>, p: Path, e: Entry)
    requires ValidEntries(base) && LiveIsBase(st, t, base) && Lookup(base, p) == Some(e) && e.body.DirBody?
    ensures SubtreeMatches(st, t, Below(p, e), p)
  {
    hide ValidEntries, Lookup, HasEntry, Below, MutationOf, Matches, SameKind;
    forall q | q in t && p < q ensures Listed(st, t, Below(p, e), q) {
      LookupEntry(base, q);
      BelowLookup(base, p, e, q);
      BaseMatches(st, t, base, q);
    }
    BelowIsBelow(p, e);
    forall q | q in Below(p, e) ensures q in t && p < q {
      BelowLookup(base, p, e, q);
      BaseMatches(st, t, base, q);
    }
  }

  /** Where the live tree is the base, the guard objects to no removal of what the base has and to
      no upsert. */
  lemma GuardAccepts(st: Store, t: Tree, base: seq<Entry>, rms: seq<Remove>, plan: seq<Upsert>)
    requires ValidEntries(base) && LiveIsBase(st, t, base)
    requires forall i :: 0 <= i < |rms| ==> HasEntry(base, rms[i].path)
    requires forall i :: 0 <= i < |plan| ==> plan[i].path != []
    ensures GuardPasses(st, t, base, rms, plan)
  {
    hide ValidEntries, Lookup, HasEntry, Below, MutationOf, Matches, SameKind, LeadsTo, SameAs, SubtreeMatches;
    forall i | 0 <= i < |rms| ensures RemovalMatches(st, t, base, rms[i]) {
      var p := rms[i].path;
      LookupEntry(base, p);
      BaseMatches(st, t, base, p);
      if t[p].Dir? { BaseSubtree(st, t, base, p, Lookup(base, p).value); }
    }
    forall i | 0 <= i < |plan| && !plan[i].mutation.Skip? ensures UpsertMatches(st, t, base, plan[i].path) {
      var p := plan[i].path;
      LookupEntry(base, p);
      if Lookup(base, p).Some? { BaseMatches(st, t, base, p); }
    }
  }

  // ---- what a divergence says -------------------------------------------------------------------

  /** What a divergence says is so of the live tree and the base. */
  ghost predicate Truthful(st: Store, t: Tree, base: seq<Entry>, x: Divergence) {
    match x.reason
    case NotInBase => !HasEntry(base, x.path)
    case ExpectedPresent => HasEntry(base, x.path) && x.path !in t
    case ExpectedAbsent => !HasEntry(base, x.path) && x.path in t
    case _ => x.path in t && exists e :: LeadsTo(base, x.path, e) && Contradicts(st, t[x.path], e, x.reason)
  }

  ghost predicate Contradicts(st: Store, n: Node, e: Entry, r: Reason) {
    match (e.body, n)
    case (FileBody(size, chunks), File(bytes, exec, _)) =>
      || (r.SizeMismatch? && |bytes| != size) || (r.ExecMismatch? && exec != e.exec)
      || (r.ContentMismatch? && !Spells(st, chunks, bytes))
    case (LinkBody(target), Link(live, _)) => r.TargetMismatch? && live != target
    case (DirBody(_), Dir(_)) => false
    case (_, _) => r.KindMismatch?
  }

  lemma DiffersContradicts(st: Store, n: Node, e: Entry, r: Reason)
    requires Differs(st, n, MutationOf(e), r) && !r.NotInBase? && !r.ExpectedPresent? && !r.ExpectedAbsent?
    ensures Contradicts(st, n, e, r)
  {
    hide Compare, Content, Spells;
    if n.File? && e.body.FileBody? {
      CompareSound(st, n.bytes, e.body.chunks);
      SpellsContent(st, e.body.chunks, n.bytes);
    }
  }

  lemma SoIsTruthful(st: Store, t: Tree, base: seq<Entry>, x: Divergence)
    requires ValidEntries(base) && IsSo(st, t, Expected(base, x.path), x)
    ensures Truthful(st, t, base, x)
  {
    hide ValidEntries, Lookup, HasEntry, LeadsTo, Differs, Contradicts, MutationOf;
    LookupEntry(base, x.path);
    if Lookup(base, x.path).Some? {
      var e := Lookup(base, x.path).value;
      LookupLeads(base, x.path, e);
      if !x.reason.NotInBase? && !x.reason.ExpectedPresent? && !x.reason.ExpectedAbsent? {
        DiffersContradicts(st, t[x.path], e, x.reason);
      }
    }
  }
}
