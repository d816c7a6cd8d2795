/** Names that differ only by case. The fold key and the normal form are function parameters. */
module CaseFold {
  import opened Blobs
  import opened Paths

  datatype Folding = Folding(key: Name -> Name, nfc: Name -> Name)

  datatype CaseConflict = CaseConflict(key: Name, first: Name, second: Name)

  predicate Clash(f: Folding, a: Name, b: Name) { f.key(a) == f.key(b) && f.nfc(a) != f.nfc(b) }

  class CaseFoldIndex {
    const f: Folding
    var canonical: map<Name, Name>
    ghost var seen: seq<Name>

    constructor (f: Folding)
      ensures this.f == f && Valid() && seen == []
    {
      this.f, canonical, seen := f, map[], [];
    }

    /** For every key, the earliest spelling with it; all that was let in agrees with that. */
    ghost predicate Valid()
      reads this
    {
      && (forall i :: 0 <= i < |seen| ==> f.key(seen[i]) in canonical && canonical[f.key(seen[i])] == f.nfc(seen[i]))
      && (forall k :: k in canonical ==> exists i :: Earliest(f, seen, k, i))
    }

    method Insert(name: Name) returns (c: Option<CaseConflict>)
      requires Valid()
      modifies this
      ensures Valid() && seen == if c.None? then old(seen) + [name] else old(seen)
      ensures c.None? <==> forall i :: 0 <= i < |old(seen)| ==> !Clash(f, old(seen)[i], name)
      ensures c.Some? ==> Reports(f, old(seen), name, c.value)
    {
      var key, canon := f.key(name), f.nfc(name);
      if key in canonical && canonical[key] != canon {
        ghost var i :| Earliest(f, seen, key, i);
        assert canonical[f.key(seen[i])] == f.nfc(seen[i]);
        return Some(CaseConflict(key, canonical[key], canon));
      }
      ghost var before := seen;
      ghost var was := canonical;
      if key !in canonical { canonical := canonical[key := canon]; }
      seen := seen + [name];
      forall k | k in canonical ensures exists i :: Earliest(f, seen, k, i) {
        if k in was { var i :| Earliest(f, before, k, i); assert Earliest(f, seen, k, i); }
        else { assert Earliest(f, seen, k, |before|); }
      }
      return None;
    }
  }

  /** The first name with this key. */
  predicate Earliest(f: Folding, names: seq<Name>, k: Name, i: int) {
    0 <= i < |names| && f.key(names[i]) == k && forall j :: 0 <= j < i ==> f.key(names[j]) != k
  }

  /** The conflict of a name with the earliest spelling of its key. */
  ghost predicate Reports(f: Folding, names: seq<Name>, name: Name, c: CaseConflict) {
    exists i ::
      && Earliest(f, names, f.key(name), i)
      && Clash(f, names[i], name)
      && c == CaseConflict(f.key(name), f.nfc(names[i]), f.nfc(name))
  }

  /** A name clashes with one before it. */
  ghost predicate Offends(f: Folding, names: seq<Name>, j: int) {
    0 <= j < |names| && exists i :: 0 <= i < j && Clash(f, names[i], names[j])
  }

  ghost predicate ClashFree(f: Folding, names: seq<Name>) {
    forall a, b :: a in names && b in names ==> !Clash(f, a, b)
  }

  /** The conflict at the least offending position, with the earliest spelling of its key. */
  ghost predicate FirstConflict(f: Folding, names: seq<Name>, c: CaseConflict) {
    exists j ::
      Offends(f, names, j) && (forall k :: k < j ==> !Offends(f, names, k)) && Reports(f, names[..j], names[j], c)
  }

  lemma NoOffence(f: Folding, names: seq<Name>)
    ensures ClashFree(f, names) <==> forall j :: !Offends(f, names, j)
  {
    if ClashFree(f, names) {
      forall j ensures !Offends(f, names, j) {
        forall i | 0 <= i < j < |names|
          ensures !Clash(f, names[i], names[j])
        {
          assert names[i] in names && names[j] in names;
        }
      }
    } else {
      var a, b :| a in names && b in names && Clash(f, a, b);
      var i :| 0 <= i < |names| && names[i] == a;
      var j :| 0 <= j < |names| && names[j] == b;
      if i < j { assert Offends(f, names, j); } else { assert Clash(f, names[j], names[i]) && Offends(f, names, i); }
    }
  }

  /** find_case_conflict */
  method FindCaseConflict(f: Folding, names: seq<Name>) returns (c: Option<CaseConflict>)
    ensures c.None? <==> ClashFree(f, names)
    ensures c.Some? ==> FirstConflict(f, names, c.value)
  {
    hide Clash, ClashFree, Reports, Offends, CaseFoldIndex.Valid;
    NoOffence(f, names);
    forall j ensures Offends(f, names, j) ==> 0 <= j < |names| { OffendsOnly(f, names, j); }
    var idx := new CaseFoldIndex(f);
    var n := 0;
    while n < |names|
      invariant 0 <= n <= |names| && idx.f == f && idx.Valid() && idx.seen == names[..n] && fresh(idx)
      invariant forall j :: j < n ==> !Offends(f, names, j)
    {
      c := idx.Insert(names[n]);
      OffendsAt(f, names, n);
      if c.Some? { return; }
      n := n + 1;
    }
    return None;
  }

  lemma OffendsAt(f: Folding, names: seq<Name>, n: nat)
    requires n < |names|
    ensures Offends(f, names, n) <==> exists i :: 0 <= i < |names[..n]| && Clash(f, names[..n][i], names[n])
  {
    hide Clash;
    if Offends(f, names, n) { var i :| 0 <= i < n && Clash(f, names[i], names[n]); assert names[..n][i] == names[i]; }
  }

  lemma OffendsOnly(f: Folding, names: seq<Name>, j: int)
    ensures Offends(f, names, j) ==> 0 <= j < |names|
  {
  }

  // ---- whole paths -------------------------------------------------------------------------------

  /** Two entries of one directory clash. */
  ghost predicate SiblingsClash(f: Folding, paths: seq<Path>) {
    exists p, q ::
      p in paths && q in paths && p != [] && q != [] && Parent(p) == Parent(q) && Clash(f, Last(p), Last(q))
  }

  /** The root itself, listed, goes by the empty name among the entries of the root. */
  ghost predicate RootClash(f: Folding, paths: seq<Path>) {
    [] in paths && exists n :: [n] in paths && Clash(f, "", n)
  }

  function DirOf(p: Path): Path { if p == [] then [] else Parent(p) }
  function NameIn(p: Path): Name { if p == [] then "" else Last(p) }

  ghost predicate ListedIn(paths: seq<Path>, d: Path, n: Name) {
    d + [n] in paths || (d == [] && n == "" && [] in paths)
  }

  /** The names listed in each directory. */
  ghost predicate Grouped(paths: seq<Path>, groups: map<Path, seq<Name>>, order: seq<Path>) {
    && (forall d :: d in groups <==> d in order)
    && (forall d :: d in groups ==> forall n :: n in groups[d] <==> ListedIn(paths, d, n))
    && (forall p :: p in paths ==> DirOf(p) in groups)
  }

  method GroupByParent(paths: seq<Path>) returns (groups: map<Path, seq<Name>>, order: seq<Path>)
    ensures Grouped(paths, groups, order)
  {
    hide Grouped;
    groups, order := map[], [];
    var i := 0;
    NoneGrouped();
    while i < |paths|
      invariant 0 <= i <= |paths| && Grouped(paths[..i], groups, order)
    {
      var p := paths[i];
      var d, n := DirOf(p), NameIn(p);
      assert paths[..i + 1] == paths[..i] + [p];
      GroupNext(paths[..i], groups, order, p);
      if d !in groups { order := order + [d]; }
      groups := groups[d := (if d in groups then groups[d] else []) + [n]];
      i := i + 1;
    }
    assert paths[..i] == paths;
  }

  lemma NoneGrouped()
    ensures Grouped([], map[], [])
  {
  }

  /** ensure_no_fold_collisions on a host that folds case: one check per directory. */
  method NoFoldCollisions(f: Folding, paths: seq<Path>) returns (ok: bool)
    ensures ok <==> !SiblingsClash(f, paths) && !RootClash(f, paths)
  {
    hide SiblingsClash, RootClash, ClashFree;
    var groups, order := GroupByParent(paths);
    GroupsSuffice(f, paths, groups, order);
    var parents := Sort(order, (d: Path) => d, false);
    SortMembers(order, (d: Path) => d, false);
    var i := 0;
    while i < |parents|
      invariant 0 <= i <= |parents| && forall k :: 0 <= k < i ==>
            parents[k] in groups && ClashFree(f, groups[parents[k]])
    {
      assert parents[i] in order;
      var c := FindCaseConflict(f, groups[parents[i]]);
      if c.Some? { return false; }
      i := i + 1;
    }
    forall d | d in groups
      ensures ClashFree(f, groups[d])
    {
      assert d in parents;
      var k :| 0 <= k < |parents| && parents[k] == d;
    }
    return true;
  }

  lemma GroupsSuffice(f: Folding, paths: seq<Path>, groups: map<Path, seq<Name>>, order: seq<Path>)
    requires Grouped(paths, groups, order)
    ensures SiblingsClash(f, paths) || RootClash(f, paths) <==> exists d :: d in groups && !ClashFree(f, groups[d])
  {
    if SiblingsClash(f, paths) {
      var p, q :| p in paths && q in paths && p != [] && q != [] && Parent(p) == Parent(q)
        && Clash(f, Last(p), Last(q));
      var d := Parent(p);
      assert p == d + [Last(p)] && q == d + [Last(q)] && Last(p) in groups[d] && Last(q) in groups[d];
    }
    if RootClash(f, paths) {
      var n :| [n] in paths && Clash(f, "", n);
      assert [] + [n] == [n] && DirOf([]) in groups && "" in groups[[]] && n in groups[[]];
    }
    if exists d :: d in groups && !ClashFree(f, groups[d]) {
      var d :| d in groups && !ClashFree(f, groups[d]);
      var a, b :| a in groups[d] && b in groups[d] && Clash(f, a, b);
      GroupClash(f, paths, groups, order, d, a, b);
    }
  }

  lemma GroupNext(done: seq<Path>, groups: map<Path, seq<Name>>, order: seq<Path>, p: Path)
    requires Grouped(done, groups, order)
    ensures var d := DirOf(p);
            Grouped(done + [p], groups[d := (if d in groups then groups[d] else []) + [NameIn(p)]],
                    if d in groups then order else order + [d])
  {
    var d, n := DirOf(p), NameIn(p);
    var g := groups[d := (if d in groups then groups[d] else []) + [n]];
    assert p != [] ==> p == d + [n];
    forall e | e in g ensures forall m :: m in g[e] <==> ListedIn(done + [p], e, m) {
      forall m ensures m in g[e] <==> ListedIn(done + [p], e, m) {
        assert DirOf(e + [m]) == e && NameIn(e + [m]) == m && DirOf([]) == [];
        if e !in groups { assert !ListedIn(done, e, m); }
      }
    }
  }

  lemma GroupClash(f: Folding, paths: seq<Path>, groups: map<Path, seq<Name>>, order: seq<Path>, d: Path, a: Name,
                   b: Name)
    requires Grouped(paths, groups, order) && d in groups && a in groups[d] && b in groups[d] && Clash(f, a, b)
    ensures SiblingsClash(f, paths) || RootClash(f, paths)
  {
    var p, q := d + [a], d + [b];
    assert Parent(p) == d && Parent(q) == d && Last(p) == a && Last(q) == b;
    assert ListedIn(paths, d, a) && ListedIn(paths, d, b);
    if p !in paths { assert q == [b] && Clash(f, "", b); }
    else if q !in paths { assert p == [a] && Clash(f, "", a); }
  }

  /** Equal component by component once folded. */
  predicate FoldEqual(f: Folding, p: Path, q: Path) {
    |p| == |q| && forall i :: 0 <= i < |p| ==> f.key(p[i]) == f.key(q[i])
  }

  ghost predicate ParentClosed(paths: seq<Path>) {
    forall p :: p in paths && |p| > 1 ==> Parent(p) in paths
  }

  ghost predicate AllNormal(f: Folding, paths: seq<Path>) {
    forall p, i :: p in paths && 0 <= i < |p| ==> f.nfc(p[i]) == p[i]
  }

  lemma {:induction false} PrefixListed(paths: seq<Path>, p: Path, k: nat)
    requires ParentClosed(paths) && p in paths && 0 < k <= |p|
    ensures p[..k] in paths
    decreases |p| - k
  {
    if k == |p| { assert p[..k] == p; }
    else {
      PrefixListed(paths, p, k + 1);
      assert Parent(p[..k + 1]) == p[..k];
    }
  }

  lemma {:induction false} FirstDifference(p: Path, q: Path, n: nat) returns (k: nat)
    requires |p| == |q| && p != q && n <= |p| && p[..n] == q[..n]
    ensures k < |p| && p[..k] == q[..k] && p[k] != q[k]
    decreases |p| - n
  {
    assert p == p[..|p|] && q == q[..|q|];
    if n < |p| && p[n] == q[n] {
      assert p[..n + 1] == p[..n] + [p[n]] && q[..n + 1] == q[..n] + [q[n]];
      k := FirstDifference(p, q, n + 1);
    } else {
      k := n;
    }
  }

  /** Checking siblings is enough: they clash exactly if two whole paths do. */
  lemma SiblingsSuffice(f: Folding, paths: seq<Path>)
    requires ParentClosed(paths) && AllNormal(f, paths)
    ensures SiblingsClash(f, paths) <==> exists p, q :: p in paths && q in paths && p != q && FoldEqual(f, p, q)
  {
    if SiblingsClash(f, paths) {
      var p, q :| p in paths && q in paths && p != [] && q != [] && Parent(p) == Parent(q)
        && Clash(f, Last(p), Last(q));
      assert |p| == |q| && p != q;
      forall i | 0 <= i < |p|
        ensures f.key(p[i]) == f.key(q[i])
      {
        if i < |p| - 1 { assert p[i] == Parent(p)[i] == Parent(q)[i] == q[i]; }
      }
      assert FoldEqual(f, p, q);
    }
    if exists p, q :: p in paths && q in paths && p != q && FoldEqual(f, p, q) {
      var p, q :| p in paths && q in paths && p != q && FoldEqual(f, p, q);
      var k := FirstDifference(p, q, 0);
      PrefixListed(paths, p, k + 1);
      PrefixListed(paths, q, k + 1);
      var a, b := p[..k + 1], q[..k + 1];
      assert Parent(a) == p[..k] && Parent(b) == q[..k] && Last(a) == p[k] && Last(b) == q[k];
      assert f.key(p[k]) == f.key(q[k]) && f.nfc(p[k]) == p[k] && f.nfc(q[k]) == q[k];
      assert Clash(f, Last(a), Last(b));
    }
  }
}
