/** The cache that matches wanted names with live names of the same Unicode normal form. The
    normal form is a function parameter; the disk is a map from existing directories to the
    names in them. */
module FoldCache {
  import opened Blobs
  import opened Paths

  type World = map<Path, set<Name>>
  type Fold = map<Name, seq<Name>>

  function Entries(w: World, d: Path): set<Name> { if d in w then w[d] else {} }

  ghost predicate IsWorld(w: World) {
    [] in w && forall d :: d in w && d != [] ==> Parent(d) in w && Last(d) in w[Parent(d)]
  }

  /** The live names in a directory with this normal form. */
  function Spellings(nfc: Name -> Name, es: set<Name>, key: Name): set<Name> {
    set n | n in es && nfc(n) == key
  }

  predicate NoRepeats(s: seq<Name>) { forall i, j :: 0 <= i < j < |s| ==> s[i] != s[j] }

  /** Equal, as sets per key, to what a fresh scan would give; no bucket is empty. */
  ghost predicate Coherent(nfc: Name -> Name, es: set<Name>, f: Fold) {
    && (forall n :: n in es ==> nfc(n) in f)
    && (forall k :: k in f ==> f[k] != [] && NoRepeats(f[k]) && forall n :: n in f[k] <==> n in es && nfc(n) == k)
  }

  // ---- scanning and choosing -----------------------------------------------------------------

  function Added(f: Fold, key: Name, n: Name): Fold { f[key := (if key in f then f[key] else []) + [n]] }

  lemma AddCoherent(nfc: Name -> Name, es: set<Name>, f: Fold, n: Name)
    requires Coherent(nfc, es, f) && n !in es
    ensures Coherent(nfc, es + {n}, Added(f, nfc(n), n))
  {
  }

  /** scan_dir_fold */
  method Scan(nfc: Name -> Name, es: set<Name>) returns (f: Fold)
    ensures Coherent(nfc, es, f)
  {
    f := map[];
    var done: set<Name>, todo := {}, es;
    while todo != {}
      invariant done + todo == es && done !! todo && Coherent(nfc, done, f)
      decreases todo
    {
      var n :| n in todo;
      AddCoherent(nfc, done, f, n);
      f := Added(f, nfc(n), n);
      done, todo := done + {n}, todo - {n};
    }
    assert done == es;
  }

  datatype Policy = Refuse | PickSmallest
  datatype Choice = Chosen(name: Option<Name>) | Ambiguous

  predicate Smallest(s: seq<Name>, n: Name) { n in s && forall m :: m in s ==> m == n || StrLess(n, m) }

  method Least(s: seq<Name>) returns (n: Name)
    requires s != []
    ensures Smallest(s, n)
  {
    n := s[0];
    var i := 1;
    assert s[..1] == [s[0]];
    while i < |s|
      invariant 1 <= i <= |s| && Smallest(s[..i], n)
    {
      StrTotal(s[i], n);
      assert s[..i + 1] == s[..i] + [s[i]];
      if StrLess(s[i], n) {
        forall m | m in s[..i + 1] && m != s[i] ensures StrLess(s[i], m) { if m != n { StrTrans(s[i], n, m); } }
        n := s[i];
      }
      i := i + 1;
    }
    assert s[..i] == s;
  }

  /** What choosing among the live spellings of a name must give. */
  ghost predicate Chooses(nfc: Name -> Name, es: set<Name>, key: Name, policy: Policy, c: Choice) {
    var live := Spellings(nfc, es, key);
    match c
    case Ambiguous => policy.Refuse? && exists a, b :: a in live && b in live && a != b
    case Chosen(None) => live == {}
    case Chosen(Some(n)) => n in live && if policy.Refuse? then live == {n} else forall m :: m in live ==>
      m == n || StrLess(n, m)
  }

  /** pick */
  method Pick(nfc: Name -> Name, ghost es: set<Name>, f: Fold, key: Name, policy: Policy) returns (c: Choice)
    requires Coherent(nfc, es, f)
    ensures Chooses(nfc, es, key, policy, c)
  {
    ghost var live := Spellings(nfc, es, key);
    if key !in f { return Chosen(None); }
    var many := f[key];
    assert forall n :: n in many <==> n in live;
    if |many| == 1 {
      assert many == [many[0]];
      return Chosen(Some(many[0]));
    }
    assert many[0] in many && many[1] in many && many[0] != many[1];
    if policy.Refuse? { return Ambiguous; }
    var n := Least(many);
    return Chosen(Some(n));
  }

  // ---- resolving a path ------------------------------------------------------------------------

  /** One component: the name itself if it is there, else the live spelling chosen, else itself. */
  ghost predicate Resolved(nfc: Name -> Name, w: World, dir: Path, want: Name, policy: Policy, got: Option<Name>) {
    if want in Entries(w, dir) then got == Some(want)
    else exists c :: Chooses(nfc, Entries(w, dir), nfc(want), policy, c) && got == Got(c, want)
  }

  function Got(c: Choice, want: Name): Option<Name> {
    match c case Ambiguous => None case Chosen(None) => Some(want) case Chosen(Some(n)) => Some(n)
  }

  lemma PickResolved(nfc: Name -> Name, w: World, dir: Path, want: Name, policy: Policy, c: Choice)
    requires want !in Entries(w, dir) && Chooses(nfc, Entries(w, dir), nfc(want), policy, c)
    ensures Resolved(nfc, w, dir, want, policy, Got(c, want))
  {
  }

  lemma DirectResolved(nfc: Name -> Name, w: World, dir: Path, want: Name, policy: Policy)
    requires want in Entries(w, dir)
    ensures Resolved(nfc, w, dir, want, policy, Some(want))
  {
  }

  /** The path resolves to `out` component by component, or is refused. */
  ghost predicate Resolves(nfc: Name -> Name, w: World, rel: Path, policy: Policy, out: Option<Path>)
    decreases |rel|
  {
    if rel == [] then out == Some([])
    else exists dir ::
      && Resolves(nfc, w, Parent(rel), policy, dir)
      && match dir
         case None => out == None
         case Some(d) => exists got ::
           Resolved(nfc, w, d, Last(rel), policy, got) && out == if got.Some? then Some(d + [got.value]) else None
  }

  type Dirs = map<Path, Fold>

  /** Of the directories this path passes, those that are cached are cached as a fresh scan would be. */
  ghost predicate WayCoherent(nfc: Name -> Name, w: World, dirs: Dirs, rel: Path, policy: Policy) {
    forall k, d :: 0 <= k < |rel| && Resolves(nfc, w, rel[..k], policy, Some(d)) && d in dirs ==>
      Coherent(nfc, Entries(w, d), dirs[d])
  }

  /** Some directories have been scanned. */
  ghost predicate Looks(nfc: Name -> Name, w: World, was: Dirs, now: Dirs) {
    && (forall d :: d in was ==> d in now && now[d] == was[d])
    && (forall d :: d in now && d !in was ==> Coherent(nfc, Entries(w, d), now[d]))
  }

  /** A directory has been looked up: cached before, or scanned now. */
  ghost predicate Looked(nfc: Name -> Name, w: World, dir: Path, was: Dirs, now: Dirs) {
    dir in now && (dir in was ==> now == was)
      && (dir !in was ==> now == was[dir := now[dir]] && Coherent(nfc, Entries(w, dir), now[dir]))
  }

  lemma RootResolves(nfc: Name -> Name, w: World, policy: Policy)
    ensures Resolves(nfc, w, [], policy, Some([]))
  {
  }

  lemma NextResolves(nfc: Name -> Name, w: World, rel: Path, policy: Policy, d: Path, got: Option<Name>)
    requires rel != [] && Resolves(nfc, w, Parent(rel), policy, Some(d)) && Resolved(nfc, w, d, Last(rel), policy, got)
    ensures Resolves(nfc, w, rel, policy, if got.Some? then Some(d + [got.value]) else None)
  {
  }

  lemma {:induction false} RefusalStays(nfc: Name -> Name, w: World, rel: Path, policy: Policy, i: nat)
    requires 0 < i <= |rel| && Resolves(nfc, w, rel[..i], policy, None)
    ensures Resolves(nfc, w, rel, policy, None)
    decreases |rel|
  {
    if i == |rel| { assert rel[..i] == rel; }
    else {
      assert Parent(rel)[..i] == rel[..i];
      RefusalStays(nfc, w, Parent(rel), policy, i);
    }
  }

  // ---- what changes on disk ----------------------------------------------------------------------

  /** An entry is made, or replaces one of the same name. */
  function Create(w: World, p: Path, isDir: bool): World
    requires p != [] && Parent(p) in w
  {
    var w' := w[Parent(p) := w[Parent(p)] + {Last(p)}];
    if isDir && p !in w then w'[p := {}] else w'
  }

  /** An entry is removed, with everything below it. */
  function Erase(w: World, p: Path): World
    requires p != []
  {
    var rest := map d | d in w && !(p <= d) :: w[d];
    if Parent(p) in rest then rest[Parent(p) := rest[Parent(p)] - {Last(p)}] else rest
  }

  function Without(s: seq<Name>, n: Name): (r: seq<Name>)
    ensures forall m :: m in r <==> m in s && m != n
  {
    if s == [] then []
    else
      assert s == [s[0]] + s[1..];
      (if s[0] == n then [] else [s[0]]) + Without(s[1..], n)
  }

  lemma {:induction false} WithoutRepeats(s: seq<Name>, n: Name)
    requires NoRepeats(s)
    ensures NoRepeats(Without(s, n))
  {
    if s != [] {
      var rest := s[1..];
      WithoutRepeats(rest, n);
      assert s[0] !in rest;
      var r := Without(rest, n);
      assert s[0] !in r;
    }
  }

  // ---- what is noted ---------------------------------------------------------------------------

  /** note_created_at. In a directory that is not cached this starts a fold of one entry. */
  function NotedCreated(nfc: Name -> Name, dirs: Dirs, p: Path): Dirs
    requires p != []
  {
    var f: Fold := if Parent(p) in dirs then dirs[Parent(p)] else map[];
    var bucket := if nfc(Last(p)) in f then f[nfc(Last(p))] else [];
    dirs[Parent(p) := f[nfc(Last(p)) := if Last(p) in bucket then bucket else bucket + [Last(p)]]]
  }

  /** note_removed */
  function NotedRemoved(nfc: Name -> Name, dirs: Dirs, p: Path, deep: bool): Dirs
    requires p != []
  {
    var left := if deep then map q | q in dirs && !(p <= q) :: dirs[q] else dirs;
    if Parent(p) in left && nfc(Last(p)) in left[Parent(p)]
      then left[Parent(p) := Dropped(left[Parent(p)], nfc(Last(p)), Last(p))] else left
  }

  function Dropped(f: Fold, key: Name, n: Name): Fold
    requires key in f
  {
    var bucket := Without(f[key], n);
    if bucket == [] then f - {key} else f[key := bucket]
  }

  class NfcFoldCache {
    var dirs: Dirs
    const nfc: Name -> Name
    const policy: Policy

    constructor (nfc: Name -> Name, policy: Policy)
      ensures dirs == map[] && this.nfc == nfc && this.policy == policy
    {
      this.nfc, this.policy := nfc, policy;
      dirs := map[];
    }

    method Clear()
      modifies this
      ensures dirs == map[]
    {
      dirs := map[];
    }

    method MatchLive(w: World, dir: Path, want: Name) returns (c: Choice)
      requires dir in dirs ==> Coherent(nfc, Entries(w, dir), dirs[dir])
      modifies this
      ensures Looked(nfc, w, dir, old(dirs), dirs)
      ensures Chooses(nfc, Entries(w, dir), nfc(want), policy, c)
    {
      if dir !in dirs {
        var f := Scan(nfc, Entries(w, dir));
        dirs := dirs[dir := f];
      }
      c := Pick(nfc, Entries(w, dir), dirs[dir], nfc(want), policy);
    }

    /** resolve: if the cached directories on the path's way are coherent, it resolves as with fresh
        scans; what was cached stays, and what is added is coherent. */
    method Resolve(w: World, rel: Path) returns (out: Option<Path>)
      requires WayCoherent(nfc, w, dirs, rel, policy)
      modifies this
      ensures Resolves(nfc, w, rel, policy, out)
      ensures Looks(nfc, w, old(dirs), dirs)
    {
      hide Resolves, Resolved, Coherent, Chooses;
      var cur: Path, i := [], 0;
      assert Resolves(nfc, w, rel[..0], policy, Some([])) by { RootResolves(nfc, w, policy); }
      while i < |rel|
        invariant 0 <= i <= |rel| && Looks(nfc, w, old(dirs), dirs)
        invariant Resolves(nfc, w, rel[..i], policy, Some(cur))
      {
        var want := rel[i];
        var here := cur;
        assert here in old(dirs) ==> Coherent(nfc, Entries(w, here), old(dirs)[here]);
        assert Parent(rel[..i + 1]) == rel[..i] && Last(rel[..i + 1]) == want;
        var got: Option<Name> := Some(want);
        if want !in Entries(w, here) {
          var c := MatchLive(w, here, want);
          got := Got(c, want);
          PickResolved(nfc, w, here, want, policy, c);
        } else {
          DirectResolved(nfc, w, here, want, policy);
        }
        NextResolves(nfc, w, rel[..i + 1], policy, here, got);
        if got.None? {
          RefusalStays(nfc, w, rel, policy, i + 1);
          return None;
        }
        cur := here + [got.value];
        i := i + 1;
      }
      assert rel[..i] == rel;
      out := Some(cur);
    }

    method NoteCreated(p: Path)
      requires p != []
      modifies this
      ensures dirs == NotedCreated(nfc, old(dirs), p)
    {
      var d, n := Parent(p), Last(p);
      var f: Fold := if d in dirs then dirs[d] else map[];
      var bucket := if nfc(n) in f then f[nfc(n)] else [];
      if n !in bucket { bucket := bucket + [n]; }
      dirs := dirs[d := f[nfc(n) := bucket]];
    }

    method NoteRemoved(p: Path, deep: bool)
      requires p != []
      modifies this
      ensures dirs == NotedRemoved(nfc, old(dirs), p, deep)
    {
      var d, n := Parent(p), Last(p);
      if deep { dirs := map q | q in dirs && !(p <= q) :: dirs[q]; }
      if d in dirs && nfc(n) in dirs[d] {
        var bucket := Without(dirs[d][nfc(n)], n);
        dirs := dirs[d := if bucket == [] then dirs[d] - {nfc(n)} else dirs[d][nfc(n) := bucket]];
      }
    }
  }

  // ---- runs --------------------------------------------------------------------------------------

  /** A run's view: the disk, the cache, and the directories that were scanned, or created by
      this run and still there. */
  datatype View = View(w: World, dirs: Dirs, known: set<Path>)

  datatype Op =
    | Look(dir: Path, fold: Fold)
    | Make(path: Path, isDir: bool)
    | Drop(path: Path, deep: bool)

  /** Each change on disk comes with its note; a scan gives a coherent fold. */
  ghost predicate Allowed(nfc: Name -> Name, v: View, op: Op) {
    match op
    case Look(dir, fold) => dir !in v.dirs ==> Coherent(nfc, Entries(v.w, dir), fold)
    case Make(p, isDir) => p != [] && Parent(p) in v.w && (isDir || p !in v.w)
    case Drop(p, deep) => p != [] && (p in v.w ==> deep)
  }

  ghost function Step(nfc: Name -> Name, v: View, op: Op): View
    requires Allowed(nfc, v, op)
  {
    match op
    case Look(dir, fold) => if dir in v.dirs then v else v.(dirs := v.dirs[dir := fold], known := v.known + {dir})
    case Make(p, isDir) =>
      View(Create(v.w, p, isDir), NotedCreated(nfc, v.dirs, p), v.known + if isDir && p !in v.w then {p} else {})
    case Drop(p, deep) => View(Erase(v.w, p), NotedRemoved(nfc, v.dirs, p, deep), set d | d in v.known && !(p <= d))
  }

  /** The fold of every known directory is what a fresh scan would give; if it is not cached, the
      directory is empty. */
  ghost predicate Faithful(nfc: Name -> Name, v: View) {
    && IsWorld(v.w)
    && (forall d :: d in v.known && d in v.dirs ==> Coherent(nfc, Entries(v.w, d), v.dirs[d]))
    && (forall d :: d in v.known && d !in v.dirs ==> Entries(v.w, d) == {})
    && (forall d :: d in v.dirs && d !in v.w ==> Coherent(nfc, {}, v.dirs[d]))
  }

  lemma {:induction false} AboveExists(w: World, p: Path, q: Path)
    requires IsWorld(w) && q in w && p <= q
    ensures p in w
    decreases |q|
  {
    if |p| == |q| { PrefixCases(p, q); } else { assert p <= Parent(q); AboveExists(w, p, Parent(q)); }
  }

  lemma GrownCoherent(nfc: Name -> Name, es: set<Name>, f: Fold, n: Name)
    requires Coherent(nfc, es, f)
    ensures var bucket := if nfc(n) in f then f[nfc(n)] else [];
            Coherent(nfc, es + {n}, f[nfc(n) := if n in bucket then bucket else bucket + [n]])
  {
  }

  lemma ShrunkCoherent(nfc: Name -> Name, es: set<Name>, f: Fold, n: Name)
    requires Coherent(nfc, es, f)
    ensures Coherent(nfc, es - {n}, if nfc(n) in f then Dropped(f, nfc(n), n) else f)
  {
    if nfc(n) in f {
      var bucket := Without(f[nfc(n)], n);
      WithoutRepeats(f[nfc(n)], n);
      forall m | m in es - {n} ensures nfc(m) in Dropped(f, nfc(n), n) { KeptKey(nfc, es, f, n, m); }
    }
  }

  lemma KeptKey(nfc: Name -> Name, es: set<Name>, f: Fold, n: Name, m: Name)
    requires Coherent(nfc, es, f) && nfc(n) in f && m in es && m != n
    ensures nfc(m) in Dropped(f, nfc(n), n)
  {
    if nfc(m) == nfc(n) { assert m in Without(f[nfc(n)], n); }
  }

  lemma MakeWorld(w: World, p: Path, isDir: bool)
    requires IsWorld(w) && p != [] && Parent(p) in w && (isDir || p !in w)
    ensures var w' := Create(w, p, isDir);
            && IsWorld(w') && Entries(w', Parent(p)) == Entries(w, Parent(p)) + {Last(p)}
            && (forall q :: q != Parent(p) ==> Entries(w', q) == Entries(w, q))
            && forall q :: q in w' <==> q in w || (isDir && q == p)
  {
    var w' := Create(w, p, isDir);
    assert p != Parent(p);
    forall q | q in w' && q != [] ensures Parent(q) in w' && Last(q) in w'[Parent(q)] {
      if q != p { assert q in w; assert Parent(q) in w && Last(q) in w[Parent(q)]; }
    }
  }

  lemma MakeFaithful(nfc: Name -> Name, v: View, p: Path, isDir: bool)
    requires Faithful(nfc, v) && Allowed(nfc, v, Make(p, isDir))
    ensures Faithful(nfc, Step(nfc, v, Make(p, isDir)))
  {
    hide Coherent, IsWorld, Create, Entries;
    var d, n := Parent(p), Last(p);
    var w', v' := Create(v.w, p, isDir), Step(nfc, v, Make(p, isDir));
    MakeWorld(v.w, p, isDir);
    EmptyCoherent(nfc);
    NewDirEmpty(v.w, p);
    if d in v.known {
      GrownCoherent(nfc, Entries(v.w, d), if d in v.dirs then v.dirs[d] else map[], n);
    }
    assert p != d;
    if isDir && p !in v.w && p in v.dirs { assert Coherent(nfc, {}, v.dirs[p]); }
  }

  lemma NewDirEmpty(w: World, p: Path)
    ensures p !in w ==> Entries(w, p) == {}
  {
  }

  lemma EmptyCoherent(nfc: Name -> Name)
    ensures Coherent(nfc, {}, map[])
  {
  }

  lemma DropIsWorld(w: World, p: Path)
    requires IsWorld(w) && p != []
    ensures IsWorld(Erase(w, p))
  {
    hide Erase;
    var w' := Erase(w, p);
    assert !(p <= []);
    ErasedAt(w, p, []);
    forall q | q in w' && q != [] ensures Parent(q) in w' && Last(q) in w'[Parent(q)] {
      ErasedAt(w, p, q);
      StillAbove(p, q);
      ErasedAt(w, p, Parent(q));
      if Parent(q) == Parent(p) && Last(q) == Last(p) { SamePath(p, q); }
    }
  }

  lemma ErasedAt(w: World, p: Path, q: Path)
    requires p != []
    ensures q in Erase(w, p) <==> q in w && !(p <= q)
    ensures q in Erase(w, p) ==> Erase(w, p)[q] == if q == Parent(p) then w[q] - {Last(p)} else w[q]
  {
  }

  lemma SamePath(p: Path, q: Path)
    requires p != [] && q != [] && Parent(p) == Parent(q) && Last(p) == Last(q)
    ensures p == q && p <= q
  {
    assert p == Parent(p) + [Last(p)] && q == Parent(q) + [Last(q)];
  }

  lemma StillAbove(p: Path, q: Path)
    requires q != [] && !(p <= q)
    ensures !(p <= Parent(q))
  {
    assert Parent(q) <= q;
  }

  lemma DropWorld(w: World, p: Path)
    requires p != []
    ensures var w' := Erase(w, p);
            && Entries(w', Parent(p)) == Entries(w, Parent(p)) - {Last(p)}
            && (forall q :: q != Parent(p) && !(p <= q) ==> Entries(w', q) == Entries(w, q))
            && forall q :: q !in w' ==> q !in w || p <= q
  {
    assert !(p <= Parent(p));
  }

  lemma DropFaithful(nfc: Name -> Name, v: View, p: Path, deep: bool)
    requires Faithful(nfc, v) && Allowed(nfc, v, Drop(p, deep))
    ensures Faithful(nfc, Step(nfc, v, Drop(p, deep)))
  {
    hide Coherent, Dropped, IsWorld, Erase, Entries;
    var d, n := Parent(p), Last(p);
    var v' := Step(nfc, v, Drop(p, deep));
    DropWorld(v.w, p);
    DropIsWorld(v.w, p);
    assert !(p <= d);
    forall q | q in v.w && p <= q ensures deep { AboveExists(v.w, p, q); }
    if d in v.dirs && Coherent(nfc, Entries(v.w, d), v.dirs[d]) { ShrunkCoherent(nfc, Entries(v.w, d), v.dirs[d], n); }
    forall q | q in v'.dirs && q !in v'.w ensures Coherent(nfc, {}, v'.dirs[q]) {
      NewDirEmpty(v.w, q);
      assert q in v.w && p <= q ==> deep;
      if q == d { assert Entries(v.w, d) - {n} == {}; }
    }
  }

  ghost predicate Runs(nfc: Name -> Name, vs: seq<View>, ops: seq<Op>) {
    |vs| == |ops| + 1 && forall i :: 0 <= i < |ops| ==>
      Allowed(nfc, vs[i], ops[i]) && vs[i + 1] == Step(nfc, vs[i], ops[i])
  }

  /** Under every interleaving of scans, creations and removals, starting with an empty cache. */
  lemma {:induction false} EveryRunFaithful(nfc: Name -> Name, vs: seq<View>, ops: seq<Op>, i: nat)
    requires Runs(nfc, vs, ops) && IsWorld(vs[0].w) && vs[0].dirs == map[] && vs[0].known == {} && i < |vs|
    ensures Faithful(nfc, vs[i])
  {
    if i > 0 {
      EveryRunFaithful(nfc, vs, ops, i - 1);
      var v := vs[i - 1];
      assert vs[i - 1 + 1] == Step(nfc, v, ops[i - 1]);
      match ops[i - 1] {
        case Look(dir, fold) =>
        case Make(p, isDir) => MakeFaithful(nfc, v, p, isDir);
        case Drop(p, deep) => DropFaithful(nfc, v, p, deep);
      }
    }
  }

  /** After every run: a path whose directories were all scanned, or created by the run, or are not
      cached, can be resolved through the cache. */
  lemma RunResolves(nfc: Name -> Name, vs: seq<View>, ops: seq<Op>, i: nat, rel: Path, policy: Policy)
    requires Runs(nfc, vs, ops) && IsWorld(vs[0].w) && vs[0].dirs == map[] && vs[0].known == {} && i < |vs|
    requires WayKnown(nfc, vs[i], rel, policy)
    ensures WayCoherent(nfc, vs[i].w, vs[i].dirs, rel, policy)
  {
    EveryRunFaithful(nfc, vs, ops, i);
  }

  /** Every cached directory this path passes was scanned, or created by the run. */
  ghost predicate WayKnown(nfc: Name -> Name, v: View, rel: Path, policy: Policy) {
    forall k, d :: 0 <= k < |rel| && Resolves(nfc, v.w, rel[..k], policy, Some(d)) && d in v.dirs ==> d in v.known
  }

  /** What resolving under the refusing policy gives: each component is there as wanted, or is the
      only live spelling of it, or stands for nothing live. */
  ghost predicate Unambiguous(nfc: Name -> Name, w: World, rel: Path, out: Path) {
    |out| == |rel| && forall k :: 0 <= k < |rel| ==> OnlyChoice(nfc, Entries(w, out[..k]), rel[k], out[k])
  }

  ghost predicate OnlyChoice(nfc: Name -> Name, es: set<Name>, want: Name, got: Name) {
    || (want in es && got == want)
    || Spellings(nfc, es, nfc(want)) == {got}
    || (Spellings(nfc, es, nfc(want)) == {} && got == want)
  }

  lemma {:induction false} NeverBetweenTwo(nfc: Name -> Name, w: World, rel: Path, out: Path)
    requires Resolves(nfc, w, rel, Refuse, Some(out))
    ensures Unambiguous(nfc, w, rel, out)
    decreases |rel|
  {
    hide Resolves, OnlyChoice;
    if rel == [] {
      ResolvesEmpty(nfc, w, out);
    } else {
      var d, got := LastChoice(nfc, w, rel, out);
      NeverBetweenTwo(nfc, w, Parent(rel), d);
      forall k | 0 <= k < |rel| ensures OnlyChoice(nfc, Entries(w, out[..k]), rel[k], out[k]) {
        if k < |d| {
          assert out[..k] == d[..k] && rel[k] == Parent(rel)[k] && out[k] == d[k];
        } else { assert out[..k] == d; }
      }
    }
  }

  lemma ResolvesEmpty(nfc: Name -> Name, w: World, out: Path)
    requires Resolves(nfc, w, [], Refuse, Some(out))
    ensures out == []
  {
  }

  lemma LastChoice(nfc: Name -> Name, w: World, rel: Path, out: Path) returns (d: Path, got: Name)
    requires rel != [] && Resolves(nfc, w, rel, Refuse, Some(out))
    ensures Resolves(nfc, w, Parent(rel), Refuse, Some(d)) && out == d + [got]
    ensures OnlyChoice(nfc, Entries(w, d), Last(rel), got)
  {
    var dir :| Resolves(nfc, w, Parent(rel), Refuse, dir)
            && match dir
               case None => Some(out) == None
               case Some(d) => exists got ::
                 && Resolved(nfc, w, d, Last(rel), Refuse, got)
                 && Some(out) == if got.Some? then Some(d + [got.value]) else None;
    d := dir.value;
    var choice :| Resolved(nfc, w, d, Last(rel), Refuse, choice)
      && Some(out) == if choice.Some? then Some(d + [choice.value]) else None;
    got := choice.value;
  }

  // ---- where coherence is lost ---------------------------------------------------------------------

  /** After a creation is noted, the directory's fold is coherent exactly if it was cached before,
      or nothing else is in the directory. */
  lemma NoteExact(nfc: Name -> Name, w: World, dirs: Dirs, p: Path)
    requires p != [] && Parent(p) in w && (Parent(p) in dirs ==> Coherent(nfc, w[Parent(p)], dirs[Parent(p)]))
    ensures Coherent(nfc, w[Parent(p)] + {Last(p)}, NotedCreated(nfc, dirs, p)[Parent(p)])
            <==> Parent(p) in dirs || w[Parent(p)] <= {Last(p)}
  {
    var d, n := Parent(p), Last(p);
    if d in dirs { GrownCoherent(nfc, w[d], dirs[d], n); }
    else {
      EmptyCoherent(nfc);
      var f := NotedCreated(nfc, dirs, p)[d];
      var none: Fold := map[];
      assert [] + [n] == [n];
      assert f == none[nfc(n) := [n]];
      GrownCoherent(nfc, {}, none, n);
      if w[d] <= {n} { assert w[d] + {n} == {} + {n}; }
      else { var m :| m in w[d] && m != n; assert nfc(m) in f ==> m !in f[nfc(m)]; }
    }
  }

  /** A run on a directory with files `a` and `x`, of different normal forms: `a` is rewritten in
      place, so the directory is never scanned and its fold misses `x`. Asked for another spelling
      `y` of `x`, the cache finds nothing, where a scan finds `x`. */
  lemma RewriteHidesSpelling(nfc: Name -> Name, a: Name, x: Name, y: Name)
    requires nfc(y) == nfc(x) && nfc(a) != nfc(x)
    ensures var w: World := map[[] := {a, x}];
            var v := Step(nfc, View(w, map[], {}), Make([a], false));
            && v.w == w && [] in v.dirs && nfc(y) !in v.dirs[[]]
            && Spellings(nfc, v.w[[]], nfc(y)) == {x}
  {
    var w: World := map[[] := {a, x}];
    var p := [a];
    assert Parent(p) == [] && Last(p) == a;
    assert w[[]] + {a} == {a, x};
    assert Create(w, p, false) == w;
  }
}
