/** A live directory tree as a map from paths below the target to nodes, and the file-system
    calls the applier makes. Any call may fail and then changes nothing; a call that adds or
    removes an entry gives the containing directory an arbitrary new modification time. */
module FileTree {
  import opened Blobs
  import opened Paths
  import opened TempNames

  datatype Node =
    | Dir(mtime: int)
    | File(bytes: Bytes, exec: bool, mtime: int)
    | Link(target: string, mtime: int)

  type Tree = map<Path, Node>

  ghost predicate IsTree(t: Tree) {
    && [] in t && t[[]].Dir?
    && forall p :: p in t && p != [] ==> Parent(p) in t && t[Parent(p)].Dir?
  }

  /** Equal at this path, except that two directories may differ in time. */
  predicate Agree(t: Tree, u: Tree, p: Path) {
    (p in t <==> p in u) && (p in t ==> t[p] == u[p] || (t[p].Dir? && u[p].Dir?))
  }

  /** Looking at `p` fails because something above it is no directory. */
  predicate Blocked(t: Tree, p: Path) {
    exists k :: 0 < k < |p| && p[..k] in t && !t[p[..k]].Dir?
  }

  lemma {:induction false} Ancestors(t: Tree, p: Path, q: Path)
    requires IsTree(t) && q in t && p < q
    ensures p in t && t[p].Dir?
    decreases |q|
  {
    assert Parent(q) in t;
    if |p| < |q| - 1 { Ancestors(t, p, Parent(q)); } else { assert p == Parent(q); }
  }

  lemma {:induction false} ChildToward(t: Tree, p: Path, q: Path) returns (c: Path)
    requires IsTree(t) && q in t && p < q
    ensures c in t && |c| == |p| + 1 && p < c <= q && Parent(c) == p
  {
    c := q[..|p| + 1];
    assert Parent(c) == p;
    if c != q { Ancestors(t, c, q); }
  }

  /** A temporary name next to `p`. */
  predicate TempBeside(p: Path, q: Path) {
    p != [] && q != [] && Parent(q) == Parent(p) && IsTemp(Last(q))
  }

  function ChildrenOf(t: Tree, p: Path): set<Path> {
    set q | q in t && q != [] && Parent(q) == p
  }

  function BelowOf(t: Tree, p: Path): set<Path> {
    set q | q in t && p < q
  }

  lemma BelowShrinks(t: Tree, p: Path, c: Path)
    requires c in t && p < c
    ensures |BelowOf(t, c)| < |BelowOf(t, p)|
  {
    assert c in BelowOf(t, p) && c !in BelowOf(t, c);
    assert BelowOf(t, c) < BelowOf(t, p);
    Smaller(BelowOf(t, c), BelowOf(t, p));
  }

  lemma {:induction false} Smaller<T>(a: set<T>, b: set<T>)
    requires a < b
    ensures |a| < |b|
  {
    var rest := b - a;
    assert a + rest == b && a !! rest;
    assert rest != {};
  }

  lemma NothingBelow(t: Tree, p: Path)
    requires IsTree(t) && ChildrenOf(t, p) == {}
    ensures forall q :: q in t ==> !(p < q)
  {
    forall q | q in t ensures !(p < q) {
      if p < q { HasChild(t, p, q); }
    }
  }

  lemma HasChild(t: Tree, p: Path, q: Path)
    requires IsTree(t) && q in t && p < q
    ensures ChildrenOf(t, p) != {}
  {
    var c := ChildToward(t, p, q);
    assert c in ChildrenOf(t, p);
  }

  function Bumped(t: Tree, p: Path, now: int): Tree
    requires p != []
  {
    if Parent(p) in t && t[Parent(p)].Dir? then t[Parent(p) := Dir(now)] else t
  }

  function Renamed(t: Tree, src: Path, dst: Path): Tree
    requires src in t
  {
    t[dst := t[src]] - {src}
  }

  lemma BumpKeeps(t: Tree, p: Path, now: int)
    requires IsTree(t) && p != []
    ensures var u := Bumped(t, p, now); IsTree(u) && u.Keys == t.Keys && forall q :: q in t ==>
          u[q] == t[q] || (u[q].Dir? && t[q].Dir?)
  {
  }

  lemma RenameKeeps(t: Tree, src: Path, dst: Path)
    requires IsTree(t) && src != [] && dst != [] && src != dst && Parent(src) == Parent(dst)
    requires src in t && !t[src].Dir? && (dst in t ==> !t[dst].Dir?)
    ensures IsTree(Renamed(t, src, dst))
  {
    var u := Renamed(t, src, dst);
    forall p | p in u && p != [] ensures Parent(p) in u && u[Parent(p)].Dir? {
      assert p == dst || p in t;
      assert Parent(p) in t && t[Parent(p)].Dir?;
    }
  }

  lemma AddKeeps(t: Tree, p: Path, n: Node)
    requires IsTree(t) && p != [] && Parent(p) in t && t[Parent(p)].Dir? && (p in t ==> !t[p].Dir?)
    ensures IsTree(t[p := n])
  {
    var u := t[p := n];
    assert p != Parent(p);
    forall q | q in u && q != [] ensures Parent(q) in u && u[Parent(q)].Dir? {
      assert q == p || q in t;
      assert Parent(q) in t && t[Parent(q)].Dir?;
    }
  }

  lemma CutKeeps(t: Tree, p: Path)
    requires IsTree(t) && p in t && p != [] && forall q :: q in t ==> !(p < q)
    ensures IsTree(t - {p})
  {
    var u := t - {p};
    forall q | q in u && q != [] ensures Parent(q) in u && u[Parent(q)].Dir? {
      assert q in t && Parent(q) in t && Parent(q) < q;
    }
  }

  /** Nothing is below a file or link. */
  lemma LeafBelow(t: Tree, p: Path)
    requires IsTree(t) && p in t && !t[p].Dir?
    ensures forall q :: q in t ==> !(p < q)
  {
    forall q | q in t ensures !(p < q) { if p < q { Ancestors(t, p, q); } }
  }

  function WithTime(n: Node, t: int): Node {
    match n case Dir(_) => Dir(t) case File(b, e, _) => File(b, e, t) case Link(l, _) => Link(l, t)
  }

  datatype Creation = Made | Existed | Refused

  /** The disk under the target directory. `trace` keeps every state it has been in since. */
  class Disk {
    var tree: Tree
    ghost var trace: seq<Tree>

    /** A new tree is in place; the directory around `p` gets a new time. */
    method Commit(p: Path, t: Tree)
      requires p != [] && IsTree(t)
      modifies this
      ensures IsTree(tree) && tree.Keys == t.Keys && forall q :: q in t ==>
            tree[q] == t[q] || (tree[q].Dir? && t[q].Dir?)
      ensures trace == old(trace) + [tree]
    {
      var now: int := *;
      BumpKeeps(t, p, now);
      tree := Bumped(t, p, now);
      trace := trace + [tree];
    }

    /** Remove a file or symbolic link. */
    method RemoveFile(p: Path) returns (ok: bool)
      requires IsTree(tree)
      modifies this
      ensures IsTree(tree)
      ensures !ok ==> tree == old(tree) && trace == old(trace)
      ensures ok ==> p in old(tree) && !old(tree)[p].Dir? && p !in tree && forall q :: q != p ==>
            Agree(old(tree), tree, q)
      ensures ok ==> trace == old(trace) + [tree]
    {
      ok := *;
      if p !in tree || tree[p].Dir? { ok := false; }
      if ok {
        LeafBelow(tree, p);
        CutKeeps(tree, p);
        Commit(p, tree - {p});
      }
    }

    /** Remove an empty directory. */
    method RemoveDir(p: Path) returns (ok: bool)
      requires IsTree(tree)
      modifies this
      ensures IsTree(tree)
      ensures !ok ==> tree == old(tree) && trace == old(trace)
      ensures ok ==> p in old(tree) && old(tree)[p].Dir? && (forall q :: q in old(tree) ==> !(p < q))
      ensures ok ==> p !in tree && forall q :: q != p ==> Agree(old(tree), tree, q)
      ensures ok ==> trace == old(trace) + [tree]
    {
      ok := *;
      if p == [] || p !in tree || !tree[p].Dir? || ChildrenOf(tree, p) != {} { ok := false; }
      if ok {
        NothingBelow(tree, p);
        CutKeeps(tree, p);
        Commit(p, tree - {p});
      }
    }

    method CreateDir(p: Path) returns (r: Creation)
      requires IsTree(tree) && p != []
      modifies this
      ensures IsTree(tree)
      ensures !r.Made? ==> tree == old(tree) && trace == old(trace)
      ensures r.Existed? ==> p in tree
      ensures r.Made? ==> p !in old(tree) && p in tree && tree[p].Dir? && forall q :: q != p ==>
            Agree(old(tree), tree, q)
      ensures r.Made? ==> trace == old(trace) + [tree]
    {
      var ok: bool, now: int := *, *;
      if Parent(p) !in tree || !tree[Parent(p)].Dir? || !ok { return Refused; }
      if p in tree { return Existed; }
      AddKeeps(tree, p, Dir(now));
      Commit(p, tree[p := Dir(now)]);
      return Made;
    }

    /** Open for writing: a new empty file, or an existing file emptied. */
    method CreateFile(p: Path) returns (ok: bool)
      requires IsTree(tree) && p != []
      modifies this
      ensures IsTree(tree)
      ensures !ok ==> tree == old(tree) && trace == old(trace)
      ensures ok ==> p in tree && tree[p].File? && tree[p].bytes == [] && forall q :: q != p ==>
            Agree(old(tree), tree, q)
      ensures ok ==> trace == old(trace) + [tree]
    {
      ok := *;
      if Parent(p) !in tree || !tree[Parent(p)].Dir? || (p in tree && !tree[p].File?) { ok := false; }
      if ok {
        var exec: bool, now: int := *, *;
        AddKeeps(tree, p, File([], exec, now));
        Commit(p, tree[p := File([], exec, now)]);
      }
    }

    /** Change an existing file in place. */
    method Modify(p: Path, n: Node) returns (ok: bool)
      requires IsTree(tree) && p in tree && tree[p].File? && n.File?
      modifies this
      ensures IsTree(tree)
      ensures !ok ==> tree == old(tree) && trace == old(trace)
      ensures ok ==> tree == old(tree)[p := n] && trace == old(trace) + [tree]
    {
      ok := *;
      if ok {
        tree := tree[p := n];
        trace := trace + [tree];
      }
    }

    /** Set the time of a file or directory. */
    method SetTime(p: Path, t: int) returns (ok: bool)
      requires IsTree(tree)
      modifies this
      ensures IsTree(tree)
      ensures !ok ==> tree == old(tree) && trace == old(trace)
      ensures ok ==> p in old(tree) && !old(tree)[p].Link? && tree == old(tree)[p := WithTime(old(tree)[p], t)]
      ensures ok ==> trace == old(trace) + [tree]
    {
      ok := *;
      if p !in tree || tree[p].Link? { ok := false; }
      if ok {
        tree := tree[p := WithTime(tree[p], t)];
        trace := trace + [tree];
      }
    }

    /** Set the time of a symbolic link itself. */
    method SetLinkTime(p: Path, t: int) returns (ok: bool)
      requires IsTree(tree)
      modifies this
      ensures IsTree(tree)
      ensures !ok ==> tree == old(tree) && trace == old(trace)
      ensures ok ==> p in old(tree) && tree == old(tree)[p := WithTime(old(tree)[p], t)]
      ensures ok ==> trace == old(trace) + [tree]
    {
      ok := *;
      if p !in tree { ok := false; }
      if ok {
        tree := tree[p := WithTime(tree[p], t)];
        trace := trace + [tree];
      }
    }

    method MakeLink(target: string, p: Path) returns (ok: bool)
      requires IsTree(tree) && p != []
      modifies this
      ensures IsTree(tree)
      ensures !ok ==> tree == old(tree) && trace == old(trace)
      ensures ok ==> p !in old(tree) && p in tree && tree[p].Link? && tree[p].target == target
      ensures ok ==> forall q :: q != p ==> Agree(old(tree), tree, q)
      ensures ok ==> trace == old(trace) + [tree]
    {
      ok := *;
      if Parent(p) !in tree || !tree[Parent(p)].Dir? || p in tree { ok := false; }
      if ok {
        var now: int := *;
        AddKeeps(tree, p, Link(target, now));
        Commit(p, tree[p := Link(target, now)]);
      }
    }

    /** Rename a file or link within its directory; what was at `dst`, unless a directory, is
        replaced in the same step. */
    method Rename(src: Path, dst: Path) returns (ok: bool)
      requires IsTree(tree) && src != [] && dst != [] && src != dst && Parent(src) == Parent(dst)
      requires src in tree && !tree[src].Dir?
      modifies this
      ensures IsTree(tree)
      ensures !ok ==> tree == old(tree) && trace == old(trace)
      ensures ok ==> (dst in old(tree) ==> !old(tree)[dst].Dir?) && src !in tree && dst in tree
      ensures ok ==> tree[dst] == old(tree)[src]
      ensures ok ==> forall q :: q != src && q != dst ==> Agree(old(tree), tree, q)
      ensures ok ==> trace == old(trace) + [tree]
    {
      ok := *;
      if dst in tree && tree[dst].Dir? { ok := false; }
      if ok {
        RenameKeeps(tree, src, dst);
        Commit(dst, Renamed(tree, src, dst));
      }
    }
  }
}
