/** Layered ignore rules and the walk that prunes by them. The glob matcher and the normal form
    are function parameters; the rule files of the tree do not change meanwhile. */
module Ignore {
  import opened Blobs
  import opened Paths

  datatype V = Ign | Wl | No

  /** A compiled rule set: what it says of a path below it. */
  type Layer = (Path, bool) -> V

  datatype Rules = Rules(chain: Layer, load: Path -> Option<Layer>, nfc: Name -> Name)

  const QUARANTINE := ".ferry-conflict."

  /** The name of a file set aside: the marker is somewhere in it. */
  ghost predicate Quarantined(name: Name) {
    exists a: Name, b: Name :: name == a + ".ferry-conflict." + b
  }

  predicate MarkAt(name: Name, i: int) {
    0 <= i <= |name| - |QUARANTINE| && name[i..i + |QUARANTINE|] == QUARANTINE
  }

  // ---- what is decided -----------------------------------------------------------------------

  /** The chain, overridden by each directory's own rules from the outside in, up to `j`. */
  function Layered(rules: Rules, p: Path, isDir: bool, j: nat): V
    requires j <= |p|
  {
    if j <= 1 then rules.chain(p, isDir)
    else
      var v := Layered(rules, p, isDir, j - 1);
      match rules.load(p[..j - 1])
      case None => v
      case Some(gi) => if gi(p[j - 1..], isDir) == No then v else gi(p[j - 1..], isDir)
  }

  function Judged(rules: Rules, p: Path, isDir: bool): V { Layered(rules, p, isDir, |p|) }

  /** Some directory above is excluded. */
  ghost predicate Excluded(rules: Rules, p: Path, below: nat)
    requires below <= |p|
  {
    exists k :: 0 < k < below && Judged(rules, p[..k], true) == Ign
  }

  function Normal(rules: Rules, rel: Path): Path { seq(|rel|, i requires 0 <= i < |rel| => rules.nfc(rel[i])) }

  ghost predicate Decided(rules: Rules, rel: Path, isDir: bool) {
    && rel != [] && !Quarantined(Last(rel))
    && (Excluded(rules, Normal(rules, rel), |rel|) || Judged(rules, Normal(rules, rel), isDir) == Ign)
  }

  // ---- whose word counts ------------------------------------------------------------------------

  /** The rules in the directory `j` levels down have something to say of the rest of the path. */
  predicate Speaks(rules: Rules, p: Path, isDir: bool, j: int) {
    0 < j < |p| && rules.load(p[..j]).Some? && rules.load(p[..j]).value(p[j..], isDir) != No
  }

  /** `v` is the verdict on a path: that of the innermost directory above it whose rules speak of it,
      and the chain's if none does. */
  ghost predicate Verdict(rules: Rules, p: Path, isDir: bool, v: V) {
    && (forall j :: Speaks(rules, p, isDir, j) && (forall k :: j < k ==> !Speaks(rules, p, isDir, k)) ==>
          v == rules.load(p[..j]).value(p[j..], isDir))
    && ((forall j :: !Speaks(rules, p, isDir, j)) ==> v == rules.chain(p, isDir))
  }

  lemma {:induction false} LayeredFrom(rules: Rules, p: Path, isDir: bool, j: nat, i: nat)
    requires 0 < j <= |p| && i < j
    requires forall k :: i < k < j ==> !Speaks(rules, p, isDir, k)
    ensures Layered(rules, p, isDir, j)
         == if Speaks(rules, p, isDir, i) then rules.load(p[..i]).value(p[i..], isDir)
            else Layered(rules, p, isDir, i + 1)
    decreases j
  {
    if j > i + 1 {
      assert !Speaks(rules, p, isDir, j - 1);
      LayeredFrom(rules, p, isDir, j - 1, i);
    }
  }

  /** Layering gives every path its verdict, and a path has one only. */
  lemma JudgedExactly(rules: Rules, p: Path, isDir: bool, v: V)
    requires p != []
    ensures Judged(rules, p, isDir) == v <==> Verdict(rules, p, isDir, v)
  {
    if exists j :: Speaks(rules, p, isDir, j) {
      var j := Innermost(rules, p, isDir, |p|);
      LayeredFrom(rules, p, isDir, |p|, j);
      forall i | Speaks(rules, p, isDir, i) && (forall k :: i < k ==> !Speaks(rules, p, isDir, k)) ensures i == j {
        assert !(j < i) && !(i < j);
      }
    } else {
      LayeredFrom(rules, p, isDir, |p|, 0);
    }
  }

  lemma {:induction false} Innermost(rules: Rules, p: Path, isDir: bool, n: nat) returns (j: nat)
    requires n <= |p| && (exists j :: Speaks(rules, p, isDir, j)) && forall k :: n <= k ==> !Speaks(rules, p, isDir, k)
    ensures j < |p| && Speaks(rules, p, isDir, j) && forall k :: j < k ==> !Speaks(rules, p, isDir, k)
    decreases n
  {
    if n > 0 && Speaks(rules, p, isDir, n - 1) { j := n - 1; } else { j := Innermost(rules, p, isDir, n - 1); }
  }

  /** What it is to be ignored: not to be quarantined, and to have an `Ign` verdict oneself or on a
      directory above. */
  ghost predicate Ignorable(rules: Rules, rel: Path, isDir: bool) {
    && rel != [] && !Quarantined(Last(rel))
    && exists k :: 0 < k <= |rel| && Verdict(rules, Normal(rules, rel)[..k], k < |rel| || isDir, Ign)
  }

  lemma DecidedExactly(rules: Rules, rel: Path, isDir: bool)
    ensures Decided(rules, rel, isDir) <==> Ignorable(rules, rel, isDir)
  {
    hide Judged, Verdict, Quarantined;
    if rel != [] {
      var p := Normal(rules, rel);
      assert p[..|rel|] == p;
      JudgedExactly(rules, p, isDir, Ign);
      forall k | 0 < k < |rel|
        ensures Judged(rules, p[..k], true) == Ign <==> Verdict(rules, p[..k], k < |rel| || isDir, Ign)
      {
        JudgedExactly(rules, p[..k], true, Ign);
      }
    }
  }

  /** A file that the rules next to it let in is not ignored, below no excluded directory. */
  lemma WhitelistedKept(rules: Rules, rel: Path)
    requires |rel| > 1
    requires var p := Normal(rules, rel);
             && rules.load(Parent(p)).Some? && rules.load(Parent(p)).value([Last(p)], false) == Wl
             && forall k :: 0 < k < |rel| ==> !Verdict(rules, p[..k], true, Ign)
    ensures !Decided(rules, rel, false)
  {
    var p := Normal(rules, rel);
    var j := |p| - 1;
    DecidedExactly(rules, rel, false);
    assert p[..j] == Parent(p) && p[j..] == [Last(p)] && Speaks(rules, p, false, j);
    assert forall k :: j < k ==> !Speaks(rules, p, false, k);
    assert !Verdict(rules, p, false, Ign);
    assert p[..|rel|] == p;
  }

  /** What is below an ignored directory is ignored, quarantined names aside. */
  lemma IgnoredBelow(rules: Rules, dir: Path, rel: Path, isDir: bool)
    requires Decided(rules, dir, true) && dir < rel
    ensures Decided(rules, rel, isDir) <==> !Quarantined(Last(rel))
  {
    var p, q := Normal(rules, dir), Normal(rules, rel);
    assert forall k :: 0 <= k <= |dir| ==> q[..k] == p[..k] by {
      forall k | 0 <= k <= |dir| ensures q[..k] == p[..k] { assert forall i :: 0 <= i < k ==> rel[i] == dir[i]; }
    }
    if Judged(rules, p, true) == Ign { assert q[..|dir|] == p; }
    else {
      var k :| 0 < k < |dir| && Judged(rules, p[..k], true) == Ign;
      assert q[..k] == p[..k];
    }
  }

  // ---- the memoised decision -------------------------------------------------------------------

  class FerryIgnore {
    const rules: Rules
    var dirs: map<Path, Option<Layer>>

    constructor (rules: Rules)
      ensures this.rules == rules && Valid()
    {
      this.rules := rules;
      dirs := map[];
    }

    /** What is remembered is what a fresh load would give. */
    ghost predicate Valid()
      reads this
    {
      forall d :: d in dirs ==> dirs[d] == rules.load(d)
    }

    method DirOverlay(dir: Path) returns (gi: Option<Layer>)
      requires Valid()
      modifies this
      ensures Valid() && gi == rules.load(dir)
    {
      if dir in dirs { return dirs[dir]; }
      gi := rules.load(dir);
      dirs := dirs[dir := gi];
    }

    /** decided */
    method Decide(given: Path, isDir: bool) returns (ignored: bool)
      requires Valid()
      modifies this
      ensures Valid() && ignored == Decided(rules, given, isDir) && ignored == Ignorable(rules, given, isDir)
    {
      hide Ignorable;
      DecidedExactly(rules, given, isDir);
      if given == [] { return false; }
      var quarantined := IsQuarantineName(Last(given));
      if quarantined { return false; }
      var rel := Normal(rules, given);
      var excludedParent, finalIgnored := false, false;
      var depth := 1;
      while depth <= |rel|
        invariant 1 <= depth <= |rel| + 1 && Valid()
        invariant depth <= |rel| ==> (excludedParent <==> Excluded(rules, rel, depth))
        invariant depth == |rel| + 1 ==>
              (finalIgnored <==> Excluded(rules, rel, |rel|) || Judged(rules, rel, isDir) == Ign)
      {
        var p := rel[..depth];
        var dirHere := depth < |rel| || isDir;
        var v := rules.chain(p, dirHere);
        var j := 1;
        while j < depth
          invariant 1 <= j <= depth && Valid() && v == Layered(rules, p, dirHere, j)
        {
          var gi := DirOverlay(rel[..j]);
          assert rel[..j] == p[..j] && rel[j..depth] == p[j..];
          if gi.Some? {
            var vv := gi.value(rel[j..depth], dirHere);
            if vv != No { v := vv; }
          }
          j := j + 1;
        }
        if depth < |rel| {
          ExcludedNext(rules, rel, depth);
          if v == Ign { excludedParent := true; }
        } else {
          assert p == rel;
          finalIgnored := excludedParent || v == Ign;
        }
        depth := depth + 1;
      }
      return finalIgnored;
    }
  }

  lemma ExcludedNext(rules: Rules, p: Path, depth: nat)
    requires 0 < depth < |p|
    ensures Excluded(rules, p, depth + 1) <==> Excluded(rules, p, depth) || Judged(rules, p[..depth], true) == Ign
  {
  }

  lemma MarkedAt(name: Name, i: nat)
    requires MarkAt(name, i)
    ensures Quarantined(name)
  {
    assert name == name[..i] + name[i..i + |QUARANTINE|] + name[i + |QUARANTINE|..];
  }

  lemma Marked(name: Name)
    requires Quarantined(name)
    ensures exists i :: MarkAt(name, i)
  {
    var a: Name, b: Name :| name == a + ".ferry-conflict." + b;
    assert MarkAt(name, |a|);
  }

  /** is_quarantine_name */
  method IsQuarantineName(name: Name) returns (r: bool)
    ensures r == Quarantined(name)
  {
    hide Quarantined;
    var i := 0;
    while i <= |name| - |QUARANTINE|
      invariant 0 <= i && forall k :: k < i ==> !MarkAt(name, k)
    {
      if MarkAt(name, i) { MarkedAt(name, i); return true; }
      i := i + 1;
    }
    if Quarantined(name) { Marked(name); }
    return false;
  }

  // ---- walking -----------------------------------------------------------------------------------

  datatype Node = FileNode | DirNode(entries: seq<Entry>) | OtherNode
  datatype Entry = Entry(name: Name, node: Node)

  /** Every file, nothing pruned. */
  function AllFiles(rules: Rules, rel: Path, es: seq<Entry>): seq<Path>
    decreases es
  {
    if es == [] then []
    else
      var here := rel + [rules.nfc(es[0].name)];
      (match es[0].node case FileNode => [here] case DirNode(sub) => AllFiles(rules, here, sub) case OtherNode => [])
      + AllFiles(rules, rel, es[1..])
  }

  /** The names of `p`, each in its normal form, lead through directories to a file. */
  ghost predicate FileAt(rules: Rules, es: seq<Entry>, p: Path)
    decreases |p|
  {
    p != [] && exists i :: 0 <= i < |es| && FileIn(rules, es[i], p)
  }

  ghost predicate FileIn(rules: Rules, e: Entry, p: Path)
    requires p != []
    decreases |p|, 0
  {
    && rules.nfc(e.name) == p[0]
    && if |p| == 1 then e.node.FileNode? else e.node.DirNode? && FileAt(rules, e.node.entries, p[1..])
  }

  lemma FileCons(rules: Rules, es: seq<Entry>, p: Path)
    requires es != []
    ensures FileAt(rules, es, p) <==> p != [] && (FileIn(rules, es[0], p) || FileAt(rules, es[1..], p))
  {
    hide FileIn;
    if p != [] {
      if i :| 0 <= i < |es| && FileIn(rules, es[i], p) { if i > 0 { assert es[1..][i - 1] == es[i]; } }
      if i :| 0 <= i < |es[1..]| && FileIn(rules, es[1..][i], p) { assert es[i + 1] == es[1..][i]; }
    }
  }

  /** A full walk lists exactly the files of the tree. */
  lemma {:induction false} FilesExactly(rules: Rules, rel: Path, es: seq<Entry>, q: Path)
    ensures q in AllFiles(rules, rel, es) <==> rel <= q && FileAt(rules, es, q[|rel|..])
    decreases es
  {
    if es != [] {
      var e, here := es[0], rel + [rules.nfc(es[0].name)];
      FilesExactly(rules, rel, es[1..], q);
      assert rel <= here && (here <= q ==> rel <= q);
      if e.node.DirNode? { FilesExactly(rules, here, e.node.entries, q); }
      if rel <= q {
        var p := q[|rel|..];
        FileCons(rules, es, p);
        assert q == rel + p;
        if p != [] {
          assert here <= q <==> p[0] == rules.nfc(e.name);
          if here <= q { assert q[|here|..] == p[1..]; }
          assert q == here <==> p == [rules.nfc(e.name)];
        }
      }
    }
  }

  /** The files the pruned walk gets to and does not ignore. */
  ghost function WalkedFiles(rules: Rules, rel: Path, es: seq<Entry>): seq<Path>
    decreases es
  {
    if es == [] then []
    else
      var here := rel + [rules.nfc(es[0].name)];
      (match es[0].node
       case FileNode => if Decided(rules, here, false) then [] else [here]
       case DirNode(sub) => if Decided(rules, here, true) then [] else WalkedFiles(rules, here, sub)
       case OtherNode => [])
      + WalkedFiles(rules, rel, es[1..])
  }

  /** ... of one entry. */
  ghost function WalkedEntry(rules: Rules, here: Path, node: Node): seq<Path> {
    match node
    case FileNode => if Decided(rules, here, false) then [] else [here]
    case DirNode(sub) => if Decided(rules, here, true) then [] else WalkedFiles(rules, here, sub)
    case OtherNode => []
  }

  lemma WalkedNext(rules: Rules, rel: Path, es: seq<Entry>, i: nat, out: seq<Path>)
    requires i < |es|
    ensures var here := rel + [rules.nfc(es[i].name)];
            out + WalkedFiles(rules, rel, es[i..]) == out + WalkedEntry(rules, here, es[i].node)
              + WalkedFiles(rules, rel, es[i + 1..])
  {
    hide Decided;
    assert es[i..][0] == es[i] && es[i..][1..] == es[i + 1..];
    var here := rel + [rules.nfc(es[i].name)];
    assert out + (WalkedEntry(rules, here, es[i].node) + WalkedFiles(rules, rel, es[i + 1..]))
        == out + WalkedEntry(rules, here, es[i].node) + WalkedFiles(rules, rel, es[i + 1..]);
  }

  method WalkEntry(ig: FerryIgnore, here: Path, node: Node, out: seq<Path>) returns (more: seq<Path>)
    requires ig.Valid()
    modifies ig
    ensures ig.Valid() && more == out + WalkedEntry(ig.rules, here, node)
    decreases node
  {
    hide Decided, WalkedFiles;
    more := out;
    match node {
      case FileNode =>
        var ignored := ig.Decide(here, false);
        if !ignored { more := more + [here]; }
      case DirNode(sub) =>
        var ignored := ig.Decide(here, true);
        if !ignored { more := Walk(ig, here, sub, more); }
      case OtherNode =>
    }
  }

  /** walk, up to what is done with each file. */
  method Walk(ig: FerryIgnore, rel: Path, es: seq<Entry>, out: seq<Path>) returns (more: seq<Path>)
    requires ig.Valid()
    modifies ig
    ensures ig.Valid() && more == out + WalkedFiles(ig.rules, rel, es)
    decreases es
  {
    hide WalkedEntry;
    more := out;
    var i := 0;
    assert es[0..] == es;
    while i < |es|
      invariant 0 <= i <= |es| && ig.Valid()
      invariant more + WalkedFiles(ig.rules, rel, es[i..]) == out + WalkedFiles(ig.rules, rel, es)
    {
      WalkedNext(ig.rules, rel, es, i, more);
      more := WalkEntry(ig, rel + [ig.rules.nfc(es[i].name)], es[i].node, more);
      i := i + 1;
    }
    assert es[i..] == [] && more + [] == more;
  }

  /** Not ignored, and below no ignored directory deeper than `from`. */
  ghost predicate Reached(rules: Rules, from: nat, q: Path) {
    !Decided(rules, q, false) && forall k :: from < k < |q| ==> !Decided(rules, q[..k], true)
  }

  ghost function Keep(rules: Rules, from: nat, qs: seq<Path>): seq<Path> {
    if qs == [] then [] else KeepOne(rules, from, qs[0]) + Keep(rules, from, qs[1..])
  }

  ghost function KeepOne(rules: Rules, from: nat, q: Path): seq<Path> {
    if Reached(rules, from, q) then [q] else []
  }

  lemma {:induction false} KeepAppend(rules: Rules, from: nat, a: seq<Path>, b: seq<Path>)
    ensures Keep(rules, from, a + b) == Keep(rules, from, a) + Keep(rules, from, b)
  {
    hide *;
    if a == [] {
      KeepNone(rules, from);
      Plus(b);
      Plus(Keep(rules, from, b));
    } else {
      KeepAppend(rules, from, a[1..], b);
      assert (a + b)[0] == a[0] && (a + b)[1..] == a[1..] + b;
      KeepFirst(rules, from, a);
      KeepFirst(rules, from, a + b);
      Regroup(KeepOne(rules, from, a[0]), Keep(rules, from, a[1..]), Keep(rules, from, b));
    }
  }

  lemma KeepFirst(rules: Rules, from: nat, qs: seq<Path>)
    requires qs != []
    ensures Keep(rules, from, qs) == KeepOne(rules, from, qs[0]) + Keep(rules, from, qs[1..])
  {
  }

  lemma Plus<T>(a: seq<T>)
    ensures [] + a == a
  {
  }

  lemma Regroup<T>(a: seq<T>, b: seq<T>, c: seq<T>)
    ensures a + (b + c) == a + b + c
  {
  }

  lemma {:induction false} FilesBelow(rules: Rules, rel: Path, es: seq<Entry>)
    ensures forall q :: q in AllFiles(rules, rel, es) ==> |q| > |rel| && rel == q[..|rel|]
    decreases es
  {
    if es != [] {
      var here := rel + [rules.nfc(es[0].name)];
      FilesBelow(rules, rel, es[1..]);
      if es[0].node.DirNode? {
        FilesBelow(rules, here, es[0].node.entries);
        forall q | q in AllFiles(rules, here, es[0].node.entries) ensures |q| > |rel| && rel == q[..|rel|] {
          assert q[..|rel|] == q[..|here|][..|rel|] == here[..|rel|];
        }
      }
    }
  }

  /** Below a directory that is not ignored, looking from it or from above it makes no difference;
      below one that is, nothing is reached. */
  lemma {:induction false} KeepBelow(rules: Rules, here: Path, qs: seq<Path>)
    requires here != [] && forall q :: q in qs ==> |q| > |here| && here == q[..|here|]
    ensures Keep(rules, |here| - 1, qs) == if Decided(rules, here, true) then [] else Keep(rules, |here|, qs)
  {
    hide Decided;
    if qs != [] {
      var q := qs[0];
      assert q in qs && q[..|here|] == here;
      KeepBelow(rules, here, qs[1..]);
      assert Reached(rules, |here| - 1, q) <==> !Decided(rules, here, true) && Reached(rules, |here|, q);
    }
  }

  lemma KeepNone(rules: Rules, from: nat)
    ensures Keep(rules, from, []) == []
  {
  }

  lemma KeepFile(rules: Rules, from: nat, here: Path)
    requires |here| == from + 1
    ensures Keep(rules, from, [here]) == if Decided(rules, here, false) then [] else [here]
  {
    hide Decided;
    assert [here][1..] == [] && (Reached(rules, from, here) <==> !Decided(rules, here, false));
  }

  /** The pruned walk reaches, in order, exactly those files of a full walk that are reached. */
  lemma {:induction false} PrunedWalk(rules: Rules, rel: Path, es: seq<Entry>)
    ensures WalkedFiles(rules, rel, es) == Keep(rules, |rel|, AllFiles(rules, rel, es))
    decreases es
  {
    hide Decided, Reached, Keep;
    if es == [] {
      KeepNone(rules, |rel|);
    } else {
      var here := rel + [rules.nfc(es[0].name)];
      PrunedWalk(rules, rel, es[1..]);
      var rest := AllFiles(rules, rel, es[1..]);
      match es[0].node {
        case FileNode =>
          KeepAppend(rules, |rel|, [here], rest);
          KeepFile(rules, |rel|, here);
        case DirNode(sub) =>
          PrunedWalk(rules, here, sub);
          FilesBelow(rules, here, sub);
          KeepBelow(rules, here, AllFiles(rules, here, sub));
          KeepAppend(rules, |rel|, AllFiles(rules, here, sub), rest);
        case OtherNode => assert [] + rest == rest;
      }
    }
  }

  lemma {:induction false} KeepExactly(rules: Rules, from: nat, qs: seq<Path>, q: Path)
    ensures q in Keep(rules, from, qs) <==> q in qs && Reached(rules, from, q)
  {
    hide Reached;
    if qs != [] {
      KeepExactly(rules, from, qs[1..], q);
      assert qs == [qs[0]] + qs[1..];
    }
  }

  /** The pruned walk gets to exactly the files of the tree that are reached. */
  lemma WalkedExactly(rules: Rules, es: seq<Entry>, q: Path)
    ensures q in WalkedFiles(rules, [], es) <==> FileAt(rules, es, q) && Reached(rules, 0, q)
  {
    hide Reached, Keep, AllFiles, WalkedFiles, FileAt;
    PrunedWalk(rules, [], es);
    KeepExactly(rules, 0, AllFiles(rules, [], es), q);
    FilesExactly(rules, [], es, q);
    assert q[0..] == q;
  }

  /** Without a quarantined name, being reached is just not being ignored; with one, it is that no
      directory above is ignored. */
  lemma ReachedExactly(rules: Rules, q: Path)
    requires q != []
    ensures !Quarantined(Last(q)) ==> (Reached(rules, 0, q) <==> !Decided(rules, q, false))
    ensures Quarantined(Last(q)) ==>
          (Reached(rules, 0, q) <==> forall k :: 0 < k < |q| ==> !Decided(rules, q[..k], true))
  {
    if !Quarantined(Last(q)) && !Decided(rules, q, false) {
      forall k | 0 < k < |q| ensures !Decided(rules, q[..k], true) {
        if Decided(rules, q[..k], true) { IgnoredBelow(rules, q[..k], q, false); }
      }
    }
  }

  /** A quarantined file in an ignored directory is not ignored, and yet the walk misses it. */
  lemma QuarantinedMissed(rules: Rules, dir: Name, name: Name)
    requires Quarantined(rules.nfc(name)) && Decided(rules, [rules.nfc(dir)], true)
    ensures var es := [Entry(dir, DirNode([Entry(name, FileNode)]))];
            var q := [rules.nfc(dir), rules.nfc(name)];
            !Decided(rules, q, false) && AllFiles(rules, [], es) == [q] && WalkedFiles(rules, [], es) == []
  {
    var sub := [Entry(name, FileNode)];
    var es := [Entry(dir, DirNode(sub))];
    var here := [] + [rules.nfc(dir)];
    assert here == [rules.nfc(dir)] && here + [rules.nfc(name)] == [rules.nfc(dir), rules.nfc(name)];
    assert sub[1..] == [] && es[1..] == [];
    assert AllFiles(rules, here, sub) == [here + [rules.nfc(name)]];
  }
}
