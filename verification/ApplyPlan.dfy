/** What the applier decides for each entry before it touches anything. */
module ApplyPlan {
  import opened Blobs
  import opened Paths
  import opened FileTree
  import opened UnixTime

  /** A planned mutation. The planner's input is one of the first three; the others are what
      it may turn it into. */
  datatype Mutation =
    | Mkdir(sec: int, nsec: int)
    | WriteFile(exec: bool, sec: int, nsec: int, size: nat, chunks: seq<(BlobId, nat)>)
    | WriteLink(target: string, sec: int, nsec: int)
    | Skip
    | RestoreTime(sec: int, nsec: int)
    | RestoreLinkTime(sec: int, nsec: int)

  datatype Upsert = Upsert(path: Path, mutation: Mutation)
  datatype Remove = Remove(path: Path, deep: bool)
  datatype Touch = Touch(path: Path, sec: int, nsec: int)

  predicate IsInput(m: Mutation) { m.Mkdir? || m.WriteFile? || m.WriteLink? }

  function SumOf(chunks: seq<(BlobId, nat)>): nat {
    if chunks == [] then 0 else chunks[0].1 + SumOf(chunks[1..])
  }

  /** A file's declared size is the sum of its chunk lengths, as manifests are validated. */
  predicate WellSized(m: Mutation) { m.WriteFile? ==> m.size == SumOf(m.chunks) }

  /** The bytes a chunk list stands for, if the store holds them with the recorded lengths. */
  function Content(st: Store, chunks: seq<(BlobId, nat)>): Option<Bytes> {
    if chunks == [] then Some([])
    else
      var (id, len) := chunks[0];
      if !Has(st, DataChunk, id) || |st.blobs[(DataChunk, id)]| != len then None
      else match Content(st, chunks[1..])
           case None => None
           case Some(rest) => Some(st.blobs[(DataChunk, id)] + rest)
  }

  lemma {:induction false} ContentSize(st: Store, chunks: seq<(BlobId, nat)>)
    ensures Content(st, chunks).Some? ==> |Content(st, chunks).value| == SumOf(chunks)
  {
    if chunks != [] { ContentSize(st, chunks[1..]); }
  }

  /** The bytes fall into consecutive pieces, one per chunk: each has the recorded length and is
      what the store holds under the chunk's name. */
  ghost predicate Spells(st: Store, chunks: seq<(BlobId, nat)>, bytes: Bytes) {
    exists cuts: seq<nat> :: Cuts(st, chunks, bytes, cuts)
  }

  ghost predicate Cuts(st: Store, chunks: seq<(BlobId, nat)>, bytes: Bytes, cuts: seq<nat>) {
    && |cuts| == |chunks| + 1 && cuts[0] == 0 && cuts[|chunks|] == |bytes|
    && forall i :: 0 <= i < |chunks| ==> Piece(st, chunks[i], bytes, cuts[i], cuts[i + 1])
  }

  predicate Piece(st: Store, chunk: (BlobId, nat), bytes: Bytes, a: nat, b: nat) {
    && a <= b <= |bytes| && b - a == chunk.1
    && (DataChunk, chunk.0) in st.blobs && st.blobs[(DataChunk, chunk.0)] == bytes[a..b]
  }

  lemma {:induction false} SpellsContent(st: Store, chunks: seq<(BlobId, nat)>, bytes: Bytes)
    ensures Spells(st, chunks, bytes) <==> Content(st, chunks) == Some(bytes)
    decreases |chunks|
  {
    if chunks == [] {
      if bytes == [] { assert Cuts(st, chunks, bytes, [0]); }
    } else {
      var len := chunks[0].1;
      if len <= |bytes| { SpellsContent(st, chunks[1..], bytes[len..]); }
      if Content(st, chunks) == Some(bytes) {
        assert bytes[len..] == Content(st, chunks[1..]).value;
        var cuts: seq<nat> :| Cuts(st, chunks[1..], bytes[len..], cuts);
        CutsCons(st, chunks, bytes, cuts);
      }
      if cuts: seq<nat> :| Cuts(st, chunks, bytes, cuts) {
        CutsTail(st, chunks, bytes, cuts);
        assert bytes == bytes[0..len] + bytes[len..];
      }
    }
  }

  lemma CutsCons(st: Store, chunks: seq<(BlobId, nat)>, bytes: Bytes, cuts: seq<nat>)
    requires chunks != [] && chunks[0].1 <= |bytes| && Piece(st, chunks[0], bytes, 0, chunks[0].1)
    requires Cuts(st, chunks[1..], bytes[chunks[0].1..], cuts)
    ensures Spells(st, chunks, bytes)
  {
    var len := chunks[0].1;
    var all: seq<nat> := [0] + seq(|cuts|, i requires 0 <= i < |cuts| => cuts[i] + len);
    forall i | 0 <= i < |chunks| ensures Piece(st, chunks[i], bytes, all[i], all[i + 1]) {
      if i > 0 {
        assert Piece(st, chunks[1..][i - 1], bytes[len..], cuts[i - 1], cuts[i]);
        assert bytes[len..][cuts[i - 1]..cuts[i]] == bytes[all[i]..all[i + 1]];
      }
    }
    assert Cuts(st, chunks, bytes, all);
  }

  lemma CutsTail(st: Store, chunks: seq<(BlobId, nat)>, bytes: Bytes, cuts: seq<nat>)
    requires chunks != [] && Cuts(st, chunks, bytes, cuts)
    ensures Piece(st, chunks[0], bytes, 0, chunks[0].1) && Spells(st, chunks[1..], bytes[chunks[0].1..])
  {
    var len := chunks[0].1;
    assert Piece(st, chunks[0], bytes, cuts[0], cuts[1]);
    forall i | 0 <= i < |cuts| ensures i > 0 ==> cuts[i] >= len {
      if i > 0 { CutsRise(st, chunks, bytes, cuts, i); }
    }
    var rest: seq<nat> := seq(|chunks|, i requires 0 <= i < |chunks| => cuts[i + 1] - len);
    forall i | 0 <= i < |chunks| - 1
      ensures Piece(st, chunks[1..][i], bytes[len..], rest[i], rest[i + 1])
    {
      assert Piece(st, chunks[i + 1], bytes, cuts[i + 1], cuts[i + 2]);
      assert bytes[len..][rest[i]..rest[i + 1]] == bytes[cuts[i + 1]..cuts[i + 2]];
    }
    assert Cuts(st, chunks[1..], bytes[len..], rest);
  }

  lemma {:induction false} CutsRise(st: Store, chunks: seq<(BlobId, nat)>, bytes: Bytes, cuts: seq<nat>, i: nat)
    requires chunks != [] && Cuts(st, chunks, bytes, cuts) && 0 < i < |cuts|
    ensures chunks[0].1 <= cuts[i] <= |bytes|
  {
    assert Piece(st, chunks[i - 1], bytes, cuts[i - 1], cuts[i]);
    if i > 1 { CutsRise(st, chunks, bytes, cuts, i - 1); }
  }

  datatype Verdict = Same | Different | Broken

  /** content_matches: chunk by chunk against the file, stopping at the first difference. */
  function Compare(st: Store, bytes: Bytes, chunks: seq<(BlobId, nat)>): Verdict
    decreases |chunks|
  {
    if chunks == [] then Same
    else
      var (id, len) := chunks[0];
      if !Has(st, DataChunk, id) || |st.blobs[(DataChunk, id)]| != len then Broken
      else if |bytes| < len || bytes[..len] != st.blobs[(DataChunk, id)] then Different
      else Compare(st, bytes[len..], chunks[1..])
  }

  method CompareFile(st: Store, bytes: Bytes, chunks: seq<(BlobId, nat)>) returns (v: Verdict)
    ensures v == Compare(st, bytes, chunks)
  {
    var pos, i := 0, 0;
    while i < |chunks|
      invariant 0 <= i <= |chunks| && 0 <= pos <= |bytes|
      invariant Compare(st, bytes[pos..], chunks[i..]) == Compare(st, bytes, chunks)
    {
      var (id, len) := chunks[i];
      assert chunks[i..][0] == chunks[i] && chunks[i..][1..] == chunks[i + 1..];
      if !Has(st, DataChunk, id) { return Broken; }
      var want := st.blobs[(DataChunk, id)];
      if |want| != len { return Broken; }
      if |bytes| - pos < len { return Different; }
      assert bytes[pos..][..len] == bytes[pos..pos + len] && bytes[pos..][len..] == bytes[pos + len..];
      if bytes[pos..pos + len] != want { return Different; }
      pos, i := pos + len, i + 1;
    }
    return Same;
  }

  /** Same means: the file starts with the content; of the right size, it is the content. */
  lemma {:induction false} CompareSound(st: Store, bytes: Bytes, chunks: seq<(BlobId, nat)>)
    ensures Compare(st, bytes, chunks).Same? ==> Content(st, chunks).Some? && Content(st, chunks).value <= bytes
    ensures Compare(st, bytes, chunks).Same? && |bytes| == SumOf(chunks) ==> Content(st, chunks) == Some(bytes)
    ensures Content(st, chunks) == Some(bytes) ==> Compare(st, bytes, chunks).Same?
    decreases |chunks|
  {
    ContentSize(st, chunks);
    if chunks != [] && Has(st, DataChunk, chunks[0].0) && |st.blobs[(DataChunk, chunks[0].0)]| == chunks[0].1 {
      var b, len := st.blobs[(DataChunk, chunks[0].0)], chunks[0].1;
      if len <= |bytes| && bytes[..len] == b {
        CompareSound(st, bytes[len..], chunks[1..]);
        assert bytes == b + bytes[len..];
      }
      if Content(st, chunks) == Some(bytes) {
        assert bytes[..len] == b && bytes[len..] == Content(st, chunks[1..]).value;
      }
    }
  }

  datatype Planned = Planned(mutation: Mutation, touch: bool, skipped: bool) | Trouble

  /** plan_upsert, for an entry that no removal shadows. */
  function PlanOne(st: Store, live: Option<Node>, m: Mutation): Planned {
    match m
    case Mkdir(_, _) =>
      if live.Some? && live.value.Dir? then Planned(Skip, true, true) else Planned(m, false, false)
    case WriteLink(target, sec, nsec) =>
      if live.Some? && live.value.Link? && live.value.target == target then
        if Split(live.value.mtime) != (sec, nsec) then Planned(RestoreLinkTime(sec, nsec), false, false)
        else Planned(Skip, false, true)
      else Planned(m, false, false)
    case WriteFile(exec, sec, nsec, size, chunks) =>
      if live.None? || !live.value.File? || |live.value.bytes| != size
        || live.value.exec != exec then Planned(m, false, false)
      else (match Compare(st, live.value.bytes, chunks)
            case Broken => Trouble
            case Different => Planned(m, false, false)
            case Same =>
              if Split(live.value.mtime) == (sec, nsec) then Planned(Skip, false, true)
              else Planned(RestoreTime(sec, nsec), false, false))
    case _ => Planned(m, false, false)
  }

  /** The node is what the entry asks for; a directory's time is settled separately. */
  predicate Realised(st: Store, n: Node, m: Mutation) {
    match m
    case Mkdir(_, _) => n.Dir?
    case WriteFile(exec, sec, nsec, _, chunks) =>
      n.File? && n.exec == exec && Content(st, chunks) == Some(n.bytes) && Stands(n.mtime, sec, nsec)
    case WriteLink(target, sec, nsec) => n.Link? && n.target == target && LinkStands(n.mtime, sec, nsec)
    case _ => true
  }

  /** Carrying out `m` on `n` will realise the input `m0`. */
  predicate Enough(st: Store, live: Option<Node>, m0: Mutation, m: Mutation) {
    match m
    case Skip => live.Some? && Realised(st, live.value, m0)
    case RestoreTime(sec, nsec) =>
      && m0.WriteFile? && m0.sec == sec && m0.nsec == nsec
      && live.Some? && live.value.File? && live.value.exec == m0.exec
        && Content(st, m0.chunks) == Some(live.value.bytes)
    case RestoreLinkTime(sec, nsec) =>
      && m0.WriteLink? && m0.sec == sec && m0.nsec == nsec
      && live.Some? && live.value.Link? && live.value.target == m0.target
    case _ => m == m0
  }

  /** The planner never decides on too little. */
  lemma PlanSound(st: Store, live: Option<Node>, m0: Mutation)
    requires IsInput(m0) && WellSized(m0)
    ensures var r := PlanOne(st, live, m0);
            r.Planned? ==>
              && Enough(st, live, m0, r.mutation)
              && (r.skipped <==> r.mutation.Skip?) && (r.touch <==> m0.Mkdir? && r.mutation.Skip?)
  {
    if m0.WriteFile? && live.Some? && live.value.File? {
      CompareSound(st, live.value.bytes, m0.chunks);
    }
  }

  /** What is already there, time and all, is skipped. */
  lemma PlanSkips(st: Store, n: Node, m0: Mutation)
    requires IsInput(m0) && WellSized(m0) && Realised(st, n, m0)
    requires !m0.Mkdir? ==> InRange(m0.sec, m0.nsec)
    ensures PlanOne(st, Some(n), m0) == Planned(Skip, m0.Mkdir?, true)
  {
    if m0.WriteFile? {
      CompareSound(st, n.bytes, m0.chunks);
      ContentSize(st, m0.chunks);
      StandsInRange(n.mtime, m0.sec, m0.nsec);
    } else if m0.WriteLink? {
      StandsInRange(n.mtime, m0.sec, m0.nsec);
    }
  }

  // ---- the desired tree --------------------------------------------------------------

  /** A manifest tree with its nodes unfolded. */
  datatype Entry = Entry(name: Name, exec: bool, sec: int, nsec: int, body: Body)
  datatype Body =
    | FileBody(size: nat, chunks: seq<(BlobId, nat)>)
    | DirBody(children: seq<Entry>)
    | LinkBody(target: string)

  /** Desired::of and as_mutation. */
  function MutationOf(e: Entry): Mutation {
    match e.body
    case FileBody(size, chunks) => WriteFile(e.exec, e.sec, e.nsec, size, chunks)
    case DirBody(_) => Mkdir(e.sec, e.nsec)
    case LinkBody(target) => WriteLink(target, e.sec, e.nsec)
  }

  /** flatten_tree: every entry before the entries below it. */
  function Flatten(prefix: Path, es: seq<Entry>): seq<Upsert>
    decreases es
  {
    if es == [] then []
    else
      var path := prefix + [es[0].name];
      [Upsert(path, MutationOf(es[0]))]
      + (if es[0].body.DirBody? then Flatten(path, es[0].body.children) else [])
      + Flatten(prefix, es[1..])
  }

  /** The names of `p` lead to `e`: through the directories of the tree, one name each. */
  ghost predicate LeadsTo(es: seq<Entry>, p: Path, e: Entry)
    decreases |p|
  {
    p != [] && exists i :: 0 <= i < |es| && Heads(es[i], p, e)
  }

  ghost predicate Heads(x: Entry, p: Path, e: Entry)
    requires p != []
    decreases |p|, 0
  {
    x.name == p[0] && if |p| == 1 then x == e else x.body.DirBody? && LeadsTo(x.body.children, p[1..], e)
  }

  /** The tree has an entry at `p`. */
  ghost predicate HasEntry(es: seq<Entry>, p: Path) { exists e :: LeadsTo(es, p, e) }

  /** ... which is a directory. */
  ghost predicate HasDir(es: seq<Entry>, p: Path) { exists e :: LeadsTo(es, p, e) && e.body.DirBody? }

  /** The node is what the entry says, its time aside: the kind, the exec bit and the bytes of a
      file, the target of a link. */
  ghost predicate SameAs(st: Store, n: Node, e: Entry) {
    match e.body
    case FileBody(_, chunks) => n.File? && n.exec == e.exec && Spells(st, chunks, n.bytes)
    case DirBody(_) => n.Dir?
    case LinkBody(target) => n.Link? && n.target == target
  }

  /** The node's time stands for the entry's. */
  predicate Timed(n: Node, sec: int, nsec: int) {
    if n.Link? then LinkStands(n.mtime, sec, nsec) else Stands(n.mtime, sec, nsec)
  }

  lemma LeadsCons(es: seq<Entry>, p: Path, e: Entry)
    requires es != []
    ensures LeadsTo(es, p, e) <==> p != [] && (Heads(es[0], p, e) || LeadsTo(es[1..], p, e))
  {
    hide Heads;
    if p != [] {
      if i :| 0 <= i < |es| && Heads(es[i], p, e) { if i > 0 { assert es[1..][i - 1] == es[i]; } }
      if i :| 0 <= i < |es[1..]| && Heads(es[1..][i], p, e) { assert es[i + 1] == es[1..][i]; }
    }
  }

  /** What is flattened is what names lead to: the upserts of a tree are its entries, each under
      the names that lead to it. */
  ghost predicate Flattened(prefix: Path, es: seq<Entry>, u: Upsert, e: Entry) {
    && |u.path| > |prefix| && prefix == u.path[..|prefix|]
    && LeadsTo(es, u.path[|prefix|..], e) && u.mutation == MutationOf(e)
  }

  lemma {:induction false} FlattenLeads(prefix: Path, es: seq<Entry>, u: Upsert) returns (e: Entry)
    requires u in Flatten(prefix, es)
    ensures Flattened(prefix, es, u, e)
    decreases es
  {
    hide MutationOf;
    var x, path := es[0], prefix + [es[0].name];
    if u == Upsert(path, MutationOf(x)) {
      e := x;
      assert u.path[|prefix|..] == [x.name];
      assert Heads(x, [x.name], x);
      LeadsCons(es, [x.name], x);
    } else if x.body.DirBody? && u in Flatten(path, x.body.children) {
      e := FlattenLeads(path, x.body.children, u);
      var rel := u.path[|prefix|..];
      assert rel[1..] == u.path[|path|..];
      assert rel[0] == u.path[|prefix|] == u.path[..|path|][|prefix|];
      assert u.path[..|prefix|] == u.path[..|path|][..|prefix|];
      assert Heads(x, rel, e);
      LeadsCons(es, rel, e);
    } else {
      e := FlattenLeads(prefix, es[1..], u);
      LeadsCons(es, u.path[|prefix|..], e);
    }
  }

  lemma {:induction false} LeadsFlatten(prefix: Path, es: seq<Entry>, p: Path, e: Entry)
    requires LeadsTo(es, p, e)
    ensures Upsert(prefix + p, MutationOf(e)) in Flatten(prefix, es)
    decreases es
  {
    hide MutationOf;
    var x, path := es[0], prefix + [es[0].name];
    LeadsCons(es, p, e);
    if Heads(x, p, e) {
      if |p| == 1 {
        assert prefix + p == path;
      } else {
        LeadsFlatten(path, x.body.children, p[1..], e);
        assert path + p[1..] == prefix + p;
      }
    } else {
      LeadsFlatten(prefix, es[1..], p, e);
    }
  }

  /** What node validation guarantees: sibling names are unique and sizes add up. */
  ghost predicate ValidEntries(es: seq<Entry>) {
    && (forall i, j :: 0 <= i < j < |es| ==> es[i].name != es[j].name)
    && (forall i :: 0 <= i < |es| ==>
        match es[i].body
        case FileBody(size, chunks) => size == SumOf(chunks)
        case DirBody(children) => ValidEntries(children)
        case LinkBody(_) => true)
  }

  /** A list of upserts that is a tree: no path twice, and every parent is a listed directory. */
  ghost predicate TreeShaped(us: seq<Upsert>, prefix: Path) {
    && (forall i, j :: 0 <= i < j < |us| ==> us[i].path != us[j].path)
    && (forall i :: 0 <= i < |us| ==> prefix < us[i].path && IsInput(us[i].mutation) && WellSized(us[i].mutation))
    && (forall i :: 0 <= i < |us| && Parent(us[i].path) != prefix ==> ListsDir(us, Parent(us[i].path)))
  }

  ghost predicate ListsDir(us: seq<Upsert>, p: Path) {
    exists k :: 0 <= k < |us| && us[k].path == p && us[k].mutation.Mkdir?
  }

  /** Every path of a flattened list goes through one of the sibling names. */
  lemma {:induction false} FlattenUnder(prefix: Path, es: seq<Entry>)
    ensures forall u :: u in Flatten(prefix, es) ==>
              |u.path| > |prefix| && prefix == u.path[..|prefix|] && exists e :: e in es && e.name == u.path[|prefix|]
    decreases es
  {
    if es != [] {
      var path := prefix + [es[0].name];
      assert es[0] in es;
      FlattenUnder(prefix, es[1..]);
      if es[0].body.DirBody? { FlattenUnder(path, es[0].body.children); }
      forall u | u in Flatten(prefix, es)
        ensures |u.path| > |prefix| && prefix == u.path[..|prefix|] && exists e :: e in es && e.name == u.path[|prefix|]
      {
        if u == Upsert(path, MutationOf(es[0])) {
        } else if es[0].body.DirBody? && u in Flatten(path, es[0].body.children) {
          assert u.path[..|path|] == path;
          assert u.path[|prefix|] == path[|prefix|] && u.path[..|prefix|] == path[..|prefix|];
        } else {
          assert u in Flatten(prefix, es[1..]);
        }
      }
    }
  }

  lemma {:induction false} FlattenTreeShaped(prefix: Path, es: seq<Entry>)
    requires ValidEntries(es)
    ensures TreeShaped(Flatten(prefix, es), prefix)
    decreases es
  {
    if es != [] {
      var e, rest := es[0], es[1..];
      var path := prefix + [e.name];
      assert ValidEntries(rest);
      FlattenTreeShaped(prefix, rest);
      FlattenUnder(prefix, rest);
      var head := [Upsert(path, MutationOf(e))];
      var sub := if e.body.DirBody? then Flatten(path, e.body.children) else [];
      if e.body.DirBody? {
        FlattenTreeShaped(path, e.body.children);
        FlattenUnder(path, e.body.children);
      }
      SubtreeJoins(prefix, path, head[0], sub);
      TreesJoin(prefix, e.name, head + sub, Flatten(prefix, rest), rest);
    }
  }

  lemma SubtreeJoins(prefix: Path, path: Path, d: Upsert, sub: seq<Upsert>)
    requires d.path == path && |path| == |prefix| + 1 && prefix < path && IsInput(d.mutation) && WellSized(d.mutation)
    requires TreeShaped(sub, path) && (sub != [] ==> d.mutation.Mkdir?)
    ensures TreeShaped([d] + sub, prefix)
  {
    hide IsInput, WellSized, ListsDir;
    var us := [d] + sub;
    forall i, j | 0 <= i < j < |us| ensures us[i].path != us[j].path {
      assert us[j] == sub[j - 1];
      if i > 0 { assert us[i] == sub[i - 1]; }
    }
    forall i | 0 <= i < |us| ensures prefix < us[i].path && IsInput(us[i].mutation) && WellSized(us[i].mutation) {
      if i > 0 { assert us[i] == sub[i - 1]; }
    }
    forall i | 0 <= i < |us| && Parent(us[i].path) != prefix
      ensures ListsDir(us, Parent(us[i].path))
    {
      SubtreeParent(prefix, path, d, sub, i);
    }
  }

  lemma SubtreeParent(prefix: Path, path: Path, d: Upsert, sub: seq<Upsert>, i: nat)
    requires d.path == path && |path| == |prefix| + 1 && prefix < path
    requires TreeShaped(sub, path) && (sub != [] ==> d.mutation.Mkdir?)
    requires i <= |sub| && Parent(([d] + sub)[i].path) != prefix
    ensures ListsDir([d] + sub, Parent(([d] + sub)[i].path))
  {
    hide TreeShaped;
    var us := [d] + sub;
    assert Parent(path) == prefix;
    assert i > 0 && us[i] == sub[i - 1];
    ListedBelow(path, sub, i - 1);
    if Parent(us[i].path) == path {
      assert us[0].path == path;
    } else {
      var k := ListedParent(path, sub, i - 1);
      assert us[k + 1] == sub[k];
    }
  }

  lemma ListedBelow(prefix: Path, us: seq<Upsert>, i: nat)
    requires TreeShaped(us, prefix) && i < |us|
    ensures prefix < us[i].path
  {
  }

  lemma ListedParent(prefix: Path, us: seq<Upsert>, i: nat) returns (k: nat)
    requires TreeShaped(us, prefix) && i < |us| && us[i].path != [] && Parent(us[i].path) != prefix
    ensures k < |us| && us[k].path == Parent(us[i].path) && us[k].mutation.Mkdir?
  {
    hide IsInput, WellSized;
    k :| 0 <= k < |us| && us[k].path == Parent(us[i].path) && us[k].mutation.Mkdir?;
  }

  lemma TreesJoin(prefix: Path, name: Name, a: seq<Upsert>, b: seq<Upsert>, rest: seq<Entry>)
    requires TreeShaped(a, prefix) && TreeShaped(b, prefix)
    requires forall u :: u in a ==> u.path[|prefix|] == name
    requires forall u :: u in b ==> exists e :: e in rest && e.name == u.path[|prefix|]
    requires forall e :: e in rest ==> e.name != name
    ensures TreeShaped(a + b, prefix)
  {
    hide IsInput, WellSized, ListsDir;
    var us := a + b;
    forall i, j | 0 <= i < j < |us| ensures us[i].path != us[j].path {
      if i < |a| <= j { assert us[i] in a && us[j] in b; }
    }
    forall i | 0 <= i < |us| && Parent(us[i].path) != prefix
      ensures ListsDir(us, Parent(us[i].path))
    {
      JoinedParent(prefix, a, b, i);
    }
  }

  lemma JoinedParent(prefix: Path, a: seq<Upsert>, b: seq<Upsert>, i: nat)
    requires TreeShaped(a, prefix) && TreeShaped(b, prefix)
    requires i < |a + b| && (a + b)[i].path != [] && Parent((a + b)[i].path) != prefix
    ensures ListsDir(a + b, Parent((a + b)[i].path))
  {
    hide TreeShaped;
    var us := a + b;
    if i < |a| {
      assert us[i] == a[i];
      var k := ListedParent(prefix, a, i);
      assert us[k] == a[k];
    } else {
      assert us[i] == b[i - |a|];
      var k := ListedParent(prefix, b, i - |a|);
      assert us[k + |a|] == b[k];
    }
  }
}
