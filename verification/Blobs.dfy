/** Content-addressed blobs: identifiers, the parsed shapes the engine looks at, and the
    store as a map from (kind, id) to bytes. Hashing, parsing and pack opening are library
    code; they enter as the function-valued fields of `Lib`. */
module Blobs {

  datatype Option<+T> = None | Some(value: T)

  newtype byte = x: int | 0 <= x < 256
  type Bytes = seq<byte>
  type BlobId = Bytes
  type FolderId = Bytes

  datatype Kind = DataChunk | TreeNode | Manifest | Polynomial

  datatype Payload =
    | FileOf(size: nat, chunks: seq<(BlobId, nat)>)
    | DirOf(child: BlobId)
    | LinkOf(target: string)

  datatype Lib = Lib(
    hash: Bytes -> BlobId,                           // BLAKE3
    root: Bytes -> Option<BlobId>,                   // parse_manifest, its root_tree_id
    node: Bytes -> Option<seq<Payload>>,             // parse_tree_node, its payloads
    pack: Bytes -> Option<map<(Kind, BlobId), Bytes>>, // open_pack, its readable blobs
    sorted: set<BlobId> -> seq<BlobId>)              // the iteration order of a BTreeSet

  /** What the engine relies on: ordered iteration visits each member once. */
  ghost predicate Lawful(lib: Lib) {
    forall s: set<BlobId> ::
      && (forall x :: x in s <==> x in lib.sorted(s))
      && Distinct(lib.sorted(s))
  }

  ghost predicate CollisionFree(lib: Lib) {
    forall x: Bytes, y: Bytes :: lib.hash(x) == lib.hash(y) ==> x == y
  }

  predicate Distinct<T(==)>(s: seq<T>) {
    forall i, j :: 0 <= i < j < |s| ==> s[i] != s[j]
  }

  datatype Store = Store(blobs: map<(Kind, BlobId), Bytes>, packs: map<BlobId, Bytes>)

  /** Every blob a store hands out is non-empty and hashes to its id. */
  ghost predicate Sound(lib: Lib, st: Store) {
    forall k :: k in st.blobs ==> st.blobs[k] != [] && lib.hash(st.blobs[k]) == k.1
  }

  predicate Has(st: Store, kind: Kind, id: BlobId) {
    (kind, id) in st.blobs
  }

  /** put_blob of verified bytes: an id already present keeps its bytes. */
  function Put(st: Store, kind: Kind, id: BlobId, bytes: Bytes): Store {
    if (kind, id) in st.blobs then st else st.(blobs := st.blobs[(kind, id) := bytes])
  }

  /** adopt_pack: the pack is kept, and its blobs that read back verified become readable. */
  function Adopt(lib: Lib, st: Store, name: BlobId, bytes: Bytes, inside: map<(Kind, BlobId), Bytes>): Store {
    Store(st.blobs + Gained(lib, st, inside), st.packs[name := bytes])
  }

  function Gained(lib: Lib, st: Store, inside: map<(Kind, BlobId), Bytes>): map<(Kind, BlobId), Bytes> {
    map k | k in inside && k !in st.blobs && inside[k] != [] && lib.hash(inside[k]) == k.1 :: inside[k]
  }

  /** `b` holds everything `a` holds, with the same bytes. */
  ghost predicate Extends(a: Store, b: Store) {
    forall k :: k in a.blobs ==> k in b.blobs && b.blobs[k] == a.blobs[k]
  }

  lemma ExtendsTrans(a: Store, b: Store, c: Store)
    requires Extends(a, b) && Extends(b, c)
    ensures Extends(a, c)
  {
  }

  // ---- what a manifest id stands for -------------------------------------------------

  function Children(ps: seq<Payload>): set<BlobId> {
    set p | p in ps && p.DirOf? :: p.child
  }

  function Chunks(ps: seq<Payload>): set<BlobId> {
    set p, c | p in ps && p.FileOf? && c in p.chunks :: c.0
  }

  function NodeAt(lib: Lib, st: Store, id: BlobId): Option<seq<Payload>> {
    if Has(st, TreeNode, id) then lib.node(st.blobs[(TreeNode, id)]) else None
  }

  function RootAt(lib: Lib, st: Store, manifest: BlobId): Option<BlobId> {
    if Has(st, Manifest, manifest) then lib.root(st.blobs[(Manifest, manifest)]) else None
  }

  /** `ids` is a set of held, parsing tree nodes that is closed under child links. */
  ghost predicate ClosedNodes(lib: Lib, st: Store, ids: set<BlobId>) {
    forall id :: id in ids ==> NodeAt(lib, st, id).Some? && Children(NodeAt(lib, st, id).value) <= ids
  }

  /** The store holds the manifest and every tree node reachable from its root. */
  ghost predicate HoldsTree(lib: Lib, st: Store, manifest: BlobId) {
    && RootAt(lib, st, manifest).Some?
    && exists ids :: RootAt(lib, st, manifest).value in ids && ClosedNodes(lib, st, ids)
  }

  /** ... and every chunk those nodes reference: the full closure of the manifest. */
  ghost predicate HoldsClosure(lib: Lib, st: Store, manifest: BlobId) {
    && RootAt(lib, st, manifest).Some?
    && exists ids ::
         && RootAt(lib, st, manifest).value in ids
         && ClosedNodes(lib, st, ids)
         && ChunksHeld(lib, st, ids)
  }

  ghost predicate ChunksHeld(lib: Lib, st: Store, ids: set<BlobId>)
    requires ClosedNodes(lib, st, ids)
  {
    forall id, c :: id in ids && c in Chunks(NodeAt(lib, st, id).value) ==> Has(st, DataChunk, c)
  }

  /** A chain of child links, root first. */
  ghost predicate IsPath(lib: Lib, st: Store, path: seq<BlobId>) {
    forall i :: 0 <= i < |path| - 1 ==>
      NodeAt(lib, st, path[i]).Some? && path[i + 1] in Children(NodeAt(lib, st, path[i]).value)
  }

  /** The closed-set form says what it should: whatever chain of child links leads away from
      the root, its end is a held node that parses, and its chunks are held. */
  lemma {:induction false} ClosureCoversPaths(lib: Lib, st: Store, manifest: BlobId, path: seq<BlobId>)
    requires HoldsClosure(lib, st, manifest)
    requires path != [] && path[0] == RootAt(lib, st, manifest).value
    requires IsPath(lib, st, path)
    ensures NodeAt(lib, st, path[|path| - 1]).Some?
    ensures forall c :: c in Chunks(NodeAt(lib, st, path[|path| - 1]).value) ==> Has(st, DataChunk, c)
  {
    var ids :| path[0] in ids && ClosedNodes(lib, st, ids) && ChunksHeld(lib, st, ids);
    PathStaysInside(lib, st, ids, path);
  }

  lemma {:induction false} PathStaysInside(lib: Lib, st: Store, ids: set<BlobId>, path: seq<BlobId>)
    requires ClosedNodes(lib, st, ids)
    requires path != [] && path[0] in ids && IsPath(lib, st, path)
    ensures path[|path| - 1] in ids
  {
    if |path| > 1 {
      var init := path[..|path| - 1];
      assert IsPath(lib, st, init) by {
        forall i | 0 <= i < |init| - 1
          ensures NodeAt(lib, st, init[i]).Some? && init[i + 1] in Children(NodeAt(lib, st, init[i]).value)
        {
          assert init[i] == path[i] && init[i + 1] == path[i + 1];
        }
      }
      PathStaysInside(lib, st, ids, init);
      assert path[|path| - 2] in ids;
    }
  }

  /** `path` leads from the manifest's root, by child links, to `id`. */
  ghost predicate ChainTo(lib: Lib, st: Store, manifest: BlobId, path: seq<BlobId>, id: BlobId) {
    && RootAt(lib, st, manifest).Some?
    && path != [] && path[0] == RootAt(lib, st, manifest).value && path[|path| - 1] == id
    && IsPath(lib, st, path)
  }

  ghost predicate Reachable(lib: Lib, st: Store, manifest: BlobId, id: BlobId) {
    exists path :: ChainTo(lib, st, manifest, path, id)
  }

  /** A file of the manifest's tree has the chunk `c`. */
  ghost predicate TreeNames(lib: Lib, st: Store, manifest: BlobId, c: BlobId) {
    exists id ::
      Reachable(lib, st, manifest, id) && NodeAt(lib, st, id).Some? && c in Chunks(NodeAt(lib, st, id).value)
  }

  lemma ChildReachable(lib: Lib, st: Store, manifest: BlobId, id: BlobId, child: BlobId)
    requires Reachable(lib, st, manifest, id) && NodeAt(lib, st, id).Some?
    requires child in Children(NodeAt(lib, st, id).value)
    ensures Reachable(lib, st, manifest, child)
  {
    var path :| ChainTo(lib, st, manifest, path, id);
    assert ChainTo(lib, st, manifest, path + [child], child);
  }

  /** A store with the tree has the closure exactly if it has every chunk the tree names. */
  lemma ClosureExactly(lib: Lib, st: Store, manifest: BlobId)
    requires HoldsTree(lib, st, manifest)
    ensures HoldsClosure(lib, st, manifest) <==> forall c :: TreeNames(lib, st, manifest, c) ==> Has(st, DataChunk, c)
  {
    var root := RootAt(lib, st, manifest).value;
    if HoldsClosure(lib, st, manifest) {
      forall c | TreeNames(lib, st, manifest, c) ensures Has(st, DataChunk, c) {
        var id :| Reachable(lib, st, manifest, id) && NodeAt(lib, st, id).Some?
          && c in Chunks(NodeAt(lib, st, id).value);
        var path :| ChainTo(lib, st, manifest, path, id);
        ClosureCoversPaths(lib, st, manifest, path);
      }
    }
    if forall c :: TreeNames(lib, st, manifest, c) ==> Has(st, DataChunk, c) {
      var all :| root in all && ClosedNodes(lib, st, all);
      var ids := set id | id in all && Reachable(lib, st, manifest, id);
      assert root in ids by { assert ChainTo(lib, st, manifest, [root], root); }
      forall id, child | id in ids && child in Children(NodeAt(lib, st, id).value) ensures child in ids {
        ChildReachable(lib, st, manifest, id, child);
      }
      assert ClosedNodes(lib, st, ids) && ChunksHeld(lib, st, ids);
    }
  }

  lemma ClosedNodesExtends(lib: Lib, a: Store, b: Store, ids: set<BlobId>)
    requires Extends(a, b) && ClosedNodes(lib, a, ids)
    ensures ClosedNodes(lib, b, ids)
    ensures forall id :: id in ids ==> NodeAt(lib, b, id) == NodeAt(lib, a, id)
  {
    forall id | id in ids ensures NodeAt(lib, b, id) == NodeAt(lib, a, id) {
      assert (TreeNode, id) in a.blobs;
    }
  }

  /** A store that only grows keeps every closure it had. */
  lemma ClosureExtends(lib: Lib, a: Store, b: Store, manifest: BlobId)
    requires Extends(a, b) && HoldsClosure(lib, a, manifest)
    ensures HoldsClosure(lib, b, manifest)
    ensures RootAt(lib, b, manifest) == RootAt(lib, a, manifest)
  {
    assert (Manifest, manifest) in a.blobs;
    var ids :| RootAt(lib, a, manifest).value in ids && ClosedNodes(lib, a, ids) && ChunksHeld(lib, a, ids);
    ClosedNodesExtends(lib, a, b, ids);
    assert ChunksHeld(lib, b, ids) by {
      forall id, c | id in ids && c in Chunks(NodeAt(lib, b, id).value) ensures Has(b, DataChunk, c) {
        assert c in Chunks(NodeAt(lib, a, id).value);
        assert Has(a, DataChunk, c);
      }
    }
  }
}
