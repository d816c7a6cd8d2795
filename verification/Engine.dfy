/** One side of a sync session, as a reactive machine: every state waits for one frame, and
    `React` says what the side does with it, up to the next point where it waits. The frames
    it returns are the ones it sends on the way. */
module Engine {
  import opened Blobs
  import opened Network
  import opened Protocol

  const SENTINEL: FolderId := [0, 0, 0, 0, 0, 0, 0, 0, 0, 0, 0, 0, 0, 0, 0, 0]
  const ZERO: BlobId := SENTINEL + SENTINEL
  const BUDGET := 262_144
  const MAX_PACK_FRAMES := 1_024
  const MAX_ROWS := 2_048
  const FLUSH_BYTES := 8 * 1024 * 1024

  datatype Row = Row(kind: Kind, id: BlobId, pack: BlobId, off: nat, len: nat)
  type Item = (Kind, BlobId, Bytes)

  datatype Frame =
    | Offer(folder: FolderId, manifest: BlobId)
    | Advert(rows: seq<Row>, more: bool)
    | AskItems(folder: FolderId, items: seq<(Kind, BlobId)>)
    | AskPacks(folder: FolderId, packs: seq<BlobId>)
    | Items(batch: seq<Item>)
    | PackFile(name: BlobId, bytes: Bytes)
    | Bye(reason: Reason)
    | Garbled                                   // unknown type, or a payload that does not parse

  const TERMINATOR: Frame := Items([])
  const END_MARKER: Frame := AskItems(SENTINEL, [])

  /** What the frame parsers let through. */
  predicate InCaps(f: Frame) {
    match f
    case AskItems(_, items) => |items| <= MAX_ITEMS
    case AskPacks(_, packs) => |packs| <= MAX_PACKS
    case Items(batch) => |batch| <= MAX_ITEMS
    case PackFile(_, bytes) => bytes != []
    case Garbled => false
    case _ => true
  }

  datatype Err = Io | Violation | Missing | Limit | FolderUnknown | ByeReceived

  // ---- local state -------------------------------------------------------------------

  datatype Role = Initiator | Responder
  datatype Granularity = Auto | ItemsOnly | PacksOnly

  /** FolderState together with its FolderOutcome. */
  datatype Folder = Folder(
    id: FolderId, rows: seq<Row>, current: Option<BlobId>,
    store: Store, after: Option<BlobId>, remote: Option<BlobId>, agreed: Option<BlobId>, rejections: nat)

  type PeerFolders = map<FolderId, Option<BlobId>>
  type AdvertMap = map<BlobId, Row>
  type PeerAdverts = map<FolderId, AdvertMap>

  datatype Await = Echo(i: nat) | Announcement
  datatype Exchange = Exchange(
    await: Await, pending: Option<(FolderId, BlobId)>, rows: nat, table: AdvertMap,
    pf: PeerFolders, pa: PeerAdverts)

  /** The breadth-first walk: ids ever enqueued, chunk ids seen. */
  datatype Walk = Walk(enqueued: set<BlobId>, chunks: set<BlobId>)
  datatype Goal =
    | ForManifest
    | ForNodes(level: seq<BlobId>, walk: Walk, rounds: nat)
    | ForChunks(walk: Walk)

  datatype Pull =
    | Fetch(goal: Goal, kind: Kind, outstanding: seq<BlobId>, unsent: seq<BlobId>,
            got: set<BlobId>, batches: nat, left: nat)
    | PackFetch(walk: Walk, wanted: seq<BlobId>, unsent: seq<BlobId>, satisfied: set<BlobId>, frames: nat)

  datatype Stage = PullStage(idxs: seq<nat>) | ServeStage

  /** A pull stage in progress: the folders left (the first is under way), its target, what
      the peer offered, and the stages that follow. */
  datatype PullCtx = PullCtx(idxs: seq<nat>, target: BlobId, pf: PeerFolders, pa: PeerAdverts, plan: seq<Stage>)

  datatype Phase =
    | Offering(first: bool, x: Exchange)
    | Pulling(c: PullCtx, pull: Pull)
    | Serving(pf: PeerFolders, pa: PeerAdverts, plan: seq<Stage>)
    | Closing
    | Finished
    | Failed(e: Err)

  datatype Side = Side(role: Role, gran: Granularity, retries: nat, folders: seq<Folder>)
  datatype Engine = Engine(self: Side, phase: Phase)

  predicate Waiting(e: Engine) {
    !e.phase.Finished? && !e.phase.Failed?
  }

  type Reaction = (Engine, seq<Frame>)

  /** abort: the peer is told why, unless it closed first or the transport is gone. */
  function Fail(s: Side, err: Err): Reaction {
    (Engine(s, Failed(err)),
     match err
     case ByeReceived => []
     case Io => []
     case Violation => [Bye(ProtocolViolation)]
     case Limit => [Bye(ResourceLimit)]
     case _ => [Bye(Internal)])
  }

  /** The first folder with this id. */
  function Find(fs: seq<Folder>, id: FolderId): (r: Option<nat>)
    ensures r.Some? ==> r.value < |fs| && fs[r.value].id == id && forall j :: 0 <= j < r.value ==> fs[j].id != id
    ensures r.None? ==> forall j :: 0 <= j < |fs| ==> fs[j].id != id
  {
    if fs == [] then None
    else if fs[0].id == id then Some(0)
    else match Find(fs[1..], id) case None => None case Some(i) => Some(i + 1)
  }

  // ---- exchange_offers ---------------------------------------------------------------

  function Effective(fs: seq<Folder>, id: FolderId): Option<BlobId> {
    match Find(fs, id)
    case None => None
    case Some(i) => if fs[i].after.Some? then fs[i].after else fs[i].current
  }

  function OrZero(m: Option<BlobId>): BlobId {
    if m.Some? then m.value else ZERO
  }

  function NonZero(m: BlobId): Option<BlobId> {
    if m == ZERO then None else Some(m)
  }

  function AdvertFrames(rows: seq<Row>): seq<Frame> {
    if |rows| <= MAX_ROWS then [Advert(rows, false)]
    else [Advert(rows[..MAX_ROWS], true)] + AdvertFrames(rows[MAX_ROWS..])
  }

  function RowsOf(fs: seq<Folder>, id: FolderId): seq<Row> {
    match Find(fs, id) case None => [] case Some(i) => fs[i].rows
  }

  function OfferFrames(fs: seq<Folder>, id: FolderId, rows: seq<Row>, adverts: bool): seq<Frame> {
    [Offer(id, OrZero(Effective(fs, id)))] + if adverts then AdvertFrames(rows) else []
  }

  function InsertRows(t: AdvertMap, rows: seq<Row>): AdvertMap
    decreases |rows|
  {
    if rows == [] then t else InsertRows(t[rows[0].id := rows[0]], rows[1..])
  }

  datatype ExchangeStep =
    | Going(x: Exchange, out: seq<Frame>)
    | Agreed(pf: PeerFolders, pa: PeerAdverts, out: seq<Frame>)
    | Broken(e: Err)

  /** Announce the next folder from `i` on, or send the sentinel. The responder skips folders
      the initiator has already announced, and is done once its sentinel is out. */
  function AnnounceFrom(role: Role, fs: seq<Folder>, adverts: bool, i: nat, pf: PeerFolders,
                        pa: PeerAdverts): ExchangeStep
    requires i <= |fs|
    decreases |fs| - i
  {
    if i == |fs| then
      if role.Initiator? then Going(Exchange(Announcement, None, 0, map[], pf, pa), [Offer(SENTINEL, ZERO)])
      else Agreed(pf, pa, [Offer(SENTINEL, ZERO)])
    else if role.Responder? && fs[i].id in pf then AnnounceFrom(role, fs, adverts, i + 1, pf, pa)
    else Going(Exchange(Echo(i), None, 0, map[], pf, pa), OfferFrames(fs, fs[i].id, fs[i].rows, adverts))
  }

  function StartExchange(role: Role, fs: seq<Folder>, adverts: bool): ExchangeStep {
    if role.Initiator? then AnnounceFrom(role, fs, adverts, 0, map[], map[])
    else Going(Exchange(Announcement, None, 0, map[], map[], map[]), [])
  }

  /** An offer and its adverts are in: remember them, then answer or go on announcing. */
  function Consume(role: Role, fs: seq<Folder>, adverts: bool, x: Exchange, offer: (FolderId, BlobId),
                   table: AdvertMap): ExchangeStep {
    var pf := x.pf[offer.0 := NonZero(offer.1)];
    var pa := if adverts then x.pa[offer.0 := table] else x.pa;
    match x.await
    case Echo(i) => if i < |fs| then AnnounceFrom(role, fs, adverts, i + 1, pf, pa) else Broken(Violation)
    case Announcement =>
      Going(Exchange(Announcement, None, 0, map[], pf, pa), OfferFrames(fs, offer.0, RowsOf(fs, offer.0), adverts))
  }

  function ExchangeReact(role: Role, fs: seq<Folder>, adverts: bool, x: Exchange, f: Frame): ExchangeStep {
    match x.pending
    case None =>
      if !f.Offer? then Broken(Violation)
      else if x.await.Announcement? && f.folder == SENTINEL then
        if role.Initiator? then Agreed(x.pf, x.pa, []) else AnnounceFrom(role, fs, adverts, 0, x.pf, x.pa)
      else if adverts then Going(x.(pending := Some((f.folder, f.manifest)), rows := 0, table := map[]), [])
      else Consume(role, fs, adverts, x, (f.folder, f.manifest), map[])
    case Some(offer) =>
      if !f.Advert? then Broken(Violation)
      else if x.rows + |f.rows| > BUDGET then Broken(Limit)
      else
        var table := InsertRows(x.table, f.rows);
        if f.more then Going(x.(rows := x.rows + |f.rows|, table := table), [])
        else Consume(role, fs, adverts, x, offer, table)
  }

  // ---- serving -----------------------------------------------------------------------

  function ServeLoop(st: Store, asked: seq<(Kind, BlobId)>, acc: seq<Item>, size: nat): seq<Frame>
    decreases |asked|
  {
    if asked == [] then (if acc != [] then [Items(acc)] else []) + [TERMINATOR]
    else
      var k := asked[0];
      var held := k in st.blobs;
      var acc' := if held then acc + [(k.0, k.1, st.blobs[k])] else acc;
      var size' := if held then size + |st.blobs[k]| else size;
      if |acc'| >= MAX_ITEMS || size' >= FLUSH_BYTES then [Items(acc')] + ServeLoop(st, asked[1..], [], 0)
      else ServeLoop(st, asked[1..], acc', size')
  }

  function ServeItems(st: Store, asked: seq<(Kind, BlobId)>): seq<Frame> {
    ServeLoop(st, asked, [], 0)
  }

  function ServePacks(lib: Lib, st: Store, names: seq<BlobId>): seq<Frame> {
    if names == [] then [TERMINATOR]
    else
      (if names[0] in st.packs && lib.hash(st.packs[names[0]]) == names[0]
       then [PackFile(names[0], st.packs[names[0]])] else [])
      + ServePacks(lib, st, names[1..])
  }

  // ---- pulling one folder ------------------------------------------------------------

  datatype PullStep =
    | Ask(pull: Pull, st: Store, rejections: nat, out: seq<Frame>)
    | Ended(st: Store, rejections: nat)
    | Stop(e: Err)

  /** What a pull knows besides its progress. */
  datatype Job = Job(folder: FolderId, target: BlobId, adverts: AdvertMap, gran: Granularity, retries: nat)

  function Take(s: seq<BlobId>, n: nat): seq<BlobId> { if |s| <= n then s else s[..n] }
  function Drop(s: seq<BlobId>, n: nat): seq<BlobId> { if |s| <= n then [] else s[n..] }

  function Keyed(kind: Kind, ids: seq<BlobId>): seq<(Kind, BlobId)> {
    seq(|ids|, i requires 0 <= i < |ids| => (kind, ids[i]))
  }

  /** One attempt at the outstanding ids: the first group of at most 512 goes out. */
  function Request(j: Job, goal: Goal, kind: Kind, ids: seq<BlobId>, left: nat, st: Store, rej: nat): PullStep {
    Ask(Fetch(goal, kind, ids, Drop(ids, MAX_ITEMS), {}, 0, left), st, rej,
        [AskItems(j.folder, Keyed(kind, Take(ids, MAX_ITEMS)))])
  }

  function NextAttempt(lib: Lib, j: Job, goal: Goal, kind: Kind, ids: seq<BlobId>, left: nat, st: Store,
                       rej: nat): PullStep {
    if ids == [] then FetchEnded(lib, j, goal, st, rej)
    else if left == 0 then Stop(Missing)
    else Request(j, goal, kind, ids, left, st, rej)
  }

  function StartPull(lib: Lib, j: Job, st: Store, rej: nat): PullStep {
    Request(j, ForManifest, Manifest, [j.target], j.retries + 1, st, rej)
  }

  function FetchEnded(lib: Lib, j: Job, goal: Goal, st: Store, rej: nat): PullStep {
    match goal
    case ForManifest =>
      if !Has(st, Manifest, j.target) then Stop(Io)
      else (match lib.root(st.blobs[(Manifest, j.target)])
            case None => Stop(Violation)
            case Some(root) => NextLevel(lib, j, [root], Walk({root}, {}), 0, st, rej))
    case ForNodes(level, walk, rounds) =>
      (match ScanLevel(lib, st, level, [], walk)
       case ScanErr(e) => Stop(e)
       case Scanned(queue, walk') => NextLevel(lib, j, queue, walk', rounds, st, rej))
    case ForChunks(_) => Ended(st, rej)
  }

  function NextLevel(lib: Lib, j: Job, queue: seq<BlobId>, walk: Walk, rounds: nat, st: Store, rej: nat): PullStep {
    if queue == [] then StartPacks(lib, j, walk, st, rej)
    else if rounds + 1 > BUDGET then Stop(Missing)
    else Request(j, ForNodes(queue, walk, rounds + 1), TreeNode, queue, j.retries + 1, st, rej)
  }

  datatype Scan = Scanned(queue: seq<BlobId>, walk: Walk) | ScanErr(e: Err)

  /** Visit the fetched nodes of one level; new child ids join the queue. */
  function ScanLevel(lib: Lib, st: Store, level: seq<BlobId>, queue: seq<BlobId>, walk: Walk): Scan {
    if level == [] then Scanned(queue, walk)
    else if !Has(st, TreeNode, level[0]) then ScanErr(Io)
    else match lib.node(st.blobs[(TreeNode, level[0])])
         case None => ScanErr(Violation)
         case Some(ps) =>
           var (queue', walk') := ScanNode(ps, queue, walk);
           ScanLevel(lib, st, level[1..], queue', walk')
  }

  function ChunkIds(chunks: seq<(BlobId, nat)>): set<BlobId> {
    set c | c in chunks :: c.0
  }

  function ScanNode(ps: seq<Payload>, queue: seq<BlobId>, walk: Walk): (seq<BlobId>, Walk) {
    if ps == [] then (queue, walk)
    else match ps[0]
         case DirOf(child) =>
           if child in walk.enqueued then ScanNode(ps[1..], queue, walk)
           else ScanNode(ps[1..], queue + [child], walk.(enqueued := walk.enqueued + {child}))
         case FileOf(_, chunks) =>
           ScanNode(ps[1..], queue, walk.(chunks := walk.chunks + ChunkIds(chunks)))
         case LinkOf(_) => ScanNode(ps[1..], queue, walk)
  }

  function Lacking(st: Store, ids: seq<BlobId>): seq<BlobId> {
    if ids == [] then []
    else (if Has(st, DataChunk, ids[0]) then [] else [ids[0]]) + Lacking(st, ids[1..])
  }

  function Without(ids: seq<BlobId>, gone: set<BlobId>): seq<BlobId> {
    if ids == [] then []
    else (if ids[0] in gone then [] else [ids[0]]) + Without(ids[1..], gone)
  }

  /** The packs that hold at least two wanted chunks (one, under PacksOnly). */
  function PacksWorthAsking(lib: Lib, j: Job, wanted: seq<BlobId>): seq<BlobId> {
    lib.sorted(Enough(j, wanted, if j.gran.Auto? then 2 else 1))
  }

  function Enough(j: Job, wanted: seq<BlobId>, least: nat): set<BlobId> {
    set id | id in wanted && id in j.adverts && InPack(j, wanted, j.adverts[id].pack) >= least :: j.adverts[id].pack
  }

  function InPack(j: Job, wanted: seq<BlobId>, pack: BlobId): nat {
    if wanted == [] then 0
    else (if wanted[0] in j.adverts && j.adverts[wanted[0]].pack == pack then 1 else 0) + InPack(j, wanted[1..], pack)
  }

  function StartPacks(lib: Lib, j: Job, walk: Walk, st: Store, rej: nat): PullStep {
    var wanted := Lacking(st, lib.sorted(walk.chunks));
    if j.gran.ItemsOnly? || wanted == [] then AfterPacks(lib, j, walk, wanted, {}, st, rej)
    else NextPacks(lib, j, walk, wanted, PacksWorthAsking(lib, j, wanted), {}, st, rej)
  }

  function NextPacks(lib: Lib, j: Job, walk: Walk, wanted: seq<BlobId>, packs: seq<BlobId>, satisfied: set<BlobId>,
                     st: Store, rej: nat): PullStep {
    if packs == [] then AfterPacks(lib, j, walk, wanted, satisfied, st, rej)
    else Ask(PackFetch(walk, wanted, Drop(packs, MAX_PACKS), satisfied, 0), st, rej,
             [AskPacks(j.folder, Take(packs, MAX_PACKS))])
  }

  function AfterPacks(lib: Lib, j: Job, walk: Walk, wanted: seq<BlobId>, satisfied: set<BlobId>, st: Store,
                      rej: nat): PullStep {
    var leftover := Without(wanted, satisfied);
    if leftover == [] then Ended(st, rej)
    else Request(j, ForChunks(walk), DataChunk, leftover, j.retries + 1, st, rej)
  }

  datatype Intake = Intake(st: Store, got: set<BlobId>, rejections: nat) | EmptyBlob

  /** A batch of received items: only blobs that hash to their id are stored, under the kind
      the peer put on them. */
  function TakeIn(lib: Lib, batch: seq<Item>, st: Store, got: set<BlobId>, rej: nat): Intake {
    if batch == [] then Intake(st, got, rej)
    else
      var (kind, id, bytes) := batch[0];
      if lib.hash(bytes) != id then TakeIn(lib, batch[1..], st, got, rej + 1)
      else if bytes == [] then EmptyBlob
      else TakeIn(lib, batch[1..], Put(st, kind, id, bytes), got + {id}, rej)
  }

  /** Wanted chunks the adverts place in this pack and that are now readable. */
  function Arrived(j: Job, wanted: seq<BlobId>, pack: BlobId, st: Store): set<BlobId> {
    set id | id in wanted && id in j.adverts && j.adverts[id].pack == pack && Has(st, DataChunk, id)
  }

  function PullReact(lib: Lib, j: Job, p: Pull, st: Store, rej: nat, f: Frame): PullStep {
    match p
    case Fetch(goal, kind, outstanding, unsent, got, batches, left) =>
      if !f.Items? then Stop(Violation)
      else if f.batch == [] then
        if unsent != [] then
          Ask(p.(unsent := Drop(unsent, MAX_ITEMS), batches := 0), st, rej,
              [AskItems(j.folder, Keyed(kind, Take(unsent, MAX_ITEMS)))])
        else NextAttempt(lib, j, goal, kind, Without(outstanding, got), if left == 0 then 0 else left - 1, st, rej)
      else
        (match TakeIn(lib, f.batch, st, got, rej)
         case EmptyBlob => Stop(Io)
         case Intake(st', got', rej') =>
           if batches + 1 >= BUDGET then Stop(Limit)
           else Ask(p.(got := got', batches := batches + 1), st', rej', []))
    case PackFetch(walk, wanted, unsent, satisfied, frames) =>
      if f.Items? then
        if f.batch == [] then NextPacks(lib, j, walk, wanted, unsent, satisfied, st, rej) else Stop(Violation)
      else if !f.PackFile? then Stop(Violation)
      else if lib.hash(f.bytes) != f.name then
        if frames + 1 >= MAX_PACK_FRAMES then Stop(Limit) else Ask(p.(frames := frames + 1), st, rej + 1, [])
      else
        match lib.pack(f.bytes)
        case None => Stop(Io)
        case Some(inside) =>
          var st' := Adopt(lib, st, f.name, f.bytes, inside);
          var now := Arrived(j, wanted, f.name, st');
          if frames + 1 >= MAX_PACK_FRAMES then Stop(Limit)
          else Ask(p.(satisfied := satisfied + now, frames := frames + 1), st', rej, [])
  }

  /** A frame as it comes off the wire: one that does not parse ends the pull. */
  function PullTake(lib: Lib, j: Job, p: Pull, st: Store, rej: nat, f: Frame): PullStep {
    if !InCaps(f) then Stop(Violation) else PullReact(lib, j, p, st, rej, f)
  }

  // ---- the whole session -------------------------------------------------------------

  predicate PullNeeded(mine: Option<BlobId>, theirs: Option<BlobId>) {
    theirs.Some? && mine != theirs
  }

  function StageFrom(fs: seq<Folder>, pf: PeerFolders, mineIsThatSide: bool, i: nat): seq<nat>
    requires i <= |fs|
    decreases |fs| - i
  {
    if i == |fs| then []
    else
      (if Wanted(fs[i], pf, mineIsThatSide) then [i] else []) + StageFrom(fs, pf, mineIsThatSide, i + 1)
  }

  predicate Wanted(f: Folder, pf: PeerFolders, mineIsThatSide: bool) {
    f.id in pf && if mineIsThatSide then PullNeeded(f.current, pf[f.id]) else PullNeeded(pf[f.id], f.current)
  }

  /** stage_needed: the folders `whose` side has to pull, as this side sees it. */
  function StageNeeded(fs: seq<Folder>, pf: PeerFolders, whose: Role, mine: Role): seq<nat> {
    StageFrom(fs, pf, whose == mine, 0)
  }

  function PullPart(idxs: seq<nat>): seq<Stage> { if idxs == [] then [] else [PullStage(idxs)] }
  function ServePart(idxs: seq<nat>): seq<Stage> { if idxs == [] then [] else [ServeStage] }

  function Plan(role: Role, fs: seq<Folder>, pf: PeerFolders): seq<Stage> {
    var mine := if role.Initiator? then StageNeeded(fs, pf, Initiator, role) else StageNeeded(fs, pf, Responder, role);
    var peers := if role.Initiator? then StageNeeded(fs, pf, Responder, role) else StageNeeded(fs, pf, Initiator, role);
    if role.Initiator? then PullPart(mine) + ServePart(peers) else ServePart(peers) + PullPart(mine)
  }

  function NoteRemotes(fs: seq<Folder>, pf: PeerFolders): seq<Folder> {
    seq(|fs|, i requires 0 <= i < |fs| => fs[i].(remote := if fs[i].id in pf then pf[fs[i].id] else None))
  }

  /** After the second exchange: equal manifests on both sides are recorded as agreed. */
  function Settle(f: Folder, pf: PeerFolders): Folder {
    var remote := if f.id in pf then pf[f.id] else f.remote;
    var same := f.after.Some? && remote.Some? && f.after == remote;
    f.(remote := remote, agreed := if same then f.after else f.agreed)
  }

  function SettleAll(fs: seq<Folder>, pf: PeerFolders): seq<Folder> {
    seq(|fs|, i requires 0 <= i < |fs| => Settle(fs[i], pf))
  }

  /** Enter an exchange, or continue after it has moved. */
  function Offered(lib: Lib, s: Side, first: bool, step: ExchangeStep): Reaction {
    match step
    case Broken(err) => Fail(s, err)
    case Going(x, out) => (Engine(s, Offering(first, x)), out)
    case Agreed(pf, pa, out) => Prepend(out, ExchangeDone(lib, s, first, pf, pa))
  }

  function ExchangeDone(lib: Lib, s: Side, first: bool, pf: PeerFolders, pa: PeerAdverts): Reaction {
    if first then
      var s' := s.(folders := NoteRemotes(s.folders, pf));
      NextStage(lib, s', pf, pa, Plan(s.role, s.folders, pf))
    else (Engine(s.(folders := SettleAll(s.folders, pf)), Closing), if s.role.Initiator? then [Bye(Normal)] else [])
  }

  function Begin(lib: Lib, s: Side, first: bool): Reaction {
    Offered(lib, s, first, StartExchange(s.role, s.folders, first))
  }

  /** Do what is left of the plan; after it, the second exchange. */
  function NextStage(lib: Lib, s: Side, pf: PeerFolders, pa: PeerAdverts, plan: seq<Stage>): Reaction
    decreases |plan|, 1
  {
    if plan == [] then
      match StartExchange(s.role, s.folders, false)
      case Going(x, out) => (Engine(s, Offering(false, x)), out)
      case _ => Fail(s, Violation)
    else match plan[0]
         case ServeStage => (Engine(s, Serving(pf, pa, plan[1..])), [])
         case PullStage(idxs) => NextFolder(lib, s, pf, pa, idxs, plan[1..])
  }

  function JobOf(s: Side, idx: nat, target: BlobId, pa: PeerAdverts): Job
    requires idx < |s.folders|
  {
    var id := s.folders[idx].id;
    Job(id, target, if id in pa then pa[id] else map[], s.gran, s.retries)
  }

  /** Pull the first folder of `idxs`; when none is left the end marker closes the stage. */
  function NextFolder(lib: Lib, s: Side, pf: PeerFolders, pa: PeerAdverts, idxs: seq<nat>, plan: seq<Stage>): Reaction
    decreases |plan|, 2, |idxs|
  {
    if idxs == [] then Prepend([END_MARKER], NextStage(lib, s, pf, pa, plan))
    else if idxs[0] >= |s.folders| then Fail(s, Violation)
    else
      var f := s.folders[idxs[0]];
      if f.id !in pf || pf[f.id].None? then NextFolder(lib, s, pf, pa, idxs[1..], plan)
      else
        var target := pf[f.id].value;
        Resume(lib, s, PullCtx(idxs, target, pf, pa, plan), StartPull(lib, JobOf(s, idxs[0], target, pa), f.store,
                                                                      f.rejections))
  }

  /** Fold one step of the pull in progress back into the side. */
  function Resume(lib: Lib, s: Side, c: PullCtx, step: PullStep): Reaction
    requires c.idxs != [] && c.idxs[0] < |s.folders|
    decreases |c.plan|, 2, |c.idxs|, 0
  {
    var i := c.idxs[0];
    var f := s.folders[i];
    match step
    case Stop(err) => Fail(s, err)
    case Ask(p, st, rej, out) =>
      (Engine(s.(folders := s.folders[i := f.(store := st, rejections := rej)]), Pulling(c, p)), out)
    case Ended(st, rej) =>
      var f' := f.(store := st, rejections := rej, after := if f.current.None? then Some(c.target) else f.after);
      NextFolder(lib, s.(folders := s.folders[i := f']), c.pf, c.pa, c.idxs[1..], c.plan)
  }

  function React(lib: Lib, e: Engine, f: Frame): Reaction {
    if !InCaps(f) then Fail(e.self, Violation)
    else match e.phase
         case Offering(first, x) => Offered(lib, e.self, first, ExchangeReact(e.self.role, e.self.folders, first, x, f))
         case Pulling(c, p) => PullingReact(lib, e.self, c, p, f)
         case Serving(pf, pa, plan) => ServingReact(lib, e.self, pf, pa, plan, f)
         case Closing =>
           if !f.Bye? then Fail(e.self, Violation)
           else if !f.reason.Normal? then Fail(e.self, ByeReceived)
           else (Engine(e.self, Finished), if e.self.role.Responder? then [Bye(Normal)] else [])
         case _ => (e, [])
  }

  function PullingReact(lib: Lib, s: Side, c: PullCtx, p: Pull, f: Frame): Reaction {
    if c.idxs == [] || c.idxs[0] >= |s.folders| then Fail(s, Violation)
    else
      var g := s.folders[c.idxs[0]];
      Resume(lib, s, c, PullReact(lib, JobOf(s, c.idxs[0], c.target, c.pa), p, g.store, g.rejections, f))
  }

  function ServingReact(lib: Lib, s: Side, pf: PeerFolders, pa: PeerAdverts, plan: seq<Stage>, f: Frame): Reaction {
    match f
    case AskItems(id, items) =>
      if items == [] then NextStage(lib, s, pf, pa, plan)
      else (match Find(s.folders, id)
            case None => Fail(s, FolderUnknown)
            case Some(i) => (Engine(s, Serving(pf, pa, plan)), ServeItems(s.folders[i].store, items)))
    case AskPacks(id, names) =>
      (match Find(s.folders, id)
       case None => Fail(s, FolderUnknown)
       case Some(i) => (Engine(s, Serving(pf, pa, plan)), ServePacks(lib, s.folders[i].store, names)))
    case _ => Fail(s, Violation)
  }
}
