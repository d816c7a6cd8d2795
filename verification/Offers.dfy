/** The offer exchange, run by both sides at once. */
module Offers {
  import opened Blobs
  import opened Network
  import opened Engine

  function M(lib: Lib): Machine<Engine, Frame> {
    Machine((e, f) => React(lib, e, f), e => Waiting(e))
  }

  function Ids(fs: seq<Folder>): set<FolderId> { set f | f in fs :: f.id }

  /** What a configuration promises: folder ids are distinct and not the sentinel, no folder
      stands at the zero manifest, and no index is larger than the receiver's budget. */
  ghost predicate WellFormed(fs: seq<Folder>) {
    && (forall i, j :: 0 <= i < j < |fs| ==> fs[i].id != fs[j].id)
    && (forall i :: 0 <= i < |fs| ==>
          fs[i].id != SENTINEL && fs[i].after != Some(ZERO) && fs[i].current != Some(ZERO) && |fs[i].rows| <= BUDGET)
  }

  /** What `peer` says about each of these folders. */
  function Told(ids: set<FolderId>, peer: seq<Folder>): PeerFolders {
    map id | id in ids :: Effective(peer, id)
  }

  function ToldRows(ids: set<FolderId>, peer: seq<Folder>, adverts: bool): PeerAdverts {
    if adverts then map id | id in ids :: InsertRows(map[], RowsOf(peer, id)) else map[]
  }

  predicate NoRow(rows: seq<Row>, id: BlobId) { forall i :: 0 <= i < |rows| ==> rows[i].id != id }

  lemma {:induction false} InsertNone(t: AdvertMap, rows: seq<Row>, id: BlobId)
    requires NoRow(rows, id)
    ensures var r := InsertRows(t, rows); (id in r <==> id in t) && (id in t ==> r[id] == t[id])
    decreases |rows|
  {
    if rows != [] { InsertNone(t[rows[0].id := rows[0]], rows[1..], id); }
  }

  /** Of the rows for an id the last one counts. */
  lemma {:induction false} InsertLast(t: AdvertMap, rows: seq<Row>, id: BlobId, i: nat)
    requires i < |rows| && rows[i].id == id && NoRow(rows[i + 1..], id)
    ensures id in InsertRows(t, rows) && InsertRows(t, rows)[id] == rows[i]
    decreases |rows|
  {
    hide NoRow;
    var rest, t' := rows[1..], t[rows[0].id := rows[0]];
    if i == 0 { InsertNone(t', rest, id); }
    else {
      assert rest[i..] == rows[i + 1..];
      InsertLast(t', rest, id, i - 1);
    }
  }

  lemma {:induction false} InsertRowsAppend(t: AdvertMap, r: seq<Row>, q: seq<Row>)
    ensures InsertRows(t, r + q) == InsertRows(InsertRows(t, r), q)
    decreases |r|
  {
    if r == [] {
      assert r + q == q;
    } else {
      assert (r + q)[1..] == r[1..] + q;
      InsertRowsAppend(t[r[0].id := r[0]], r[1..], q);
    }
  }

  /** The advert frames of one folder arrive after its offer. */
  lemma {:induction false} AdvertsArrive(lib: Lib, s: Side, first: bool, x: Exchange, rows: seq<Row>)
    requires x.pending.Some? && x.rows + |rows| <= BUDGET
    ensures Accepts(M(lib), Engine(s, Offering(first, x)), AdvertFrames(rows))
    ensures Feed(M(lib), Engine(s, Offering(first, x)), AdvertFrames(rows))
         == Offered(lib, s, first, Consume(s.role, s.folders, first, x, x.pending.value, InsertRows(x.table, rows)))
    decreases |rows|
  {
    var e := Engine(s, Offering(first, x));
    var fs := AdvertFrames(rows);
    if |rows| <= MAX_ROWS {
      FeedOne(lib, e, fs[0]);
    } else {
      var x' := x.(rows := x.rows + MAX_ROWS, table := InsertRows(x.table, rows[..MAX_ROWS]));
      assert React(lib, e, fs[0]) == (Engine(s, Offering(first, x')), []);
      assert fs[1..] == AdvertFrames(rows[MAX_ROWS..]);
      AdvertsArrive(lib, s, first, x', rows[MAX_ROWS..]);
      assert rows[..MAX_ROWS] + rows[MAX_ROWS..] == rows;
      InsertRowsAppend(x.table, rows[..MAX_ROWS], rows[MAX_ROWS..]);
      ConsumeIgnoresTable(s.role, s.folders, first, x, x', x.pending.value, InsertRows(x.table, rows));
      var r := Feed(M(lib), Engine(s, Offering(first, x')), fs[1..]);
      assert [] + r.1 == r.1;
    }
  }

  lemma FeedOne(lib: Lib, e: Engine, f: Frame)
    requires Waiting(e)
    ensures Accepts(M(lib), e, [f]) && Feed(M(lib), e, [f]) == React(lib, e, f)
  {
    var r := React(lib, e, f);
    assert [f][1..] == [];
    assert Feed(M(lib), r.0, []) == (r.0, []);
    assert r.1 + [] == r.1;
  }

  lemma ConsumeIgnoresTable(role: Role, fs: seq<Folder>, adverts: bool, x: Exchange, y: Exchange,
                            offer: (FolderId, BlobId), t: AdvertMap)
    requires x.await == y.await && x.pf == y.pf && x.pa == y.pa
    ensures Consume(role, fs, adverts, x, offer, t) == Consume(role, fs, adverts, y, offer, t)
  {
  }

  /** A whole offer, with its adverts in the first exchange. */
  lemma OfferArrives(lib: Lib, s: Side, first: bool, x: Exchange, peer: seq<Folder>, id: FolderId, rows: seq<Row>)
    requires x.pending.None? && |rows| <= BUDGET
    requires x.await.Announcement? ==> id != SENTINEL
    ensures Accepts(M(lib), Engine(s, Offering(first, x)), OfferFrames(peer, id, rows, first))
    ensures Feed(M(lib), Engine(s, Offering(first, x)), OfferFrames(peer, id, rows, first))
         == Offered(lib, s, first, Consume(s.role, s.folders, first, x, (id, OrZero(Effective(peer, id))),
                                           if first then InsertRows(map[], rows) else map[]))
  {
    var e := Engine(s, Offering(first, x));
    var offer := (id, OrZero(Effective(peer, id)));
    var f := Offer(offer.0, offer.1);
    FeedOne(lib, e, f);
    if first {
      var x' := x.(pending := Some(offer), rows := 0, table := map[]);
      assert React(lib, e, f) == (Engine(s, Offering(first, x')), []);
      AdvertsArrive(lib, s, first, x', rows);
      FeedAppend(M(lib), e, [f], AdvertFrames(rows));
      ConsumeIgnoresTable(s.role, s.folders, first, x, x', offer, InsertRows(map[], rows));
      var r := Feed(M(lib), Engine(s, Offering(first, x')), AdvertFrames(rows));
      assert [] + r.1 == r.1;
    } else {
      assert OfferFrames(peer, id, rows, first) == [f];
    }
  }

  lemma FindAt(fs: seq<Folder>, i: nat)
    requires WellFormed(fs) && i < |fs|
    ensures Find(fs, fs[i].id) == Some(i)
  {
  }

  lemma EffectiveNonZero(fs: seq<Folder>, id: FolderId)
    requires WellFormed(fs)
    ensures NonZero(OrZero(Effective(fs, id))) == Effective(fs, id)
    ensures |RowsOf(fs, id)| <= BUDGET
  {
  }

  // The states both sides pass through while `ids` have been talked about.

  function Listening(s: Side, first: bool, ids: set<FolderId>, peer: seq<Folder>): Engine {
    Engine(s, Offering(first, Exchange(Announcement, None, 0, map[], Told(ids, peer), ToldRows(ids, peer, first))))
  }

  function Announcing(lib: Lib, s: Side, first: bool, i: nat, ids: set<FolderId>, peer: seq<Folder>): Reaction
    requires i <= |s.folders|
  {
    Offered(lib, s, first, AnnounceFrom(s.role, s.folders, first, i, Told(ids, peer), ToldRows(ids, peer, first)))
  }

  lemma Grow(ids: set<FolderId>, id: FolderId, peer: seq<Folder>, first: bool)
    requires WellFormed(peer)
    ensures Told(ids + {id}, peer) == Told(ids, peer)[id := NonZero(OrZero(Effective(peer, id)))]
    ensures first ==>
          ToldRows(ids + {id}, peer, first) == ToldRows(ids, peer, first)[id := InsertRows(map[], RowsOf(peer, id))]
    ensures !first ==> ToldRows(ids + {id}, peer, first) == ToldRows(ids, peer, first)
  {
    hide WellFormed, Effective, RowsOf, InsertRows;
    EffectiveNonZero(peer, id);
  }

  /** `t` is about to announce folder `i`, `l` listens, and `ids` have been talked about. */
  function Round(lib: Lib, l: Side, t: Side, first: bool, i: nat, ids: set<FolderId>): Net<Engine, Frame>
    requires i <= |t.folders|
  {
    var (a, ab) := Announcing(lib, t, first, i, ids, l.folders);
    Net(a, Listening(l, first, ids, t.folders), ab, [])
  }

  /** One folder is announced by `t` and echoed by `l`; both now know it. */
  lemma AnnounceAndEcho(lib: Lib, l: Side, t: Side, first: bool, i: nat, ids: set<FolderId>)
    requires WellFormed(l.folders) && WellFormed(t.folders) && i < |t.folders|
    requires t.role.Responder? ==> t.folders[i].id !in ids
    ensures Reaches(M(lib), Round(lib, l, t, first, i, ids), Round(lib, l, t, first, i + 1, ids + {t.folders[i].id}))
  {
    var f := t.folders[i];
    var (a, ab) := Announcing(lib, t, first, i, ids, l.folders);
    var b := Listening(l, first, ids, t.folders);
    var n := Net(a, b, ab, []);
    FindAt(t.folders, i);
    OfferArrives(lib, l, first, b.phase.x, t.folders, f.id, f.rows);
    TurnB(M(lib), n);
    Grow(ids, f.id, t.folders, first);
    var b' := Listening(l, first, ids + {f.id}, t.folders);
    var ba := OfferFrames(l.folders, f.id, RowsOf(l.folders, f.id), first);
    var n1 := Net(a, b', [], ba);
    assert Feed(M(lib), b, ab) == (b', ba);
    EffectiveNonZero(l.folders, f.id);
    OfferArrives(lib, t, first, a.phase.x, l.folders, f.id, RowsOf(l.folders, f.id));
    Grow(ids, f.id, l.folders, first);
    TurnA(M(lib), n1);
    var r := Announcing(lib, t, first, i + 1, ids + {f.id}, l.folders);
    assert Feed(M(lib), a, ba) == r;
    ReachesTrans(M(lib), n, n1, Net(r.0, b', r.1, []));
  }

  /** A folder the initiator has announced already is passed over. */
  lemma SkipKnown(lib: Lib, l: Side, t: Side, first: bool, i: nat, ids: set<FolderId>)
    requires i < |t.folders| && t.role.Responder? && t.folders[i].id in ids
    ensures Round(lib, l, t, first, i, ids) == Round(lib, l, t, first, i + 1, ids)
  {
  }

  function Prefix(fs: seq<Folder>, i: nat): set<FolderId>
    requires i <= |fs|
  {
    Ids(fs[..i])
  }

  lemma PrefixNext(fs: seq<Folder>, i: nat)
    requires i < |fs|
    ensures Prefix(fs, i + 1) == Prefix(fs, i) + {fs[i].id}
  {
    assert fs[..i + 1] == fs[..i] + [fs[i]];
  }

  /** All folders of `t` are announced, one after the other; `known` was known before. */
  lemma {:induction false} AnnounceAll(lib: Lib, l: Side, t: Side, first: bool, i: nat, known: set<FolderId>)
    requires WellFormed(l.folders) && WellFormed(t.folders) && i <= |t.folders|
    ensures Reaches(M(lib), Round(lib, l, t, first, i, known + Prefix(t.folders, i)),
                    Round(lib, l, t, first, |t.folders|, known + Ids(t.folders)))
    decreases |t.folders| - i
  {
    hide Round, Reaches;
    var ids := known + Prefix(t.folders, i);
    if i == |t.folders| {
      assert t.folders[..i] == t.folders;
      ReachesSelf(M(lib), Round(lib, l, t, first, i, ids));
    } else {
      PrefixNext(t.folders, i);
      var ids' := known + Prefix(t.folders, i + 1);
      assert ids' == ids + {t.folders[i].id};
      if t.role.Responder? && t.folders[i].id in ids {
        assert ids' == ids;
        SkipKnown(lib, l, t, first, i, ids);
        ReachesSelf(M(lib), Round(lib, l, t, first, i, ids));
      } else {
        AnnounceAndEcho(lib, l, t, first, i, ids);
      }
      AnnounceAll(lib, l, t, first, i + 1, known);
      ReachesTrans(M(lib), Round(lib, l, t, first, i, ids), Round(lib, l, t, first, i + 1, ids'),
                   Round(lib, l, t, first, |t.folders|, known + Ids(t.folders)));
    }
  }

  function Opening(lib: Lib, i: Side, r: Side, first: bool): Net<Engine, Frame> {
    var (a, ab) := Begin(lib, i, first);
    var (b, ba) := Begin(lib, r, first);
    Net(a, b, ab, ba)
  }

  /** Both sides have what the exchange is for, and go on. */
  function Exchanged(lib: Lib, i: Side, r: Side, first: bool): Net<Engine, Frame> {
    var all := Ids(i.folders) + Ids(r.folders);
    var (a, ab) := ExchangeDone(lib, i, first, Told(all, r.folders), ToldRows(all, r.folders, first));
    var (b, ba) := ExchangeDone(lib, r, first, Told(all, i.folders), ToldRows(all, i.folders, first));
    Net(a, b, ab, ba)
  }

  lemma OpeningIsRound(lib: Lib, i: Side, r: Side, first: bool)
    requires i.role.Initiator? && r.role.Responder?
    ensures Opening(lib, i, r, first) == Round(lib, r, i, first, 0, {} + Prefix(i.folders, 0))
  {
    assert Prefix(i.folders, 0) == {};
    assert Told({}, r.folders) == map[] && Told({}, i.folders) == map[];
    assert ToldRows({}, r.folders, first) == map[] && ToldRows({}, i.folders, first) == map[];
  }

  /** The initiator's sentinel reaches the responder, which starts announcing. */
  lemma FirstSentinel(lib: Lib, i: Side, r: Side, first: bool)
    requires i.role.Initiator? && r.role.Responder?
    ensures Reaches(M(lib), Round(lib, r, i, first, |i.folders|, Ids(i.folders)),
                    Swap(Round(lib, i, r, first, 0, Ids(i.folders))))
  {
    var n := Round(lib, r, i, first, |i.folders|, Ids(i.folders));
    FeedOne(lib, n.b, Offer(SENTINEL, ZERO));
    TurnB(M(lib), n);
    assert Feed(M(lib), n.b, n.ab) == Announcing(lib, r, first, 0, Ids(i.folders), i.folders);
  }

  /** The responder's sentinel reaches the initiator; whatever the responder sent after it is
      still on its way. */
  lemma LastSentinel(lib: Lib, i: Side, r: Side, first: bool)
    requires i.role.Initiator? && r.role.Responder?
    ensures Reaches(M(lib), Swap(Round(lib, i, r, first, |r.folders|, Ids(i.folders) + Ids(r.folders))),
                    Exchanged(lib, i, r, first))
  {
    var all := Ids(i.folders) + Ids(r.folders);
    var n := Swap(Round(lib, i, r, first, |r.folders|, all));
    var a := ExchangeDone(lib, i, first, Told(all, r.folders), ToldRows(all, r.folders, first));
    var b := ExchangeDone(lib, r, first, Told(all, i.folders), ToldRows(all, i.folders, first));
    assert n.ba == [Offer(SENTINEL, ZERO)] + b.1;
    FeedOne(lib, n.a, Offer(SENTINEL, ZERO));
    DeliverToA(M(lib), n, [Offer(SENTINEL, ZERO)], b.1);
    assert Feed(M(lib), n.a, [Offer(SENTINEL, ZERO)]).1 == [] + a.1 == a.1;
    assert n.ab + a.1 == a.1;
  }

  lemma {:induction false} FirstOfStage(fs: seq<Folder>, pf: PeerFolders, thatSide: bool, i: nat)
    requires i <= |fs|
    ensures var stage := StageFrom(fs, pf, thatSide, i); stage != [] ==>
          stage[0] < |fs| && Wanted(fs[stage[0]], pf, thatSide)
    decreases |fs| - i
  {
    if i < |fs| { FirstOfStage(fs, pf, thatSide, i + 1); }
  }

  /** A side that has come through an exchange has not failed and is not finished. */
  lemma GoesOn(lib: Lib, s: Side, first: bool, pf: PeerFolders, pa: PeerAdverts)
    ensures Waiting(ExchangeDone(lib, s, first, pf, pa).0)
  {
    hide NextStage, Plan, NoteRemotes;
    if first {
      var s' := s.(folders := NoteRemotes(s.folders, pf));
      var plan := Plan(s.role, s.folders, pf);
      if plan != [] && plan[0].PullStage? {
        PlanPulls(s, pf);
        AsksFirst(lib, s', pf, pa, plan[0].idxs, plan[1..]);
        StagePulls(lib, s', pf, pa, plan);
      } else {
        StageWaits(lib, s', pf, pa, plan);
      }
    }
  }

  /** A stage to pull begins with a folder the peer has a manifest for. */
  lemma PlanPulls(s: Side, pf: PeerFolders)
    requires var plan := Plan(s.role, s.folders, pf); plan != [] && plan[0].PullStage?
    ensures var idxs := Plan(s.role, s.folders, pf)[0].idxs;
            var noted := NoteRemotes(s.folders, pf);
            && idxs != [] && idxs[0] < |noted|
            && noted[idxs[0]].id in pf && pf[noted[idxs[0]].id].Some?
  {
    FirstOfStage(s.folders, pf, true, 0);
    var mine := StageNeeded(s.folders, pf, s.role, s.role);
    assert Plan(s.role, s.folders, pf)[0] == PullStage(mine);
    assert NoteRemotes(s.folders, pf)[mine[0]].id == s.folders[mine[0]].id;
  }

  lemma StagePulls(lib: Lib, s: Side, pf: PeerFolders, pa: PeerAdverts, plan: seq<Stage>)
    requires plan != [] && plan[0].PullStage?
    ensures NextStage(lib, s, pf, pa, plan) == NextFolder(lib, s, pf, pa, plan[0].idxs, plan[1..])
  {
  }

  lemma StageWaits(lib: Lib, s: Side, pf: PeerFolders, pa: PeerAdverts, plan: seq<Stage>)
    requires plan == [] || plan[0].ServeStage?
    ensures Waiting(NextStage(lib, s, pf, pa, plan).0)
  {
  }

  lemma AsksFirst(lib: Lib, s: Side, pf: PeerFolders, pa: PeerAdverts, idxs: seq<nat>, plan: seq<Stage>)
    requires idxs != [] && idxs[0] < |s.folders|
    requires s.folders[idxs[0]].id in pf && pf[s.folders[idxs[0]].id].Some?
    ensures NextFolder(lib, s, pf, pa, idxs, plan).0.phase.Pulling?
  {
    var f := s.folders[idxs[0]];
    var target := pf[f.id].value;
    var c := PullCtx(idxs, target, pf, pa, plan);
    assert NextFolder(lib, s, pf, pa, idxs, plan)
        == Resume(lib, s, c, StartPull(lib, JobOf(s, idxs[0], target, pa), f.store, f.rejections));
  }

  /** No schedule stalls the exchange or makes a side fail in it: every schedule goes by way of the
      net where both sides know exactly the union of the two folder sets, each with the other
      side's effective manifest (none for a folder the other side does not configure), and both go
      on. No offer or advert is left on either channel there: what is on the channels is what
      each side sends next. */
  lemma ExchangeCompletes(lib: Lib, i: Side, r: Side, first: bool)
    requires i.role.Initiator? && r.role.Responder?
    requires WellFormed(i.folders) && WellFormed(r.folders)
    ensures Reaches(M(lib), Opening(lib, i, r, first), Exchanged(lib, i, r, first))
    ensures Unavoidable(M(lib), Opening(lib, i, r, first), Exchanged(lib, i, r, first))
    ensures Waiting(Exchanged(lib, i, r, first).a) && Waiting(Exchanged(lib, i, r, first).b)
  {
    ExchangeRuns(lib, i, r, first);
    ReachedIsUnavoidable(M(lib), Opening(lib, i, r, first), Exchanged(lib, i, r, first));
    var all := Ids(i.folders) + Ids(r.folders);
    GoesOn(lib, i, first, Told(all, r.folders), ToldRows(all, r.folders, first));
    GoesOn(lib, r, first, Told(all, i.folders), ToldRows(all, i.folders, first));
  }

  /** One schedule of the exchange: each folder is announced and echoed before the next. */
  lemma ExchangeRuns(lib: Lib, i: Side, r: Side, first: bool)
    requires i.role.Initiator? && r.role.Responder?
    requires WellFormed(i.folders) && WellFormed(r.folders)
    ensures Reaches(M(lib), Opening(lib, i, r, first), Exchanged(lib, i, r, first))
  {
    var mc := M(lib);
    var n0 := Opening(lib, i, r, first);
    var mine := Ids(i.folders);
    OpeningIsRound(lib, i, r, first);
    AnnounceAll(lib, r, i, first, 0, {});
    assert {} + mine == mine;
    var n1 := Round(lib, r, i, first, |i.folders|, mine);
    FirstSentinel(lib, i, r, first);
    assert mine + Prefix(r.folders, 0) == mine;
    var n2 := Round(lib, i, r, first, 0, mine);
    ReachesTrans(mc, n0, n1, Swap(n2));
    AnnounceAll(lib, i, r, first, 0, mine);
    var n3 := Round(lib, i, r, first, |r.folders|, mine + Ids(r.folders));
    SwapReaches(mc, n2, n3);
    ReachesTrans(mc, n0, Swap(n2), Swap(n3));
    LastSentinel(lib, i, r, first);
    ReachesTrans(mc, n0, Swap(n3), Exchanged(lib, i, r, first));
  }
}
