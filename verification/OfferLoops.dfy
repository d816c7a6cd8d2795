/** The serving loops and the offer exchange as they are written, proved against the machine. */
module OfferLoops {
  import opened Blobs
  import opened Engine
  import opened Protocol
  import opened EngineLoops
  import Offers
  import Serving

  // ---- serving -----------------------------------------------------------------------

  /** serve_items: batches go out as they fill up. */
  method SendItems(w: Wire, st: Store, asked: seq<(Kind, BlobId)>)
    modifies w
    ensures w.sent == old(w.sent) + ServeItems(st, asked) && w.inbox == old(w.inbox) && w.taken == old(w.taken)
    ensures Serving.AnswersItems(st, asked, w.sent[|old(w.sent)|..])
  {
    Serving.ItemsAnswered(st, asked);
    hide Serving.AnswersItems;
    var acc: seq<Item>, size: nat := [], 0;
    var i := 0;
    while i < |asked|
      invariant 0 <= i <= |asked| && w.inbox == old(w.inbox) && w.taken == old(w.taken)
      invariant w.sent + ServeLoop(st, asked[i..], acc, size) == old(w.sent) + ServeItems(st, asked)
    {
      assert asked[i..][0] == asked[i] && asked[i..][1..] == asked[i + 1..];
      ghost var todo := ServeLoop(st, asked[i..], acc, size);
      if asked[i] in st.blobs {
        var bytes := st.blobs[asked[i]];
        size := size + |bytes|;
        acc := acc + [(asked[i].0, asked[i].1, bytes)];
      }
      if |acc| >= MAX_ITEMS || size >= FLUSH_BYTES {
        ghost var was := w.sent;
        w.Send(Items(acc));
        assert was + todo == w.sent + ServeLoop(st, asked[i + 1..], [], 0);
        acc, size := [], 0;
      }
      i := i + 1;
    }
    assert asked[i..] == [];
    ghost var was := w.sent;
    ghost var todo := ServeLoop(st, [], acc, size);
    if acc != [] { w.Send(Items(acc)); }
    w.Send(TERMINATOR);
    assert w.sent == was + todo;
  }

  /** serve_packs: the packs on disk that still hash to their name. */
  method SendPacks(w: Wire, lib: Lib, st: Store, names: seq<BlobId>)
    modifies w
    ensures w.sent == old(w.sent) + ServePacks(lib, st, names) && w.inbox == old(w.inbox) && w.taken == old(w.taken)
    ensures Serving.AnswersPacks(lib, st, names, w.sent[|old(w.sent)|..])
  {
    Serving.PacksAnswered(lib, st, names);
    hide Serving.AnswersPacks;
    var i := 0;
    while i < |names|
      invariant 0 <= i <= |names| && w.inbox == old(w.inbox) && w.taken == old(w.taken)
      invariant w.sent + ServePacks(lib, st, names[i..]) == old(w.sent) + ServePacks(lib, st, names)
    {
      assert names[i..][0] == names[i] && names[i..][1..] == names[i + 1..];
      ghost var was := w.sent;
      if names[i] in st.packs && lib.hash(st.packs[names[i]]) == names[i] {
        w.Send(PackFile(names[i], st.packs[names[i]]));
      }
      assert was + ServePacks(lib, st, names[i..]) == w.sent + ServePacks(lib, st, names[i + 1..]);
      i := i + 1;
    }
    assert names[i..] == [];
    w.Send(TERMINATOR);
  }

  /** One request is answered; the end marker and what a server rejects are not. */
  method Respond(w: Wire, lib: Lib, s: Side, f: Frame) returns (e: Option<Err>)
    modifies w
    ensures e.None? ==> w.inbox == old(w.inbox) && w.taken == old(w.taken)
    ensures e.None? ==> if f.AskItems? && f.items == [] then w.sent == old(w.sent)
                        else Answer(lib, s, f).Some? && w.sent == old(w.sent) + Answer(lib, s, f).value
    ensures e.Some? ==> Answer(lib, s, f).None? && w.sent == old(w.sent) && w.taken == old(w.taken)
    ensures e.Some? ==> w.inbox == old(w.inbox)
    ensures e == Refusal(s, f)
  {
    hide ServeItems, ServePacks;
    e := None;
    if !InCaps(f) { return Some(Violation); }
    match f
    case AskItems(id, items) =>
      if items == [] { return; }
      var i := Find(s.folders, id);
      if i.None? { return Some(FolderUnknown); }
      SendItems(w, s.folders[i.value].store, items);
    case AskPacks(id, names) =>
      var i := Find(s.folders, id);
      if i.None? { return Some(FolderUnknown); }
      SendPacks(w, lib, s.folders[i.value].store, names);
    case _ => return Some(Violation);
  }

  /** serve_stage: answer requests until the end marker. The machine, fed the same frames,
      stays in its serving state, and the replies are its replies. */
  method ServeRequests(w: Wire, lib: Lib, s: Side) returns (r: Res<()>, ghost c: seq<Frame>, ghost last: Option<Frame>)
    modifies w
    ensures w.taken == old(w.taken) + c + (if last.Some? then [last.value] else [])
    ensures Answers(lib, s, c).Some? && w.sent == old(w.sent) + Answers(lib, s, c).value
    ensures match r
            case Ok(_) => last.Some? && IsEnd(last.value)
            case Err(e) => last.Some? && Refusal(s, last.value) == Some(e)
            case Closed => last.None?
  {
    hide Answer;
    c, last := [], None;
    assert w.sent == old(w.sent) + [];
    while true
      invariant w.taken == old(w.taken) + c && Answers(lib, s, c).Some?
      invariant w.sent == old(w.sent) + Answers(lib, s, c).value
      decreases |w.inbox|
    {
      var m := w.Recv();
      if m.None? { return Closed, c, None; }
      var f := m.value;
      var e := Respond(w, lib, s, f);
      if e.Some? { return Err(e.value), c, m; }
      if f.AskItems? && f.items == [] { return Ok(()), c, m; }
      AnswersNext(lib, s, c, f);
      assert old(w.taken) + c + [f] == old(w.taken) + (c + [f]);
      c := c + [f];
    }
  }

  /** Why a serving side gives up on a frame, if it does. */
  function Refusal(s: Side, f: Frame): Option<Err> {
    if !InCaps(f) then Some(Violation)
    else match f
         case AskItems(id, items) => if items != [] && Find(s.folders, id).None? then Some(FolderUnknown) else None
         case AskPacks(id, _) => if Find(s.folders, id).None? then Some(FolderUnknown) else None
         case _ => Some(Violation)
  }

  predicate IsEnd(f: Frame) { f.AskItems? && f.items == [] }

  /** The reply of a serving side to one request, if it has one. */
  function Answer(lib: Lib, s: Side, f: Frame): Option<seq<Frame>> {
    if !InCaps(f) then None
    else match f
         case AskItems(id, items) =>
           if items == [] then None
           else (match Find(s.folders, id) case None => None case Some(i) =>
                 Some(ServeItems(s.folders[i].store, items)))
         case AskPacks(id, names) =>
           (match Find(s.folders, id) case None => None case Some(i) =>
            Some(ServePacks(lib, s.folders[i].store, names)))
         case _ => None
  }

  function Answers(lib: Lib, s: Side, fs: seq<Frame>): Option<seq<Frame>>
    decreases |fs|
  {
    if fs == [] then Some([])
    else
      var init, last := Answers(lib, s, fs[..|fs| - 1]), Answer(lib, s, fs[|fs| - 1]);
      if init.None? || last.None? then None else Some(init.value + last.value)
  }

  lemma AnswersNext(lib: Lib, s: Side, fs: seq<Frame>, f: Frame)
    ensures Answers(lib, s, fs + [f])
         == if Answers(lib, s, fs).None? || Answer(lib, s, f).None? then None
            else Some(Answers(lib, s, fs).value + Answer(lib, s, f).value)
  {
    assert (fs + [f])[..|fs|] == fs;
  }

  /** A serving machine answers just so: it keeps serving as long as there is an answer, leaves
      the stage on the end marker, and gives up for the same reason. */
  lemma AnswersAreTheMachines(lib: Lib, s: Side, pf: PeerFolders, pa: PeerAdverts, plan: seq<Stage>, f: Frame)
    ensures var e := Engine(s, Serving(pf, pa, plan));
            match Answer(lib, s, f)
            case Some(out) => React(lib, e, f) == (e, out)
            case None => React(lib, e, f) == match Refusal(s, f) case None =>
              NextStage(lib, s, pf, pa, plan) case Some(err) => Fail(s, err)
  {
  }

  /** send_my_adverts: the index in slices. */
  method SendAdverts(w: Wire, rows: seq<Row>)
    modifies w
    ensures w.sent == old(w.sent) + AdvertFrames(rows) && w.inbox == old(w.inbox) && w.taken == old(w.taken)
  {
    var rest := rows;
    while |rest| > MAX_ROWS
      invariant w.inbox == old(w.inbox) && w.taken == old(w.taken)
      invariant w.sent + AdvertFrames(rest) == old(w.sent) + AdvertFrames(rows)
      decreases |rest|
    {
      ghost var was, todo := w.sent, AdvertFrames(rest);
      w.Send(Advert(rest[..MAX_ROWS], true));
      rest := rest[MAX_ROWS..];
      assert was + todo == w.sent + AdvertFrames(rest);
    }
    w.Send(Advert(rest, false));
  }

  // ---- stage_needed and finish_after_sync --------------------------------------------

  /** stage_needed */
  method ComputeStage(fs: seq<Folder>, pf: PeerFolders, whose: Role, mine: Role) returns (out: seq<nat>)
    ensures out == StageNeeded(fs, pf, whose, mine)
  {
    out := [];
    var i := 0;
    while i < |fs|
      invariant 0 <= i <= |fs|
      invariant out + StageFrom(fs, pf, whose == mine, i) == StageNeeded(fs, pf, whose, mine)
    {
      var add := false;
      if fs[i].id in pf {
        var that := if whose == mine then fs[i].current else pf[fs[i].id];
        var counterpart := if whose == mine then pf[fs[i].id] else fs[i].current;
        add := PullNeeded(that, counterpart);
      }
      assert add == Wanted(fs[i], pf, whose == mine);
      Snoc(out, i, add, StageFrom(fs, pf, whose == mine, i + 1));
      if add { out := out + [i]; }
      i := i + 1;
    }
  }

  lemma Snoc(out: seq<nat>, i: nat, add: bool, rest: seq<nat>)
    ensures out + ((if add then [i] else []) + rest) == (if add then out + [i] else out) + rest
  {
  }

  /** The loop of finish_after_sync over the outcomes. */
  method SettleFolders(fs: seq<Folder>, pf: PeerFolders) returns (out: seq<Folder>)
    ensures out == SettleAll(fs, pf)
  {
    out := [];
    for i := 0 to |fs|
      invariant |out| == i
      invariant forall k :: 0 <= k < i ==> out[k] == Settle(fs[k], pf)
    {
      var f := fs[i];
      if f.id in pf { f := f.(remote := pf[f.id]); }
      if f.after.Some? && f.remote.Some? {
        if f.after == f.remote { f := f.(agreed := f.after); }
      }
      out := out + [f];
    }
  }

  // ---- exchange_offers ---------------------------------------------------------------

  function Exch(role: Role, fs: seq<Folder>, adverts: bool, x: Exchange, f: Frame): ExchangeStep {
    if !InCaps(f) then Broken(Violation) else ExchangeReact(role, fs, adverts, x, f)
  }

  function ExchRun(role: Role, fs: seq<Folder>, adverts: bool, step: ExchangeStep, c: seq<Frame>): ExchangeStep
    decreases |c|
  {
    if c == [] || !step.Going? then step else ExchRun(role, fs, adverts, Exch(role, fs, adverts, step.x, c[0]), c[1..])
  }

  function ExchSaid(role: Role, fs: seq<Folder>, adverts: bool, step: ExchangeStep, c: seq<Frame>): seq<Frame>
    decreases |c|
  {
    if c == [] || !step.Going? then []
    else step.out + ExchSaid(role, fs, adverts, Exch(role, fs, adverts, step.x, c[0]), c[1..])
  }

  /** The exchange waits for each of these frames. */
  predicate ExchAwaited(role: Role, fs: seq<Folder>, adverts: bool, step: ExchangeStep, c: seq<Frame>)
    decreases |c|
  {
    c == [] || (step.Going? && ExchAwaited(role, fs, adverts, Exch(role, fs, adverts, step.x, c[0]), c[1..]))
  }

  lemma {:induction false} ExchNext(role: Role, fs: seq<Folder>, adverts: bool, step: ExchangeStep, c: seq<Frame>,
                                    f: Frame)
    requires ExchRun(role, fs, adverts, step, c).Going?
    ensures ExchAwaited(role, fs, adverts, step, c) ==> ExchAwaited(role, fs, adverts, step, c + [f])
    ensures ExchRun(role, fs, adverts, step, c + [f]) == Exch(role, fs, adverts, ExchRun(role, fs, adverts, step, c).x,
                                                              f)
    ensures ExchSaid(role, fs, adverts, step, c + [f])
        == ExchSaid(role, fs, adverts, step, c) + ExchRun(role, fs, adverts, step, c).out
    decreases |c|
  {
    hide Exch;
    if c == [] {
      assert (c + [f])[1..] == [];
      var next := Exch(role, fs, adverts, step.x, f);
      assert ExchRun(role, fs, adverts, next, []) == next && ExchSaid(role, fs, adverts, next, []) == [];
    } else {
      assert (c + [f])[1..] == c[1..] + [f];
      ExchNext(role, fs, adverts, Exch(role, fs, adverts, step.x, c[0]), c[1..], f);
    }
  }

  /** A side in an exchange: who it is, and where the exchange started. */
  datatype Party = Party(role: Role, fs: seq<Folder>, adverts: bool, start: ExchangeStep)

  function RunOf(p: Party, c: seq<Frame>): ExchangeStep { ExchRun(p.role, p.fs, p.adverts, p.start, c) }
  function SaidOf(p: Party, c: seq<Frame>): seq<Frame> { ExchSaid(p.role, p.fs, p.adverts, p.start, c) }
  predicate AwaitedBy(p: Party, c: seq<Frame>) { ExchAwaited(p.role, p.fs, p.adverts, p.start, c) }

  /** The loop waits where the machine waits after `c`, and has sent all the machine has. */
  ghost predicate Waits(p: Party, c: seq<Frame>, was: seq<Frame>, now: seq<Frame>, x: Exchange) {
    var s := RunOf(p, c); AwaitedBy(p, c) && s.Going? && s.x == x && now == was + SaidOf(p, c) + s.out
  }

  ghost predicate ExchMirrors(p: Party, c: seq<Frame>, was: seq<Frame>, now: seq<Frame>,
                              r: Res<(PeerFolders, PeerAdverts)>) {
    var s := RunOf(p, c);
    AwaitedBy(p, c) &&
    match r
    case Ok((pf, pa)) => s.Agreed? && s.pf == pf && s.pa == pa && now == was + SaidOf(p, c) + s.out
    case Err(e) => s == Broken(e) && now == was + SaidOf(p, c)
    case Closed => s.Going? && now == was + SaidOf(p, c) + s.out
  }

  /** Take one frame: the machine takes the same. */
  method Next(w: Wire, ghost p: Party, ghost c: seq<Frame>, ghost was: seq<Frame>, ghost x: Exchange)
    returns (m: Option<Frame>, ghost d: seq<Frame>)
    requires Waits(p, c, was, w.sent, x)
    modifies w
    ensures w.sent == old(w.sent)
    ensures m.None? ==> d == c && w.taken == old(w.taken) && w.inbox == old(w.inbox)
    ensures m.Some? ==> d == c + [m.value] && w.taken == old(w.taken) + [m.value] && |w.inbox| < |old(w.inbox)|
    ensures m.Some? ==> RunOf(p, d) == Exch(p.role, p.fs, p.adverts, x, m.value) && w.sent == was + SaidOf(p, d)
    ensures m.Some? ==> AwaitedBy(p, d)
  {
    m := w.Recv();
    d := c;
    if m.Some? {
      ExchNext(p.role, p.fs, p.adverts, p.start, c, m.value);
      d := c + [m.value];
    }
  }

  datatype Intro = Intro(id: FolderId, manifest: BlobId, table: AdvertMap)

  /** expect_offer, and recv_advert_map after it in the first exchange. The sentinel, where it
      is expected, comes back without adverts. */
  method RecvOffer(w: Wire, ghost p: Party, ghost c: seq<Frame>, ghost was: seq<Frame>, ghost x: Exchange,
                   adverts: bool, sentinel: bool)
    returns (r: Res<Intro>, ghost d: seq<Frame>)
    requires p.adverts == adverts && x.pending.None? && (sentinel <==> x.await.Announcement?)
    requires Waits(p, c, was, w.sent, x)
    modifies w
    ensures w.sent == old(w.sent) && |w.inbox| <= |old(w.inbox)| && |c| <= |d| && d[..|c|] == c
    ensures w.taken == old(w.taken) + d[|c|..]
    ensures AwaitedBy(p, d)
    ensures match r
            case Err(e) => RunOf(p, d) == Broken(e) && w.sent == was + SaidOf(p, d)
            case Closed => RunOf(p, d).Going? && w.sent == was + SaidOf(p, d) + RunOf(p, d).out
            case Ok(o) =>
              && |w.inbox| < |old(w.inbox)| && w.sent == was + SaidOf(p, d)
              && if sentinel && o.id == SENTINEL then RunOf(p, d)
                == ExchangeReact(p.role, p.fs, adverts, x, Offer(o.id, o.manifest))
                 else RunOf(p, d) == Consume(p.role, p.fs, adverts, x, (o.id, o.manifest), o.table)
  {
    hide Consume, AnnounceFrom;
    var m;
    m, d := Next(w, p, c, was, x);
    if m.None? { return Closed, d; }
    if !InCaps(m.value) || !m.value.Offer? { return Err(Violation), d; }
    var f := m.value;
    if (sentinel && f.folder == SENTINEL) || !adverts { return Ok(Intro(f.folder, f.manifest, map[])), d; }
    var rows: nat, table: AdvertMap := 0, map[];
    ghost var y := x.(pending := Some((f.folder, f.manifest)), rows := 0, table := map[]);
    while true
      invariant y == x.(pending := Some((f.folder, f.manifest)), rows := rows, table := table)
      invariant Waits(p, d, was, w.sent, y)
      invariant w.sent == old(w.sent) && |w.inbox| < |old(w.inbox)|
      invariant |c| <= |d| && d[..|c|] == c && w.taken == old(w.taken) + d[|c|..]
      decreases |w.inbox|
    {
      ghost var before := d;
      m, d := Next(w, p, d, was, y);
      if m.None? { return Closed, d; }
      assert d[|c|..] == before[|c|..] + [m.value];
      if !InCaps(m.value) || !m.value.Advert? { return Err(Violation), d; }
      rows := rows + |m.value.rows|;
      if rows > BUDGET { return Err(Limit), d; }
      table := InsertRows(table, m.value.rows);
      if !m.value.more {
        Offers.ConsumeIgnoresTable(p.role, p.fs, adverts, x, y, (f.folder, f.manifest), table);
        return Ok(Intro(f.folder, f.manifest, table)), d;
      }
      y := y.(rows := rows, table := table);
    }
  }

  /** announce and echo: an offer, then the adverts that go with it. */
  method SendOffer(w: Wire, fs: seq<Folder>, id: FolderId, rows: seq<Row>, adverts: bool)
    modifies w
    ensures w.sent == old(w.sent) + OfferFrames(fs, id, rows, adverts) && w.inbox == old(w.inbox)
    ensures w.taken == old(w.taken)
  {
    w.Send(Offer(id, OrZero(Effective(fs, id))));
    if adverts { SendAdverts(w, rows); }
  }

  /** exchange_offers, in either role: it sends what the machine sends, and what it learns is
      what the machine learns from the same frames. */
  method ExchangeOffers(w: Wire, role: Role, fs: seq<Folder>, adverts: bool)
    returns (r: Res<(PeerFolders, PeerAdverts)>, ghost c: seq<Frame>)
    modifies w
    ensures w.taken == old(w.taken) + c
    ensures ExchMirrors(Party(role, fs, adverts, StartExchange(role, fs, adverts)), c, old(w.sent), w.sent, r)
  {
    if role.Initiator? { r, c := InitiatorOffers(w, fs, adverts); } else { r, c := ResponderOffers(w, fs, adverts); }
  }

  method InitiatorOffers(w: Wire, fs: seq<Folder>, adverts: bool)
    returns (r: Res<(PeerFolders, PeerAdverts)>, ghost c: seq<Frame>)
    modifies w
    ensures w.taken == old(w.taken) + c
    ensures ExchMirrors(Party(Initiator, fs, adverts, StartExchange(Initiator, fs, adverts)), c, old(w.sent), w.sent, r)
  {
    ghost var p := Party(Initiator, fs, adverts, StartExchange(Initiator, fs, adverts));
    var pf: PeerFolders, pa: PeerAdverts := map[], map[];
    c := [];
    assert w.sent == old(w.sent) + [];
    var i := 0;
    while i < |fs|
      invariant 0 <= i <= |fs| && w.taken == old(w.taken) + c && AwaitedBy(p, c)
      invariant RunOf(p, c) == AnnounceFrom(Initiator, fs, adverts, i, pf, pa) && w.sent == old(w.sent) + SaidOf(p, c)
    {
      ghost var before := c;
      var o;
      SendOffer(w, fs, fs[i].id, fs[i].rows, adverts);
      ghost var x := RunOf(p, c).x;
      o, c := RecvOffer(w, p, c, old(w.sent), x, adverts, false);
      assert old(w.taken) + before + c[|before|..] == old(w.taken) + c;
      match o
      case Err(e) => return Err(e), c;
      case Closed => return Closed, c;
      case Ok(q) =>
        pf := pf[q.id := NonZero(q.manifest)];
        if adverts { pa := pa[q.id := q.table]; }
      i := i + 1;
    }
    w.Send(Offer(SENTINEL, ZERO));
    ghost var before := c;
    r, c := Listen(w, p, c, old(w.sent), fs, adverts, pf, pa);
    assert old(w.taken) + before + c[|before|..] == old(w.taken) + c;
    if r.Ok? { assert w.sent == w.sent + []; }
  }

  method ResponderOffers(w: Wire, fs: seq<Folder>, adverts: bool)
    returns (r: Res<(PeerFolders, PeerAdverts)>, ghost c: seq<Frame>)
    modifies w
    ensures w.taken == old(w.taken) + c
    ensures ExchMirrors(Party(Responder, fs, adverts, StartExchange(Responder, fs, adverts)), c, old(w.sent), w.sent, r)
  {
    ghost var p := Party(Responder, fs, adverts, StartExchange(Responder, fs, adverts));
    assert w.sent == old(w.sent) + [] + [];
    r, c := Listen(w, p, [], old(w.sent), fs, adverts, map[], map[]);
    assert c[0..] == c;
    if !r.Ok? { return; }
    var (pf, pa) := r.value;
    var i := 0;
    while i < |fs|
      invariant 0 <= i <= |fs| && w.taken == old(w.taken) + c && AwaitedBy(p, c)
      invariant RunOf(p, c) == AnnounceFrom(Responder, fs, adverts, i, pf, pa) && w.sent == old(w.sent) + SaidOf(p, c)
    {
      if fs[i].id !in pf {
        ghost var before := c;
        var o;
        SendOffer(w, fs, fs[i].id, fs[i].rows, adverts);
        ghost var x := RunOf(p, c).x;
        o, c := RecvOffer(w, p, c, old(w.sent), x, adverts, false);
        assert old(w.taken) + before + c[|before|..] == old(w.taken) + c;
        match o {
          case Err(e) => return Err(e), c;
          case Closed => return Closed, c;
          case Ok(q) =>
            pf := pf[q.id := NonZero(q.manifest)];
            if adverts { pa := pa[q.id := q.table]; }
        }
      }
      i := i + 1;
    }
    w.Send(Offer(SENTINEL, ZERO));
    r := Ok((pf, pa));
  }

  /** Take announcements and echo them, until the sentinel. */
  method Listen(w: Wire, ghost p: Party, ghost c: seq<Frame>, ghost was: seq<Frame>, fs: seq<Folder>, adverts: bool,
                pf0: PeerFolders, pa0: PeerAdverts)
    returns (r: Res<(PeerFolders, PeerAdverts)>, ghost d: seq<Frame>)
    requires p.fs == fs && p.adverts == adverts
    requires Waits(p, c, was, w.sent, Exchange(Announcement, None, 0, map[], pf0, pa0))
    modifies w
    ensures |c| <= |d| && d[..|c|] == c && w.taken == old(w.taken) + d[|c|..] && AwaitedBy(p, d)
    ensures match r
            case Err(e) => RunOf(p, d) == Broken(e) && w.sent == was + SaidOf(p, d)
            case Closed => RunOf(p, d).Going? && w.sent == was + SaidOf(p, d) + RunOf(p, d).out
            case Ok((pf, pa)) =>
              && w.sent == was + SaidOf(p, d)
              && RunOf(p, d) == if p.role.Initiator? then Agreed(pf, pa, [])
                else AnnounceFrom(p.role, fs, adverts, 0, pf, pa)
  {
    hide AnnounceFrom;
    var pf, pa := pf0, pa0;
    d := c;
    while true
      invariant Waits(p, d, was, w.sent, Exchange(Announcement, None, 0, map[], pf, pa))
      invariant |c| <= |d| && d[..|c|] == c && w.taken == old(w.taken) + d[|c|..]
      decreases |w.inbox|
    {
      ghost var before := d;
      var o;
      o, d := RecvOffer(w, p, d, was, Exchange(Announcement, None, 0, map[], pf, pa), adverts, true);
      assert d[|c|..] == before[|c|..] + d[|before|..];
      match o {
        case Err(e) => return Err(e), d;
        case Closed => return Closed, d;
        case Ok(q) =>
          if q.id == SENTINEL { return Ok((pf, pa)), d; }
          pf := pf[q.id := NonZero(q.manifest)];
          if adverts { pa := pa[q.id := q.table]; }
          SendOffer(w, fs, q.id, RowsOf(fs, q.id), adverts);
      }
    }
  }
}
