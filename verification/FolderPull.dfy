/** One folder pulled from start to end, then a whole stage. */
module FolderPull {
  import opened Blobs
  import opened Network
  import opened Engine
  import opened Protocol
  import opened Offers
  import opened Serving
  import opened PullSafety
  import opened PullTogether

  // ---- packs -------------------------------------------------------------------------

  /** Packs the server would send can be opened. */
  ghost predicate PacksOpen(lib: Lib, st: Store) {
    forall name :: name in st.packs && lib.hash(st.packs[name]) == name ==>
      st.packs[name] != [] && lib.pack(st.packs[name]).Some?
  }

  ghost predicate PacksInv(t: Talk, walk: Walk, wanted: seq<BlobId>, satisfied: set<BlobId>, st: Store)
    requires t.c.idxs != [] && t.c.idxs[0] < |t.s.folders|
  {
    && Sound(t.lib, st) && Walked(t.lib, J(t), st, walk, {})
    && (forall c :: c in walk.chunks ==> Has(st, DataChunk, c) || c in wanted)
    && (forall c :: c in satisfied ==> Has(st, DataChunk, c))
  }

  /** The pack, once open, gives the chunk. */
  ghost predicate Carries(lib: Lib, bytes: Bytes, c: BlobId) {
    && lib.pack(bytes).Some?
    && var inside := lib.pack(bytes).value;
       (DataChunk, c) in inside && inside[(DataChunk, c)] != [] && lib.hash(inside[(DataChunk, c)]) == c
  }

  /** The peer's adverts place the chunk in this pack, and the peer has it there. */
  ghost predicate PackedIn(t: Talk, name: BlobId, c: BlobId)
    requires Talking(t)
  {
    && J(t).folder in t.c.pa && c in t.c.pa[J(t).folder] && t.c.pa[J(t).folder][c].pack == name
    && Intact(t.lib, Peer(t), name) && Carries(t.lib, Peer(t).packs[name], c)
  }

  /** Every wanted chunk that is packed in one of these is ticked off. */
  ghost predicate TickedOff(t: Talk, wanted: seq<BlobId>, names: seq<BlobId>, satisfied: set<BlobId>)
    requires Talking(t)
  {
    forall c, name :: c in wanted && name in names && PackedIn(t, name, c) ==> c in satisfied
  }

  lemma TickedMore(t: Talk, wanted: seq<BlobId>, a: seq<BlobId>, b: seq<BlobId>, x: set<BlobId>, y: set<BlobId>)
    requires Talking(t) && TickedOff(t, wanted, a, x) && x <= y && TickedOff(t, wanted, b, y)
    ensures TickedOff(t, wanted, a + b, y)
  {
    hide Talking, PackedIn;
  }

  /** One pack of the reply. */
  lemma PackArrives(t: Talk, p: Pull, st: Store, rej: nat, name: BlobId, ba: seq<Frame>)
    returns (ok: bool, p': Pull, st': Store)
    requires Talking(t) && p.PackFetch? && PacksInv(t, p.walk, p.wanted, p.satisfied, st)
    requires p.frames + 1 < MAX_PACK_FRAMES
    requires name in Peer(t).packs && t.lib.hash(Peer(t).packs[name]) == name
    ensures PacksOpen(t.lib, Peer(t)) ==> ok
    ensures p'.PackFetch? && p' == p.(satisfied := p'.satisfied, frames := p.frames + 1)
    ensures ok ==> p.satisfied <= p'.satisfied && TickedOff(t, p.wanted, [name], p'.satisfied)
    ensures var n := Net(Mid(t, p, st, rej), t.b, [], [PackFile(name, Peer(t).packs[name])] + ba);
            && (!ok ==> Breaks(t.lib, n))
            && (ok ==>
                  && Extends(st, st') && (PacksOpen(t.lib, st) ==> PacksOpen(t.lib, st'))
                  && PacksInv(t, p.walk, p.wanted, p'.satisfied, st')
                  && Reaches(M(t.lib), n, Net(Mid(t, p', st', rej), t.b, [], ba)))
  {
    hide NextStage, NextFolder, PullReact, PacksInv, PacksOpen, Extends, TickedOff;
    var f := PackFile(name, Peer(t).packs[name]);
    PackTaken(t, p, st, rej, name);
    var n := Net(Mid(t, p, st, rej), t.b, [], [f] + ba);
    ok, p', st' := false, p.(frames := p.frames + 1), st;
    if !InCaps(f) {
      ReachesStep(M(t.lib), n, true);
    } else {
      MidFrame(t, t.b, p, st, rej, f, ba);
      var step := PullReact(t.lib, J(t), p, st, rej, f);
      if !step.Stop? { ok, p', st' := true, step.pull, step.st; }
    }
  }

  lemma PackTaken(t: Talk, p: Pull, st: Store, rej: nat, name: BlobId)
    requires Talking(t) && p.PackFetch? && PacksInv(t, p.walk, p.wanted, p.satisfied, st)
    requires p.frames + 1 < MAX_PACK_FRAMES
    requires name in Peer(t).packs && t.lib.hash(Peer(t).packs[name]) == name
    ensures var f := PackFile(name, Peer(t).packs[name]);
            var step := PullReact(t.lib, J(t), p, st, rej, f);
            && (PacksOpen(t.lib, Peer(t)) ==> InCaps(f) && !step.Stop?)
            && (InCaps(f) && !step.Stop? ==>
                  && step.Ask? && step.rejections == rej && step.out == []
                  && step.pull.PackFetch? && step.pull == p.(satisfied := step.pull.satisfied, frames := p.frames + 1)
                  && Extends(st, step.st) && (PacksOpen(t.lib, st) ==> PacksOpen(t.lib, step.st))
                  && PacksInv(t, p.walk, p.wanted, step.pull.satisfied, step.st)
                  && p.satisfied <= step.pull.satisfied && TickedOff(t, p.wanted, [name], step.pull.satisfied))
  {
    hide NextPacks, TickedOff, Arrived, Walked, Lawful, AfterPacks;
    var f := PackFile(name, Peer(t).packs[name]);
    if !PullReact(t.lib, J(t), p, st, rej, f).Stop? {
      ReactKeeps(t.lib, J(t), true, p, st, rej, f);
      PackTicks(t, p, st, rej, name);
    }
  }

  lemma PackTicks(t: Talk, p: Pull, st: Store, rej: nat, name: BlobId)
    requires Talking(t) && p.PackFetch? && Intact(t.lib, Peer(t), name)
    ensures var step := PullReact(t.lib, J(t), p, st, rej, PackFile(name, Peer(t).packs[name]));
            step.Stop? || (step.Ask? && step.pull.PackFetch? && p.satisfied <= step.pull.satisfied
                           && TickedOff(t, p.wanted, [name], step.pull.satisfied))
  {
    hide Sound, Lawful;
    var bytes := Peer(t).packs[name];
    var step := PullReact(t.lib, J(t), p, st, rej, PackFile(name, bytes));
    if !step.Stop? {
      forall c | c in p.wanted && PackedIn(t, name, c) ensures c in step.pull.satisfied {
        assert Has(step.st, DataChunk, c);
        assert c in Arrived(J(t), p.wanted, name, step.st);
      }
    }
  }

  /** The reply to one pack request. */
  lemma {:induction false} PackFramesArrive(t: Talk, p: Pull, st: Store, rej: nat, names: seq<BlobId>)
    returns (ok: bool, satisfied: set<BlobId>, st': Store)
    requires Talking(t) && p.PackFetch? && PacksInv(t, p.walk, p.wanted, p.satisfied, st)
    requires p.frames + |names| < MAX_PACK_FRAMES
    ensures PacksOpen(t.lib, Peer(t)) ==> ok
    ensures ok ==> p.satisfied <= satisfied && TickedOff(t, p.wanted, names, satisfied)
    ensures var n := Net(Mid(t, p, st, rej), t.b, [], ServePacks(t.lib, Peer(t), names));
            && (!ok ==> Breaks(t.lib, n))
            && (ok ==>
                  && Extends(st, st') && (PacksOpen(t.lib, st) ==> PacksOpen(t.lib, st'))
                  && PacksInv(t, p.walk, p.wanted, satisfied, st')
                  && Leads(t, n, NextPacks(t.lib, J(t), p.walk, p.wanted, p.unsent, satisfied, st', rej)))
    decreases |names|
  {
    hide NextStage, NextFolder, AfterPacks, PacksInv, PacksOpen, Adopt, TickedOff;
    var T := Peer(t);
    var n := Net(Mid(t, p, st, rej), t.b, [], ServePacks(t.lib, T, names));
    ok, satisfied, st' := true, p.satisfied, st;
    if names == [] {
      NothingTicked(t, p.wanted, satisfied);
      assert n.ba == [TERMINATOR] + [];
      MidFrame(t, t.b, p, st, rej, TERMINATOR, []);
    } else {
      var name, rest := names[0], names[1..];
      assert names == [name] + rest;
      var ba := ServePacks(t.lib, T, rest);
      if name in T.packs && t.lib.hash(T.packs[name]) == name {
        assert n.ba == [PackFile(name, T.packs[name])] + ba;
        var p', st1;
        ok, p', st1 := PackArrives(t, p, st, rej, name, ba);
        if ok {
          ok, satisfied, st' := PackFramesArrive(t, p', st1, rej, rest);
          if ok { TickedMore(t, p.wanted, [name], rest, p'.satisfied, satisfied); }
          PackChain(t, n, Net(Mid(t, p', st1, rej), t.b, [], ba), ok, NextPacks(t.lib, J(t), p.walk, p.wanted, p.unsent,
                                                                                satisfied, st', rej));
        }
      } else {
        assert n.ba == ba;
        ok, satisfied, st' := PackFramesArrive(t, p, st, rej, rest);
        if ok {
          NotPacked(t, p.wanted, name, p.satisfied);
          TickedMore(t, p.wanted, [name], rest, p.satisfied, satisfied);
        }
      }
    }
  }

  lemma NothingTicked(t: Talk, wanted: seq<BlobId>, satisfied: set<BlobId>)
    requires Talking(t)
    ensures TickedOff(t, wanted, [], satisfied)
  {
  }

  lemma NotPacked(t: Talk, wanted: seq<BlobId>, name: BlobId, satisfied: set<BlobId>)
    requires Talking(t) && !Intact(t.lib, Peer(t), name)
    ensures TickedOff(t, wanted, [name], satisfied)
  {
  }

  lemma PackChain(t: Talk, n: Net<Engine, Frame>, m: Net<Engine, Frame>, ok: bool, next: PullStep)
    requires Talking(t) && Reaches(M(t.lib), n, m)
    requires if ok then Leads(t, m, next) else Breaks(t.lib, m)
    ensures if ok then Leads(t, n, next) else Breaks(t.lib, n)
  {
    if !ok || next.Stop? { BreaksTrans(t.lib, n, m); }
    else { ReachesTrans(M(t.lib), n, m, At(t, next)); }
  }

  /** All pack requests; neither they nor their absence is fatal as long as packs open. */
  lemma {:induction false} PacksRun(t: Talk, walk: Walk, wanted: seq<BlobId>, packs: seq<BlobId>,
                                    satisfied: set<BlobId>, st: Store, rej: nat)
    returns (ok: bool, satisfied': set<BlobId>, st': Store)
    requires Talking(t) && PacksInv(t, walk, wanted, satisfied, st)
    ensures PacksOpen(t.lib, Peer(t)) ==> ok
    ensures ok ==> satisfied <= satisfied' && TickedOff(t, wanted, packs, satisfied')
    ensures var n := At(t, NextPacks(t.lib, J(t), walk, wanted, packs, satisfied, st, rej));
            && (!ok ==> Breaks(t.lib, n))
            && (ok ==>
                  && Extends(st, st') && (PacksOpen(t.lib, st) ==> PacksOpen(t.lib, st'))
                  && PacksInv(t, walk, wanted, satisfied', st')
                  && Leads(t, n, AfterPacks(t.lib, J(t), walk, wanted, satisfied', st', rej)))
    decreases |packs|
  {
    hide TickedOff, PacksInv, PacksOpen, Resume, Sound, Lawful, ServePacks, Find, JobOf;
    var step := NextPacks(t.lib, J(t), walk, wanted, packs, satisfied, st, rej);
    var n := At(t, step);
    if packs == [] {
      ok, satisfied', st' := true, satisfied, st;
      NothingTicked(t, wanted, satisfied);
      LeadsSelf(t, step);
    } else {
      var names := Take(packs, MAX_PACKS);
      PacksAsked(t, walk, wanted, packs, satisfied, st, rej);
      var m := Net(Mid(t, step.pull, st, rej), t.b, [], ServePacks(t.lib, Peer(t), names));
      var sat1, st1;
      ok, sat1, st1 := PackFramesArrive(t, step.pull, st, rej, names);
      var next := NextPacks(t.lib, J(t), walk, wanted, Drop(packs, MAX_PACKS), sat1, st1, rej);
      PackChain(t, n, m, ok, next);
      satisfied', st' := sat1, st1;
      if ok {
        ok, satisfied', st' := PacksRun(t, walk, wanted, Drop(packs, MAX_PACKS), sat1, st1, rej);
        if ok {
          assert packs == names + Drop(packs, MAX_PACKS);
          TickedMore(t, wanted, names, Drop(packs, MAX_PACKS), sat1, satisfied');
          LeadsTrans(t, n, next, AfterPacks(t.lib, J(t), walk, wanted, satisfied', st', rej));
        } else { BreaksTrans(t.lib, n, At(t, next)); }
      }
    }
  }

  /** A pack request is answered by the server. */
  lemma PacksAsked(t: Talk, walk: Walk, wanted: seq<BlobId>, packs: seq<BlobId>, satisfied: set<BlobId>, st: Store,
                   rej: nat)
    requires Talking(t) && packs != []
    ensures var step := NextPacks(t.lib, J(t), walk, wanted, packs, satisfied, st, rej);
            && step.Ask?
            && Reaches(M(t.lib), At(t, step), Net(Mid(t, step.pull, st, rej), t.b, [],
                                                  ServePacks(t.lib, Peer(t), Take(packs, MAX_PACKS))))
  {
    hide Sound, Lawful;
    var step := NextPacks(t.lib, J(t), walk, wanted, packs, satisfied, st, rej);
    FeedOne(t.lib, t.b, AskPacks(J(t).folder, Take(packs, MAX_PACKS)));
    TurnB(M(t.lib), At(t, step));
  }

  // ---- which packs, and what they spare ------------------------------------------------------

  predicate PlacedAt(j: Job, c: BlobId, name: BlobId) { c in j.adverts && j.adverts[c].pack == name }

  /** The adverts place at least two of the wanted chunks in the pack; under PacksOnly, one. */
  ghost predicate Worth(j: Job, wanted: seq<BlobId>, name: BlobId) {
    if j.gran.Auto? then
      exists i, k :: 0 <= i < k < |wanted| && PlacedAt(j, wanted[i], name) && PlacedAt(j, wanted[k], name)
    else
      exists i :: 0 <= i < |wanted| && PlacedAt(j, wanted[i], name)
  }

  lemma {:induction false} InPackOne(j: Job, wanted: seq<BlobId>, name: BlobId)
    ensures InPack(j, wanted, name) >= 1 <==> exists i :: 0 <= i < |wanted| && PlacedAt(j, wanted[i], name)
    decreases |wanted|
  {
    if wanted != [] {
      var rest := wanted[1..];
      InPackOne(j, rest, name);
      if i :| 0 <= i < |rest| && PlacedAt(j, rest[i], name) { assert PlacedAt(j, wanted[i + 1], name); }
      if i :| 0 <= i < |wanted| && PlacedAt(j, wanted[i], name) {
        if i > 0 { assert PlacedAt(j, rest[i - 1], name); }
      }
    }
  }

  lemma {:induction false} InPackTwo(j: Job, wanted: seq<BlobId>, name: BlobId)
    ensures InPack(j, wanted, name) >= 2 <==>
      exists i, k :: 0 <= i < k < |wanted| && PlacedAt(j, wanted[i], name) && PlacedAt(j, wanted[k], name)
    decreases |wanted|
  {
    if wanted != [] {
      var rest := wanted[1..];
      InPackOne(j, rest, name);
      InPackTwo(j, rest, name);
      if i, k :| 0 <= i < k < |rest| && PlacedAt(j, rest[i], name) && PlacedAt(j, rest[k], name) {
        assert PlacedAt(j, wanted[i + 1], name) && PlacedAt(j, wanted[k + 1], name);
      }
      if PlacedAt(j, wanted[0], name) {
        if i :| 0 <= i < |rest| && PlacedAt(j, rest[i], name) { assert PlacedAt(j, wanted[i + 1], name); }
      }
      if i, k :| 0 <= i < k < |wanted| && PlacedAt(j, wanted[i], name) && PlacedAt(j, wanted[k], name) {
        assert PlacedAt(j, rest[k - 1], name);
        if i > 0 { assert PlacedAt(j, rest[i - 1], name); }
      }
    }
  }

  /** Exactly the packs that are worth it are asked for. */
  lemma WorthAsking(lib: Lib, j: Job, wanted: seq<BlobId>, name: BlobId)
    requires Lawful(lib)
    ensures name in PacksWorthAsking(lib, j, wanted) <==> Worth(j, wanted, name)
  {
    InPackOne(j, wanted, name);
    InPackTwo(j, wanted, name);
    hide InPack;
    var least := if j.gran.Auto? then 2 else 1;
    assert name in PacksWorthAsking(lib, j, wanted) <==> name in Enough(j, wanted, least);
    if Worth(j, wanted, name) {
      var i :| 0 <= i < |wanted| && PlacedAt(j, wanted[i], name);
      assert wanted[i] in wanted && j.adverts[wanted[i]].pack == name;
    }
  }

  /** A chunk the tree names that is not there yet. */
  predicate Needs(walk: Walk, st: Store, c: BlobId) { c in walk.chunks && !Has(st, DataChunk, c) }

  /** It comes in a pack: the adverts place it there, and enough with it. */
  ghost predicate ComesPacked(t: Talk, walk: Walk, st: Store, name: BlobId, c: BlobId)
    requires Talking(t)
  {
    && Needs(walk, st, c) && PackedIn(t, name, c)
    && (t.s.gran.Auto? ==> exists d :: d != c && Needs(walk, st, d) && PlacedAt(J(t), d, name))
  }

  /** Against an honest peer whose packs open, the chunks asked for one by one are among those that are
      missing, and none of them came in a pack. */
  lemma PacksSpareItems(t: Talk, walk: Walk, st: Store, rej: nat) returns (leftover: seq<BlobId>, st': Store)
    requires Talking(t) && Sound(t.lib, st) && Walked(t.lib, J(t), st, walk, {})
    requires PacksOpen(t.lib, Peer(t)) && !t.s.gran.ItemsOnly?
    ensures Sound(t.lib, st') && Extends(st, st')
    ensures forall c :: c in leftover ==> Needs(walk, st, c)
    ensures forall c, name :: ComesPacked(t, walk, st, name, c) ==> c !in leftover && Has(st', DataChunk, c)
    ensures Leads(t, At(t, StartPacks(t.lib, J(t), walk, st, rej)),
                  if leftover == [] then Ended(st', rej)
                  else Request(J(t), ForChunks(walk), DataChunk, leftover, J(t).retries + 1, st', rej))
  {
    hide Talking, Sound, Walked, PacksOpen, At, Leads, NextPacks, ComesPacked, Request;
    TalkingGives(t);
    var ids := t.lib.sorted(walk.chunks);
    var wanted := Lacking(st, ids);
    SortedLacking(t, walk, st);
    var packs := PacksWorthAsking(t.lib, J(t), wanted);
    PacksBegin(t, walk, wanted, st);
    if wanted == [] {
      leftover, st' := [], st;
      EndsAtOnce(t, walk, st, rej);
    } else {
      var ok, satisfied, st1 := PacksRun(t, walk, wanted, packs, {}, st, rej);
      leftover, st' := Without(wanted, satisfied), st1;
      WithoutSpec(wanted, satisfied);
      PacksHeld(t, walk, wanted, satisfied, st1);
      StartsPacks(t, walk, st, rej);
      forall c, name | ComesPacked(t, walk, st, name, c) ensures c in satisfied {
        PackedIsTicked(t, walk, wanted, packs, st, satisfied, name, c);
      }
    }
    forall c, name | ComesPacked(t, walk, st, name, c) ensures Needs(walk, st, c) {
      PackedIsNeeded(t, walk, st, name, c);
    }
  }

  lemma SortedLacking(t: Talk, walk: Walk, st: Store)
    requires Talking(t)
    ensures forall c :: c in Lacking(st, t.lib.sorted(walk.chunks)) <==> Needs(walk, st, c)
  {
    LackingSpec(st, t.lib.sorted(walk.chunks));
  }

  lemma PacksBegin(t: Talk, walk: Walk, wanted: seq<BlobId>, st: Store)
    requires Talking(t) && Sound(t.lib, st) && Walked(t.lib, J(t), st, walk, {})
    requires forall c :: c in wanted <==> Needs(walk, st, c)
    ensures PacksInv(t, walk, wanted, {}, st)
  {
  }

  lemma PacksHeld(t: Talk, walk: Walk, wanted: seq<BlobId>, satisfied: set<BlobId>, st: Store)
    requires Talking(t) && PacksInv(t, walk, wanted, satisfied, st)
    ensures Sound(t.lib, st) && forall c :: c in satisfied ==> Has(st, DataChunk, c)
  {
  }

  lemma EndsAtOnce(t: Talk, walk: Walk, st: Store, rej: nat)
    requires Talking(t) && Lacking(st, t.lib.sorted(walk.chunks)) == []
    ensures Leads(t, At(t, StartPacks(t.lib, J(t), walk, st, rej)), Ended(st, rej))
  {
    hide Talking;
    TalkingGives(t);
    LeadsSelf(t, Ended(st, rej));
  }

  lemma StartsPacks(t: Talk, walk: Walk, st: Store, rej: nat)
    requires Talking(t) && !t.s.gran.ItemsOnly? && Lacking(st, t.lib.sorted(walk.chunks)) != []
    ensures var wanted := Lacking(st, t.lib.sorted(walk.chunks));
            StartPacks(t.lib, J(t), walk, st, rej)
            == NextPacks(t.lib, J(t), walk, wanted, PacksWorthAsking(t.lib, J(t), wanted), {}, st, rej)
  {
    hide NextPacks, PacksWorthAsking, Lacking;
  }

  lemma PackedIsNeeded(t: Talk, walk: Walk, st: Store, name: BlobId, c: BlobId)
    requires Talking(t) && ComesPacked(t, walk, st, name, c)
    ensures Needs(walk, st, c)
  {
  }

  lemma PackedIsTicked(t: Talk, walk: Walk, wanted: seq<BlobId>, packs: seq<BlobId>, st: Store, satisfied: set<BlobId>,
                       name: BlobId, c: BlobId)
    requires Talking(t) && ComesPacked(t, walk, st, name, c) && !t.s.gran.ItemsOnly?
    requires (forall x :: x in wanted <==> Needs(walk, st, x)) && packs == PacksWorthAsking(t.lib, J(t), wanted)
    requires TickedOff(t, wanted, packs, satisfied)
    ensures c in satisfied
  {
    hide PacksWorthAsking, Carries, Sound;
    WorthAsking(t.lib, J(t), wanted, name);
    assert PlacedAt(J(t), c, name);
    var i :| 0 <= i < |wanted| && wanted[i] == c;
    if t.s.gran.Auto? {
      var d :| d != c && Needs(walk, st, d) && PlacedAt(J(t), d, name);
      var k :| 0 <= k < |wanted| && wanted[k] == d;
      if i < k { assert Worth(J(t), wanted, name); } else { assert k < i && Worth(J(t), wanted, name); }
    }
  }

  // ---- chunks, then the end ------------------------------------------------------------

  /** From the end of the walk to the end of the pull. */
  lemma ChunksRun(t: Talk, walk: Walk, st: Store, rej: nat, full: bool) returns (ok: bool, st': Store)
    requires Talking(t) && Sound(t.lib, st) && Walked(t.lib, J(t), st, walk, {})
    requires full ==> PacksOpen(t.lib, Peer(t)) && forall c :: c in walk.chunks ==> Has(Peer(t), DataChunk, c)
    ensures full ==> ok
    ensures var n := At(t, StartPacks(t.lib, J(t), walk, st, rej));
            && (!ok ==> Breaks(t.lib, n))
            && (ok ==>
                  && Extends(st, st') && (PacksOpen(t.lib, st) ==> PacksOpen(t.lib, st')) && Sound(t.lib, st')
                  && HoldsClosure(t.lib, st', t.c.target)
                  && Leads(t, n, Ended(st', rej)))
  {
    var n := At(t, StartPacks(t.lib, J(t), walk, st, rej));
    var ids := t.lib.sorted(walk.chunks);
    var wanted := Lacking(st, ids);
    LackingSpec(st, ids);
    var satisfied, st1;
    if J(t).gran.ItemsOnly? || wanted == [] {
      ok, satisfied, st1 := true, {}, st;
      LeadsSelf(t, StartPacks(t.lib, J(t), walk, st, rej));
    } else {
      ok, satisfied, st1 := PacksRun(t, walk, wanted, PacksWorthAsking(t.lib, J(t), wanted), {}, st, rej);
    }
    st' := st1;
    if ok {
      ok, st' := LeftoverRuns(t, walk, wanted, satisfied, st1, rej);
      var step := AfterPacks(t.lib, J(t), walk, wanted, satisfied, st1, rej);
      if ok { LeadsTrans(t, n, step, Ended(st', rej)); } else { BreaksTrans(t.lib, n, At(t, step)); }
    }
  }

  /** The chunks no pack brought are fetched one by one. */
  lemma LeftoverRuns(t: Talk, walk: Walk, wanted: seq<BlobId>, satisfied: set<BlobId>, st: Store, rej: nat)
    returns (ok: bool, st': Store)
    requires Talking(t) && PacksInv(t, walk, wanted, satisfied, st)
    requires forall c :: c in wanted ==> c in walk.chunks
    ensures (forall c :: c in walk.chunks ==> Has(Peer(t), DataChunk, c)) ==> ok
    ensures var n := At(t, AfterPacks(t.lib, J(t), walk, wanted, satisfied, st, rej));
            && (!ok ==> Breaks(t.lib, n))
            && (ok ==>
                  && Extends(st, st') && (PacksOpen(t.lib, st) ==> PacksOpen(t.lib, st')) && Sound(t.lib, st')
                  && HoldsClosure(t.lib, st', t.c.target)
                  && Leads(t, n, Ended(st', rej)))
  {
    var leftover := Without(wanted, satisfied);
    WithoutSpec(wanted, satisfied);
    if leftover == [] {
      ok, st' := true, st;
      LeadsSelf(t, Ended(st, rej));
    } else {
      st' := FetchRuns(t, ForChunks(walk), DataChunk, leftover, J(t).retries + 1, st, rej);
      ok := AllHeld(Peer(t), DataChunk, leftover);
      WalkedExtends(t.lib, J(t), st, st', walk, {});
    }
    if ok {
      forall c | c in walk.chunks ensures Received(st', true, DataChunk, c) {
        if c in leftover { } else { assert Has(st, DataChunk, c); }
      }
      CompleteFrom(t.lib, J(t), true, walk, st');
      CompleteIsClosure(t.lib, st', t.c.target);
    }
  }

  /** The server holds the closure of the target, shallow enough for the walk's budget. */
  ghost predicate CanServe(lib: Lib, st: Store, target: BlobId) {
    && CollisionFree(lib) && PacksOpen(lib, st) && HoldsClosure(lib, st, target)
    && Shallow(lib, st, {RootAt(lib, st, target).value}, {RootAt(lib, st, target).value}, BUDGET)
  }

  /** From the manifest's root to the end of the pull. */
  lemma TreeRuns(t: Talk, root: BlobId, st: Store, rej: nat, full: bool) returns (ok: bool, st': Store)
    requires Talking(t) && Sound(t.lib, st) && RootAt(t.lib, st, t.c.target) == Some(root)
    requires full ==> CanServe(t.lib, Peer(t), t.c.target) && RootAt(t.lib, Peer(t), t.c.target) == Some(root)
    ensures full ==> ok
    ensures var n := At(t, NextLevel(t.lib, J(t), [root], Walk({root}, {}), 0, st, rej));
            && (!ok ==> Breaks(t.lib, n))
            && (ok ==> && Extends(st, st') && (PacksOpen(t.lib, st) ==> PacksOpen(t.lib, st')) && Sound(t.lib, st')
                       && HoldsClosure(t.lib, st', t.c.target) && Leads(t, n, Ended(st', rej)))
  {
    hide NextLevel, StartPacks, At;
    var walk := Walk({root}, {});
    assert Elements([root]) == {root};
    var n := At(t, NextLevel(t.lib, J(t), [root], walk, 0, st, rej));
    var ids: set<BlobId> := {};
    if full {
      ids :| root in ids && ClosedNodes(t.lib, Peer(t), ids) && ChunksHeld(t.lib, Peer(t), ids);
    }
    var walk', st1;
    ok, walk', st1 := WalkRuns(t, [root], walk, 0, st, rej, full, ids);
    st' := st1;
    if ok {
      ok, st' := ChunksRun(t, walk', st1, rej, full);
      var after := StartPacks(t.lib, J(t), walk', st1, rej);
      PacksGoOn(t.lib, J(t), walk', st1, rej);
      PackChain(t, n, At(t, after), ok, Ended(st', rej));
    }
  }

  lemma PacksGoOn(lib: Lib, j: Job, walk: Walk, st: Store, rej: nat)
    ensures !StartPacks(lib, j, walk, st, rej).Stop?
  {
  }

  /** pull_folder against an honest server: it ends with the full closure of the target in
      the local store, or the session fails; it does not fail if the server can serve. */
  lemma FolderRuns(t: Talk, st: Store, rej: nat) returns (ok: bool, st': Store)
    requires Talking(t) && Sound(t.lib, st)
    ensures CanServe(t.lib, Peer(t), t.c.target) ==> ok
    ensures var n := At(t, StartPull(t.lib, J(t), st, rej));
            && (!ok ==> Breaks(t.lib, n))
            && (ok ==> && Extends(st, st') && (PacksOpen(t.lib, st) ==> PacksOpen(t.lib, st')) && Sound(t.lib, st')
                       && HoldsClosure(t.lib, st', t.c.target) && Leads(t, n, Ended(st', rej)))
  {
    var n := At(t, StartPull(t.lib, J(t), st, rej));
    var full := CanServe(t.lib, Peer(t), t.c.target);
    var root, st1 := ManifestRuns(t, st, rej);
    hide At, Leads, Breaks, NextLevel, HoldsClosure, StartPull, CanServe, Sound, PacksOpen;
    ok, st' := false, st1;
    if root.Some? {
      ok, st' := TreeRuns(t, root.value, st1, rej, full);
      var step := NextLevel(t.lib, J(t), [root.value], Walk({root.value}, {}), 0, st1, rej);
      if ok {
        SamePacks(t.lib, st, st1);
        LeadsTrans(t, n, step, Ended(st', rej));
      } else { BreaksOn(t, n, step); }
    }
  }

  lemma SamePacks(lib: Lib, a: Store, b: Store)
    requires a.packs == b.packs
    ensures PacksOpen(lib, a) == PacksOpen(lib, b)
  {
  }

  /** The manifest is fetched and parsed. */
  lemma ManifestRuns(t: Talk, st: Store, rej: nat) returns (root: Option<BlobId>, st': Store)
    requires Talking(t) && Sound(t.lib, st)
    ensures Sound(t.lib, st') && Extends(st, st') && st'.packs == st.packs
    ensures CanServe(t.lib, Peer(t), t.c.target) ==> root.Some? && RootAt(t.lib, Peer(t), t.c.target) == root
    ensures root.None? ==> Breaks(t.lib, At(t, StartPull(t.lib, J(t), st, rej)))
    ensures root.Some? ==> RootAt(t.lib, st', t.c.target) == root
    ensures root.Some? ==>
              Leads(t, At(t, StartPull(t.lib, J(t), st, rej)),
                    NextLevel(t.lib, J(t), [root.value], Walk({root.value}, {}), 0, st', rej))
  {
    hide At, NextLevel;
    st' := FetchRuns(t, ForManifest, Manifest, [t.c.target], J(t).retries + 1, st, rej);
    assert t.c.target in [t.c.target];
    root := if Has(st', Manifest, t.c.target)
      && AllHeld(Peer(t), Manifest, [t.c.target]) then RootAt(t.lib, st', t.c.target) else None;
    if CanServe(t.lib, Peer(t), t.c.target) {
      assert Has(Peer(t), Manifest, t.c.target);
      SameRoot(t.lib, st', Peer(t), t.c.target);
    }
  }

  lemma SameRoot(lib: Lib, a: Store, b: Store, id: BlobId)
    requires CollisionFree(lib) && Sound(lib, a) && Sound(lib, b) && Has(a, Manifest, id) && Has(b, Manifest, id)
    ensures RootAt(lib, a, id) == RootAt(lib, b, id)
  {
    assert lib.hash(a.blobs[(Manifest, id)]) == lib.hash(b.blobs[(Manifest, id)]);
  }
}
