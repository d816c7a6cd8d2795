/** Which folders each side thinks have to be pulled, and by whom. */
module Stages {
  import opened Blobs
  import opened Engine
  import opened Offers

  /** Nothing has happened yet: `run_engine` starts every outcome at the current manifest. */
  ghost predicate Fresh(fs: seq<Folder>) {
    forall i :: 0 <= i < |fs| ==> fs[i].after == fs[i].current && fs[i].agreed.None? && fs[i].remote.None?
  }

  lemma {:induction false} StageFromSpec(fs: seq<Folder>, pf: PeerFolders, thatSide: bool, i: nat)
    requires i <= |fs|
    ensures forall k :: k in StageFrom(fs, pf, thatSide, i) <==>
              i <= k < |fs| && fs[k].id in pf
              && (if thatSide then PullNeeded(fs[k].current, pf[fs[k].id]) else PullNeeded(pf[fs[k].id], fs[k].current))
    ensures Distinct(StageFrom(fs, pf, thatSide, i))
    decreases |fs| - i
  {
    if i < |fs| {
      StageFromSpec(fs, pf, thatSide, i + 1);
    }
  }

  /** The folder ids behind a list of positions. */
  function IdsAt(fs: seq<Folder>, idxs: seq<nat>): set<FolderId> {
    set k | k in idxs && k < |fs| :: fs[k].id
  }

  /** The folders the initiator (responder) pulls, as side `s` with peer `p` computes them. */
  function StageIds(s: Side, p: Side, whose: Role): set<FolderId> {
    IdsAt(s.folders, StageNeeded(s.folders, Told(Ids(s.folders) + Ids(p.folders), p.folders), whose, s.role))
  }

  lemma StageIdsSpec(s: Side, p: Side, whose: Role)
    requires WellFormed(s.folders) && WellFormed(p.folders) && Fresh(s.folders) && Fresh(p.folders)
    ensures forall id :: id in StageIds(s, p, whose) <==>
              id in Ids(s.folders)
              && (if whose == s.role then PullNeeded(Effective(s.folders, id), Effective(p.folders, id))
                  else PullNeeded(Effective(p.folders, id), Effective(s.folders, id)))
  {
    var pf := Told(Ids(s.folders) + Ids(p.folders), p.folders);
    StageFromSpec(s.folders, pf, whose == s.role, 0);
    var stage := StageNeeded(s.folders, pf, whose, s.role);
    forall id | id in Ids(s.folders)
      ensures id in StageIds(s, p, whose) <==>
              (if whose == s.role then PullNeeded(Effective(s.folders, id), Effective(p.folders, id))
               else PullNeeded(Effective(p.folders, id), Effective(s.folders, id)))
    {
      var k := Find(s.folders, id).value;
      FindAt(s.folders, k);
      assert s.folders[k].id in pf;
      forall k' | k' in stage && s.folders[k'].id == id ensures k' == k { FindAt(s.folders, k'); }
    }
  }

  /** A folder with a manifest that the other side does not configure. */
  ghost predicate Orphan(s: Side, p: Side, id: FolderId) {
    id in Ids(s.folders) && id !in Ids(p.folders) && Effective(s.folders, id).Some?
  }

  lemma UnknownHasNoManifest(fs: seq<Folder>, id: FolderId)
    requires id !in Ids(fs)
    ensures Effective(fs, id).None?
  {
  }

  /** The puller's own view of its stage is never larger than the peer's view of it, and what
      the peer adds is exactly its orphans. */
  lemma StageGap(s: Side, p: Side)
    requires s.role != p.role
    requires WellFormed(s.folders) && WellFormed(p.folders) && Fresh(s.folders) && Fresh(p.folders)
    ensures StageIds(s, p, s.role) <= StageIds(p, s, s.role)
    ensures forall id :: id in StageIds(p, s, s.role) && id !in StageIds(s, p, s.role) <==> Orphan(p, s, id)
  {
    StageIdsSpec(s, p, s.role);
    StageIdsSpec(p, s, s.role);
    forall id | id !in Ids(s.folders) ensures Effective(s.folders, id).None? { UnknownHasNoManifest(s.folders, id); }
    forall id | id !in Ids(p.folders) ensures Effective(p.folders, id).None? { UnknownHasNoManifest(p.folders, id); }
  }

  /** Both sides compute the same initiator stage and the same responder stage if and only if
      neither side holds a folder with a manifest that the other does not configure. */
  lemma SameStages(i: Side, r: Side)
    requires i.role.Initiator? && r.role.Responder?
    requires WellFormed(i.folders) && WellFormed(r.folders) && Fresh(i.folders) && Fresh(r.folders)
    ensures (forall whose :: StageIds(i, r, whose) == StageIds(r, i, whose))
       <==> (forall id :: !Orphan(i, r, id) && !Orphan(r, i, id))
  {
    StageGap(i, r);
    StageGap(r, i);
    if forall id :: !Orphan(i, r, id) && !Orphan(r, i, id) {
      forall whose ensures StageIds(i, r, whose) == StageIds(r, i, whose) {
        assert whose == i.role || whose == r.role;
      }
    } else {
      var id :| Orphan(i, r, id) || Orphan(r, i, id);
      var whose := if Orphan(r, i, id) then Initiator else Responder;
      assert StageIds(i, r, whose) != StageIds(r, i, whose);
    }
  }

  /** What decides the course of a session: do both sides agree on whether there is anything
      to pull? Only a side's orphans can make them disagree. */
  ghost predicate InStep(i: Side, r: Side) {
    && (StageIds(i, r, Initiator) == {} <==> StageIds(r, i, Initiator) == {})
    && (StageIds(i, r, Responder) == {} <==> StageIds(r, i, Responder) == {})
  }

  /** Some folder both sides configure, which `s` has to pull. */
  ghost predicate MustPull(s: Side, p: Side) {
    exists id ::
      id in Ids(s.folders) && id in Ids(p.folders) && PullNeeded(Effective(s.folders, id), Effective(p.folders, id))
  }

  ghost predicate HasOrphan(s: Side, p: Side) { exists id :: Orphan(s, p, id) }

  lemma MustPullIsStage(s: Side, p: Side)
    requires WellFormed(s.folders) && WellFormed(p.folders) && Fresh(s.folders) && Fresh(p.folders)
    ensures StageIds(s, p, s.role) != {} <==> MustPull(s, p)
  {
    StageIdsSpec(s, p, s.role);
    if StageIds(s, p, s.role) != {} {
      var id :| id in StageIds(s, p, s.role);
      if id !in Ids(p.folders) { UnknownHasNoManifest(p.folders, id); }
    }
  }

  /** In terms of the two configurations: a side with an orphan faces one that has something to
      pull from it anyway. */
  ghost predicate Masked(i: Side, r: Side) {
    (HasOrphan(r, i) ==> MustPull(i, r)) && (HasOrphan(i, r) ==> MustPull(r, i))
  }

  lemma InStepExactly(i: Side, r: Side)
    requires i.role.Initiator? && r.role.Responder?
    requires WellFormed(i.folders) && WellFormed(r.folders) && Fresh(i.folders) && Fresh(r.folders)
    ensures InStep(i, r) <==> Masked(i, r)
  {
    hide StageIds, WellFormed, Fresh, Orphan;
    StageGap(i, r);
    StageGap(r, i);
    MustPullIsStage(i, r);
    MustPullIsStage(r, i);
    assert StageIds(r, i, Initiator) != {} <==> StageIds(i, r, Initiator) != {} || HasOrphan(r, i);
    assert StageIds(i, r, Responder) != {} <==> StageIds(r, i, Responder) != {} || HasOrphan(i, r);
  }

  lemma NoOrphansInStep(i: Side, r: Side)
    requires i.role.Initiator? && r.role.Responder?
    requires WellFormed(i.folders) && WellFormed(r.folders) && Fresh(i.folders) && Fresh(r.folders)
    requires forall id :: !Orphan(i, r, id) && !Orphan(r, i, id)
    ensures InStep(i, r)
  {
    InStepExactly(i, r);
  }

  /** The plan a side makes, by whether the two stages are empty. */
  lemma PlanShape(s: Side, p: Side)
    requires s.role != p.role
    requires WellFormed(s.folders) && WellFormed(p.folders) && Fresh(s.folders) && Fresh(p.folders)
    ensures var pf := Told(Ids(s.folders) + Ids(p.folders), p.folders);
            var mine := StageNeeded(s.folders, pf, s.role, s.role);
            var pull := if StageIds(s, p, s.role) == {} then [] else [PullStage(mine)];
            var serve := if StageIds(s, p, p.role) == {} then [] else [ServeStage];
            Plan(s.role, s.folders, pf) == if s.role.Initiator? then pull + serve else serve + pull
  {
    var pf := Told(Ids(s.folders) + Ids(p.folders), p.folders);
    EmptyStage(s, p, s.role);
    EmptyStage(s, p, p.role);
  }

  lemma EmptyStage(s: Side, p: Side, whose: Role)
    requires WellFormed(s.folders)
    ensures var pf := Told(Ids(s.folders) + Ids(p.folders), p.folders);
            StageNeeded(s.folders, pf, whose, s.role) == [] <==> StageIds(s, p, whose) == {}
  {
    var pf := Told(Ids(s.folders) + Ids(p.folders), p.folders);
    var stage := StageNeeded(s.folders, pf, whose, s.role);
    StageFromSpec(s.folders, pf, whose == s.role, 0);
    if stage != [] {
      assert stage[0] in stage;
      assert s.folders[stage[0]].id in StageIds(s, p, whose);
    }
  }
}
