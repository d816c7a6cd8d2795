# ferry in Dafny

A model of the core of ferry, a peer-to-peer folder synchroniser, with proofs about it.

- **Sync session.** Each side is a machine that reacts to one frame at a time (`Engine`); two of
  them over two FIFO channels form a net whose schedules are arbitrary (`Network`). `Offers`,
  `Stages`, `Serving`, `PullTogether`, `FolderPull` and `Session` follow one schedule through each
  part of a session; since nets of such machines are confluent, every schedule goes by way of the
  nets that one reaches, and `Agreement` concludes for all schedules. `PullSafety` and `PullLimits` are
  about a puller facing any peer at all. `EngineLoops`, `OfferLoops` and `EngineRun` are the session as it is
  written, over a wire with arbitrary frames, proved to send and conclude what the machine does.
  Stores are maps from (kind, id) to bytes; hashing, parsing and opening packs are
  function-valued fields of `Lib`.
- **Tree applier.** `FileTree` is a live directory tree and the file-system calls on it, each of
  which may fail; `Disk.trace` keeps every state, so that contracts speak about a process that
  stops anywhere. `ApplyPlan`, `ApplyExec`, `ApplyGuard` and `ApplyRun` follow planning,
  execution, guarding and `run`; `ApplyLaws`, `ApplyStates` and `ApplyRecord` draw the laws from the
  history of a run; `Desired` and `Changes` say them of the entries of a tree and of the lists of a
  change set, and `Applier` of the entry points. `UnixTime`, `TempNames` and `Paths` support them;
  `FoldCache` is the cache of normalised names.
- **Messages.** `Wire`, `Codec` and `Streams` go from numbers to messages over a duplex stream;
  `Layout` gives the place of every byte, and `Frames` ties messages to the frames of a session.
- **Pairing codes** (`Bits`, `Base32`, `ShortCode`), **ignore rules** (`Ignore`), **case
  conflicts** (`CaseFold`) and **routes** (`Routes`).

`dafny verify dfyconfig.toml` checks everything.

Where a promise is not kept by the code, the model keeps the code's behaviour; one lemma gives the
exact condition and another an input that fails.

| promise | exact condition | input |
|---|---|---|
| both sides compute the same stages | `Stages.SameStages` | `Agreement.OrphansJam` |
| a session between two sides that can serve completes | `Agreement.CompletesExactly` | `Agreement.OrphansJam`, `Agreement.JamExists` |
| a pull that ends well has the closure | `PullSafety.PullHoldsExactly` | `PullSafety.MislabelledPull`, `PullSafety.MislabelledExists` |
| a modification time comes back | `UnixTime.RoundTrip` | `UnixTime.OutOfRange` |
| noting a creation keeps the fold cache coherent | `FoldCache.NoteExact` | `FoldCache.RewriteHidesSpelling` |
| what is encoded is parsed, and the reverse | `Codec.RoundTrip`, `Codec.EncodableCanonical` | `Codec.ReservedOffer`, `Codec.EmptyBlobParses` |
| an empty read means the end of the stream | the contract of `Streams.Duplex.Read` | `Streams.EmptyRecordReadsAsEnd` |
| a walk reaches what is not ignored | `Ignore.ReachedExactly` | `Ignore.QuarantinedMissed` |

The comment on the alphabet in `crates/ferry-crypto/src/base32.rs` speaks of six-character codes; the
code makes twenty symbols, and so does the model.

Assumptions of the session: folder ids are distinct and not the all-zero sentinel, no folder
stands at the zero manifest, an index has at most 262,144 rows, every frame fits the 64 MiB that a
frame body may have (a batch can pass its flush limit by one blob), stores start sound, ordered
iteration visits each member once, and for statements about "the same tree" the hash has no
collisions. Assumptions of the applier: a case-sensitive Unix host, live names and the names of the
desired tree or change set in normal form (so that resolving a path is the identity; the cache has its
own theorem), no live symbolic link on the
way to a planned path or at a chosen temporary name, no other writer, no desired name that is a
temporary one, paths named in a change set non-empty, sibling names unique and sizes equal to the sum
of chunk lengths.

## Model

| member | source | states |
|---|---|---|
| Offers.ExchangeCompletes | crates/ferry-proto/src/engine.rs:413-597 | No schedule stalls an offer exchange or makes a side fail in it: every schedule goes by way of the net where both maps range over exactly the union of the two folder sets and give the other side's effective manifest (none for zero or unknown), and in the first round its index rows; both sides go on from there, with no offer or advert left on the channels |
| Offers.AnnounceAndEcho | crates/ferry-proto/src/engine.rs:446-597 | One announced folder, with its adverts, is echoed by the listener; afterwards both sides know it |
| Offers.AdvertsArrive | crates/ferry-proto/src/engine.rs:612-669 | The advert frames of an index of at most 262,144 rows are accepted and give back its rows, later rows winning |
| Offers.InsertLast | crates/ferry-proto/src/engine.rs:612-635 | Of the advertised rows for an id the last one counts |
| Offers.InsertNone | crates/ferry-proto/src/engine.rs:612-635 | Rows for other ids change nothing |
| Stages.StageGap | crates/ferry-proto/src/engine.rs:263-288 | What the peer thinks a side has to pull is what that side thinks, plus exactly the peer's folders with a manifest that the side does not configure |
| Stages.SameStages | crates/ferry-proto/src/engine.rs:213-288 | Both sides compute the same initiator set and the same responder set if and only if neither holds a folder with a manifest that the other does not configure |
| Stages.InStepExactly | crates/ferry-proto/src/engine.rs:263-288 | Both sides agree on whether each stage is empty if and only if each side with a folder the other does not configure faces one that has something to pull from it anyway |
| Stages.PlanShape | crates/ferry-proto/src/engine.rs:213-261 | A side's sequence of stages, by whether the two sets are empty |
| Serving.ServeShape | crates/ferry-proto/src/engine.rs:363-388 | The reply to a request is non-empty batches, each under both flush limits before its last item and all but the last at one of them, then one terminator; joined, they are the requested items the store holds |
| Serving.HeldOrder | crates/ferry-proto/src/engine.rs:363-388 | The items of a reply are, in request order, exactly those requested that the store holds, with their kind, id and bytes |
| Serving.PackShape | crates/ferry-proto/src/engine.rs:390-411 | The reply to a pack request is, in request order, one frame for each requested pack that is there and hashes to its name, with its bytes, then one terminator |
| PullSafety.ReactKeeps | crates/ferry-proto/src/engine.rs:672-912 | Whatever frame a peer sends, the pull keeps its invariant: only blobs that hash to their id are stored, nothing is lost, every node id is enqueued once, and what was scanned is held |
| PullSafety.ScanLevelSpec | crates/ferry-proto/src/engine.rs:847-882 | Scanning a level queues exactly the children not enqueued before, each once, and notes every chunk of the nodes |
| PullSafety.PullCompletes | crates/ferry-proto/src/engine.rs:672-912 | If a pull ends well against any peer, the store has only grown, is sound, and holds the manifest and every reachable tree node; every chunk they name was received under some kind, and under its own if replies carry the requested kind |
| PullSafety.PullHoldsExactly | crates/ferry-proto/src/engine.rs:672-912 | Against any peer, a pull that ends well leaves the full closure if and only if every chunk the tree names was held before, or came as an item labelled a chunk that hashes to its id, or readable inside a pack that hashes to its name |
| PullSafety.MislabelledPull | crates/ferry-proto/src/engine.rs:672-912 | A peer that serves a whole one-file tree but labels its chunk a polynomial: from the start of the pull to its good end every frame is accepted, and the closure is not there |
| PullSafety.MislabelledExists | crates/ferry-proto/src/engine.rs:672-912 | Such a library, job and run of frames exist, with a hash without collisions |
| PullTogether.FetchRuns | crates/ferry-proto/src/engine.rs:672-736 | A puller and a serving peer together: fetching ends well, with every blob stored, if the peer holds every wanted blob, and otherwise the session fails |
| PullTogether.WalkRuns | crates/ferry-proto/src/engine.rs:847-882 | The breadth-first walk against a serving peer reaches the end of the tree or the session fails; it does not fail if the peer holds the tree within the round budget |
| PullTogether.AskOnce | crates/ferry-proto/src/engine.rs:363-388 | One request and its whole reply: what the peer holds of it is stored, and nothing is left in flight |
| FolderPull.PacksRun | crates/ferry-proto/src/engine.rs:390-411 | Pack requests and their replies keep the pull going whatever packs the peer still has, as long as they open; every wanted chunk that the adverts place in an asked pack, and that is in it, is ticked off |
| FolderPull.WorthAsking | crates/ferry-proto/src/engine.rs:738-764 | A pack is asked for if and only if the adverts place two of the wanted chunks in it, or, for a side that wants packs only, one |
| FolderPull.PacksSpareItems | crates/ferry-proto/src/engine.rs:884-911 | From a serving peer whose packs open, a missing chunk that the adverts place in an asked pack that contains it is not asked for again as an item; what is asked for as items is missing, and was not brought by a pack |
| FolderPull.FolderRuns | crates/ferry-proto/src/engine.rs:823-912 | Pulling one folder from a serving peer ends with the full closure of the target in the local store, or the session fails; it does not fail if the peer can serve the closure |
| Session.StageRuns | crates/ferry-proto/src/engine.rs:290-351 | A pull stage facing a serve stage: every schedule goes by way of the net where every folder is pulled, the end marker is consumed after the last reply, and both sides enter their next stage with both channels empty; or the session fails, which it does not if the peer can serve |
| Session.BothStages | crates/ferry-proto/src/engine.rs:213-261 | Through both stages every schedule goes by way of the net that opens the second exchange, with clean channels, where each side holds what the other had for it and lost nothing; or the session fails |
| Agreement.OnlyInStepCompletes | crates/ferry-proto/src/engine.rs:213-351 | A session can complete on both sides, under any schedule, only if both sides agree on whether each of the two stages is empty |
| Agreement.SessionCompletes | crates/ferry-proto/src/engine.rs:92-152 | Two sides in step that can serve their manifests always complete: every schedule can be continued to the end, with both channels empty |
| Agreement.Lockstep | crates/ferry-proto/src/engine.rs:213-261 | From the start of a session between sides in step, every schedule goes by way of the net that opens the second exchange; or the session fails, which it does not if both sides can serve |
| Agreement.CompletesExactly | crates/ferry-proto/src/engine.rs:92-152 | Between sides that can serve their manifests, some schedule completes if and only if each side with a folder, with a manifest, that the other does not configure faces one that has something to pull from it anyway |
| Agreement.SharedSessionCompletes | crates/ferry-proto/src/engine.rs:92-152 | Without such folders every schedule can be continued to completion, with both channels empty |
| Agreement.OrphansJam | crates/ferry-proto/src/engine.rs:213-351 | Two sides with one such folder each, both able to serve it: their stages differ, and every schedule comes to a net that is stuck with neither side finished |
| Agreement.JamExists | crates/ferry-proto/src/engine.rs:213-351 | Such a library and such sides exist |
| Agreement.CompletedSession | crates/ferry-proto/src/engine.rs:286-319 | Every completed session, under any schedule and from any stores, leaves each side with the settlement of what both started with: stores grown, nothing rejected, the other side's manifest taken where it had none and recorded as the remote one, equal manifests recorded as agreed |
| Agreement.AgreementMeans | crates/ferry-proto/src/engine.rs:914-948 | For a shared folder both sides record the same manifest or neither does; a recorded agreement is backed by the full closure in both stores; two different manifests are never agreed on but leave both closures in both stores |
| PullLimits.SilentPeer | crates/ferry-proto/src/engine.rs:672-705 | Facing a peer that answers every request with nothing, a fetch asks for all its ids in groups of 512, in order, retries + 1 times over, and then gives up |
| PullLimits.PullPersists | crates/ferry-proto/src/engine.rs:823-912 | That is so of the manifest, of each level of nodes and of the chunks no pack brought |
| PullLimits.ItemFlood | crates/ferry-proto/src/engine.rs:707-736 | A reply of fewer than 262,144 batches is taken in to its end, whatever of it is rejected; at that many the pull stops with a limit error |
| PullLimits.PackFlood | crates/ferry-proto/src/engine.rs:776-812 | A reply of fewer than 1,024 packs is taken in to its end; at that many the pull stops with a limit error |
| PullLimits.CountsAnew | crates/ferry-proto/src/engine.rs:672-814 | Both counts start anew with each request |
| PullLimits.AdvertFlood | crates/ferry-proto/src/engine.rs:612-635 | The slices of one index are taken in if and only if they have no more than 262,144 rows together; beyond that the exchange stops with a limit error |
| PullLimits.RejectionsCounted | crates/ferry-proto/src/engine.rs:726-734 | Every received item that does not hash to its id is counted as rejected, and nothing else is |
| PullLimits.ItemsOnlyRun | crates/ferry-proto/src/engine.rs:884-911 | A side that wants items only never asks for a pack, whatever the peer sends |
| PullLimits.AdvertShape | crates/ferry-proto/src/engine.rs:637-669 | An index goes out in slices of 2,048 rows, in order, all but the last marked as followed by more; an empty one is one empty slice |
| PullLimits.LastWord | crates/ferry-proto/src/engine.rs:155-175 | Whatever a side is doing and whatever frame makes it fail, it says farewell once and last, with the reason its error stands for, and not at all if the peer has closed or the transport is gone |
| PullLimits.OutOfPlace | crates/ferry-proto/src/engine.rs:181-184 | A frame that is garbled, over a cap, or not one a side takes where it is, ends the session at once with nothing changed, and the peer is told that it broke the protocol |
| Blobs.ClosureCoversPaths | crates/ferry-proto/src/engine.rs:823-912 | Holding a closure means holding every node that any path of child ids from the root leads to |
| Blobs.ClosureExactly | crates/ferry-proto/src/engine.rs:823-912 | A store with the tree has the closure exactly if it has every chunk named by a node that child links lead to |
| EngineLoops.TakeBatch | crates/ferry-proto/src/engine.rs:726-734 | The loop over received items stores and counts exactly what the machine's step does |
| EngineLoops.ReadItemBatches | crates/ferry-proto/src/engine.rs:707-736 | Reading batches up to the terminator, within the batch budget, does what the machine does on the same frames |
| EngineLoops.FetchBlobs | crates/ferry-proto/src/engine.rs:672-705 | The retry loop sends and concludes what the machine does, with at most (retries+1) times ceil(n/512) requests |
| EngineLoops.ReadPackFrames | crates/ferry-proto/src/engine.rs:776-812 | Reading packs up to the terminator, within the frame budget, does what the machine does |
| EngineLoops.FetchViaPacks | crates/ferry-proto/src/engine.rs:738-814 | Choosing packs that hold enough wanted chunks, and asking for them in groups of 128, does what the machine does |
| EngineLoops.VisitLevel | crates/ferry-proto/src/engine.rs:865-882 | The loop over a level's entries queues and notes what the machine does |
| EngineLoops.WalkTree | crates/ferry-proto/src/engine.rs:847-882 | The breadth-first loop ends, and does what the machine does |
| EngineLoops.PullFolder | crates/ferry-proto/src/engine.rs:823-912 | On any incoming frames the written loop ends as the machine does; if it ends well the store holds the target's tree, and its closure if replies carry the requested kind |
| EngineLoops.PullChunks | crates/ferry-proto/src/engine.rs:884-911 | Missing chunks: packs first, the rest one by one, as the machine does |
| OfferLoops.SendItems | crates/ferry-proto/src/engine.rs:363-388 | The serving loop sends the machine's reply: batches of what was requested and is held, in request order, full but for the last, then one terminator |
| OfferLoops.SendPacks | crates/ferry-proto/src/engine.rs:390-411 | The serving loop sends the machine's reply: in request order exactly the requested packs that are there and hash to their name, with their bytes, then one terminator |
| OfferLoops.ServeRequests | crates/ferry-proto/src/engine.rs:331-351 | Serving goes on until the end marker; every reply is the machine's, and it gives up on a request exactly where and for the reason the machine does |
| OfferLoops.AnswersAreTheMachines | crates/ferry-proto/src/engine.rs:331-361 | A serving machine replies just so and stays serving, leaves the stage on the end marker, and fails with the same error on anything else |
| OfferLoops.SendAdverts | crates/ferry-proto/src/engine.rs:637-669 | Advert frames of at most 2048 rows, all but the last flagged as having more |
| OfferLoops.ComputeStage | crates/ferry-proto/src/engine.rs:263-284 | The loop collects the folders a side has to pull, in configuration order |
| OfferLoops.SettleFolders | crates/ferry-proto/src/engine.rs:914-948 | After the second exchange a folder is recorded as agreed exactly if both manifests are there and equal |
| OfferLoops.RecvOffer | crates/ferry-proto/src/engine.rs:498-520 | Receiving one offer with its adverts, as the machine does |
| OfferLoops.ExchangeOffers | crates/ferry-proto/src/engine.rs:413-597 | The written exchange, in either role, sends and learns what the machine does on the same frames |
| EngineRun.Offering | crates/ferry-proto/src/engine.rs:413-597 | The written exchange, on any frames, follows the machine from the start of the exchange to what it does next |
| EngineRun.RunStage | crates/ferry-proto/src/engine.rs:290-329 | Pulling folder after folder and then sending the end marker follows the machine through its pull stage |
| EngineRun.ServePeer | crates/ferry-proto/src/engine.rs:331-351 | Serving follows the machine through its serve stage |
| EngineRun.BothStages | crates/ferry-proto/src/engine.rs:222-258 | The two stages, each only if it is not empty and in the order of the role, follow the machine's plan |
| EngineRun.FolderPhases | crates/ferry-proto/src/engine.rs:213-261 | From the first exchange to the end of the second, on any frames, the code follows the machine |
| EngineRun.FinishAfterSync | crates/ferry-proto/src/engine.rs:914-948 | The second exchange and the settlement follow the machine |
| EngineRun.Abort | crates/ferry-proto/src/engine.rs:155-175 | The goodbye sent on an error is the machine's |
| EngineRun.RunEngine | crates/ferry-proto/src/engine.rs:92-152 | On any incoming frames a session takes, sends and concludes exactly what the machine does fed with the frames it took: the same final folders, the same error, or an end of stream where the machine waits |
| EngineRun.ScheduleIsTwoRuns | crates/ferry-proto/src/engine.rs:92-152 | In every schedule of the two machines each side is where such a session is after the frames delivered to it, and what one has sent is what the other has taken, then what is under way |
| UnixTime.RoundTrip | crates/ferry-platform/src/time.rs:3-24 | Splitting a joined time gives the pair back if and only if nanoseconds are below a second and the total magnitude is below 2^64 |
| UnixTime.OutOfRange | crates/ferry-platform/src/time.rs:3-24 | Two pairs that do not come back: a second's worth of nanoseconds, and the largest number of seconds |
| UnixTime.StandsInRange | crates/ferry-platform/src/time.rs:3-24 | In that range a live time, of a file, directory or link, stands for a pair exactly if it splits into it |
| TempNames.NameForIsTemp | crates/ferry-materialize/src/temp.rs:38-97 | Every name made for a temporary file, mangled or hashed, is recognised as one |
| TempNames.TempExactly | crates/ferry-materialize/src/temp.rs:76-97 | A name is recognised as temporary if and only if it is one of the two prefixes, then a stem and .tmp with the stem not empty, or a stem, .tmp, a dot and eight hexadecimal digits |
| TempNames.RFind | crates/ferry-materialize/src/temp.rs:82-97 | The last occurrence of a suffix, or none |
| FileTree.Disk.RemoveFile | crates/ferry-materialize/src/apply.rs:473-483 | A file or link goes and nothing else changes but the parent's time; or the call fails and nothing changes |
| FileTree.Disk.RemoveDir | crates/ferry-materialize/src/apply.rs:513-516 | Only an empty directory can be removed |
| FileTree.Disk.CreateDir | crates/ferry-materialize/src/apply.rs:541-551 | A directory appears, or something was there, or the call is refused |
| FileTree.Disk.CreateFile | crates/ferry-materialize/src/apply.rs:741-742 | A new empty file, or an existing file emptied |
| FileTree.Disk.Rename | crates/ferry-materialize/src/apply.rs:777-778 | What was at the destination, unless a directory, is replaced in one step |
| ApplyPlan.CompareFile | crates/ferry-materialize/src/apply.rs:1663-1690 | The loop over chunks compares the file with them from its start |
| ApplyPlan.CompareSound | crates/ferry-materialize/src/apply.rs:1663-1690 | A match means the file starts with the content, and is the content if its size is the sum of the chunk lengths; and the content always matches |
| ApplyPlan.SpellsContent | crates/ferry-materialize/src/apply.rs:731-775 | The content of a list of chunks is the bytes that fall into consecutive pieces, each of its recorded length and stored under its id |
| ApplyPlan.PlanSound | crates/ferry-materialize/src/apply.rs:797-889 | What is planned for an entry, carried out on what is there, is enough to realise the entry; a skip is counted as one, and an existing directory is touched |
| ApplyPlan.PlanSkips | crates/ferry-materialize/src/apply.rs:797-889 | What is there already, its time included, is skipped |
| ApplyPlan.FlattenTreeShaped | crates/ferry-materialize/src/apply.rs:1282-1307 | Flattening a valid tree lists no path twice, and every parent as a directory |
| ApplyPlan.FlattenLeads | crates/ferry-materialize/src/apply.rs:1282-1307 | What flattening lists is an entry, under the names that lead to it |
| ApplyPlan.LeadsFlatten | crates/ferry-materialize/src/apply.rs:1282-1307 | Every entry that names lead to is listed |
| ApplyExec.RemoveLeaf | crates/ferry-materialize/src/apply.rs:473-483 | One file or link is removed and recorded |
| ApplyExec.RemoveEmpty | crates/ferry-materialize/src/apply.rs:473-483 | One empty directory is removed and recorded |
| ApplyExec.RemoveDeep | crates/ferry-materialize/src/apply.rs:490-517 | A directory is removed children first; every state in between has lost only things at or below it; whatever is gone is recorded, in that order |
| ApplyExec.ExecRemove | crates/ferry-materialize/src/apply.rs:461-488 | A removal takes what it names (everything below it if deep), and nothing else in any state, and records it; a missing path is no error, one below a live file is |
| ApplyExec.RemoveAll | crates/ferry-materialize/src/apply.rs:439-442 | After the removal phase exactly what the removals take is gone; in every state only such things are missing; the deletions list exactly what is gone, children first |
| ApplyExec.TempPath | crates/ferry-materialize/src/apply.rs:714-726 | The draft goes beside the destination under a name recognised as temporary |
| ApplyExec.WriteAll | crates/ferry-materialize/src/apply.rs:763-763 | Bytes reach the draft in pieces of any size, with a state after each; in the end all are there, behind what was |
| ApplyExec.Draft | crates/ferry-materialize/src/apply.rs:731-775 | Until the rename only the temporary file differs, whatever piece of a chunk was written last; when the draft is complete it has the content, exec bit and time |
| ApplyExec.WriteAtomically | crates/ferry-materialize/src/apply.rs:699-779 | In every state the destination holds its old bytes or its new bytes, whole; on success no draft is left |
| ApplyExec.ExecFile | crates/ferry-materialize/src/apply.rs:613-632 | A directory in the way goes first; the file ends up with content, exec bit and time |
| ApplyExec.ExecLink | crates/ferry-materialize/src/apply.rs:573-612 | A refused target changes nothing; else the link replaces what is there by a rename and gets its time |
| ApplyExec.ExecMkdir | crates/ferry-materialize/src/apply.rs:528-563 | A file in the way is removed; an existing directory is fine; everything else stays |
| ApplyExec.ExecRestore | crates/ferry-materialize/src/apply.rs:564-572 | Only the time changes |
| ApplyExec.ExecUpsert | crates/ferry-materialize/src/apply.rs:519-635 | Each mutation, in every state on the way, reaches only its own path, what is below it if it is replaced, and temporary names beside it; it ends with what it asks for, and records as deleted all that stood in its way and nothing else |
| ApplyRun.PlanAll | crates/ferry-materialize/src/apply.rs:384-402 | Planning changes nothing and gives each entry its planned mutation, the touches of directories in place, and the number of skips |
| ApplyRun.UpsertAll | crates/ferry-materialize/src/apply.rs:444-446 | The upsert phase as a history of states, one per upsert, with every state in between accounted for; the books match, and between any two upserts the record grows by what had to make room; without a repeated path deletions stay children first |
| ApplyRun.TouchAll | crates/ferry-materialize/src/apply.rs:448-451 | Only the times of the directories named change; each touched once ends with its time; what is current is left alone |
| ApplyRun.Run | crates/ferry-materialize/src/apply.rs:377-453 | Nothing is touched before everything is planned and, in Expect mode, guarded; divergences are reported exactly for a guard that does not pass, each is so, and they are in order of paths; every later state is a state of the three phases |
| ApplyGuard.LookUp | crates/ferry-materialize/src/apply.rs:1220-1239 | Descending the base component by component finds the entry at a path |
| ApplyGuard.LookupLeads | crates/ferry-materialize/src/apply.rs:1220-1239 | The entry found at a path is the one its names lead to |
| ApplyGuard.CheckLive | crates/ferry-materialize/src/apply.rs:1003-1079 | No divergence is added exactly if the live entry matches in kind, exec bit and bytes, or target; one that is added is so |
| ApplyGuard.MatchesBytes | crates/ferry-materialize/src/apply.rs:1003-1079 | Against a validated manifest, to match is to have the very bytes, the exec bit, or the target |
| ApplyGuard.VerifySubtree | crates/ferry-materialize/src/apply.rs:1081-1150 | The stack walk ends, sees every live path below once, and adds no divergence exactly if live and expected entries match; those it adds are so |
| ApplyGuard.GuardRemoval | crates/ferry-materialize/src/apply.rs:926-967 | A removal passes exactly if the base has the path, it is live with the same kind, and it, or all below it, matches |
| ApplyGuard.GuardUpsert | crates/ferry-materialize/src/apply.rs:969-1001 | An upsert passes exactly if base and live are both absent or both present and match; a directory in the base is not checked |
| ApplyGuard.GuardAll | crates/ferry-materialize/src/apply.rs:404-433 | No divergence is found exactly if every removal and every non-skipped upsert passes |
| ApplyGuard.BelowLookup | crates/ferry-materialize/src/apply.rs:1242-1261 | The entries expected below a directory of the base are those a look-up finds there |
| ApplyGuard.GuardAccepts | crates/ferry-materialize/src/apply.rs:404-433 | Where the live tree is the base, times aside, the guard objects to no removal of what the base has and to no upsert |
| ApplyGuard.SoIsTruthful | crates/ferry-materialize/src/apply.rs:926-1079 | Every divergence reported says what is so of the live tree and the base: what is missing, what is not expected, or how an entry differs |
| ApplyLaws.RunFrame | crates/ferry-materialize/src/apply.rs:377-453 | In no state of a run has anything changed that no removal takes and no upsert reaches |
| ApplyLaws.RunKeys | crates/ferry-materialize/src/apply.rs:377-453 | In every state of a run a name that is neither old nor listed is a temporary one |
| ApplyLaws.CompleteKeys | crates/ferry-materialize/src/apply.rs:377-453 | A completed run leaves no draft: every name is old or listed |
| ApplyLaws.LossRecorded | crates/ferry-materialize/src/apply.rs:377-517 | Whatever a completed run has taken away, by removals or to make room, is in its list of deletions, temporary names aside |
| ApplyLaws.PlanApart | crates/ferry-materialize/src/apply.rs:384-402 | In a plan for a whole tree no upsert reaches another one's path |
| ApplyLaws.PathRealised | crates/ferry-materialize/src/apply.rs:377-453 | A completed run leaves a listed path as it was asked for |
| ApplyLaws.CompleteHolds | crates/ferry-materialize/src/apply.rs:272-297 | A completed run of a whole tree leaves exactly that tree |
| ApplyLaws.NeverTorn | crates/ferry-materialize/src/apply.rs:699-779 | In every state a file that is to be a file holds its old or its new bytes |
| ApplyLaws.SecondPlan | crates/ferry-materialize/src/apply.rs:797-889 | On a tree that holds everything, with times in range, planning decides on skips only |
| ApplyLaws.GuardedLoss | crates/ferry-materialize/src/apply.rs:404-433 | Once the guard has passed, whatever live file or link is lost in any state is what the names lead to in the base, in kind, bytes, exec bit or target; or an upsert went where the base has a directory |
| ApplyLaws.CreationsAscend | crates/ferry-materialize/src/apply.rs:383-383 | Creations come out parents first |
| Paths.StrLessExactly | crates/ferry-materialize/src/apply.rs:383-383 | Names are ordered by the first character that differs, a prefix first |
| Paths.LeqExactly | crates/ferry-materialize/src/apply.rs:383-383 | Paths are ordered by the first name that differs, a prefix first |
| ApplyStates.MadeAnew | crates/ferry-materialize/src/apply.rs:969-1001 | What is made where nothing is live is not in the base: what someone has removed is not made again |
| ApplyStates.ChangesApplied | crates/ferry-materialize/src/apply.rs:377-453 | A completed run leaves nothing that a removal takes and no upsert names, and of consistent upserts each path as asked for, a directory's time included |
| ApplyRecord.CreatesExactly | crates/ferry-materialize/src/apply.rs:797-889 | An entry is written anew if and only if what is live differs from it in kind, exec bit, bytes or target |
| ApplyRecord.DeletedExactly | crates/ferry-materialize/src/apply.rs:377-517 | The deletions recorded are, temporary names aside, exactly what was live and was removed, is gone, or has turned from a directory into something else or the reverse |
| ApplyRecord.RunWritten | crates/ferry-materialize/src/apply.rs:613-632 | If every upsert holds in the end, the bytes counted as written are those of the files made |
| Desired.TreeHeld | crates/ferry-materialize/src/apply.rs:272-297 | The listed upserts hold if and only if every entry of the tree is live where its names lead, with its own kind, exec bit, bytes or target and time, and every live path with no temporary name on it leads to an entry |
| Desired.NeatTree | crates/ferry-materialize/src/apply.rs:377-517 | What a completed run of a whole tree says of itself: the creations are exactly the entries that differed, or that a removed name of the same folded key hid from the planner; the deletions are exactly what was struck; the counts, of bytes too, agree |
| Applier.WalkLive | crates/ferry-materialize/src/apply.rs:1309-1341 | The live walk lists exactly the paths without a temporary name among their components |
| Applier.ApplyTree | crates/ferry-materialize/src/apply.rs:272-297 | Done means that every path that leads by names to an entry of the tree is live with that entry's kind, exec bit, bytes of its chunks, target and time, and that every live path with no temporary name on it leads to an entry; no draft is left, and creations, deletions and counts are exact and in order. In every state a file that stays a file has its old or its new bytes, and a new name is an entry's or a temporary one. A divergence changes nothing, is not reported of a live tree that is the base, and says what is so; with a base, whatever is lost in any state was as the base says, and nothing the base has is made again. On a tree already in place nothing changes, and every entry is counted as skipped |
| Changes.Divide | crates/ferry-materialize/src/apply.rs:299-336 | A change set as removals and upserts, one of each for a change of type |
| Changes.DividedExactly | crates/ferry-materialize/src/apply.rs:299-336 | The removals take exactly what the set removes or changes the type of, with all below what was a directory; the upserts are exactly its added, changed and re-typed states |
| Changes.AppliedFulfils | crates/ferry-materialize/src/apply.rs:299-336 | In terms of the lists of the set: what was taken away is gone unless it was put back, and in a coherent set each state that was put is live with its own kind, exec bit, bytes or target, and time |
| Changes.RecordedSet | crates/ferry-materialize/src/apply.rs:377-517 | What a completed run of a change set says of itself: the creations are exactly the states put that differed; all that is gone is among the deletions, which for a coherent set are exactly what was taken away or struck; the counts agree |
| Applier.ApplyChangeSet | crates/ferry-materialize/src/apply.rs:299-346 | Done means that what the set's lists take away is gone, with all below what was a directory, unless added, changed or re-typed by the set; that in a coherent set every added or changed state and the new state of every change of type is live with its own kind, exec bit, bytes of its chunks, target and time; and that the record is exact and in order. In every state only paths with a named path as prefix have changed, directory times and temporary names aside; guarded as above |
| Applier.UpsertedTwice | crates/ferry-materialize/src/apply.rs:299-346 | Why no path may be upserted twice: a change set that adds a live file's path as a file and a directory, and one below it as a directory and a file, if applied to the end, records the deletion of the upper path before that of the lower |
| Applier.RestoreDirTimes | crates/ferry-materialize/src/apply.rs:358-375 | Only the times of directories of the tree change; done means every directory of the tree that is live has the time of its entry |
| Applier.SortedByDepth | crates/ferry-materialize/src/apply.rs:358-375 | The directories are gone through from the deepest up |
| Applier.DirTimesListed | crates/ferry-materialize/src/apply.rs:1263-1280 | The times collected are those of the directories listed |
| Applier.ApplySession | crates/ferry-materialize/src/apply.rs:348-356 | The change set, then the directory times of the agreed tree: the same of the lists of the set, except that a directory of the agreed tree has the time of its entry there; confined, guarded and recorded as before |
| FoldCache.Scan | crates/ferry-materialize/src/apply.rs:1456-1470 | A scan groups the live names by normal form, each once |
| FoldCache.Pick | crates/ferry-materialize/src/apply.rs:1472-1494 | Among live spellings: none, the only one, a refusal if there are two, or under the lenient policy the least |
| FoldCache.NfcFoldCache.Clear | crates/ferry-materialize/src/apply.rs:1375-1378 | Every run starts from an empty cache |
| FoldCache.NfcFoldCache.MatchLive | crates/ferry-materialize/src/apply.rs:1401-1411 | A cached or scanned directory gives the choice a fresh scan would give |
| FoldCache.NfcFoldCache.Resolve | crates/ferry-materialize/src/apply.rs:1385-1399 | If the cached directories on its way are as a fresh scan would have them, a path resolves as with fresh scans, component by component, and they stay so; the rest of the cache does not matter |
| FoldCache.NfcFoldCache.NoteCreated | crates/ferry-materialize/src/apply.rs:1413-1431 | What noting a creation does to the cache |
| FoldCache.NfcFoldCache.NoteRemoved | crates/ferry-materialize/src/apply.rs:1433-1453 | What noting a removal does to the cache |
| FoldCache.EveryRunFaithful | crates/ferry-materialize/src/apply.rs:1385-1453 | Under every interleaving of scans, creations and shallow or deep removals, the fold of every directory that was scanned, or created by the run, equals a fresh scan |
| FoldCache.RunResolves | crates/ferry-materialize/src/apply.rs:1385-1453 | After every such run, that holds of each path whose cached directories were scanned or created by the run |
| FoldCache.NeverBetweenTwo | crates/ferry-materialize/src/apply.rs:1385-1411 | A path resolved under the refusing policy has, at every component, the exact live name, the only live spelling, or none |
| FoldCache.NoteExact | crates/ferry-materialize/src/apply.rs:1413-1431 | Noting a creation leaves the directory's fold coherent if and only if it was cached, or nothing else is in it |
| FoldCache.RewriteHidesSpelling | crates/ferry-materialize/src/apply.rs:1413-1431 | For any normal form and any two names of different normal forms: rewriting one in an unscanned directory leaves a fold that misses the other, so another spelling of that one finds nothing |
| Wire.LittleInverse | crates/ferry-store/src/format.rs:111-129 | A number written in n bytes reads back exactly if it fits |
| Wire.LittleAt | crates/ferry-store/src/format.rs:111-129 | Byte i of a number written lowest byte first is the number divided by 256 to the i, modulo 256 |
| Wire.FromLittleSum | crates/ferry-store/src/format.rs:161-175 | Read lowest byte first, bytes are the sum of byte i times 256 to the i |
| Wire.BigAt | crates/ferry-proto/src/frame.rs:22-35 | The same of a number written highest byte first |
| Wire.FromBigSum | crates/ferry-proto/src/frame.rs:7-20 | The same of a number read highest byte first |
| Wire.FromLittleInverse | crates/ferry-store/src/format.rs:161-175 | Any bytes are the image of the number they read as |
| Wire.Reader.Take | crates/ferry-store/src/format.rs:145-159 | The cursor yields the next n bytes or stays put |
| Wire.ListExact | crates/ferry-proto/src/codec.rs:305-323 | A counted list reads back as a list exactly if it was written from it |
| Codec.Encode | crates/ferry-proto/src/codec.rs:114-450 | Encoding gives the image, whose bytes Layout.PayloadLaid states place by place, or fails exactly on what may not be sent |
| Codec.EncodeFixed | crates/ferry-proto/src/codec.rs:114-450 | Appending field after field gives the image of a message without a list |
| Codec.EncodeItems | crates/ferry-proto/src/codec.rs:288-303 | A request is encoded exactly if it is within the cap |
| Codec.EncodePacks | crates/ferry-proto/src/codec.rs:332-346 | A pack request is encoded exactly if it is within the cap |
| Codec.EncodeBatch | crates/ferry-proto/src/codec.rs:372-391 | A batch is encoded exactly if it is within the cap and has no empty blob |
| Codec.ParseHello | crates/ferry-proto/src/codec.rs:124-139 | Accepts exactly the bytes of one greeting |
| Codec.ParseHelloAck | crates/ferry-proto/src/codec.rs:167-184 | Accepts exactly the bytes of one acknowledgement |
| Codec.ParseOffer | crates/ferry-proto/src/codec.rs:228-242 | Accepts exactly the bytes of one offer with a zero reserved field |
| Codec.ParseRequestItems | crates/ferry-proto/src/codec.rs:305-322 | Accepts exactly the bytes of one request within the cap |
| Codec.ParseRequestPacks | crates/ferry-proto/src/codec.rs:348-361 | Accepts exactly the bytes of one pack request within the cap |
| Codec.ParseBatch | crates/ferry-proto/src/codec.rs:393-411 | Accepts exactly the bytes of one batch within the cap |
| Codec.ParsePackItem | crates/ferry-proto/src/codec.rs:429-439 | Accepts exactly the bytes of one non-empty pack |
| Codec.ParseBye | crates/ferry-proto/src/codec.rs:452-460 | Accepts exactly one known reason code |
| Codec.Parse | crates/ferry-proto/src/codec.rs:124-461 | For every type and payload: a message is returned if and only if it is of that type, canonical, and its image is the payload |
| Codec.RoundTrip | crates/ferry-proto/src/codec.rs:114-461 | What is encoded is parsed back if and only if it is canonical |
| Codec.EncodableCanonical | crates/ferry-proto/src/codec.rs:219-440 | Only a non-zero reserved field or a pack that is empty or over 32 bits of length is encoded but not parsed; only a batch with an empty blob is parsed but not encoded |
| Codec.ReservedOffer | crates/ferry-proto/src/codec.rs:219-242 | An offer with a non-zero reserved field is encoded, and the parser refuses its bytes |
| Codec.EmptyBlobParses | crates/ferry-proto/src/codec.rs:372-411 | A batch with an empty blob is parsed but never encoded |
| Frames.CapsAreCanonical | crates/ferry-proto/src/codec.rs:288-440 | The frames the session takes as parsing are exactly those whose messages the parsers accept |
| Frames.MessageDecides | crates/ferry-proto/src/codec.rs:114-461 | Different session frames are different messages |
| Frames.Transmit | crates/ferry-proto/src/codec.rs:114-461 | A session frame that can be encoded is read back as itself if and only if it is within the caps |
| Streams.ParseBody | crates/ferry-proto/src/codec.rs:72-85 | Accepts exactly the bytes of one frame body |
| Streams.WriteBody | crates/ferry-proto/src/frame.rs:22-35 | Refused before anything is written if too large, else the length and the body |
| Streams.ReadBody | crates/ferry-proto/src/frame.rs:7-20 | Reads exactly the next framed body, however it was split into records |
| Streams.Duplex.Write | crates/ferry-proto/src/stream.rs:85-91 | One record is appended |
| Streams.Duplex.Read | crates/ferry-proto/src/stream.rs:62-81 | At most one record's bytes, the rest put back; bytes sent are always bytes read then bytes queued; an empty read happens exactly when closed and drained, or at an empty record |
| Streams.Duplex.Close | crates/ferry-proto/src/stream.rs:50-54 | Nothing queued is lost |
| Streams.Duplex.ReadExact | crates/ferry-proto/src/stream.rs:62-81 | Without empty records the next n bytes, however split; it fails only if the stream is closed first |
| Streams.EmptyRecordReadsAsEnd | crates/ferry-proto/src/stream.rs:61-91 | An empty record reads as the end of an open stream with more to come |
| Streams.Send | crates/ferry-proto/src/frame.rs:22-35 | A message is sent if and only if it can be encoded and fits |
| Streams.Receive | crates/ferry-proto/src/frame.rs:7-20 | Unless an empty record is queued, the message whose packet is next comes out, and nothing more is consumed |
| Streams.SendAll | crates/ferry-proto/src/frame.rs:22-35 | A sequence of messages that can be sent goes out packet after packet, behind what is queued |
| Streams.ReceiveAll | crates/ferry-proto/src/frame.rs:7-35 | As many messages as were sent come back as those messages |
| Streams.StreamUnique | crates/ferry-proto/src/frame.rs:7-35 | Bytes on the wire can be read as messages in one way only |
| Layout.PayloadLaid | crates/ferry-proto/src/codec.rs:8-461 | The type byte of each message, and where each of its fields, list elements and lengths is in its payload, byte by byte, with nothing between or after |
| Layout.PacketLaid | crates/ferry-proto/src/frame.rs:22-35 | The bytes of a packet: the length of the rest in four bytes, highest first, the magic, the type, the version lowest byte first, and the payload so laid out |
| Base32.AlphabetExact | crates/ferry-crypto/src/base32.rs:5-53 | A character has a value exactly if it is the symbol for it, in either case |
| Base32.PackUnique | crates/ferry-crypto/src/base32.rs:15-31 | The symbols are determined by the bits and less than a group of zeros |
| Base32.Encode | crates/ferry-crypto/src/base32.rs:15-31 | The loop with its overflowing 32-bit accumulator writes the five-bit groups of the bits |
| Base32.Decode | crates/ferry-crypto/src/base32.rs:33-60 | The loop gives the whole bytes of the symbols' bits, or the first character that is no symbol, or an error for nothing |
| Base32.RoundTrip | crates/ferry-crypto/src/base32.rs:15-60 | The text of n bytes has ceil(8n/5) symbols and stands for those bytes only |
| Base32.UnpackedBits | crates/ferry-crypto/src/base32.rs:33-60 | Bit by bit, from the highest of each down: the bytes decoded have the bits of the symbols, and less than a byte is left over |
| Base32.DecodeEncoded | crates/ferry-crypto/src/base32.rs:15-60 | Decoding what was encoded gives it back, for all non-empty bytes |
| ShortCode.ShortCodeFor | crates/ferry-crypto/src/pairing.rs:391-413 | Five groups of four symbols joined by hyphens, which stand for twelve bytes: the hints, lower byte first, the first eight of the digest, and the upper half of the checksum of these, higher byte first |
| ShortCode.VerifyShortCode | crates/ferry-crypto/src/pairing.rs:420-443 | A code is accepted with hints h if and only if its symbols are those of the code for h, in either case and with any hyphens and spaces, up to the low four bits of the last; of the rest each gets its error: a wrong length, a character that is no symbol, symbols that are no code for any data, a code for another digest; that is, if and only if its symbols stand for those twelve bytes |
| ShortCode.AcceptsBytes | crates/ferry-crypto/src/pairing.rs:420-443 | To be accepted is to have twenty symbols that stand for the bytes of a code for the offer |
| ShortCode.CleanStrips | crates/ferry-crypto/src/pairing.rs:420-443 | What counts of a typed code is its characters other than hyphens and spaces, in order |
| ShortCode.CharLenExactly | crates/ferry-crypto/src/pairing.rs:420-443 | The length that is compared is in bytes: a character takes the fewest of one to four that hold it |
| ShortCode.UnpacksCode | crates/ferry-crypto/src/pairing.rs:420-443 | Twenty symbols decode to the carried bytes exactly if they are the code's, up to the four dropped bits |
| ShortCode.OwnCodeVerifies | crates/ferry-crypto/src/pairing.rs:391-443 | The code made for an offer verifies with its hints |
| Ignore.IgnoredBelow | crates/ferry-ignore/src/policy.rs:106-144 | Below an ignored directory exactly the quarantined names are not ignored |
| Ignore.FerryIgnore.DirOverlay | crates/ferry-ignore/src/policy.rs:155-165 | The memo gives what a fresh load would |
| Ignore.FerryIgnore.Decide | crates/ferry-ignore/src/policy.rs:106-144 | Through the memo, a path is ignored if and only if its last name is not quarantined and it, or a directory above it, has an ignoring verdict: that of the innermost directory above whose rules speak of it, and the chain's if none does |
| Ignore.JudgedExactly | crates/ferry-ignore/src/policy.rs:106-144 | Layering gives each path the verdict of the innermost directory above it whose rules say anything of it, and the chain's if none does, and a path has one verdict only |
| Ignore.DecidedExactly | crates/ferry-ignore/src/policy.rs:106-144 | What is decided is what those verdicts say |
| Ignore.WhitelistedKept | crates/ferry-ignore/src/policy.rs:106-144 | A file let in by the rules next to it, below no excluded directory, is not ignored |
| Ignore.IsQuarantineName | crates/ferry-ignore/src/policy.rs:13-15 | The marker occurs somewhere in the name |
| Ignore.Walk | crates/ferry-ignore/src/secrets.rs:137-166 | The pruned walk collects its files in order |
| Ignore.PrunedWalk | crates/ferry-ignore/src/secrets.rs:137-177 | The pruned walk reaches, in order, exactly those files of a full walk that are not ignored and below no ignored directory |
| Ignore.FilesExactly | crates/ferry-ignore/src/secrets.rs:137-166 | A full walk lists exactly the files to which names, in normal form, lead |
| Ignore.WalkedExactly | crates/ferry-ignore/src/secrets.rs:137-177 | The pruned walk gets to exactly the files of the tree that are not ignored and below no ignored directory |
| Ignore.ReachedExactly | crates/ferry-ignore/src/secrets.rs:137-177 | For a name that is not quarantined that is just not being ignored; for a quarantined one, having no ignored directory above |
| Ignore.QuarantinedMissed | crates/ferry-ignore/src/secrets.rs:137-177 | A quarantined file in an ignored directory is not ignored, and the walk misses it |
| CaseFold.CaseFoldIndex.Insert | crates/ferry-platform/src/casefold.rs:45-59 | A name is let in exactly if it clashes with none before; else the earliest spelling of its key is named |
| CaseFold.FindCaseConflict | crates/ferry-platform/src/casefold.rs:62-70 | No conflict exactly if no two names share a key and differ in normal form; else the least offending position with the earliest spelling |
| CaseFold.NoFoldCollisions | crates/ferry-materialize/src/apply.rs:1718-1744 | The check per directory passes exactly if no two siblings clash, the root itself, if listed, going by the empty name |
| CaseFold.SiblingsSuffice | crates/ferry-materialize/src/apply.rs:1718-1744 | For a parent-closed list of normalised paths, siblings clash exactly if two different paths are equal component by component once folded |
| Routes.KnownSnoc | crates/ferry-iroh/src/directory.rs:45-57 | A registration always wins, a publication only where nothing is known |
| Routes.KnownExactly | crates/ferry-iroh/src/directory.rs:45-57 | What is known is the route of a registration with none after it, without any that of a publication with none before it, and nothing only if there was neither |
| Routes.RouteTable.PublishRoute | crates/ferry-iroh/src/directory.rs:45-50 | The tables go on saying what the history says |
| Routes.RouteTable.RegisterExplicitRoute | crates/ferry-iroh/src/directory.rs:52-57 | The tables go on saying what the history says |
| Routes.RouteTable.ResolveRoute | crates/ferry-iroh/src/directory.rs:71-73 | After every history: the last registration for the key, else the first publication |
| Routes.RouteTable.ResolvePeer | crates/ferry-iroh/src/directory.rs:75-77 | After every history: the last registration of the endpoint, else the first publication |
| Routes.RouteTable.NextSynthKey | crates/ferry-iroh/src/directory.rs:83-92 | A key not in the table, the first free one drawn, within 20,536 draws if one of the 15,000 ports is free |
| Routes.RouteTable.RegisterPeer | crates/ferry-iroh/src/directory.rs:59-69 | A new key is registered for the peer |
| Routes.NextDraw | crates/ferry-iroh/src/directory.rs:83-92 | From any counter value every port comes up within 20,536 draws |
| Routes.DrawsTight | crates/ferry-iroh/src/directory.rs:83-92 | No smaller bound will do |

## Left out

- Handshake, encryption and unknown-frame policy: the session is over typed frames that arrive in order.
- Failing sends: a frame that is sent is queued; the goodbye of a failing side, sent best effort, always goes out.
- Session stamps: the time written with an agreement, and the folders' persistence.
- The store's own files: chunking, packs, the index table (and with it the advert message's bytes), diffs and manifest parsing.
- The authentication message: a fixed-length ciphertext.
- Store failures: a store that refuses to write or read a blob it holds.
- Blocking: a thread that waits is a `Blocked` or `Waiting` result; threads and locks are not modelled.
- Windows and case-folding file systems, beyond the collision check; pacing; syncing to disk, except that it may fail.
- Re-reading a draft before the rename: without another writer it finds what was written.
- Flattening and base lookups work on an unfolded tree; node fetching, its failures and the cache of parsed nodes are not modelled.
- Divergences: those reported are so and in order; that none is missing is claimed only of an empty report.
- Symbolic-link classification: a predicate that may refuse a target.
- Sweeping stale temporary files: it goes by the age of files against a clock, and runs outside every apply; that the names it looks for include every name the applier makes is `TempNames.NameForIsTemp`.
- Glob matching, Unicode normal forms, case folding, BLAKE3 and CRC-32: function parameters.
- Secret scanning after a file is reached: patterns and previews.
- Concurrent route-table callers: operations run one at a time, and the process-wide port counter is a field of the table.
- Inventory, daemon, transport, interface and command line.
- Applier.ApplyChangeSet: a state is claimed to be live only in a coherent set, where no path is put twice, or below a file or link that is put, or while a directory above it is taken away and it is not itself; deletions are claimed to be children first only if no path is put twice.
- ApplyLaws.GuardedLoss: says nothing of temporary names, nor of an upsert where the base has a directory, which the guard does not check.
- FolderPull.FolderRuns: that the pull does not fail needs a tree within the walk's budget of rounds and packs that open.
- Applier.ApplyTree: a desired path with a component that looks like a temporary name is left out; the live walk does not list such a path, and the draft of a sibling may take its name and then be renamed away from it, so none of the guarantees hold for it.
- Streams.Receive: says nothing of what comes out of a queue into which an empty record was written; that an empty record cuts a read short is `Streams.EmptyRecordReadsAsEnd`.
- EngineRun.RunEngine: of a session that ends in an error it states the error and the frames sent, not the state the folders are left in.
