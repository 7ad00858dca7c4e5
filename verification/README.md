# Verification of the journal-backed ticket store

This project models the store in Dafny and proves what its protocol, planner, codec,
state machines and archive promise. `dafny verify dfyconfig.toml` checks all of it.

The store keeps tickets and releases as files. Receipts form a hash chain, `head.json`
names the last receipt, and every other file is a projection that some receipt describes
by a pre and a post digest. The model follows five components.

**Journal** (`Documents`, `Publication`, `Commit`, `Recovery`, `Audit`, `Refinement`,
`Staging`, `Progress`, `Reports`, `Session`, `Runs`, `Isolation`, `Completion`, `Example`,
`SnapshotReader`, `Requests`). The disk is a map from path to
document and a digest is an injective constructor of the document it digests. A writer is
a class whose fields are the disk, the staging directory, the slots the session holds and
a script of faults; any call of the session may fail before or after its effect, and what
a failure leaves in the staging directory is there for the next session. `link` creates if absent, `rename`
replaces under an expected digest. The actions of a plan are one sequence: evidence,
receipt (the commit point), posts, barrier deletion, head. Crashes are prefixes of it,
redo is a second sequence read off the receipt, and the auditor is a fold over the chain
compared with the disk. `Runs` and `Isolation` interleave writer, crash, redo and
hand edits as single steps; a reader in `SnapshotReader` looks at one file per moment of
such a history. The main results are that redo converges to the uninterrupted apply, gates
and faults included, that it does so exactly as long as nothing was left in the staging
directory, that the audit tracks an apply at every prefix, that no third value is ever
overwritten, that a request is committed at most once and answered the same way ever
after, and that a successful lock-free read saw one state.

**Capacity** (`Inventory`, `Capacity`, `CapacityLaws`, `Unpause`, `CapacityCheck`, `Charging`). An
inventory maps retained paths to sizes; the tar header and manifest entry a name costs are
abstract functions of the name. The class `Ledger` is the inventory that the check grows
in place. The growth-first order peaks at the books that dominate every set of published
posts, so an accepted plan can be redone from every point where it can stop and ends in the
same inventory; and the reserve kept by a paused store is enough for any UNPAUSE.
`Charging` shows that the plans the journal freezes have the shapes assumed here.

**Wire codec** (`Utf8`, `Wire`, `Codec`, `RoundTrip`, `WireLaws`, `WireCoders`). The
grammar of the parser is written over positions, with its node, depth and array budgets,
and the class `Parser` and the appending encoder are proved against it. A document parses
exactly when it is the encoding of the value returned, that value is canonical and within
the budgets. Strings follow section 7 of RFC 8259 and UTF-8 section 3 of RFC 3629.

**Tickets and releases** (`Tickets`, `Mutation`, `Adopt`, `Working`, `Lives`, `Serials`,
`Graph`, `Tarjan`, `Dependencies`, `Releases`, `Assessing`, `Promotions`). Fourteen ticket
operations as a function on records and as a class `Work` that changes its record in
place, the composition of an adopted file, the life of a ticket and of a queue over any run,
serial allocation, Tarjan's components, the two other graph searches, and release
candidates, attestations, readiness and promotion over any run.

**Archive** (`Archive`, `ArchiveLaws`, `ArchiveCost`, `Streams`). The length of the
manifest without encoding it, its bound, its reading back under the one widened set of
budgets, the length of the tar stream, and the reader and writer windows.

Where the code and its own words differ, the model follows the code:

- A redo that fails can leave a file in the staging directory, and then every later
  session is refused: the audit refuses a staging file that no descriptor assigns
  (internal/journal/stage_read.go:55-58), whether a receipt is pending or not.
  `Session.Writer.RedoPending` says exactly when a file stays: a preparation fails and so
  does its own cleanup, or the removal of a slot fails before its unlink, which the redo
  ignores (internal/store/redo.go:113-120), or the rename of the head fails before its
  effect (internal/store/redo.go:209-213). A rename that fails after its effect leaves
  nothing. `Completion.HeadRenameFails` shows the refusal after every apply that stopped at
  the head, `Example.NeverServedAgain` at one store, one request and one fault, and
  `Completion.Restarts` that an occupied staging directory is all that can keep a
  transaction without deletions from its completion.
- A `rename` whose destination already holds the staged bytes succeeds and keeps its slot;
  `Session.Writer.Replace` says exactly when, and `Session.Writer.AdvanceHeadFile` what it
  means for the head.
- A committed UNPAUSE that crashes before its end is refused by every later session, since
  redo does not delete (`Completion.RestartDeletion`).
- ADOPT_FILE places new holds before it releases old ones, so a file that trades one of
  sixteen holds for another is valid and yet refused (`Adopt.FullHoldsCannotTrade`).
  `Adopt.AdoptsExactly` gives the whole condition under which a file is adopted.
- A release without required gates, criteria or attestations is reported ready and cannot
  be promoted (`Promotions.ReadyYetRefused`, and `Promotions.ReadyYetRefusedExample` for one
  such release); `Promotions.PromotesExactly` gives the condition.
- The comment on the manifest cap counts 374 bytes for the largest entry; it is 375
  (`Archive.EntryBoundMet`), and the cap still holds (`Archive.ManifestFits`).
- The last refusal of the serial allocator is unreachable (`Serials.AllocateSerial`), and so
  is the refusal of the unpause peak for want of a request path (`Unpause.SlotExists`).

## Model

| member | source | states |
|---|---|---|
| Session.Writer.Prepare | internal/authority/fixture_session.go:483-614 | succeeds exactly without a fault on a free slot; a failure leaves nothing, or a file no session knows when its own cleanup fails as well |
| Session.Writer.Link | internal/authority/fixture_session.go:662-703 | create if absent, exactly; an existing destination is never replaced, whatever fault is reported |
| Session.Writer.Replace | internal/authority/fixture_session.go:704-768 | replaces exactly a destination with the expected digest and other bytes, consuming the slot; succeeds without an effect, keeping it, exactly when the destination holds the staged bytes |
| Session.Writer.RemoveStage | internal/authority/fixture_session.go:868-880 | the session has done with the slot whatever comes of it; the file goes unless the call fails before the unlink |
| Session.Writer.Cleanup | internal/store/store.go:237-243 | exactly the held slots are tried, once each, and exactly those whose removal failed before the unlink stay; every failure is reported |
| Session.Writer.PublishOne | internal/store/store.go:244-280 | one artifact: succeeds exactly when the step succeeds, a slot is left and no call fails; otherwise the disk is untouched or the effect is whole, and what stays staged is said |
| Session.Writer.SortPhases | internal/store/store.go:213-236 | the four phases of the effect order, each in plan order |
| Session.Writer.PublishPhase | internal/store/store.go:244-280 | the disk is exactly the first `done` artifacts of the phase, the staging directory exactly what the session holds and what a failed preparation left |
| Session.Writer.RemoveBarrierPost | internal/store/store.go:301-315 | the barrier deletion, under its recorded digest |
| Session.Writer.Apply | internal/store/store.go:207-299 | under any faults the disk is the first `done` actions of the plan; success means all of them with staging empty, and comes of a plan that runs, within its slots, without faults; exactly when a file stays staged |
| Session.Writer.RedoPosts | internal/store/redo.go:106-159 | the disk is the first `done` entries redone; succeeds exactly when all entries can be redone, eleven slots suffice and no publishing call fails; exactly when a file stays staged |
| Session.Writer.AdvanceHeadFile | internal/store/redo.go:189-213 | the head the receipt implies, or nothing; exactly when it succeeds, and exactly when its slot stays |
| Session.Writer.AuditStore | internal/journal/records.go:26-47 | an unassigned staging file is refused before anything else; over empty staging the verdict is the walk's |
| Session.Writer.PendingReceiptOf | internal/store/redo.go:24-79 | a receipt is redone exactly under a PRE_OR_POST audit and empty staging; a pending store with occupied staging is MALFORMED |
| Session.Writer.RedoPending | internal/store/redo.go:24-79 | whatever stops it, the disk is a prefix of the redo; without faults it completes exactly the redoable receipts and leaves staging empty; exactly when a file stays staged |
| Session.Writer.Lookup | internal/store/mutate.go:74-87 | stopped exactly when staging is occupied or the journal does not fit; otherwise a recorded request is answered as recorded, other bytes conflict, and an unrecorded one is passed on |
| Session.Writer.PlanOver | internal/store/mutate.go:88-160 | a plan is frozen exactly over an agreeing store with empty staging, when the request is for its queue and the planner's posts freeze; and it is that plan |
| Session.Writer.Commit | internal/store/mutate.go:88-174 | planned exactly over an agreeing store with empty staging and a plan that freezes; committed when no fault stops it, and then every action took effect |
| Session.Writer.Mutate | internal/store/mutate.go:26-174 | the composed step: the redo and how it ended, the recorded answer exactly when a readable store has one, and without faults the commit of a request whose plan freezes |
| Reports.CommittedAnswer | internal/transaction/model.go:803-927 | after a complete apply the store agrees and answers the request with its outcome |
| Recovery.ApplyPrefix | internal/store/store.go:244-297 | before the link nothing but orphaned evidence; after it, every posted path is at pre or post; at the end, the final disk |
| Recovery.RedoConverges | internal/store/redo.go:106-213 | the posts and the head: from every crash after the link, and every crash of every redo, they end on the disk of the uninterrupted apply |
| Completion.RestartAfter | internal/store/redo.go:24-79 | the same through the gates of the redo: a session without faults over empty staging completes it and leaves staging empty |
| Completion.Restart | internal/store/redo.go:24-79 | under any faults a committed transaction stays open or ends as the uninterrupted apply; without faults it completes exactly when staging is empty |
| Completion.Restarts | internal/store/redo.go:24-79 | over any number of sessions with any faults: staging never empties again, and the first session without faults that finds it empty completes the transaction for good |
| Completion.Retry | internal/store/mutate.go:61-87 | a request that crashed after its commit and is sent again is completed and gets its recorded outcome, other bytes conflict, another request is committed |
| Completion.RestartDeletion | internal/store/redo.go:121-124 | a committed transaction that deletes is refused by every later session |
| Completion.HeadRenameFails | internal/store/redo.go:189-213 | one failed rename of the head, and every later session is refused |
| Example.RequestPlanned | internal/transaction/model.go:803-927 | one store that agrees, with one request planned over it |
| Example.NeverServedAgain | internal/journal/stage_read.go:55-58 | its crash before the head, the failed rename, and the refusal |
| Audit.WalkReceipt | internal/journal/records.go:59-200 | one receipt is folded exactly when it fits the chain before it |
| Audit.WalkChain | internal/journal/records.go:59-200 | the walk succeeds exactly on a decodable hash chain, and its map is the fold of it |
| Audit.WalkProjections | internal/journal/records.go:431-491 | the comparison passes exactly when every path matches what the fold says of it |
| Audit.ReceiptNames | internal/journal/records.go:26-58 | the receipt names are exactly 1 to the count |
| Audit.Walk | internal/journal/records.go:26-236 | the verdict, both ways: AGREES, REDO_PENDING with PRE_OR_POST, and what was selected |
| Refinement.AuditTracksApply | internal/journal/records.go:59-235 | at every prefix of an apply: agreeing before the link, pending after it, agreeing one receipt later at the end |
| Refinement.PostedRecords | internal/journal/records.go:431-491 | after the apply each posted path's record is the posted bytes |
| Runs.NoThirdValue | internal/store/store.go:141-169 | no writer or redo step changes a destination from anything but absence or the receipt's pre digest |
| Runs.CommitOnce | internal/transaction/model.go:350-381 | linking a planned receipt keeps each request in one receipt |
| Runs.RunsAreGuarded | internal/store/store.go:141-169 | both of these over every run, with hand edits between any two steps |
| Isolation.SoundKept | internal/store/store.go:207-299 | every step of writer, crash and redo keeps a store one validated transaction away from agreeing at most |
| Isolation.SoundAudits | internal/journal/records.go:431-491 | such a store audits as AGREES or as PRE_OR_POST, told apart by the next receipt |
| Isolation.NoReceiptBeyond | internal/snapshot/probe.go:127-148 | no receipt beyond the head at the end means none at any moment since that head was read |
| Isolation.ReadsOneState | internal/snapshot/probe.go:164-191 | and then no projection changed in that time |
| SnapshotReader.Probe | internal/snapshot/probe.go:47-122 | an observation comes with the moments between which it is clear |
| SnapshotReader.Read | internal/snapshot/probe.go:164-191 | in every interleaving without edits, a successful read saw the files of one state and no later receipt was linked meanwhile; a read that moved used all its attempts |
| SnapshotReader.WindowIsOneState | internal/snapshot/probe.go:164-191 | files read in a clear window are the files of the state the head was read in |
| SnapshotReader.NothingLinked | internal/snapshot/probe.go:127-148 | no receipt beyond the observed head in a clear window |
| Requests.CarriedOnce | internal/journal/records.go:117-119 | a request occurs in one receipt of a chain |
| Requests.AnsweredOnce | internal/journal/records.go:117-119 | and is answered from it |
| Requests.AnsweredForGood | internal/store/mutate.go:68-87 | an answer survives every later commit, crash and redo |
| Inventory.TotalsTake | internal/transaction/capacity.go:261-317 | the totals do not depend on the order files are counted in |
| Inventory.CostGrows | internal/transaction/capacity.go:261-317 | fewer and smaller files cost no more in any of the eleven dimensions |
| CapacityLaws.PeakDominates | internal/transaction/capacity.go:419-475 | the growth-first books dominate every set of published posts in any order |
| CapacityLaws.RedoHasRoom | internal/transaction/recovery.go:11-176 | an accepted plan is accepted for redo from every point it can stop at, and ends in the same inventory |
| Unpause.SlotExists | internal/transaction/capacity.go:480-550 | an unoccupied request path is always found |
| Unpause.ReserveIsEnough | internal/transaction/capacity.go:480-550 | where the peak fits, any UNPAUSE built there is accepted |
| Unpause.PausedCanUnpause | internal/transaction/capacity.go:461-475 | a store left paused by an accepted plan can be unpaused by every plan of the shape of an UNPAUSE |
| Charging.FreezeCharged | internal/transaction/model.go:803-927 | every plan that freeze builds has the shape the capacity results ask for |
| Charging.FreezeUnpauses | internal/transaction/model.go:803-927 | and for an UNPAUSE within the stage caps, the shape of an UNPAUSE |
| Charging.PausedFreezeAccepted | internal/transaction/capacity.go:461-475 | so what freeze builds to leave a pause is accepted |
| Unpause.AbortedCanUnpause | internal/transaction/recovery.go:188-213 | so can one on which a plan was abandoned before its link |
| CapacityCheck.Ledger.Add | internal/transaction/capacity.go:194-209 | one file is retained, or refused when exclusive and taken by another |
| CapacityCheck.Ledger.Measure | internal/transaction/capacity.go:261-317 | the cost of the books, refused exactly when no archive could hold them |
| CapacityCheck.Ledger.Reserve | internal/transaction/capacity.go:244-260 | the journal reserve of a barrier |
| CapacityCheck.Ledger.GrowToPeak | internal/transaction/capacity.go:480-550 | the ledger becomes the unpause peak |
| CapacityCheck.Ledger.CanUnpause | internal/transaction/capacity.go:480-550 | exactly when the peak fits |
| CapacityCheck.CheckEach | internal/transaction/capacity.go:360-475 | every publication point is charged, in order |
| CapacityCheck.CheckCapacity | internal/transaction/capacity.go:333-475 | accepts exactly when every point is affordable, and returns the final inventory |
| CapacityCheck.RedoCapacity | internal/transaction/recovery.go:11-176 | accepts exactly the inventories an interrupted plan may be redone from |
| Utf8.CheckHostile | internal/wire/primitives.go:150-162 | exactly well-formed text without a hostile code point |
| Utf8.RuneDecodes | internal/wire/parse.go:317-340 | the bytes written for an escaped scalar decode to that scalar |
| WireCoders.Parser.TakeText | internal/wire/parse.go:275-346 | the string loop consumes what the grammar says, escapes and surrogates included |
| WireCoders.Parser.TakeObject | internal/wire/parse.go:150-197 | members until the closing brace, keys distinct |
| WireCoders.Parser.TakeArray | internal/wire/parse.go:199-241 | elements within the bound that applies to this array |
| WireCoders.Parser.TakeValue | internal/wire/parse.go:101-132 | a value, its end and the nodes used, or the failure of the grammar |
| WireCoders.Parse | internal/wire/parse.go:35-73 | the whole document, framing and re-encoding included |
| WireCoders.AppendString | internal/wire/encode.go:59-90 | rune by rune, the one canonical spelling |
| WireCoders.AppendValue | internal/wire/encode.go:20-55 | appends the canonical encoding, keys sorted |
| RoundTrip.ParsesExactly | internal/wire/parse.go:35-73 | under any textual bounds, a document parses exactly when it is the file of the value returned and within the bounds |
| WireLaws.ParseWithExactly | internal/wire/parse.go:35-73 | the same for the options a profile may give |
| WireLaws.FileReadsBack | internal/wire/encode.go:10-18 | every value within the budgets is read back from its file |
| WireLaws.EqualIsSame | internal/wire/value.go:163-165 | equality of encodings is equality up to key order, so encoding is injective |
| Wire.CanonIsCanonical | internal/wire/value.go:77-82 | sorting the keys of distinct-keyed objects is canonical |
| Tarjan.Search.Visit | internal/ticket/graph.go:72-127 | a visit keeps the search sound and returns the number it reached |
| Tarjan.TopIsComponent | internal/ticket/graph.go:103-120 | what is popped is exactly the strongly connected component of its root |
| Tarjan.FindCycles | internal/ticket/graph.go:72-127 | maps exactly the tickets on a cycle, each to its full sorted component |
| Tarjan.NoCycles | internal/ticket/graph.go:72-127 | nothing is recorded exactly when the graph is acyclic |
| Dependencies.CheckDependencies | internal/ticket/graph.go:161-198 | accepts exactly known edges that do not lead back, and names what is missing |
| Dependencies.SearchBack | internal/ticket/graph.go:174-198 | the explicit-stack search finds a way back exactly when there is one |
| Dependencies.AcceptsAcyclic | internal/ticket/graph.go:161-198 | on a closed acyclic inventory that is exactly when the overlaid graph is closed and acyclic |
| Dependencies.RunsStayAcyclic | internal/mutation/apply.go:500-506 | over every run of accepted changes |
| Dependencies.ValidateGraph | internal/release/release.go:265-310 | accepts exactly the closed acyclic graphs of one queue with distinct identifiers |
| Mutation.StepCoherent | internal/mutation/apply.go:268-474 | one operation alone keeps held, completed and archived in step with their fields, and identifiers unique |
| Mutation.StepKeepsChain | internal/mutation/apply.go:263-267 | no operation touches the chain fields |
| Working.Work.Step | internal/mutation/apply.go:268-474 | in place: the record the operation means, or the refusal and no change |
| Working.Work.Refine | internal/mutation/apply.go:301-338 | the present fields and no others, and a draft that opens |
| Working.Work.Place | internal/mutation/apply.go:359-373 | a new hold last, under the trusted actor and time, and why not |
| Working.Work.Release | internal/mutation/apply.go:374-391 | exactly that hold goes, and the last one opens the ticket |
| Working.Work.Grant | internal/mutation/apply.go:431-454 | a grant only for the current acceptance revision by the invoking actor |
| Working.Work.Revoke | internal/mutation/apply.go:455-469 | exactly that grant is revoked, once |
| Working.Work.Finalize | internal/mutation/apply.go:541-597 | succeeds exactly when the whole-change checks pass, and sets the chain fields once |
| Working.CheckRecord | internal/mutation/apply.go:500-534 | dependencies, gates and supersession, each when it changed |
| Working.Apply | internal/mutation/apply.go:170-202 | a planned operation and no refusal of one that could be planned |
| Working.Create | internal/mutation/apply.go:628-681 | a created record at revision one, open when it may open |
| Working.ComposeHolds | internal/mutation/adopt.go:252-292 | places then releases, refused exactly when a kept hold was edited or moved |
| Working.ComposeAdopt | internal/mutation/adopt.go:189-245 | the differences as operations in their fixed order |
| Working.AdoptFile | internal/mutation/adopt.go:80-161 | plans an adoption exactly when there is one |
| Working.RunApproval | internal/ticket/view.go:158-176 | granted exactly when an unrevoked RUN grant names the current acceptance revision |
| Adopt.AdoptedExactly | internal/mutation/adopt.go:122-155 | the condition under which a file composes to a covered record, both ways, and that record |
| Adopt.AdoptsExactly | internal/mutation/adopt.go:122-161 | the whole condition under which a file is adopted, the checks of the whole change included, and the one record it yields |
| Adopt.AdoptMeansFile | internal/mutation/adopt.go:307-350 | the post record is the file on every field but the ones adoption sets, one revision later and at most one acceptance revision |
| Adopt.HoldsExactly | internal/mutation/adopt.go:252-292 | the file's hold order comes out exactly when it kept the common holds in order and put new ones last |
| Adopt.FullHoldsCannotTrade | internal/mutation/adopt.go:274-290 | sixteen holds cannot be traded for sixteen |
| Adopt.TradeExample | internal/mutation/apply.go:368-370 | one valid record and file of which this is true |
| Lives.ChangeKeeps | internal/mutation/apply.go:541-585 | every accepted change keeps the record valid and its grants in the past, and chains it |
| Lives.BumpSilences | internal/mutation/apply.go:541-585 | a raised acceptance revision leaves no RUN grant in force |
| Lives.OnlyGrantsGrant | internal/mutation/apply.go:431-469 | only a RUN grant at the current acceptance revision makes a ticket granted |
| Lives.StaleNeverCounts | internal/ticket/view.go:158-176 | over every life, a granted ticket was granted since its acceptance revision last moved |
| Lives.CompletedKeeps | internal/mutation/apply.go:541-547 | short of a REOPEN a completed ticket keeps its acceptance fields and its completion |
| Lives.CompletionStands | internal/mutation/apply.go:541-547 | over every stretch of a life without a REOPEN |
| Lives.LifeKeeps | internal/ticket/record.go:317-432 | every record of every life is valid, numbered by its place and linked to the one before |
| Lives.QueueStaysSound | internal/mutation/apply.go:500-534 | over every run of creations, operations and adoptions the queue's records stay valid and its graph closed and acyclic |
| Serials.SerialsDiffer | internal/mutation/apply.go:704-705 | serial tokens differ under case folding |
| Serials.AllocateSerial | internal/mutation/apply.go:692-714 | the first unused token and a larger next serial, refused exactly when the range is used up or the token is none |
| Serials.ChooseToken | internal/mutation/apply.go:611-627 | the token asked for or the next free one, never one that collides up to case, and exactly why not |
| Assessing.Assess | internal/release/release.go:446-527 | ready exactly when nothing is missing, and otherwise exactly what is missing |
| Assessing.Sweep | internal/release/release.go:491-511 | the gates satisfied and the criteria covered by passing attestations |
| Assessing.Apply | internal/release/mutation.go:156-258 | the record a release request yields, or none when none is acceptable |
| Promotions.StaysCurrent | internal/release/mutation.go:202-232 | every attestation names the candidate the release has now |
| Promotions.PromoteBinds | internal/release/mutation.go:233-245 | a promotion binds each predecessor's promotion as it stands |
| Promotions.RunStaysSound | internal/release/mutation.go:156-258 | both over every run, with the predecessor graph closed and acyclic |
| Promotions.PromotedForGood | internal/release/mutation.go:173-175 | a promoted release never changes again |
| Promotions.PromotedAncestors | internal/release/release.go:468-472 | everything a promoted release rests on is promoted |
| Promotions.BindingsStand | internal/release/release.go:446-527 | its bindings name its predecessors' promotions at every later time |
| Promotions.PromotesExactly | internal/release/mutation.go:233-258 | an authorized promotion is accepted exactly when nothing is missing and an attestation passes |
| Promotions.ReadyYetRefused | internal/release/release.go:253-255 | readiness without an attestation is not promoted |
| Promotions.ReadyYetRefusedExample | internal/release/release.go:253-255 | one valid release of which this is true |
| Archive.MeasureIsExact | internal/archive/cost.go:164-182 | the manifest's length is the empty manifest's, the entries' and the commas', in any order of files |
| Archive.EntryBound | internal/wire/limits.go:74-85 | an entry and its comma take at most 375 bytes |
| Archive.EntryBoundMet | internal/wire/limits.go:74-85 | an entry that takes 375 |
| Archive.ManifestFits | internal/wire/limits.go:74-86 | every valid manifest of up to 2,100,000 files is under 768 MiB |
| ArchiveLaws.ManifestReadsBack | internal/archive/manifest.go:21-45 | every valid manifest parses back under the archive bounds, its nodes within the cap |
| ArchiveCost.CheckedAdd | internal/archive/cost.go:251-256 | 64-bit addition or a refusal, never a wrap |
| ArchiveCost.AddWithin | internal/archive/cost.go:258-267 | a sum within the limit, exactly |
| ArchiveCost.RoundBody | internal/archive/cost.go:243-249 | the least multiple of 512 that holds the body |
| ArchiveCost.MeasureManifest | internal/archive/cost.go:164-182 | the encoded length, refused exactly over the cap and never for a valid manifest |
| ArchiveCost.MeasureTar | internal/archive/cost.go:184-221 | the length of the tar stream, refused exactly over the archive limit |
| Streams.TailReader.Read | internal/archive/verify.go:33-53 | what it saw is what its reader passed on, a prefix of the source within the limit |
| Streams.TailReader.Shift | internal/archive/verify.go:33-53 | in the array itself, the window is the last 1,024 bytes seen |
| Streams.TailReader.LastZero | internal/archive/verify.go:55-65 | true exactly when the last 1,024 bytes seen are zero |
| Streams.TailReader.AtEnd | internal/archive/verify.go:175-177 | true exactly when two zero blocks and nothing else follow the data |
| Streams.Slides | internal/archive/verify.go:33-53 | the window of more is the window moved over |
| Streams.Drain | internal/archive/verify.go:33-53 | for every chunking the window holds the last bytes passed |
| Streams.StreamReader.Read | internal/archive/stream_limit.go:40-60 | at most the limit is passed on, one byte more is looked at, and excess is reported exactly when there is any |
| Streams.StreamWriter.Write | internal/archive/stream_limit.go:20-28 | a write is refused exactly when it would pass the limit |
| Streams.OnlyWhole | internal/archive/verify.go:165-180 | cut short or followed by anything, the stream is told from the whole one by its end |

## Left out

- Crashed INIT: the code refuses it, so every redo starts from a head.
- The staging descriptor `active.json`: without one every staging file is unassigned, so the refusals of assigned staging (internal/store/redo.go:45-47, internal/store/mutate.go:102-104) are never the ones met.
- Mounts, the lock file, fsync and directory creation: the writer lock is mutual exclusion, and `link` and `rename` are atomic steps.
- SHA-256: a digest is an injective constructor of what it digests.
- The order of posts by path bytes: posts are published in plan order, and the results hold for any plan order.
- File sizes inside receipts: whether a post is inlined is a flag of the post.
- Field-by-field decoding of receipts, heads, requests, policy, queue, import map and envelopes: documents are already decoded, with the relations between their fields as predicates.
- Audit.WalkReceipt: the checks of a single record that look into its fields are left out: the sinceSeq and receipt kind of a barrier, the queue, ticket and attempt identifiers of a record and of its receipt, the five posts of the genesis with one INIT descriptor that names the head's queue and worktree, empty genesis reservations, the profile of a pinned record, and the scan and selection bounds.
- Audit.Walk: the same checks are left out, so its verdict is about receipts that pass them.
- RESTORE_INCOMPLETE, ALL barriers, branch checks and the retries of an audit capture: guards before the step that is modelled.
- The intent tree digest of the head is any value.
- The classes of probe errors: a probe that fails is reported as it is, and only successful reads are claimed about.
- Overflow of the sequence number past 64 bits: the chain is bounded at 1,000,000 receipts first.
- Tar headers: their length is a function of the name and, in `ArchiveCost`, of the size.
- The names and sizes that `Charging` gives files are any injective naming and any sizes within the stage caps; the import map is refused by capacity and has no name there.
- The observation of a cleaned-up staging directory in an abort: the abort is the inventory before the link.
- Extra directories that `validateRedoInventory` ignores are ignored here too.
- Unpause.PausedCanUnpause: names of one kind and length cost the same, which is what the tariff being uniform says.
- Error codes that share a class are one constructor, and refusal texts are not modelled.
- The bytes by which attestations and digests are sorted inside a release: sets stand for the sorted lists without repeats.
- Working.Apply: the checks before the role check, of the envelope against the trusted actor and queue and of a replayed request, are left to its caller; the replay is `Session.Writer.Lookup`.
- The comparison of an envelope's claimed actor and queue with the trusted ones: contexts carry the trusted ones.
- Time stamps, git observations and evidence: inputs.
- Ticket views beyond the RUN approval, queue ordering, list paging, the command line and the export walk: easy members that no result here needs.
- The receipt chain loop of archive verification repeats the audit's chain fold and is not modelled again.
