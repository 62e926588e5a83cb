# A verified model of the Mattermost connector

The connector joins a chat server (Mattermost) to an agent server (Orpheus). It keeps no database: after a crash, a
lost response or a retry it has to derive again from the two servers' histories what it has accepted, what is running
and what it has published. This project models the parts where that is hard and proves what they promise over every run.

| part | modules |
|---|---|
| The scheduler and the run-capacity allocator: a class with the mutable fields, its critical sections as atomic steps, and every interleaving of them | `Scheduler`, `SchedulerRuns`, `SchedulerTheorems`, `SchedulerCapacity` |
| Admission of a thread's input: one reconciliation as code and as a decision, and runs with every outcome of a submit call, crashes and an agent server working on its own | `Admission`, `AdmissionDecisions`, `AdmissionRuns`, `AdmissionTheorems`, `AdmissionBatches`, `AdmissionInputs` |
| Publication: chunking, receipts, repairs, giving up attachments, rejections, against a server that may lose responses | `Chunks`, `Delivery`, `Publishing`, `Publication`, `Rejection` |
| Files of the workspace: preparing and caching inputs, the import stream, the chain of input indexes, sealing and uploading outputs, with a crash possible after every write | `Workspace`, `InputBatches`, `ImportStream`, `IndexChain`, `IndexCoverage`, `Export` |
| Composition and routing: thread pagination, the window around a link, the choice of context, building an input, channel ownership, file names | `Thread`, `LinkedWindow`, `Context`, `Selection`, `Routing`, `Names` |

Code that changes state in place is a class or a method with loops; each such method is tied to a function or predicate
about which the results are then proved. What a decision means is stated apart from the function that makes it, on the
plain fields of posts, jobs, sessions, runs and limits (lemmas named `…Exactly`, and the clauses of the methods). `dafny verify dfyconfig.toml` checks everything.

## Assumptions about the environment

- The connector is the only initiator of runs (docs/CONFIGURATION.md:237-239), and one worker at a time handles a thread
  (proved of the scheduler: `SchedulerRuns.SoundRun`).
- A submit call takes effect before it returns or never; snapshots of the agent server are complete; a settled delivery
  and a finished run are final. A run may finish, and an input be rejected, at any time. For the input indexes
  (`IndexCoverage`) also: a delivery settles while its run is live, and only prepared runs receive clarifications.
- A create call of the chat server may commit and still fail, attach only some files, or answer without the receipt.
  Anybody may act between two calls, as long as the bot's receipts stay visible (docs/TESTING.md:80-84); where they do
  not, `Delivery.HiddenReceiptDuplicates` shows the second post and `Delivery.AbsentExactly` says exactly when it happens.
- Files of the chat server are immutable. Writes and renames in the workspace are atomic, the locks exclude each other,
  and nobody else edits the connector's own files there.
- Digests and JSON encodings are injective and decoding undoes encoding. Identifiers are numbers, 0 standing for the empty
  or invalid one. The trigger predicate, the links of a post, and sizes of encodings are parameters.

## Where the code does less than its documentation or an unrestricted claim

- A reload during the replay phase of an older scan can admit a run for a newly added workflow before its sessions are
  listed, over its limit: `SchedulerCapacity.ReloadAdmits`. A reservation is safe exactly when the workflow's sessions have
  been listed: `SchedulerCapacity.SafeReservation`.
- A post that a visible rejection withdraws can be submitted again: with a frozen input whose notice was posted while the
  answer to that call was lost (`AdmissionInputs.RefusedIsSubmittedAgain`), and with the transfer of a rejected
  clarification (`AdmissionInputs.TransferIsSubmittedAgain`). It happens exactly when an open frozen input holds the post,
  or none is open, the thread is idle and the transfer holds it: `AdmissionInputs.WithdrawnIsSubmittedExactly`.
- A rejection notice is found again by text, but lifts with the edit time: after editing a rejected post and editing it
  back, `reject` succeeds without recording the new version, so the post stays a trigger
  (`Rejection.EditedBackIsNotWithdrawn`). A successful `reject` withdraws a trigger exactly when some part of its notice
  was missing or an earlier rejection had recorded that version: `Rejection.Reject`.
- The cache of input files shows when a cached file can no longer be downloaded (`InputBatches.CacheHidesFailure`), and only
  then: `InputBatches.CacheTransparent`.
- A batch frozen for an anchor cannot be prepared again with another request, so an input whose files were imported for a
  clarification that was never accepted blocks its anchor in that session once it is rebuilt with other files:
  `IndexCoverage.ImportedThenOther`; `IndexCoverage.ConflictsExactly` says exactly when it happens.
- A transfer repeats only the last items of its submission when the server has rejected only those:
  `AdmissionBatches.TransferKeepsText`.
- The two file-name cleaners differ on names that end in a separator, and the connector does not check the per-post limit
  that the hook demands: `Names.AgreeExactly`, `Workspace.ValidInBoth`; just those streams are refused:
  `ImportStream.RoundTrip`.
- An output can be sealed whose manifest outgrows 16384 bytes once the uploads are recorded; then no attempt finishes it,
  and a record that is already too long is never read again: `Export.Outgrown`. `Export.Store.ExportOutput` says exactly
  when an attempt succeeds, `Export.StrandedExactly` when every crash leaves a record that can be read.
- The window around a link need not end when the target is missing: `LinkedWindow.NeverEnds`.
- Without the grouping by connection a valid configuration can be ambiguous: `Routing.UngroupedIsAmbiguous`.

## Model

| member | source | states |
|---|---|---|
| `Scheduler.Runtime.EnqueueThread` | internal/service/runtime.go:74-86 | Marks a present thread, queues a new one with no failure and nothing to wait for, refuses the 4097th and makes a scan due; nothing else changes |
| `Scheduler.Runtime.Hint` | internal/service/runtime.go:87-101 | A hint on a present thread always marks it; on an absent one it queues it under a configured workflow of its namespace, else changes nothing |
| `Scheduler.Runtime.CountRuns` | internal/service/runtime.go:328-333 | The loop computes the sum of a workflow's active counts |
| `Scheduler.Runtime.AnyUnknown` | internal/service/runtime.go:334-338 | Finds whether any thread of the workflow has unknown capacity |
| `Scheduler.Runtime.ReserveRun` | internal/service/runtime.go:322-346 | Grants exactly when admission is open, no thread of the workflow is unknown and its total is under the limit, and then counts one run; otherwise records the wait and counts nothing |
| `Scheduler.Runtime.ObserveSnapshot` | internal/service/runtime.go:399-456 | Replaces the thread's count by the live runs of the snapshot, and wakes waiters exactly when the count falls or the last unknown thread is resolved |
| `Scheduler.Runtime.FinishWork` | internal/service/runtime.go:364-398 | The end of an attempt: the new state is the step `Finish`, which keeps or removes the job |
| `Scheduler.Runtime.DiscoverThread` | internal/service/runtime.go:460-483 | A thread found by the scan is queued and marked unknown, unless the scan's epoch is over |
| `Scheduler.Runtime.SwapChannels` | internal/service/runtime.go:525-541 | A changed channel list marks exactly the jobs whose channel came, went or changed its kind |
| `Scheduler.Runtime.OpenAdmission` | internal/service/runtime.go:575-588 | Admission opens and wakes every waiter, for the current epoch only |
| `Scheduler.Runtime.EndScan` | internal/service/runtime.go:486-509 | The end of a scan touches a later epoch's schedule only if the epoch is unchanged; the next scan is due after the shortest polling interval, 30 s at most, or 3 s after a failure |
| `Scheduler.Runtime.ReloadConfig` | internal/service/runtime.go:237-262 | A compatible reload starts a new epoch, makes a scan due at once, retires the workflows it no longer configures, and lets every job start over, cancelling those at work; any other changes nothing |
| `Scheduler.WithoutCurrent` | internal/service/runtime.go:241-246 | A retired workflow is one of an earlier configuration and none of the current one |
| `Scheduler.RetiredExactly` | internal/service/runtime.go:241-246 | After a reload the retired workflows are those retired or configured before and not configured now |
| `Scheduler.Runtime.EligibleKeys` | internal/service/runtime.go:269-293 | The threads that `Eligible` names, each once, in queue order; `Dispatch` says on the fields which they are |
| `Scheduler.Runtime.Dispatch` | internal/service/runtime.go:269-318 | Every launched job was idle with its retry time come, and marked, or past its polling time and either no permanent failure or with a counted run; with a worker left free every such job is launched; oldest first, and each attempt takes over the marks and the workflow that owns the channel now |
| `Scheduler.OldestFirst` | internal/service/runtime.go:280-317 | A prefix of the ordered eligible threads is a fair choice |
| `SchedulerRuns.SoundRun` | internal/service/runtime.go:269-483 | Over every interleaving: order values distinct and bounded, at most 4096 jobs, exactly one worker per working job counted in `running`, no mark, hint or wake-up lost |
| `SchedulerRuns.SoundNext` | internal/service/runtime.go:269-483 | Every step keeps the bookkeeping, the marks, the phases of workers, the wake-ups and the scan's state |
| `SchedulerTheorems.HintIsFollowed` | internal/service/runtime.go:74-101 | A hint on a thread with a job stays owed, and the job stays queued and marked, until an attempt begins after it |
| `SchedulerTheorems.UnknownIsObserved` | internal/service/runtime.go:460-476 | A thread of unknown capacity always has a job that is marked or at work; at most 4096 jobs; `running` counts the working ones |
| `SchedulerTheorems.CapacityWaiterIsWoken` | internal/service/runtime.go:386-396 | An unmarked waiter has a reason to wait (admission closed, discovery, an unknown thread, the limit reached, or a reload's scan due), and its job is never deleted |
| `SchedulerTheorems.BoundedBypass` | internal/service/runtime.go:280-317 | While a thread stays eligible, fewer than 4096 attempts overtake it, whatever else interleaves |
| `SchedulerTheorems.BypassStep` | internal/service/runtime.go:294-317 | The idle jobs ahead of a thread only shrink, by as many as a round dispatches |
| `SchedulerTheorems.PolledAgain` | internal/service/runtime.go:269-318 | Over every interleaving, after an attempt at time t the first round at or after t plus the polling interval, with the retry due and a worker to spare, launches the thread while a run of it is counted |
| `SchedulerTheorems.BacksOff` | internal/service/runtime.go:364-398 | After a failure at time t no round before t plus the delay launches the thread, and the first one after it with a worker to spare does, unless a reload comes between |
| `SchedulerTheorems.FinishedJob` | internal/service/runtime.go:364-398 | What an attempt leaves in a job that is kept: the polling time, the retry time and count of failures, marks that came in meanwhile, and permanence |
| `SchedulerTheorems.ForgottenExactly` | internal/service/runtime.go:364-398 | In any step a job disappears exactly when its attempt succeeds, is not marked again, leaves no input with the engine, has no counted run and no permanent failure |
| `SchedulerTheorems.NewThreadIsTaken` | internal/service/runtime.go:74-101 | A hint on a thread without a job is followed by the next round that has a worker to spare |
| `SchedulerTheorems.ReloadRetriesAll` | internal/service/runtime.go:237-262 | After a reload the next round with workers to spare attempts every idle thread again, whatever its failures |
| `SchedulerCapacity.CapacitySafety` | internal/service/runtime.go:322-346 | Without a reload, once a reservation for a workflow has succeeded its live runs on the server never exceed its limit, from any preexisting runs and with lost responses |
| `SchedulerCapacity.CapacityNext` | internal/service/runtime.go:322-483 | The inductive invariant: once open, every live thread is unknown or counted in full |
| `SchedulerCapacity.ReservedIsBounded` | internal/service/runtime.go:322-346 | A granted reservation proves the whole workflow counted and within its limit |
| `SchedulerCapacity.SafeReservation` | internal/service/runtime.go:322-346 | Over all runs with reloads, a granted reservation leaves room, whatever run has led to that state of the connector, if and only if the workflow's sessions have been listed |
| `SchedulerCapacity.ReloadAdmits` | internal/service/runtime.go:575-643 | A concrete run with a reload during an old scan that admits over the limit |
| `SchedulerCapacity.LiveIsPolled` | internal/service/runtime.go:269-318 | With one configuration and the sessions listed, a thread with a run that is live on the server, counted or not, is polled like that |
| `Admission.Active` | internal/service/engine.go:261-276 | Finds the only live run, or that there is none, or several |
| `Admission.IsAccepted` | internal/service/engine.go:278-291 | Some input in the history has the frozen anchor and predecessor |
| `Admission.FindTransfer` | internal/service/engine.go:300-338 | The first clarification that its run finished without, not followed up yet, with the saved items of its batch |
| `Admission.CollectTexts` | internal/service/engine.go:318-333 | The items of the batch that precede the one with metadata, in order |
| `Admission.CountFileClarifications` | internal/service/engine.go:496-510 | Counts the clarifications with files a run was sent, whatever became of them |
| `Admission.CollectDelivered` | internal/service/engine.go:522-535 | The anchors of file batches delivered to a run |
| `Admission.CollectIndex` | internal/service/engine.go:513-538 | Links a request to the last run whose preparation completed |
| `Admission.DeliveredBatches` | internal/service/engine.go:522-535 | Exactly the delivered file clarifications of the run, no more than were sent |
| `Admission.Engine.Reconcile` | internal/service/engine.go:349-553 | Every branch of one reconciliation: new slot, action and use of the reservation equal the decision, other threads untouched; a run is started only in a session whose sandbox is there, that allows runs, has the revision and tokens left, and did not end by losing sandbox or context or at the token limit, and a new session is opened only when the last one fails that |
| `Admission.Engine.AdmitNew` | internal/service/engine.go:430-553 | The same decision for admission without a frozen submission |
| `Admission.Engine.SubmitFrozen` | internal/service/engine.go:558-597 | The whole submit step: files of a clarification go into its sandbox first, each reply of the server keeps or clears the frozen input, and the step fails exactly as the source says |
| `Admission.StartsWhereFit` | internal/conversation/model.go:157-164 | On the fields of the sessions: where a run is started, and when a new session is |
| `Admission.GivenUpExactly` | internal/service/engine.go:403-430 | A frozen input is given up for its session exactly when that fails one of those fields, and then everything is decided afresh |
| `AdmissionDecisions.CancelsExactly` | internal/service/engine.go:350-364 | A run is cancelled exactly when the channel is out of scope and it is the only unfinished one |
| `AdmissionDecisions.ClarifiesExactly` | internal/service/engine.go:436-508 | Into a live run ordinary triggers go exactly when it is running under the current revision and its files can be taken: a sandbox is there and fewer than 32 inputs with files were sent |
| `AdmissionDecisions.StartsExactly` | internal/service/engine.go:430-552 | On an idle thread: a missed clarification goes before ordinary triggers, rebuilt for a new session and as saved for a continued one; what is asked, rejected, queued, frozen and submitted, with its predecessor and session |
| `AdmissionDecisions.TransferExactly` | internal/service/engine.go:300-338 | A transfer is due exactly when a clarification was rejected because its run, which completed short of the token limit, ended first, and nothing follows it; it is the first such, with the text the server rejected with it |
| `AdmissionDecisions.LinksExactly` | internal/service/engine.go:511-538 | A continued session links to the last run whose preparation completed and to exactly the file batches delivered to that run |
| `AdmissionDecisions.FileInputsCounted` | internal/service/engine.go:490-508 | The count of clarifications with files is the number of such messages |
| `AdmissionRuns.InvRun` | internal/service/engine.go:349-597 | Every run keeps the lineage of inputs, one live run per thread, and a slot that fits the history |
| `AdmissionRuns.SharedTriggerRejected` | internal/service/engine.go:300-338 | Two different inputs share a post only as a rejected clarification and its one descendant |
| `AdmissionRuns.AcceptedIsExact` | internal/service/engine.go:278-291 | The history test for the frozen submission answers exactly whether that submission took effect |
| `AdmissionRuns.SubmittedFits` | internal/service/engine.go:538-552 | What a reconciliation submits may enter the history as it is then, not as it was read |
| `AdmissionRuns.TransferFacts` | internal/service/engine.go:300-338 | A transfer follows a rejected clarification that nothing has followed |
| `AdmissionTheorems.AtMostOnceInput` | internal/service/engine.go:300-553 | Over all runs no post belongs to two accepted inputs unless one is rejected; inputs without predecessor are disjoint, and each predecessor has one descendant with exactly its triggers |
| `AdmissionTheorems.SingleLiveRun` | internal/service/engine.go:261-276 | No thread ever has two live runs, in truth or as read: the error branch is unreachable |
| `AdmissionTheorems.ExactResolution` | internal/service/engine.go:403-430 | The frozen submission reads as accepted exactly when it took effect, and unaccepted without a run means an idle thread |
| `AdmissionTheorems.SubmittedOnce` | internal/service/engine.go:558-584 | A frozen submission enters the history at most once, however often it is sent |
| `AdmissionTheorems.RefusedReservationHoldsInput` | internal/service/engine.go:424-426 | Capacity is asked for only on an idle thread, a granted request submits, and a refused one leaves frozen or queued input behind |
| `AdmissionTheorems.ContinuesFitSession` | internal/conversation/model.go:157-164 | Over all runs, an input that continues a session names exactly one session of the snapshot, and starts a run there only while that is fit |
| `AdmissionBatches.TransferKeepsText` | internal/service/engine.go:318-333 | Over every run, a transfer carries the last texts of the very submission that was rejected, all of them if and only if all its items were rejected |
| `AdmissionBatches.RecordedRun` | internal/orpheus/client.go:312-399 | Metadata travels on the last item of a batch only, so every accepted batch can be told apart in the history |
| `AdmissionBatches.FileBatchesBounded` | internal/service/engine.go:556 | No run is ever sent more than 32 batches with files, so no index step lists more |
| `AdmissionInputs.BuilderIsSensible` | internal/conversation/context.go:255-305 | A built batch starts with its anchor and takes neither a post that an accepted input owns nor a withdrawn one; a rebuilt transfer keeps the kind, predecessor, anchor and triggers of the clarification it repeats: what the protocol assumes of the builder |
| `AdmissionInputs.WithdrawnIsSubmittedExactly` | internal/service/engine.go:403-459 | For every history and slot, a submission contains a post that a visible rejection withdraws if and only if an open frozen input holds one, or none is open, the thread is idle and the transfer holds one |
| `AdmissionInputs.RefusedIsSubmittedAgain` | internal/service/engine.go:585-597 | A concrete refusal whose notice is posted while its answer is lost: the withdrawn post is submitted again from the slot |
| `AdmissionInputs.TransferIsSubmittedAgain` | internal/service/engine.go:300-338 | A run of the protocol whose transfer is refused and noticed, and submitted again with the withdrawn post |
| `Chunks.Split` | internal/delivery/delivery.go:280-309 | The loop yields exactly the sequence of best cuts |
| `Chunks.LastBoundary` | internal/delivery/delivery.go:293-298 | The last boundary of one kind in the latter half of the window, or none |
| `Chunks.CutUnique` | internal/delivery/delivery.go:288-304 | The cut is determined: last boundary of the best kind in the latter half, else the full window |
| `Chunks.ChunkedUnique` | internal/delivery/delivery.go:280-309 | The parts are a function of the text, so receipts are reproducible |
| `Chunks.ChunkedBounds` | internal/delivery/delivery.go:280-309 | Parts concatenate to the text, have 1 to limit code points, and all but the last more than half the limit |
| `Chunks.ChunkedCount` | internal/delivery/delivery.go:280-309 | The number of parts is bounded by the length of the text |
| `Chunks.CutReads` | internal/delivery/delivery.go:288-304 | A cut part ends with the last blank line of the latter half of the window, else its last line end, else its last white space, else with the window |
| `Chunks.SplitWindows` | internal/delivery/delivery.go:312-323 | Render version 1 cuts full windows |
| `Chunks.PartTexts` | internal/delivery/delivery.go:310-333 | For every render version the parts concatenate to the text and fit the limit, and an empty text is one empty part; version 1 fills its parts, later ones are the sequence of best cuts |
| `Delivery.FirstPost` | internal/delivery/delivery.go:255-263 | A first post under a key after the part before it keeps receipts unique and parts in order |
| `Delivery.AbsentExactly` | internal/delivery/delivery.go:66-108 | A part counts as not posted exactly when no live post of the bot in this channel and thread has a receipt for this source and workflow with the same session, run, message and part |
| `Delivery.FindExactly` | internal/delivery/delivery.go:79-108 | A part is found when one such post has its text, number of parts, render version and, unless given up, files; it is contradicted when several do, or one that differs in any of them |
| `Delivery.MineExactly` | internal/delivery/delivery.go:66-75 | What counts as published: exactly the live posts of the bot in this channel and thread with a receipt for this source and workflow |
| `Delivery.NoticeExactly` | internal/delivery/delivery.go:122-130 | A notice is there exactly when such a post has its kind and run and an unaltered text |
| `Delivery.HiddenReceiptDuplicates` | internal/delivery/delivery.go:66-75 | A committed post whose receipt is hidden does not stop a second one |
| `Delivery.DeliveredStays` | internal/delivery/delivery.go:90-121 | Publishing anything else leaves a delivered part delivered |
| `Delivery.SkipWeakens` | internal/delivery/delivery.go:97-101 | Once files are given up, the files a part should carry no longer matter |
| `Delivery.NoticeStays` | internal/delivery/delivery.go:122-130 | Notices never disappear, and only a publication that owns the key adds one |
| `Publishing.Publisher.FindPart` | internal/delivery/delivery.go:90-108 | One pass decides: absent, exactly one unaltered post, or a conflict |
| `Publishing.Publisher.NoticeExists` | internal/delivery/delivery.go:122-130 | Whether a visible intact notice of the kind exists for the run |
| `Publishing.Publisher.Verified` | internal/delivery/delivery.go:109-121 | A file is verified exactly when the post lists it and the server links it to the post |
| `Publishing.Publisher.Attachable` | internal/delivery/delivery.go:222-253 | Success means every file exists and is attached nowhere; a conflict, that one is attached to a post of the thread that is not this run's or to one elsewhere that is still there; otherwise one is gone, or attached to a post of this run or one that is gone |
| `Publishing.Publisher.PublishOne` | internal/delivery/delivery.go:197-277 | Posts only when the part is absent; whatever fails, receipts stay unique and ordered; success means one intact post with all its files; repeating it on a quiet server changes nothing |
| `Publishing.Publisher.Publish` | internal/delivery/delivery.go:154-196 | The same with repairs: success means every file is on the post or on its own repair post; the self-call ends and the index into the files is in range; a quiet server always posts a part that no receipt contradicts, and when its files are delivered or attached nowhere their repairs meet no contradiction either |
| `Publishing.Publisher.PublishRepairs` | internal/delivery/delivery.go:163-182 | Each unattached file of a posted part gets one repair post |
| `Publication.FindContract` | internal/service/engine.go:125-141 | The render contract is the run's first initial envelope unless undecodable metadata comes first |
| `Publication.ContractExactly` | internal/service/engine.go:125-141 | The contract is the render version of the first initial envelope of the run that no malformed metadata of the run precedes |
| `Publication.FindHookOutput` | internal/service/engine.go:142-159 | Only the first complete result counts, and only if it is readable, ready and passes the connector's check for the run's identity and limits |
| `Publication.HookOutputExactly` | internal/service/engine.go:142-159 | The result is the files of the first complete after_run hook, ready, uploaded and within limits, or none without an agent |
| `Publication.UsableFiles` | internal/service/engine.go:142-159 | Every file of a usable result is uploaded, within the limits, and listed once |
| `Publication.Parts` | internal/delivery/delivery.go:310-334 | One part per chunk, numbered, under one message key |
| `Publication.PartsRecord` | internal/delivery/delivery.go:310-333 | The parts spell the item; each records the digest of its text, its number among all parts and the render version, the first one the files |
| `Publication.ByPositionSorts` | internal/service/engine.go:201-202 | Messages are published in order of position, none lost |
| `Publication.PostedPrefix` | internal/delivery/delivery.go:154-277 | The posted parts of a message are always the first ones: a posted part means every earlier one is posted |
| `Publication.DeliveredSpells` | internal/delivery/delivery.go:310-334 | The posts of a delivered message, read in order, spell out its text |
| `Publication.Engine.Send` | internal/service/engine.go:179-200 | A message is delivered part by part, or its files are given up with a notice and the text still goes out |
| `Publication.Engine.PublishRun` | internal/service/engine.go:160-260 | Success means: each answer of a finished run and, where the contract asks for it, each commentary is spelled by its posts; the files of the result are on the final message or on a post of their own, unless a notice gives them up; a failure is reported, and an empty result exactly when there is nothing else; nothing is posted under any other message, nor the notice unless a finished run's result has files or cannot be read. A settled run published again on a quiet server succeeds and creates nothing; a quiet server publishes every run that nothing in the thread contradicts, its files being delivered or attached nowhere (`RunOpen`), and contradiction is the only other outcome for a run with a contract |
| `Publication.SettledMeans` | internal/service/engine.go:201-260 | A settled run is complete in the thread, stated on its messages, hooks, failure and the visible posts |
| `Publication.ExpectedItems` | internal/service/engine.go:201-260 | The items that are sent are among those the run can have: nothing else is posted |
| `Publication.FreshIsOpen` | internal/service/engine.go:160-260 | A run of which nothing is in the thread meets that condition when its messages have identities of their own and the files of its result, if any, are different uploads attached nowhere |
| `Publication.RunStaysOpen` | internal/service/engine.go:203-214 | Giving up on files for want of a usable result leaves everything else of the run publishable |
| `Publication.Engine.Publish` | internal/service/engine.go:160-173 | The queue of unpublished runs follows the outcome and the flag does not outlive the run |
| `Publication.Engine.PublishAll` | internal/service/engine.go:364-381 | From a fresh view, receipts stay unique and ordered and posts stay what they were whatever fails; success settles every run; a repetition on a quiet server changes nothing |
| `Publication.Attempts` | internal/service/engine.go:364-381 | Over any number of attempts of a connector that may crash between them: at every point at most one post per receipt key, which stays that post, and no part without the one before it |
| `Publication.OncePosted` | internal/delivery/delivery.go:154-277 | What that says of one receipt key at two points of the history |
| `Publication.SettledStays` | internal/service/engine.go:377-381 | Publishing another run does not unsettle this one |
| `Rejection.Rejected` | internal/delivery/delivery.go:131-151 | Exactly the posts whose present version a live post of the bot, an intact rejection of this revision, records as a trigger |
| `Rejection.RefusedExactly` | internal/delivery/delivery.go:131-151 | The same on the fields of posts and receipts, the present version being that of the last post of its identity |
| `Rejection.Reject` | internal/service/engine.go:598-618 | Success means the notice is complete and its posts spell the reason; a trigger that reads as sent is then withdrawn if and only if some part of the notice was missing before or an earlier rejection had recorded that version; a repetition changes nothing; a quiet server posts a notice that nothing contradicts |
| `Rejection.WithdrawnExactly` | internal/delivery/delivery.go:131-151 | A post is withdrawn if and only if some visible rejection records it as a trigger at its current version |
| `Rejection.EditedBackIsNotWithdrawn` | internal/service/engine.go:598-618 | A run of `reject` to its success after a rejected post was edited and edited back: the post is not withdrawn |
| `Workspace.ValidInBoth` | internal/attachments/types.go:95-108 | What the connector validates the hook accepts, if and only if names do not end in a separator (or clean to the default) and the per-post limit is positive; and conversely, if and only if the names agree |
| `InputBatches.Prepare` | internal/sandbox/files.py:265-306 | Fails exactly on an invalid or conflicting request; otherwise commits the manifest the server and cache provide, each entry judged as `EntriesJudged` says, with ready bytes on disk; every crash point is consistent and differs from the start only in this batch, input files and cache records |
| `InputBatches.PrepareFile` | internal/sandbox/files.py:266-306 | One file's entry, both ways: refused beyond the per-post count, beyond the rest of the batch as requested or as described, unless an undeleted post of its channel lists it and the server describes it for that post, or over its limit, which is the image limit exactly for an "image/" type; otherwise ready with its bytes, from the cache or the server, or failed when neither has them |
| `InputBatches.EntriesJudged` | internal/sandbox/files.py:266-306 | Every entry of a batch has exactly the status that the server, the limit of its type, the bytes ready before it and the number of files of its post demand |
| `InputBatches.JudgedIsBounded` | internal/sandbox/files.py:266-306 | So ready images are within the image limit, other ready files within the file limit, a post has no more than its count, and all together keep to the batch limit |
| `InputBatches.SavedIsCached` | internal/sandbox/files.py:244-263 | A saved file is found again exactly by requests for the same file, post and path whose description the server has not changed |
| `InputBatches.SaveFile` | internal/sandbox/files.py:244-248 | Stores bytes and record only when size and digest match |
| `InputBatches.CachedExactly` | internal/sandbox/files.py:250-263 | The cache answers exactly when the record names this path, file and post with the size and type the server describes now, and the bytes at the path have that size and the recorded digest |
| `InputBatches.CachedIsFetched` | internal/sandbox/files.py:250-263 | A cache hit is what the download would have given |
| `InputBatches.CacheTransparent` | internal/sandbox/files.py:265-306 | For the files that the cache answered, the manifest is that of an empty cache if and only if each of them could still be downloaded |
| `InputBatches.CacheHidesFailure` | internal/sandbox/files.py:289-297 | A cached file that stays ready while its download fails |
| `InputBatches.EntriesKeepLimits` | internal/sandbox/files.py:273-303 | Ready entries carry true size and digest, respect their kind's limit, and sum to at most the batch limit |
| `InputBatches.EntriesKeepCount` | internal/sandbox/files.py:273-275 | No more of a post's files are ready than allowed |
| `InputBatches.RequestWritten` | internal/sandbox/files.py:233-242 | Rewriting the frozen request keeps every manifest's request hash true |
| `ImportStream.Send` | internal/agentbox/access.go:163-213 | The stream written is the specified one, and it is refused exactly when some record is too long |
| `ImportStream.FramedIsTaken` | internal/agentbox/access.go:173-182 | The sender's 64 KiB bound meets the receiver's line limit: every framed record is read back |
| `ImportStream.LongerIsNotTaken` | internal/sandbox/files.py:309-312 | One byte more would not be read back |
| `ImportStream.SentFileKeepsLimits` | internal/agentbox/access.go:188-212 | Every file sent as ready fits the limits the receiver checks |
| `ImportStream.SentFileExactly` | internal/attachments/input.go:19-53 | What is sent for a file, status by status, on the fields of post, description and limits |
| `ImportStream.ReceivedExactly` | internal/sandbox/files.py:316-330 | A file is received exactly when its record comes next and is about the expected file, and if ready keeps the limit of its type, the batch and the count and is followed by its bytes |
| `ImportStream.ReceivedIsBounded` | internal/sandbox/files.py:308-334 | Every received stream keeps all limits |
| `ImportStream.RoundTrip` | internal/agentbox/access.go:183-213 | Of the streams completed for requests that the connector finds valid, exactly those whose names and per-post limit the hook accepts too are received, in full: same request, same entries and totals, same bytes |
| `ImportStream.ExtendedIsRefused` | internal/sandbox/files.py:332 | A complete stream followed by anything is refused |
| `ImportStream.TruncatedIsRefused` | internal/sandbox/files.py:308-334 | No proper prefix of a complete stream is complete |
| `ImportStream.EmittedIsTrue` | internal/attachments/input.go:35-53 | The bytes of a sent stream, and of any part of it, are those of the chat server |
| `ImportStream.ImportInput` | internal/sandbox/files.py:308-334 | Commits a manifest exactly when the stream is complete and agrees with the frozen request, with images within the image limit, other files within the file limit, and the batch and per-post limits kept; otherwise only input files and cache records change; every crash point is consistent and touches no other batch, index or document |
| `IndexChain.BeginRun` | internal/sandbox/files.py:346-365 | Succeeds exactly when different index pages of this schema lead from the previous index to a first one, all their batches and all new ones are manifests of this source about their own batch with the recorded request beside them; then writes the new page, linked to the previous one, and the pointer to it |
| `IndexChain.VerifyManifest` | internal/sandbox/files.py:336-344 | Decides exactly that of one manifest |
| `IndexChain.WalkExactly` | internal/sandbox/files.py:346-358 | The walk, with any pages seen before, yields exactly the chain of different linked pages |
| `IndexChain.WalkIsAcyclic` | internal/sandbox/files.py:349-358 | An accepted chain never visits a page twice |
| `IndexChain.LinkedExactly` | internal/sandbox/files.py:346-365 | The chain extended by a run can be walked again if and only if the run was not on it; then it is the new page and the old chain |
| `IndexChain.VerifiedKept` | internal/sandbox/files.py:336-344 | Preparing or importing a batch, completed or interrupted, leaves every verified manifest verified |
| `IndexChain.WalkKept` | internal/sandbox/files.py:346-358 | And leaves every chain as it was |
| `IndexChain.BeforeRun` | internal/sandbox/files.py:566-570 | The hook begins the run exactly when the request is valid, does not conflict, and the chain and batches are sound once it is prepared; so whenever they were sound before |
| `IndexCoverage.RunKeeps` | internal/service/engine.go:511-538 | In every history, with hooks and imports failing or interrupted anywhere, each request is linked to the last prepared run and all it received, each prepared run's page says so and is sound, and every file clarification has its verified batch |
| `IndexCoverage.NothingIsLost` | internal/service/engine.go:511-538 | The chain from the next request is accepted, and every batch delivered to an earlier prepared run, its initial batch included, is on it or due |
| `IndexCoverage.WalkSucceeds` | internal/sandbox/files.py:346-358 | In every such state the chain of prepared runs is walked to its end |
| `IndexCoverage.NextRunBegins` | internal/sandbox/files.py:346-365 | Over every history, begin_run accepts the next request once its own batch is prepared |
| `IndexCoverage.NextChainIsSound` | internal/sandbox/files.py:346-358 | Over every history, the chain and the delivered batches that the next request names are sound |
| `IndexCoverage.ConflictsExactly` | internal/sandbox/files.py:233-240 | Over every history, a batch conflicts if and only if an earlier step froze another request for its anchor |
| `IndexCoverage.ImportedThenOther` | internal/sandbox/files.py:233-240 | After any history, a batch imported but never accepted shuts out every other request for its anchor |
| `IndexCoverage.BegunLeavesPage` | internal/sandbox/files.py:359-362 | The page assumed of a prepared run is the one begin_run writes |
| `Export.Store.SealOutbox` | internal/sandbox/files.py:379-414 | A seal that exists is returned unchanged; a new one describes complete bytes, a copy of an idle outbox, and appears in one step or not at all; an idle outbox within the limits is sealed |
| `Export.Store.ExportOutput` | internal/sandbox/files.py:429-459 | At every crash point the seal and recorded uploads are final, and each record names a server file with the artifact's bytes; only sealed artifacts without a record are sent, each once, and every file of a result was on record or is sent now; a ready result is returned again without upload; with a server that answers, a sealed output gives a result if and only if the earlier record and the final manifest keep within 16384 bytes, and a longer record is never read again |
| `Export.StrandedExactly` | internal/sandbox/files.py:436-445 | Every record that an attempt may leave can be read by the next if and only if the final manifest leaves four bytes |
| `Export.FinalIsForetold` | internal/sandbox/files.py:447-458 | The length of a finished manifest is known at the seal: 26 bytes more for each file |
| `Export.ArtifactSizeExactly` | internal/sandbox/files.py:402-404 | What an artifact takes in the compact encoding: its keys, two digests, name, path, the digits of its size, and the identifier of its upload |
| `Export.Outgrown` | internal/sandbox/files.py:477 | A seal of 73 small files that the checks accept although no attempt can finish it |
| `Export.Store.UploadMissing` | internal/sandbox/files.py:447-455 | Each upload is recorded before the next; exactly the files without a record are sent; on a complete manifest nothing is sent |
| `Export.SameOutputs` | internal/attachments/output.go:17-33 | The hook's and the connector's checks accept the same outputs although their name rules differ |
| `Export.AcceptsExactly` | internal/attachments/output.go:17-33 | What is accepted, on the fields: the identity, the stage, the numbers and sizes, distinct identifiers made of run, path and digest, safe names, and paths under snapshot/ without empty or dotted parts |
| `Export.Validate` | internal/attachments/output.go:17-33 | The connector's loop decides exactly that rule, duplicates included |
| `Export.CopiedStep` | internal/sandbox/files.py:401-406 | Copying one more file keeps manifest and snapshot describing each other |
| `Export.SnapshotPathIsClean` | internal/sandbox/files.py:403 | A clean relative path stays clean under the snapshot directory |
| `Names.SafeNameGo` | internal/attachments/types.go:76-93 | The builder loop computes the cleaned name |
| `Names.SafeNamePython` | internal/sandbox/files.py:119-127 | The hook's loop computes its cleaned name |
| `Names.AgreeExactly` | internal/attachments/types.go:76-93 | Both cleaners agree if and only if the name does not end in a separator or cleans to the default anyway |
| `Names.Idempotent` | internal/sandbox/files.py:119-127 | Cleaning twice is cleaning once, and the result has no separator, control character, padding or more than 180 bytes |
| `Names.CleanExactly` | internal/attachments/types.go:76-93 | What cleaning makes of a component: its longest prefix of at most 180 bytes with every control character, separator and colon an underscore, less the blanks and dots at both ends, or "attachment" when nothing is left |
| `Names.LastComponent` | internal/sandbox/files.py:119-127 | The cleaned component is what follows the last separator; trailing separators are dropped by the connector only |
| `Names.SameCheck` | internal/attachments/output.go:22 | A recorded name passes one half's check exactly when it passes the other's |
| `Names.Disagree` | internal/attachments/types.go:76-93 | A safe name with a separator after it is kept by one half and lost by the other |
| `Thread.ReadThread` | internal/mattermost/client.go:272-334 | A result is sorted by time and identity, free of duplicates, all of one thread, holds the target and the root, and loses no post of the pages read. There is one exactly when the pages up to the first that the server calls the last or, saying nothing, leaves short of 200 are all of this thread, each before it brings a new reply and ends with another one than the page before, and target and root are listed or can be named |
| `Thread.OrderIsUnique` | internal/mattermost/client.go:215-222 | With distinct identities the sorted order is unique |
| `LinkedWindow.LinkedSelection` | internal/conversation/context.go:580-611 | Ends; exactly min(limit, length) posts in thread order, the target, the root when the limit allows two, and no other post nearer the target left out |
| `LinkedWindow.NeverEnds` | internal/conversation/context.go:601-604 | Outside that condition no number of rounds reaches the bound |
| `LinkedWindow.ReadLinked` | internal/conversation/context.go:524-529 | A thread that was read always has a selection with the linked post and its root |
| `Context.InitialContext` | internal/conversation/context.go:172-208 | Posts in order, every required one, at most the budget beyond the required posts' cost, none left out that would still fit: the selection made by offering required posts and the root, then neighbours of required posts, then the latest |
| `Context.PreferredFirst` | internal/conversation/context.go:172-208 | In that order a post is selected if and only if it is required or fits beside what was offered before it and selected |
| `Context.OrderExactly` | internal/conversation/context.go:172-208 | That order: required posts and the root in thread order, then the three posts before and after each required one, then all from the latest back |
| `Selection.BuildMessages` | internal/conversation/context.go:234-578 | Ends; is silent exactly when no post asks or the window of the first one is open, a post asking when it triggers, is not deleted, not the bot's, not a system post, not before the start and not known; otherwise returns an input for the first of the asking posts in thread order within the window, trying the batches and budgets from the largest down and taking the first that fits; where the servers answer honestly it never fails |
| `Selection.Attempt` | internal/conversation/context.go:338-555 | Optional context first (a notice when thread posts are left out, then what the links bring), then thread posts in order, then saved text; no post or file twice, every file the server lists for a thread post; nothing pending or frozen; the envelope's context and versions record exactly the posts shown |
| `Selection.PrefixOfWindow` | internal/conversation/context.go:300-361 | The batch takes the first triggers of the window, shows each with its text, and no later trigger among its thread posts |
| `Selection.WindowAsks` | internal/conversation/context.go:255-305 | The triggers of a batch are the first posts that ask, within the window of the first |
| `Selection.TryOffers` | internal/conversation/context.go:338-362 | What an attempt chooses from: exactly the posts that may be shown, up to the next trigger or the end of the window; a transfer has no such limit |
| `Selection.OfferedExactly` | internal/conversation/context.go:338-362 | Which posts may be shown, on their fields and on what the agent has read |
| `Selection.FrozenExactly` | internal/conversation/context.go:275-286 | The envelope of a transfer keeps exactly the posts whose saved version was not delivered otherwise |
| `Selection.TransferKept` | internal/conversation/context.go:368-391 | A transfer ends with exactly its saved text, keeps its triggers and files, and shows no waiting trigger |
| `Selection.Draft.Write` | internal/conversation/context.go:396-475 | A post is written once with its version and its new files, never when pending |
| `Selection.Draft.ListFiles` | internal/conversation/context.go:414-449 | The new files of a post in order, each listed once over the whole input, those beyond the per-post limit marked as such |
| `Selection.ExcessLimits` | internal/conversation/context.go:425-440 | No more of a post's files are left to fetch than allowed |
| `Selection.ExcessExactly` | internal/conversation/context.go:425-440 | Exactly the files beyond the per-post limit are marked |
| `Selection.WriteLinks` | internal/conversation/context.go:485-547 | Follows the different links of the chosen posts in order, up to their limit; what each brings is stated on the posts and the items before it (`LinkStep`): a notice when it cannot be read or does not fit, a post of this thread itself unless told, otherwise the undeleted posts of the window around it as far as they fit; nothing twice and nothing pending |
| `Selection.LinkedFits` | internal/conversation/context.go:528-547 | The linked post itself is always told, and its neighbours keep to what the budget leaves beside it |
| `Routing.Validate` | internal/config/config.go:250-255 | Decides exactly pairwise compatibility of workflows on one connection |
| `Routing.Route` | internal/config/config.go:369-392 | Nobody, the one workflow that takes the channel, or ambiguous exactly when several do; a workflow takes a channel whose kind it admits and which, unless direct, it names or nobody names, and does not exclude |
| `Routing.Groups` | internal/config/config.go:403-415 | The workflows of each connection in configuration order |
| `Routing.UnambiguousExactly` | internal/config/config.go:352-366 | The routing checks accept exactly the configurations in which no channel of any connection has two owners |
| `Routing.UngroupedIsAmbiguous` | internal/config/config.go:369-392 | Without grouping a valid configuration can be ambiguous |

## Left out

- HTTP, WebSocket and event-stream plumbing, watchers, metrics, health endpoints, logging, diagnostics and typing notices: input and output without a rule across functions.
- Markdown parsing of mentions and parsing of permalinks: third-party code; the trigger predicate and the links of a post are parameters of `Selection`.
- SHA-256, UUIDs and JSON: injective constructors; encoded lengths enter only as the predicate `fits`, the 64 KiB line bound and, for output manifests, a length given for each string.
- Loading of front matter, defaults and the effective revision in validate; only its routing checks are modelled.
- Symlink rejection, file descriptors and the locks themselves; the installation scripts of internal/sandbox/script.go.
- Real time and jitter: a clock value is a parameter of each step and a delay is any number within its bounds.
- Channel-wide replay (Client.Posts), leaving unrouted private channels, and which posts raise a hint: they only feed `Scheduler.Runtime.Hint`, which takes any thread.
- The history reader of internal/orpheus/client.go and its errors: a snapshot is given complete; `AdmissionBatches.RecordedRun` states the layout it relies on.
- Failures of user and channel lookups while building an input: they end the attempt and submit nothing.
- Selection.Attempt: does not model the rendered front matter of an item, only which post, notice or saved text it shows.
- Rejection.Reject: does not model card attachments in a post's content digest, which behave like its text.
- Export.Store.SealOutbox: does not model the directory walk and file times; a file read twice must give the same bytes, as the code demands besides.
- ImportStream.ImportInput: does not model the timeout that ends an abandoned import; it acts like a truncated stream.
- Publishing.Publisher.Publish: does not model the server's short-lived deduplication of pending post identities, which only makes duplicates rarer.
- IndexCoverage.NothingIsLost: covers runs whose preparation completed; a failed preparation leaves no confirmed index, as the documentation says.
