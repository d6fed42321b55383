# A verified model of swarph-cli's stateful cores

swarph-cli moves direct messages between agents, runs the work they ask for, and keeps the
accounts around it. This project models the parts of it where a crash, a retry, an overtaken
worker or an odd input could lose work, do it twice or count it wrong, and proves what those
parts promise over every input, every run and every interleaving.

## What is modelled

**The peer-service hand-off.** A DM is owed work until a receipt proves it was done.

- `SpoolSpec` is the spool as a transition system over its five directories (pending, running,
  claims, outputs, receipts). Every operation is a plan: refuse, or a list of atomic writes. A
  process may die after any of them; `survive` says how many got through. `SpoolSafety` proves the
  invariant for every single write, `SpoolRuns` the theorems over runs of any number of workers,
  `SpoolLeases` what a lease promises over runs, and `SpoolAnswers` when each call succeeds.
- `PeerSpool` is the spool object itself, updating its files step by step, each method equal to its
  plan.
- `QueueSpec`, `DeliveryQueue`, `QueueSafety` and `QueueAnswers` do the same for the delivery queue,
  `HandOff` and `HandOffSafety` for staging and reconciling over both stores, `StagingSafety` for
  retries.
- `ReenqueuedDm` has uninterrupted hand-offs from start to end, and what the leftovers of one do to
  a DM that is enqueued again.
- `PeerServiceHost` is one bounded run of a job.
- `ReplyProtocol` is the reply drain as a machine whose actions (lock, check, read the receipt,
  send, write evidence, unlink, die) interleave freely between drainers, while any process edits
  the outbox directory. `ReplyOutbox` has the two outbox objects, and shows an uninterrupted drain
  to be one run of that machine. `ReplyExact` says what may be staged and how often a job is
  answered. `ReplyAddress` joins queue, spool and outbox in one machine and says whom a reply
  reaches.

**The `gh` scanner.** `GhMask` and `GhScan` have the quote mask and the token walkers as loops
proved against recursive functions. `GhMaskStack` gives the mask an independent meaning on every
command, comments and nested substitutions included: a one-pass reading with a stack. `GhScanWords`
says what the walkers find in terms of the command's words, `GhScanFinds` that words are read back
however they are quoted, so that `gh` is found in the argument of every shell form. `GhScanDepth` has
the commands on which the scanner's depth cap changes its answer.

**Scoring distances.** `TextDistance` and `RankingDistance`, over exact reals.

**The channel.** `ChannelSpec`, `Channel` and `ChannelSafety`: cursor, hold and backlog of the
inbox poller, with an account of every wanted row. `ChannelRuns` has runs with restarts and deaths at
any point of a poll, `ChannelStart` the first start, `ChannelExact` the stall clock, the foreign-row
alarm and the cursor file.

**The benchmark runner.** `RunSpec`, `RunPack`, `RunSafety` and `RunFates`: dispatch, retries, spend
caps, stops and ledger resume, and the fate of every row told from the replies.

**Orphan daemons.** `OrphanDaemons` (and `Sorting`): the process tree walks and the reaper, over a
process table that changes at every look.

**Usage, URIs and two hysteresis machines.** `BoardUsage`, `ArtifactUri`, `QuotaAlerts`,
`RowClear`, each with an `Exact` module that states its answers in raw fields and numbers.

`Common` and `PeerRecords` hold shared values: optional values, outcomes, the records and their
validators. `ProvenanceText` shows that the text an envelope's provenance is stored as reads back.

## What the model takes as given

- A store is a set of maps with atomic replacement; a lock makes an operation one step that may be
  cut short between its atomic writes. Paths, JSON text, `fsync` and file locking are not modelled;
  the provenance text of an envelope is (`ProvenanceText`).
- The queue file takes no lock: one process at a time owns the queue object, and its memory agrees
  with the file when a call starts. Spool workers and drainers are as many as one likes.
- A digest is a free constructor over what it digests, so equal digests mean equal contents.
- Time, process tables, pane and log readings, backend replies, the payload provider, the action
  handler and the reply transport are arbitrary inputs. The regular expressions of the scanner are
  arbitrary predicates that only promise to report positions inside the masked text.
- Numbers that the program keeps as floats are exact reals, before any rounding for display.

## What the proofs found

Where the code and its own description part, the model follows the code.

- `stage` persists the queue claim before the spool judges the envelope. A claim that does not fit
  the spool leaves the DM holding a capacity slot with nothing staged. It fits exactly when the peer
  is a usable file name, the provenance text has at most 256 characters, and the spool has no other
  envelope under the DM's job id (`StageSucceedsExactlyWhen`, `SlashPeerStrandsItsClaim`). The last
  clause fails for a DM that was handed off, enqueued again and staged for another peer
  (`ReenqueuedDmStrandsItsClaim`).
- The queue's own fence is 1 for every claim, so a receipt of an earlier hand-off closes a DM that
  was enqueued again and claimed by the same peer for the same sender, with no work done
  (`SecondReconcile` gives the exact condition, `ReenqueuedDmIsClosedUnserved` a run).
- The reply outbox is described as deriving its target only from provenance the queue recorded. The
  spool checks a receipt's provenance against the DM's id only, so the worker that produces the
  receipt chooses the addressee (`ProducerChoosesAddressee`, `ForgedSenderIsAnswered`). A reply
  reaches the envelope's sender exactly when the receipt names that sender
  (`ReplyReachesSenderExactlyWhen`), and over runs whose receipts carry their envelope's own
  provenance, as a service run's do, every reply goes to the sender of the staged queue entry
  (`RepliesGoToTheSender`).
- `last_pushed_id` can go back: a held row is framed before the urgent row that flushes it. A poll
  keeps the account exactly when no row it reads a second time is above the cursor and out of the
  hold; an inode change and rows arriving between the size check and the read both break it
  (`PollConservesExactlyWhen`, `RotationRepeats`, `LateRowRepeats`).
- A restart is described as neither losing nor pushing twice what was held. A poll saves its cursor
  before its notes are written, so a death in between loses the rows it framed, held ones included.
  A run loses nothing exactly when each death in it came after all notes of its poll or in a poll
  that framed nothing (`NothingIsLostExactlyWhen`, `HeldRowIsLost`).
- `feature_to_uri` is described as always round-tripping. It does exactly when the record's texts
  keep clear of the separators (`FeatureRoundTripsExactlyWhen`, `FeatureDoesNotAlwaysRoundTrip`).
- The scanner's depth cap is not needed for termination: every nested text is shorter than the
  command it came from. It can change an answer only for a command that nests 32 texts deep
  (`CapOnlyAdds`), as `eval` written 32 times before a harmless command does
  (`EvalsAreTakenForGhExactlyWhen`).
- `reap_order` is described as children first, in reverse breadth-first order. It is descending by
  pid: children come first exactly when pids increase down the listed tree
  (`ChildrenFirstExactlyWhen`), which a pid wrap-around breaks (`WrappedParentGoesFirst`). The daemon
  always comes last.
- A child is described as signalled only when its parents lead to the verified daemon. The daemon's
  identity is checked once, before its tree is walked: a child's parents lead to that very process
  exactly when its identity still held when they were looked at (`ChildOfDaemonExactlyWhen`,
  `StrangersChildIsSignalled`).
- The usage sums are described as never turning a missing figure into zero. They do where whole split
  cache stands beside a response without cache data, and nowhere else
  (`MissingIsUnknownExactlyWhen`, `MissingCacheReadAsZero`).
- `d_ranking` is described as 0 for the same order. With repeated items a list is at distance 0 from
  itself exactly when equal items stand side by side (`SameListIsZeroExactlyWhen`,
  `SameListIsNotZero`).
- The stall clock is stopped by the row pushed last or a held one. A carried row is framed before the
  lower-numbered row that flushes it, so the clock also runs when every row was pushed (`StallTells`,
  `PushedRowTripsClock`).
- `/clear` is typed before the latch is written, and typing may report failure after the pane took
  it. Two delivered clears are separated exactly while the first was reported and its latch written
  (`ClearsAreSeparatedExactlyWhenKept`, `TimedOutClearIsTypedTwice`).
- A quota pass saves its state at the end. An alert it sent is not sent again before a re-arming
  reading exactly when the pass was saved (`AlertsAreSeparatedExactlyWhenSaved`,
  `DiedPassAlertsTwice`).
- A ledger is keyed by task id: with repeated ids the last completed row is carried for all of them
  (`RowIsCarriedExactlyWhen`, `RepeatedIdTakesTheLastRow`).

## Model

| member | source | states |
|---|---|---|
| SpoolSafety.WriteSafe | src/swarph_cli/peer_executor.py:31-36 | every single atomic write a spool operation may make keeps the store's invariant and moves it only forward, so a crash may fall after any write |
| SpoolSafety.StepSafe | src/swarph_cli/peer_executor.py:247-575 | every operation, cut short after any number of its writes, keeps the invariant, only moves its own job forward and touches no other job's files |
| SpoolRuns.RunSafe | src/swarph_cli/peer_executor.py:247-575 | the invariant and forward movement over any run of enqueue, claim, reclaim, write_output, produce_receipt and accept_receipt with crashes |
| SpoolRuns.LifeCycle | src/swarph_cli/peer_executor.py:262-349 | in every reachable state a job is not both pending and running and never goes back to pending, a claim belongs to a running job of the same peer, and each stored output is under a token between 1 and the claim's, digested correctly and never changed |
| SpoolRuns.ReceiptIsForever | src/swarph_cli/peer_executor.py:505-575 | once a receipt exists, it, its running envelope, its claim and its output never change again and `accepted_receipt` returns it in every later state |
| SpoolRuns.AtMostOneReceipt | src/swarph_cli/peer_executor.py:349-475 | over any run the number of times a job's receipt file is written is 1 if the final state holds one and 0 otherwise |
| SpoolRuns.TokensAreConsecutive | src/swarph_cli/peer_executor.py:262-311 | the claims ever written for a job carry the tokens 1, 2, 3, ... without repeat or gap, whatever crashes happen |
| SpoolRuns.StaleWorkerIsFenced | src/swarph_cli/peer_executor.py:312-437 | a worker whose token was overtaken is refused in every later state with no file changed, and its token never becomes current again |
| SpoolRuns.OrphanedRenameRecovers | src/swarph_cli/peer_executor.py:281-311 | a claim that died between the rename and the claim file is recovered by `reclaim` at token 1, in exactly the state of an uninterrupted claim |
| SpoolRuns.ProduceConverges | src/swarph_cli/peer_executor.py:349-437 | a receipt producer that died after any of its writes can be run again with the same arguments: same receipt, same files as an uninterrupted run, and a further repeat changes nothing |
| SpoolRuns.JobIsNeverWedged | src/swarph_cli/peer_executor.py:281-437 | in every reachable state a running job without receipt whose lease is over can be taken over by its peer and then receipted with any text, whatever stale outputs exist |
| SpoolLeases.ClaimsAreSpaced | src/swarph_cli/peer_executor.py:281-309 | in every run, crashes included, two claims written for a job are issued at least 300 seconds apart for each step between them |
| SpoolLeases.EveryClaimIsTimed | src/swarph_cli/peer_executor.py:281-309 | those issue times are one for each claim in the journal |
| SpoolLeases.TakeoverSucceedsExactlyWhen | src/swarph_cli/peer_executor.py:281-309 | a takeover of a running job without receipt succeeds exactly for its own peer 300 seconds after its claim was issued or later; it raises the token by one, and a refused one changes no file |
| SpoolLeases.LeaseProtectsHolder | src/swarph_cli/peer_executor.py:281-309 | until then, whatever else runs or crashes, the holder still owns the job and its receipt succeeds, unless its claim already has an output or the job a receipt |
| SpoolAnswers.JobIsValidExactlyWhen | src/swarph_cli/peer_executor.py:54-80 | an envelope is usable exactly with schema version 1, two file names and a one-line reference text of 1 to 256 characters; canonical provenance is always one line |
| SpoolAnswers.EnqueueSucceedsExactlyWhen | src/swarph_cli/peer_executor.py:247-260 | in every reachable spool an envelope goes in exactly when it is usable and no other has its id; the same one again changes nothing |
| SpoolAnswers.TakeSucceedsExactlyWhen | src/swarph_cli/peer_executor.py:262-279 | a pending job is taken exactly by its own peer, and then runs under token 1 with a lease of 300 seconds |
| SpoolAnswers.OutputSucceedsExactlyWhen | src/swarph_cli/peer_executor.py:312-347 | an output is written exactly by the current owner under a token that has none, with the digest of its text |
| SpoolAnswers.AcceptSucceedsExactlyWhen | src/swarph_cli/peer_executor.py:439-474 | a receipt made elsewhere is stored exactly when the job has none, it tells the claim and the envelope, and the output it digests is durable |
| SpoolAnswers.ProduceSucceedsExactlyWhen | src/swarph_cli/peer_executor.py:349-437 | the owner's receipt succeeds exactly when it tells the claim and the envelope and agrees with the output and receipt already there |
| SpoolAnswers.ResultIsReceiptAndOutput | src/swarph_cli/peer_executor.py:521-550 | a job has a publishable result exactly when it has a receipt, and then it is that receipt with the output it digests |
| SpoolAnswers.ReceiptIsShown | src/swarph_cli/peer_executor.py:505-519 | in every reachable spool, asking for a job's receipt is refused exactly for an unusable name and otherwise tells what is stored |
| ProvenanceText.StoredRefReadsBack | src/swarph_cli/peer_staging.py:32 | the provenance text of an envelope reads back as the same provenance, for every peer name, control characters and surrogate pairs included |
| ProvenanceText.WidthIs | src/swarph_cli/peer_staging.py:32 | which characters of a peer name are stored as they are, and how many of the 256 places every other one takes |
| PeerSpool.PeerSpool.Enqueue | src/swarph_cli/peer_executor.py:247-260 | files and outcome are those of the enqueue plan, crash point by crash point |
| PeerSpool.PeerSpool.Take | src/swarph_cli/peer_executor.py:262-280 | files and outcome are those of the claim plan: rename first, then the claim file under token 1 |
| PeerSpool.PeerSpool.Reclaim | src/swarph_cli/peer_executor.py:281-311 | files and outcome are those of the takeover plan: next token after the lease, token 1 for an orphaned rename |
| PeerSpool.PeerSpool.WriteOutput | src/swarph_cli/peer_executor.py:312-348 | files and outcome are those of the output plan: one output under the current token; a second write under it is refused, equal text included, and so is any other token |
| PeerSpool.PeerSpool.ProduceReceipt | src/swarph_cli/peer_executor.py:349-437 | files and outcome are those of the two-write plan: durable output first, then the receipt |
| PeerSpool.PeerSpool.AcceptReceipt | src/swarph_cli/peer_executor.py:439-475 | files and outcome are those of the accepting plan: a receipt is stored only if it matches envelope, claim and output |
| PeerSpool.PeerSpool.ClaimedJob | src/swarph_cli/peer_executor.py:476-497 | succeeds exactly for usable names, a positive token, a claim owned under it and a valid envelope, and then returns that envelope |
| DeliveryQueue.DeliveryQueue.Enqueue | src/swarph_cli/delivery_queue.py:95-119 | memory and stored queue after adding a DM, crash before the store included: a known id is added once |
| DeliveryQueue.DeliveryQueue.RecordEligibility | src/swarph_cli/delivery_queue.py:126-137 | memory and stored queue after a verdict, obligation included, and the refusals |
| DeliveryQueue.DeliveryQueue.RecordExpired | src/swarph_cli/delivery_queue.py:138-148 | memory and stored queue after an expiry, and the refusals |
| DeliveryQueue.DeliveryQueue.ClaimForService | src/swarph_cli/delivery_queue.py:149-202 | memory and stored queue after a claim: repeat of the own claim, refusal, capacity refusal, or a job record under fence 1 |
| DeliveryQueue.DeliveryQueue.RemoveOnReceipt | src/swarph_cli/delivery_queue.py:203-245 | memory and stored queue after a direct receipt closes its entry, and the refusals |
| DeliveryQueue.DeliveryQueue.ReconcileSpoolReceipt | src/swarph_cli/delivery_queue.py:246-312 | memory and stored queue after a spool receipt: the matching claimed entry is closed and the receipt recorded, a recorded one repeats as False, others are refused |
| DeliveryQueue.DeliveryQueue.Status | src/swarph_cli/delivery_queue.py:314-336 | the three breakdowns count exactly the pending entries of each kind and each sums to the number owed; the oldest age is the greatest age of a pending entry, and zero when none is positive |
| DeliveryQueue.BreakdownsSum | src/swarph_cli/delivery_queue.py:314-336 | eligibility, service and obligation counts each partition any list of entries |
| QueueSafety.QueueRunSafe | src/swarph_cli/delivery_queue.py:79-312 | the queue invariant and forward movement (receipts only appended, an entry leaves only by a receipt naming it) over any run with crashes |
| QueueSafety.NoDmIsLost | src/swarph_cli/delivery_queue.py:95-119 | a DM whose enqueue completed is, after any later run, pending or named by a receipt recorded since |
| QueueSafety.QueueStatesAgree | src/swarph_cli/delivery_queue.py:126-201 | in every reachable queue ids are unique, an entry is claimed exactly when it carries a job and that job names the entry under fence 1, `owed` implies eligible, and `capacity_refused` implies eligible with the same service state |
| QueueSafety.CapacityIsNeverExceeded | src/swarph_cli/delivery_queue.py:149-201 | with one capacity bound in force no run ever holds more claimed entries than it |
| QueueAnswers.EnqueueAnswers | src/swarph_cli/delivery_queue.py:95-118 | in every reachable queue a new DM goes to the end, owed, unassigned and awaiting policy; a known one changes nothing |
| QueueAnswers.EligibilityAnswers | src/swarph_cli/delivery_queue.py:126-136 | a verdict is taken exactly for a known DM, one of the three states and a reason, and sets what is owed |
| QueueAnswers.ExpiryAnswers | src/swarph_cli/delivery_queue.py:138-147 | a DM expires exactly when it is known and not claimed and a reason is given |
| QueueAnswers.ClaimAnswers | src/swarph_cli/delivery_queue.py:149-201 | a servable DM is claimed below the bound, marked refused at it, repeated to its own peer and refused to another; every other claim is refused with nothing changed |
| QueueAnswers.DirectAnswers | src/swarph_cli/delivery_queue.py:203-244 | a direct receipt closes exactly the claimed DM whose claim it repeats |
| QueueAnswers.ReconcileAnswers | src/swarph_cli/delivery_queue.py:246-312 | a spool receipt closes exactly the claimed DM whose claim its provenance names, and is answered False exactly when it was recorded and the DM is gone |
| HandOff.PeerSpoolStager.Stage | src/swarph_cli/peer_staging.py:17-35 | both stores and the outcome after claim-then-enqueue, for every crash point |
| HandOff.PeerReceiptReconciler.Reconcile | src/swarph_cli/peer_reconciliation.py:15-19 | both stores and the outcome after reading the accepted receipt and closing the queue entry |
| HandOffSafety.SysRunSafe | src/swarph_cli/peer_staging.py:17-35 | over any interleaving of queue calls, stagings, spool operations and reconciliations, every recorded hand-off stays backed by the identical receipt in the spool |
| HandOffSafety.RemovalIsDischarged | src/swarph_cli/peer_reconciliation.py:15-19 | a DM leaves the queue by reconciliation only against a validated receipt for that DM with the claim's job id, peer and fence, the envelope's digest and a durable output of the receipted digest |
| HandOffSafety.HandOffIsAccounted | src/swarph_cli/delivery_queue.py:203-312 | in every run each accepted DM stays pending or is named by a receipt recorded since, and each recorded spool receipt stays recorded and validates in the spool for ever |
| HandOffSafety.SecondReconcile | src/swarph_cli/delivery_queue.py:286-312 | repeating a successful reconcile after any activity returns False and changes nothing exactly while the DM is not pending again; otherwise the old receipt closes it exactly when same peer and sender claimed it |
| StagingSafety.StageConverges | src/swarph_cli/peer_staging.py:17-35 | re-running `stage` after a crash at any write yields the identical envelope and the state of an uninterrupted run; a repeat changes nothing |
| StagingSafety.CrashedStageOwes | src/swarph_cli/peer_staging.py:17-35 | a stager that died right after the queue claim leaves the DM claimed under the stored job, with room in the spool for its envelope |
| StagingSafety.StageRetryYieldsSameEnvelope | src/swarph_cli/peer_staging.py:17-35 | however much later and whatever else ran, a retry yields the first attempt's envelope and leaves the queue as it is, while the DM is eligible and not receipted |
| StagingSafety.StageSucceedsExactlyWhen | src/swarph_cli/peer_staging.py:17-35 | staging a DM whose claim the queue grants, anew or again, succeeds exactly when the peer is a usable file name, the provenance text has at most 256 characters and the spool has no other envelope under the job id; otherwise it is refused with the claim persisted and the spool unchanged |
| StagingSafety.SlashPeerStrandsItsClaim | src/swarph_cli/peer_staging.py:17-35 | a concrete peer name with a slash that is claimed and not staged |
| ReenqueuedDm.HandOffCompletes | src/swarph_cli/peer_reconciliation.py:15-19 | an uninterrupted stage, claim, receipt and reconcile of a granted, fitting DM ends with it off the queue, its receipt recorded there and kept in the spool, and its capacity slot free |
| ReenqueuedDm.SecondStageSucceedsExactlyWhen | src/swarph_cli/peer_staging.py:17-35 | a DM handed off once and granted again is staged exactly when peer and sender are those of the first hand-off; otherwise it is refused with the new claim persisted |
| ReenqueuedDm.OldReceiptClosesNewClaim | src/swarph_cli/peer_reconciliation.py:15-19 | where it is staged again, the receipt of the first hand-off closes the new claim at once |
| ReenqueuedDm.ReenqueuedDmStrandsItsClaim | src/swarph_cli/peer_staging.py:17-35 | a run from the empty stores after which a DM staged for another, usable peer is claimed and refused |
| ReenqueuedDm.ReenqueuedDmIsClosedUnserved | src/swarph_cli/delivery_queue.py:286-312 | a run from the empty stores after which a DM staged for the same peer is closed by the old receipt |
| PeerServiceHost.PeerServiceHost.ValidatePayload | src/swarph_cli/peer_service_host.py:106-125 | a payload is accepted exactly when it names the request's peer, DM, queue fence and sender and is within its size bound |
| PeerServiceHost.PeerServiceHost.Execute | src/swarph_cli/peer_service_host.py:79-104 | an uninterrupted run ends in a receipt exactly when the envelope is claimable, decodes, and payload and output are acceptable; the receipt binds envelope, provenance, payload and output; otherwise no receipt appears |
| PeerServiceHost.StagedRequestIs | src/swarph_cli/peer_service_host.py:79-95 | the payload request for a staged envelope names the queue's own claim: job, peer, DM, fence and sender |
| PeerServiceHost.OvertakenRunIsRefused | src/swarph_cli/peer_service_host.py:79-104 | a run overtaken while its handler works cannot complete: its receipt is refused and the spool is unchanged |
| ReplyProtocol.ActsSafe | src/swarph_cli/peer_service_reply.py:151-208 | the drain machine's invariant under every action of any number of drainers, spool workers and editors of the outbox |
| ReplyProtocol.SendsForAJobAgree | src/swarph_cli/peer_service_reply.py:163-201 | all sends for one job, in any interleaving and for any files found, carry the same destination, content and idempotency key |
| ReplyProtocol.SendsAreReceiptBound | src/swarph_cli/peer_service_reply.py:163-201 | every send is to the sender the validated receipt names, with the text of the receipted output |
| ReplyProtocol.EvidenceIsFinal | src/swarph_cli/peer_service_reply.py:163-208 | evidence implies an earlier send of its key, and no send of that key ever follows it |
| ReplyProtocol.AtMostOneReplyPerJob | src/swarph_cli/peer_service_reply.py:29-33 | a transport that deduplicates by idempotency key delivers at most one reply per job |
| ReplyOutbox.StagedReplyIsDeliverable | src/swarph_cli/peer_reply_outbox.py:32-59 | everything `stage` accepts, the drain delivers, to the peer the receipt names |
| ReplyOutbox.DeliverableEnvelopeIsUnique | src/swarph_cli/peer_service_reply.py:122-140 | a job has at most one deliverable envelope |
| ReplyOutbox.ScriptEffect | src/swarph_cli/peer_service_reply.py:163-201 | a lone uninterrupted drain of one file is one run of the machine, with the stated effect for every transport behaviour |
| ReplyOutbox.OutboxDirectory.Stage | src/swarph_cli/peer_reply_outbox.py:32-59 | writes the one envelope the accepted result permits, or refuses or crashes with the directory unchanged |
| ReplyOutbox.OutboxDirectory.DrainOne | src/swarph_cli/peer_service_reply.py:163-201 | directory, evidence and sends after one file are those of the machine's script |
| ReplyOutbox.OutboxDirectory.Drain | src/swarph_cli/peer_service_reply.py:151-162 | whatever becomes of each send, the world after a drain over a listing is that of the drains one after another, each file ends as its own evidence, receipt and send call for, and exactly the files retained are left |
| ReplyExact.StagedExactlyWhen | src/swarph_cli/peer_reply_outbox.py:32-59 | a reply is staged exactly for a receipted job with a sender and an output that is not blank, where no other file has its name; each refusal names what failed |
| ReplyExact.UnreceiptedIsNotStaged | src/swarph_cli/peer_reply_outbox.py:32-36 | a job without a receipt is never staged |
| ReplyExact.EvidenceNamesItsReply | src/swarph_cli/peer_service_reply.py:203-208 | every evidence file of a run names the reply of its key |
| ReplyExact.GoneFileIsLeft | src/swarph_cli/peer_service_reply.py:169-177 | a drainer that holds the lock and finds its file gone, or other evidence under its reply, leaves without sending, and its lock is free then |
| ReplyExact.ExactlyOneReplyWhenSent | src/swarph_cli/peer_service_reply.py:29-33 | over any run a deduplicating transport delivers exactly one reply for a job some drainer sent one for, and none for another |
| ReplyExact.RepliesAreCounted | src/swarph_cli/peer_service_reply.py:29-33 | replies for a job are counted by the sends for it |
| ReplyAddress.RepliesGoToTheSender | src/swarph_cli/peer_reply_outbox.py:1-6 | over any interleaving of queue, stager, spool workers, reconcilers and drainers in which envelopes come from the stager and receipts carry their envelope's own provenance, every reply goes to the `from` of the queue entry staged for its job, and all entries staged for it have that one |
| ReplyAddress.ProducerChoosesAddressee | src/swarph_cli/peer_executor.py:349-437 | the current owner of a claim may receipt under any sender, and the staged reply is then delivered there |
| ReplyAddress.ForgedSenderIsAnswered | src/swarph_cli/peer_executor.py:386-437 | a concrete envelope from `a` whose receipt says `e` and whose reply goes to `e` |
| ReplyAddress.ReplyReachesSenderExactlyWhen | src/swarph_cli/peer_reply_outbox.py:32-59 | a staged reply reaches the sender its envelope decodes to exactly when the receipt names that sender |
| GhMask.MaskIsAligned | src/swarph_cli/gh_identity.py:343-418 | on every input the mask has the command's length and each character is the command's own or a space |
| GhMask.MaskQuoted | src/swarph_cli/gh_identity.py:343-418 | the nested loops terminate and compute that mask |
| GhMask.SubstEndLoop | src/swarph_cli/gh_identity.py:310-340 | the loop with its depth counter finds the end the recursive reading gives, the end of the text when unclosed |
| GhMaskStack.MaskIsTheReading | src/swarph_cli/gh_identity.py:343-418 | on every command, comments masked or not, the scanner with its recursion on slices equals one left-to-right pass over the command with a stack of texts: a substitution inside double quotes is read as a text of its own, closed quotes hide the rest, an unclosed quote shows the rest of its text |
| GhMaskStack.SubstitutionReadsAlone | src/swarph_cli/gh_identity.py:385-412 | inside double quotes a closed substitution shows its delimiters around the mask its body has as a command of its own, whatever stands around it, and the quotes go on after it |
| GhScan.QuotedBodyLoop | src/swarph_cli/gh_identity.py:452-476 | the loop computes the quoted body and its end |
| GhScan.NextToken | src/swarph_cli/gh_identity.py:478-502 | a token starts at or after the position, ends strictly later and is no longer than its span; there is none exactly when only blanks remain |
| GhScan.CArgumentLoop | src/swarph_cli/gh_identity.py:509-533 | the option walk finds the recursive reading's command argument |
| GhScan.JoinedWordsLoop | src/swarph_cli/gh_identity.py:535-549 | the loop joins exactly the words up to the next separator |
| GhScan.WatchCommandLoop | src/swarph_cli/gh_identity.py:551-573 | the loop skips `watch` options and joins the words after them |
| GhScan.XargsShellLoop | src/swarph_cli/gh_identity.py:575-592 | the loop finds the shell argument of an `xargs` command |
| GhScan.WordsFit | src/swarph_cli/gh_identity.py:535-549 | words re-joined with spaces are never longer than the text they came from |
| GhScan.NestedTextsAreShorter | src/swarph_cli/gh_identity.py:594-613 | every text the scanner descends into is non-empty and strictly shorter than the command |
| GhScanWords.ShellCommandExactlyWhen | src/swarph_cli/gh_identity.py:509-533 | a shell's words give a command exactly when they are options that take none, each with its argument where it takes one, then `-c` or a short group with a `c`, then that command |
| GhScanWords.XargsShellExactlyWhen | src/swarph_cli/gh_identity.py:575-592 | `xargs` gives a command exactly when its words are options with their arguments, a shell's name, and words that give that shell the command |
| GhScanWords.EvalWordsAre | src/swarph_cli/gh_identity.py:535-549 | `eval` joins its words, leading `--` left out |
| GhScanWords.WatchWordsAre | src/swarph_cli/gh_identity.py:551-573 | `watch` joins the words after its options and their arguments |
| GhScanWords.WatchedIsUnique | src/swarph_cli/gh_identity.py:551-573 | there is only one way to tell those options from the words run |
| GhScanFinds.SpelledWordReadsBack | src/swarph_cli/gh_identity.py:452-502 | every word, spelled in single quotes, in double quotes with escapes, behind backslashes or plainly, is read back as one token |
| GhScanFinds.SeparatorsAre | src/swarph_cli/gh_identity.py:478-502 | a token is a separator exactly when it begins with one of the four |
| GhScanFinds.OpenQuoteRunsOn | src/swarph_cli/gh_identity.py:452-466 | a quote that is never closed is a word to the end of the command |
| GhScanFinds.FormYieldsArgument | src/swarph_cli/gh_identity.py:594-613 | each of the four shell forms yields its quoted argument |
| GhScanFinds.WrappedIsFound | src/swarph_cli/gh_identity.py:594-647 | what the scanner finds in a text it finds in that text quoted after any shell form |
| GhScanFinds.BashCommandIsFound | src/swarph_cli/gh_identity.py:631-647 | a text that runs `gh` is answered Yes inside `bash -c '...'` |
| GhScanFinds.QuotedGhIsFound | src/swarph_cli/gh_identity.py:616-628 | a quoted command word that is `gh` once unquoted is answered Yes |
| GhScanFinds.QuotedGhIsThere | src/swarph_cli/gh_identity.py:616-628 | and only a quoted word that is |
| GhScan.CapOnlyAdds | src/swarph_cli/gh_identity.py:631-647 | the capped walk answers yes exactly when the uncapped one does or the command nests 32 texts deep, which one shorter than 32 characters cannot |
| GhScan.ScannerCapOnlyAdds | src/swarph_cli/gh_identity.py:631-647 | the same of `targets_gh` itself, with the scanner's own search |
| GhScanDepth.EvalsAreTakenForGhExactlyWhen | src/swarph_cli/gh_identity.py:636-647 | of `n` `eval`s before a harmless command the scanner says that it runs `gh` exactly when `n` is 32 or more, and none of these commands does |
| GhScanDepth.ThirtyTwoEvalsAreTakenForGh | src/swarph_cli/gh_identity.py:640-641 | concrete expressions and a concrete command on which the cap changes the answer |
| TextDistance.JaccardIsMetric | src/swarph_cli/bench/quality.py:54-74 | on all token sets, empty ones included, the distance is in [0, 1], zero exactly for equal sets, symmetric and triangular |
| TextDistance.DTextIsMetric | src/swarph_cli/bench/quality.py:54-74 | `d_text` inherits all four laws through the texts' token sets |
| Common.SpaceIs | src/swarph_cli/bench/quality.py:69-70 | white space is the twenty-nine characters that `str.split()` separates words at |
| TextDistance.TokensAreRuns | src/swarph_cli/bench/quality.py:66-70 | the tokens of a text are its runs of characters between white space, lower-cased |
| TextDistance.DTextCounts | src/swarph_cli/bench/quality.py:66-74 | the distance is the share of the tokens that only one of the texts has, and 0 for two texts without tokens |
| RankingDistance.DRankingCounts | src/swarph_cli/bench/quality.py:39-51 | on two or more distinct items `d_ranking` is the number of pairs ordered differently over the number of pairs |
| RankingDistance.DRankingIsKendallTau | src/swarph_cli/bench/quality.py:39-51 | it is in [0, 1], 0 exactly for the same order, 1 exactly for the reverse, symmetric, and the distances to an order and to its reverse sum to 1 |
| RankingDistance.DRankingTriangle | src/swarph_cli/bench/quality.py:39-51 | the triangle inequality |
| RankingDistance.SameItemsIsMultisetEquality | src/swarph_cli/bench/quality.py:43-44 | on distinct lists the comparison of sorted lists holds exactly when both list the same items |
| RankingDistance.DRankingOfOtherItems | src/swarph_cli/bench/quality.py:39-51 | no list, or a list of other items, is at distance 1; fewer than two items agree |
| RankingDistance.SameListIsZeroExactlyWhen | src/swarph_cli/bench/quality.py:39-51 | a list, repeated items included, is at distance 0 from itself exactly when equal items stand side by side |
| RankingDistance.SameListIsNotZero | src/swarph_cli/bench/quality.py:39-51 | a list that is not |
| Channel.Channel.Poll | src/swarph_cli/channel.py:129-245 | cursor, foreign count, alarm flag, stall clock and notes after a poll, for every inbox, clock and quiet setting |
| Channel.Channel.constructor | src/swarph_cli/channel.py:113-122 | a new process starts from the saved cursor and nothing else |
| ChannelSafety.PollConservesExactlyWhen | src/swarph_cli/channel.py:172-234 | from any accounted state a poll leaves every wanted row framed once, held once, dropped once or lost once to an earlier death exactly when each row it reads again is below the cursor or still held with quiet wakes on |
| ChannelSafety.UrgentRowFlushesHold | src/swarph_cli/channel.py:213-231 | a poll that reads a wanted row that may not wait leaves nothing held |
| ChannelSafety.HoldIsCapped | src/swarph_cli/channel.py:213-220 | after a poll no row has been held for the cap or longer |
| ChannelSafety.OnlyDueRowsArePushed | src/swarph_cli/channel.py:193-227 | without such a row a poll frames only rows that were already held and waited out the cap |
| ChannelSafety.OnlyUrgentRowsAreDropped | src/swarph_cli/channel.py:221-227 | held rows are never left to a backlog note: the fresh rows that may not wait are, in inbox order, the rows the note counts followed by the newest twenty, which end the frames |
| ChannelSafety.CarriedOrKept | src/swarph_cli/channel.py:213-220 | of held rows the inbox still has, each is either carried or kept |
| ChannelSafety.RotationRepeats | src/swarph_cli/channel.py:172-174 | pending 5 and held 6 are framed as 6, 5, the cursor stands at 5, and after an inode change 6 is framed again |
| ChannelSafety.LateRowRepeats | src/swarph_cli/channel.py:148-149 | rows that arrive between the size check and the read break the account at the next poll, whatever its time and setting |
| ChannelRuns.RunConserves | src/swarph_cli/channel.py:129-245 | over any run of polls, restarts and deaths at any point of a poll on one growing inbox file, from the first start or any accounted cursor, every wanted row read is framed, held, counted as not pushed or lost, once |
| ChannelRuns.EachRowIsInOnePlace | src/swarph_cli/channel.py:129-245 | in such a run a wanted row that was read is in exactly one of these places and any other id in none |
| ChannelRuns.CutAccounts | src/swarph_cli/channel.py:335-336 | a poll whose notes are cut short answers for the same rows as a whole one, and loses some exactly when it framed rows and did not get all its notes out |
| ChannelRuns.NothingIsLostExactlyWhen | src/swarph_cli/channel.py:135-139 | any run loses nothing exactly when each death in it came with all notes of its poll written or in a poll that framed nothing |
| ChannelRuns.LostIsNeverFramed | src/swarph_cli/channel.py:135-139 | however a steady run goes on, a row that was lost is never framed |
| ChannelRuns.HeldRowIsLost | src/swarph_cli/channel.py:234-336 | a run in which a held row and the urgent row that carries it are lost |
| ChannelStart.FirstStartTakesExactlyWhen | src/swarph_cli/channel.py:154-171 | a first poll frames, notes or holds a real row for the cell exactly when its id comes after every row created more than 30 seconds before, or at no known time |
| ChannelStart.OldRowIsNotDelivered | src/swarph_cli/channel.py:154-171 | a row created more than 30 seconds before the first poll, or at no known time, is not delivered by it |
| ChannelStart.RecentUrgentRowIsDelivered | src/swarph_cli/channel.py:154-171 | a newer row above the older ones that may not wait is framed or counted as not pushed |
| ChannelExact.StallTells | src/swarph_cli/channel.py:235-243 | the stall clock is stopped exactly when the row pushed last or some held row is at or above every numbered row; otherwise it runs from this poll unless it ran before |
| ChannelExact.PushedRowTripsClock | src/swarph_cli/channel.py:235-243 | a state in which every row was pushed and the clock runs |
| ChannelExact.HoldKeyTells | src/swarph_cli/channel.py:228-234 | the cursor file gets a hold only with quiet wakes on, and the inode and size read |
| ChannelExact.FramesAre | src/swarph_cli/channel.py:193-234 | a poll frames the held rows that are due in the order they were held, then the newest urgent rows, at most twenty; the cursor stands at the last one framed |
| ChannelExact.ArmingTells | src/swarph_cli/channel.py:154-171 | the first poll announces where it starts, and no other poll does |
| ChannelExact.RestartKeepsCursor | src/swarph_cli/channel.py:113-122 | a restart keeps the cursor file and forgets the rest |
| ChannelExact.AlarmTells | src/swarph_cli/channel.py:207-211 | foreign rows are counted, and reported exactly when there are some and none were ever reported |
| ChannelExact.ForeignRowsAreReportedOnce | src/swarph_cli/channel.py:207-211 | over any run, restarts and deaths included, one poll at most reports them |
| RunPack.Run | src/swarph_cli/bench/runner.py:298-470 | fails exactly when some arm has no backend; otherwise the report is that of the run's transition function |
| RunPack.RunArm | src/swarph_cli/bench/runner.py:328-409 | the loop over tasks with its early continues computes the arm's fold over the tasks |
| RunPack.Dispatch | src/swarph_cli/bench/runner.py:350-356 | calls once and at most twice more while rate limited, and returns the last reply |
| RunSafety.RunIsGood | src/swarph_cli/bench/runner.py:298-409 | whatever the backends reply: calls go in arm and task order, at most three for one task, each made below both caps and recording the exact spend before it; no call follows a rate-limited row of its arm or an aborted row of any arm; `partial` is set exactly when a row was not run |
| RunSafety.OneRowPerTask | src/swarph_cli/bench/runner.py:328-409 | with distinct labels every arm reports one row per task in task order |
| RunSafety.CallsAreBounded | src/swarph_cli/bench/runner.py:331-376 | at most three calls per task and arm, none after the arm's rate-limited row, none on any arm after an aborted row |
| RunSafety.SpendOvershootsByOneCall | src/swarph_cli/bench/runner.py:340-388 | the report's spend is the sum over its calls and without the last call it is below `max_usd` |
| RunSafety.SpendIsRowCosts | src/swarph_cli/bench/runner.py:384-397 | the spend is the sum of the costs shown by the rows not carried from the ledger |
| RunSafety.RowsTellReplies | src/swarph_cli/bench/runner.py:350-397 | a fresh row that was run tells the reply to the last call made for its task (its score, text and cost, or its redacted error at distance 1), and the earlier calls for that task were rate limited |
| RunSafety.ExitCodeTells | src/swarph_cli/bench/runner.py:452-470 | the exit code is 1 exactly when some reported row was not run |
| RunSafety.ResumeKeepsCompletedRows | src/swarph_cli/bench/runner.py:321-333 | a run on an earlier run's ledger makes no call for a completed row and carries the last completed row of its task id, whatever replies and caps are now; with distinct ids that is the row itself |
| RunSafety.RowIsCarriedExactlyWhen | src/swarph_cli/bench/runner.py:321-333 | a completed row is carried unchanged exactly when the last completed row of its task id equals it |
| RunSafety.RepeatedIdTakesTheLastRow | src/swarph_cli/bench/runner.py:321-333 | two tasks of one id with different rows: the second run reports the second task's row for the first |
| RunFates.RowsHaveTheirFate | src/swarph_cli/bench/runner.py:328-381 | every row not carried: aborted exactly when a task at or before it ended with a `billing:` reply, else rate limited exactly when one of its arm ended so, else over the cap exactly when the spend before it reached one, else run; a row not run says why and counts nothing |
| RunFates.BillingEndsTheRun | src/swarph_cli/bench/runner.py:358-371 | after a reply whose redacted error starts with `billing:` no call is made on any arm, its row is aborted and the exit code is 1 |
| RunFates.LimitEndsTheArm | src/swarph_cli/bench/runner.py:372-376 | after a task that ends rate limited no call is made on its arm, its row is rate limited and the exit code is 1 |
| RunFates.RetriesAreExact | src/swarph_cli/bench/runner.py:350-355 | a task is asked again exactly while its reply is rate limited, and given up after the third |
| RunFates.AbortedExactlyWhenBilled | src/swarph_cli/bench/runner.py:358-371 | the report is marked aborted exactly when some task ended with a billing reply, and any mark is the reason of some row |
| OrphanDaemons.ProcessTree | src/swarph_cli/orphan_daemons.py:227-237 | terminates on any table, cycles included; returns proper descendants only, sorted, at most the limit, and all of them when below it |
| OrphanDaemons.AncestryPids | src/swarph_cli/orphan_daemons.py:240-252 | returns exactly the pid and its ancestors within forty steps |
| OrphanDaemons.IdentityIs | src/swarph_cli/orphan_daemons.py:485-504 | an identity is shown exactly with the same start time, command line and scope |
| OrphanDaemons.ChildIs | src/swarph_cli/orphan_daemons.py:227-237 | a child is a listed process whose own entry names the parent |
| OrphanDaemons.WaitGone | src/swarph_cli/orphan_daemons.py:516-533 | true exactly when the last poll no longer shows the identity, false only after every poll up to the deadline did |
| OrphanDaemons.SignalOne | src/swarph_cli/orphan_daemons.py:536-568 | a SIGTERM goes exactly to a process that showed its identity, a SIGKILL follows exactly when the SIGTERM found it and every poll of the wait still showed it, and each of the five actions is reported exactly for its looks |
| OrphanDaemons.ReapOrder | src/swarph_cli/orphan_daemons.py:507-509 | proper descendants in descending pid order, then the daemon, all of them below the limit; children first exactly when pids increase down the listed tree |
| OrphanDaemons.ChildrenFirstExactlyWhen | src/swarph_cli/orphan_daemons.py:507-509 | in such an order each listed child precedes its listed parent exactly when, below the daemon, every listed child has the greater pid and the daemon is no child |
| OrphanDaemons.WrappedParentGoesFirst | src/swarph_cli/orphan_daemons.py:507-509 | a table on which a parent precedes its child |
| OrphanDaemons.ReapOrphans | src/swarph_cli/orphan_daemons.py:571-626 | each pid is sent at most one SIGTERM and then at most one SIGKILL, at looks that go forward; each signal has a warrant (an orphan whose scan identity held, or a pid whose parents led to its pid afterwards) and follows a matching look; a SIGKILL follows exactly when one is due and the report tells what became of the process; a daemon comes after its tree; only pids of the orphans' trees are decided, each orphan and every pid of a verified orphan's listed tree exactly once, and one that was sent nothing was spared by a look that showed no signal due |
| OrphanDaemons.ReapPid | src/swarph_cli/orphan_daemons.py:608-625 | a pid is signalled exactly when it is due: the daemon's scan identity holds, or the pid's parents lead to the daemon's pid and two looks show one identity |
| OrphanDaemons.ChildOfDaemonExactlyWhen | src/swarph_cli/orphan_daemons.py:580-586 | the parents of a pid signalled as a child lead to the verified daemon itself exactly when its scan identity still held when they were looked at |
| OrphanDaemons.StrangersChildIsSignalled | src/swarph_cli/orphan_daemons.py:580-586 | a run in which the daemon's pid is recycled after the check and a child of the new process is signalled |
| BoardUsage.SumTranscript | src/swarph_cli/commands/board_usage.py:78-165 | the loop's report is the one the distinct responses of the window call for; each count is a number exactly when there is a response and every distinct one carries it, and then it is their sum; no column shown misses a response unless whole split cache stands beside a response without cache data |
| BoardUsage.MissingIsUnknownExactlyWhen | src/swarph_cli/commands/board_usage.py:1-6 | every column shown is carried by every response exactly when whole split cache does not stand beside a response without cache data |
| BoardUsage.MissingCacheReadAsZero | src/swarph_cli/commands/board_usage.py:133-162 | two responses, one without cache data, whose session shows both split cache figures |
| BoardUsage.ResponsesAreDistinct | src/swarph_cli/commands/board_usage.py:67-118 | the counted responses are lines of the window and no two share a key |
| BoardUsage.EveryResponseIsCounted | src/swarph_cli/commands/board_usage.py:67-118 | every usage line of the window is counted or shares its key with one that is |
| BoardUsage.RepeatedLineChangesNothing | src/swarph_cli/commands/board_usage.py:103-114 | appending a line with a counted key, or one outside the window, changes nothing |
| BoardUsage.NewResponseAddsOnce | src/swarph_cli/commands/board_usage.py:115-131 | appending a usage line with a new key keeps a count known exactly when the line carries it, and adds it once |
| BoardUsage.CacheColumnsAreExclusive | src/swarph_cli/commands/board_usage.py:151-162 | split and flat cache are never both shown; split is shown only over whole or absent cache data, flat exactly when every response is flat |
| BoardUsage.TokenTotal | src/swarph_cli/commands/board_cost.py:34-56 | the total of any stored row, negative integers included: three counts and one cache figure, or unknown |
| BoardUsage.TotalIsSumOfResponses | src/swarph_cli/commands/board_cost.py:34-56 | a transcript's total is the sum over its distinct responses of input, output, cache read and cache creation once, thinking never; it is known exactly when those are |
| BoardUsageExact.CountsAre | src/swarph_cli/commands/board_usage.py:36-50 | a count is the response's own field when that is a number from 0 on |
| BoardUsageExact.CacheIs | src/swarph_cli/commands/board_usage.py:52-64 | whole split cache has both figures, a flat total one and no split |
| BoardUsageExact.CacheSumsAre | src/swarph_cli/commands/board_usage.py:132-141 | each response adds its own whole split or flat figures to the cache sums |
| BoardUsageExact.SameResponseExactlyWhen | src/swarph_cli/commands/board_usage.py:67-75 | two records are one response exactly with the same message id and the same request id, an empty one being none |
| BoardUsageExact.WindowIs | src/swarph_cli/commands/board_usage.py:103-107 | a record counts exactly when it carries usage and its time lies in the window, ends included |
| BoardUsageExact.ModelIsShownExactlyWhen | src/swarph_cli/commands/board_usage.py:163-165 | a model is shown exactly when some response names it and none another |
| BoardUsageExact.TotalIs | src/swarph_cli/commands/board_cost.py:34-56 | a total is known exactly with three counts and either both split figures or only the flat one, and is their sum |
| ArtifactUri.FormatOfParse | src/swarph_cli/commands/add.py:90-161 | printing what was parsed gives the text back, for every accepted text |
| ArtifactUri.ParseOfFormatExactlyWhen | src/swarph_cli/commands/add.py:149-161 | parsing what was printed gives the reference back exactly when its fields keep clear of the separators |
| ArtifactUri.AcceptedExactlyWhenPrinted | src/swarph_cli/commands/add.py:90-161 | the accepted texts are exactly the printed forms of such references |
| ArtifactUri.ControlIn | src/swarph_cli/commands/add.py:81-87 | reports the first control character, and none exactly for clean text |
| ArtifactUri.FeatureRoundTripsExactlyWhen | src/swarph_cli/commands/add.py:184-239 | a record's URI parses back to the reference it means exactly when its texts keep clear of the separators |
| ArtifactUri.FeatureDoesNotAlwaysRoundTrip | src/swarph_cli/commands/add.py:184-239 | a record named `a@b` without version prints a URI that parses to another reference |
| ArtifactUriExact.ControlIs | src/swarph_cli/commands/add.py:81-87 | the control characters |
| ArtifactUriExact.PlainReferenceParsesExactlyWhen | src/swarph_cli/commands/add.py:90-147 | a reference without version and digest parses exactly when its class is one of the five and publisher and name are non-empty and clear of separators |
| ArtifactUriExact.RefusalsAre | src/swarph_cli/commands/add.py:102-116 | the first refusals: a control character, another scheme, not exactly two slashes |
| ArtifactUriExact.RecordMeansExactlyWhen | src/swarph_cli/commands/add.py:184-239 | the reference a record means: its name, the first publisher of three fields, the class it names or its type stands for, its version, and the first digest of two |
| QuotaAlerts.CheckAlerts | src/swarph_cli/quota_sync.py:258-288 | fires exactly the armed thresholds the reading crosses and leaves each arm as crossing, re-arming or silence says |
| QuotaAlerts.SyncOnce | src/swarph_cli/quota_sync.py:325-370 | one pass checks each listed peer that has a reading and is not cooling down exactly once with the merged reading and nobody else, keeps every saved arm equal to what the peer's whole history of checks calls for, and sends exactly the fired alerts |
| QuotaAlerts.RearmedBetweenAlerts | src/swarph_cli/quota_sync.py:258-288 | between two alerts of one threshold for a peer a reading re-armed it |
| QuotaAlerts.CrossingIsReported | src/swarph_cli/quota_sync.py:258-288 | a crossing that fires nothing follows an earlier crossing with no re-arming reading in between |
| QuotaAlerts.SavedArmsAgree | src/swarph_cli/quota_sync.py:271-281 | in the saved state after any passes a disarmed 95 implies a disarmed 80 |
| QuotaAlerts.PassesAlertOncePerCrossing | src/swarph_cli/quota_sync.py:325-370 | over any sequence of passes from nothing, died ones included, an alert sent by a saved pass is not sent again before a saved pass read the peer back below the threshold |
| QuotaAlerts.SentIsHistory | src/swarph_cli/quota_sync.py:353-370 | over any saved passes from nothing the alerts sent are, in order, exactly those that the checks of the saved history fired |
| QuotaAlerts.PassesTell | src/swarph_cli/quota_sync.py:325-370 | with passes that die before saving mixed in, the saved arms are still those the saved checks leave |
| QuotaAlerts.AlertsAreSeparatedExactlyWhenSaved | src/swarph_cli/quota_sync.py:325-370 | after a pass sent an alert, however the passes go on, the same alert has a re-arming reading before it, exactly when the sending pass was saved |
| QuotaAlerts.DiedPassAlertsAgain | src/swarph_cli/quota_sync.py:364-370 | a pass that died with an alert sent sends it again when it runs again, nothing having been read or saved in between |
| QuotaAlerts.DiedPassAlertsTwice | src/swarph_cli/quota_sync.py:364-370 | one peer at 85 percent: the pass dies after its alert, runs again, and the same alert is sent twice |
| QuotaExact.ThresholdsAre | src/swarph_cli/quota_sync.py:247-288 | 80, 95 and 100 are crossed at that percentage and above and re-armed below it, by a measured level or what a bound leaves; a block crosses the limit |
| QuotaExact.MergedReadingIs | src/swarph_cli/quota_sync.py:333-346 | a block counts wherever it is seen and the pane's own first; otherwise the log stands before the pane |
| QuotaExact.CheckedExactlyWhen | src/swarph_cli/quota_sync.py:325-362 | a pass checks a peer exactly when it is listed, something was read of it, and its last saved reading is at least 300 seconds old |
| QuotaExact.ChecksAreSpaced | src/swarph_cli/quota_sync.py:325-330 | while the clock runs two checks of a peer are at least 300 seconds apart if the first pass was saved |
| QuotaExact.DiedPassSendsTheFirst | src/swarph_cli/quota_sync.py:364-370 | a pass that dies has sent its first alerts and no others |
| RowClear.LiveRowCount | src/swarph_cli/rowclear.py:149-184 | counts the actionable rows, and is unknown exactly when the board or some row cannot be judged |
| RowClear.Monitor.MaybeRowclear | src/swarph_cli/rowclear.py:201-267 | decision, latch and typing of one poll, the keys going before the latch and the latch write possibly lost or torn; a clear is typed or shadowed only at a boundary with the latch not set for the mode |
| RowClear.BoundaryBetweenClears | src/swarph_cli/rowclear.py:201-267 | after a clear that was reported and latched nothing is typed before a poll saw a live row, a busy pane or an owed DM, or shadow mode acted |
| RowClear.ClearsAreSeparatedExactlyWhenKept | src/swarph_cli/rowclear.py:254-261 | after a delivered clear, however the run goes on, the next delivered one has such a poll before it, exactly when the first was reported and its latch written |
| RowClear.LostLatchClearsAgain | src/swarph_cli/rowclear.py:254-261 | a delivered clear that was not is delivered again by the next poll of the same sight |
| RowClear.TimedOutClearIsTypedTwice | src/swarph_cli/commands/mesh.py:4033-4048 | a concrete run in which the pane takes `/clear`, the call times out, and the next poll types it again |
| RowClear.DecisionsTell | src/swarph_cli/rowclear.py:215-267 | a clear is typed only in live mode with every row finished or waiting, an idle pane and no owed DM; unlatching decisions saw what they name |
| RowClear.QuietBoundaryIsClearedOnce | src/swarph_cli/rowclear.py:215-267 | after a clear that was reported and latched, no second one is typed while the boundary lasts in live mode |
| RowClearExact.RowStands | src/swarph_cli/rowclear.py:102-146 | an open row is ready exactly when it names no step or its step's needs are all met, waiting exactly when one is unmet and all before it are met |
| RowClearExact.CountIsLiveRows | src/swarph_cli/rowclear.py:149-184 | the count is the number of open rows that are ready |
| RowClearExact.DecidesExactly | src/swarph_cli/rowclear.py:201-267 | a poll types exactly at an idle boundary in live mode that the latch does not cover, shadows exactly at one in shadow mode, and clears the latch exactly for a ready row, a busy pane or an owed DM |
| RowClearExact.LatchTells | src/swarph_cli/rowclear.py:55-81 | the latch is set to a mode exactly when a poll set it so and no later poll rewrote it |
| RowClearExact.TypesExactlyWhen | src/swarph_cli/rowclear.py:201-267 | in a run a poll types exactly at an idle live boundary that no kept clear covers |

## Left out

- Files as such: paths, permissions, JSON text, corrupt or unreadable files, `fsync`, the lock files themselves and the Windows branches.
- Legacy records: six-field receipts, `_migrate_entry` and the older queue helpers `remove`, `bump_deferred` and `reset_deferred`.
- The `PeerService` wrapper and its authorizer: each method checks an authorization and forwards.
- Text that cannot be decoded, Unicode normalisation and case folding: texts are sequences of characters, lower-casing is a parameter.
- The gateway, HTTP, tmux, `/proc` parsing, launchd, git and argument parsing; banners and printed output.
- `already_explicit` and `inject` of the `gh` scanner and the regular expressions themselves: single expressions over uninterpreted patterns.
- StagingSafety.StageRetryYieldsSameEnvelope: assumes envelopes enter the spool only through the stager, because a foreign file under the DM's job id would rightly be refused.
- QueueSafety.CapacityIsNeverExceeded: assumes one `max_active` for the whole run, because a caller that lowers it leaves earlier claims standing.
- HandOffSafety.HandOffIsAccounted: `reconcile_spool_receipt` is reached only through `reconcile`, because called directly it takes its caller's word for the receipt.
- ReplyOutbox.OutboxDirectory.Drain: one drainer that lives; interleaved drainers and deaths are in ReplyProtocol.
- ChannelRuns.RunConserves: whole rows and strictly ascending ids; byte offsets into text that is not ASCII, partial lines and a row whose id is missing altogether are not modelled.
- Channel.Channel.Poll: the heartbeat file is not modelled; deaths inside a poll are in ChannelRuns.
- RunSafety.ResumeKeepsCompletedRows: rows pass through the ledger as values; redaction of the ledger text is not modelled.
- RunPack.Run: the board's means, weights, ranking, per-class view and the signal report are not modelled, nor is dying on an unwired arm told apart from never having called.
- RankingDistance.DRankingIsKendallTau: items are distinct and at least two; on fewer the distance is 0, and a repeated item has no single position.
- OrphanDaemons.ReapOrphans: one walk or snapshot reads one process table; a table that changes in the middle of a walk is not modelled. `classify_daemon`, `self_related` and the scan are single-branch logic over its results.
- QuotaAlerts.SyncOnce: pane and log parsing and the roster update are not modelled; an alert counts as sent when it is handed to the sender, whose failures the program ignores.
- RowClear.Monitor.MaybeRowclear: the board and graphs are read consistently within one poll; keys that reach the pane without being submitted and the session pin after a clear are not modelled.
- d_numeric and d_categorical: single expressions.
