/** Staging: crash-retry convergence, and exactly which claims the spool can accept. */
module StagingSafety {
  import opened Common
  import opened PeerRecords
  import opened SpoolSpec
  import opened SpoolSafety
  import opened QueueSpec
  import opened QueueSafety
  import opened HandOff
  import opened HandOffSafety

  /** A granted claim is granted again, unchanged, to the same peer. */
  lemma ClaimIsRepeatable(q: Queue, id: int, peer: string, max: int, job: QueueJob)
    requires QueueInv(q) && QueueOutcome(q, ClaimForService(id, peer, max), 1) == Done(ClaimedJob(job))
    ensures var r := QueueStep(q, ClaimForService(id, peer, max), 1);
      && QueuePlanOf(r, ClaimForService(id, peer, max)) == Keep(ClaimedJob(job))
      && IsPending(r, id) && EntryOf(r, id).job == Some(job)
    ensures job.jobId == JobIdOf(id) && job.sourceDmId == id && job.destinationPeer == peer && job.fencingToken == 1
    ensures Some(job.sourcePeer) == EntryOf(q, id).from
  {
    var op := ClaimForService(id, peer, max);
    var r := QueueStep(q, op, 1);
    var k := IndexOf(q.pending, id);
    QueueStepSafe(q, op, 1);
    assert EntryOk(q.pending[k]);
    assert r.pending[k].id == id && EntryOk(r.pending[k]);
    assert IndexOf(r.pending, id) == k;
  }

  /** Enqueueing an envelope the spool already took is a no-op that succeeds. */
  lemma EnqueueIsRepeatable(d: Disk, job: Job, survive: nat)
    requires Inv(d) && OutcomeOf(d, Enqueue(job), 1).Done?
    ensures survive >= 1 ==> Step(d, Enqueue(job), survive) == Step(d, Enqueue(job), 1)
    ensures var e := Step(d, Enqueue(job), survive);
      && (survive == 0 ==> e == d)
      && OutcomeOf(e, Enqueue(job), 1).Done? && Step(e, Enqueue(job), 1) == Step(d, Enqueue(job), 1)
  {
    StepShape(d, Enqueue(job), survive);
    StepShape(d, Enqueue(job), 1);
    var e := Step(d, Enqueue(job), survive);
    StepShape(e, Enqueue(job), 1);
    StepSafe(d, Enqueue(job), survive);
    assert JobOk(d, job.jobId) && JobOk(e, job.jobId);
  }

  /** A stager that dies after any of its writes may simply run again: the retry returns the
      identical envelope and reaches the state of an uninterrupted run, and repeating a
      finished run changes nothing. */
  lemma StageConverges(w: World, id: int, peer: string, max: int, envelope: Job, crash: nat)
    requires SysInv(w) && StageOutcome(w, id, peer, max, 2) == Done(Some(envelope))
    ensures var full := StageStep(w, id, peer, max, 2);
      var x := StageStep(w, id, peer, max, crash);
      && StageOutcome(x, id, peer, max, 2) == Done(Some(envelope))
      && StageStep(x, id, peer, max, 2) == full
      && StageStep(full, id, peer, max, 2) == full
  {
    var op := ClaimForService(id, peer, max);
    var job := QueueOutcome(w.queue, op, 2).value.job;
    assert QueueOutcome(w.queue, op, 1) == Done(ClaimedJob(job));
    ClaimIsRepeatable(w.queue, id, peer, max, job);
    assert envelope == StagedEnvelope(job);
    var stores := QueuePlanOf(w.queue, op).Store?;
    EnqueueTwice(w.spool, envelope);
    if stores && crash == 0 {
      assert StageStep(w, id, peer, max, crash) == w;
    } else {
      var left := if stores then crash - 1 else crash;
      var q := QueueStep(w.queue, op, 1);
      assert StageStep(w, id, peer, max, crash) == World(q, Step(w.spool, Enqueue(envelope), left));
      EnqueueIsRepeatable(w.spool, envelope, left);
      StageOfClaimed(World(q, Step(w.spool, Enqueue(envelope), left)), id, peer, max, job);
    }
    StageOfClaimed(StageStep(w, id, peer, max, 2), id, peer, max, job);
  }

  lemma EnqueueTwice(d: Disk, job: Job)
    requires Inv(d) && (OutcomeOf(d, Enqueue(job), 1).Done? || OutcomeOf(d, Enqueue(job), 2).Done?)
    ensures OutcomeOf(d, Enqueue(job), 1).Done?
    ensures Step(d, Enqueue(job), 2) == Step(d, Enqueue(job), 1)
    ensures Step(Step(d, Enqueue(job), 1), Enqueue(job), 2) == Step(d, Enqueue(job), 1)
    ensures OutcomeOf(Step(d, Enqueue(job), 1), Enqueue(job), 2).Done?
  {
    EnqueueIsRepeatable(d, job, 2);
    EnqueueIsRepeatable(d, job, 1);
    StepSafe(d, Enqueue(job), 1);
    EnqueueIsRepeatable(Step(d, Enqueue(job), 1), job, 2);
  }

  /** Staging a DM whose claim is already stored is exactly the spool enqueue. */
  lemma StageOfClaimed(x: World, id: int, peer: string, max: int, job: QueueJob)
    requires QueuePlanOf(x.queue, ClaimForService(id, peer, max)) == Keep(ClaimedJob(job))
    ensures StageStep(x, id, peer, max, 2) == x.(spool := Step(x.spool, Enqueue(StagedEnvelope(job)), 2))
    ensures OutcomeOf(x.spool, Enqueue(StagedEnvelope(job)), 2).Done? ==>
      StageOutcome(x, id, peer, max, 2) == Done(Some(StagedEnvelope(job)))
  {
  }

  // ---------------------------------------------------------------- retrying later

  /** No file of this job contradicts its staged envelope. */
  ghost predicate RoomFor(d: Disk, envelope: Job) {
    && (envelope.jobId in d.pending ==> d.pending[envelope.jobId] == envelope)
    && (envelope.jobId in d.running ==> d.running[envelope.jobId] == envelope)
  }

  /** Envelopes enter the spool only through the stager. */
  ghost predicate StagerOnly(evs: seq<SysEvent>) {
    forall k :: 0 <= k < |evs| ==>
      Permitted(evs[k].op) && (evs[k].op.SpoolCall? ==> !evs[k].op.spoolOp.Enqueue?)
  }

  ghost predicate Owes(w: World, id: int, claim: QueueJob) {
    && IsPending(w.queue, id) && EntryOf(w.queue, id).job == Some(claim)
    && RoomFor(w.spool, StagedEnvelope(claim))
  }

  lemma OtherWritesKeepRoom(d: Disk, op: Op, survive: nat, envelope: Job)
    requires Inv(d) && RoomFor(d, envelope)
    requires op.Enqueue? && op.job.jobId == envelope.jobId ==> op.job == envelope
    ensures RoomFor(Step(d, op, survive), envelope)
  {
    assert JobOk(d, envelope.jobId);
    PlanEnabled(d, op, survive);
    BatchKeepsRoom(d, WritesOf(d, op, survive), JobOf(op), envelope);
  }

  lemma {:induction false} BatchKeepsRoom(d: Disk, ws: seq<Write>, j: string, envelope: Job)
    requires Inv(d) && RoomFor(d, envelope) && AllEnabled(d, ws, j)
    requires forall k :: 0 <= k < |ws| && ws[k].PutPending? && ws[k].job.jobId == envelope.jobId ==> ws[k].job == envelope
    ensures RoomFor(ApplyAll(d, ws), envelope)
    decreases |ws|
  {
    if ws != [] {
      assert JobOk(d, envelope.jobId);
      WriteSafe(d, ws[0]);
      BatchKeepsRoom(Apply(d, ws[0]), ws[1..], j, envelope);
    }
  }

  /** Staging any DM writes only the envelope of that DM's stored claim. */
  lemma StageKeepsRoom(w: World, dm: int, peer: string, max: int, survive: nat, id: int, claim: QueueJob)
    requires SysInv(w) && Owes(w, id, claim)
    ensures RoomFor(StageStep(w, dm, peer, max, survive).spool, StagedEnvelope(claim))
  {
    var op := ClaimForService(dm, peer, max);
    var outcome := QueueOutcome(w.queue, op, survive);
    if outcome.Done? && outcome.value.ClaimedJob? {
      var job := outcome.value.job;
      assert EntryOk(EntryOf(w.queue, id)) && EntryOk(EntryOf(w.queue, dm));
      assert QueueOutcome(w.queue, op, 1) == Done(ClaimedJob(job));
      ClaimIsRepeatable(w.queue, dm, peer, max, job);
      if job.jobId == claim.jobId {
        JobIdInjective(dm, id);
      }
      var left := if QueuePlanOf(w.queue, op).Store? then survive - 1 else survive;
      OtherWritesKeepRoom(w.spool, Enqueue(StagedEnvelope(job)), left, StagedEnvelope(claim));
    }
  }

  /** A claimed DM keeps its claim, and room in the spool, until a receipt for it is recorded. */
  lemma StepKeepsOwing(w: World, e: SysEvent, id: int, claim: QueueJob)
    requires SysInv(w) && Owes(w, id, claim)
    requires Permitted(e.op) && (e.op.SpoolCall? ==> !e.op.spoolOp.Enqueue?)
    requires !IsNewlyRecorded(w.queue, SysStep(w, e.op, e.survive).queue, id)
    ensures Owes(SysStep(w, e.op, e.survive), id, claim)
  {
    SysStepSafe(w, e.op, e.survive);
    assert DmForward(w.queue, SysStep(w, e.op, e.survive).queue, id);
    match e.op {
      case SpoolCall(s) => OtherWritesKeepRoom(w.spool, s, e.survive, StagedEnvelope(claim));
      case Stage(dm, peer, max) => StageKeepsRoom(w, dm, peer, max, e.survive, id, claim);
      case _ =>
    }
  }

  lemma RecordPersists(q: Queue, r: Queue, s: Queue, id: int)
    requires r.receipts <= s.receipts
    ensures IsNewlyRecorded(q, r, id) ==> IsNewlyRecorded(q, s, id)
  {
    if IsNewlyRecorded(q, r, id) {
      var k :| |q.receipts| <= k < |r.receipts| && ReceiptDm(r.receipts[k]) == id;
      assert s.receipts[k] == r.receipts[k];
    }
  }

  lemma {:induction false} RunKeepsOwing(w: World, evs: seq<SysEvent>, id: int, claim: QueueJob)
    requires SysInv(w) && Owes(w, id, claim) && StagerOnly(evs)
    requires !IsNewlyRecorded(w.queue, SysRun(w, evs).queue, id)
    ensures SysInv(SysRun(w, evs)) && Owes(SysRun(w, evs), id, claim)
    decreases |evs|
  {
    if evs != [] {
      var x := SysStep(w, evs[0].op, evs[0].survive);
      var y := SysRun(w, evs);
      SysStepSafe(w, evs[0].op, evs[0].survive);
      assert StagerOnly(evs[1..]);
      SysRunSafe(x, evs[1..]);
      assert x.queue.receipts <= y.queue.receipts;
      RecordPersists(w.queue, x.queue, y.queue, id);
      StepKeepsOwing(w, evs[0], id, claim);
      RunKeepsOwing(x, evs[1..], id, claim);
    }
  }

  /** A stager that dies right after the queue claim leaves the DM owed in this sense. */
  lemma CrashedStageOwes(w: World, id: int, peer: string, max: int, claim: QueueJob)
    requires SysInv(w) && QueueOutcome(w.queue, ClaimForService(id, peer, max), 1) == Done(ClaimedJob(claim))
    requires QueuePlanOf(w.queue, ClaimForService(id, peer, max)).Store?
    requires RoomFor(w.spool, StagedEnvelope(claim))
    ensures StageOutcome(w, id, peer, max, 1) == Crashed || StageOutcome(w, id, peer, max, 1).Refused?
            || StageOutcome(w, id, peer, max, 1) == Done(Some(StagedEnvelope(claim)))
    ensures Owes(StageStep(w, id, peer, max, 1), id, claim) && claim.destinationPeer == peer
  {
    ClaimIsRepeatable(w.queue, id, peer, max, claim);
    StepShape(w.spool, Enqueue(StagedEnvelope(claim)), 0);
  }

  /** Retrying `stage` after a crash, however much later and whatever else ran meanwhile, still
      yields the first attempt's envelope while the DM is eligible and not yet receipted. */
  lemma StageRetryYieldsSameEnvelope(
    w: World, evs: seq<SysEvent>, id: int, claim: QueueJob, max: int)
    requires SysInv(w) && Owes(w, id, claim) && StagerOnly(evs) && max >= 1
    requires !IsNewlyRecorded(w.queue, SysRun(w, evs).queue, id)
    requires ValidJob(StagedEnvelope(claim))
    ensures var x := SysRun(w, evs);
      && IsPending(x.queue, id)
      && (EntryOf(x.queue, id).eligibility == Eligible && EntryOf(x.queue, id).obligation == Owed ==>
            && StageOutcome(x, id, claim.destinationPeer, max, 2) == Done(Some(StagedEnvelope(claim)))
            && StageStep(x, id, claim.destinationPeer, max, 2).queue == x.queue)
  {
    RunKeepsOwing(w, evs, id, claim);
    var x := SysRun(w, evs);
    if EntryOf(x.queue, id).eligibility == Eligible && EntryOf(x.queue, id).obligation == Owed {
      OwedIsStaged(x, id, claim, max);
    }
  }

  lemma OwedIsStaged(x: World, id: int, claim: QueueJob, max: int)
    requires SysInv(x) && Owes(x, id, claim) && max >= 1 && ValidJob(StagedEnvelope(claim))
    requires EntryOf(x.queue, id).eligibility == Eligible && EntryOf(x.queue, id).obligation == Owed
    ensures StageOutcome(x, id, claim.destinationPeer, max, 2) == Done(Some(StagedEnvelope(claim)))
    ensures StageStep(x, id, claim.destinationPeer, max, 2).queue == x.queue
  {
    assert EntryOk(EntryOf(x.queue, id));
    assert JobOk(x.spool, claim.jobId);
    StageOfClaimed(x, id, claim.destinationPeer, max, claim);
  }

  // ---------------------------------------------------------------- what can be staged

  /** The claim `stage` would make for this DM, were it granted. */
  function WouldClaim(q: Queue, id: int, peer: string): QueueJob
    requires IsPending(q, id) && EntryOf(q, id).from.Some?
  {
    NewJob(EntryOf(q, id), EntryOf(q, id).from.value, peer)
  }

  /** The queue grants the claim without looking at the spool. */
  ghost predicate Grantable(q: Queue, id: int, peer: string, max: int) {
    && max >= 1 && peer != ""
    && IsPending(q, id) && EntryOf(q, id).from.Some? && EntryOf(q, id).from.value != ""
    && EntryOf(q, id).eligibility == Eligible
    && EntryOf(q, id).obligation in {Owed, OwedCapacityRefused}
    && EntryOf(q, id).service != Claimed
    && ActiveClaims(q.pending) < max
  }

  lemma GrantableIsGranted(q: Queue, id: int, peer: string, max: int)
    requires QueueInv(q) && Grantable(q, id, peer, max)
    ensures QueueOutcome(q, ClaimForService(id, peer, max), 1) == Done(ClaimedJob(WouldClaim(q, id, peer)))
  {
    assert EntryOk(EntryOf(q, id));
  }

  /** What the spool asks of an envelope: a peer it can use as a file name, provenance text that
      fits the envelope's 256 characters, and no other envelope under the DM's job id. */
  ghost predicate Fits(d: Disk, claim: QueueJob) {
    FilenameSafe(claim.destinationPeer) && |SourceRefText(StagedRef(claim))| <= 256 && RoomFor(d, StagedEnvelope(claim))
  }

  ghost predicate HasEnvelope(d: Disk, envelope: Job) {
    || (envelope.jobId in d.pending && d.pending[envelope.jobId] == envelope)
    || (envelope.jobId in d.running && d.running[envelope.jobId] == envelope)
  }

  /** Staging a DM whose claim the queue grants, anew or again, succeeds exactly when the
      claim's envelope fits the spool. Otherwise the claim is still persisted: the DM occupies a
      capacity slot and nothing reaches the spool. */
  lemma StageSucceedsExactlyWhen(w: World, id: int, peer: string, max: int, claim: QueueJob)
    requires SysInv(w) && QueueOutcome(w.queue, ClaimForService(id, peer, max), 1) == Done(ClaimedJob(claim))
    ensures var fits := Fits(w.spool, claim);
      var x := StageStep(w, id, peer, max, 2);
      && (fits <==> StageOutcome(w, id, peer, max, 2) == Done(Some(StagedEnvelope(claim))))
      && (!fits <==> StageOutcome(w, id, peer, max, 2).Refused?)
      && IsPending(x.queue, id) && EntryOf(x.queue, id).service == Claimed && EntryOf(x.queue, id).job == Some(claim)
      && (fits ==> HasEnvelope(x.spool, StagedEnvelope(claim)))
      && (!fits ==> x.spool == w.spool)
  {
    var op := ClaimForService(id, peer, max);
    var envelope := StagedEnvelope(claim);
    ClaimIsRepeatable(w.queue, id, peer, max, claim);
    QueueStepSafe(w.queue, op, 1);
    assert EntryOk(EntryOf(QueueStep(w.queue, op, 1), id));
    EnqueueFits(w.spool, claim, 1);
    EnqueueFits(w.spool, claim, 2);
  }

  lemma EnqueueFits(d: Disk, claim: QueueJob, survive: nat)
    requires Inv(d) && claim.jobId == JobIdOf(claim.sourceDmId) && survive >= 1
    ensures var op := Enqueue(StagedEnvelope(claim));
      && (Fits(d, claim) ==> OutcomeOf(d, op, survive).Done? && HasEnvelope(Step(d, op, survive), StagedEnvelope(claim)))
      && (!Fits(d, claim) ==> OutcomeOf(d, op, survive).Refused? && Step(d, op, survive) == d)
  {
    JobIdFilenameSafe(claim.sourceDmId);
    assert JobOk(d, claim.jobId);
    StepShape(d, Enqueue(StagedEnvelope(claim)), survive);
  }

  /** One eligible DM, as the queue holds it after an enqueue and a policy decision. */
  function OneEligible(): Queue {
    QueueStep(QueueStep(EMPTY_QUEUE, AddDm(Dm(7, Some("alpha"), "hi"), 0.0), 1), RecordEligibility(7, "eligible", "ok"), 1)
  }

  lemma OneEligibleShape()
    ensures OneEligible() == Queue([NewEntry(Dm(7, Some("alpha"), "hi"), 0.0)
                                      .(eligibility := Eligible, reason := "ok", obligation := Owed)], [])
  {
    var e := NewEntry(Dm(7, Some("alpha"), "hi"), 0.0);
    assert QueueStep(EMPTY_QUEUE, AddDm(Dm(7, Some("alpha"), "hi"), 0.0), 1) == Queue([e], []);
  }

  /** A stranded claim, concretely: a peer name with a slash is granted by the queue and
      refused by the spool. */
  lemma SlashPeerStrandsItsClaim()
    ensures var w := World(OneEligible(), EMPTY);
      && StageOutcome(w, 7, "a/b", 1, 2).Refused?
      && IsPending(StageStep(w, 7, "a/b", 1, 2).queue, 7)
      && EntryOf(StageStep(w, 7, "a/b", 1, 2).queue, 7).service == Claimed
      && StageStep(w, 7, "a/b", 1, 2).spool == EMPTY
  {
    OneEligibleShape();
    var w := World(OneEligible(), EMPTY);
    assert w.queue.pending[1..] == [];
    assert EntryOk(w.queue.pending[0]);
    assert "a/b"[1] == '/';
    GrantableIsGranted(w.queue, 7, "a/b", 1);
    StageSucceedsExactlyWhen(w, 7, "a/b", 1, WouldClaim(w.queue, 7, "a/b"));
  }
}
