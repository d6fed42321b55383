/** A DM handed off once and enqueued again: the envelope and receipt of the first hand-off are
    still in the spool. What they do to the second one, reached by runs from the empty stores. */
module ReenqueuedDm {
  import opened Common
  import opened PeerRecords
  import opened SpoolSpec
  import opened SpoolSafety
  import opened SpoolRuns
  import opened QueueSpec
  import opened QueueSafety
  import opened HandOff
  import opened HandOffSafety
  import opened StagingSafety

  lemma {:induction false} SysRunAppend(w: World, a: seq<SysEvent>, b: seq<SysEvent>)
    ensures SysRun(w, a + b) == SysRun(SysRun(w, a), b)
    decreases |a|
  {
    if a == [] {
      assert a + b == b;
    } else {
      assert (a + b)[0] == a[0] && (a + b)[1..] == a[1..] + b;
      SysRunAppend(SysStep(w, a[0].op, a[0].survive), a[1..], b);
    }
  }

  lemma SysRunTwo(w: World, a: SysEvent, b: SysEvent)
    ensures SysRun(w, [a, b]) == SysStep(SysStep(w, a.op, a.survive), b.op, b.survive)
  {
    var x := SysStep(w, a.op, a.survive);
    assert [a, b][1..] == [b] && [b][1..] == [];
    assert SysRun(x, [b]) == SysRun(SysStep(x, b.op, b.survive), []);
  }

  // ---------------------------------------------------------------- one hand-off, uninterrupted

  /** The DM's claim fits a spool that has nothing of it yet. */
  ghost predicate Fresh(w: World, id: int, claim: QueueJob) {
    && Fits(w.spool, claim) && id >= 1 && FilenameSafe(claim.sourcePeer)
    && JobIdOf(id) !in w.spool.pending && JobIdOf(id) !in w.spool.running
  }

  /** The worker's half: claim the envelope and receipt `text`. */
  function Work(claim: QueueJob, text: string): seq<SysEvent> {
    [SysEvent(SpoolCall(TakeJob(claim.jobId, claim.destinationPeer, 0.0)), 2),
     SysEvent(SpoolCall(ProduceReceipt(claim.jobId, claim.destinationPeer, 1, text, StagedRef(claim), OfText(""),
                                       OfJob(StagedEnvelope(claim)))), 2)]
  }

  function HandedOff(id: int, max: int, claim: QueueJob, text: string): seq<SysEvent> {
    [SysEvent(Stage(id, claim.destinationPeer, max), 2)] + Work(claim, text)
    + [SysEvent(Reconcile(claim.jobId), 1)]
  }

  /** The spool after a job's first run. */
  ghost predicate Worked(d: Disk, claim: QueueJob, text: string) {
    && claim.jobId in d.running && d.running[claim.jobId] == StagedEnvelope(claim)
    && claim.jobId in d.receipts && d.receipts[claim.jobId].sourceRef == StagedRef(claim)
    && d.receipts[claim.jobId].outputDigest == OfText(text)
  }

  lemma TakesFresh(d: Disk, job: Job)
    requires Inv(d) && job.jobId in d.pending && d.pending[job.jobId] == job
    ensures var e := Step(d, TakeJob(job.jobId, job.destinationPeer, 0.0), 2);
      && Inv(e) && OwnsClaim(e, job.jobId, job.destinationPeer, 1) && e.running[job.jobId] == job
      && job.jobId !in e.receipts && (job.jobId, 1) !in e.outputs
  {
    assert JobOk(d, job.jobId);
    StepSafe(d, TakeJob(job.jobId, job.destinationPeer, 0.0), 2);
    StepShape(d, TakeJob(job.jobId, job.destinationPeer, 0.0), 2);
  }

  lemma WorkIsDone(w: World, claim: QueueJob, text: string)
    requires SysInv(w) && ValidSourceRef(StagedRef(claim), claim.sourceDmId)
    requires claim.jobId in w.spool.pending && w.spool.pending[claim.jobId] == StagedEnvelope(claim)
    ensures var x := SysRun(w, Work(claim, text));
      SysInv(x) && x.queue == w.queue && Worked(x.spool, claim, text)
  {
    var evs := Work(claim, text);
    SysRunSafe(w, evs);
    SysRunTwo(w, evs[0], evs[1]);
    TakesFresh(w.spool, StagedEnvelope(claim));
    FreshOwnerSucceeds(Step(w.spool, evs[0].op.spoolOp, 2), claim.jobId, claim.destinationPeer, 1, text, StagedRef(claim), OfText(""));
    var e := Step(w.spool, evs[0].op.spoolOp, 2);
    StepSafe(e, evs[1].op.spoolOp, 2);
    assert JobForward(e, Step(e, evs[1].op.spoolOp, 2), claim.jobId);
  }

  /** Reconciling the receipt of the queue's own claim closes it. */
  lemma OwnReceiptCloses(w: World, id: int, claim: QueueJob, text: string)
    requires SysInv(w) && IsPending(w.queue, id) && EntryOf(w.queue, id).job == Some(claim) && Worked(w.spool, claim, text)
    ensures var x := ReconcileStep(w, claim.jobId, 1);
      && ReconcileOutcome(w, claim.jobId, 1) == Done(true) && x.spool == w.spool
      && x.queue == Queue(Without(w.queue.pending, IndexOf(w.queue.pending, id)),
                          w.queue.receipts + [Spooled(w.spool.receipts[claim.jobId])])
  {
    assert EntryOk(EntryOf(w.queue, id));
    assert JobOk(w.spool, claim.jobId);
  }

  /** An uninterrupted hand-off of a fresh DM ends with the DM off the queue, its receipt
      recorded there and the envelope and receipt in the spool. */
  lemma HandOffCompletes(w: World, id: int, max: nat, claim: QueueJob, text: string)
    requires SysInv(w) && QueueOutcome(w.queue, ClaimForService(id, claim.destinationPeer, max), 1) == Done(ClaimedJob(claim))
    requires Fresh(w, id, claim)
    ensures var x := SysRun(w, HandedOff(id, max, claim, text));
      && SysInv(x) && !IsPending(x.queue, id) && Worked(x.spool, claim, text)
      && x.queue.receipts == w.queue.receipts + [Spooled(x.spool.receipts[claim.jobId])]
      && (ActiveClaims(w.queue.pending) <= max ==> ActiveClaims(x.queue.pending) < max)
  {
    var peer := claim.destinationPeer;
    FreshIsStaged(w, id, peer, max, claim);
    CapacityFreed(w.queue, id, peer, max, claim);
    var staged := StageStep(w, id, peer, max, 2);
    WorkedIsClosed(staged, id, claim, text);
    RunOfFour(w, SysEvent(Stage(id, peer, max), 2), Work(claim, text), SysEvent(Reconcile(claim.jobId), 1));
  }

  lemma FreshIsStaged(w: World, id: int, peer: string, max: nat, claim: QueueJob)
    requires SysInv(w) && QueueOutcome(w.queue, ClaimForService(id, peer, max), 1) == Done(ClaimedJob(claim))
    requires Fresh(w, id, claim)
    ensures var x := StageStep(w, id, peer, max, 2);
      && SysInv(x) && x.queue == QueueStep(w.queue, ClaimForService(id, peer, max), 1)
      && IsPending(x.queue, id) && EntryOf(x.queue, id).job == Some(claim)
      && claim.jobId in x.spool.pending && x.spool.pending[claim.jobId] == StagedEnvelope(claim)
      && x.queue.receipts == w.queue.receipts && ValidSourceRef(StagedRef(claim), claim.sourceDmId)
  {
    ClaimIsRepeatable(w.queue, id, peer, max, claim);
    SysStepSafe(w, Stage(id, peer, max), 2);
    StageSucceedsExactlyWhen(w, id, peer, max, claim);
    StagedIsPending(w, id, peer, max, claim);
  }

  lemma WorkedIsClosed(w: World, id: int, claim: QueueJob, text: string)
    requires SysInv(w) && IsPending(w.queue, id) && EntryOf(w.queue, id).job == Some(claim)
    requires ValidSourceRef(StagedRef(claim), claim.sourceDmId)
    requires claim.jobId in w.spool.pending && w.spool.pending[claim.jobId] == StagedEnvelope(claim)
    ensures var x := ReconcileStep(SysRun(w, Work(claim, text)), claim.jobId, 1);
      && SysInv(x) && !IsPending(x.queue, id) && Worked(x.spool, claim, text)
      && x.queue == Queue(Without(w.queue.pending, IndexOf(w.queue.pending, id)),
                          w.queue.receipts + [Spooled(x.spool.receipts[claim.jobId])])
  {
    WorkIsDone(w, claim, text);
    var worked := SysRun(w, Work(claim, text));
    OwnReceiptCloses(worked, id, claim, text);
    SysStepSafe(worked, Reconcile(claim.jobId), 1);
    GoneWithout(w.queue, id);
  }

  lemma GoneWithout(q: Queue, id: int)
    requires QueueInv(q) && IsPending(q, id)
    ensures IndexOf(Without(q.pending, IndexOf(q.pending, id)), id) == |q.pending| - 1
  {
    var k := IndexOf(q.pending, id);
    var rest := Without(q.pending, k);
    forall m | 0 <= m < |rest| ensures rest[m].id != id {
      assert rest[m] == if m < k then q.pending[m] else q.pending[m + 1];
    }
  }

  lemma RunOfFour(w: World, a: SysEvent, mid: seq<SysEvent>, z: SysEvent)
    ensures var x := SysRun(SysStep(w, a.op, a.survive), mid);
      SysRun(w, [a] + mid + [z]) == SysStep(x, z.op, z.survive)
  {
    SysRunAppend(w, [a] + mid, [z]);
    assert ([a] + mid)[1..] == mid;
    var x := SysRun(w, [a] + mid);
    assert [z][1..] == [];
    assert SysRun(x, [z]) == SysRun(SysStep(x, z.op, z.survive), []);
  }

  lemma StagedIsPending(w: World, id: int, peer: string, max: int, claim: QueueJob)
    requires SysInv(w) && QueueOutcome(w.queue, ClaimForService(id, peer, max), 1) == Done(ClaimedJob(claim))
    requires claim.jobId == JobIdOf(id) && claim.jobId !in w.spool.running
    requires StageOutcome(w, id, peer, max, 2).Done?
    ensures var x := StageStep(w, id, peer, max, 2);
      x.queue == QueueStep(w.queue, ClaimForService(id, peer, max), 1) &&
      (HasEnvelope(x.spool, StagedEnvelope(claim)) ==>
        claim.jobId in x.spool.pending && x.spool.pending[claim.jobId] == StagedEnvelope(claim))
  {
    StepShape(w.spool, Enqueue(StagedEnvelope(claim)), 1);
    StepShape(w.spool, Enqueue(StagedEnvelope(claim)), 2);
  }

  /** Claiming a DM and closing it leaves a slot free again. */
  lemma CapacityFreed(q: Queue, id: int, peer: string, max: nat, claim: QueueJob)
    requires QueueInv(q) && QueueOutcome(q, ClaimForService(id, peer, max), 1) == Done(ClaimedJob(claim))
    ensures var r := QueueStep(q, ClaimForService(id, peer, max), 1);
      && IsPending(r, id)
      && (ActiveClaims(q.pending) <= max ==> ActiveClaims(Without(r.pending, IndexOf(r.pending, id))) < max)
  {
    var op := ClaimForService(id, peer, max);
    var r := QueueStep(q, op, 1);
    ClaimIsRepeatable(q, id, peer, max, claim);
    QueueStepSafe(q, op, 1);
    assert EntryOk(EntryOf(r, id));
    ActiveOfRemoval(r.pending, IndexOf(r.pending, id));
    if ActiveClaims(q.pending) <= max {
      StepWithinCapacity(q, op, 1, max);
    }
  }

  // ---------------------------------------------------------------- enqueued again

  /** The DM arrives again and policy allows it again. */
  function Again(dm: Dm): seq<SysEvent> {
    [SysEvent(QueueCall(AddDm(dm, 0.0)), 1), SysEvent(QueueCall(RecordEligibility(dm.id, "eligible", "ok")), 1)]
  }

  function EligibleEntry(dm: Dm): Entry {
    NewEntry(dm, 0.0).(eligibility := Eligible, reason := "ok", obligation := Owed)
  }

  lemma FoundAt(p: seq<Entry>, id: int, n: nat)
    requires n < |p| && p[n].id == id && forall m :: 0 <= m < n ==> p[m].id != id
    ensures IndexOf(p, id) == n
  {
  }

  lemma AgainIsGrantable(w: World, dm: Dm, peer: string, max: nat)
    requires SysInv(w) && !IsPending(w.queue, dm.id) && ActiveClaims(w.queue.pending) < max
    requires dm.fromNode.Some? && dm.fromNode.value != "" && peer != ""
    ensures var x := SysRun(w, Again(dm));
      && SysInv(x) && x.spool == w.spool && x.queue.receipts == w.queue.receipts
      && Grantable(x.queue, dm.id, peer, max) && EntryOf(x.queue, dm.id) == EligibleEntry(dm)
  {
    var evs := Again(dm);
    var p, n := w.queue.pending, |w.queue.pending|;
    SysRunSafe(w, evs);
    SysRunTwo(w, evs[0], evs[1]);
    var added := p + [NewEntry(dm, 0.0)];
    FoundAt(added, dm.id, n);
    var ended := added[n := EligibleEntry(dm)];
    FoundAt(ended, dm.id, n);
    ActiveOfConcat(p, [NewEntry(dm, 0.0)]);
    ActiveOfUpdate(added, n, EligibleEntry(dm));
  }

  /** Staged again, the DM fits exactly when the new claim is the old one: same peer, same
      sender. */
  lemma SecondStageSucceedsExactlyWhen(x: World, id: int, peer: string, max: int, first: QueueJob, text: string)
    requires SysInv(x) && Grantable(x.queue, id, peer, max) && first.jobId == JobIdOf(id) && first.sourceDmId == id
    requires first.fencingToken == 1 && Worked(x.spool, first, text) && Fits(x.spool, first)
    ensures var second := WouldClaim(x.queue, id, peer);
      var same := peer == first.destinationPeer && second.sourcePeer == first.sourcePeer;
      && (same <==> StageOutcome(x, id, peer, max, 2) == Done(Some(StagedEnvelope(first))))
      && (!same <==> StageOutcome(x, id, peer, max, 2).Refused?)
      && EntryOf(x.queue, id).service != Claimed
      && IsPending(StageStep(x, id, peer, max, 2).queue, id)
      && EntryOf(StageStep(x, id, peer, max, 2).queue, id).job == Some(second)
      && StageStep(x, id, peer, max, 2).spool == x.spool
  {
    var second := WouldClaim(x.queue, id, peer);
    assert EntryOk(EntryOf(x.queue, id));
    GrantableIsGranted(x.queue, id, peer, max);
    StageSucceedsExactlyWhen(x, id, peer, max, second);
    assert JobOk(x.spool, first.jobId);
    StepShape(x.spool, Enqueue(StagedEnvelope(second)), 1);
  }

  /** And where it fits, the receipt of the first hand-off closes it at once, no work done. */
  lemma OldReceiptClosesNewClaim(x: World, id: int, max: int, first: QueueJob, text: string)
    requires SysInv(x) && Grantable(x.queue, id, first.destinationPeer, max) && first.jobId == JobIdOf(id) && first.sourceDmId == id
    requires first.fencingToken == 1 && Worked(x.spool, first, text) && Fits(x.spool, first)
    requires EntryOf(x.queue, id).from == Some(first.sourcePeer)
    ensures var staged := StageStep(x, id, first.destinationPeer, max, 2);
      && IsPending(staged.queue, id) && EntryOf(staged.queue, id).service == Claimed && staged.spool == x.spool
      && ReconcileOutcome(staged, first.jobId, 1) == Done(true)
      && !IsPending(ReconcileStep(staged, first.jobId, 1).queue, id)
      && ReconcileStep(staged, first.jobId, 1).spool == x.spool
  {
    var peer := first.destinationPeer;
    SecondStageSucceedsExactlyWhen(x, id, peer, max, first, text);
    var second := WouldClaim(x.queue, id, peer);
    SysStepSafe(x, Stage(id, peer, max), 2);
    var staged := StageStep(x, id, peer, max, 2);
    OwnReceiptCloses(staged, id, second, text);
    SysStepSafe(staged, Reconcile(first.jobId), 1);
  }

  // ---------------------------------------------------------------- from the empty stores

  const SEVEN: Dm := Dm(7, Some("a"), "hi")
  const SEVEN_CLAIM: QueueJob := NewJob(EligibleEntry(SEVEN), "a", "b")

  /** DM 7 from `a` is handed off to `b` and enqueued again. */
  function SevenTwice(): seq<SysEvent> {
    Again(SEVEN) + HandedOff(7, 1, SEVEN_CLAIM, "done") + Again(SEVEN)
  }

  lemma SevenFits()
    ensures Fits(EMPTY, SEVEN_CLAIM) && Fresh(World(EMPTY_QUEUE, EMPTY), 7, SEVEN_CLAIM)
  {
    assert NatText(7) == [Digit(7)] && NatText(1) == [Digit(1)];
    assert JsonString("a") == JsonChar('a') + JsonString("a"[1..]);
    assert JsonChar('a') == "a";
    assert "a"[1..] == "";
  }

  lemma SevenTwiceRun(peer: string)
    requires peer != ""
    ensures SevenIsBack(SysRun(EMPTY_WORLD, SevenTwice()), peer)
  {
    EmptyWorldSafe();
    SevenFits();
    AgainIsGrantable(EMPTY_WORLD, SEVEN, "b", 1);
    var w := SysRun(EMPTY_WORLD, Again(SEVEN));
    GrantableIsGranted(w.queue, 7, "b", 1);
    HandOffCompletes(w, 7, 1, SEVEN_CLAIM, "done");
    var y := SysRun(w, HandedOff(7, 1, SEVEN_CLAIM, "done"));
    AgainIsGrantable(y, SEVEN, peer, 1);
    SysRunAppend(EMPTY_WORLD, Again(SEVEN), HandedOff(7, 1, SEVEN_CLAIM, "done"));
    SysRunAppend(EMPTY_WORLD, Again(SEVEN) + HandedOff(7, 1, SEVEN_CLAIM, "done"), Again(SEVEN));
    assert JobOk(y.spool, SEVEN_CLAIM.jobId);
  }

  /** Where the two runs below start. */
  ghost predicate SevenIsBack(x: World, peer: string) {
    && SysInv(x) && Grantable(x.queue, 7, peer, 1) && EntryOf(x.queue, 7) == EligibleEntry(SEVEN)
    && Worked(x.spool, SEVEN_CLAIM, "done") && Fits(x.spool, SEVEN_CLAIM)
  }

  /** A usable, short claim that the spool refuses, the slot staying taken. */
  ghost predicate IsStranded(x: World, id: int, peer: string) {
    var y := StageStep(x, id, peer, 1, 2);
    && IsPending(x.queue, id) && EntryOf(x.queue, id).from.Some?
    && FilenameSafe(peer) && |SourceRefText(StagedRef(WouldClaim(x.queue, id, peer)))| <= 256
    && StageOutcome(x, id, peer, 1, 2).Refused?
    && IsPending(y.queue, id) && EntryOf(y.queue, id).job.Some? && y.spool == x.spool
  }

  lemma StrandsSeven(x: World)
    requires SevenIsBack(x, "c")
    ensures IsStranded(x, 7, "c")
  {
    assert StagedRef(WouldClaim(x.queue, 7, "c")) == StagedRef(SEVEN_CLAIM);
    SecondStageSucceedsExactlyWhen(x, 7, "c", 1, SEVEN_CLAIM, "done");
  }

  /** Staged for another peer, the DM's claim is stranded: `c` is a usable name and the
      provenance is short, but the spool still has the envelope for `b`. */
  lemma ReenqueuedDmStrandsItsClaim()
    ensures IsStranded(SysRun(EMPTY_WORLD, SevenTwice()), 7, "c")
  {
    SevenTwiceRun("c");
    StrandsSeven(SysRun(EMPTY_WORLD, SevenTwice()));
  }

  /** A claim with no work done that reconciliation closes. */
  ghost predicate IsClosedUnserved(x: World, id: int, peer: string) {
    var staged := StageStep(x, id, peer, 1, 2);
    && IsPending(staged.queue, id) && EntryOf(staged.queue, id).service == Claimed && staged.spool == x.spool
    && ReconcileOutcome(staged, JobIdOf(id), 1) == Done(true)
    && !IsPending(ReconcileStep(staged, JobIdOf(id), 1).queue, id)
  }

  lemma ClosesSeven(x: World)
    requires SevenIsBack(x, "b")
    ensures IsClosedUnserved(x, 7, "b")
  {
    OldReceiptClosesNewClaim(x, 7, 1, SEVEN_CLAIM, "done");
  }

  /** Staged for the same peer, it is closed by the receipt of the first hand-off. */
  lemma ReenqueuedDmIsClosedUnserved()
    ensures IsClosedUnserved(SysRun(EMPTY_WORLD, SevenTwice()), 7, "b")
  {
    SevenTwiceRun("b");
    ClosesSeven(SysRun(EMPTY_WORLD, SevenTwice()));
  }
}
