/** End-to-end theorems of the hand-off from the delivery queue to the spool and back. */
module HandOffSafety {
  import opened Common
  import opened PeerRecords
  import opened SpoolSpec
  import opened SpoolSafety
  import opened QueueSpec
  import opened QueueSafety
  import opened HandOff

  /** Anything the queue's owner, a stager, a reconciler or any spool process may do to the two
      stores. */
  datatype SysOp =
    | QueueCall(queueOp: QueueOp)
    | Stage(dmId: int, peer: string, maxActive: int)
    | SpoolCall(spoolOp: Op)
    | Reconcile(jobId: string)

  datatype SysEvent = SysEvent(op: SysOp, survive: nat)

  /** The reconciliation entry point of the queue is reached only through `Reconcile`. */
  predicate Permitted(op: SysOp) {
    op.QueueCall? ==> !op.queueOp.ReconcileReceipt?
  }

  function SysStep(w: World, op: SysOp, survive: nat): World {
    match op
    case QueueCall(q) => w.(queue := QueueStep(w.queue, q, survive))
    case Stage(dm, peer, max) => StageStep(w, dm, peer, max, survive)
    case SpoolCall(s) => w.(spool := Step(w.spool, s, survive))
    case Reconcile(j) => ReconcileStep(w, j, survive)
  }

  function SysRun(w: World, evs: seq<SysEvent>): World
    decreases |evs|
  {
    if evs == [] then w else SysRun(SysStep(w, evs[0].op, evs[0].survive), evs[1..])
  }

  predicate AllPermitted(evs: seq<SysEvent>) {
    forall k :: 0 <= k < |evs| ==> Permitted(evs[k].op)
  }

  // ---------------------------------------------------------------- the invariant

  /** A recorded hand-off is backed by exactly that receipt, still in the spool. */
  ghost predicate Backed(spool: Disk, r: Receipt) {
    && r.jobId in spool.receipts && spool.receipts[r.jobId] == r
    && r.jobId == JobIdOf(r.sourceDmId)
  }

  ghost predicate SysInv(w: World) {
    && QueueInv(w.queue)
    && Inv(w.spool)
    && (forall k :: 0 <= k < |w.queue.receipts| && w.queue.receipts[k].Spooled? ==>
          Backed(w.spool, w.queue.receipts[k].receipt))
  }

  ghost predicate SysForward(w: World, x: World) {
    QueueForward(w.queue, x.queue) && Forward(w.spool, x.spool)
  }

  lemma BackedForward(a: Disk, b: Disk, r: Receipt)
    requires Inv(a) && Forward(a, b) && Backed(a, r)
    ensures Backed(b, r)
  {
    assert JobOk(a, r.jobId) && JobForward(a, b, r.jobId);
  }

  lemma SpoolChangeSafe(w: World, spool: Disk)
    requires SysInv(w) && Inv(spool) && Forward(w.spool, spool)
    ensures SysInv(w.(spool := spool))
  {
    forall k | 0 <= k < |w.queue.receipts| && w.queue.receipts[k].Spooled?
      ensures Backed(spool, w.queue.receipts[k].receipt)
    {
      BackedForward(w.spool, spool, w.queue.receipts[k].receipt);
    }
  }

  lemma ForwardReflexive(d: Disk)
    ensures Forward(d, d)
  {
  }

  /** Queue calls other than reconciliation record no spool receipt. */
  lemma QueueCallSafe(w: World, op: QueueOp, survive: nat)
    requires SysInv(w) && !op.ReconcileReceipt?
    ensures SysInv(w.(queue := QueueStep(w.queue, op, survive)))
    ensures QueueForward(w.queue, QueueStep(w.queue, op, survive))
  {
    QueueStepSafe(w.queue, op, survive);
  }

  lemma ReconcileSafe(w: World, j: string, survive: nat)
    requires SysInv(w)
    ensures SysInv(ReconcileStep(w, j, survive)) && QueueForward(w.queue, ReconcileStep(w, j, survive).queue)
  {
    var a := AcceptedReceipt(w.spool, j);
    AcceptedIsBacked(w.spool, j);
    if a.Ok? && a.value.Some? {
      RecordSafe(w, a.value.value, survive);
    }
  }

  /** Recording a receipt that the spool holds keeps recorded hand-offs backed. */
  lemma RecordSafe(w: World, r: Receipt, survive: nat)
    requires SysInv(w) && r.jobId in w.spool.receipts && w.spool.receipts[r.jobId] == r
    ensures SysInv(w.(queue := QueueStep(w.queue, ReconcileReceipt(r), survive)))
    ensures QueueForward(w.queue, QueueStep(w.queue, ReconcileReceipt(r), survive))
  {
    QueueStepSafe(w.queue, ReconcileReceipt(r), survive);
    if QueuePlanOf(w.queue, ReconcileReceipt(r)).Store? {
      ClosingPlan(w.queue, r);
      assert Backed(w.spool, r);
    }
  }

  lemma SysStepSafe(w: World, op: SysOp, survive: nat)
    requires SysInv(w) && Permitted(op)
    ensures SysInv(SysStep(w, op, survive)) && SysForward(w, SysStep(w, op, survive))
  {
    ForwardReflexive(w.spool);
    match op {
      case QueueCall(q) => QueueCallSafe(w, q, survive);
      case SpoolCall(s) =>
        StepSafe(w.spool, s, survive);
        SpoolChangeSafe(w, Step(w.spool, s, survive));
      case Reconcile(j) => ReconcileSafe(w, j, survive);
      case Stage(dm, peer, max) =>
        var c := ClaimForService(dm, peer, max);
        QueueCallSafe(w, c, survive);
        var v := w.(queue := QueueStep(w.queue, c, survive));
        var x := StageStep(w, dm, peer, max, survive);
        if x.spool != w.spool {
          var claim := QueueOutcome(w.queue, c, survive).value.job;
          var left := if QueuePlanOf(w.queue, c).Store? then survive - 1 else survive;
          StepSafe(w.spool, Enqueue(StagedEnvelope(claim)), left);
          SpoolChangeSafe(v, x.spool);
        }
    }
  }

  lemma {:induction false} SysRunSafe(w: World, evs: seq<SysEvent>)
    requires SysInv(w) && AllPermitted(evs)
    ensures SysInv(SysRun(w, evs)) && SysForward(w, SysRun(w, evs))
    decreases |evs|
  {
    if evs == [] {
      ForwardReflexive(w.spool);
    } else {
      var x := SysStep(w, evs[0].op, evs[0].survive);
      SysStepSafe(w, evs[0].op, evs[0].survive);
      SysRunSafe(x, evs[1..]);
      QueueForwardTransitive(w.queue, x.queue, SysRun(w, evs).queue);
      ForwardTransitive(w.spool, x.spool, SysRun(w, evs).spool);
    }
  }

  lemma EmptyWorldSafe()
    ensures SysInv(EMPTY_WORLD)
  {
  }

  // ---------------------------------------------------------------- end to end

  /** Reconciliation removes a DM only against a validated spool receipt for that very DM:
      the queue's own job id, peer and fence, and a durable output with the receipted digest. */
  ghost predicate Discharges(w: World, id: int, r: Receipt)
    requires IsPending(w.queue, id)
  {
    && EntryOf(w.queue, id).job.Some?
    && var claim := EntryOf(w.queue, id).job.value;
      && AcceptedReceipt(w.spool, claim.jobId) == Ok(Some(r))
      && r.jobId == claim.jobId == JobIdOf(id) && r.sourceDmId == id
      && r.destinationPeer == claim.destinationPeer
      && r.sourceRef.queueClaimFence == claim.fencingToken
      && (r.sourceRef.sourcePeer.Some? ==> r.sourceRef.sourcePeer == EntryOf(w.queue, id).from)
      && r.jobId in w.spool.running && r.envelopeDigest == OfJob(w.spool.running[r.jobId])
      && (r.jobId, r.fencingToken) in w.spool.outputs
      && r.outputDigest == OfText(w.spool.outputs[(r.jobId, r.fencingToken)].text)
  }

  lemma RemovalIsDischarged(w: World, j: string, survive: nat, id: int)
    requires SysInv(w) && IsPending(w.queue, id) && !IsPending(ReconcileStep(w, j, survive).queue, id)
    ensures j in w.spool.receipts && Discharges(w, id, w.spool.receipts[j])
    ensures ReconcileStep(w, j, survive).queue.receipts == w.queue.receipts + [Spooled(w.spool.receipts[j])]
    ensures ReconcileOutcome(w, j, survive) == Done(true)
  {
    var a := AcceptedReceipt(w.spool, j);
    AcceptedIsBacked(w.spool, j);
    QueueRemoval(w.queue, a.value.value, survive, id);
    ClosingPlan(w.queue, a.value.value);
  }

  /** The queue drops a DM on a spool receipt only by recording it. */
  lemma QueueRemoval(q: Queue, r: Receipt, survive: nat, id: int)
    requires QueueInv(q) && IsPending(q, id) && !IsPending(QueueStep(q, ReconcileReceipt(r), survive), id)
    ensures QueuePlanOf(q, ReconcileReceipt(r)).Store? && r.sourceDmId == id
    ensures QueueStep(q, ReconcileReceipt(r), survive).receipts == q.receipts + [Spooled(r)]
    ensures QueueOutcome(q, ReconcileReceipt(r), survive) == Done(Removed(true))
  {
    QueueStepSafe(q, ReconcileReceipt(r), survive);
    assert DmForward(q, QueueStep(q, ReconcileReceipt(r), survive), id);
  }

  /** A stored receipt validates, against the running envelope and its durable output. */
  lemma AcceptedIsBacked(d: Disk, j: string)
    requires Inv(d)
    ensures AcceptedReceipt(d, j).Ok? && AcceptedReceipt(d, j).value.Some? ==>
      var r := AcceptedReceipt(d, j).value.value;
      && j in d.receipts && r == d.receipts[j] && r.jobId == j
      && j in d.running && r.envelopeDigest == OfJob(d.running[j])
      && (j, r.fencingToken) in d.outputs && r.outputDigest == OfText(d.outputs[(j, r.fencingToken)].text)
  {
    assert JobOk(d, j);
    if j in d.receipts {
      assert OutputOk(d, j, d.receipts[j].fencingToken);
    }
  }

  /** The claim a receipt closes is the one it names. */
  lemma ClosingPlan(q: Queue, r: Receipt)
    requires QueueInv(q) && QueuePlanOf(q, ReconcileReceipt(r)).Store?
    ensures IsPending(q, r.sourceDmId) && EntryOf(q, r.sourceDmId).job.Some?
    ensures var claim := EntryOf(q, r.sourceDmId).job.value;
      && r.jobId == claim.jobId == JobIdOf(r.sourceDmId) && r.destinationPeer == claim.destinationPeer
      && r.sourceRef.queueClaimFence == claim.fencingToken && r.sourceRef.queueEntryId == r.sourceDmId
      && (r.sourceRef.sourcePeer.Some? ==> r.sourceRef.sourcePeer == EntryOf(q, r.sourceDmId).from)
  {
    assert EntryOk(EntryOf(q, r.sourceRef.queueEntryId));
  }

  /** In every run, each DM ever accepted is pending or named by a recorded receipt, and
      each recorded spool hand-off is still backed by that validated receipt. */
  lemma HandOffIsAccounted(before: seq<SysEvent>, after: seq<SysEvent>, id: int, k: nat)
    requires AllPermitted(before) && AllPermitted(after)
    ensures var w := SysRun(EMPTY_WORLD, before); var x := SysRun(w, after);
      && (IsPending(w.queue, id) ==> IsPending(x.queue, id) || IsNewlyRecorded(w.queue, x.queue, id))
      && (k < |w.queue.receipts| && w.queue.receipts[k].Spooled? ==>
            var r := w.queue.receipts[k].receipt;
            && k < |x.queue.receipts| && x.queue.receipts[k] == w.queue.receipts[k]
            && r.jobId == JobIdOf(r.sourceDmId)
            && AcceptedReceipt(x.spool, r.jobId) == Ok(Some(r)))
  {
    EmptyWorldSafe();
    SysRunSafe(EMPTY_WORLD, before);
    var w := SysRun(EMPTY_WORLD, before);
    SysRunSafe(w, after);
    var x := SysRun(w, after);
    assert DmForward(w.queue, x.queue, id);
    if k < |w.queue.receipts| && w.queue.receipts[k].Spooled? {
      var r := w.queue.receipts[k].receipt;
      BackedForward(w.spool, x.spool, r);
      assert JobOk(x.spool, r.jobId);
    }
  }

  // ---------------------------------------------------------------- reconciling again

  lemma ReceiptStands(w: World, evs: seq<SysEvent>, j: string)
    requires SysInv(w) && AllPermitted(evs) && j in w.spool.receipts
    ensures var x := SysRun(w, evs);
      && SysInv(x) && QueueForward(w.queue, x.queue)
      && AcceptedReceipt(w.spool, j) == Ok(Some(w.spool.receipts[j])) == AcceptedReceipt(x.spool, j)
  {
    SysRunSafe(w, evs);
    var x := SysRun(w, evs);
    assert JobOk(w.spool, j) && JobForward(w.spool, x.spool, j) && JobOk(x.spool, j);
  }

  /** The claim of a pending DM that an already spooled receipt would close. */
  ghost predicate ClosedBy(q: Queue, id: int, r: Receipt) {
    && IsPending(q, id) && EntryOf(q, id).job.Some?
    && var claim := EntryOf(q, id).job.value;
      && claim.destinationPeer == r.destinationPeer
      && claim.fencingToken == r.sourceRef.queueClaimFence
      && (r.sourceRef.sourcePeer.Some? ==> r.sourceRef.sourcePeer.value == claim.sourcePeer)
  }

  /** The queue's answer to a recorded receipt, pending or not. */
  lemma ReconcilePlan(q: Queue, r: Receipt, n: nat)
    requires QueueInv(q) && n < |q.receipts| && q.receipts[n] == Spooled(r)
    requires ValidReceipt(r) && r.jobId == JobIdOf(r.sourceDmId)
    ensures !IsPending(q, r.sourceDmId) ==> QueuePlanOf(q, ReconcileReceipt(r)) == Keep(Removed(false))
    ensures IsPending(q, r.sourceDmId) ==>
      var p := QueuePlanOf(q, ReconcileReceipt(r));
      if ClosedBy(q, r.sourceDmId, r) then p.Store? && p.value == Removed(true) else p.Reject?
  {
    assert AlreadyRecorded(q.receipts, r);
    if IsPending(q, r.sourceDmId) {
      assert EntryOk(EntryOf(q, r.sourceDmId));
    }
  }

  /** What reconciling a recorded hand-off once more does. */
  lemma ReconcileRecorded(x: World, r: Receipt, n: nat)
    requires SysInv(x) && n < |x.queue.receipts| && x.queue.receipts[n] == Spooled(r)
    requires AcceptedReceipt(x.spool, r.jobId) == Ok(Some(r)) && ValidReceipt(r)
    ensures ReconcileOutcome(x, r.jobId, 1) == Done(false) <==> !IsPending(x.queue, r.sourceDmId)
    ensures ReconcileOutcome(x, r.jobId, 1) == Done(true) <==> ClosedBy(x.queue, r.sourceDmId, r)
    ensures ReconcileOutcome(x, r.jobId, 1) != Done(true) ==> ReconcileStep(x, r.jobId, 1) == x
  {
    assert Backed(x.spool, r);
    ReconcilePlan(x.queue, r, n);
  }

  /** After a successful reconcile and any later activity, reconciling the same job again
      changes nothing and returns False exactly while the DM is not pending again. If the DM
      was enqueued again, the old receipt closes it exactly when it is claimed by the same
      peer for the same sender: the queue fence is 1 both times and cannot tell them apart. */
  lemma SecondReconcile(w: World, j: string, evs: seq<SysEvent>)
    requires SysInv(w) && AllPermitted(evs) && ReconcileOutcome(w, j, 1) == Done(true)
    ensures j in w.spool.receipts
    ensures var r := w.spool.receipts[j];
      var x := SysRun(ReconcileStep(w, j, 1), evs);
      && (ReconcileOutcome(x, j, 1) == Done(false) <==> !IsPending(x.queue, r.sourceDmId))
      && (ReconcileOutcome(x, j, 1) == Done(true) <==> ClosedBy(x.queue, r.sourceDmId, r))
      && (ReconcileOutcome(x, j, 1) != Done(true) ==> ReconcileStep(x, j, 1) == x)
  {
    FirstReconcile(w, j);
    var v, r, n := ReconcileStep(w, j, 1), w.spool.receipts[j], |w.queue.receipts|;
    ReceiptStands(v, evs, j);
    assert SysRun(v, evs).queue.receipts[n] == v.queue.receipts[n];
    ReconcileRecorded(SysRun(v, evs), r, n);
  }

  lemma FirstReconcile(w: World, j: string)
    requires SysInv(w) && ReconcileOutcome(w, j, 1) == Done(true)
    ensures j in w.spool.receipts
    ensures var v, r := ReconcileStep(w, j, 1), w.spool.receipts[j];
      && SysInv(v) && v.spool == w.spool && v.queue.receipts == w.queue.receipts + [Spooled(r)]
      && r.jobId == j && ValidReceipt(r)
  {
    ReconcileSafe(w, j, 1);
    AcceptedIsBacked(w.spool, j);
    assert JobOk(w.spool, j);
  }
}
