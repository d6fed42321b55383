/** Staging queue claims into the spool, and closing queue entries from spool receipts. */
module HandOff {
  import opened Common
  import opened PeerRecords
  import opened SpoolSpec
  import opened QueueSpec
  import Q = DeliveryQueue
  import S = PeerSpool

  /** The two durable stores of the hand-off. */
  datatype World = World(queue: Queue, spool: Disk)

  const EMPTY_WORLD: World := World(EMPTY_QUEUE, EMPTY)

  datatype HandOffError = InQueue(queueError: QueueError) | InSpool(spoolError: SpoolError)

  /** The provenance and envelope the stager derives from a queue claim. */
  function StagedRef(claim: QueueJob): SourceRef {
    SourceRef(claim.sourceDmId, claim.sourceDmId, claim.fencingToken, Some(claim.sourcePeer))
  }

  function StagedEnvelope(claim: QueueJob): Job {
    Job(1, claim.jobId, claim.sourceDmId, claim.destinationPeer, Canonical(StagedRef(claim)))
  }

  function StageStep(w: World, dmId: int, peer: string, maxActive: int, survive: nat): World {
    var op := ClaimForService(dmId, peer, maxActive);
    var q := QueueStep(w.queue, op, survive);
    match QueueOutcome(w.queue, op, survive)
    case Done(ClaimedJob(claim)) =>
      var left := if QueuePlanOf(w.queue, op).Store? then survive - 1 else survive;
      World(q, Step(w.spool, Enqueue(StagedEnvelope(claim)), left))
    case _ => World(q, w.spool)
  }

  function StageOutcome(w: World, dmId: int, peer: string, maxActive: int, survive: nat)
    : Outcome<Option<Job>, HandOffError>
  {
    var op := ClaimForService(dmId, peer, maxActive);
    match QueueOutcome(w.queue, op, survive)
    case Refused(e) => Refused(InQueue(e))
    case Crashed => Crashed
    case Done(ClaimedJob(claim)) =>
      var left := if QueuePlanOf(w.queue, op).Store? then survive - 1 else survive;
      (match OutcomeOf(w.spool, Enqueue(StagedEnvelope(claim)), left)
       case Refused(e) => Refused(InSpool(e))
       case Crashed => Crashed
       case Done(_) => Done(Some(StagedEnvelope(claim))))
    case Done(_) => Done(None)
  }

  function ReconcileStep(w: World, jobId: string, survive: nat): World {
    match AcceptedReceipt(w.spool, jobId)
    case Ok(Some(receipt)) => w.(queue := QueueStep(w.queue, ReconcileReceipt(receipt), survive))
    case _ => w
  }

  function ReconcileOutcome(w: World, jobId: string, survive: nat): Outcome<bool, HandOffError> {
    match AcceptedReceipt(w.spool, jobId)
    case Err(e) => Refused(InSpool(e))
    case Ok(None) => Done(false)
    case Ok(Some(receipt)) =>
      match QueueOutcome(w.queue, ReconcileReceipt(receipt), survive)
      case Refused(e) => Refused(InQueue(e))
      case Crashed => Crashed
      case Done(v) => Done(v == Removed(true))
  }

  class PeerSpoolStager {
    const queue: Q.DeliveryQueue
    const spool: S.PeerSpool

    constructor (queue: Q.DeliveryQueue, spool: S.PeerSpool)
      ensures this.queue == queue && this.spool == spool
    {
      this.queue, this.spool := queue, spool;
    }

    method Stage(dmId: int, peer: string, maxActive: int, survive: nat)
      returns (r: Outcome<Option<Job>, HandOffError>)
      requires queue.InSync()
      modifies queue, spool
      ensures World(queue.stored, spool.Files())
              == StageStep(old(World(queue.stored, spool.Files())), dmId, peer, maxActive, survive)
      ensures r == StageOutcome(old(World(queue.stored, spool.Files())), dmId, peer, maxActive, survive)
      ensures !r.Crashed? ==> queue.InSync()
    {
      var before := queue.stored;
      var c := queue.ClaimForService(dmId, peer, maxActive, survive);
      if c.Refused? {
        return Refused(InQueue(c.error));
      }
      if c.Crashed? {
        return Crashed;
      }
      if !c.value.ClaimedJob? {
        return Done(None);
      }
      var left := if QueuePlanOf(before, QueueSpec.ClaimForService(dmId, peer, maxActive)).Store?
                  then survive - 1 else survive;
      var envelope := StagedEnvelope(c.value.job);
      var e := spool.Enqueue(envelope, left);
      match e {
        case Refused(error) => return Refused(InSpool(error));
        case Crashed => return Crashed;
        case Done(_) => return Done(Some(envelope));
      }
    }
  }

  class PeerReceiptReconciler {
    const queue: Q.DeliveryQueue
    const spool: S.PeerSpool

    constructor (queue: Q.DeliveryQueue, spool: S.PeerSpool)
      ensures this.queue == queue && this.spool == spool
    {
      this.queue, this.spool := queue, spool;
    }

    method Reconcile(jobId: string, survive: nat) returns (r: Outcome<bool, HandOffError>)
      requires queue.InSync()
      modifies queue
      ensures World(queue.stored, spool.Files())
              == ReconcileStep(old(World(queue.stored, spool.Files())), jobId, survive)
      ensures r == ReconcileOutcome(old(World(queue.stored, spool.Files())), jobId, survive)
      ensures !r.Crashed? ==> queue.InSync()
    {
      var receipt := AcceptedReceipt(spool.Files(), jobId);
      if receipt.Err? {
        return Refused(InSpool(receipt.error));
      }
      if receipt.value.None? {
        return Done(false);
      }
      var q := queue.ReconcileSpoolReceipt(receipt.value.value, survive);
      match q {
        case Refused(error) => return Refused(InQueue(error));
        case Crashed => return Crashed;
        case Done(v) => return Done(v == Removed(true));
      }
    }
  }
}
