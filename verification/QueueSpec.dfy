/** The delivery queue as a value: what each call refuses, returns and persists. */
module QueueSpec {
  import opened Common
  import opened PeerRecords

  datatype Eligibility = Eligible | Ineligible | CannotEvaluate
  datatype Service = Unassigned | Claimed | CapacityRefused
  datatype Obligation = Owed | OwedIneligible | OwedCannotEvaluate | OwedCapacityRefused | Expired

  datatype ReplyProvenance = ReplyProvenance(peer: string, actor: string, actorId: string)

  /** The claim a bounded service holds on one source DM. */
  datatype QueueJob = QueueJob(
    jobId: string, sourceDmId: int, sourcePeer: string, destinationPeer: string,
    fencingToken: int, replyProvenance: ReplyProvenance)

  datatype Dm = Dm(id: int, fromNode: Option<string>, content: string)

  datatype Entry = Entry(
    id: int, from: Option<string>, content: string, queuedAt: real,
    eligibility: Eligibility, reason: string, obligation: Obligation, service: Service,
    job: Option<QueueJob>, expiryReason: Option<string>, refusedAt: Option<(nat, int)>)

  /** A receipt given to the queue directly, without a spool. */
  datatype DirectReceipt = DirectReceipt(
    jobId: string, sourceDmId: int, destinationPeer: string, fencingToken: int,
    outputDigest: Digest, replyProvenance: ReplyProvenance, sourcePeer: Option<string>)

  datatype QueueReceipt = Direct(direct: DirectReceipt) | Spooled(receipt: Receipt)

  datatype Queue = Queue(pending: seq<Entry>, receipts: seq<QueueReceipt>)

  const EMPTY_QUEUE: Queue := Queue([], [])

  datatype QueueError =
    | UnsupportedState
    | ReasonRequired
    | UnknownDm
    | ActiveClaim
    | BadMaxActive
    | DestinationRequired
    | NoRoutableSender
    | NotEligible
    | BadQueueReceipt
    | NoActiveClaim
    | ClaimMismatch

  datatype QueueOp =
    | AddDm(dm: Dm, now: real)
    | RecordEligibility(dmId: int, state: string, reason: string)
    | RecordExpired(dmId: int, reason: string)
    | ClaimForService(dmId: int, destinationPeer: string, maxActive: int)
    | RemoveOnReceipt(direct: DirectReceipt)
    | ReconcileReceipt(receipt: Receipt)

  datatype QueueValue = Nothing | ClaimedJob(job: QueueJob) | AtCapacity | Removed(now: bool)

  /** `Keep` leaves the stored queue as it is; `Store` persists a new one in one atomic write. */
  datatype QueuePlan = Reject(error: QueueError) | Keep(value: QueueValue) | Store(queue: Queue, value: QueueValue)

  function JobIdOf(dmId: int): string {
    "dm-" + IntText(dmId)
  }

  lemma JobIdInjective(a: int, b: int)
    requires JobIdOf(a) == JobIdOf(b)
    ensures a == b
  {
    assert JobIdOf(a)[3..] == IntText(a) && JobIdOf(b)[3..] == IntText(b);
    IntTextInjective(a, b);
  }

  /** Job ids minted by the queue are always usable as file names. */
  lemma JobIdFilenameSafe(id: int)
    ensures FilenameSafe(JobIdOf(id))
  {
    assert forall c :: c in IntText(id) ==> c != '/' by { IntTextPlain(id); }
  }

  lemma IntTextPlain(n: int)
    ensures forall c :: c in IntText(n) ==> c == '-' || '0' <= c <= '9'
  {
  }

  /** Position of the first entry with this id, or the length when there is none. */
  function IndexOf(pending: seq<Entry>, id: int): (k: nat)
    ensures k <= |pending|
    ensures k < |pending| ==> pending[k].id == id
    ensures forall m :: 0 <= m < k ==> pending[m].id != id
    decreases |pending|
  {
    if pending == [] then 0
    else if pending[0].id == id then 0
    else 1 + IndexOf(pending[1..], id)
  }

  function ActiveClaims(pending: seq<Entry>): nat
    decreases |pending|
  {
    if pending == [] then 0 else (if pending[0].service == Claimed then 1 else 0) + ActiveClaims(pending[1..])
  }

  function ParseEligibility(state: string): Option<Eligibility> {
    if state == "eligible" then Some(Eligible)
    else if state == "ineligible" then Some(Ineligible)
    else if state == "cannot_evaluate" then Some(CannotEvaluate)
    else None
  }

  function ObligationFor(e: Eligibility): Obligation {
    match e
    case Eligible => Owed
    case Ineligible => OwedIneligible
    case CannotEvaluate => OwedCannotEvaluate
  }

  function NewEntry(dm: Dm, now: real): Entry {
    Entry(dm.id, dm.fromNode, dm.content, now, CannotEvaluate, "awaiting policy evaluation",
          OwedCannotEvaluate, Unassigned, None, None, None)
  }

  function NewJob(entry: Entry, sourcePeer: string, destinationPeer: string): QueueJob {
    var token := (if entry.job.Some? then entry.job.value.fencingToken else 0) + 1;
    QueueJob(JobIdOf(entry.id), entry.id, sourcePeer, destinationPeer, token,
             ReplyProvenance(destinationPeer, "service", destinationPeer + "/service"))
  }

  function PlanAdd(q: Queue, dm: Dm, now: real): QueuePlan {
    if IndexOf(q.pending, dm.id) < |q.pending| then Keep(Nothing)
    else Store(q.(pending := q.pending + [NewEntry(dm, now)]), Nothing)
  }

  function PlanEligibility(q: Queue, id: int, state: string, reason: string): QueuePlan {
    var e := ParseEligibility(state);
    var k := IndexOf(q.pending, id);
    if e.None? then Reject(UnsupportedState)
    else if reason == "" then Reject(ReasonRequired)
    else if k == |q.pending| then Reject(UnknownDm)
    else
      var entry := q.pending[k].(eligibility := e.value, reason := reason, obligation := ObligationFor(e.value));
      Store(q.(pending := q.pending[k := entry]), Nothing)
  }

  function PlanExpired(q: Queue, id: int, reason: string): QueuePlan {
    var k := IndexOf(q.pending, id);
    if reason == "" then Reject(ReasonRequired)
    else if k == |q.pending| then Reject(UnknownDm)
    else if q.pending[k].service == Claimed then Reject(ActiveClaim)
    else
      var entry := q.pending[k].(obligation := Expired, expiryReason := Some(reason));
      Store(q.(pending := q.pending[k := entry]), Nothing)
  }

  function PlanClaim(q: Queue, id: int, peer: string, maxActive: int): QueuePlan {
    var k := IndexOf(q.pending, id);
    if maxActive < 1 then Reject(BadMaxActive)
    else if peer == "" then Reject(DestinationRequired)
    else if k == |q.pending| then Reject(UnknownDm)
    else
      var entry := q.pending[k];
      if entry.from.None? || entry.from.value == "" then Reject(NoRoutableSender)
      else if entry.eligibility != Eligible || (entry.obligation != Owed && entry.obligation != OwedCapacityRefused)
      then Reject(NotEligible)
      else if entry.service == Claimed then
        if entry.job.Some? && entry.job.value.destinationPeer == peer then Keep(ClaimedJob(entry.job.value))
        else Reject(ActiveClaim)
      else if ActiveClaims(q.pending) >= maxActive then
        var refused := entry.(service := CapacityRefused, obligation := OwedCapacityRefused,
                              refusedAt := Some((ActiveClaims(q.pending), maxActive)));
        Store(q.(pending := q.pending[k := refused]), AtCapacity)
      else
        var job := NewJob(entry, entry.from.value, peer);
        var claimed := entry.(job := Some(job), service := Claimed, obligation := Owed, refusedAt := None);
        Store(q.(pending := q.pending[k := claimed]), ClaimedJob(job))
  }

  function Without(pending: seq<Entry>, k: nat): seq<Entry>
    requires k < |pending|
  {
    pending[..k] + pending[k + 1..]
  }

  function PlanDirect(q: Queue, r: DirectReceipt): QueuePlan {
    var k := IndexOf(q.pending, r.sourceDmId);
    if r.fencingToken < 1 || !ValidDigest(r.outputDigest) then Reject(BadQueueReceipt)
    else if k == |q.pending| then Reject(UnknownDm)
    else
      var entry := q.pending[k];
      if entry.service != Claimed || entry.job.None? then Reject(NoActiveClaim)
      else
        var job := entry.job.value;
        if r.jobId != job.jobId || r.sourceDmId != job.sourceDmId || r.destinationPeer != job.destinationPeer
           || r.fencingToken != job.fencingToken || r.replyProvenance != job.replyProvenance
        then Reject(ClaimMismatch)
        else Store(Queue(Without(q.pending, k), q.receipts + [Direct(r)]), Removed(true))
  }

  /** Whether the queue already recorded this hand-off. */
  predicate AlreadyRecorded(receipts: seq<QueueReceipt>, r: Receipt) {
    exists k :: 0 <= k < |receipts| && receipts[k].Spooled?
      && receipts[k].receipt.sourceRef == r.sourceRef && receipts[k].receipt.outputDigest == r.outputDigest
  }

  function PlanReconcile(q: Queue, r: Receipt): QueuePlan {
    var ref := r.sourceRef;
    var k := IndexOf(q.pending, ref.queueEntryId);
    if ref.queueEntryId != ref.sourceDmId || r.sourceDmId != ref.sourceDmId then Reject(BadQueueReceipt)
    else if ref.sourcePeer == Some("") then Reject(BadQueueReceipt)
    else if r.fencingToken < 1 || !ValidDigest(r.outputDigest) then Reject(BadQueueReceipt)
    else if k == |q.pending| then
      if AlreadyRecorded(q.receipts, r) then Keep(Removed(false)) else Reject(UnknownDm)
    else
      var entry := q.pending[k];
      if entry.service != Claimed || entry.job.None? then Reject(NoActiveClaim)
      else
        var job := entry.job.value;
        if job.jobId != r.jobId || job.sourceDmId != r.sourceDmId || job.destinationPeer != r.destinationPeer
           || job.fencingToken != ref.queueClaimFence
        then Reject(ClaimMismatch)
        else if ref.sourcePeer.Some? && ref.sourcePeer.value != job.sourcePeer then Reject(ClaimMismatch)
        else Store(Queue(Without(q.pending, k), q.receipts + [Spooled(r)]), Removed(true))
  }

  function QueuePlanOf(q: Queue, op: QueueOp): QueuePlan {
    match op
    case AddDm(dm, now) => PlanAdd(q, dm, now)
    case RecordEligibility(id, state, reason) => PlanEligibility(q, id, state, reason)
    case RecordExpired(id, reason) => PlanExpired(q, id, reason)
    case ClaimForService(id, peer, max) => PlanClaim(q, id, peer, max)
    case RemoveOnReceipt(r) => PlanDirect(q, r)
    case ReconcileReceipt(r) => PlanReconcile(q, r)
  }

  /** The stored queue after a call whose process lives to perform `survive` writes. */
  function QueueStep(q: Queue, op: QueueOp, survive: nat): Queue {
    var p := QueuePlanOf(q, op);
    if p.Store? && survive >= 1 then p.queue else q
  }

  function QueueOutcome(q: Queue, op: QueueOp, survive: nat): Outcome<QueueValue, QueueError> {
    match QueuePlanOf(q, op)
    case Reject(e) => Refused(e)
    case Keep(v) => Done(v)
    case Store(_, v) => if survive == 0 then Crashed else Done(v)
  }
}
