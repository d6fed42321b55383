/** What each peer-spool operation may do to the spool directories. An operation either
    refuses, or performs a fixed sequence of atomic file writes while it holds the job's
    lock; a crash leaves some prefix of those writes behind. */
module SpoolSpec {
  import opened Common
  import opened PeerRecords

  /** The five record directories, keyed by job id (outputs also by fencing token). */
  datatype Disk = Disk(
    pending: map<string, Job>,
    running: map<string, Job>,
    claims: map<string, Claim>,
    outputs: map<(string, int), Output>,
    receipts: map<string, Receipt>)

  const EMPTY: Disk := Disk(map[], map[], map[], map[], map[])

  datatype SpoolError =
    | Invalid(error: RecordError)
    | MissingFile
    | JobExists
    | WrongPeer
    | LeaseActive
    | AlreadyReceipted
    | BadToken
    | StaleOrWrongPeer
    | OutputExists
    | EnvelopeMismatch
    | RetryMismatch
    | OutputMismatch
    | OutputMissing
    | ReceiptStale

  /** One atomic change of the directories (`os.replace`). */
  datatype Write =
    | PutPending(job: Job)
    | StartRunning(jobId: string)
    | PutClaim(claim: Claim)
    | PutOutput(output: Output)
    | PutReceipt(receipt: Receipt)

  function Apply(d: Disk, w: Write): Disk {
    match w
    case PutPending(job) => d.(pending := d.pending[job.jobId := job])
    case StartRunning(id) =>
      if id in d.pending then d.(pending := d.pending - {id}, running := d.running[id := d.pending[id]]) else d
    case PutClaim(c) => d.(claims := d.claims[c.jobId := c])
    case PutOutput(o) => d.(outputs := d.outputs[(o.jobId, o.fencingToken) := o])
    case PutReceipt(r) => d.(receipts := d.receipts[r.jobId := r])
  }

  function ApplyAll(d: Disk, ws: seq<Write>): Disk
    decreases |ws|
  {
    if ws == [] then d else ApplyAll(Apply(d, ws[0]), ws[1..])
  }

  lemma ApplyAllOne(d: Disk, w: Write)
    ensures ApplyAll(d, [w]) == Apply(d, w)
  {
    assert [w][1..] == [];
  }

  lemma ApplyAllTwo(d: Disk, w: Write, x: Write)
    ensures ApplyAll(d, [w, x]) == Apply(Apply(d, w), x)
  {
    assert [w, x][1..] == [x];
    ApplyAllOne(Apply(d, w), x);
  }

  /** The calls a stager, a worker or a recovery process may make. */
  datatype Op =
    | Enqueue(job: Job)
    | TakeJob(jobId: string, peer: string, now: real)
    | Reclaim(jobId: string, peer: string, now: real)
    | WriteOutput(jobId: string, peer: string, token: int, text: string)
    | ProduceReceipt(
        jobId: string, peer: string, token: int, text: string,
        sourceRef: SourceRef, payloadDigest: Digest, envelopeHash: Digest)
    | AcceptReceipt(receipt: Receipt)

  datatype Value = JobValue(job: Job) | ClaimValue(claim: Claim) | OutputValue(output: Output)
                 | ReceiptValue(receipt: Receipt) | NoValue

  datatype Plan = Refuse(error: SpoolError) | Commit(writes: seq<Write>, value: Value)

  function NewClaim(jobId: string, peer: string, token: int, now: real): Claim {
    Claim(jobId, peer, token, now + LEASE_SECONDS)
  }

  function OutputRecord(job: Job, jobId: string, peer: string, token: int, text: string): Output {
    Output(jobId, job.sourceDmId, peer, token, text, OfText(text))
  }

  /** Whether `peer` holds the current claim of a running job under `token`. */
  predicate OwnsClaim(d: Disk, jobId: string, peer: string, token: int) {
    && jobId in d.running && jobId in d.claims
    && d.running[jobId].destinationPeer == peer
    && d.claims[jobId].destinationPeer == peer
    && d.claims[jobId].fencingToken == token
  }

  /** The revalidation every reader of a stored receipt performs. */
  function CheckAccepted(d: Disk, r: Receipt): Result<(), SpoolError> {
    if ValidateReceipt(r).Err? then Err(Invalid(ValidateReceipt(r).error))
    else if r.jobId !in d.running || r.jobId !in d.claims then Err(MissingFile)
    else
      var job := d.running[r.jobId];
      if job.destinationPeer != r.destinationPeer || job.sourceDmId != r.sourceDmId
         || d.claims[r.jobId].fencingToken != r.fencingToken then Err(ReceiptStale)
      else if ValidateJob(job).Err? then Err(Invalid(ValidateJob(job).error))
      else if r.envelopeDigest != OfJob(job) then Err(EnvelopeMismatch)
      else if (r.jobId, r.fencingToken) !in d.outputs then Err(OutputMissing)
      else if d.outputs[(r.jobId, r.fencingToken)].outputDigest != r.outputDigest then Err(OutputMismatch)
      else Ok(())
  }

  function PlanEnqueue(d: Disk, job: Job): Plan {
    if ValidateJob(job).Err? then Refuse(Invalid(ValidateJob(job).error))
    else if job.jobId in d.pending then PlanExisting(d.pending[job.jobId], job)
    else if job.jobId in d.running then PlanExisting(d.running[job.jobId], job)
    else Commit([PutPending(job)], JobValue(job))
  }

  function PlanExisting(existing: Job, job: Job): Plan {
    if ValidateJob(existing).Err? then Refuse(Invalid(ValidateJob(existing).error))
    else if existing == job then Commit([], JobValue(job))
    else Refuse(JobExists)
  }

  function PlanTake(d: Disk, jobId: string, peer: string, now: real): Plan {
    if !FilenameSafe(jobId) || !FilenameSafe(peer) then Refuse(Invalid(BadId))
    else if jobId !in d.pending then Refuse(MissingFile)
    else
      var job := d.pending[jobId];
      if ValidateJob(job).Err? then Refuse(Invalid(ValidateJob(job).error))
      else if job.destinationPeer != peer then Refuse(WrongPeer)
      else
        var claim := NewClaim(jobId, peer, 1, now);
        Commit([StartRunning(jobId), PutClaim(claim)], ClaimValue(claim))
  }

  function PlanReclaim(d: Disk, jobId: string, peer: string, now: real): Plan {
    if !FilenameSafe(jobId) || !FilenameSafe(peer) then Refuse(Invalid(BadId))
    else if jobId in d.receipts then
      (match CheckAccepted(d, d.receipts[jobId])
       case Err(e) => Refuse(e)
       case Ok(_) => Refuse(AlreadyReceipted))
    else if jobId !in d.running then Refuse(MissingFile)
    else
      var job := d.running[jobId];
      if ValidateJob(job).Err? then Refuse(Invalid(ValidateJob(job).error))
      else if job.destinationPeer != peer then Refuse(WrongPeer)
      else if jobId in d.claims && d.claims[jobId].destinationPeer != peer then Refuse(WrongPeer)
      else if jobId in d.claims && now < d.claims[jobId].leaseExpiresAt then Refuse(LeaseActive)
      else
        var token := if jobId in d.claims then d.claims[jobId].fencingToken + 1 else 1;
        if token < 1 then Refuse(BadToken)
        else
          var claim := NewClaim(jobId, peer, token, now);
          Commit([PutClaim(claim)], ClaimValue(claim))
  }

  function PlanOutput(d: Disk, jobId: string, peer: string, token: int, text: string): Plan {
    if !FilenameSafe(jobId) || !FilenameSafe(peer) then Refuse(Invalid(BadId))
    else if token < 1 then Refuse(BadToken)
    else if jobId !in d.running || jobId !in d.claims then Refuse(MissingFile)
    else if !OwnsClaim(d, jobId, peer, token) then Refuse(StaleOrWrongPeer)
    else if (jobId, token) in d.outputs then Refuse(OutputExists)
    else
      var output := OutputRecord(d.running[jobId], jobId, peer, token, text);
      Commit([PutOutput(output)], OutputValue(output))
  }

  function PlanProduce(
    d: Disk, jobId: string, peer: string, token: int, text: string,
    sourceRef: SourceRef, payloadDigest: Digest, envelopeHash: Digest): Plan
  {
    if !FilenameSafe(jobId) || !FilenameSafe(peer) then Refuse(Invalid(BadId))
    else if token < 1 then Refuse(BadToken)
    else if !ValidDigest(payloadDigest) || !ValidDigest(envelopeHash) then Refuse(Invalid(BadDigest))
    else if jobId !in d.running || jobId !in d.claims then Refuse(MissingFile)
    else if !OwnsClaim(d, jobId, peer, token) then Refuse(StaleOrWrongPeer)
    else
      var job := d.running[jobId];
      if !ValidSourceRef(sourceRef, job.sourceDmId) then Refuse(Invalid(BadSourceRef))
      else if ValidateJob(job).Err? then Refuse(Invalid(ValidateJob(job).error))
      else if envelopeHash != OfJob(job) then Refuse(EnvelopeMismatch)
      else
        var receipt := Receipt(
          jobId, job.sourceDmId, peer, token, OfText(text), payloadDigest, envelopeHash, sourceRef);
        var output := OutputRecord(job, jobId, peer, token, text);
        if jobId in d.receipts then
          if CheckAccepted(d, d.receipts[jobId]).Err? then Refuse(CheckAccepted(d, d.receipts[jobId]).error)
          else if d.receipts[jobId] != receipt then Refuse(RetryMismatch)
          else Commit([], ReceiptValue(receipt))
        else if (jobId, token) in d.outputs then
          if d.outputs[(jobId, token)] != output then Refuse(OutputMismatch)
          else Commit([PutReceipt(receipt)], ReceiptValue(receipt))
        else Commit([PutOutput(output), PutReceipt(receipt)], ReceiptValue(receipt))
  }

  function PlanAccept(d: Disk, r: Receipt): Plan {
    if ValidateReceipt(r).Err? then Refuse(Invalid(ValidateReceipt(r).error))
    else if r.jobId !in d.claims || r.jobId !in d.running then Refuse(MissingFile)
    else
      var claim, job := d.claims[r.jobId], d.running[r.jobId];
      if claim.destinationPeer != r.destinationPeer || claim.fencingToken != r.fencingToken
         || job.destinationPeer != r.destinationPeer || job.sourceDmId != r.sourceDmId
      then Refuse(StaleOrWrongPeer)
      else if ValidateJob(job).Err? then Refuse(Invalid(ValidateJob(job).error))
      else if r.envelopeDigest != OfJob(job) then Refuse(EnvelopeMismatch)
      else if (r.jobId, r.fencingToken) !in d.outputs then Refuse(OutputMissing)
      else
        var o := d.outputs[(r.jobId, r.fencingToken)];
        if o.sourceDmId != r.sourceDmId || o.destinationPeer != r.destinationPeer
           || o.fencingToken != r.fencingToken || o.outputDigest != r.outputDigest then Refuse(OutputMismatch)
        else if r.jobId in d.receipts then Refuse(AlreadyReceipted)
        else Commit([PutReceipt(r)], NoValue)
  }

  function PlanOf(d: Disk, op: Op): Plan {
    match op
    case Enqueue(job) => PlanEnqueue(d, job)
    case TakeJob(id, peer, now) => PlanTake(d, id, peer, now)
    case Reclaim(id, peer, now) => PlanReclaim(d, id, peer, now)
    case WriteOutput(id, peer, token, text) => PlanOutput(d, id, peer, token, text)
    case ProduceReceipt(id, peer, token, text, ref, payload, envelope) =>
      PlanProduce(d, id, peer, token, text, ref, payload, envelope)
    case AcceptReceipt(r) => PlanAccept(d, r)
  }

  /** The atomic writes a process performs when it survives at most `survive` of them. */
  function WritesOf(d: Disk, op: Op, survive: nat): seq<Write> {
    match PlanOf(d, op)
    case Refuse(_) => []
    case Commit(ws, _) => ws[..Min(survive, |ws|)]
  }

  function Step(d: Disk, op: Op, survive: nat): Disk {
    ApplyAll(d, WritesOf(d, op, survive))
  }

  /** A step spelled out by the number of writes its plan has. */
  lemma StepShape(d: Disk, op: Op, survive: nat)
    ensures PlanOf(d, op).Refuse? ==> Step(d, op, survive) == d
    ensures PlanOf(d, op).Commit? ==>
      var ws := PlanOf(d, op).writes;
      && |ws| <= 2
      && (ws == [] || survive == 0 ==> Step(d, op, survive) == d)
      && (|ws| == 1 && survive >= 1 ==> Step(d, op, survive) == Apply(d, ws[0]))
      && (|ws| == 2 && survive == 1 ==> Step(d, op, survive) == Apply(d, ws[0]))
      && (|ws| == 2 && survive >= 2 ==> Step(d, op, survive) == Apply(Apply(d, ws[0]), ws[1]))
  {
    if PlanOf(d, op).Commit? {
      var ws := PlanOf(d, op).writes;
      if |ws| == 1 {
        assert ws[..1] == [ws[0]];
        ApplyAllOne(d, ws[0]);
      } else if |ws| == 2 {
        assert ws[..1] == [ws[0]] && ws[..2] == [ws[0], ws[1]];
        ApplyAllOne(d, ws[0]);
        ApplyAllTwo(d, ws[0], ws[1]);
      }
    }
  }

  function OutcomeOf(d: Disk, op: Op, survive: nat): Outcome<Value, SpoolError> {
    match PlanOf(d, op)
    case Refuse(e) => Refused(e)
    case Commit(ws, v) => if survive < |ws| then Crashed else Done(v)
  }

  /** `PeerSpool.accepted_receipt`: absent, invalid, or the validated receipt. */
  function AcceptedReceipt(d: Disk, jobId: string): Result<Option<Receipt>, SpoolError> {
    if !FilenameSafe(jobId) then Err(Invalid(BadId))
    else if jobId !in d.receipts then Ok(None)
    else match CheckAccepted(d, d.receipts[jobId])
      case Err(e) => Err(e)
      case Ok(_) => Ok(Some(d.receipts[jobId]))
  }

  /** `PeerSpool.accepted_result`: the validated receipt with its publishable output. */
  function AcceptedResult(d: Disk, jobId: string): Result<Option<(Receipt, Output)>, SpoolError> {
    match AcceptedReceipt(d, jobId)
    case Err(e) => Err(e)
    case Ok(None) => Ok(None)
    case Ok(Some(r)) =>
      if (jobId, r.fencingToken) !in d.outputs then Err(MissingFile)
      else
        var o := d.outputs[(jobId, r.fencingToken)];
        if o.sourceDmId != r.sourceDmId || o.destinationPeer != r.destinationPeer
           || o.fencingToken != r.fencingToken || o.outputDigest != r.outputDigest then Err(OutputMismatch)
        else Ok(Some((r, o)))
  }
}
