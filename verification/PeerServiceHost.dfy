/** One bounded service run: claim an envelope, obtain its payload, act, and receipt. */
module PeerServiceHost {
  import opened Common
  import opened PeerRecords
  import opened SpoolSpec
  import opened SpoolSafety
  import opened SpoolRuns
  import QueueSpec
  import HandOff
  import S = PeerSpool

  datatype PayloadRequest = PayloadRequest(
    jobId: string, peer: string, sourceDmId: int, queueClaimFence: int,
    serviceFencingToken: int, sourcePeer: Option<string>)

  datatype Payload = Payload(
    peer: string, sourceDmId: int, queueClaimFence: int, text: string, sourcePeer: Option<string>)

  datatype HostError = Spool(spoolError: SpoolError) | Envelope(recordError: RecordError)
                     | PayloadMismatch | PayloadOversized | OutputOversized

  function RequestFor(job: Job, jobId: string, ref: SourceRef, token: int): PayloadRequest {
    PayloadRequest(jobId, job.destinationPeer, job.sourceDmId, ref.queueClaimFence, token, ref.sourcePeer)
  }

  /** The payload belongs to the claimed envelope. */
  predicate PayloadMatches(p: Payload, r: PayloadRequest) {
    && p.peer == r.peer && p.sourceDmId == r.sourceDmId && p.queueClaimFence == r.queueClaimFence
    && (r.sourcePeer.Some? ==> p.sourcePeer == r.sourcePeer)
  }

  /** Everything a run needs from its environment to end in a receipt. `provide` and `handle`
      stand for the platform's payload provider and action handler. */
  ghost predicate Runnable(
    d: Disk, jobId: string, peer: string, provide: PayloadRequest -> Payload,
    handle: (PayloadRequest, string) -> string, maxPayload: nat, maxOutput: nat)
  {
    && jobId in d.pending && d.pending[jobId].destinationPeer == peer
    && SourceRefFromDeliveryRef(d.pending[jobId]).Ok?
    && var r := RequestFor(d.pending[jobId], jobId, SourceRefFromDeliveryRef(d.pending[jobId]).value, 1);
      && PayloadMatches(provide(r), r)
      && |provide(r).text| <= maxPayload
      && |handle(r, provide(r).text)| <= maxOutput
  }

  /** The receipt of a completed run binds the envelope, its provenance, the payload the
      provider supplied and the text the handler returned. */
  ghost predicate Binds(
    r: Receipt, job: Job, jobId: string, provide: PayloadRequest -> Payload,
    handle: (PayloadRequest, string) -> string)
  {
    && SourceRefFromDeliveryRef(job).Ok?
    && var ref := SourceRefFromDeliveryRef(job).value;
      var request := RequestFor(job, jobId, ref, 1);
      && r.jobId == jobId && r.sourceDmId == job.sourceDmId && r.destinationPeer == job.destinationPeer
      && r.fencingToken == 1 && r.sourceRef == ref && r.envelopeDigest == OfJob(job)
      && r.payloadDigest == OfText(provide(request).text)
      && r.outputDigest == OfText(handle(request, provide(request).text))
  }

  class PeerServiceHost {
    const spool: S.PeerSpool
    const peer: string
    const maxPayload: nat
    const maxOutput: nat

    constructor (spool: S.PeerSpool, peer: string, maxPayload: nat, maxOutput: nat)
      ensures this.spool == spool && this.peer == peer
      ensures this.maxPayload == maxPayload && this.maxOutput == maxOutput
    {
      this.spool, this.peer := spool, peer;
      this.maxPayload, this.maxOutput := maxPayload, maxOutput;
    }

    method ValidatePayload(p: Payload, r: PayloadRequest) returns (error: Option<HostError>)
      ensures var belongs := p.peer == r.peer && p.sourceDmId == r.sourceDmId && p.queueClaimFence == r.queueClaimFence
                             && (r.sourcePeer.None? || p.sourcePeer == r.sourcePeer);
        && (error.None? <==> belongs && |p.text| <= maxPayload)
        && (error == Some(PayloadMismatch) <==> !belongs) && (error == Some(PayloadOversized) <==> belongs && |p.text| > maxPayload)
      ensures error.None? <==> PayloadMatches(p, r) && |p.text| <= maxPayload
    {
      if (p.peer, p.sourceDmId, p.queueClaimFence) != (r.peer, r.sourceDmId, r.queueClaimFence) {
        return Some(PayloadMismatch);
      }
      if r.sourcePeer.Some? && p.sourcePeer != r.sourcePeer {
        return Some(PayloadMismatch);
      }
      if |p.text| > maxPayload {
        return Some(PayloadOversized);
      }
      return None;
    }

    /** A run that nobody interrupts ends in a receipt exactly when the envelope is claimable
        and decodes and the payload and output are acceptable; otherwise no receipt appears. */
    method Execute(
      jobId: string, now: real, provide: PayloadRequest -> Payload,
      handle: (PayloadRequest, string) -> string)
      returns (r: Result<Receipt, HostError>)
      requires Inv(spool.Files())
      modifies spool
      ensures Inv(spool.Files()) && Forward(old(spool.Files()), spool.Files())
      ensures r.Ok? <==> Runnable(old(spool.Files()), jobId, peer, provide, handle, maxPayload, maxOutput)
      ensures r.Ok? ==>
        && Binds(r.value, old(spool.pending)[jobId], jobId, provide, handle)
        && spool.receipts == old(spool.receipts)[jobId := r.value]
      ensures r.Err? ==> spool.receipts == old(spool.receipts)
    {
      var claimed := ClaimOwn(jobId, now);
      if claimed.Err? {
        return Err(Spool(claimed.error));
      }
      var job := claimed.value;
      var ref := SourceRefFromDeliveryRef(job);
      if ref.Err? {
        return Err(Envelope(ref.error));
      }
      var request := RequestFor(job, jobId, ref.value, 1);
      var payload := provide(request);
      var bad := ValidatePayload(payload, request);
      if bad.Some? {
        return Err(bad.value);
      }
      var text := handle(request, payload.text);
      if |text| > maxOutput {
        return Err(OutputOversized);
      }
      ghost var d := spool.Files();
      var receipt := Complete(jobId, ref.value, text, payload.text, job);
      ForwardTransitive(old(spool.Files()), d, spool.Files());
      return Ok(receipt);
    }

    /** Claims a pending envelope; nobody else can have taken the claim over yet, so it is still
        this worker's when it is read back. */
    method ClaimOwn(jobId: string, now: real) returns (r: Result<Job, SpoolError>)
      requires Inv(spool.Files())
      modifies spool
      ensures Inv(spool.Files()) && Forward(old(spool.Files()), spool.Files())
      ensures spool.receipts == old(spool.receipts)
      ensures r.Ok? <==> jobId in old(spool.pending) && old(spool.pending)[jobId].destinationPeer == peer
      ensures r.Ok? ==>
        && r.value == old(spool.pending)[jobId] && ValidJob(r.value)
        && OwnsClaim(spool.Files(), jobId, peer, 1) && spool.running[jobId] == r.value
        && jobId !in spool.receipts && (jobId, 1) !in spool.outputs
    {
      assert JobOk(spool.Files(), jobId);
      StepSafe(spool.Files(), TakeJob(jobId, peer, now), 2);
      StepShape(spool.Files(), TakeJob(jobId, peer, now), 2);
      var taken := spool.Take(jobId, peer, now, 2);
      if taken.Refused? {
        return Err(taken.error);
      }
      assert taken.Done? && taken.value.ClaimValue?;
      assert JobOk(spool.Files(), jobId);
      r := spool.ClaimedJob(jobId, peer, taken.value.claim.fencingToken);
    }

    /** Produces the receipt of a job this worker has claimed and validated. */
    method Complete(jobId: string, ref: SourceRef, text: string, payload: string, job: Job) returns (r: Receipt)
      requires Inv(spool.Files()) && OwnsClaim(spool.Files(), jobId, peer, 1) && spool.running[jobId] == job
      requires jobId !in spool.receipts && (jobId, 1) !in spool.outputs
      requires ValidSourceRef(ref, job.sourceDmId)
      modifies spool
      ensures Inv(spool.Files()) && Forward(old(spool.Files()), spool.Files())
      ensures r == Receipt(jobId, job.sourceDmId, peer, 1, OfText(text), OfText(payload), OfJob(job), ref)
      ensures spool.receipts == old(spool.receipts)[jobId := r]
    {
      var op := Op.ProduceReceipt(jobId, peer, 1, text, ref, OfText(payload), OfJob(job));
      assert JobOk(spool.Files(), jobId);
      FreshOwnerSucceeds(spool.Files(), jobId, peer, 1, text, ref, OfText(payload));
      StepSafe(spool.Files(), op, 2);
      StepShape(spool.Files(), op, 2);
      var produced := spool.ProduceReceipt(jobId, peer, 1, text, ref, OfText(payload), OfJob(job), 2);
      r := produced.value.receipt;
    }
  }

  /** The request for a staged envelope names the queue's own claim: its job, peer, DM, fence and
      sender. */
  lemma StagedRequestIs(claim: QueueSpec.QueueJob)
    requires ValidJob(HandOff.StagedEnvelope(claim)) && claim.sourceDmId >= 1 && claim.fencingToken >= 1
    requires FilenameSafe(claim.sourcePeer)
    ensures var job := HandOff.StagedEnvelope(claim);
      && SourceRefFromDeliveryRef(job).Ok?
      && RequestFor(job, claim.jobId, SourceRefFromDeliveryRef(job).value, 1)
         == PayloadRequest(claim.jobId, claim.destinationPeer, claim.sourceDmId, claim.fencingToken, 1, Some(claim.sourcePeer))
  {
  }

  /** A run that is overtaken while its provider or handler works cannot complete: whatever
      happened since its claim, its receipt is refused and the spool is left as it was. */
  lemma OvertakenRunIsRefused(
    before: seq<Event>, meanwhile: seq<Event>, jobId: string, peer: string, now: real,
    text: string, ref: SourceRef, payload: Digest, envelope: Digest, survive: nat)
    requires OutcomeOf(Run(EMPTY, before), TakeJob(jobId, peer, now), 2).Done?
    requires Token(Run(Step(Run(EMPTY, before), TakeJob(jobId, peer, now), 2), meanwhile), jobId) != 1
    ensures var d := Run(Step(Run(EMPTY, before), TakeJob(jobId, peer, now), 2), meanwhile);
      var op := ProduceReceipt(jobId, peer, 1, text, ref, payload, envelope);
      OutcomeOf(d, op, survive).Refused? && Step(d, op, survive) == d
  {
    var c := Run(EMPTY, before);
    RunSafe(EMPTY, before);
    StepSafe(c, TakeJob(jobId, peer, now), 2);
    StepShape(c, TakeJob(jobId, peer, now), 2);
    var e := Step(c, TakeJob(jobId, peer, now), 2);
    RunSafe(e, meanwhile);
    assert JobForward(e, Run(e, meanwhile), jobId);
  }
}
