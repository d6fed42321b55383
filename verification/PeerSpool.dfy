/** The spool as the file-moving object its callers use. `survive` is the number of atomic
    writes the calling process lives to perform. */
module PeerSpool {
  import opened Common
  import opened PeerRecords
  import opened SpoolSpec

  class PeerSpool {
    var pending: map<string, Job>
    var running: map<string, Job>
    var claims: map<string, Claim>
    var outputs: map<(string, int), Output>
    var receipts: map<string, Receipt>

    function Files(): Disk
      reads this
    {
      Disk(pending, running, claims, outputs, receipts)
    }

    constructor ()
      ensures Files() == EMPTY
    {
      pending, running, claims, outputs, receipts := map[], map[], map[], map[], map[];
    }

    method Enqueue(job: Job, survive: nat) returns (r: Outcome<Value, SpoolError>)
      modifies this
      ensures Files() == Step(old(Files()), Op.Enqueue(job), survive)
      ensures r == OutcomeOf(old(Files()), Op.Enqueue(job), survive)
    {
      StepShape(Files(), Op.Enqueue(job), survive);
      var valid := ValidateJob(job);
      if valid.Err? {
        return Refused(Invalid(valid.error));
      }
      var directories := [pending, running];
      for k := 0 to 2
        invariant Files() == old(Files())
        invariant forall m :: 0 <= m < k ==> job.jobId !in directories[m]
      {
        if job.jobId in directories[k] {
          var existing := directories[k][job.jobId];
          var ok := ValidateJob(existing);
          assert PlanOf(Files(), Op.Enqueue(job)) == PlanExisting(existing, job) by {
            assert k == 1 ==> job.jobId !in directories[0];
          }
          if ok.Err? {
            return Refused(Invalid(ok.error));
          }
          if existing == job {
            return Done(JobValue(existing));
          }
          return Refused(JobExists);
        }
      }
      assert job.jobId !in directories[0] && job.jobId !in directories[1];
      if survive == 0 {
        return Crashed;
      }
      pending := pending[job.jobId := job];
      return Done(JobValue(job));
    }

    method Take(jobId: string, peer: string, now: real, survive: nat) returns (r: Outcome<Value, SpoolError>)
      modifies this
      ensures Files() == Step(old(Files()), TakeJob(jobId, peer, now), survive)
      ensures r == OutcomeOf(old(Files()), TakeJob(jobId, peer, now), survive)
    {
      StepShape(Files(), TakeJob(jobId, peer, now), survive);
      if !FilenameSafe(jobId) || !FilenameSafe(peer) {
        return Refused(Invalid(BadId));
      }
      if jobId !in pending {
        return Refused(MissingFile);
      }
      var job := pending[jobId];
      var valid := ValidateJob(job);
      if valid.Err? {
        return Refused(Invalid(valid.error));
      }
      if job.destinationPeer != peer {
        return Refused(WrongPeer);
      }
      var claim := NewClaim(jobId, peer, 1, now);
      if survive == 0 {
        return Crashed;
      }
      // The rename decides ownership; only its winner may write a claim.
      running, pending := running[jobId := job], pending - {jobId};
      if survive == 1 {
        return Crashed;
      }
      claims := claims[jobId := claim];
      return Done(ClaimValue(claim));
    }

    method Reclaim(jobId: string, peer: string, now: real, survive: nat) returns (r: Outcome<Value, SpoolError>)
      modifies this
      ensures Files() == Step(old(Files()), Op.Reclaim(jobId, peer, now), survive)
      ensures r == OutcomeOf(old(Files()), Op.Reclaim(jobId, peer, now), survive)
    {
      StepShape(Files(), Op.Reclaim(jobId, peer, now), survive);
      if !FilenameSafe(jobId) || !FilenameSafe(peer) {
        return Refused(Invalid(BadId));
      }
      if jobId in receipts {
        var check := CheckAccepted(Files(), receipts[jobId]);
        if check.Err? {
          return Refused(check.error);
        }
        return Refused(AlreadyReceipted);
      }
      if jobId !in running {
        return Refused(MissingFile);
      }
      var job := running[jobId];
      var valid := ValidateJob(job);
      if valid.Err? {
        return Refused(Invalid(valid.error));
      }
      if job.destinationPeer != peer {
        return Refused(WrongPeer);
      }
      var token := 1;
      if jobId in claims {
        var prior := claims[jobId];
        if prior.destinationPeer != peer {
          return Refused(WrongPeer);
        }
        if now < prior.leaseExpiresAt {
          return Refused(LeaseActive);
        }
        token := prior.fencingToken + 1;
      }
      if token < 1 {
        return Refused(BadToken);
      }
      var claim := NewClaim(jobId, peer, token, now);
      if survive == 0 {
        return Crashed;
      }
      claims := claims[jobId := claim];
      return Done(ClaimValue(claim));
    }

    method WriteOutput(jobId: string, peer: string, token: int, text: string, survive: nat)
      returns (r: Outcome<Value, SpoolError>)
      modifies this
      ensures Files() == Step(old(Files()), Op.WriteOutput(jobId, peer, token, text), survive)
      ensures r == OutcomeOf(old(Files()), Op.WriteOutput(jobId, peer, token, text), survive)
    {
      StepShape(Files(), Op.WriteOutput(jobId, peer, token, text), survive);
      if !FilenameSafe(jobId) || !FilenameSafe(peer) {
        return Refused(Invalid(BadId));
      }
      if token < 1 {
        return Refused(BadToken);
      }
      if jobId !in running || jobId !in claims {
        return Refused(MissingFile);
      }
      if !OwnsClaim(Files(), jobId, peer, token) {
        return Refused(StaleOrWrongPeer);
      }
      if (jobId, token) in outputs {
        return Refused(OutputExists);
      }
      var output := OutputRecord(running[jobId], jobId, peer, token, text);
      if survive == 0 {
        return Crashed;
      }
      outputs := outputs[(jobId, token) := output];
      return Done(OutputValue(output));
    }

    method ProduceReceipt(
      jobId: string, peer: string, token: int, text: string, sourceRef: SourceRef,
      payloadDigest: Digest, envelopeHash: Digest, survive: nat)
      returns (r: Outcome<Value, SpoolError>)
      modifies this
      ensures var op := Op.ProduceReceipt(jobId, peer, token, text, sourceRef, payloadDigest, envelopeHash);
        Files() == Step(old(Files()), op, survive) && r == OutcomeOf(old(Files()), op, survive)
    {
      StepShape(Files(), Op.ProduceReceipt(jobId, peer, token, text, sourceRef, payloadDigest, envelopeHash), survive);
      if !FilenameSafe(jobId) || !FilenameSafe(peer) {
        return Refused(Invalid(BadId));
      }
      if token < 1 {
        return Refused(BadToken);
      }
      if !ValidDigest(payloadDigest) || !ValidDigest(envelopeHash) {
        return Refused(Invalid(BadDigest));
      }
      if jobId !in running || jobId !in claims {
        return Refused(MissingFile);
      }
      if !OwnsClaim(Files(), jobId, peer, token) {
        return Refused(StaleOrWrongPeer);
      }
      var job := running[jobId];
      if !ValidSourceRef(sourceRef, job.sourceDmId) {
        return Refused(Invalid(BadSourceRef));
      }
      var valid := ValidateJob(job);
      if valid.Err? {
        return Refused(Invalid(valid.error));
      }
      if envelopeHash != OfJob(job) {
        return Refused(EnvelopeMismatch);
      }
      var receipt := Receipt(
        jobId, job.sourceDmId, peer, token, OfText(text), payloadDigest, envelopeHash, sourceRef);
      if jobId in receipts {
        var accepted := receipts[jobId];
        var check := CheckAccepted(Files(), accepted);
        if check.Err? {
          return Refused(check.error);
        }
        if accepted != receipt {
          return Refused(RetryMismatch);
        }
        return Done(ReceiptValue(accepted));
      }
      var output := OutputRecord(job, jobId, peer, token, text);
      var left := survive;
      if (jobId, token) in outputs {
        if outputs[(jobId, token)] != output {
          return Refused(OutputMismatch);
        }
      } else {
        if left == 0 {
          return Crashed;
        }
        outputs, left := outputs[(jobId, token) := output], left - 1;
      }
      if left == 0 {
        return Crashed;
      }
      receipts := receipts[jobId := receipt];
      return Done(ReceiptValue(receipt));
    }

    method AcceptReceipt(receipt: Receipt, survive: nat) returns (r: Outcome<Value, SpoolError>)
      modifies this
      ensures Files() == Step(old(Files()), Op.AcceptReceipt(receipt), survive)
      ensures r == OutcomeOf(old(Files()), Op.AcceptReceipt(receipt), survive)
    {
      StepShape(Files(), Op.AcceptReceipt(receipt), survive);
      var valid := ValidateReceipt(receipt);
      if valid.Err? {
        return Refused(Invalid(valid.error));
      }
      var id := receipt.jobId;
      if id !in claims || id !in running {
        return Refused(MissingFile);
      }
      if (claims[id].destinationPeer, claims[id].fencingToken) != (receipt.destinationPeer, receipt.fencingToken)
         || (running[id].destinationPeer, running[id].sourceDmId) != (receipt.destinationPeer, receipt.sourceDmId) {
        return Refused(StaleOrWrongPeer);
      }
      var ok := ValidateJob(running[id]);
      if ok.Err? {
        return Refused(Invalid(ok.error));
      }
      if receipt.envelopeDigest != OfJob(running[id]) {
        return Refused(EnvelopeMismatch);
      }
      if (id, receipt.fencingToken) !in outputs {
        return Refused(OutputMissing);
      }
      var o := outputs[(id, receipt.fencingToken)];
      if (o.sourceDmId, o.destinationPeer, o.fencingToken, o.outputDigest)
         != (receipt.sourceDmId, receipt.destinationPeer, receipt.fencingToken, receipt.outputDigest) {
        return Refused(OutputMismatch);
      }
      if id in receipts {
        return Refused(AlreadyReceipted);
      }
      if survive == 0 {
        return Crashed;
      }
      receipts := receipts[id := receipt];
      return Done(NoValue);
    }

    /** The running envelope, for the current owner of its claim only. */
    method ClaimedJob(jobId: string, peer: string, token: int) returns (r: Result<Job, SpoolError>)
      ensures r.Ok? <==>
        FilenameSafe(jobId) && FilenameSafe(peer) && token >= 1
        && OwnsClaim(Files(), jobId, peer, token) && ValidJob(running[jobId])
      ensures r.Ok? ==> r.value == running[jobId]
    {
      if !FilenameSafe(jobId) || !FilenameSafe(peer) {
        return Err(Invalid(BadId));
      }
      if token < 1 {
        return Err(BadToken);
      }
      if jobId !in running || jobId !in claims {
        return Err(MissingFile);
      }
      if !OwnsClaim(Files(), jobId, peer, token) {
        return Err(StaleOrWrongPeer);
      }
      var valid := ValidateJob(running[jobId]);
      if valid.Err? {
        return Err(Invalid(valid.error));
      }
      return Ok(running[jobId]);
    }
  }
}
