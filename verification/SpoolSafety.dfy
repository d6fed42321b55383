/** Safety of the peer spool over every interleaving of workers, takeovers, retries and crashes. */
module SpoolSafety {
  import opened Common
  import opened PeerRecords
  import opened SpoolSpec

  // ---------------------------------------------------------------- the invariant

  /** What holds of one job's files in every reachable spool. */
  ghost predicate JobOk(d: Disk, j: string) {
    && (j in d.pending ==> d.pending[j].jobId == j && ValidJob(d.pending[j]) && j !in d.running)
    && (j in d.running ==> d.running[j].jobId == j && ValidJob(d.running[j]))
    && (j in d.claims ==> ClaimOk(d, j))
    && (forall t :: (j, t) in d.outputs ==> OutputOk(d, j, t))
    && (j in d.receipts ==> ReceiptOk(d, j))
  }

  ghost predicate ClaimOk(d: Disk, j: string)
    requires j in d.claims
  {
    && j in d.running
    && d.claims[j].jobId == j
    && d.claims[j].destinationPeer == d.running[j].destinationPeer
    && d.claims[j].fencingToken >= 1
  }

  ghost predicate OutputOk(d: Disk, j: string, t: int)
    requires (j, t) in d.outputs
  {
    && j in d.running && j in d.claims
    && 1 <= t <= d.claims[j].fencingToken
    && d.outputs[(j, t)] == OutputRecord(d.running[j], j, d.running[j].destinationPeer, t, d.outputs[(j, t)].text)
  }

  ghost predicate ReceiptOk(d: Disk, j: string)
    requires j in d.receipts
  {
    d.receipts[j].jobId == j && CheckAccepted(d, d.receipts[j]).Ok?
  }

  ghost predicate Inv(d: Disk) {
    forall j :: JobOk(d, j)
  }

  // ---------------------------------------------------------------- what a step may change

  /** The files of job `j` evolve only forwards. */
  ghost predicate JobForward(d: Disk, e: Disk, j: string) {
    && (j in d.pending ==> (j in e.pending && e.pending[j] == d.pending[j]) || (j in e.running && e.running[j] == d.pending[j]))
    && (j in d.running ==> j in e.running && e.running[j] == d.running[j])
    && (j in d.claims ==> j in e.claims && ClaimForward(d.claims[j], e.claims[j]))
    && (forall t :: (j, t) in d.outputs ==> (j, t) in e.outputs && e.outputs[(j, t)] == d.outputs[(j, t)])
    && (j in d.receipts && j in d.claims ==>
          j in e.receipts && e.receipts[j] == d.receipts[j] && j in e.claims && e.claims[j] == d.claims[j])
  }

  ghost predicate ClaimForward(c: Claim, c': Claim) {
    c == c' || c.fencingToken < c'.fencingToken
  }

  ghost predicate Forward(d: Disk, e: Disk) {
    forall j :: JobForward(d, e, j)
  }

  lemma ForwardTransitive(a: Disk, b: Disk, c: Disk)
    requires Forward(a, b) && Forward(b, c)
    requires Inv(a) && Inv(b)
    ensures Forward(a, c)
  {
    forall j ensures JobForward(a, c, j) {
      assert JobForward(a, b, j) && JobForward(b, c, j) && JobOk(a, j) && JobOk(b, j);
    }
  }

  // ---------------------------------------------------------------- one step

  function JobOf(op: Op): string {
    match op
    case Enqueue(job) => job.jobId
    case TakeJob(id, _, _) => id
    case Reclaim(id, _, _) => id
    case WriteOutput(id, _, _, _) => id
    case ProduceReceipt(id, _, _, _, _, _, _) => id
    case AcceptReceipt(r) => r.jobId
  }

  /** An operation touches only the files of the job whose lock it holds. */
  ghost predicate SameElsewhere(d: Disk, e: Disk, j: string) {
    forall k :: k != j ==> SameFiles(d, e, k)
  }

  ghost predicate SameFiles(d: Disk, e: Disk, k: string) {
    && (k in d.pending <==> k in e.pending) && (k in d.pending ==> e.pending[k] == d.pending[k])
    && (k in d.running <==> k in e.running) && (k in d.running ==> e.running[k] == d.running[k])
    && (k in d.claims <==> k in e.claims) && (k in d.claims ==> e.claims[k] == d.claims[k])
    && (forall t :: ((k, t) in d.outputs <==> (k, t) in e.outputs)
                 && ((k, t) in d.outputs ==> e.outputs[(k, t)] == d.outputs[(k, t)]))
    && (k in d.receipts <==> k in e.receipts) && (k in d.receipts ==> e.receipts[k] == d.receipts[k])
  }

  /** When a single atomic write is part of the protocol. */
  ghost predicate Enabled(d: Disk, w: Write) {
    match w
    case PutPending(job) => ValidJob(job) && job.jobId !in d.pending && job.jobId !in d.running
    case StartRunning(id) => id in d.pending
    case PutClaim(c) =>
      && c.jobId in d.running && c.jobId !in d.receipts
      && c.destinationPeer == d.running[c.jobId].destinationPeer
      && c.fencingToken == (if c.jobId in d.claims then d.claims[c.jobId].fencingToken + 1 else 1)
    case PutOutput(o) =>
      && OwnsClaim(d, o.jobId, o.destinationPeer, o.fencingToken)
      && (o.jobId, o.fencingToken) !in d.outputs
      && o == OutputRecord(d.running[o.jobId], o.jobId, o.destinationPeer, o.fencingToken, o.text)
    case PutReceipt(r) => r.jobId !in d.receipts && CheckAccepted(d, r).Ok?
  }

  function WriteJob(w: Write): string {
    match w
    case PutPending(job) => job.jobId
    case StartRunning(id) => id
    case PutClaim(c) => c.jobId
    case PutOutput(o) => o.jobId
    case PutReceipt(r) => r.jobId
  }

  lemma WriteFrame(d: Disk, w: Write)
    ensures SameElsewhere(d, Apply(d, w), WriteJob(w))
  {
  }

  lemma WriteOwnJob(d: Disk, w: Write)
    requires Inv(d) && Enabled(d, w)
    ensures JobOk(Apply(d, w), WriteJob(w)) && JobForward(d, Apply(d, w), WriteJob(w))
  {
    assert JobOk(d, WriteJob(w));
  }

  lemma SameFilesOk(d: Disk, e: Disk, k: string)
    requires JobOk(d, k) && SameFiles(d, e, k)
    ensures JobOk(e, k) && JobForward(d, e, k)
  {
  }

  lemma WriteSafe(d: Disk, w: Write)
    requires Inv(d) && Enabled(d, w)
    ensures Inv(Apply(d, w)) && Forward(d, Apply(d, w))
  {
    WriteFrame(d, w);
    WriteOwnJob(d, w);
    forall k ensures JobOk(Apply(d, w), k) && JobForward(d, Apply(d, w), k) {
      if k != WriteJob(w) {
        assert JobOk(d, k);
        SameFilesOk(d, Apply(d, w), k);
      }
    }
  }

  /** Each write of a plan is enabled in the state the earlier ones leave. */
  ghost predicate AllEnabled(d: Disk, ws: seq<Write>, j: string)
    decreases |ws|
  {
    ws == [] || (Enabled(d, ws[0]) && WriteJob(ws[0]) == j && AllEnabled(Apply(d, ws[0]), ws[1..], j))
  }

  lemma {:induction false} WritesSafe(d: Disk, ws: seq<Write>, j: string)
    requires Inv(d) && AllEnabled(d, ws, j)
    ensures Inv(ApplyAll(d, ws)) && Forward(d, ApplyAll(d, ws)) && SameElsewhere(d, ApplyAll(d, ws), j)
    decreases |ws|
  {
    if ws != [] {
      var e := Apply(d, ws[0]);
      WriteSafe(d, ws[0]);
      WriteFrame(d, ws[0]);
      WritesSafe(e, ws[1..], j);
      ForwardTransitive(d, e, ApplyAll(d, ws));
      forall k | k != j ensures SameFiles(d, ApplyAll(d, ws), k) {
        assert SameFiles(d, e, k) && SameFiles(e, ApplyAll(e, ws[1..]), k);
      }
    }
  }

  lemma PlanEnabled(d: Disk, op: Op, survive: nat)
    requires Inv(d)
    ensures AllEnabled(d, WritesOf(d, op, survive), JobOf(op))
  {
    var p := PlanOf(d, op);
    if p.Commit? && survive > 0 && p.writes != [] {
      PlanFirst(d, op);
      if survive > 1 && |p.writes| == 2 {
        PlanSecond(d, op);
        TwoEnabled(d, p.writes[0], p.writes[1], JobOf(op));
        assert p.writes[..2] == [p.writes[0], p.writes[1]];
      } else {
        assert p.writes[..1] == [p.writes[0]];
        assert [p.writes[0]][1..] == [];
      }
    }
  }

  lemma PlanFirst(d: Disk, op: Op)
    requires Inv(d) && PlanOf(d, op).Commit? && PlanOf(d, op).writes != []
    ensures |PlanOf(d, op).writes| <= 2
    ensures Enabled(d, PlanOf(d, op).writes[0]) && WriteJob(PlanOf(d, op).writes[0]) == JobOf(op)
  {
    assert JobOk(d, JobOf(op));
  }

  lemma PlanSecond(d: Disk, op: Op)
    requires Inv(d) && PlanOf(d, op).Commit? && |PlanOf(d, op).writes| == 2
    ensures var ws := PlanOf(d, op).writes;
      Enabled(Apply(d, ws[0]), ws[1]) && WriteJob(ws[1]) == JobOf(op)
  {
    assert JobOk(d, JobOf(op));
  }

  lemma TwoEnabled(d: Disk, w: Write, x: Write, j: string)
    requires Enabled(d, w) && WriteJob(w) == j && Enabled(Apply(d, w), x) && WriteJob(x) == j
    ensures AllEnabled(d, [w, x], j)
  {
    assert [w, x][1..] == [x] && [x][1..] == [];
    assert AllEnabled(Apply(d, w), [x], j);
  }

  lemma StepSafe(d: Disk, op: Op, survive: nat)
    requires Inv(d)
    ensures Inv(Step(d, op, survive)) && Forward(d, Step(d, op, survive))
    ensures SameElsewhere(d, Step(d, op, survive), JobOf(op))
  {
    PlanEnabled(d, op, survive);
    WritesSafe(d, WritesOf(d, op, survive), JobOf(op));
  }
}
