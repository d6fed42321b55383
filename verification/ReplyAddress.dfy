/** Whom a reply reaches. The spool compares a receipt's provenance with the DM's id only, so its
    producer chooses the addressee; where every receipt carries its envelope's own provenance,
    each reply of a whole run goes to the sender the queue recorded. */
module ReplyAddress {
  import opened Common
  import opened PeerRecords
  import opened SpoolSpec
  import opened SpoolSafety
  import opened SpoolRuns
  import opened QueueSpec
  import opened QueueSafety
  import opened HandOff
  import opened HandOffSafety
  import opened StagingSafety
  import opened ReplyProtocol
  import opened ReplyOutbox

  // ---------------------------------------------------------------- one receipt

  /** The current owner of a claim may receipt under any sender, and the staged reply is then
      delivered there. */
  lemma ProducerChoosesAddressee(d: Disk, j: string, token: int, text: string, ref: SourceRef)
    requires Inv(d) && j in d.running && OwnsClaim(d, j, d.running[j].destinationPeer, token)
    requires j !in d.receipts && (j, token) !in d.outputs && !IsBlank(text)
    requires ValidSourceRef(ref, d.running[j].sourceDmId) && ref.sourcePeer.Some?
    ensures var op := ProduceReceipt(j, d.running[j].destinationPeer, token, text, ref, OfText(""), OfJob(d.running[j]));
      var e := Step(d, op, 2);
      && OutcomeOf(d, op, 2).Done? && StageReply(e, map[], j).Ok?
      && Addressee(e, StageReply(e, map[], j).value) == Ok(ref.sourcePeer.value)
  {
    var peer := d.running[j].destinationPeer;
    var op := ProduceReceipt(j, peer, token, text, ref, OfText(""), OfJob(d.running[j]));
    FreshOwnerSucceeds(d, j, peer, token, text, ref, OfText(""));
    StepSafe(d, op, 2);
    ReceiptIsStageable(Step(d, op, 2), j, text);
  }

  lemma ReceiptIsStageable(e: Disk, j: string, text: string)
    requires Inv(e) && j in e.receipts && e.receipts[j].outputDigest == OfText(text) && !IsBlank(text)
    requires e.receipts[j].sourceRef.sourcePeer.Some?
    ensures StageReply(e, map[], j).Ok?
    ensures Addressee(e, StageReply(e, map[], j).value) == Ok(e.receipts[j].sourceRef.sourcePeer.value)
  {
    assert JobOk(e, j);
    assert OutputOk(e, j, e.receipts[j].fencingToken);
  }

  /** A staged reply reaches the sender its envelope names exactly when the receipt names that
      sender too. */
  lemma ReplyReachesSenderExactlyWhen(d: Disk, pending: map<string, OutboxFile>, j: string)
    requires Inv(d) && StageReply(d, pending, j).Ok?
    requires j in d.running && SourceRefFromDeliveryRef(d.running[j]).Ok?
    ensures j in d.receipts && Addressee(d, StageReply(d, pending, j).value).Ok?
    ensures var sender := SourceRefFromDeliveryRef(d.running[j]).value.sourcePeer;
      Some(Addressee(d, StageReply(d, pending, j).value).value) == sender
      <==> d.receipts[j].sourceRef.sourcePeer == sender
  {
    StagedReplyIsDeliverable(d, pending, j);
  }

  const FROM_A: Job := Job(1, "dm-7", 7, "b", Canonical(SourceRef(7, 7, 1, Some("a"))))
  const AS_E: SourceRef := SourceRef(7, 7, 1, Some("e"))

  lemma FromAIsValid()
    ensures ValidJob(FROM_A) && SourceRefFromDeliveryRef(FROM_A) == Ok(SourceRef(7, 7, 1, Some("a")))
  {
    assert NatText(7) == [Digit(7)] && NatText(1) == [Digit(1)];
    assert JsonString("a") == JsonChar('a') + JsonString("a"[1..]);
    assert JsonChar('a') == "a";
    assert "a"[1..] == "";
  }

  /** Concretely: the envelope says the DM came from `a`, the receipt says `e`, and the reply goes
      to `e`. */
  lemma ForgedSenderIsAnswered()
    ensures var d := Step(Step(EMPTY, Enqueue(FROM_A), 1), TakeJob("dm-7", "b", 0.0), 2);
      var e := Step(d, ProduceReceipt("dm-7", "b", 1, "done", AS_E, OfText(""), OfJob(FROM_A)), 2);
      && "dm-7" in e.running && SourceRefFromDeliveryRef(e.running["dm-7"]) == Ok(SourceRef(7, 7, 1, Some("a")))
      && StageReply(e, map[], "dm-7").Ok? && Addressee(e, StageReply(e, map[], "dm-7").value) == Ok("e")
  {
    FromAIsValid();
    var c := Step(EMPTY, Enqueue(FROM_A), 1);
    StepSafe(EMPTY, Enqueue(FROM_A), 1);
    StepShape(EMPTY, Enqueue(FROM_A), 1);
    var take := TakeJob("dm-7", "b", 0.0);
    StepSafe(c, take, 2);
    StepShape(c, take, 2);
    ForgeryFrom(Step(c, take, 2));
  }

  lemma ForgeryFrom(d: Disk)
    requires Inv(d) && OwnsClaim(d, "dm-7", "b", 1) && d.running["dm-7"] == FROM_A
    requires "dm-7" !in d.receipts && ("dm-7", 1) !in d.outputs
    ensures var e := Step(d, ProduceReceipt("dm-7", "b", 1, "done", AS_E, OfText(""), OfJob(FROM_A)), 2);
      && "dm-7" in e.running && e.running["dm-7"] == FROM_A
      && StageReply(e, map[], "dm-7").Ok? && Addressee(e, StageReply(e, map[], "dm-7").value) == Ok("e")
  {
    assert "done"[0] == 'd' && !IsSpace('d');
    ProducerChoosesAddressee(d, "dm-7", 1, "done", AS_E);
    var op := ProduceReceipt("dm-7", "b", 1, "done", AS_E, OfText(""), OfJob(FROM_A));
    StepSafe(d, op, 2);
    assert JobForward(d, Step(d, op, 2), "dm-7");
  }

  // ---------------------------------------------------------------- queue, spool and outbox together

  /** All stores of the hand-off and its reply, and the queue entries staged so far. */
  datatype Chain = Chain(queue: Queue, reply: ReplyWorld, staged: seq<Entry>)

  const EMPTY_CHAIN: Chain := Chain(EMPTY_QUEUE, EMPTY_REPLY, [])

  datatype ChainOp =
    | QueueDoes(queueOp: QueueOp, survive: nat)
    | Stages(dmId: int, peer: string, maxActive: int, survive: nat)
    | Reconciles(jobId: string, survive: nat)
    | Replies(action: Action)

  function ChainStep(c: Chain, op: ChainOp): Chain {
    match op
    case QueueDoes(q, survive) => c.(queue := QueueStep(c.queue, q, survive))
    case Reconciles(j, survive) => c.(queue := ReconcileStep(World(c.queue, c.reply.spool), j, survive).queue)
    case Replies(a) => c.(reply := Act(c.reply, a))
    case Stages(dm, peer, max, survive) =>
      var w := World(c.queue, c.reply.spool);
      var x := StageStep(w, dm, peer, max, survive);
      var done := StageOutcome(w, dm, peer, max, survive);
      Chain(x.queue, c.reply.(spool := x.spool),
            if done.Done? && done.value.Some? && IsPending(x.queue, dm) then c.staged + [EntryOf(x.queue, dm)] else c.staged)
  }

  /** Envelopes come from the stager, and a receipt carries the provenance its envelope decodes
      to, as a service run's does. */
  predicate Honest(c: Chain, op: ChainOp) {
    op.Replies? && op.action.SpoolAction? ==>
      var d := c.reply.spool;
      match op.action.op
      case Enqueue(_) => false
      case ProduceReceipt(j, _, _, _, ref, _, _) => j in d.running ==> SourceRefFromDeliveryRef(d.running[j]) == Ok(ref)
      case AcceptReceipt(r) => r.jobId in d.running ==> SourceRefFromDeliveryRef(d.running[r.jobId]) == Ok(r.sourceRef)
      case _ => true
  }

  function ChainRun(c: Chain, ops: seq<ChainOp>): Chain
    decreases |ops|
  {
    if ops == [] then c else ChainRun(ChainStep(c, ops[0]), ops[1..])
  }

  predicate HonestRun(c: Chain, ops: seq<ChainOp>)
    decreases |ops|
  {
    ops == [] || (Honest(c, ops[0]) && HonestRun(ChainStep(c, ops[0]), ops[1..]))
  }

  // ---------------------------------------------------------------- the invariant

  /** A staged entry and the envelope made of its claim. */
  ghost predicate Explains(e: Entry, job: Job) {
    && e.job.Some? && job == StagedEnvelope(e.job.value) && job.jobId == JobIdOf(e.id)
    && e.from == Some(e.job.value.sourcePeer)
  }

  ghost predicate IsExplained(staged: seq<Entry>, job: Job) {
    exists k :: 0 <= k < |staged| && Explains(staged[k], job)
  }

  /** Every envelope in the spool was staged, and every staged envelope is in the spool. */
  ghost predicate EnvelopesTell(d: Disk, staged: seq<Entry>) {
    && (forall j :: j in d.pending ==> IsExplained(staged, d.pending[j]))
    && (forall j :: j in d.running ==> IsExplained(staged, d.running[j]))
    && (forall k :: 0 <= k < |staged| ==>
          staged[k].job.Some? && Explains(staged[k], StagedEnvelope(staged[k].job.value))
          && HasEnvelope(d, StagedEnvelope(staged[k].job.value)))
  }

  /** Every receipt carries its envelope's own provenance. */
  ghost predicate ReceiptsTell(d: Disk) {
    forall j :: j in d.receipts ==> j in d.running && SourceRefFromDeliveryRef(d.running[j]) == Ok(d.receipts[j].sourceRef)
  }

  ghost predicate ChainInv(c: Chain) {
    && QueueInv(c.queue) && ReplyInv(c.reply)
    && EnvelopesTell(c.reply.spool, c.staged) && ReceiptsTell(c.reply.spool)
  }

  // ---------------------------------------------------------------- spool steps

  /** Neither a new envelope nor a receipt of other provenance than its envelope's. */
  ghost predicate HonestWrite(d: Disk, w: Write) {
    !w.PutPending? && (w.PutReceipt? ==> Carries(d, w.receipt))
  }

  ghost predicate Carries(d: Disk, r: Receipt) {
    r.jobId in d.running && SourceRefFromDeliveryRef(d.running[r.jobId]) == Ok(r.sourceRef)
  }

  /** Every envelope of `e` was one of `d`. */
  ghost predicate SameEnvelopes(d: Disk, e: Disk) {
    && (forall j :: j in e.pending ==> j in d.pending && e.pending[j] == d.pending[j])
    && (forall j :: j in e.running ==>
          (j in d.running && e.running[j] == d.running[j]) || (j in d.pending && e.running[j] == d.pending[j]))
  }

  lemma WriteAddsNoEnvelope(d: Disk, w: Write)
    requires !w.PutPending?
    ensures SameEnvelopes(d, Apply(d, w))
  {
  }

  lemma EnvelopesStillTell(d: Disk, e: Disk, staged: seq<Entry>)
    requires EnvelopesTell(d, staged) && SameEnvelopes(d, e) && Forward(d, e)
    ensures EnvelopesTell(e, staged)
  {
    forall k | 0 <= k < |staged| ensures HasEnvelope(e, StagedEnvelope(staged[k].job.value)) {
      var job := StagedEnvelope(staged[k].job.value);
      assert HasEnvelope(d, job) && JobForward(d, e, job.jobId);
    }
  }

  lemma ReceiptsStillTell(d: Disk, w: Write)
    requires Inv(d) && HonestWrite(d, w) && ReceiptsTell(d)
    ensures ReceiptsTell(Apply(d, w))
  {
    if w.StartRunning? {
      assert JobOk(d, w.jobId);
    }
  }

  lemma WriteTells(d: Disk, w: Write, staged: seq<Entry>)
    requires Inv(d) && Enabled(d, w) && HonestWrite(d, w) && EnvelopesTell(d, staged) && ReceiptsTell(d)
    ensures EnvelopesTell(Apply(d, w), staged) && ReceiptsTell(Apply(d, w))
  {
    WriteSafe(d, w);
    WriteAddsNoEnvelope(d, w);
    EnvelopesStillTell(d, Apply(d, w), staged);
    ReceiptsStillTell(d, w);
  }

  lemma {:induction false} WritesTell(d: Disk, ws: seq<Write>, j: string, staged: seq<Entry>)
    requires Inv(d) && AllEnabled(d, ws, j) && EnvelopesTell(d, staged) && ReceiptsTell(d)
    requires forall k :: 0 <= k < |ws| ==> HonestWrite(d, ws[k])
    ensures EnvelopesTell(ApplyAll(d, ws), staged) && ReceiptsTell(ApplyAll(d, ws))
    decreases |ws|
  {
    if ws != [] {
      var e := Apply(d, ws[0]);
      WriteSafe(d, ws[0]);
      WriteTells(d, ws[0], staged);
      forall k | 0 <= k < |ws[1..]| ensures HonestWrite(e, ws[1..][k]) {
        assert HonestWrite(d, ws[k + 1]) && ws[1..][k] == ws[k + 1];
        if ws[k + 1].PutReceipt? {
          assert JobForward(d, e, ws[k + 1].receipt.jobId);
        }
      }
      WritesTell(e, ws[1..], j, staged);
    }
  }

  lemma HonestWrites(c: Chain, op: Op, survive: nat)
    requires Inv(c.reply.spool) && Honest(c, Replies(SpoolAction(op, survive)))
    ensures var ws := WritesOf(c.reply.spool, op, survive);
      forall k :: 0 <= k < |ws| ==> HonestWrite(c.reply.spool, ws[k])
  {
    match op {
      case ProduceReceipt(j, _, _, _, _, _, _) => assert JobOk(c.reply.spool, j);
      case _ =>
    }
  }

  lemma SpoolActionTells(c: Chain, op: Op, survive: nat)
    requires ChainInv(c) && Honest(c, Replies(SpoolAction(op, survive)))
    ensures ChainInv(ChainStep(c, Replies(SpoolAction(op, survive))))
  {
    SpoolActionSafe(c.reply, op, survive);
    HonestWrites(c, op, survive);
    PlanEnabled(c.reply.spool, op, survive);
    WritesTell(c.reply.spool, WritesOf(c.reply.spool, op, survive), JobOf(op), c.staged);
  }

  // ---------------------------------------------------------------- staging

  lemma HeldStays(d: Disk, op: Op, survive: nat, job: Job)
    requires Inv(d) && HasEnvelope(d, job)
    ensures HasEnvelope(Step(d, op, survive), job)
  {
    StepSafe(d, op, survive);
    assert JobForward(d, Step(d, op, survive), job.jobId);
  }

  /** An enqueue adds the one envelope, or nothing. */
  lemma EnqueueAdds(d: Disk, job: Job, survive: nat)
    requires Inv(d)
    ensures var e := Step(d, Enqueue(job), survive);
      && (forall j :: j in e.pending ==> e.pending[j] == job || (j in d.pending && e.pending[j] == d.pending[j]))
      && e.running == d.running && e.receipts == d.receipts
      && (e != d ==> OutcomeOf(d, Enqueue(job), survive).Done?)
      && (OutcomeOf(d, Enqueue(job), survive).Done? ==> HasEnvelope(e, job))
  {
    StepShape(d, Enqueue(job), survive);
  }

  lemma MoreStaged(staged: seq<Entry>, e: Entry, job: Job)
    ensures IsExplained(staged, job) ==> IsExplained(staged + [e], job)
    ensures Explains(e, job) ==> IsExplained(staged + [e], job)
  {
    if IsExplained(staged, job) {
      var k :| 0 <= k < |staged| && Explains(staged[k], job);
      assert Explains((staged + [e])[k], job);
    }
    assert (staged + [e])[|staged|] == e;
  }

  lemma EnqueueTells(d: Disk, staged: seq<Entry>, entry: Entry, job: Job, survive: nat)
    requires Inv(d) && EnvelopesTell(d, staged) && ReceiptsTell(d)
    requires Explains(entry, job) && OutcomeOf(d, Enqueue(job), survive).Done?
    ensures EnvelopesTell(Step(d, Enqueue(job), survive), staged + [entry]) && ReceiptsTell(Step(d, Enqueue(job), survive))
  {
    var e, all := Step(d, Enqueue(job), survive), staged + [entry];
    EnqueueAdds(d, job, survive);
    forall j | j in e.pending ensures IsExplained(all, e.pending[j]) {
      MoreStaged(staged, entry, e.pending[j]);
    }
    forall j | j in e.running ensures IsExplained(all, e.running[j]) {
      MoreStaged(staged, entry, e.running[j]);
    }
    forall k | 0 <= k < |all|
      ensures all[k].job.Some? && Explains(all[k], StagedEnvelope(all[k].job.value)) && HasEnvelope(e, StagedEnvelope(all[k].job.value))
    {
      if k < |staged| {
        HeldStays(d, Enqueue(job), survive, StagedEnvelope(staged[k].job.value));
      }
    }
  }

  /** What a stage call does to the spool, and whose entry it stages. */
  ghost predicate StageDid(w: World, dm: int, x: World, o: Outcome<Option<Job>, HandOffError>) {
    if o.Done? && o.value.Some? then
      && IsPending(x.queue, dm) && Explains(EntryOf(x.queue, dm), o.value.value)
      && exists left: nat :: Enqueued(w.spool, o.value.value, left, x.spool)
    else x.spool == w.spool
  }

  ghost predicate Enqueued(d: Disk, job: Job, left: nat, e: Disk) {
    e == Step(d, Enqueue(job), left) && OutcomeOf(d, Enqueue(job), left).Done?
  }

  lemma StageEffect(w: World, dm: int, peer: string, max: int, survive: nat)
    requires QueueInv(w.queue) && Inv(w.spool)
    ensures StageDid(w, dm, StageStep(w, dm, peer, max, survive), StageOutcome(w, dm, peer, max, survive))
  {
    var op := ClaimForService(dm, peer, max);
    var q := QueueOutcome(w.queue, op, survive);
    if q.Done? && q.value.ClaimedJob? {
      ClaimPersists(w.queue, dm, peer, max, survive, q.value.job);
      var left := if QueuePlanOf(w.queue, op).Store? then survive - 1 else survive;
      StageOfGranted(w, dm, peer, max, survive, q.value.job, left);
    }
  }

  lemma StageOfGranted(w: World, dm: int, peer: string, max: int, survive: nat, claim: QueueJob, left: nat)
    requires Inv(w.spool)
    requires var op := ClaimForService(dm, peer, max);
      && QueueOutcome(w.queue, op, survive) == Done(ClaimedJob(claim))
      && left == (if QueuePlanOf(w.queue, op).Store? then survive - 1 else survive)
      && IsPending(QueueStep(w.queue, op, survive), dm)
      && Explains(EntryOf(QueueStep(w.queue, op, survive), dm), StagedEnvelope(claim))
    ensures StageDid(w, dm, StageStep(w, dm, peer, max, survive), StageOutcome(w, dm, peer, max, survive))
  {
    var job, x := StagedEnvelope(claim), StageStep(w, dm, peer, max, survive);
    EnqueueAdds(w.spool, job, left);
    assert x.spool == Step(w.spool, Enqueue(job), left);
    if OutcomeOf(w.spool, Enqueue(job), left).Done? {
      assert Enqueued(w.spool, job, left, x.spool);
    }
  }

  lemma ClaimPersists(q: Queue, dm: int, peer: string, max: int, survive: nat, claim: QueueJob)
    requires QueueInv(q) && QueueOutcome(q, ClaimForService(dm, peer, max), survive) == Done(ClaimedJob(claim))
    ensures var r := QueueStep(q, ClaimForService(dm, peer, max), survive);
      IsPending(r, dm) && Explains(EntryOf(r, dm), StagedEnvelope(claim))
  {
    assert QueueOutcome(q, ClaimForService(dm, peer, max), 1) == Done(ClaimedJob(claim));
    ClaimIsRepeatable(q, dm, peer, max, claim);
    QueueStepSafe(q, ClaimForService(dm, peer, max), survive);
    var r := QueueStep(q, ClaimForService(dm, peer, max), survive);
    assert r == QueueStep(q, ClaimForService(dm, peer, max), 1);
    assert EntryOk(EntryOf(r, dm));
  }

  lemma StagesTells(c: Chain, dm: int, peer: string, max: int, survive: nat)
    requires ChainInv(c)
    ensures ChainInv(ChainStep(c, Stages(dm, peer, max, survive)))
  {
    var w := World(c.queue, c.reply.spool);
    var o, x := StageOutcome(w, dm, peer, max, survive), StageStep(w, dm, peer, max, survive);
    QueueStepSafe(c.queue, ClaimForService(dm, peer, max), survive);
    StageEffect(w, dm, peer, max, survive);
    if o.Done? && o.value.Some? {
      var left: nat :| Enqueued(w.spool, o.value.value, left, x.spool);
      SpoolActionSafe(c.reply, Enqueue(o.value.value), left);
      EnqueueTells(w.spool, c.staged, EntryOf(x.queue, dm), o.value.value, left);
    } else {
      assert c.reply.(spool := x.spool) == c.reply;
    }
  }

  // ---------------------------------------------------------------- runs

  lemma ChainStepSafe(c: Chain, op: ChainOp)
    requires ChainInv(c) && Honest(c, op)
    ensures ChainInv(ChainStep(c, op))
  {
    match op {
      case QueueDoes(q, survive) => QueueStepSafe(c.queue, q, survive);
      case Reconciles(j, survive) => ReconcileKeepsQueue(World(c.queue, c.reply.spool), j, survive);
      case Stages(dm, peer, max, survive) => StagesTells(c, dm, peer, max, survive);
      case Replies(a) =>
        if a.SpoolAction? {
          SpoolActionTells(c, a.op, a.survive);
        } else {
          ActSafe(c.reply, a);
          SpoolUntouched(c.reply, a);
        }
    }
  }

  lemma ReconcileKeepsQueue(w: World, j: string, survive: nat)
    requires QueueInv(w.queue)
    ensures QueueInv(ReconcileStep(w, j, survive).queue)
  {
    var a := AcceptedReceipt(w.spool, j);
    if a.Ok? && a.value.Some? {
      QueueStepSafe(w.queue, ReconcileReceipt(a.value.value), survive);
    }
  }

  lemma SpoolUntouched(w: ReplyWorld, a: Action)
    requires !a.SpoolAction?
    ensures Act(w, a).spool == w.spool
  {
  }

  lemma {:induction false} ChainRunSafe(c: Chain, ops: seq<ChainOp>)
    requires ChainInv(c) && HonestRun(c, ops)
    ensures ChainInv(ChainRun(c, ops))
    decreases |ops|
  {
    if ops != [] {
      ChainStepSafe(c, ops[0]);
      ChainRunSafe(ChainStep(c, ops[0]), ops[1..]);
    }
  }

  /** In every honest run, whatever crashes, retries, interleavings and outbox files it has, each
      reply goes to the sender of the queue entry that was staged for its job: one was, and every
      one that was had that sender. */
  lemma RepliesGoToTheSender(ops: seq<ChainOp>, i: nat)
    requires HonestRun(EMPTY_CHAIN, ops)
    requires i < |ChainRun(EMPTY_CHAIN, ops).reply.marks| && ChainRun(EMPTY_CHAIN, ops).reply.marks[i].Sent?
    ensures var c := ChainRun(EMPTY_CHAIN, ops); var m := c.reply.marks[i];
      && m.key.OfReply?
      && (exists k :: 0 <= k < |c.staged| && JobIdOf(c.staged[k].id) == m.key.reply.jobId)
      && (forall k :: 0 <= k < |c.staged| && JobIdOf(c.staged[k].id) == m.key.reply.jobId ==>
            c.staged[k].from == Some(m.destination))
  {
    var c := ChainRun(EMPTY_CHAIN, ops);
    ChainRunSafe(EMPTY_CHAIN, ops);
    assert Justified(c.reply.spool, c.reply.marks[i]);
    SenderOfReceipt(c.reply.spool, c.staged, c.reply.marks[i].key.reply.jobId);
  }

  lemma SenderOfReceipt(d: Disk, staged: seq<Entry>, j: string)
    requires Inv(d) && EnvelopesTell(d, staged) && ReceiptsTell(d) && j in d.receipts
    ensures exists k :: 0 <= k < |staged| && JobIdOf(staged[k].id) == j
    ensures forall k :: 0 <= k < |staged| && JobIdOf(staged[k].id) == j ==> staged[k].from == d.receipts[j].sourceRef.sourcePeer
  {
    assert JobOk(d, j);
    var k :| 0 <= k < |staged| && Explains(staged[k], d.running[j]);
    assert JobIdOf(staged[k].id) == j;
    forall k | 0 <= k < |staged| && JobIdOf(staged[k].id) == j
      ensures staged[k].from == d.receipts[j].sourceRef.sourcePeer
    {
      assert Explains(staged[k], StagedEnvelope(staged[k].job.value));
      assert d.running[j] == StagedEnvelope(staged[k].job.value);
    }
  }
}
