/** When each call of the delivery queue succeeds, and what it leaves, in any queue a run can
    reach. */
module QueueAnswers {
  import opened Common
  import opened PeerRecords
  import opened QueueSpec
  import opened QueueSafety

  /** Where the entry of a DM stands. */
  ghost predicate IsAt(p: seq<Entry>, k: int, id: int) {
    0 <= k < |p| && p[k].id == id
  }

  lemma IndexIs(q: Queue, k: int, id: int)
    requires QueueInv(q) && IsAt(q.pending, k, id)
    ensures IndexOf(q.pending, id) == k
  {
  }

  ghost predicate IsKnown(q: Queue, id: int) {
    exists k :: IsAt(q.pending, k, id)
  }

  lemma NoIndex(q: Queue, id: int)
    requires !IsKnown(q, id)
    ensures IndexOf(q.pending, id) == |q.pending|
  {
    assert !IsAt(q.pending, IndexOf(q.pending, id), id);
  }

  /** The queue after entry `k` becomes `e`. */
  function With(q: Queue, k: int, e: Entry): Queue
    requires 0 <= k < |q.pending|
  {
    q.(pending := q.pending[k := e])
  }

  // ---------------------------------------------------------------- enqueueing and policy

  /** A new DM goes to the end, owed, unassigned and awaiting policy; a known one changes nothing. */
  lemma EnqueueAnswers(evs: seq<QueueEvent>, dm: Dm, now: real)
    ensures var q, op := QueueRun(EMPTY_QUEUE, evs), AddDm(dm, now);
      && QueueOutcome(q, op, 1) == Done(Nothing) && QueueStep(q, op, 0) == q
      && QueueStep(q, op, 1) == if IsKnown(q, dm.id) then q else
           q.(pending := q.pending + [Entry(dm.id, dm.fromNode, dm.content, now, CannotEvaluate, "awaiting policy evaluation",
                                            OwedCannotEvaluate, Unassigned, None, None, None)])
  {
    QueueRunSafe(EMPTY_QUEUE, evs);
    var q := QueueRun(EMPTY_QUEUE, evs);
    if k :| IsAt(q.pending, k, dm.id) {
      IndexIs(q, k, dm.id);
    } else {
      NoIndex(q, dm.id);
    }
  }

  /** A verdict is taken exactly for a known DM, one of the three states and a reason, and sets what
      is owed accordingly, whatever the service state. */
  lemma EligibilityAnswers(evs: seq<QueueEvent>, id: int, state: string, reason: string, k: int)
    ensures var q, op := QueueRun(EMPTY_QUEUE, evs), RecordEligibility(id, state, reason);
      && (QueueOutcome(q, op, 1) == Done(Nothing)
          <==> state in {"eligible", "ineligible", "cannot_evaluate"} && reason != "" && IsKnown(q, id))
      && (QueueOutcome(q, op, 1) != Done(Nothing) ==> QueueOutcome(q, op, 1).Refused? && QueueStep(q, op, 1) == q)
      && (QueueOutcome(q, op, 1) == Done(Nothing) && IsAt(q.pending, k, id) ==>
            QueueStep(q, op, 1) == With(q, k, q.pending[k].(
              eligibility := if state == "eligible" then Eligible else if state == "ineligible" then Ineligible else CannotEvaluate,
              reason := reason,
              obligation := if state == "eligible" then Owed else if state == "ineligible" then OwedIneligible
                            else OwedCannotEvaluate)))
  {
    QueueRunSafe(EMPTY_QUEUE, evs);
    var q := QueueRun(EMPTY_QUEUE, evs);
    if IsAt(q.pending, k, id) {
      IndexIs(q, k, id);
    }
    if m :| IsAt(q.pending, m, id) {
      IndexIs(q, m, id);
    } else {
      NoIndex(q, id);
    }
  }

  /** A DM expires exactly when it is known, not claimed, and a reason is given. */
  lemma ExpiryAnswers(evs: seq<QueueEvent>, id: int, reason: string, k: int)
    ensures var q, op := QueueRun(EMPTY_QUEUE, evs), RecordExpired(id, reason);
      && (QueueOutcome(q, op, 1) == Done(Nothing)
          <==> reason != "" && exists m :: IsAt(q.pending, m, id) && q.pending[m].service != Claimed)
      && (QueueOutcome(q, op, 1) != Done(Nothing) ==> QueueOutcome(q, op, 1).Refused? && QueueStep(q, op, 1) == q)
      && (QueueOutcome(q, op, 1) == Done(Nothing) && IsAt(q.pending, k, id) ==>
            QueueStep(q, op, 1) == With(q, k, q.pending[k].(obligation := Expired, expiryReason := Some(reason))))
  {
    QueueRunSafe(EMPTY_QUEUE, evs);
    var q := QueueRun(EMPTY_QUEUE, evs);
    if m :| IsAt(q.pending, m, id) {
      ExpiryAt(q, id, reason, m);
    } else {
      NoIndex(q, id);
    }
    if IsAt(q.pending, k, id) {
      ExpiryAt(q, id, reason, k);
    }
  }

  lemma ExpiryAt(q: Queue, id: int, reason: string, k: int)
    requires QueueInv(q) && IsAt(q.pending, k, id)
    ensures var op := RecordExpired(id, reason);
      && (reason != "" && q.pending[k].service != Claimed <==> QueueOutcome(q, op, 1) == Done(Nothing))
      && (QueueOutcome(q, op, 1) != Done(Nothing) ==> QueueOutcome(q, op, 1).Refused? && QueueStep(q, op, 1) == q)
      && (QueueOutcome(q, op, 1) == Done(Nothing) ==>
            QueueStep(q, op, 1) == With(q, k, q.pending[k].(obligation := Expired, expiryReason := Some(reason))))
      && forall m :: IsAt(q.pending, m, id) ==> m == k
  {
    IndexIs(q, k, id);
  }

  // ---------------------------------------------------------------- claiming

  ghost function ClaimedAt(p: seq<Entry>): set<int> {
    set k | 0 <= k < |p| && p[k].service == Claimed
  }

  lemma {:induction false} ActiveAreClaimed(p: seq<Entry>)
    ensures ActiveClaims(p) == |ClaimedAt(p)|
    decreases |p|
  {
    if p != [] {
      var n := |p| - 1;
      assert p == p[..n] + [p[n]];
      ActiveOfConcat(p[..n], [p[n]]);
      assert [p[n]][1..] == [];
      ActiveAreClaimed(p[..n]);
      ClaimedAtLast(p);
    }
  }

  lemma ClaimedAtLast(p: seq<Entry>)
    requires p != []
    ensures var n := |p| - 1;
      && n !in ClaimedAt(p[..n])
      && ClaimedAt(p) == ClaimedAt(p[..n]) + if p[n].service == Claimed then {n} else {}
  {
    var n := |p| - 1;
    assert forall k :: 0 <= k < n ==> p[..n][k] == p[k];
  }

  /** A DM the queue may hand to a service: routable, eligible and owed. */
  ghost predicate IsServable(e: Entry) {
    e.from.Some? && e.from.value != "" && e.eligibility == Eligible && e.obligation in {Owed, OwedCapacityRefused}
  }

  /** The claim a service gets on a DM: job id `dm-<id>`, fence 1, replies as the peer's service. */
  ghost predicate IsClaimOn(job: QueueJob, e: Entry, peer: string) {
    e.from.Some? && job == QueueJob("dm-" + IntText(e.id), e.id, e.from.value, peer, 1, ReplyProvenance(peer, "service", peer + "/service"))
  }

  /** What a claim of the DM at `k` by `peer` is answered, and what the queue is then. */
  ghost predicate ClaimAnswered(q: Queue, k: int, peer: string, max: int, answer: Outcome<QueueValue, QueueError>, r: Queue)
    requires 0 <= k < |q.pending|
  {
    var e := q.pending[k];
    if !IsServable(e) then answer.Refused? && r == q
    else if e.service == Claimed then
      && r == q
      && if e.job.Some? && e.job.value.destinationPeer == peer then answer == Done(ClaimedJob(e.job.value))
         else answer == Refused(ActiveClaim)
    else if |ClaimedAt(q.pending)| >= max then
      && answer == Done(AtCapacity)
      && r == With(q, k, e.(service := CapacityRefused, obligation := OwedCapacityRefused,
                            refusedAt := Some((|ClaimedAt(q.pending)|, max))))
    else
      && answer.Done? && answer.value.ClaimedJob? && IsClaimOn(answer.value.job, e, peer)
      && r == With(q, k, e.(job := Some(answer.value.job), service := Claimed, obligation := Owed, refusedAt := None))
  }

  /** A claim names a positive bound, a peer and a known DM, or is refused. The DM must be servable;
      its own peer's claim is repeated and no other peer's granted; at the bound it is refused and
      marked so; below it the peer gets the claim. */
  lemma ClaimAnswers(evs: seq<QueueEvent>, id: int, peer: string, max: int)
    ensures var q, op := QueueRun(EMPTY_QUEUE, evs), ClaimForService(id, peer, max);
      && (max < 1 || peer == "" || !IsKnown(q, id) ==> QueueOutcome(q, op, 1).Refused? && QueueStep(q, op, 1) == q)
      && (forall k :: max >= 1 && peer != "" && IsAt(q.pending, k, id) ==>
            ClaimAnswered(q, k, peer, max, QueueOutcome(q, op, 1), QueueStep(q, op, 1)))
  {
    QueueRunSafe(EMPTY_QUEUE, evs);
    var q := QueueRun(EMPTY_QUEUE, evs);
    forall k | max >= 1 && peer != "" && IsAt(q.pending, k, id)
      ensures ClaimAnswered(q, k, peer, max, QueueOutcome(q, ClaimForService(id, peer, max), 1),
                            QueueStep(q, ClaimForService(id, peer, max), 1))
    {
      ClaimAnswersAt(q, k, id, peer, max);
    }
    if !IsKnown(q, id) {
      NoIndex(q, id);
    }
  }

  lemma ClaimAnswersAt(q: Queue, k: int, id: int, peer: string, max: int)
    requires QueueInv(q) && IsAt(q.pending, k, id) && max >= 1 && peer != ""
    ensures ClaimAnswered(q, k, peer, max, QueueOutcome(q, ClaimForService(id, peer, max), 1),
                          QueueStep(q, ClaimForService(id, peer, max), 1))
  {
    IndexIs(q, k, id);
    ActiveAreClaimed(q.pending);
    assert EntryOk(q.pending[k]);
  }

  // ---------------------------------------------------------------- closing

  ghost function Dropped(q: Queue, k: int, x: QueueReceipt): Queue
    requires 0 <= k < |q.pending|
  {
    Queue(q.pending[..k] + q.pending[k + 1..], q.receipts + [x])
  }

  /** A direct receipt closes exactly the claimed DM whose claim it repeats. */
  lemma DirectAnswers(evs: seq<QueueEvent>, r: DirectReceipt)
    ensures var q, op := QueueRun(EMPTY_QUEUE, evs), RemoveOnReceipt(r);
      && (QueueOutcome(q, op, 1) == Done(Removed(true)) <==> exists k :: DirectCloses(q, k, r))
      && (QueueOutcome(q, op, 1) != Done(Removed(true)) ==> QueueOutcome(q, op, 1).Refused? && QueueStep(q, op, 1) == q)
      && (forall k :: DirectCloses(q, k, r) ==> QueueStep(q, op, 1) == Dropped(q, k, Direct(r)))
  {
    QueueRunSafe(EMPTY_QUEUE, evs);
    var q := QueueRun(EMPTY_QUEUE, evs);
    forall k | IsAt(q.pending, k, r.sourceDmId) ensures IndexOf(q.pending, r.sourceDmId) == k && EntryOk(q.pending[k]) {
      IndexIs(q, k, r.sourceDmId);
    }
    if !IsKnown(q, r.sourceDmId) {
      NoIndex(q, r.sourceDmId);
    } else if QueueOutcome(q, RemoveOnReceipt(r), 1) == Done(Removed(true)) {
      assert DirectCloses(q, IndexOf(q.pending, r.sourceDmId), r);
    }
  }

  ghost predicate DirectCloses(q: Queue, k: int, r: DirectReceipt) {
    && IsAt(q.pending, k, r.sourceDmId) && q.pending[k].service == Claimed && q.pending[k].job.Some?
    && !r.outputDigest.Malformed?
    && var job := q.pending[k].job.value;
      r.jobId == job.jobId && r.destinationPeer == job.destinationPeer && r.fencingToken == 1
      && r.replyProvenance == job.replyProvenance
  }

  /** A spool receipt closes exactly the claimed DM whose claim its provenance names; for a DM that
      is no longer pending it is answered False exactly when the same hand-off was recorded. */
  lemma ReconcileAnswers(evs: seq<QueueEvent>, r: Receipt)
    ensures var q, op := QueueRun(EMPTY_QUEUE, evs), ReconcileReceipt(r);
      && (QueueOutcome(q, op, 1) == Done(Removed(true)) <==> exists k :: SpoolCloses(q, k, r))
      && (QueueOutcome(q, op, 1) == Done(Removed(false)) <==> WellMade(r) && !IsKnown(q, r.sourceDmId) && WasRecorded(q, r))
      && (QueueOutcome(q, op, 1) != Done(Removed(true)) ==> QueueStep(q, op, 1) == q)
      && (forall k :: SpoolCloses(q, k, r) ==> QueueStep(q, op, 1) == Dropped(q, k, Spooled(r)))
  {
    QueueRunSafe(EMPTY_QUEUE, evs);
    var q := QueueRun(EMPTY_QUEUE, evs);
    forall k | IsAt(q.pending, k, r.sourceDmId) ensures IndexOf(q.pending, r.sourceDmId) == k && EntryOk(q.pending[k]) {
      IndexIs(q, k, r.sourceDmId);
    }
    if !IsKnown(q, r.sourceDmId) {
      NoIndex(q, r.sourceDmId);
    } else if QueueOutcome(q, ReconcileReceipt(r), 1) == Done(Removed(true)) {
      assert SpoolCloses(q, IndexOf(q.pending, r.sourceDmId), r);
    }
  }

  ghost predicate WellMade(r: Receipt) {
    && r.sourceRef.queueEntryId == r.sourceDmId && r.sourceRef.sourceDmId == r.sourceDmId
    && r.sourceRef.sourcePeer != Some("") && r.fencingToken >= 1 && !r.outputDigest.Malformed?
  }

  ghost predicate SpoolCloses(q: Queue, k: int, r: Receipt) {
    && WellMade(r) && IsAt(q.pending, k, r.sourceDmId) && q.pending[k].service == Claimed && q.pending[k].job.Some?
    && var job := q.pending[k].job.value;
      r.jobId == job.jobId && r.destinationPeer == job.destinationPeer && r.sourceRef.queueClaimFence == 1
      && (r.sourceRef.sourcePeer.None? || r.sourceRef.sourcePeer == q.pending[k].from)
  }

  ghost predicate WasRecorded(q: Queue, r: Receipt) {
    exists k :: 0 <= k < |q.receipts| && q.receipts[k].Spooled? && q.receipts[k].receipt.sourceRef == r.sourceRef
      && q.receipts[k].receipt.outputDigest == r.outputDigest
  }
}
