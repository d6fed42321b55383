/** What every run of the delivery queue keeps. */
module QueueSafety {
  import opened Common
  import opened PeerRecords
  import opened QueueSpec

  // ---------------------------------------------------------------- the invariant

  ghost predicate EntryOk(e: Entry) {
    && (e.service == Claimed <==> e.job.Some?)
    && (e.job.Some? ==>
          && e.from == Some(e.job.value.sourcePeer) && e.job.value.sourcePeer != ""
          && e.job.value.jobId == JobIdOf(e.id) && e.job.value.sourceDmId == e.id
          && e.job.value.destinationPeer != "" && e.job.value.fencingToken == 1
          && e.job.value == NewJob(e.(job := None), e.job.value.sourcePeer, e.job.value.destinationPeer))
    && (e.obligation == Owed ==> e.eligibility == Eligible)
    && (e.obligation == OwedIneligible ==> e.eligibility == Ineligible)
    && (e.obligation == OwedCannotEvaluate ==> e.eligibility == CannotEvaluate)
    && (e.obligation == OwedCapacityRefused ==> e.eligibility == Eligible && e.service == CapacityRefused)
    && (e.obligation == Expired ==> e.service != Claimed)
  }

  ghost predicate UniqueIds(p: seq<Entry>) {
    forall a, b :: 0 <= a < b < |p| ==> p[a].id != p[b].id
  }

  ghost predicate QueueInv(q: Queue) {
    && UniqueIds(q.pending)
    && (forall k :: 0 <= k < |q.pending| ==> EntryOk(q.pending[k]))
  }

  predicate IsPending(q: Queue, id: int) {
    IndexOf(q.pending, id) < |q.pending|
  }

  function EntryOf(q: Queue, id: int): Entry
    requires IsPending(q, id)
  {
    q.pending[IndexOf(q.pending, id)]
  }

  function ReceiptDm(r: QueueReceipt): int {
    match r
    case Direct(d) => d.sourceDmId
    case Spooled(s) => s.sourceDmId
  }

  ghost predicate IsNewlyRecorded(q: Queue, r: Queue, id: int) {
    exists k :: |q.receipts| <= k < |r.receipts| && ReceiptDm(r.receipts[k]) == id
  }

  // ---------------------------------------------------------------- one step

  /** What may become of DM `id`: it leaves only when a receipt naming it is recorded, and
      until then its sender never changes and its claim, once made, is never replaced. */
  ghost predicate DmForward(q: Queue, r: Queue, id: int) {
    IsPending(q, id) ==>
      || IsNewlyRecorded(q, r, id)
      || (&& IsPending(r, id) && EntryOf(r, id).from == EntryOf(q, id).from
          && (EntryOf(q, id).job.Some? ==> EntryOf(r, id).job == EntryOf(q, id).job))
  }

  ghost predicate QueueForward(q: Queue, r: Queue) {
    q.receipts <= r.receipts && forall id :: DmForward(q, r, id)
  }

  lemma UpdateSafe(q: Queue, k: nat, e: Entry)
    requires QueueInv(q) && k < |q.pending|
    requires EntryOk(e) && e.id == q.pending[k].id && e.from == q.pending[k].from
    requires q.pending[k].job.Some? ==> e.job == q.pending[k].job
    ensures var r := q.(pending := q.pending[k := e]); QueueInv(r) && QueueForward(q, r)
  {
    var r := q.(pending := q.pending[k := e]);
    forall id ensures DmForward(q, r, id) {
      if IsPending(q, id) {
        var m := IndexOf(q.pending, id);
        assert r.pending[m].id == id;
        assert IndexOf(r.pending, id) <= m;
        assert q.pending[IndexOf(r.pending, id)].id == id;
      }
    }
  }

  lemma AppendSafe(q: Queue, e: Entry)
    requires QueueInv(q) && EntryOk(e) && !IsPending(q, e.id)
    ensures var r := q.(pending := q.pending + [e]); QueueInv(r) && QueueForward(q, r)
  {
    var r := q.(pending := q.pending + [e]);
    forall id ensures DmForward(q, r, id) {
      if IsPending(q, id) {
        var m := IndexOf(q.pending, id);
        assert r.pending[m] == q.pending[m];
        assert IndexOf(r.pending, id) <= m;
        assert q.pending[IndexOf(r.pending, id)].id == id;
      }
    }
  }

  lemma RemovalSafe(q: Queue, k: nat, x: QueueReceipt)
    requires QueueInv(q) && k < |q.pending| && ReceiptDm(x) == q.pending[k].id
    ensures var r := Queue(Without(q.pending, k), q.receipts + [x]); QueueInv(r) && QueueForward(q, r)
  {
    var r := Queue(Without(q.pending, k), q.receipts + [x]);
    assert r.receipts[|q.receipts|] == x;
    forall id ensures DmForward(q, r, id) {
      if IsPending(q, id) && id != q.pending[k].id {
        var m := IndexOf(q.pending, id);
        var w := if m < k then m else m - 1;
        assert r.pending[w] == q.pending[m];
        assert UniqueIds(r.pending);
        assert IndexOf(r.pending, id) == w;
      }
    }
  }

  lemma QueueStepSafe(q: Queue, op: QueueOp, survive: nat)
    requires QueueInv(q)
    ensures QueueInv(QueueStep(q, op, survive))
    ensures QueueForward(q, QueueStep(q, op, survive))
  {
    if QueuePlanOf(q, op).Store? && survive >= 1 {
      if op.RemoveOnReceipt? || op.ReconcileReceipt? {
        RemovalStepSafe(q, op);
      } else if op.AddDm? {
        AppendSafe(q, NewEntry(op.dm, op.now));
      } else {
        EntryStepSafe(q, op);
      }
    }
  }

  lemma RemovalStepSafe(q: Queue, op: QueueOp)
    requires QueueInv(q) && (op.RemoveOnReceipt? || op.ReconcileReceipt?) && QueuePlanOf(q, op).Store?
    ensures QueueInv(QueuePlanOf(q, op).queue) && QueueForward(q, QueuePlanOf(q, op).queue)
  {
    match op {
      case RemoveOnReceipt(d) => RemovalSafe(q, IndexOf(q.pending, d.sourceDmId), Direct(d));
      case ReconcileReceipt(s) => RemovalSafe(q, IndexOf(q.pending, s.sourceRef.queueEntryId), Spooled(s));
    }
  }

  lemma EntryStepSafe(q: Queue, op: QueueOp)
    requires QueueInv(q) && (op.RecordEligibility? || op.RecordExpired? || op.ClaimForService?)
    requires QueuePlanOf(q, op).Store?
    ensures QueueInv(QueuePlanOf(q, op).queue) && QueueForward(q, QueuePlanOf(q, op).queue)
  {
    var k := IndexOf(q.pending, op.dmId);
    UpdateSafe(q, k, QueuePlanOf(q, op).queue.pending[k]);
  }

  // ---------------------------------------------------------------- runs

  datatype QueueEvent = QueueEvent(op: QueueOp, survive: nat)

  function QueueRun(q: Queue, evs: seq<QueueEvent>): Queue
    decreases |evs|
  {
    if evs == [] then q else QueueRun(QueueStep(q, evs[0].op, evs[0].survive), evs[1..])
  }

  lemma QueueForwardTransitive(a: Queue, b: Queue, c: Queue)
    requires QueueForward(a, b) && QueueForward(b, c)
    ensures QueueForward(a, c)
  {
    forall id ensures DmForward(a, c, id) {
      assert DmForward(a, b, id) && DmForward(b, c, id);
      if IsNewlyRecorded(a, b, id) {
        var k :| |a.receipts| <= k < |b.receipts| && ReceiptDm(b.receipts[k]) == id;
        assert c.receipts[k] == b.receipts[k];
      }
    }
  }

  lemma {:induction false} QueueRunSafe(q: Queue, evs: seq<QueueEvent>)
    requires QueueInv(q)
    ensures QueueInv(QueueRun(q, evs)) && QueueForward(q, QueueRun(q, evs))
    decreases |evs|
  {
    if evs != [] {
      var r := QueueStep(q, evs[0].op, evs[0].survive);
      QueueStepSafe(q, evs[0].op, evs[0].survive);
      QueueRunSafe(r, evs[1..]);
      QueueForwardTransitive(q, r, QueueRun(q, evs));
    }
  }

  /** Every DM a completed enqueue accepted is, ever after, pending or named by a receipt. */
  lemma NoDmIsLost(before: seq<QueueEvent>, dm: Dm, now: real, after: seq<QueueEvent>)
    ensures var q := QueueStep(QueueRun(EMPTY_QUEUE, before), AddDm(dm, now), 1);
      var r := QueueRun(q, after);
      && IsPending(q, dm.id)
      && (IsPending(r, dm.id) || IsNewlyRecorded(q, r, dm.id))
  {
    QueueRunSafe(EMPTY_QUEUE, before);
    var p := QueueRun(EMPTY_QUEUE, before);
    QueueStepSafe(p, AddDm(dm, now), 1);
    var q := QueueStep(p, AddDm(dm, now), 1);
    assert q.pending[IndexOf(p.pending, dm.id)].id == dm.id;
    QueueRunSafe(q, after);
    assert DmForward(q, QueueRun(q, after), dm.id);
  }

  /** The queue's state machine: unique ids, job records that name their own entry under
      fence 1, and obligations that agree with eligibility and service state. */
  lemma QueueStatesAgree(evs: seq<QueueEvent>, k: nat)
    requires k < |QueueRun(EMPTY_QUEUE, evs).pending|
    ensures var q := QueueRun(EMPTY_QUEUE, evs); var e := q.pending[k];
      && (forall m :: 0 <= m < |q.pending| && m != k ==> q.pending[m].id != e.id)
      && (e.service == Claimed <==> e.job.Some?)
      && (e.job.Some? ==> e.job.value.jobId == JobIdOf(e.id) && e.job.value.sourceDmId == e.id
                          && Some(e.job.value.sourcePeer) == e.from && e.job.value.fencingToken == 1)
      && (e.obligation == Owed ==> e.eligibility == Eligible)
      && (e.obligation == OwedCapacityRefused ==> e.eligibility == Eligible && e.service == CapacityRefused)
      && (e.obligation == Expired ==> e.service != Claimed)
  {
    QueueRunSafe(EMPTY_QUEUE, evs);
    var q := QueueRun(EMPTY_QUEUE, evs);
    assert EntryOk(q.pending[k]);
  }

  // ---------------------------------------------------------------- capacity

  lemma {:induction false} ActiveOfUpdate(p: seq<Entry>, k: nat, e: Entry)
    requires k < |p|
    ensures ActiveClaims(p[k := e]) ==
            ActiveClaims(p) - (if p[k].service == Claimed then 1 else 0) + (if e.service == Claimed then 1 else 0)
    decreases |p|
  {
    if k > 0 {
      assert p[k := e][1..] == p[1..][k - 1 := e];
      ActiveOfUpdate(p[1..], k - 1, e);
    } else {
      assert p[k := e][1..] == p[1..];
    }
  }

  lemma {:induction false} ActiveOfConcat(a: seq<Entry>, b: seq<Entry>)
    ensures ActiveClaims(a + b) == ActiveClaims(a) + ActiveClaims(b)
    decreases |a|
  {
    if a == [] {
      assert a + b == b;
    } else {
      assert (a + b)[0] == a[0] && (a + b)[1..] == a[1..] + b;
      ActiveOfConcat(a[1..], b);
    }
  }

  lemma {:induction false} ActiveOfRemoval(p: seq<Entry>, k: nat)
    requires k < |p|
    ensures ActiveClaims(Without(p, k)) == ActiveClaims(p) - (if p[k].service == Claimed then 1 else 0)
    decreases |p|
  {
    if k == 0 {
      assert Without(p, k) == p[1..];
    } else {
      assert Without(p, k)[0] == p[0] && Without(p, k)[1..] == Without(p[1..], k - 1);
      ActiveOfRemoval(p[1..], k - 1);
    }
  }

  ghost predicate ClaimsWithin(evs: seq<QueueEvent>, max: int) {
    forall k :: 0 <= k < |evs| && evs[k].op.ClaimForService? ==> evs[k].op.maxActive == max
  }

  lemma StepWithinCapacity(q: Queue, op: QueueOp, survive: nat, max: nat)
    requires QueueInv(q) && ActiveClaims(q.pending) <= max
    requires op.ClaimForService? ==> op.maxActive == max
    ensures ActiveClaims(QueueStep(q, op, survive).pending) <= max
  {
    var r := QueueStep(q, op, survive);
    if r != q {
      match op {
        case AddDm(dm, now) => ActiveOfConcat(q.pending, [NewEntry(dm, now)]);
        case RecordEligibility(id, _, _) => EntryWithinCapacity(q, r, id, max);
        case RecordExpired(id, _) => EntryWithinCapacity(q, r, id, max);
        case ClaimForService(id, _, _) => EntryWithinCapacity(q, r, id, max);
        case RemoveOnReceipt(d) => ActiveOfRemoval(q.pending, IndexOf(q.pending, d.sourceDmId));
        case ReconcileReceipt(s) => ActiveOfRemoval(q.pending, IndexOf(q.pending, s.sourceRef.queueEntryId));
      }
    }
  }

  lemma EntryWithinCapacity(q: Queue, r: Queue, id: int, max: nat)
    requires IsPending(q, id) && |r.pending| == |q.pending| && ActiveClaims(q.pending) <= max
    requires var k := IndexOf(q.pending, id);
      && r.pending == q.pending[k := r.pending[k]]
      && (r.pending[k].service == Claimed ==> q.pending[k].service == Claimed || ActiveClaims(q.pending) < max)
    ensures ActiveClaims(r.pending) <= max
  {
    var k := IndexOf(q.pending, id);
    ActiveOfUpdate(q.pending, k, r.pending[k]);
  }

  lemma {:induction false} RunWithinCapacity(q: Queue, evs: seq<QueueEvent>, max: nat)
    requires QueueInv(q) && ActiveClaims(q.pending) <= max && ClaimsWithin(evs, max)
    ensures ActiveClaims(QueueRun(q, evs).pending) <= max
    decreases |evs|
  {
    if evs != [] {
      var r := QueueStep(q, evs[0].op, evs[0].survive);
      QueueStepSafe(q, evs[0].op, evs[0].survive);
      StepWithinCapacity(q, evs[0].op, evs[0].survive, max);
      assert ClaimsWithin(evs[1..], max);
      RunWithinCapacity(r, evs[1..], max);
    }
  }

  /** With one capacity bound in force, no run ever holds more active claims than it allows. */
  lemma CapacityIsNeverExceeded(evs: seq<QueueEvent>, max: nat)
    requires ClaimsWithin(evs, max)
    ensures ActiveClaims(QueueRun(EMPTY_QUEUE, evs).pending) <= max
  {
    RunWithinCapacity(EMPTY_QUEUE, evs, max);
  }
}
