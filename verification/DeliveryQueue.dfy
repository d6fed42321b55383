/** The queue object: entries are edited in memory, then persisted with one atomic replace.
    A process that dies before the replace leaves the stored queue untouched. */
module DeliveryQueue {
  import opened Common
  import opened PeerRecords
  import opened QueueSpec

  datatype QueueStatus = QueueStatus(
    owed: nat, oldestAge: real, eligibility: map<Eligibility, nat>, service: map<Service, nat>, obligation: map<Obligation, nat>)

  function CountEligibility(p: seq<Entry>, x: Eligibility): nat
    decreases |p|
  {
    if p == [] then 0 else (if p[0].eligibility == x then 1 else 0) + CountEligibility(p[1..], x)
  }

  function CountService(p: seq<Entry>, x: Service): nat
    decreases |p|
  {
    if p == [] then 0 else (if p[0].service == x then 1 else 0) + CountService(p[1..], x)
  }

  function CountObligation(p: seq<Entry>, x: Obligation): nat
    decreases |p|
  {
    if p == [] then 0 else (if p[0].obligation == x then 1 else 0) + CountObligation(p[1..], x)
  }

  /** Each of the three breakdowns an operator sees accounts for every pending entry once. */
  lemma {:induction false} BreakdownsSum(p: seq<Entry>)
    ensures CountEligibility(p, Eligible) + CountEligibility(p, Ineligible) + CountEligibility(p, CannotEvaluate) == |p|
    ensures CountService(p, Unassigned) + CountService(p, Claimed) + CountService(p, CapacityRefused) == |p|
    ensures CountObligation(p, Owed) + CountObligation(p, OwedIneligible) + CountObligation(p, OwedCannotEvaluate)
            + CountObligation(p, OwedCapacityRefused) + CountObligation(p, Expired) == |p|
    decreases |p|
  {
    if p != [] {
      BreakdownsSum(p[1..]);
    }
  }

  lemma {:induction false} ClaimedCountIsActive(p: seq<Entry>)
    ensures CountService(p, Claimed) == ActiveClaims(p)
    decreases |p|
  {
    if p != [] {
      ClaimedCountIsActive(p[1..]);
    }
  }

  class DeliveryQueue {
    var pending: seq<Entry>
    var receipts: seq<QueueReceipt>
    var stored: Queue

    /** The object in memory agrees with the file. */
    ghost predicate InSync()
      reads this
    {
      stored == Queue(pending, receipts)
    }

    /** Start from whatever the file holds. */
    constructor (file: Queue)
      ensures InSync() && stored == file
    {
      stored, pending, receipts := file, file.pending, file.receipts;
    }

    method Persist(survive: nat) returns (alive: bool)
      modifies this`stored
      ensures alive <==> survive >= 1
      ensures stored == if survive >= 1 then Queue(pending, receipts) else old(stored)
    {
      alive := survive >= 1;
      if alive {
        stored := Queue(pending, receipts);
      }
    }

    /** Index of the entry with this id, found by walking the list. */
    method EntryIndex(id: int) returns (k: nat)
      ensures k == IndexOf(pending, id)
    {
      k := 0;
      while k < |pending| && pending[k].id != id
        invariant k <= |pending|
        invariant IndexOf(pending, id) == k + IndexOf(pending[k..], id)
      {
        k := k + 1;
      }
    }

    method CountActive() returns (n: nat)
      ensures n == ActiveClaims(pending)
    {
      n := 0;
      for k := 0 to |pending|
        invariant n + ActiveClaims(pending[k..]) == ActiveClaims(pending)
      {
        if pending[k].service == Claimed {
          n := n + 1;
        }
      }
    }

    method Enqueue(dm: Dm, now: real, survive: nat) returns (r: Outcome<QueueValue, QueueError>)
      requires InSync()
      modifies this
      ensures stored == QueueStep(old(stored), AddDm(dm, now), survive)
      ensures r == QueueOutcome(old(stored), AddDm(dm, now), survive)
      ensures !r.Crashed? ==> InSync()
    {
      var k := EntryIndex(dm.id);
      if k < |pending| {
        return Done(Nothing);
      }
      pending := pending + [NewEntry(dm, now)];
      var alive := Persist(survive);
      return if alive then Done(Nothing) else Crashed;
    }

    method RecordEligibility(id: int, state: string, reason: string, survive: nat)
      returns (r: Outcome<QueueValue, QueueError>)
      requires InSync()
      modifies this
      ensures stored == QueueStep(old(stored), QueueOp.RecordEligibility(id, state, reason), survive)
      ensures r == QueueOutcome(old(stored), QueueOp.RecordEligibility(id, state, reason), survive)
      ensures !r.Crashed? ==> InSync()
    {
      var parsed := ParseEligibility(state);
      if parsed.None? {
        return Refused(UnsupportedState);
      }
      if reason == "" {
        return Refused(ReasonRequired);
      }
      var k := EntryIndex(id);
      if k == |pending| {
        return Refused(UnknownDm);
      }
      var entry := pending[k].(eligibility := parsed.value, reason := reason);
      entry := entry.(obligation := ObligationFor(parsed.value));
      pending := pending[k := entry];
      var alive := Persist(survive);
      return if alive then Done(Nothing) else Crashed;
    }

    method RecordExpired(id: int, reason: string, survive: nat) returns (r: Outcome<QueueValue, QueueError>)
      requires InSync()
      modifies this
      ensures stored == QueueStep(old(stored), QueueOp.RecordExpired(id, reason), survive)
      ensures r == QueueOutcome(old(stored), QueueOp.RecordExpired(id, reason), survive)
      ensures !r.Crashed? ==> InSync()
    {
      if reason == "" {
        return Refused(ReasonRequired);
      }
      var k := EntryIndex(id);
      if k == |pending| {
        return Refused(UnknownDm);
      }
      if pending[k].service == Claimed {
        return Refused(ActiveClaim);
      }
      pending := pending[k := pending[k].(obligation := Expired, expiryReason := Some(reason))];
      var alive := Persist(survive);
      return if alive then Done(Nothing) else Crashed;
    }

    method ClaimForService(id: int, peer: string, maxActive: int, survive: nat)
      returns (r: Outcome<QueueValue, QueueError>)
      requires InSync()
      modifies this
      ensures stored == QueueStep(old(stored), QueueOp.ClaimForService(id, peer, maxActive), survive)
      ensures r == QueueOutcome(old(stored), QueueOp.ClaimForService(id, peer, maxActive), survive)
      ensures !r.Crashed? ==> InSync()
    {
      if maxActive < 1 {
        return Refused(BadMaxActive);
      }
      if peer == "" {
        return Refused(DestinationRequired);
      }
      var k := EntryIndex(id);
      if k == |pending| {
        return Refused(UnknownDm);
      }
      var entry := pending[k];
      if entry.from.None? || entry.from.value == "" {
        return Refused(NoRoutableSender);
      }
      if entry.eligibility != Eligible || entry.obligation !in {Owed, OwedCapacityRefused} {
        return Refused(NotEligible);
      }
      if entry.service == Claimed {
        if entry.job.Some? && entry.job.value.destinationPeer == peer {
          return Done(ClaimedJob(entry.job.value));
        }
        return Refused(ActiveClaim);
      }
      var active := CountActive();
      if active >= maxActive {
        entry := entry.(service := CapacityRefused, obligation := OwedCapacityRefused,
                        refusedAt := Some((active, maxActive)));
        pending := pending[k := entry];
        var alive := Persist(survive);
        return if alive then Done(AtCapacity) else Crashed;
      }
      var job := NewJob(entry, entry.from.value, peer);
      entry := entry.(job := Some(job), service := Claimed, obligation := Owed, refusedAt := None);
      pending := pending[k := entry];
      var alive := Persist(survive);
      return if alive then Done(ClaimedJob(job)) else Crashed;
    }

    method RemoveOnReceipt(receipt: DirectReceipt, survive: nat) returns (r: Outcome<QueueValue, QueueError>)
      requires InSync()
      modifies this
      ensures stored == QueueStep(old(stored), QueueOp.RemoveOnReceipt(receipt), survive)
      ensures r == QueueOutcome(old(stored), QueueOp.RemoveOnReceipt(receipt), survive)
      ensures !r.Crashed? ==> InSync()
    {
      if receipt.fencingToken < 1 || !ValidDigest(receipt.outputDigest) {
        return Refused(BadQueueReceipt);
      }
      var k := EntryIndex(receipt.sourceDmId);
      if k == |pending| {
        return Refused(UnknownDm);
      }
      if pending[k].service != Claimed || pending[k].job.None? {
        return Refused(NoActiveClaim);
      }
      var job := pending[k].job.value;
      if (receipt.jobId, receipt.sourceDmId, receipt.destinationPeer, receipt.fencingToken, receipt.replyProvenance)
         != (job.jobId, job.sourceDmId, job.destinationPeer, job.fencingToken, job.replyProvenance) {
        return Refused(ClaimMismatch);
      }
      receipts := receipts + [Direct(receipt)];
      pending := Without(pending, k);
      var alive := Persist(survive);
      return if alive then Done(Removed(true)) else Crashed;
    }

    method ReconcileSpoolReceipt(receipt: Receipt, survive: nat) returns (r: Outcome<QueueValue, QueueError>)
      requires InSync()
      modifies this
      ensures stored == QueueStep(old(stored), ReconcileReceipt(receipt), survive)
      ensures r == QueueOutcome(old(stored), ReconcileReceipt(receipt), survive)
      ensures !r.Crashed? ==> InSync()
    {
      var ref := receipt.sourceRef;
      if ref.queueEntryId != ref.sourceDmId || receipt.sourceDmId != ref.sourceDmId {
        return Refused(BadQueueReceipt);
      }
      if ref.sourcePeer == Some("") {
        return Refused(BadQueueReceipt);
      }
      if receipt.fencingToken < 1 || !ValidDigest(receipt.outputDigest) {
        return Refused(BadQueueReceipt);
      }
      var k := EntryIndex(ref.queueEntryId);
      if k == |pending| {
        if AlreadyRecorded(receipts, receipt) {
          return Done(Removed(false));
        }
        return Refused(UnknownDm);
      }
      if pending[k].service != Claimed || pending[k].job.None? {
        return Refused(NoActiveClaim);
      }
      var job := pending[k].job.value;
      if (job.jobId, job.sourceDmId, job.destinationPeer, job.fencingToken)
         != (receipt.jobId, receipt.sourceDmId, receipt.destinationPeer, ref.queueClaimFence) {
        return Refused(ClaimMismatch);
      }
      if ref.sourcePeer.Some? && ref.sourcePeer.value != job.sourcePeer {
        return Refused(ClaimMismatch);
      }
      receipts := receipts + [Spooled(receipt)];
      pending := Without(pending, k);
      var alive := Persist(survive);
      return if alive then Done(Removed(true)) else Crashed;
    }

    /** Operator counts; every breakdown accounts for each owed DM exactly once. */
    method Status(now: real) returns (s: QueueStatus)
      ensures s.owed == |pending|
      ensures s.oldestAge >= 0.0 && forall k :: 0 <= k < |pending| ==> now - pending[k].queuedAt <= s.oldestAge
      ensures s.oldestAge > 0.0 ==> exists k :: 0 <= k < |pending| && now - pending[k].queuedAt == s.oldestAge
      ensures s.eligibility.Keys == {Eligible, Ineligible, CannotEvaluate}
      ensures s.eligibility[Eligible] + s.eligibility[Ineligible] + s.eligibility[CannotEvaluate] == s.owed
      ensures s.service.Keys == {Unassigned, Claimed, CapacityRefused}
      ensures s.service[Unassigned] + s.service[Claimed] + s.service[CapacityRefused] == s.owed
      ensures s.service[Claimed] == ActiveClaims(pending)
      ensures s.obligation.Keys == {Owed, OwedIneligible, OwedCannotEvaluate, OwedCapacityRefused, Expired}
      ensures s.obligation[Owed] + s.obligation[OwedIneligible] + s.obligation[OwedCannotEvaluate]
              + s.obligation[OwedCapacityRefused] + s.obligation[Expired] == s.owed
      ensures forall x :: x in s.eligibility ==> s.eligibility[x] == CountEligibility(pending, x)
      ensures forall x :: x in s.service ==> s.service[x] == CountService(pending, x)
      ensures forall x :: x in s.obligation ==> s.obligation[x] == CountObligation(pending, x)
    {
      BreakdownsSum(pending);
      ClaimedCountIsActive(pending);
      var e := map x | x in {Eligible, Ineligible, CannotEvaluate} :: CountEligibility(pending, x);
      var v := map x | x in {Unassigned, Claimed, CapacityRefused} :: CountService(pending, x);
      var o := map x | x in {Owed, OwedIneligible, OwedCannotEvaluate, OwedCapacityRefused, Expired} ::
        CountObligation(pending, x);
      var oldest := 0.0;
      for i := 0 to |pending|
        invariant oldest >= 0.0 && forall k :: 0 <= k < i ==> now - pending[k].queuedAt <= oldest
        invariant oldest > 0.0 ==> exists k :: 0 <= k < i && now - pending[k].queuedAt == oldest
      {
        if now - pending[i].queuedAt > oldest {
          oldest := now - pending[i].queuedAt;
        }
      }
      return QueueStatus(|pending|, oldest, e, v, o);
    }
  }
}
