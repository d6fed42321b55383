/** Publishing one reply per receipt: the outbox, its drainers as an interleaving machine,
    and at-most-once delivery through a deduplicating transport. */
module ReplyProtocol {
  import opened Common
  import opened PeerRecords
  import opened SpoolSpec
  import opened SpoolSafety
  import opened SpoolRuns

  /** A file found in the outbox: a parsed envelope, or anything else. */
  datatype OutboxFile = EnvelopeFile(envelope: ReplyEnvelope) | Junk

  datatype Evidence = Evidence(schemaVersion: int, jobId: string, receiptDigest: Digest, deliveryKey: Digest)

  /** What the transport and the evidence directory have seen, in order. */
  datatype Mark =
    | Sent(destination: string, content: string, key: Digest)
    | Recorded(key: Digest)

  predicate ValidEnvelope(e: ReplyEnvelope) {
    && e.schemaVersion == 1 && e.jobId != "" && ValidDigest(e.receiptDigest) && !IsBlank(e.content)
  }

  function EvidenceOf(e: ReplyEnvelope): Evidence {
    Evidence(1, e.jobId, e.receiptDigest, OfReply(e))
  }

  /** The reply a receipt permits: its destination is the receipt's source peer, and the
      envelope is bound to the receipt's digest and to its output digest. */
  function Addressee(spool: Disk, e: ReplyEnvelope): Result<string, ()> {
    match AcceptedReceipt(spool, e.jobId)
    case Ok(Some(r)) =>
      if OfReceipt(r) == e.receiptDigest && r.sourceRef.sourcePeer.Some? && r.sourceRef.sourcePeer.value != ""
         && r.outputDigest == OfText(e.content)
      then Ok(r.sourceRef.sourcePeer.value)
      else Err(())
    case _ => Err(())
  }

  // ---------------------------------------------------------------- the machine

  /** Where a drainer stands inside `_drain_one`. */
  datatype Drainer =
    | Waiting(e: ReplyEnvelope)
    | Locked(e: ReplyEnvelope)
    | Checked(e: ReplyEnvelope)
    | Ready(e: ReplyEnvelope, destination: string)
    | Delivered(e: ReplyEnvelope)
    | Finishing(e: ReplyEnvelope)

  datatype ReplyWorld = ReplyWorld(
    spool: Disk,
    pending: map<string, OutboxFile>,
    sent: map<Digest, Evidence>,
    locks: map<Digest, nat>,
    drainers: map<nat, Drainer>,
    marks: seq<Mark>)

  const EMPTY_REPLY: ReplyWorld := ReplyWorld(EMPTY, map[], map[], map[], map[], [])

  datatype Action =
    | SpoolAction(op: Op, survive: nat)
    | PlaceFile(stem: string, file: OutboxFile)
    | DeleteFile(stem: string)
    | Begin(tid: nat, stem: string)
    | Acquire(tid: nat)
    | CheckSent(tid: nat)
    | ReadReceipt(tid: nat)
    | Send(tid: nat, delivered: bool, raised: bool)
    | WriteEvidence(tid: nat)
    | Unlink(tid: nat)
    | Die(tid: nat)

  function LockKey(t: Drainer): Digest {
    OfReply(t.e)
  }

  /** A drainer leaves, releasing the lock it holds. */
  function Leave(w: ReplyWorld, tid: nat): ReplyWorld
    requires tid in w.drainers
  {
    var t := w.drainers[tid];
    w.(drainers := w.drainers - {tid},
       locks := if t.Waiting? then w.locks else w.locks - {LockKey(t)})
  }

  function Move(w: ReplyWorld, tid: nat, t: Drainer): ReplyWorld {
    w.(drainers := w.drainers[tid := t])
  }

  /** One atomic action; an action that does not apply leaves the world as it is. */
  function Act(w: ReplyWorld, a: Action): ReplyWorld {
    match a
    case SpoolAction(op, survive) => w.(spool := Step(w.spool, op, survive))
    case PlaceFile(stem, file) => w.(pending := w.pending[stem := file])
    case DeleteFile(stem) => w.(pending := w.pending - {stem})
    case Begin(tid, stem) =>
      if tid !in w.drainers && stem in w.pending && w.pending[stem].EnvelopeFile?
         && ValidEnvelope(w.pending[stem].envelope) && w.pending[stem].envelope.jobId == stem
      then Move(w, tid, Waiting(w.pending[stem].envelope)) else w
    case Acquire(tid) =>
      if tid in w.drainers && w.drainers[tid].Waiting? && LockKey(w.drainers[tid]) !in w.locks
      then Move(w, tid, Locked(w.drainers[tid].e)).(locks := w.locks[LockKey(w.drainers[tid]) := tid]) else w
    case CheckSent(tid) =>
      if tid in w.drainers && w.drainers[tid].Locked? then
        var e := w.drainers[tid].e;
        if e.jobId !in w.pending then Leave(w, tid)
        else if OfReply(e) in w.sent then
          if w.sent[OfReply(e)] == EvidenceOf(e) then Move(w, tid, Finishing(e)) else Leave(w, tid)
        else Move(w, tid, Checked(e))
      else w
    case ReadReceipt(tid) =>
      if tid in w.drainers && w.drainers[tid].Checked? then
        var e := w.drainers[tid].e;
        match Addressee(w.spool, e)
        case Ok(destination) => Move(w, tid, Ready(e, destination))
        case Err(_) => Leave(w, tid)
      else w
    case Send(tid, delivered, raised) =>
      if tid in w.drainers && w.drainers[tid].Ready? then
        var t := w.drainers[tid];
        // A transport may deliver and still raise; only a normal return implies delivery.
        var v := if delivered || !raised then w.(marks := w.marks + [MarkOf(t)]) else w;
        if raised then Leave(v, tid) else Move(v, tid, Delivered(t.e))
      else w
    case WriteEvidence(tid) =>
      if tid in w.drainers && w.drainers[tid].Delivered? then
        var e := w.drainers[tid].e;
        Move(w, tid, Finishing(e)).(sent := w.sent[OfReply(e) := EvidenceOf(e)],
                                    marks := w.marks + [Recorded(OfReply(e))])
      else w
    case Unlink(tid) =>
      if tid in w.drainers && w.drainers[tid].Finishing?
      then Leave(w, tid).(pending := w.pending - {w.drainers[tid].e.jobId}) else w
    case Die(tid) => if tid in w.drainers then Leave(w, tid) else w
  }

  function Acts(w: ReplyWorld, actions: seq<Action>): ReplyWorld
    decreases |actions|
  {
    if actions == [] then w else Acts(Act(w, actions[0]), actions[1..])
  }

  // ---------------------------------------------------------------- the invariant

  /** The only send receipt `r` can give rise to. */
  function SendOf(r: Receipt): Mark
    requires r.outputDigest.OfText? && r.sourceRef.sourcePeer.Some?
  {
    Sent(r.sourceRef.sourcePeer.value, r.outputDigest.text,
         OfReply(ReplyEnvelope(1, r.jobId, OfReceipt(r), r.outputDigest.text)))
  }

  /** A send that the spool's receipt for its job accounts for in full. */
  ghost predicate Justified(spool: Disk, m: Mark)
    requires m.Sent?
  {
    && m.key.OfReply? && m.key.reply.jobId in spool.receipts
    && var r := spool.receipts[m.key.reply.jobId];
      r.outputDigest.OfText? && r.sourceRef.sourcePeer.Some? && m == SendOf(r)
  }

  ghost predicate SentBefore(marks: seq<Mark>, key: Digest, n: nat) {
    exists i :: 0 <= i < n && i < |marks| && marks[i].Sent? && marks[i].key == key
  }

  ghost predicate MarksOk(w: ReplyWorld) {
    && (forall i :: 0 <= i < |w.marks| && w.marks[i].Sent? ==> Justified(w.spool, w.marks[i]))
    && (forall i :: 0 <= i < |w.marks| && w.marks[i].Recorded? ==>
          w.marks[i].key in w.sent && SentBefore(w.marks, w.marks[i].key, i))
    && (forall i, j :: 0 <= i < j < |w.marks| && w.marks[i].Recorded? && w.marks[j].Sent? ==>
          w.marks[i].key != w.marks[j].key)
  }

  ghost predicate SentOk(w: ReplyWorld) {
    forall k :: k in w.sent ==>
      k.OfReply? && w.sent[k] == EvidenceOf(k.reply) && SentBefore(w.marks, k, |w.marks|)
  }

  ghost predicate DrainerOk(w: ReplyWorld, tid: nat)
    requires tid in w.drainers
  {
    var t := w.drainers[tid];
    && ValidEnvelope(t.e)
    && (!t.Waiting? ==> LockKey(t) in w.locks && w.locks[LockKey(t)] == tid)
    && (t.Checked? || t.Ready? || t.Delivered? ==> LockKey(t) !in w.sent)
    && (t.Ready? ==> Addressee(w.spool, t.e) == Ok(t.destination))
    && (t.Delivered? ==> SentBefore(w.marks, LockKey(t), |w.marks|))
  }

  ghost predicate ReplyInv(w: ReplyWorld) {
    && Inv(w.spool) && MarksOk(w) && SentOk(w)
    && (forall tid :: tid in w.drainers ==> DrainerOk(w, tid))
  }

  // ---------------------------------------------------------------- preservation

  lemma AddresseeForward(a: Disk, b: Disk, e: ReplyEnvelope)
    requires Inv(a) && Inv(b) && Forward(a, b) && Addressee(a, e).Ok?
    ensures Addressee(b, e) == Addressee(a, e)
  {
    assert JobOk(a, e.jobId) && JobOk(b, e.jobId) && JobForward(a, b, e.jobId);
  }

  lemma JustifiedForward(a: Disk, b: Disk, m: Mark)
    requires Inv(a) && Forward(a, b) && m.Sent? && Justified(a, m)
    ensures Justified(b, m)
  {
    assert JobOk(a, m.key.reply.jobId) && JobForward(a, b, m.key.reply.jobId);
  }

  lemma SendIsJustified(spool: Disk, e: ReplyEnvelope)
    requires Inv(spool) && ValidEnvelope(e) && Addressee(spool, e).Ok?
    ensures Justified(spool, Sent(Addressee(spool, e).value, e.content, OfReply(e)))
  {
    assert JobOk(spool, e.jobId);
  }

  lemma SpoolActionSafe(w: ReplyWorld, op: Op, survive: nat)
    requires ReplyInv(w)
    ensures ReplyInv(Act(w, SpoolAction(op, survive)))
  {
    var x := Act(w, SpoolAction(op, survive));
    StepSafe(w.spool, op, survive);
    forall i | 0 <= i < |w.marks| && w.marks[i].Sent? ensures Justified(x.spool, w.marks[i]) {
      JustifiedForward(w.spool, x.spool, w.marks[i]);
    }
    forall tid | tid in x.drainers ensures DrainerOk(x, tid) {
      assert DrainerOk(w, tid);
      if w.drainers[tid].Ready? {
        AddresseeForward(w.spool, x.spool, w.drainers[tid].e);
      }
    }
  }

  lemma LeaveSafe(w: ReplyWorld, tid: nat)
    requires ReplyInv(w) && tid in w.drainers
    ensures ReplyInv(Leave(w, tid))
  {
    var x := Leave(w, tid);
    assert DrainerOk(w, tid);
    forall u | u in x.drainers ensures DrainerOk(x, u) {
      assert DrainerOk(w, u);
    }
  }

  lemma MoveSafe(w: ReplyWorld, tid: nat, t: Drainer, locks: map<Digest, nat>)
    requires ReplyInv(w)
    requires forall u :: u in w.drainers && u != tid && !w.drainers[u].Waiting? ==>
      LockKey(w.drainers[u]) in locks && locks[LockKey(w.drainers[u])] == u
    requires var x := Move(w, tid, t).(locks := locks); DrainerOk(x, tid)
    ensures ReplyInv(Move(w, tid, t).(locks := locks))
  {
    var x := Move(w, tid, t).(locks := locks);
    forall u | u in x.drainers ensures DrainerOk(x, u) {
      if u != tid {
        assert DrainerOk(w, u);
      }
    }
  }

  lemma SentBeforeAppend(marks: seq<Mark>, m: Mark, key: Digest, n: nat)
    requires n <= |marks| && SentBefore(marks, key, n)
    ensures SentBefore(marks + [m], key, n) && SentBefore(marks + [m], key, n + 1)
  {
    var i :| 0 <= i < n && i < |marks| && marks[i].Sent? && marks[i].key == key;
    assert (marks + [m])[i] == marks[i];
  }

  lemma SendMarksOk(w: ReplyWorld, m: Mark)
    requires MarksOk(w) && m.Sent? && Justified(w.spool, m) && m.key !in w.sent
    ensures MarksOk(w.(marks := w.marks + [m])) && SentBefore(w.marks + [m], m.key, |w.marks| + 1)
  {
    var v := w.(marks := w.marks + [m]);
    assert v.marks[|w.marks|] == m;
    assert forall i :: 0 <= i < |w.marks| ==> v.marks[i] == w.marks[i];
    forall i | 0 <= i < |v.marks| && v.marks[i].Recorded?
      ensures v.marks[i].key in v.sent && SentBefore(v.marks, v.marks[i].key, i)
    {
      SentBeforeAppend(w.marks, m, w.marks[i].key, i);
    }
  }

  lemma SendSentOk(w: ReplyWorld, m: Mark)
    requires SentOk(w)
    ensures SentOk(w.(marks := w.marks + [m]))
  {
    forall k | k in w.sent ensures SentBefore(w.marks + [m], k, |w.marks| + 1) {
      SentBeforeAppend(w.marks, m, k, |w.marks|);
    }
  }

  lemma SendDrainerOk(w: ReplyWorld, m: Mark, u: nat)
    requires u in w.drainers && DrainerOk(w, u)
    ensures DrainerOk(w.(marks := w.marks + [m]), u)
  {
    if w.drainers[u].Delivered? {
      SentBeforeAppend(w.marks, m, LockKey(w.drainers[u]), |w.marks|);
    }
  }

  function MarkOf(t: Drainer): Mark
    requires t.Ready?
  {
    Sent(t.destination, t.e.content, OfReply(t.e))
  }

  /** The holder of a key's lock sends while no evidence for the key exists. */
  lemma SendMarkSafe(w: ReplyWorld, tid: nat)
    requires ReplyInv(w) && tid in w.drainers && w.drainers[tid].Ready?
    ensures var t := w.drainers[tid];
      ReplyInv(w.(marks := w.marks + [MarkOf(t)])) && SentBefore(w.marks + [MarkOf(t)], OfReply(t.e), |w.marks| + 1)
  {
    var t := w.drainers[tid];
    assert DrainerOk(w, tid);
    var m := MarkOf(t);
    SendIsJustified(w.spool, t.e);
    SendMarksOk(w, m);
    SendSentOk(w, m);
    forall u | u in w.drainers ensures DrainerOk(w.(marks := w.marks + [m]), u) {
      SendDrainerOk(w, m, u);
    }
  }

  lemma EvidenceMarksOk(w: ReplyWorld, key: Digest)
    requires MarksOk(w) && key.OfReply? && SentBefore(w.marks, key, |w.marks|)
    ensures MarksOk(w.(sent := w.sent[key := EvidenceOf(key.reply)], marks := w.marks + [Recorded(key)]))
  {
    var m := Recorded(key);
    var x := w.(sent := w.sent[key := EvidenceOf(key.reply)], marks := w.marks + [m]);
    assert x.marks[|w.marks|] == m;
    assert forall i :: 0 <= i < |w.marks| ==> x.marks[i] == w.marks[i];
    forall i | 0 <= i < |x.marks| && x.marks[i].Recorded?
      ensures x.marks[i].key in x.sent && SentBefore(x.marks, x.marks[i].key, i)
    {
      SentBeforeAppend(w.marks, m, x.marks[i].key, i);
    }
  }

  lemma EvidenceSentOk(w: ReplyWorld, key: Digest)
    requires SentOk(w) && key.OfReply? && SentBefore(w.marks, key, |w.marks|)
    ensures SentOk(w.(sent := w.sent[key := EvidenceOf(key.reply)], marks := w.marks + [Recorded(key)]))
  {
    var m := Recorded(key);
    var x := w.(sent := w.sent[key := EvidenceOf(key.reply)], marks := w.marks + [m]);
    forall k | k in x.sent
      ensures k.OfReply? && x.sent[k] == EvidenceOf(k.reply) && SentBefore(x.marks, k, |x.marks|)
    {
      SentBeforeAppend(w.marks, m, k, |w.marks|);
    }
  }

  lemma EvidenceSafe(w: ReplyWorld, tid: nat)
    requires ReplyInv(w) && tid in w.drainers && w.drainers[tid].Delivered?
    ensures ReplyInv(Act(w, WriteEvidence(tid)))
  {
    var e := w.drainers[tid].e;
    var x := Act(w, WriteEvidence(tid));
    assert DrainerOk(w, tid);
    EvidenceMarksOk(w, OfReply(e));
    EvidenceSentOk(w, OfReply(e));
    forall u | u in x.drainers ensures DrainerOk(x, u) {
      assert DrainerOk(w, u);
      if u != tid {
        // Only the lock holder may stand between the evidence check and the evidence write.
        assert x.drainers[u] == w.drainers[u];
        if w.drainers[u].Delivered? {
          SentBeforeAppend(w.marks, Recorded(OfReply(e)), LockKey(w.drainers[u]), |w.marks|);
        }
      }
    }
  }

  lemma DeliveredSafe(v: ReplyWorld, tid: nat)
    requires ReplyInv(v) && tid in v.drainers && v.drainers[tid].Ready?
    requires SentBefore(v.marks, LockKey(v.drainers[tid]), |v.marks|)
    ensures ReplyInv(Move(v, tid, Delivered(v.drainers[tid].e)))
  {
    assert forall u :: u in v.drainers ==> DrainerOk(v, u);
    MoveSafe(v, tid, Delivered(v.drainers[tid].e), v.locks);
  }

  /** The world once the transport was called. */
  function AfterSend(w: ReplyWorld, tid: nat, delivered: bool, raised: bool): ReplyWorld
    requires tid in w.drainers && w.drainers[tid].Ready?
  {
    if delivered || !raised then w.(marks := w.marks + [MarkOf(w.drainers[tid])]) else w
  }

  lemma SendSpelledOut(w: ReplyWorld, tid: nat, delivered: bool, raised: bool)
    requires tid in w.drainers && w.drainers[tid].Ready?
    ensures var v := AfterSend(w, tid, delivered, raised);
      Act(w, Send(tid, delivered, raised)) == if raised then Leave(v, tid) else Move(v, tid, Delivered(w.drainers[tid].e))
  {
  }

  lemma SendActionSafe(w: ReplyWorld, tid: nat, delivered: bool, raised: bool)
    requires ReplyInv(w) && tid in w.drainers && w.drainers[tid].Ready?
    ensures ReplyInv(Act(w, Send(tid, delivered, raised)))
  {
    SendMarkSafe(w, tid);
    SendSpelledOut(w, tid, delivered, raised);
    var v := AfterSend(w, tid, delivered, raised);
    if raised {
      LeaveSafe(v, tid);
    } else {
      DeliveredSafe(v, tid);
    }
  }

  lemma AcquireSafe(w: ReplyWorld, tid: nat)
    requires ReplyInv(w) && tid in w.drainers && w.drainers[tid].Waiting? && LockKey(w.drainers[tid]) !in w.locks
    ensures ReplyInv(Act(w, Acquire(tid)))
  {
    assert forall u :: u in w.drainers ==> DrainerOk(w, u);
    MoveSafe(w, tid, Locked(w.drainers[tid].e), w.locks[LockKey(w.drainers[tid]) := tid]);
  }

  /** A drainer moves on and no lock changes hands. */
  lemma MoveOnSafe(w: ReplyWorld, tid: nat, t: Drainer)
    requires ReplyInv(w) && DrainerOk(Move(w, tid, t), tid)
    ensures ReplyInv(Move(w, tid, t))
  {
    assert forall u :: u in w.drainers ==> DrainerOk(w, u);
    MoveSafe(w, tid, t, w.locks);
  }

  lemma CheckSentSafe(w: ReplyWorld, tid: nat)
    requires ReplyInv(w) && tid in w.drainers && w.drainers[tid].Locked?
    ensures ReplyInv(Act(w, CheckSent(tid)))
  {
    assert DrainerOk(w, tid);
    var e := w.drainers[tid].e;
    if e.jobId in w.pending && OfReply(e) !in w.sent {
      MoveOnSafe(w, tid, Checked(e));
    } else {
      LeaveSafe(w, tid);
      MoveOnSafe(w, tid, Finishing(e));
    }
  }

  lemma ReadReceiptSafe(w: ReplyWorld, tid: nat)
    requires ReplyInv(w) && tid in w.drainers && w.drainers[tid].Checked?
    ensures ReplyInv(Act(w, ReadReceipt(tid)))
  {
    assert DrainerOk(w, tid);
    var e := w.drainers[tid].e;
    var to := Addressee(w.spool, e);
    if to.Ok? {
      assert Act(w, ReadReceipt(tid)) == Move(w, tid, Ready(e, to.value));
      MoveOnSafe(w, tid, Ready(e, to.value));
    } else {
      assert Act(w, ReadReceipt(tid)) == Leave(w, tid);
      LeaveSafe(w, tid);
    }
  }

  lemma BeginSafe(w: ReplyWorld, tid: nat, e: ReplyEnvelope)
    requires ReplyInv(w) && tid !in w.drainers && ValidEnvelope(e)
    ensures ReplyInv(Move(w, tid, Waiting(e)))
  {
    MoveOnSafe(w, tid, Waiting(e));
  }

  /** Outbox files are never trusted, so they may change in any way. */
  lemma PendingSafe(w: ReplyWorld, pending: map<string, OutboxFile>)
    requires ReplyInv(w)
    ensures ReplyInv(w.(pending := pending))
  {
    var x := w.(pending := pending);
    assert forall u :: u in x.drainers ==> DrainerOk(w, u) ==> DrainerOk(x, u);
  }

  lemma ActSafe(w: ReplyWorld, a: Action)
    requires ReplyInv(w)
    ensures ReplyInv(Act(w, a))
  {
    if Act(w, a) != w {
      match a {
        case SpoolAction(op, survive) => SpoolActionSafe(w, op, survive);
        case PlaceFile(stem, file) => PendingSafe(w, w.pending[stem := file]);
        case DeleteFile(stem) => PendingSafe(w, w.pending - {stem});
        case Begin(tid, stem) => BeginSafe(w, tid, w.pending[stem].envelope);
        case Acquire(tid) => AcquireSafe(w, tid);
        case CheckSent(tid) => CheckSentSafe(w, tid);
        case ReadReceipt(tid) => ReadReceiptSafe(w, tid);
        case Send(tid, delivered, raised) => SendActionSafe(w, tid, delivered, raised);
        case WriteEvidence(tid) => EvidenceSafe(w, tid);
        case Unlink(tid) =>
          LeaveSafe(w, tid);
          PendingSafe(Leave(w, tid), w.pending - {w.drainers[tid].e.jobId});
        case Die(tid) => LeaveSafe(w, tid);
      }
    }
  }

  lemma {:induction false} ActsSafe(w: ReplyWorld, actions: seq<Action>)
    requires ReplyInv(w)
    ensures ReplyInv(Acts(w, actions))
    decreases |actions|
  {
    if actions != [] {
      ActSafe(w, actions[0]);
      ActsSafe(Act(w, actions[0]), actions[1..]);
    }
  }

  // ---------------------------------------------------------------- the theorems

  /** Every send for one job carries the same destination, content and idempotency key,
      whatever files appear in the outbox and however drainers interleave, crash or retry. */
  lemma SendsForAJobAgree(actions: seq<Action>, i: nat, j: nat)
    requires var w := Acts(EMPTY_REPLY, actions);
      && i < |w.marks| && j < |w.marks| && w.marks[i].Sent? && w.marks[j].Sent?
      && w.marks[i].key.OfReply? && w.marks[j].key.OfReply?
      && w.marks[i].key.reply.jobId == w.marks[j].key.reply.jobId
    ensures Acts(EMPTY_REPLY, actions).marks[i] == Acts(EMPTY_REPLY, actions).marks[j]
  {
    ActsSafe(EMPTY_REPLY, actions);
    var w := Acts(EMPTY_REPLY, actions);
    assert Justified(w.spool, w.marks[i]) && Justified(w.spool, w.marks[j]);
  }

  /** Each send is bound to the validated receipt and output still in the spool. */
  lemma SendsAreReceiptBound(actions: seq<Action>, i: nat)
    requires i < |Acts(EMPTY_REPLY, actions).marks| && Acts(EMPTY_REPLY, actions).marks[i].Sent?
    ensures var w := Acts(EMPTY_REPLY, actions); var m := w.marks[i];
      && m.key.OfReply? && m.key.reply.jobId in w.spool.receipts
      && var r := w.spool.receipts[m.key.reply.jobId];
        && AcceptedReceipt(w.spool, m.key.reply.jobId) == Ok(Some(r))
        && r.sourceRef.sourcePeer == Some(m.destination)
        && (r.jobId, r.fencingToken) in w.spool.outputs
        && w.spool.outputs[(r.jobId, r.fencingToken)].text == m.content
  {
    ActsSafe(EMPTY_REPLY, actions);
    var w := Acts(EMPTY_REPLY, actions);
    var m := w.marks[i];
    assert Justified(w.spool, m);
    assert JobOk(w.spool, m.key.reply.jobId);
    var r := w.spool.receipts[m.key.reply.jobId];
    assert OutputOk(w.spool, r.jobId, r.fencingToken);
  }

  /** Evidence follows a send of the same key, and no send of that key ever follows it. */
  lemma EvidenceIsFinal(actions: seq<Action>, i: nat)
    requires i < |Acts(EMPTY_REPLY, actions).marks| && Acts(EMPTY_REPLY, actions).marks[i].Recorded?
    ensures var marks := Acts(EMPTY_REPLY, actions).marks;
      && (exists h :: 0 <= h < i && marks[h].Sent? && marks[h].key == marks[i].key)
      && (forall j :: i <= j < |marks| && marks[j].Sent? ==> marks[j].key != marks[i].key)
  {
    ActsSafe(EMPTY_REPLY, actions);
    RecordedIsFinal(Acts(EMPTY_REPLY, actions), i);
  }

  lemma RecordedIsFinal(w: ReplyWorld, i: nat)
    requires MarksOk(w) && i < |w.marks| && w.marks[i].Recorded?
    ensures exists h :: 0 <= h < i && w.marks[h].Sent? && w.marks[h].key == w.marks[i].key
    ensures forall j :: i <= j < |w.marks| && w.marks[j].Sent? ==> w.marks[j].key != w.marks[i].key
  {
    var h :| 0 <= h < i && h < |w.marks| && w.marks[h].Sent? && w.marks[h].key == w.marks[i].key;
  }

  /** What a transport that drops repeated idempotency keys hands to recipients. */
  function Deduplicated(marks: seq<Mark>, seen: set<Digest>): seq<Mark>
    decreases |marks|
  {
    if marks == [] then []
    else if marks[0].Sent? && marks[0].key !in seen
    then [marks[0]] + Deduplicated(marks[1..], seen + {marks[0].key})
    else Deduplicated(marks[1..], seen)
  }

  function RepliesFor(marks: seq<Mark>, jobId: string): nat
    decreases |marks|
  {
    if marks == [] then 0
    else (if marks[0].Sent? && marks[0].key.OfReply? && marks[0].key.reply.jobId == jobId then 1 else 0)
         + RepliesFor(marks[1..], jobId)
  }

  ghost predicate OneKeyFor(marks: seq<Mark>, jobId: string, key: Digest) {
    forall i :: 0 <= i < |marks| && marks[i].Sent? && marks[i].key.OfReply? && marks[i].key.reply.jobId == jobId ==>
      marks[i].key == key
  }

  lemma {:induction false} DeduplicatedOnce(marks: seq<Mark>, seen: set<Digest>, jobId: string, key: Digest)
    requires OneKeyFor(marks, jobId, key)
    ensures RepliesFor(Deduplicated(marks, seen), jobId) <= (if key in seen then 0 else 1)
    decreases |marks|
  {
    if marks != [] {
      assert OneKeyFor(marks[1..], jobId, key) by {
        assert forall i :: 0 <= i < |marks[1..]| ==> marks[1..][i] == marks[i + 1];
      }
      if marks[0].Sent? && marks[0].key !in seen {
        DeduplicatedOnce(marks[1..], seen + {marks[0].key}, jobId, key);
        var rest := Deduplicated(marks[1..], seen + {marks[0].key});
        assert ([marks[0]] + rest)[1..] == rest;
      } else {
        DeduplicatedOnce(marks[1..], seen, jobId, key);
      }
    }
  }

  /** With a deduplicating transport at most one reply per job is ever delivered. */
  lemma AtMostOneReplyPerJob(actions: seq<Action>, jobId: string)
    ensures RepliesFor(Deduplicated(Acts(EMPTY_REPLY, actions).marks, {}), jobId) <= 1
  {
    ActsSafe(EMPTY_REPLY, actions);
    var w := Acts(EMPTY_REPLY, actions);
    var key := if jobId in w.spool.receipts && w.spool.receipts[jobId].outputDigest.OfText?
               && w.spool.receipts[jobId].sourceRef.sourcePeer.Some?
               then SendOf(w.spool.receipts[jobId]).key else UnknownHex("");
    forall i | 0 <= i < |w.marks| && w.marks[i].Sent? && w.marks[i].key.OfReply? && w.marks[i].key.reply.jobId == jobId
      ensures w.marks[i].key == key
    {
      assert Justified(w.spool, w.marks[i]);
    }
    DeduplicatedOnce(w.marks, {}, jobId, key);
  }
}
