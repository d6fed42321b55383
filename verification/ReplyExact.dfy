/** Staging and draining replies, exactly: what may be staged, what evidence says, and how often a job
    is answered. */
module ReplyExact {
  import opened Common
  import opened PeerRecords
  import opened SpoolSpec
  import opened SpoolSafety
  import opened ReplyProtocol
  import opened ReplyOutbox

  // ---------------------------------------------------------------- staging

  ghost predicate AllSpace(text: string) {
    forall k :: 0 <= k < |text| ==> IsSpace(text[k])
  }

  /** The reply of a receipted job: its output text under the receipt's digest. */
  ghost predicate IsReplyOf(spool: Disk, jobId: string, e: ReplyEnvelope) {
    && jobId in spool.receipts && (jobId, spool.receipts[jobId].fencingToken) in spool.outputs
    && e == ReplyEnvelope(1, jobId, OfReceipt(spool.receipts[jobId]),
                          spool.outputs[(jobId, spool.receipts[jobId].fencingToken)].text)
  }

  /** A reply is staged exactly for a receipted job with a sender and an output that is not blank, and
      only where no other file has its name; otherwise the refusal says which of these failed. */
  lemma StagedExactlyWhen(spool: Disk, pending: map<string, OutboxFile>, jobId: string, e: ReplyEnvelope)
    requires Inv(spool) && IsReplyOf(spool, jobId, e)
    ensures var answer, sender := StageReply(spool, pending, jobId), spool.receipts[jobId].sourceRef.sourcePeer;
      var routable := sender.Some? && sender.value != "";
      && (answer == Ok(e) <==> routable && !AllSpace(e.content) && (jobId !in pending || pending[jobId] == EnvelopeFile(e)))
      && (answer == Err(NoSourcePeer) <==> !routable)
      && (answer == Err(BlankOutput) <==> routable && AllSpace(e.content))
      && (answer == Err(InvalidFile) <==> routable && !AllSpace(e.content) && jobId in pending && pending[jobId].Junk?)
      && (answer == Err(Conflict) <==>
            routable && !AllSpace(e.content) && jobId in pending && pending[jobId].EnvelopeFile?
            && pending[jobId].envelope != e)
  {
    assert JobOk(spool, jobId);
    assert OutputOk(spool, jobId, spool.receipts[jobId].fencingToken);
  }

  /** A job without a receipt is never staged. */
  lemma UnreceiptedIsNotStaged(spool: Disk, pending: map<string, OutboxFile>, jobId: string)
    requires Inv(spool)
    ensures jobId !in spool.receipts ==> StageReply(spool, pending, jobId).Err?
    ensures jobId in spool.receipts ==> exists e :: IsReplyOf(spool, jobId, e)
  {
    assert JobOk(spool, jobId);
    if jobId in spool.receipts {
      var r := spool.receipts[jobId];
      assert OutputOk(spool, jobId, r.fencingToken);
      assert IsReplyOf(spool, jobId, ReplyEnvelope(1, jobId, OfReceipt(r), spool.outputs[(jobId, r.fencingToken)].text));
    }
  }

  // ---------------------------------------------------------------- the drain machine

  /** Every evidence file of a run names the reply of its key. */
  lemma EvidenceNamesItsReply(actions: seq<Action>, key: Digest)
    requires key in Acts(EMPTY_REPLY, actions).sent
    ensures key.OfReply?
      && Acts(EMPTY_REPLY, actions).sent[key] == Evidence(1, key.reply.jobId, key.reply.receiptDigest, key)
  {
    ActsSafe(EMPTY_REPLY, actions);
  }

  /** A drainer that holds the lock and finds its file gone leaves, and so does one that finds other
      evidence under its reply's digest, and a dying one; its lock is free then. */
  lemma GoneFileIsLeft(w: ReplyWorld, tid: nat)
    requires tid in w.drainers && !w.drainers[tid].Waiting?
    ensures w.drainers[tid].Locked? && w.drainers[tid].e.jobId !in w.pending ==>
      Act(w, CheckSent(tid)) == w.(drainers := w.drainers - {tid}, locks := w.locks - {LockKey(w.drainers[tid])})
    ensures var t := w.drainers[tid];
      t.Locked? && t.e.jobId in w.pending && OfReply(t.e) in w.sent
      && w.sent[OfReply(t.e)] != Evidence(1, t.e.jobId, t.e.receiptDigest, OfReply(t.e)) ==>
        Act(w, CheckSent(tid)) == w.(drainers := w.drainers - {tid}, locks := w.locks - {LockKey(t)})
    ensures Act(w, Die(tid)) == w.(drainers := w.drainers - {tid}, locks := w.locks - {LockKey(w.drainers[tid])})
  {
  }

  ghost predicate IsSent(marks: seq<Mark>, jobId: string) {
    exists i :: 0 <= i < |marks| && SentFor(marks[i], jobId)
  }

  predicate SentFor(m: Mark, jobId: string) {
    m.Sent? && m.key.OfReply? && m.key.reply.jobId == jobId
  }

  lemma IsSentFirst(marks: seq<Mark>, jobId: string)
    requires marks != []
    ensures IsSent(marks, jobId) <==> SentFor(marks[0], jobId) || IsSent(marks[1..], jobId)
  {
    if i :| 0 <= i < |marks| && SentFor(marks[i], jobId) {
      assert i > 0 ==> marks[1..][i - 1] == marks[i];
    }
    if i :| 0 <= i < |marks[1..]| && SentFor(marks[1..][i], jobId) {
      assert marks[i + 1] == marks[1..][i];
    }
  }

  lemma {:induction false} DeliveredOnce(marks: seq<Mark>, seen: set<Digest>, jobId: string, key: Digest)
    requires OneKeyFor(marks, jobId, key) && (IsSent(marks, jobId) ==> key !in seen)
    ensures RepliesFor(Deduplicated(marks, seen), jobId) == if IsSent(marks, jobId) then 1 else 0
    decreases |marks|
  {
    if marks != [] {
      IsSentFirst(marks, jobId);
      assert OneKeyFor(marks[1..], jobId, key) by {
        assert forall i :: 0 <= i < |marks[1..]| ==> marks[1..][i] == marks[i + 1];
      }
      if marks[0].Sent? && marks[0].key !in seen {
        var rest := Deduplicated(marks[1..], seen + {marks[0].key});
        assert ([marks[0]] + rest)[1..] == rest;
        if SentFor(marks[0], jobId) {
          DeduplicatedOnce(marks[1..], seen + {marks[0].key}, jobId, key);
        } else {
          if IsSent(marks[1..], jobId) {
            OtherKey(marks, jobId, key);
          }
          DeliveredOnce(marks[1..], seen + {marks[0].key}, jobId, key);
        }
      } else {
        DeliveredOnce(marks[1..], seen, jobId, key);
      }
    }
  }

  lemma OtherKey(marks: seq<Mark>, jobId: string, key: Digest)
    requires marks != [] && OneKeyFor(marks, jobId, key) && !SentFor(marks[0], jobId) && IsSent(marks[1..], jobId)
    ensures marks[0].Sent? ==> marks[0].key != key
  {
    var i :| 0 <= i < |marks[1..]| && SentFor(marks[1..][i], jobId);
    assert marks[i + 1] == marks[1..][i];
  }

  /** In every run a deduplicating transport delivers exactly one reply for a job that any drainer
      sent one for, and none for any other. */
  lemma ExactlyOneReplyWhenSent(actions: seq<Action>, jobId: string)
    ensures var marks := Acts(EMPTY_REPLY, actions).marks;
      RepliesFor(Deduplicated(marks, {}), jobId) == if IsSent(marks, jobId) then 1 else 0
  {
    var marks := Acts(EMPTY_REPLY, actions).marks;
    if i: nat :| i < |marks| && SentFor(marks[i], jobId) {
      forall j: nat | j < |marks| && SentFor(marks[j], jobId) ensures marks[j].key == marks[i].key {
        SendsForAJobAgree(actions, i, j);
      }
      DeliveredOnce(marks, {}, jobId, marks[i].key);
    } else {
      DeliveredOnce(marks, {}, jobId, UnknownHex(""));
    }
  }

  lemma {:induction false} RepliesAppend(a: seq<Mark>, m: Mark, jobId: string)
    ensures RepliesFor(a + [m], jobId) == RepliesFor(a, jobId) + if SentFor(m, jobId) then 1 else 0
    decreases |a|
  {
    if a == [] {
      assert (a + [m])[1..] == [];
    } else {
      assert (a + [m])[0] == a[0] && (a + [m])[1..] == a[1..] + [m];
      RepliesAppend(a[1..], m, jobId);
    }
  }

  ghost function RepliesAt(marks: seq<Mark>, jobId: string): set<int> {
    set i | 0 <= i < |marks| && SentFor(marks[i], jobId)
  }

  /** Replies are counted by the sends for the job. */
  lemma {:induction false} RepliesAreCounted(marks: seq<Mark>, jobId: string)
    ensures RepliesFor(marks, jobId) == |RepliesAt(marks, jobId)|
    decreases |marks|
  {
    if marks == [] {
      assert RepliesAt(marks, jobId) == {};
    } else {
      var n := |marks| - 1;
      assert marks == marks[..n] + [marks[n]];
      RepliesAppend(marks[..n], marks[n], jobId);
      RepliesAreCounted(marks[..n], jobId);
      RepliesAtLast(marks, jobId);
    }
  }

  lemma RepliesAtLast(marks: seq<Mark>, jobId: string)
    requires marks != []
    ensures var n := |marks| - 1;
      && n !in RepliesAt(marks[..n], jobId)
      && RepliesAt(marks, jobId) == RepliesAt(marks[..n], jobId) + if SentFor(marks[n], jobId) then {n} else {}
  {
    var n := |marks| - 1;
    assert forall i :: 0 <= i < n ==> marks[..n][i] == marks[i];
  }
}
