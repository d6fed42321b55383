/** The outbox objects: staging a reply from an accepted result, and draining the outbox. */
module ReplyOutbox {
  import opened Common
  import opened PeerRecords
  import opened SpoolSpec
  import opened SpoolSafety
  import opened ReplyProtocol
  import S = PeerSpool

  datatype StageError = Spool(error: SpoolError) | NoReceipt | NoSourcePeer | BlankOutput | InvalidFile | Conflict

  /** The reply envelope of a validated result. */
  function ReplyFor(r: Receipt, o: Output): ReplyEnvelope {
    ReplyEnvelope(1, r.jobId, OfReceipt(r), o.text)
  }

  /** Which envelope `stage` writes or finds, or why it refuses. */
  function StageReply(spool: Disk, pending: map<string, OutboxFile>, jobId: string): Result<ReplyEnvelope, StageError> {
    match AcceptedResult(spool, jobId)
    case Err(e) => Err(Spool(e))
    case Ok(None) => Err(NoReceipt)
    case Ok(Some((r, o))) =>
      if r.sourceRef.sourcePeer.None? || r.sourceRef.sourcePeer.value == "" then Err(NoSourcePeer)
      else if IsBlank(o.text) then Err(BlankOutput)
      else if r.jobId in pending then
        if pending[r.jobId].Junk? then Err(InvalidFile)
        else if pending[r.jobId].envelope != ReplyFor(r, o) then Err(Conflict)
        else Ok(ReplyFor(r, o))
      else Ok(ReplyFor(r, o))
  }

  /** A pending file the drainer will deliver to the receipt's source peer. */
  ghost predicate Deliverable(spool: Disk, stem: string, file: OutboxFile) {
    && file.EnvelopeFile? && ValidEnvelope(file.envelope) && file.envelope.jobId == stem
    && Addressee(spool, file.envelope).Ok?
  }

  /** Everything `stage` accepts, the drainer delivers, to the peer the receipt's producer named. */
  lemma StagedReplyIsDeliverable(spool: Disk, pending: map<string, OutboxFile>, jobId: string)
    requires Inv(spool) && StageReply(spool, pending, jobId).Ok?
    ensures var e := StageReply(spool, pending, jobId).value;
      && Deliverable(spool, jobId, EnvelopeFile(e))
      && jobId in spool.receipts && Some(Addressee(spool, e).value) == spool.receipts[jobId].sourceRef.sourcePeer
  {
    assert JobOk(spool, jobId);
    assert OutputOk(spool, jobId, spool.receipts[jobId].fencingToken);
  }

  /** Any other envelope for the same job is not deliverable: the receipt leaves no choice. */
  lemma DeliverableEnvelopeIsUnique(spool: Disk, stem: string, a: ReplyEnvelope, b: ReplyEnvelope)
    requires Deliverable(spool, stem, EnvelopeFile(a)) && Deliverable(spool, stem, EnvelopeFile(b))
    ensures a == b
  {
  }

  // ---------------------------------------------------------------- one drainer alone

  datatype Transport = Returns | RaisesDelivered | RaisesLost

  function SendAction(t: Transport): Action {
    Send(0, t.RaisesDelivered?, !t.Returns?)
  }

  /** The actions of one uninterrupted `_drain_one`; those that do not apply do nothing. */
  function DrainScript(stem: string, t: Transport): seq<Action> {
    [Begin(0, stem), Acquire(0), CheckSent(0), ReadReceipt(0), SendAction(t), WriteEvidence(0), Unlink(0)]
  }

  lemma ScriptUnrolls(w: ReplyWorld, stem: string, t: Transport)
    ensures Acts(w, DrainScript(stem, t)) ==
      Act(Act(Act(Act(Act(Act(Act(w, Begin(0, stem)), Acquire(0)), CheckSent(0)), ReadReceipt(0)), SendAction(t)),
              WriteEvidence(0)), Unlink(0))
  {
    ActsSplit(w, [Begin(0, stem), Acquire(0), CheckSent(0)], [ReadReceipt(0), SendAction(t), WriteEvidence(0), Unlink(0)]);
    assert DrainScript(stem, t) ==
      [Begin(0, stem), Acquire(0), CheckSent(0)] + [ReadReceipt(0), SendAction(t), WriteEvidence(0), Unlink(0)];
    ActsThree(w, Begin(0, stem), Acquire(0), CheckSent(0));
    var x := Acts(w, [Begin(0, stem), Acquire(0), CheckSent(0)]);
    ActsSplit(x, [ReadReceipt(0)], [SendAction(t), WriteEvidence(0), Unlink(0)]);
    assert [ReadReceipt(0), SendAction(t), WriteEvidence(0), Unlink(0)] ==
      [ReadReceipt(0)] + [SendAction(t), WriteEvidence(0), Unlink(0)];
    assert Acts(x, [ReadReceipt(0)]) == Act(x, ReadReceipt(0)) by { assert [ReadReceipt(0)][1..] == []; }
    ActsThree(Act(x, ReadReceipt(0)), SendAction(t), WriteEvidence(0), Unlink(0));
  }

  lemma ActsThree(w: ReplyWorld, a: Action, b: Action, c: Action)
    ensures Acts(w, [a, b, c]) == Act(Act(Act(w, a), b), c)
  {
    assert [a, b, c][1..] == [b, c] && [b, c][1..] == [c] && [c][1..] == [];
    assert Acts(Act(w, a), [b, c]) == Acts(Act(Act(w, a), b), [c]);
    assert Acts(Act(Act(w, a), b), [c]) == Acts(Act(Act(Act(w, a), b), c), []);
  }

  lemma {:induction false} ActsSplit(w: ReplyWorld, a: seq<Action>, b: seq<Action>)
    ensures Acts(w, a + b) == Acts(Acts(w, a), b)
    decreases |a|
  {
    if a == [] {
      assert a + b == b;
    } else {
      assert (a + b)[0] == a[0] && (a + b)[1..] == a[1..] + b;
      ActsSplit(Act(w, a[0]), a[1..], b);
    }
  }

  /** What a drain reports; a lone drainer never finds its file already drained. */
  datatype DrainState = SentNow | AlreadySent | Retained

  /** The envelope of a pending file whose name matches it, if the file is one. */
  predicate NamedEnvelope(stem: string, file: OutboxFile) {
    file.EnvelopeFile? && ValidEnvelope(file.envelope) && file.envelope.jobId == stem
  }

  /** What one lone drain reports for a file. */
  function DrainResult(spool: Disk, sent: map<Digest, Evidence>, stem: string, file: OutboxFile, t: Transport): DrainState {
    if !NamedEnvelope(stem, file) then Retained
    else if OfReply(file.envelope) in sent then AlreadySent
    else if Addressee(spool, file.envelope).Ok? && t.Returns? then SentNow
    else Retained
  }

  function SentMark(spool: Disk, e: ReplyEnvelope): Mark
    requires Addressee(spool, e).Ok?
  {
    Sent(Addressee(spool, e).value, e.content, OfReply(e))
  }

  /** The world one lone drain leaves behind. */
  function AfterDrain(w: ReplyWorld, stem: string, t: Transport): ReplyWorld
    requires stem in w.pending
  {
    var file := w.pending[stem];
    match DrainResult(w.spool, w.sent, stem, file, t)
    case AlreadySent => w.(pending := w.pending - {stem})
    case SentNow =>
      w.(pending := w.pending - {stem}, sent := w.sent[OfReply(file.envelope) := EvidenceOf(file.envelope)],
         marks := w.marks + [SentMark(w.spool, file.envelope)] + [Recorded(OfReply(file.envelope))])
    case Retained =>
      if NamedEnvelope(stem, file) && Addressee(w.spool, file.envelope).Ok? && t.RaisesDelivered?
      then w.(marks := w.marks + [SentMark(w.spool, file.envelope)]) else w
  }

  /** Every evidence file is the one its key calls for. */
  ghost predicate EvidenceSound(sent: map<Digest, Evidence>) {
    forall k :: k in sent ==> k.OfReply? && sent[k] == EvidenceOf(k.reply)
  }

  ghost predicate Quiet(w: ReplyWorld) {
    w.locks == map[] && w.drainers == map[]
  }

  /** Begin, lock and evidence check of a lone drainer. */
  lemma PrologueEffect(w: ReplyWorld, stem: string)
    requires Quiet(w) && EvidenceSound(w.sent) && stem in w.pending && NamedEnvelope(stem, w.pending[stem])
    ensures var e := w.pending[stem].envelope; var key := OfReply(e);
      Act(Act(Act(w, Begin(0, stem)), Acquire(0)), CheckSent(0)) ==
      AtWork(w, e, if key in w.sent then Finishing(e) else Checked(e))
  {
    var e := w.pending[stem].envelope;
    var a := Act(w, Begin(0, stem));
    assert a == w.(drainers := map[0 := Waiting(e)]);
    var b := Act(a, Acquire(0));
    assert b == w.(drainers := map[0 := Locked(e)], locks := map[OfReply(e) := 0]);
    if OfReply(e) in w.sent {
      assert w.sent[OfReply(e)] == EvidenceOf(e);
    }
  }

  lemma LeaveAlone(w: ReplyWorld, t: Drainer)
    requires w.locks == map[LockKey(t) := 0] && w.drainers == map[0 := t] && !t.Waiting?
    ensures Leave(w, 0) == w.(locks := map[], drainers := map[])
  {
  }

  /** A lone drainer that has locked its envelope and found no evidence for it. */
  function AtWork(w: ReplyWorld, e: ReplyEnvelope, t: Drainer): ReplyWorld {
    w.(locks := map[OfReply(e) := 0], drainers := map[0 := t])
  }

  lemma UnwarrantedEffect(w: ReplyWorld, e: ReplyEnvelope, t: Transport)
    requires Quiet(w) && Addressee(w.spool, e).Err?
    ensures Act(Act(Act(Act(AtWork(w, e, Checked(e)), ReadReceipt(0)), SendAction(t)), WriteEvidence(0)), Unlink(0)) == w
  {
    LeaveAlone(AtWork(w, e, Checked(e)), Checked(e));
    assert Act(AtWork(w, e, Checked(e)), ReadReceipt(0)) == w;
  }

  lemma ReceiptFoundEffect(w: ReplyWorld, e: ReplyEnvelope)
    requires Quiet(w) && Addressee(w.spool, e).Ok?
    ensures Act(AtWork(w, e, Checked(e)), ReadReceipt(0)) == AtWork(w, e, Ready(e, Addressee(w.spool, e).value))
  {
  }

  lemma FailedSendEffect(w: ReplyWorld, e: ReplyEnvelope, destination: string, t: Transport)
    requires Quiet(w) && !t.Returns?
    ensures Act(Act(Act(AtWork(w, e, Ready(e, destination)), SendAction(t)), WriteEvidence(0)), Unlink(0))
            == if t.RaisesDelivered? then w.(marks := w.marks + [Sent(destination, e.content, OfReply(e))]) else w
  {
    var ready := Ready(e, destination);
    var v := if t.RaisesDelivered? then w.(marks := w.marks + [Sent(destination, e.content, OfReply(e))]) else w;
    LeaveAlone(AtWork(v, e, ready), ready);
    assert Act(AtWork(w, e, ready), SendAction(t)) == v;
  }

  lemma SendStepEffect(w: ReplyWorld, e: ReplyEnvelope, destination: string, t: Transport)
    requires t.Returns?
    ensures Act(AtWork(w, e, Ready(e, destination)), SendAction(t))
            == AtWork(w.(marks := w.marks + [Sent(destination, e.content, OfReply(e))]), e, Delivered(e))
  {
  }

  /** Writing the evidence and removing the file, after a send that returned. */
  lemma RecordStepEffect(v: ReplyWorld, e: ReplyEnvelope)
    requires Quiet(v)
    ensures Act(Act(AtWork(v, e, Delivered(e)), WriteEvidence(0)), Unlink(0))
            == v.(pending := v.pending - {e.jobId}, sent := v.sent[OfReply(e) := EvidenceOf(e)],
                  marks := v.marks + [Recorded(OfReply(e))])
  {
    var x := v.(sent := v.sent[OfReply(e) := EvidenceOf(e)], marks := v.marks + [Recorded(OfReply(e))]);
    assert Act(AtWork(v, e, Delivered(e)), WriteEvidence(0)) == AtWork(x, e, Finishing(e));
    LeaveAlone(AtWork(x, e, Finishing(e)), Finishing(e));
  }

  lemma EpilogueEffect(w: ReplyWorld, stem: string, t: Transport)
    requires Quiet(w) && stem in w.pending && NamedEnvelope(stem, w.pending[stem])
    requires OfReply(w.pending[stem].envelope) !in w.sent
    ensures var e := w.pending[stem].envelope;
      Act(Act(Act(Act(AtWork(w, e, Checked(e)), ReadReceipt(0)), SendAction(t)), WriteEvidence(0)), Unlink(0))
      == AfterDrain(w, stem, t)
  {
    var e := w.pending[stem].envelope;
    if Addressee(w.spool, e).Err? {
      UnwarrantedEffect(w, e, t);
    } else {
      ReceiptFoundEffect(w, e);
      if t.Returns? {
        SendStepEffect(w, e, Addressee(w.spool, e).value, t);
        RecordStepEffect(w.(marks := w.marks + [SentMark(w.spool, e)]), e);
      } else {
        FailedSendEffect(w, e, Addressee(w.spool, e).value, t);
      }
    }
  }

  lemma UnnamedEffect(w: ReplyWorld, stem: string, t: Transport)
    requires Quiet(w) && stem in w.pending && !NamedEnvelope(stem, w.pending[stem])
    ensures Acts(w, DrainScript(stem, t)) == w
  {
    ScriptUnrolls(w, stem, t);
    assert Act(w, Begin(0, stem)) == w;
  }

  lemma AlreadySentEffect(w: ReplyWorld, e: ReplyEnvelope, t: Transport)
    requires Quiet(w)
    ensures Act(Act(Act(Act(AtWork(w, e, Finishing(e)), ReadReceipt(0)), SendAction(t)), WriteEvidence(0)), Unlink(0))
            == w.(pending := w.pending - {e.jobId})
  {
    LeaveAlone(AtWork(w, e, Finishing(e)), Finishing(e));
  }

  /** One uninterrupted `_drain_one` is that run of the machine. */
  lemma ScriptEffect(w: ReplyWorld, stem: string, t: Transport)
    requires Quiet(w) && EvidenceSound(w.sent) && stem in w.pending
    ensures Acts(w, DrainScript(stem, t)) == AfterDrain(w, stem, t)
  {
    if !NamedEnvelope(stem, w.pending[stem]) {
      UnnamedEffect(w, stem, t);
    } else {
      ScriptUnrolls(w, stem, t);
      PrologueEffect(w, stem);
      if OfReply(w.pending[stem].envelope) in w.sent {
        AlreadySentEffect(w, w.pending[stem].envelope, t);
      } else {
        EpilogueEffect(w, stem, t);
      }
    }
  }

  /** The outbox directory shared by the stager and the drainer. `marks` records, for the
      proof, what the transport and the evidence directory have seen. */
  class OutboxDirectory {
    var pending: map<string, OutboxFile>
    var sent: map<Digest, Evidence>
    ghost var marks: seq<Mark>

    constructor ()
      ensures pending == map[] && sent == map[] && marks == []
    {
      pending, sent, marks := map[], map[], [];
    }

    /** This directory beside a spool, with no drainer at work. */
    ghost function World(spool: Disk): ReplyWorld
      reads this
    {
      ReplyWorld(spool, pending, sent, map[], map[], marks)
    }

    /** `PeerReplyOutbox.stage`: write the one envelope the accepted result permits. */
    method Stage(spool: S.PeerSpool, jobId: string, survive: nat) returns (r: Outcome<ReplyEnvelope, StageError>)
      modifies this`pending
      ensures var plan := StageReply(spool.Files(), old(pending), jobId);
        && (plan.Err? ==> r == Refused(plan.error) && pending == old(pending))
        && (plan.Ok? && r.Done? ==> r.value == plan.value && pending == old(pending)[plan.value.jobId := EnvelopeFile(plan.value)])
        && (plan.Ok? && !r.Done? ==> r.Crashed? && pending == old(pending))
        && (plan.Ok? && survive >= 1 ==> r.Done?)
    {
      var result := AcceptedResult(spool.Files(), jobId);
      if result.Err? {
        return Refused(Spool(result.error));
      }
      if result.value.None? {
        return Refused(NoReceipt);
      }
      var (receipt, output) := result.value.value;
      if receipt.sourceRef.sourcePeer.None? || receipt.sourceRef.sourcePeer.value == "" {
        return Refused(NoSourcePeer);
      }
      if IsBlank(output.text) {
        return Refused(BlankOutput);
      }
      var envelope := ReplyFor(receipt, output);
      if receipt.jobId in pending {
        var existing := pending[receipt.jobId];
        if existing.Junk? {
          return Refused(InvalidFile);
        }
        if existing.envelope != envelope {
          return Refused(Conflict);
        }
        return Done(existing.envelope);
      }
      if survive == 0 {
        return Crashed;
      }
      pending := pending[receipt.jobId := EnvelopeFile(envelope)];
      return Done(envelope);
    }

    /** `_drain_one` on one file: exactly the machine's script for a lone drainer. */
    method DrainOne(stem: string, spool: S.PeerSpool, t: Transport) returns (state: DrainState)
      requires stem in pending && EvidenceSound(sent)
      modifies this
      ensures World(spool.Files()) == AfterDrain(old(World(spool.Files())), stem, t)
      ensures World(spool.Files()) == Acts(old(World(spool.Files())), DrainScript(stem, t))
      ensures EvidenceSound(sent)
      ensures state == DrainResult(spool.Files(), old(sent), stem, old(pending)[stem], t)
    {
      ghost var w := World(spool.Files());
      ScriptEffect(w, stem, t);
      var file := pending[stem];
      if !NamedEnvelope(stem, file) {
        return Retained;
      }
      var e := file.envelope;
      var key := OfReply(e);
      if key in sent {
        pending := pending - {stem};
        return AlreadySent;
      }
      var destination := Addressee(spool.Files(), e);
      if destination.Err? || t.RaisesLost? {
        return Retained;
      }
      marks := marks + [Sent(destination.value, e.content, key)];
      if t.RaisesDelivered? {
        return Retained;
      }
      sent, marks := sent[key := EvidenceOf(e)], marks + [Recorded(key)];
      pending := pending - {stem};
      return SentNow;
    }

    /** `drain` over a directory listing, an error of any kind retaining its file; `fates` says what
        becomes of each send. The world left behind is that of the drains one after another, and
        each file meets the fate its own evidence, receipt and send call for. */
    method Drain(listing: seq<string>, spool: S.PeerSpool, fates: nat -> Transport) returns (states: seq<DrainState>)
      requires EvidenceSound(sent)
      requires forall k :: 0 <= k < |listing| ==> listing[k] in pending
      requires forall a, b :: 0 <= a < b < |listing| ==> listing[a] != listing[b]
      modifies this
      ensures World(spool.Files()) == DrainRun(old(World(spool.Files())), listing, fates)
      ensures EvidenceSound(sent) && |states| == |listing|
      ensures forall k :: 0 <= k < |listing| ==>
        states[k] == DrainResult(spool.Files(), old(sent), listing[k], old(pending)[listing[k]], fates(k))
      ensures forall stem :: stem in pending ==> stem in old(pending) && pending[stem] == old(pending)[stem]
      ensures forall stem :: stem in old(pending) ==> (stem in pending <==> !IsGone(listing, states, stem))
    {
      states := [];
      ghost var w := World(spool.Files());
      ghost var due := Dues(w, listing, fates);
      for n := 0 to |listing|
        invariant World(spool.Files()) == DrainRun(w, listing[..n], fates)
        invariant Drained(w, listing, n, due, states, World(spool.Files()))
      {
        DueNext(w, listing, n, fates, states, World(spool.Files()));
        var state := DrainOne(listing[n], spool, fates(n));
        states := states + [state];
      }
      assert listing[..|listing|] == listing;
      DrainEnds(w, listing, fates, states, World(spool.Files()));
    }
  }

  /** What each listed file's own evidence, receipt and send call for. */
  ghost function Dues(w: ReplyWorld, listing: seq<string>, fates: nat -> Transport): (r: seq<DrainState>)
    requires forall k :: 0 <= k < |listing| ==> listing[k] in w.pending
    ensures |r| == |listing|
    ensures forall k :: 0 <= k < |r| ==> r[k] == DrainResult(w.spool, w.sent, listing[k], w.pending[listing[k]], fates(k))
  {
    seq(|listing|, k requires 0 <= k < |listing| =>
      DrainResult(w.spool, w.sent, listing[k], w.pending[listing[k]], fates(k)))
  }

  /** A listed file was drained to an end other than `Retained`. */
  ghost predicate IsGone(listing: seq<string>, states: seq<DrainState>, stem: string) {
    exists k :: 0 <= k < |states| && k < |listing| && listing[k] == stem && states[k] != Retained
  }

  /** What holds after the first `n` files, `due` being what each calls for. */
  ghost predicate Drained(w: ReplyWorld, listing: seq<string>, n: nat, due: seq<DrainState>, states: seq<DrainState>,
                          now: ReplyWorld) {
    && n <= |listing| == |due| && states == due[..n] && now.spool == w.spool
    && EvidenceSound(now.sent) && KeysOf(now.sent, w.sent, listing[..n])
    && (forall stem :: stem in now.pending ==> stem in w.pending && now.pending[stem] == w.pending[stem])
    && (forall stem :: stem in w.pending ==> (stem in now.pending <==> !IsGone(listing, states, stem)))
  }

  /** What a drain with result `state` leaves. */
  ghost predicate DrainEffect(w: ReplyWorld, stem: string, state: DrainState, x: ReplyWorld)
    requires stem in w.pending
  {
    var file := w.pending[stem];
    && x.spool == w.spool
    && x.pending == (if state == Retained then w.pending else w.pending - {stem})
    && (if state == SentNow
        then NamedEnvelope(stem, file) && x.sent == w.sent[OfReply(file.envelope) := EvidenceOf(file.envelope)]
        else x.sent == w.sent)
  }

  lemma AfterDrainEffect(w: ReplyWorld, stem: string, t: Transport)
    requires stem in w.pending
    ensures DrainEffect(w, stem, DrainResult(w.spool, w.sent, stem, w.pending[stem], t), AfterDrain(w, stem, t))
  {
  }

  lemma GoneGrows(listing: seq<string>, states: seq<DrainState>, state: DrainState, stem: string)
    requires |states| < |listing|
    ensures IsGone(listing, states + [state], stem)
       <==> IsGone(listing, states, stem) || (listing[|states|] == stem && state != Retained)
  {
    var all := states + [state];
    if IsGone(listing, states, stem) {
      var k :| 0 <= k < |states| && k < |listing| && listing[k] == stem && states[k] != Retained;
      assert all[k] == states[k];
    }
    assert all[|states|] == state;
  }

  /** The next file is still there, meets its due, and leaves the account in order. */
  lemma DueNext(w: ReplyWorld, listing: seq<string>, n: nat, fates: nat -> Transport, states: seq<DrainState>,
                now: ReplyWorld)
    requires forall k :: 0 <= k < |listing| ==> listing[k] in w.pending
    requires forall a, b :: 0 <= a < b < |listing| ==> listing[a] != listing[b]
    requires n < |listing| && now == DrainRun(w, listing[..n], fates)
    requires Drained(w, listing, n, Dues(w, listing, fates), states, now)
    ensures listing[n] in now.pending
    ensures var next := AfterDrain(now, listing[n], fates(n));
      var state := DrainResult(now.spool, now.sent, listing[n], now.pending[listing[n]], fates(n));
      && next == DrainRun(w, listing[..n + 1], fates)
      && Drained(w, listing, n + 1, Dues(w, listing, fates), states + [state], next)
  {
    StillListed(w, listing, n, Dues(w, listing, fates), states, now);
    DrainRunStep(w, listing, n, fates);
    DueHere(w, listing, n, fates, now);
    AfterDrainEffect(now, listing[n], fates(n));
    DrainedStep(w, listing, n, Dues(w, listing, fates), states, now, AfterDrain(now, listing[n], fates(n)));
  }

  lemma StillListed(w: ReplyWorld, listing: seq<string>, n: nat, due: seq<DrainState>, states: seq<DrainState>,
                    now: ReplyWorld)
    requires n < |listing| && listing[n] in w.pending && Drained(w, listing, n, due, states, now)
    requires forall a, b :: 0 <= a < b < |listing| ==> listing[a] != listing[b]
    ensures listing[n] in now.pending && now.pending[listing[n]] == w.pending[listing[n]] && listing[n] !in listing[..n]
  {
    assert !IsGone(listing, states, listing[n]);
  }

  lemma DueHere(w: ReplyWorld, listing: seq<string>, n: nat, fates: nat -> Transport, now: ReplyWorld)
    requires forall k :: 0 <= k < |listing| ==> listing[k] in w.pending
    requires n < |listing| && listing[n] in now.pending && now.pending[listing[n]] == w.pending[listing[n]]
    requires now.spool == w.spool && KeysOf(now.sent, w.sent, listing[..n]) && listing[n] !in listing[..n]
    ensures Dues(w, listing, fates)[n] == DrainResult(now.spool, now.sent, listing[n], now.pending[listing[n]], fates(n))
  {
    SameResult(w.spool, now.sent, w.sent, listing[..n], listing[n], w.pending[listing[n]], fates(n));
  }

  lemma DrainedStep(w: ReplyWorld, listing: seq<string>, n: nat, due: seq<DrainState>, states: seq<DrainState>,
                    now: ReplyWorld, next: ReplyWorld)
    requires n < |listing| && Drained(w, listing, n, due, states, now) && listing[n] in now.pending
    requires DrainEffect(now, listing[n], due[n], next)
    ensures Drained(w, listing, n + 1, due, states + [due[n]], next)
  {
    SentGrows(now.sent, next.sent, w.sent, listing, n, now.pending[listing[n]]);
    assert due[..n + 1] == due[..n] + [due[n]];
    forall other | other in w.pending
      ensures other in next.pending <==> !IsGone(listing, states + [due[n]], other)
    {
      GoneGrows(listing, states, due[n], other);
    }
  }

  lemma DrainEnds(w: ReplyWorld, listing: seq<string>, fates: nat -> Transport, states: seq<DrainState>, now: ReplyWorld)
    requires forall k :: 0 <= k < |listing| ==> listing[k] in w.pending
    requires Drained(w, listing, |listing|, Dues(w, listing, fates), states, now)
    ensures |states| == |listing|
    ensures forall k :: 0 <= k < |listing| ==>
      states[k] == DrainResult(w.spool, w.sent, listing[k], w.pending[listing[k]], fates(k))
    ensures forall stem :: stem in w.pending ==> (stem in now.pending <==> !IsGone(listing, states, stem))
  {
    var due := Dues(w, listing, fates);
    assert due[..|listing|] == due;
  }

  /** Drains of the listed files, one after another. */
  function DrainRun(w: ReplyWorld, listing: seq<string>, fates: nat -> Transport): ReplyWorld
    decreases |listing|
  {
    if listing == [] then w
    else
      var n := |listing| - 1;
      var v := DrainRun(w, listing[..n], fates);
      if listing[n] in v.pending then AfterDrain(v, listing[n], fates(n)) else v
  }

  lemma DrainRunStep(w: ReplyWorld, listing: seq<string>, n: nat, fates: nat -> Transport)
    requires n < |listing| && listing[n] in DrainRun(w, listing[..n], fates).pending
    ensures DrainRun(w, listing[..n + 1], fates) == AfterDrain(DrainRun(w, listing[..n], fates), listing[n], fates(n))
  {
    assert listing[..n + 1][..n] == listing[..n];
  }

  /** Evidence beyond `sent0` is for the listed jobs only. */
  ghost predicate KeysOf(sent: map<Digest, Evidence>, sent0: map<Digest, Evidence>, listing: seq<string>) {
    && (forall k :: k in sent0 ==> k in sent)
    && (forall k :: k in sent && k !in sent0 ==> k.OfReply? && k.reply.jobId in listing)
  }

  lemma SameResult(disk: Disk, sent: map<Digest, Evidence>, sent0: map<Digest, Evidence>, done: seq<string>, stem: string,
                   file: OutboxFile, t: Transport)
    requires KeysOf(sent, sent0, done) && stem !in done
    ensures DrainResult(disk, sent, stem, file, t) == DrainResult(disk, sent0, stem, file, t)
  {
  }

  lemma SentGrows(before: map<Digest, Evidence>, after: map<Digest, Evidence>, sent0: map<Digest, Evidence>,
                  listing: seq<string>, n: nat, file: OutboxFile)
    requires n < |listing| && KeysOf(before, sent0, listing[..n])
    requires after == before
      || (NamedEnvelope(listing[n], file) && after == before[OfReply(file.envelope) := EvidenceOf(file.envelope)])
    ensures KeysOf(after, sent0, listing[..n + 1])
  {
    assert listing[..n + 1] == listing[..n] + [listing[n]];
  }
}
