/** When each spool call succeeds, and what it leaves, in any state a run can reach. */
module SpoolAnswers {
  import opened Common
  import opened PeerRecords
  import opened SpoolSpec
  import opened SpoolSafety
  import opened SpoolRuns

  // ---------------------------------------------------------------- what a record may hold

  /** The text a reference is stored as. */
  function RefText(d: DeliveryRef): string {
    match d
    case Canonical(ref) => SourceRefText(ref)
    case Foreign(text, _) => text
  }

  ghost predicate OneLine(text: string) {
    forall k :: 0 <= k < |text| ==> text[k] != '\n' && text[k] != '\r'
  }

  ghost predicate IsFileName(s: string) {
    && s != "" && s != "."
    && forall k :: 0 <= k < |s| ==> s[k] != '/'
  }

  lemma HexIsPlain(n: nat)
    requires n < 16
    ensures HexDigit(n) != '\n' && HexDigit(n) != '\r'
  {
    var hex := "0123456789abcdef";
    assert forall k :: 0 <= k < 16 ==> hex[k] in {'0', '1', '2', '3', '4', '5', '6', '7', '8', '9', 'a', 'b', 'c', 'd', 'e', 'f'};
  }

  lemma UnicodeIsOneLine(n: nat)
    requires n < 0x10000
    ensures OneLine(UnicodeEscape(n))
  {
    HexIsPlain(n / 4096);
    HexIsPlain(n / 256 % 16);
    HexIsPlain(n / 16 % 16);
    HexIsPlain(n % 16);
  }

  lemma EscapedIsOneLine(c: char)
    ensures OneLine(JsonChar(c))
  {
    if !IsShort(c) && !(' ' <= c <= '~') {
      OtherIsOneLine(c);
    }
  }

  /** Characters with an escape of their own. */
  predicate IsShort(c: char) {
    c == '"' || c == '\\' || c == '\n' || c == '\r' || c == '\t' || c == 8 as char || c == 12 as char
  }

  lemma OtherIsOneLine(c: char)
    requires !IsShort(c) && !(' ' <= c <= '~')
    ensures OneLine(JsonChar(c))
  {
    var n := c as int;
    if n < 0x10000 {
      UnicodeIsOneLine(n);
      assert JsonChar(c) == UnicodeEscape(n);
    } else {
      var high, low := 0xD800 + (n - 0x10000) / 1024 % 1024, 0xDC00 + (n - 0x10000) % 1024;
      UnicodeIsOneLine(high);
      UnicodeIsOneLine(low);
      OneLineJoins(UnicodeEscape(high), UnicodeEscape(low));
      assert JsonChar(c) == UnicodeEscape(high) + UnicodeEscape(low);
    }
  }

  lemma {:induction false} JsonIsOneLine(s: string)
    ensures OneLine(JsonString(s))
    decreases |s|
  {
    if s != "" {
      EscapedIsOneLine(s[0]);
      JsonIsOneLine(s[1..]);
    }
  }

  lemma DigitsAreOneLine(n: int)
    ensures OneLine(IntText(n)) && IntText(n) != ""
  {
  }

  lemma OneLineJoins(a: string, b: string)
    requires OneLine(a) && OneLine(b)
    ensures OneLine(a + b)
  {
  }

  /** Canonical provenance is one line, whatever characters the peer's name has. */
  lemma SourceRefIsOneLine(ref: SourceRef)
    ensures OneLine(SourceRefText(ref)) && SourceRefText(ref) != ""
  {
    var tail := match ref.sourcePeer
      case None => ""
      case Some(peer) => ",\"source_peer\":\"" + JsonString(peer) + "\"";
    if ref.sourcePeer.Some? {
      JsonIsOneLine(ref.sourcePeer.value);
      OneLineJoins(",\"source_peer\":\"", JsonString(ref.sourcePeer.value));
      OneLineJoins(",\"source_peer\":\"" + JsonString(ref.sourcePeer.value), "\"");
    }
    DigitsAreOneLine(ref.queueClaimFence);
    DigitsAreOneLine(ref.queueEntryId);
    DigitsAreOneLine(ref.sourceDmId);
    var a := "{\"queue_claim_fence\":" + IntText(ref.queueClaimFence);
    var b := a + ",\"queue_entry_id\":" + IntText(ref.queueEntryId);
    var c := b + ",\"source_dm_id\":" + IntText(ref.sourceDmId);
    OneLineJoins("{\"queue_claim_fence\":", IntText(ref.queueClaimFence));
    OneLineJoins(a, ",\"queue_entry_id\":");
    OneLineJoins(a + ",\"queue_entry_id\":", IntText(ref.queueEntryId));
    OneLineJoins(b, ",\"source_dm_id\":");
    OneLineJoins(b + ",\"source_dm_id\":", IntText(ref.sourceDmId));
    OneLineJoins(c, tail);
    OneLineJoins(c + tail, "}");
    assert SourceRefText(ref) == c + tail + "}";
  }

  /** An envelope is usable exactly when it has schema version 1, two file names and a reference
      text of 1 to 256 characters on one line. */
  lemma JobIsValidExactlyWhen(job: Job)
    ensures ValidJob(job) <==>
      && job.schemaVersion == 1 && IsFileName(job.jobId) && IsFileName(job.destinationPeer)
      && 1 <= |RefText(job.deliveryRef)| <= 256 && OneLine(RefText(job.deliveryRef))
  {
    if job.deliveryRef.Canonical? {
      SourceRefIsOneLine(job.deliveryRef.ref);
    }
  }

  /** Provenance is usable exactly when its three numbers are positive, the entry is the DM, and a
      peer, where there is one, is a file name. */
  ghost predicate NamesDm(ref: SourceRef, dm: int) {
    && dm >= 1 && ref.sourceDmId == dm && ref.queueEntryId == dm && ref.queueClaimFence >= 1
    && (ref.sourcePeer.None? || IsFileName(ref.sourcePeer.value))
  }

  // ---------------------------------------------------------------- answers

  /** The job runs under a claim. */
  ghost predicate Runs(d: Disk, j: string, peer: string, token: int) {
    && j in d.running && j in d.claims && d.running[j].destinationPeer == peer
    && d.claims[j].fencingToken == token
  }

  /** An envelope goes in exactly when it is usable and no other one has its id; a second time it
      changes nothing. */
  lemma EnqueueSucceedsExactlyWhen(evs: seq<Event>, job: Job)
    ensures var d, op, j := Run(EMPTY, evs), Enqueue(job), job.jobId;
      var e := Step(d, op, 2);
      var free := j !in d.pending && j !in d.running;
      var same := (j in d.pending && d.pending[j] == job) || (j in d.running && d.running[j] == job);
      && (OutcomeOf(d, op, 2) == Done(JobValue(job)) <==> ValidJob(job) && (free || same))
      && (OutcomeOf(d, op, 2).Refused? <==> !(ValidJob(job) && (free || same)))
      && e == if ValidJob(job) && free then d.(pending := d.pending[j := job]) else d
  {
    RunSafe(EMPTY, evs);
    var d := Run(EMPTY, evs);
    assert JobOk(d, job.jobId);
    StepShape(d, Enqueue(job), 2);
  }

  /** A pending job is taken by its own peer and by nobody else, and then runs under token 1. */
  lemma TakeSucceedsExactlyWhen(evs: seq<Event>, j: string, peer: string, now: real)
    ensures var d, op := Run(EMPTY, evs), TakeJob(j, peer, now);
      var e := Step(d, op, 2);
      var due := j in d.pending && d.pending[j].destinationPeer == peer;
      && (OutcomeOf(d, op, 2) == Done(ClaimValue(Claim(j, peer, 1, now + 300.0))) <==> due)
      && (OutcomeOf(d, op, 2).Refused? <==> !due) && (!due ==> e == d)
      && (due ==> j !in e.pending && Runs(e, j, peer, 1) && e.running[j] == d.pending[j])
  {
    RunSafe(EMPTY, evs);
    var d := Run(EMPTY, evs);
    assert JobOk(d, j);
    StepShape(d, TakeJob(j, peer, now), 2);
  }

  /** An output is written exactly once per claim, by the claim's owner, with its text's digest. */
  lemma OutputSucceedsExactlyWhen(evs: seq<Event>, j: string, peer: string, token: int, text: string)
    ensures var d, op := Run(EMPTY, evs), WriteOutput(j, peer, token, text);
      var e := Step(d, op, 2);
      var due := Runs(d, j, peer, token) && (j, token) !in d.outputs;
      && (OutcomeOf(d, op, 2).Done? <==> due) && (OutcomeOf(d, op, 2).Refused? <==> !due) && (!due ==> e == d)
      && (due ==>
            && (j, token) in e.outputs && OutcomeOf(d, op, 2) == Done(OutputValue(e.outputs[(j, token)]))
            && e.outputs[(j, token)] == Output(j, d.running[j].sourceDmId, peer, token, text, OfText(text)))
  {
    RunSafe(EMPTY, evs);
    var d := Run(EMPTY, evs);
    assert JobOk(d, j);
    StepShape(d, WriteOutput(j, peer, token, text), 2);
  }

  /** The receipt that a claim, an output and an envelope in the spool permit. */
  ghost predicate Tells(d: Disk, r: Receipt) {
    var j := r.jobId;
    && Runs(d, j, r.destinationPeer, r.fencingToken) && d.running[j].sourceDmId == r.sourceDmId
    && r.envelopeDigest == OfJob(d.running[j]) && !r.payloadDigest.Malformed? && NamesDm(r.sourceRef, r.sourceDmId)
  }

  /** A receipt made elsewhere is stored exactly when the job has none, it tells the claim and the
      envelope, and the output it digests is durable. */
  lemma AcceptSucceedsExactlyWhen(evs: seq<Event>, r: Receipt)
    ensures var d, op, j := Run(EMPTY, evs), AcceptReceipt(r), r.jobId;
      var due := Tells(d, r) && j !in d.receipts && (j, r.fencingToken) in d.outputs
                 && r.outputDigest == OfText(d.outputs[(j, r.fencingToken)].text);
      && (OutcomeOf(d, op, 2).Done? <==> due) && (OutcomeOf(d, op, 2).Refused? <==> !due)
      && Step(d, op, 2) == if due then d.(receipts := d.receipts[j := r]) else d
  {
    RunSafe(EMPTY, evs);
    var d := Run(EMPTY, evs);
    assert JobOk(d, r.jobId);
    StepShape(d, AcceptReceipt(r), 2);
    if (r.jobId, r.fencingToken) in d.outputs {
      assert OutputOk(d, r.jobId, r.fencingToken);
    }
  }

  /** The owner's receipt succeeds exactly when it tells the claim and the envelope and agrees with
      what the job already has: the same output text, the same receipt. */
  lemma ProduceSucceedsExactlyWhen(
    evs: seq<Event>, j: string, peer: string, token: int, text: string, ref: SourceRef, payload: Digest, envelope: Digest)
    ensures var d, op := Run(EMPTY, evs), ProduceReceipt(j, peer, token, text, ref, payload, envelope);
      && (OutcomeOf(d, op, 2).Done? <==> Agrees(d, j, peer, token, text, ref, payload, envelope))
      && (OutcomeOf(d, op, 2).Refused? <==> !Agrees(d, j, peer, token, text, ref, payload, envelope))
      && (OutcomeOf(d, op, 2).Refused? ==> Step(d, op, 2) == d)
      && (OutcomeOf(d, op, 2).Done? ==>
            var r := Receipt(j, d.running[j].sourceDmId, peer, token, OfText(text), payload, envelope, ref);
            var o := Output(j, d.running[j].sourceDmId, peer, token, text, OfText(text));
            && OutcomeOf(d, op, 2) == Done(ReceiptValue(r))
            && Step(d, op, 2) == d.(receipts := d.receipts[j := r], outputs := d.outputs[(j, token) := o]))
  {
    RunSafe(EMPTY, evs);
    var d := Run(EMPTY, evs);
    var op := ProduceReceipt(j, peer, token, text, ref, payload, envelope);
    StepShape(d, op, 2);
    ProducesIfAgreed(d, j, peer, token, text, ref, payload, envelope);
    if OutcomeOf(d, op, 2).Done? {
      ProducedIs(d, j, peer, token, text, ref, payload, envelope);
    }
  }

  lemma ProducesIfAgreed(d: Disk, j: string, peer: string, token: int, text: string, ref: SourceRef, payload: Digest,
                         envelope: Digest)
    requires Inv(d)
    ensures PlanOf(d, ProduceReceipt(j, peer, token, text, ref, payload, envelope)).Commit?
      <==> Agrees(d, j, peer, token, text, ref, payload, envelope)
    ensures PlanOf(d, ProduceReceipt(j, peer, token, text, ref, payload, envelope)).Commit? ==>
      |PlanOf(d, ProduceReceipt(j, peer, token, text, ref, payload, envelope)).writes| <= 2
  {
    assert JobOk(d, j);
    if (j, token) in d.outputs {
      assert OutputOk(d, j, token);
    }
  }

  lemma ProducedIs(d: Disk, j: string, peer: string, token: int, text: string, ref: SourceRef, payload: Digest,
                   envelope: Digest)
    requires Inv(d) && PlanOf(d, ProduceReceipt(j, peer, token, text, ref, payload, envelope)).Commit?
    ensures var op := ProduceReceipt(j, peer, token, text, ref, payload, envelope);
      && j in d.running
      && var r := Receipt(j, d.running[j].sourceDmId, peer, token, OfText(text), payload, envelope, ref);
        var o := Output(j, d.running[j].sourceDmId, peer, token, text, OfText(text));
        && OutcomeOf(d, op, 2) == Done(ReceiptValue(r))
        && Step(d, op, 2) == d.(receipts := d.receipts[j := r], outputs := d.outputs[(j, token) := o])
  {
    var op := ProduceReceipt(j, peer, token, text, ref, payload, envelope);
    StepShape(d, op, 2);
    assert JobOk(d, j);
    if j in d.receipts {
      assert OutputOk(d, j, token);
    }
  }

  ghost predicate Agrees(d: Disk, j: string, peer: string, token: int, text: string, ref: SourceRef, payload: Digest,
                         envelope: Digest)
  {
    && j in d.running
    && var r := Receipt(j, d.running[j].sourceDmId, peer, token, OfText(text), payload, envelope, ref);
      && Tells(d, r) && (j in d.receipts ==> d.receipts[j] == r)
      && ((j, token) in d.outputs ==> d.outputs[(j, token)].text == text)
  }

  /** Asked for a job's receipt, the spool refuses exactly an unusable name and otherwise tells what
      is stored. */
  lemma ReceiptIsShown(evs: seq<Event>, j: string)
    ensures var d := Run(EMPTY, evs);
      && (!IsFileName(j) ==> AcceptedReceipt(d, j).Err?)
      && (IsFileName(j) ==> AcceptedReceipt(d, j) == Ok(if j in d.receipts then Some(d.receipts[j]) else None))
  {
    RunSafe(EMPTY, evs);
    var d := Run(EMPTY, evs);
    assert JobOk(d, j);
  }

  /** Published together: a job with a receipt has the output it digests, and no other job does. */
  lemma ResultIsReceiptAndOutput(evs: seq<Event>, j: string)
    ensures var d := Run(EMPTY, evs);
      && (AcceptedResult(d, j).Ok? && AcceptedResult(d, j).value.Some? <==> j in d.receipts)
      && (j in d.receipts ==>
            var (r, o) := AcceptedResult(d, j).value.value;
            j in d.claims && (j, d.claims[j].fencingToken) in d.outputs && r == d.receipts[j] && o.text == d.outputs[(j, d.claims[j].fencingToken)].text && r.outputDigest == OfText(o.text))
  {
    RunSafe(EMPTY, evs);
    var d := Run(EMPTY, evs);
    assert JobOk(d, j);
    if j in d.receipts {
      assert OutputOk(d, j, d.receipts[j].fencingToken);
    }
  }
}
