/** Whole-run theorems of the peer spool. A run is any sequence of operations by any
    processes, each of which may die after any number of its atomic writes. */
module SpoolRuns {
  import opened Common
  import opened PeerRecords
  import opened SpoolSpec
  import opened SpoolSafety

  datatype Event = Event(op: Op, survive: nat)

  function Run(d: Disk, evs: seq<Event>): Disk
    decreases |evs|
  {
    if evs == [] then d else Run(Step(d, evs[0].op, evs[0].survive), evs[1..])
  }

  /** Every atomic write of the run, in order. */
  function Journal(d: Disk, evs: seq<Event>): seq<Write>
    decreases |evs|
  {
    if evs == [] then []
    else WritesOf(d, evs[0].op, evs[0].survive) + Journal(Step(d, evs[0].op, evs[0].survive), evs[1..])
  }

  lemma {:induction false} RunSafe(d: Disk, evs: seq<Event>)
    requires Inv(d)
    ensures Inv(Run(d, evs)) && Forward(d, Run(d, evs))
    decreases |evs|
  {
    if evs != [] {
      var e := Step(d, evs[0].op, evs[0].survive);
      StepSafe(d, evs[0].op, evs[0].survive);
      RunSafe(e, evs[1..]);
      ForwardTransitive(d, e, Run(d, evs));
    }
  }

  lemma ReachableSafe(before: seq<Event>, after: seq<Event>)
    ensures Inv(Run(EMPTY, before))
    ensures Inv(Run(Run(EMPTY, before), after))
    ensures Forward(Run(EMPTY, before), Run(Run(EMPTY, before), after))
  {
    RunSafe(EMPTY, before);
    RunSafe(Run(EMPTY, before), after);
  }

  // ---------------------------------------------------------------- job life cycle

  /** A job is never pending and running at once, a claim needs a running job of the same
      peer, and every stored output carries a token no newer than the claim's. */
  lemma LifeCycle(before: seq<Event>, after: seq<Event>, j: string)
    ensures var d := Run(EMPTY, before); var e := Run(d, after);
      && !(j in d.pending && j in d.running)
      && (j in d.running ==> j in e.running && e.running[j] == d.running[j] && j !in e.pending)
      && (j in d.claims ==> j in d.running && d.claims[j].destinationPeer == d.running[j].destinationPeer)
      && (forall t :: (j, t) in d.outputs ==>
            && j in d.claims && 1 <= t <= d.claims[j].fencingToken
            && d.outputs[(j, t)].outputDigest == OfText(d.outputs[(j, t)].text)
            && (j, t) in e.outputs && e.outputs[(j, t)] == d.outputs[(j, t)])
  {
    ReachableSafe(before, after);
    var d := Run(EMPTY, before);
    var e := Run(d, after);
    assert JobOk(d, j) && JobOk(e, j) && JobForward(d, e, j);
  }

  // ---------------------------------------------------------------- receipts

  /** Once written, a receipt, its envelope, its claim and its output never change, and
      the receipt validates in every later state. */
  lemma ReceiptIsForever(before: seq<Event>, after: seq<Event>, j: string)
    requires j in Run(EMPTY, before).receipts
    ensures var d := Run(EMPTY, before); var e := Run(d, after);
      && j in e.receipts && e.receipts[j] == d.receipts[j]
      && j in d.running && j in e.running && e.running[j] == d.running[j]
      && j in d.claims && j in e.claims && e.claims[j] == d.claims[j]
      && (j, d.claims[j].fencingToken) in d.outputs && (j, d.claims[j].fencingToken) in e.outputs
      && e.outputs[(j, d.claims[j].fencingToken)] == d.outputs[(j, d.claims[j].fencingToken)]
      && AcceptedReceipt(e, j) == Ok(Some(d.receipts[j]))
  {
    ReachableSafe(before, after);
    var d := Run(EMPTY, before);
    var e := Run(d, after);
    assert JobOk(d, j) && JobOk(e, j) && JobForward(d, e, j);
  }

  function ReceiptWrites(ws: seq<Write>, j: string): nat
    decreases |ws|
  {
    if ws == [] then 0
    else (if ws[0].PutReceipt? && ws[0].receipt.jobId == j then 1 else 0) + ReceiptWrites(ws[1..], j)
  }

  lemma {:induction false} ReceiptWritesAppend(u: seq<Write>, v: seq<Write>, j: string)
    ensures ReceiptWrites(u + v, j) == ReceiptWrites(u, j) + ReceiptWrites(v, j)
    decreases |u|
  {
    if u == [] {
      assert u + v == v;
    } else {
      assert (u + v)[0] == u[0] && (u + v)[1..] == u[1..] + v;
      ReceiptWritesAppend(u[1..], v, j);
    }
  }

  function Has(d: Disk, j: string): nat {
    if j in d.receipts then 1 else 0
  }

  lemma {:induction false} ReceiptWritesOfBatch(d: Disk, ws: seq<Write>, owner: string, j: string)
    requires Inv(d) && AllEnabled(d, ws, owner)
    ensures ReceiptWrites(ws, j) == Has(ApplyAll(d, ws), j) - Has(d, j)
    decreases |ws|
  {
    if ws != [] {
      WriteSafe(d, ws[0]);
      ReceiptWritesOfBatch(Apply(d, ws[0]), ws[1..], owner, j);
    }
  }

  lemma {:induction false} ReceiptWritesOfRun(d: Disk, evs: seq<Event>, j: string)
    requires Inv(d)
    ensures ReceiptWrites(Journal(d, evs), j) == Has(Run(d, evs), j) - Has(d, j)
    decreases |evs|
  {
    if evs != [] {
      var ws := WritesOf(d, evs[0].op, evs[0].survive);
      var e := Step(d, evs[0].op, evs[0].survive);
      PlanEnabled(d, evs[0].op, evs[0].survive);
      ReceiptWritesOfBatch(d, ws, JobOf(evs[0].op), j);
      StepSafe(d, evs[0].op, evs[0].survive);
      ReceiptWritesOfRun(e, evs[1..], j);
      ReceiptWritesAppend(ws, Journal(e, evs[1..]), j);
    }
  }

  /** In every run a receipt file is written at most once per job: exactly once when the
      final state holds one. */
  lemma AtMostOneReceipt(evs: seq<Event>, j: string)
    ensures ReceiptWrites(Journal(EMPTY, evs), j) == (if j in Run(EMPTY, evs).receipts then 1 else 0)
  {
    ReceiptWritesOfRun(EMPTY, evs, j);
  }

  // ---------------------------------------------------------------- fencing tokens

  /** The fencing tokens written for job `j`, in order. */
  function Tokens(ws: seq<Write>, j: string): seq<int>
    decreases |ws|
  {
    if ws == [] then []
    else (if ws[0].PutClaim? && ws[0].claim.jobId == j then [ws[0].claim.fencingToken] else []) + Tokens(ws[1..], j)
  }

  function CountUp(a: int, b: int): seq<int>
    decreases b - a
  {
    if a >= b then [] else [a + 1] + CountUp(a + 1, b)
  }

  function Token(d: Disk, j: string): int {
    if j in d.claims then d.claims[j].fencingToken else 0
  }

  lemma {:induction false} CountUpAppend(a: int, b: int, c: int)
    requires a <= b <= c
    ensures CountUp(a, b) + CountUp(b, c) == CountUp(a, c)
    decreases b - a
  {
    if a < b {
      CountUpAppend(a + 1, b, c);
    }
  }

  lemma {:induction false} TokensAppend(u: seq<Write>, v: seq<Write>, j: string)
    ensures Tokens(u + v, j) == Tokens(u, j) + Tokens(v, j)
    decreases |u|
  {
    if u == [] {
      assert u + v == v;
    } else {
      assert (u + v)[0] == u[0] && (u + v)[1..] == u[1..] + v;
      TokensAppend(u[1..], v, j);
    }
  }

  lemma TokenOfWrite(d: Disk, w: Write, j: string)
    requires Inv(d) && Enabled(d, w)
    ensures Token(d, j) <= Token(Apply(d, w), j)
    ensures Tokens([w], j) == CountUp(Token(d, j), Token(Apply(d, w), j))
  {
    assert JobOk(d, j);
    assert [w][1..] == [];
    assert Tokens([], j) == [];
  }

  lemma {:induction false} TokensOfBatch(d: Disk, ws: seq<Write>, owner: string, j: string)
    requires Inv(d) && AllEnabled(d, ws, owner)
    ensures Token(d, j) <= Token(ApplyAll(d, ws), j)
    ensures Tokens(ws, j) == CountUp(Token(d, j), Token(ApplyAll(d, ws), j))
    decreases |ws|
  {
    if ws != [] {
      var e := Apply(d, ws[0]);
      WriteSafe(d, ws[0]);
      TokenOfWrite(d, ws[0], j);
      TokensOfBatch(e, ws[1..], owner, j);
      assert ws == [ws[0]] + ws[1..];
      TokensAppend([ws[0]], ws[1..], j);
      CountUpAppend(Token(d, j), Token(e, j), Token(ApplyAll(d, ws), j));
    }
  }

  lemma {:induction false} TokensOfRun(d: Disk, evs: seq<Event>, j: string)
    requires Inv(d)
    ensures Token(d, j) <= Token(Run(d, evs), j)
    ensures Tokens(Journal(d, evs), j) == CountUp(Token(d, j), Token(Run(d, evs), j))
    decreases |evs|
  {
    if evs != [] {
      var ws := WritesOf(d, evs[0].op, evs[0].survive);
      var e := Step(d, evs[0].op, evs[0].survive);
      PlanEnabled(d, evs[0].op, evs[0].survive);
      TokensOfBatch(d, ws, JobOf(evs[0].op), j);
      StepSafe(d, evs[0].op, evs[0].survive);
      TokensOfRun(e, evs[1..], j);
      TokensAppend(ws, Journal(e, evs[1..]), j);
      CountUpAppend(Token(d, j), Token(e, j), Token(Run(d, evs), j));
    }
  }

  /** The claims ever written for a job carry the tokens 1, 2, 3, ... with none repeated or
      skipped, whichever processes crash in between. */
  lemma TokensAreConsecutive(evs: seq<Event>, j: string)
    ensures Tokens(Journal(EMPTY, evs), j) == CountUp(0, Token(Run(EMPTY, evs), j))
  {
    TokensOfRun(EMPTY, evs, j);
  }

  /** Writing operations that name the token they act under. */
  ghost predicate ActsUnder(op: Op, j: string, token: int) {
    match op
    case WriteOutput(id, _, t, _) => id == j && t == token
    case ProduceReceipt(id, _, t, _, _, _, _) => id == j && t == token
    case AcceptReceipt(r) => r.jobId == j && r.fencingToken == token
    case _ => false
  }

  /** A worker whose claim was taken over is refused for ever: no write under its token
      changes any file, and nothing can make its token current again. */
  lemma StaleWorkerIsFenced(
    before: seq<Event>, takeover: seq<Event>, after: seq<Event>, j: string, op: Op, survive: nat)
    requires j in Run(EMPTY, before).claims
    requires ActsUnder(op, j, Token(Run(EMPTY, before), j))
    requires Token(Run(Run(EMPTY, before), takeover), j) != Token(Run(EMPTY, before), j)
    ensures var f := Run(Run(Run(EMPTY, before), takeover), after);
      && OutcomeOf(f, op, survive).Refused?
      && Step(f, op, survive) == f
      && Token(f, j) > Token(Run(EMPTY, before), j)
  {
    var d := Run(EMPTY, before);
    var e := Run(d, takeover);
    var f := Run(e, after);
    RunSafe(EMPTY, before);
    RunSafe(d, takeover);
    RunSafe(e, after);
    assert JobOk(d, j) && JobForward(d, e, j) && JobOk(e, j) && JobForward(e, f, j) && JobOk(f, j);
  }

  // ---------------------------------------------------------------- crash recovery

  /** A rename that crashed before its claim was written is recovered at token 1, and the
      recovery ends in the state an uninterrupted claim by the recoverer would have left. */
  lemma OrphanedRenameRecovers(d: Disk, j: string, peer: string, t0: real, now: real)
    requires Inv(d) && PlanOf(d, TakeJob(j, peer, t0)).Commit?
    ensures var e := Step(d, TakeJob(j, peer, t0), 1);
      && OutcomeOf(d, TakeJob(j, peer, t0), 1) == Crashed
      && OutcomeOf(e, Reclaim(j, peer, now), 1) == Done(ClaimValue(NewClaim(j, peer, 1, now)))
      && Step(e, Reclaim(j, peer, now), 1) == Step(d, TakeJob(j, peer, now), 2)
  {
    assert JobOk(d, j);
    var take := TakeJob(j, peer, t0);
    var e := Step(d, take, 1);
    assert WritesOf(d, take, 1) == [StartRunning(j)];
    assert e == Apply(d, StartRunning(j)) by { ApplyAllOne(d, StartRunning(j)); }
    var c := PutClaim(NewClaim(j, peer, 1, now));
    assert WritesOf(e, Reclaim(j, peer, now), 1) == [c];
    ApplyAllOne(e, c);
    assert WritesOf(d, TakeJob(j, peer, now), 2) == [StartRunning(j), c];
    ApplyAllTwo(d, StartRunning(j), c);
  }

  /** A receipt producer that dies after any of its writes may simply run again: the retry
      returns the receipt the first run would have returned and reaches the same files,
      and one more repetition changes nothing. */
  lemma ProduceConverges(
    d: Disk, j: string, peer: string, token: int, text: string, ref: SourceRef,
    payload: Digest, envelope: Digest, crash: nat)
    requires Inv(d) && PlanOf(d, ProduceReceipt(j, peer, token, text, ref, payload, envelope)).Commit?
    ensures var op := ProduceReceipt(j, peer, token, text, ref, payload, envelope);
      var e := Step(d, op, crash); var full := Step(d, op, 2);
      && OutcomeOf(d, op, 2).Done?
      && OutcomeOf(e, op, 2) == OutcomeOf(d, op, 2)
      && Step(e, op, 2) == full
      && j in full.receipts && OutcomeOf(d, op, 2) == Done(ReceiptValue(full.receipts[j]))
      && OutcomeOf(full, op, 2) == OutcomeOf(d, op, 2) && Step(full, op, 2) == full
  {
    var op := ProduceReceipt(j, peer, token, text, ref, payload, envelope);
    assert JobOk(d, j);
    var job := d.running[j];
    var receipt := Receipt(j, job.sourceDmId, peer, token, OfText(text), payload, envelope, ref);
    var output := OutputRecord(job, j, peer, token, text);
    var o, r := PutOutput(output), PutReceipt(receipt);
    var done := Apply(Apply(d, o), r);
    ApplyAllOne(d, o);
    ApplyAllOne(d, r);
    ApplyAllOne(Apply(d, o), r);
    ApplyAllTwo(d, o, r);
    if j in d.receipts {
    } else if (j, token) in d.outputs {
      assert WritesOf(d, op, 2) == [r];
      assert WritesOf(d, op, crash) == if crash == 0 then [] else [r];
    } else {
      assert WritesOf(d, op, 2) == [o, r];
      assert WritesOf(d, op, crash) == if crash == 0 then [] else if crash == 1 then [o] else [o, r];
      assert WritesOf(Apply(d, o), op, 2) == [r];
    }
  }

  lemma TakeoverSucceeds(d: Disk, j: string, now: real)
    requires Inv(d) && j in d.running && j !in d.receipts
    requires j in d.claims ==> now >= d.claims[j].leaseExpiresAt
    ensures var peer := d.running[j].destinationPeer;
      var c := NewClaim(j, peer, Token(d, j) + 1, now);
      && OutcomeOf(d, Reclaim(j, peer, now), 1) == Done(ClaimValue(c))
      && Step(d, Reclaim(j, peer, now), 1) == Apply(d, PutClaim(c))
      && (j, c.fencingToken) !in d.outputs
  {
    assert JobOk(d, j);
    var peer := d.running[j].destinationPeer;
    var c := NewClaim(j, peer, Token(d, j) + 1, now);
    assert WritesOf(d, Reclaim(j, peer, now), 1) == [PutClaim(c)];
    ApplyAllOne(d, PutClaim(c));
  }

  lemma FreshOwnerSucceeds(
    e: Disk, j: string, peer: string, token: int, text: string, ref: SourceRef, payload: Digest)
    requires Inv(e) && OwnsClaim(e, j, peer, token)
    requires j !in e.receipts && (j, token) !in e.outputs
    requires ValidSourceRef(ref, e.running[j].sourceDmId) && ValidDigest(payload)
    ensures var produce := ProduceReceipt(j, peer, token, text, ref, payload, OfJob(e.running[j]));
      var f := Step(e, produce, 2);
      && j in f.receipts && f.receipts[j].outputDigest == OfText(text) && f.receipts[j].sourceRef == ref
      && OutcomeOf(e, produce, 2) == Done(ReceiptValue(f.receipts[j]))
  {
    assert JobOk(e, j);
    var job := e.running[j];
    var receipt := Receipt(j, job.sourceDmId, peer, token, OfText(text), payload, OfJob(job), ref);
    var o := PutOutput(OutputRecord(job, j, peer, token, text));
    assert WritesOf(e, ProduceReceipt(j, peer, token, text, ref, payload, OfJob(job)), 2) == [o, PutReceipt(receipt)];
    ApplyAllTwo(e, o, PutReceipt(receipt));
  }

  /** From `d` a takeover of job `j` at `now` succeeds, and the new owner's receipt for `text`
      under provenance `ref` then succeeds too. */
  ghost predicate Completable(d: Disk, j: string, now: real, text: string, ref: SourceRef, payload: Digest)
    requires j in d.running
  {
    var peer, job := d.running[j].destinationPeer, d.running[j];
    var c := NewClaim(j, peer, Token(d, j) + 1, now);
    var e := Step(d, Reclaim(j, peer, now), 1);
    && OutcomeOf(d, Reclaim(j, peer, now), 1) == Done(ClaimValue(c))
    && CompletableUnder(e, j, ProduceReceipt(j, peer, c.fencingToken, text, ref, payload, OfJob(job)), text, ref)
  }

  ghost predicate CompletableUnder(e: Disk, j: string, produce: Op, text: string, ref: SourceRef) {
    var f := Step(e, produce, 2);
    && j in f.receipts && f.receipts[j].outputDigest == OfText(text) && f.receipts[j].sourceRef == ref
    && OutcomeOf(e, produce, 2) == Done(ReceiptValue(f.receipts[j]))
  }

  lemma TakeoverCompletes(d: Disk, j: string, now: real, text: string, ref: SourceRef, payload: Digest)
    requires Inv(d) && j in d.running && j !in d.receipts
    requires j in d.claims ==> now >= d.claims[j].leaseExpiresAt
    requires ValidSourceRef(ref, d.running[j].sourceDmId) && ValidDigest(payload)
    ensures Completable(d, j, now, text, ref, payload)
  {
    var peer := d.running[j].destinationPeer;
    TakeoverSucceeds(d, j, now);
    StepSafe(d, Reclaim(j, peer, now), 1);
    var c := NewClaim(j, peer, Token(d, j) + 1, now);
    var e := Apply(d, PutClaim(c));
    FreshOwnerSucceeds(e, j, peer, c.fencingToken, text, ref, payload);
  }

  /** No crash, stale worker or abandoned output can wedge a job: in every reachable state a
      running job without a receipt can be taken over once its lease is over, and the new
      owner can then produce a receipt for any text. */
  lemma JobIsNeverWedged(
    evs: seq<Event>, j: string, now: real, text: string, ref: SourceRef, payload: Digest)
    requires j in Run(EMPTY, evs).running && j !in Run(EMPTY, evs).receipts
    requires j in Run(EMPTY, evs).claims ==> now >= Run(EMPTY, evs).claims[j].leaseExpiresAt
    requires ValidSourceRef(ref, Run(EMPTY, evs).running[j].sourceDmId) && ValidDigest(payload)
    ensures Completable(Run(EMPTY, evs), j, now, text, ref, payload)
  {
    RunSafe(EMPTY, evs);
    TakeoverCompletes(Run(EMPTY, evs), j, now, text, ref, payload);
  }
}
