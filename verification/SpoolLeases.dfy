/** Leases over whole runs: what a claim's 300 seconds promise its holder, and when they end. */
module SpoolLeases {
  import opened Common
  import opened PeerRecords
  import opened SpoolSpec
  import opened SpoolSafety
  import opened SpoolRuns

  // ---------------------------------------------------------------- when claims are issued

  /** The clock an operation reads. */
  function Clock(op: Op): Option<real> {
    match op
    case TakeJob(_, _, now) => Some(now)
    case Reclaim(_, _, now) => Some(now)
    case _ => None
  }

  /** The clock of each claim of job `j` written in the batch. */
  function IssuesOf(ws: seq<Write>, op: Op, j: string): seq<real>
    decreases |ws|
  {
    if ws == [] then []
    else
      (if ws[0].PutClaim? && ws[0].claim.jobId == j && Clock(op).Some? then [Clock(op).value] else [])
      + IssuesOf(ws[1..], op, j)
  }

  /** When the claims of job `j` were issued, in the order of the journal. */
  function Issues(d: Disk, evs: seq<Event>, j: string): seq<real>
    decreases |evs|
  {
    if evs == [] then []
    else
      IssuesOf(WritesOf(d, evs[0].op, evs[0].survive), evs[0].op, j)
      + Issues(Step(d, evs[0].op, evs[0].survive), evs[1..], j)
  }

  ghost predicate Spaced(times: seq<real>, gap: real) {
    forall i :: 0 <= i < |times| - 1 ==> times[i + 1] >= times[i] + gap
  }

  function ClaimAt(d: Disk, j: string): Option<Claim> {
    if j in d.claims then Some(d.claims[j]) else None
  }

  /** From claim `prior` to claim `later` by claims issued at `times`: each one when the lease of
      the one before is over, the last one good for 300 seconds. */
  ghost predicate Timed(prior: Option<Claim>, later: Option<Claim>, times: seq<real>) {
    && Spaced(times, 300.0)
    && (times == [] ==> later == prior)
    && (times != [] ==> later.Some? && later.value.leaseExpiresAt == times[|times| - 1] + 300.0)
    && (times != [] && prior.Some? ==> times[0] >= prior.value.leaseExpiresAt)
  }

  lemma TimedJoins(a: Option<Claim>, b: Option<Claim>, c: Option<Claim>, first: seq<real>, rest: seq<real>)
    requires |first| <= 1 && Timed(a, b, first) && Timed(b, c, rest)
    ensures Timed(a, c, first + rest)
  {
    var all := first + rest;
    forall i | 0 <= i < |all| - 1 ensures all[i + 1] >= all[i] + 300.0 {
      if i >= |first| {
        assert all[i] == rest[i - |first|] && all[i + 1] == rest[i + 1 - |first|];
      }
    }
    assert first == [] ==> all == rest;
  }

  lemma SingleIssue(w: Write, op: Op, j: string)
    ensures IssuesOf([], op, j) == []
    ensures IssuesOf([w], op, j)
         == if w.PutClaim? && w.claim.jobId == j && Clock(op).Some? then [Clock(op).value] else []
  {
    assert [w][1..] == [];
  }

  lemma TwoIssues(w: Write, x: Write, op: Op, j: string)
    requires !w.PutClaim?
    ensures IssuesOf([w, x], op, j) == IssuesOf([x], op, j)
  {
    assert [w, x][1..] == [x];
  }

  lemma StepIssues(d: Disk, op: Op, survive: nat, j: string)
    requires Inv(d)
    ensures var times := IssuesOf(WritesOf(d, op, survive), op, j);
      |times| <= 1 && Timed(ClaimAt(d, j), ClaimAt(Step(d, op, survive), j), times)
  {
    var ws := WritesOf(d, op, survive);
    if op.TakeJob? {
      TakeIssues(d, op, survive, j);
    } else if op.Reclaim? {
      ReclaimIssues(d, op, survive, j);
    } else {
      OtherIssues(d, ws, op, j);
    }
  }

  lemma TakeIssues(d: Disk, op: Op, survive: nat, j: string)
    requires Inv(d) && op.TakeJob?
    ensures var times := IssuesOf(WritesOf(d, op, survive), op, j);
      |times| <= 1 && Timed(ClaimAt(d, j), ClaimAt(Step(d, op, survive), j), times)
  {
    TakeWrites(d, op, survive);
    var ws := WritesOf(d, op, survive);
    if |ws| == 2 {
      TwoIssues(ws[0], ws[1], op, j);
      SingleIssue(ws[1], op, j);
      ApplyAllTwo(d, ws[0], ws[1]);
      ClaimIsTimed(Apply(d, ws[0]), ws[1].claim, j, op.now);
    } else if |ws| == 1 {
      SingleIssue(ws[0], op, j);
      ApplyAllOne(d, ws[0]);
    }
  }

  /** A first claim is written for a job that has none, after its envelope has moved. */
  lemma TakeWrites(d: Disk, op: Op, survive: nat)
    requires Inv(d) && op.TakeJob?
    ensures var ws := WritesOf(d, op, survive);
      var start, claim := StartRunning(op.jobId), PutClaim(NewClaim(op.jobId, op.peer, 1, op.now));
      && (ws == [] || ws == [start] || ws == [start, claim]) && (ws != [] ==> op.jobId !in d.claims)
  {
    assert JobOk(d, op.jobId);
  }

  lemma ClaimIsTimed(d: Disk, c: Claim, j: string, now: real)
    requires c.leaseExpiresAt == now + 300.0
    requires c.jobId in d.claims ==> now >= d.claims[c.jobId].leaseExpiresAt
    ensures Timed(ClaimAt(d, j), ClaimAt(Apply(d, PutClaim(c)), j), if c.jobId == j then [now] else [])
  {
  }

  lemma ReclaimIssues(d: Disk, op: Op, survive: nat, j: string)
    requires Inv(d) && op.Reclaim?
    ensures var times := IssuesOf(WritesOf(d, op, survive), op, j);
      |times| <= 1 && Timed(ClaimAt(d, j), ClaimAt(Step(d, op, survive), j), times)
  {
    ReclaimWrites(d, op, survive);
    var ws := WritesOf(d, op, survive);
    if ws != [] {
      SingleIssue(ws[0], op, j);
      ApplyAllOne(d, ws[0]);
      ClaimIsTimed(d, ws[0].claim, j, op.now);
    }
  }

  /** A takeover writes one claim, and only over a lease that has ended. */
  lemma ReclaimWrites(d: Disk, op: Op, survive: nat)
    requires op.Reclaim?
    ensures var ws := WritesOf(d, op, survive);
      ws != [] ==>
        && ws == [ws[0]] && ws[0].PutClaim? && ws[0].claim.jobId == op.jobId && ws[0].claim.leaseExpiresAt == op.now + 300.0
        && (op.jobId in d.claims ==> op.now >= d.claims[op.jobId].leaseExpiresAt)
  {
  }

  lemma {:induction false} OtherIssues(d: Disk, ws: seq<Write>, op: Op, j: string)
    requires forall k :: 0 <= k < |ws| ==> !ws[k].PutClaim?
    ensures IssuesOf(ws, op, j) == [] && ClaimAt(ApplyAll(d, ws), j) == ClaimAt(d, j)
    decreases |ws|
  {
    if ws != [] {
      OtherIssues(Apply(d, ws[0]), ws[1..], op, j);
    }
  }

  lemma {:induction false} IssuesAreSpaced(d: Disk, evs: seq<Event>, j: string)
    requires Inv(d)
    ensures Timed(ClaimAt(d, j), ClaimAt(Run(d, evs), j), Issues(d, evs, j))
    decreases |evs|
  {
    if evs != [] {
      var e := Step(d, evs[0].op, evs[0].survive);
      StepIssues(d, evs[0].op, evs[0].survive, j);
      StepSafe(d, evs[0].op, evs[0].survive);
      IssuesAreSpaced(e, evs[1..], j);
      TimedJoins(ClaimAt(d, j), ClaimAt(e, j), ClaimAt(Run(d, evs), j),
                 IssuesOf(WritesOf(d, evs[0].op, evs[0].survive), evs[0].op, j), Issues(e, evs[1..], j));
    }
  }

  /** Two claims written one after the other for a job are at least 300 seconds apart, whoever
      asks, crashes or retries. */
  lemma ClaimsAreSpaced(evs: seq<Event>, j: string, i: nat, k: nat)
    requires i < k < |Issues(EMPTY, evs, j)|
    ensures Issues(EMPTY, evs, j)[k] >= Issues(EMPTY, evs, j)[i] + 300.0 * (k - i) as real
  {
    IssuesAreSpaced(EMPTY, evs, j);
    SpacedApart(Issues(EMPTY, evs, j), i, k);
  }

  lemma {:induction false} SpacedApart(times: seq<real>, i: nat, k: nat)
    requires Spaced(times, 300.0) && i < k < |times|
    ensures times[k] >= times[i] + 300.0 * (k - i) as real
    decreases k
  {
    if i < k - 1 {
      SpacedApart(times, i, k - 1);
    }
    assert times[k - 1 + 1] >= times[k - 1] + 300.0;
  }

  /** Every claim written counts: there are as many issue times as tokens. */
  lemma {:induction false} EveryClaimIsTimed(d: Disk, evs: seq<Event>, j: string)
    requires Inv(d)
    ensures |Issues(d, evs, j)| == |Tokens(Journal(d, evs), j)|
    decreases |evs|
  {
    if evs != [] {
      var ws, op := WritesOf(d, evs[0].op, evs[0].survive), evs[0].op;
      var e := Step(d, op, evs[0].survive);
      StepSafe(d, op, evs[0].survive);
      EveryClaimIsTimed(e, evs[1..], j);
      TokensAppend(ws, Journal(e, evs[1..]), j);
      ClaimsHaveClocks(d, op, evs[0].survive);
      BatchIsTimed(ws, op, j);
    }
  }

  lemma ClaimsHaveClocks(d: Disk, op: Op, survive: nat)
    ensures forall k :: 0 <= k < |WritesOf(d, op, survive)| && WritesOf(d, op, survive)[k].PutClaim? ==> Clock(op).Some?
  {
  }

  lemma {:induction false} BatchIsTimed(ws: seq<Write>, op: Op, j: string)
    requires forall k :: 0 <= k < |ws| && ws[k].PutClaim? ==> Clock(op).Some?
    ensures |IssuesOf(ws, op, j)| == |Tokens(ws, j)|
    decreases |ws|
  {
    if ws != [] {
      BatchIsTimed(ws[1..], op, j);
    }
  }

  // ---------------------------------------------------------------- takeovers

  /** The job is running under a claim issued at `issued` and has no receipt. */
  ghost predicate RunsSince(evs: seq<Event>, j: string, issued: real) {
    var d, times := Run(EMPTY, evs), Issues(EMPTY, evs, j);
    j in d.running && j !in d.receipts && times != [] && times[|times| - 1] == issued
  }

  /** A takeover succeeds exactly for the job's own peer, 300 seconds after the claim was issued
      or later. It raises the token by one; a refused one changes no file. */
  lemma TakeoverSucceedsExactlyWhen(evs: seq<Event>, j: string, issued: real, peer: string, now: real)
    requires RunsSince(evs, j, issued)
    ensures var d, op := Run(EMPTY, evs), Reclaim(j, peer, now);
      var due := peer == d.running[j].destinationPeer && now >= issued + 300.0;
      && (due <==> OutcomeOf(d, op, 1).Done?) && (!due <==> OutcomeOf(d, op, 1).Refused?)
      && (due ==> Token(Step(d, op, 1), j) == Token(d, j) + 1 && OwnsClaim(Step(d, op, 1), j, peer, Token(d, j) + 1))
      && (!due ==> forall survive :: Step(d, op, survive) == d)
  {
    var d := Run(EMPTY, evs);
    RunSafe(EMPTY, evs);
    IssuesAreSpaced(EMPTY, evs, j);
    assert JobOk(d, j);
    if peer == d.running[j].destinationPeer && now >= issued + 300.0 {
      TakeoverSucceeds(d, j, now);
    } else {
      forall survive ensures Step(d, Reclaim(j, peer, now), survive) == d {
        StepShape(d, Reclaim(j, peer, now), survive);
      }
    }
  }

  // ---------------------------------------------------------------- the holder is safe

  /** No takeover of the job reads a clock of `until` or later. */
  ghost predicate NoTakeoverFrom(evs: seq<Event>, j: string, until: real) {
    forall k :: 0 <= k < |evs| && evs[k].op.Reclaim? && evs[k].op.jobId == j ==> evs[k].op.now < until
  }

  lemma {:induction false} ClaimStays(d: Disk, evs: seq<Event>, j: string)
    requires Inv(d) && j in d.claims && NoTakeoverFrom(evs, j, d.claims[j].leaseExpiresAt)
    ensures var e := Run(d, evs); j in d.running && j in e.running && Inv(e) && j in e.claims && e.claims[j] == d.claims[j] && e.running[j] == d.running[j]
    decreases |evs|
  {
    assert JobOk(d, j);
    if evs != [] {
      var e := Step(d, evs[0].op, evs[0].survive);
      StepIssues(d, evs[0].op, evs[0].survive, j);
      StepSafe(d, evs[0].op, evs[0].survive);
      assert JobForward(d, e, j);
      TimedByTakeover(d, evs[0].op, evs[0].survive, j);
      ClaimStays(e, evs[1..], j);
    }
  }

  /** Once there is a claim only a takeover of the job issues another. */
  lemma TimedByTakeover(d: Disk, op: Op, survive: nat, j: string)
    requires Inv(d) && j in d.claims
    ensures IssuesOf(WritesOf(d, op, survive), op, j) != [] ==>
      op.Reclaim? && op.jobId == j && IssuesOf(WritesOf(d, op, survive), op, j)[0] == op.now
  {
    var ws := WritesOf(d, op, survive);
    if op.Reclaim? {
      if ws != [] {
        assert ws == [ws[0]];
        SingleIssue(ws[0], op, j);
      }
    } else if op.TakeJob? {
      TakeWrites(d, op, survive);
      NoClaimFor(ws, op, j);
    } else {
      OtherIssues(d, ws, op, j);
    }
  }

  lemma {:induction false} NoClaimFor(ws: seq<Write>, op: Op, j: string)
    requires forall k :: 0 <= k < |ws| && ws[k].PutClaim? ==> ws[k].claim.jobId != j
    ensures IssuesOf(ws, op, j) == []
    decreases |ws|
  {
    if ws != [] {
      NoClaimFor(ws[1..], op, j);
    }
  }

  /** For 300 seconds after it was issued a claim protects its holder: whatever else runs or
      crashes, the holder owns the job still, and its receipt succeeds unless the claim already
      has an output or the job a receipt. */
  lemma LeaseProtectsHolder(
    before: seq<Event>, claiming: Op, during: seq<Event>, j: string, peer: string, token: int, issued: real,
    text: string, ref: SourceRef, payload: Digest)
    requires claiming == TakeJob(j, peer, issued) || claiming == Reclaim(j, peer, issued)
    requires OutcomeOf(Run(EMPTY, before), claiming, 2).Done?
    requires token == Token(Step(Run(EMPTY, before), claiming, 2), j)
    requires NoTakeoverFrom(during, j, issued + 300.0) && ValidDigest(payload)
    ensures var e := Run(Step(Run(EMPTY, before), claiming, 2), during);
      && OwnsClaim(e, j, peer, token)
      && (ValidSourceRef(ref, e.running[j].sourceDmId) && j !in e.receipts && (j, token) !in e.outputs ==>
            CompletableUnder(e, j, ProduceReceipt(j, peer, token, text, ref, payload, OfJob(e.running[j])), text, ref))
  {
    var c := Run(EMPTY, before);
    RunSafe(EMPTY, before);
    ClaimingIssues(c, claiming, j, peer, issued);
    var d := Step(c, claiming, 2);
    ClaimStays(d, during, j);
    var e := Run(d, during);
    if ValidSourceRef(ref, e.running[j].sourceDmId) && j !in e.receipts && (j, token) !in e.outputs {
      FreshOwnerSucceeds(e, j, peer, token, text, ref, payload);
    }
  }

  lemma ClaimingIssues(c: Disk, claiming: Op, j: string, peer: string, issued: real)
    requires Inv(c) && OutcomeOf(c, claiming, 2).Done?
    requires claiming == TakeJob(j, peer, issued) || claiming == Reclaim(j, peer, issued)
    ensures var d := Step(c, claiming, 2);
      && Inv(d) && OwnsClaim(d, j, peer, Token(d, j)) && d.claims[j].leaseExpiresAt == issued + 300.0
  {
    StepSafe(c, claiming, 2);
    StepShape(c, claiming, 2);
    assert JobOk(c, j);
  }
}
