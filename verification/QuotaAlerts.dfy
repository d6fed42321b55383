/** Quota alerts: once per crossing of 80, 95 and the limit, for each peer, over any run of
    passes. The pane and service-log readings of a pass are its input. */
module QuotaAlerts {
  import opened Common

  const READ_COOLDOWN: real := 300.0

  /** One merged usage reading. */
  datatype Reading = Reading(usedPct: Option<real>, boundLeftPct: Option<real>, blocked: bool)

  datatype Threshold = Eighty | NinetyFive | Limit

  datatype Arms = Arms(arm80: bool, arm95: bool, armLimit: bool)

  /** A peer's saved state; a peer never read has every arm set. */
  datatype PeerState = PeerState(arms: Arms, lastRead: Option<real>)

  /** What the pane and the service log showed of a peer. */
  datatype Sight = Sight(pane: Option<Reading>, log: Option<Reading>)

  datatype Alert = Alert(peer: string, threshold: Threshold)

  /** One checked reading and the alerts it fired. */
  datatype Check = Check(peer: string, reading: Reading, fired: seq<Threshold>)

  const ALL_ARMED: Arms := Arms(true, true, true)

  /** The percentage to compare: a measurement, else what a bound leaves. */
  function EffectiveLevel(r: Reading): Option<real> {
    if r.usedPct.Some? then r.usedPct
    else if r.boundLeftPct.Some? then Some(100.0 - r.boundLeftPct.value)
    else None
  }

  /** A reading at or past a threshold. */
  predicate Crosses(r: Reading, t: Threshold) {
    var level := EffectiveLevel(r);
    match t
    case Eighty => level.Some? && level.value >= 80.0
    case NinetyFive => level.Some? && level.value >= 95.0
    case Limit => r.blocked || (level.Some? && level.value >= 100.0)
  }

  /** A reading below a threshold. One without a level says nothing about the percentages. */
  predicate Rearms(r: Reading, t: Threshold) {
    !Crosses(r, t) && (t == Limit || EffectiveLevel(r).Some?)
  }

  function ArmOf(a: Arms, t: Threshold): bool {
    match t
    case Eighty => a.arm80
    case NinetyFive => a.arm95
    case Limit => a.armLimit
  }

  /** An arm after a reading. */
  function Rearmed(armed: bool, r: Reading, t: Threshold): bool {
    if Crosses(r, t) then false else if Rearms(r, t) then true else armed
  }

  function FiredIf(armed: bool, r: Reading, t: Threshold): seq<Threshold> {
    if armed && Crosses(r, t) then [t] else []
  }

  function FiredBy(arms: Arms, r: Reading): (fired: seq<Threshold>)
    ensures forall t :: t in fired <==> ArmOf(arms, t) && Crosses(r, t)
  {
    FiredIf(arms.arm80, r, Eighty) + FiredIf(arms.arm95, r, NinetyFive) + FiredIf(arms.armLimit, r, Limit)
  }

  function NextArms(arms: Arms, r: Reading): (next: Arms)
    ensures forall t :: ArmOf(next, t) == Rearmed(ArmOf(arms, t), r, t)
  {
    Arms(Rearmed(arms.arm80, r, Eighty), Rearmed(arms.arm95, r, NinetyFive), Rearmed(arms.armLimit, r, Limit))
  }

  /** Fires each armed threshold the reading crosses. */
  method CheckAlerts(arms: Arms, r: Reading) returns (fired: seq<Threshold>, next: Arms)
    ensures forall t :: ArmOf(next, t) == Rearmed(ArmOf(arms, t), r, t)
    ensures forall t :: t in fired <==> ArmOf(arms, t) && Crosses(r, t)
    ensures fired == FiredBy(arms, r) && next == NextArms(arms, r)
  {
    fired, next := [], arms;
    var level := EffectiveLevel(r);
    if level.Some? {
      if level.value >= 80.0 && next.arm80 {
        fired := fired + [Eighty];
        next := next.(arm80 := false);
      } else if level.value < 80.0 {
        next := next.(arm80 := true);
      }
      if level.value >= 95.0 && next.arm95 {
        fired := fired + [NinetyFive];
        next := next.(arm95 := false);
      } else if level.value < 95.0 {
        next := next.(arm95 := true);
      }
    }
    if r.blocked || (level.Some? && level.value >= 100.0) {
      if next.armLimit {
        fired := fired + [Limit];
        next := next.(armLimit := false);
      }
    } else {
      next := next.(armLimit := true);
    }
  }

  // ---------------------------------------------------------------- one pass over the peers

  /** A log block stands unless the pane already shows one. */
  function Merge(s: Sight): Option<Reading> {
    if s.log.Some? && (s.pane.None? || !s.pane.value.blocked) then s.log else s.pane
  }

  function StateOf(states: map<string, PeerState>, peer: string): PeerState {
    if peer in states then states[peer] else PeerState(ALL_ARMED, None)
  }

  function CoolingDown(s: PeerState, now: real): bool {
    s.lastRead.Some? && now - s.lastRead.value < READ_COOLDOWN
  }

  function SightOf(sights: map<string, Sight>, peer: string): Sight {
    if peer in sights then sights[peer] else Sight(None, None)
  }

  /** The arm of a threshold that a history of checks leaves: set unless the last reading that
      said anything about it crossed it. */
  function ArmAfter(history: seq<Check>, peer: string, t: Threshold): bool {
    if history == [] then true
    else
      var n := |history| - 1;
      var last := history[n];
      if last.peer == peer then Rearmed(ArmAfter(history[..n], peer, t), last.reading, t)
      else ArmAfter(history[..n], peer, t)
  }

  /** Each check fired exactly the thresholds that were armed and crossed. */
  ghost predicate Faithful(history: seq<Check>) {
    forall k :: 0 <= k < |history| ==> FiredRight(history, k)
  }

  ghost predicate FiredRight(history: seq<Check>, k: nat)
    requires k < |history|
  {
    forall t :: t in history[k].fired <==> ArmAfter(history[..k], history[k].peer, t) && Crosses(history[k].reading, t)
  }

  /** The saved arms are what the history leaves. */
  ghost predicate ArmsTell(states: map<string, PeerState>, history: seq<Check>) {
    forall peer, t :: ArmOf(StateOf(states, peer).arms, t) == ArmAfter(history, peer, t)
  }

  function AlertsOf(c: Check): seq<Alert> {
    seq(|c.fired|, k requires 0 <= k < |c.fired| => Alert(c.peer, c.fired[k]))
  }

  lemma FiredRightLater(history: seq<Check>, c: Check)
    requires Faithful(history)
    requires forall t :: t in c.fired <==> ArmAfter(history, c.peer, t) && Crosses(c.reading, t)
    ensures Faithful(history + [c])
  {
    var h := history + [c];
    forall k | 0 <= k < |h| ensures FiredRight(h, k) {
      if k < |history| {
        assert FiredRight(history, k);
        assert h[..k] == history[..k];
      } else {
        assert h[..k] == history;
      }
    }
  }

  lemma ArmsTellLater(states: map<string, PeerState>, history: seq<Check>, c: Check, next: PeerState)
    requires ArmsTell(states, history)
    requires forall t :: ArmOf(next.arms, t) == Rearmed(ArmOf(StateOf(states, c.peer).arms, t), c.reading, t)
    ensures ArmsTell(states[c.peer := next], history + [c])
  {
    var h := history + [c];
    assert h[..|history|] == history;
    forall peer, t ensures ArmOf(StateOf(states[c.peer := next], peer).arms, t) == ArmAfter(h, peer, t) {
      assert ArmOf(StateOf(states, peer).arms, t) == ArmAfter(history, peer, t);
    }
  }

  /** The reading a pass takes of a peer: none while it cools down. */
  function ReadingOf(states: map<string, PeerState>, sights: map<string, Sight>, peer: string, now: real): Option<Reading> {
    if CoolingDown(StateOf(states, peer), now) then None else Merge(SightOf(sights, peer))
  }

  ghost predicate HasCheck(checks: seq<Check>, peer: string, reading: Reading) {
    exists k :: 0 <= k < |checks| && checks[k].peer == peer && checks[k].reading == reading
  }

  /** The listed peers that had a reading were checked with it, once each, and nobody else was. */
  ghost predicate ChecksReadings(checks: seq<Check>, peers: seq<string>, states: map<string, PeerState>,
                                 sights: map<string, Sight>, now: real) {
    && (forall peer :: peer in peers && ReadingOf(states, sights, peer, now).Some? ==>
          HasCheck(checks, peer, ReadingOf(states, sights, peer, now).value))
    && (forall k :: 0 <= k < |checks| ==>
          checks[k].peer in peers && ReadingOf(states, sights, checks[k].peer, now) == Some(checks[k].reading))
    && (forall j, k :: 0 <= j < k < |checks| ==> checks[j].peer != checks[k].peer)
  }

  lemma OneMoreCheck(checks: seq<Check>, c: Check, peers: seq<string>, states: map<string, PeerState>,
                     sights: map<string, Sight>, now: real)
    requires ChecksReadings(checks, peers, states, sights, now) && c.peer !in peers
    requires ReadingOf(states, sights, c.peer, now) == Some(c.reading)
    ensures ChecksReadings(checks + [c], peers + [c.peer], states, sights, now)
  {
    var all := checks + [c];
    forall peer | peer in peers + [c.peer] && ReadingOf(states, sights, peer, now).Some?
      ensures HasCheck(all, peer, ReadingOf(states, sights, peer, now).value)
    {
      if peer == c.peer {
        assert all[|checks|] == c;
      } else {
        var k :| 0 <= k < |checks| && checks[k].peer == peer && checks[k].reading == ReadingOf(states, sights, peer, now).value;
        assert all[k] == checks[k];
      }
    }
  }

  lemma NoMoreChecks(checks: seq<Check>, peer: string, peers: seq<string>, states: map<string, PeerState>,
                     sights: map<string, Sight>, now: real)
    requires ChecksReadings(checks, peers, states, sights, now)
    requires peer in peers || ReadingOf(states, sights, peer, now).None?
    ensures ChecksReadings(checks, peers + [peer], states, sights, now)
  {
  }

  /** How far a pass has got after the listed peers. */
  ghost predicate PassOk(states0: map<string, PeerState>, states: map<string, PeerState>, peers: seq<string>,
                         sights: map<string, Sight>, now: real, history0: seq<Check>, checks: seq<Check>) {
    && ArmsTell(states, history0 + checks) && Faithful(history0 + checks)
    && ChecksReadings(checks, peers, states0, sights, now)
    && (forall peer :: peer !in peers ==> StateOf(states, peer) == StateOf(states0, peer))
    && (forall peer :: peer in peers ==>
          if CoolingDown(StateOf(states0, peer), now) then StateOf(states, peer) == StateOf(states0, peer)
          else StateOf(states, peer).lastRead == Some(now))
  }

  lemma PassSkips(states0: map<string, PeerState>, states: map<string, PeerState>, peers: seq<string>, peer: string,
                  sights: map<string, Sight>, now: real, history0: seq<Check>, checks: seq<Check>)
    requires PassOk(states0, states, peers, sights, now, history0, checks)
    requires CoolingDown(StateOf(states, peer), now)
    ensures PassOk(states0, states, peers + [peer], sights, now, history0, checks)
  {
    NoMoreChecks(checks, peer, peers, states0, sights, now);
  }

  lemma PassReadsNothing(states0: map<string, PeerState>, states: map<string, PeerState>, peers: seq<string>,
                         peer: string, sights: map<string, Sight>, now: real, history0: seq<Check>, checks: seq<Check>)
    requires PassOk(states0, states, peers, sights, now, history0, checks)
    requires !CoolingDown(StateOf(states, peer), now) && Merge(SightOf(sights, peer)).None?
    ensures PassOk(states0, states[peer := StateOf(states, peer).(lastRead := Some(now))], peers + [peer], sights, now,
                   history0, checks)
  {
    var next := states[peer := StateOf(states, peer).(lastRead := Some(now))];
    NoMoreChecks(checks, peer, peers, states0, sights, now);
    forall p, t ensures ArmOf(StateOf(next, p).arms, t) == ArmAfter(history0 + checks, p, t) {
      assert ArmOf(StateOf(states, p).arms, t) == ArmAfter(history0 + checks, p, t);
    }
  }

  lemma PassChecks(states0: map<string, PeerState>, states: map<string, PeerState>, peers: seq<string>,
                   sights: map<string, Sight>, now: real, history0: seq<Check>, checks: seq<Check>, c: Check, arms: Arms)
    requires PassOk(states0, states, peers, sights, now, history0, checks)
    requires !CoolingDown(StateOf(states, c.peer), now) && Merge(SightOf(sights, c.peer)) == Some(c.reading)
    requires forall t :: ArmOf(arms, t) == Rearmed(ArmOf(StateOf(states, c.peer).arms, t), c.reading, t)
    requires forall t :: t in c.fired <==> ArmOf(StateOf(states, c.peer).arms, t) && Crosses(c.reading, t)
    ensures PassOk(states0, states[c.peer := PeerState(arms, Some(now))], peers + [c.peer], sights, now, history0,
                   checks + [c])
  {
    assert history0 + (checks + [c]) == history0 + checks + [c];
    OneMoreCheck(checks, c, peers, states0, sights, now);
    FiredRightLater(history0 + checks, c);
    ArmsTellLater(states, history0 + checks, c, PeerState(arms, Some(now)));
  }

  /** A pass over the peers: the saved states it leaves and the checks it makes. */
  function PassOver(peers: seq<string>, sights: map<string, Sight>, states: map<string, PeerState>, now: real)
    : (map<string, PeerState>, seq<Check>)
  {
    if peers == [] then (states, [])
    else
      var n := |peers| - 1;
      var (before, checks) := PassOver(peers[..n], sights, states, now);
      var pstate, record := StateOf(before, peers[n]), Merge(SightOf(sights, peers[n]));
      if CoolingDown(pstate, now) then (before, checks)
      else if record.None? then (before[peers[n] := pstate.(lastRead := Some(now))], checks)
      else (before[peers[n] := PeerState(NextArms(pstate.arms, record.value), Some(now))],
            checks + [Check(peers[n], record.value, FiredBy(pstate.arms, record.value))])
  }

  /** One peer that is not cooling down. `done` are the peers before it. */
  method ReadPeer(peer: string, sight: Sight, states: map<string, PeerState>, now: real, checks0: seq<Check>,
                  ghost states0: map<string, PeerState>, ghost done: seq<string>, ghost sights: map<string, Sight>,
                  ghost history0: seq<Check>)
    returns (next: map<string, PeerState>, checks: seq<Check>, fired: seq<Alert>)
    requires PassOk(states0, states, done, sights, now, history0, checks0)
    requires !CoolingDown(StateOf(states, peer), now) && sight == SightOf(sights, peer)
    requires (states, checks0) == PassOver(done, sights, states0, now)
    ensures (next, checks) == PassOver(done + [peer], sights, states0, now)
    ensures PassOk(states0, next, done + [peer], sights, now, history0, checks)
    ensures AllAlerts(checks) == AllAlerts(checks0) + fired
  {
    var pstate, record := StateOf(states, peer), Merge(sight);
    checks, fired := checks0, [];
    pstate := pstate.(lastRead := Some(now));
    if record.Some? {
      var thresholds, arms := CheckAlerts(pstate.arms, record.value);
      var check := Check(peer, record.value, thresholds);
      pstate := pstate.(arms := arms);
      PassChecks(states0, states, done, sights, now, history0, checks0, check, arms);
      assert (checks + [check])[..|checks|] == checks;
      checks, fired := checks + [check], AlertsOf(check);
    } else {
      PassReadsNothing(states0, states, done, peer, sights, now, history0, checks0);
    }
    next := states[peer := pstate];
    assert (done + [peer])[..|done|] == done;
  }

  /** One pass: peers read within the cooldown are skipped, a peer nothing was read of keeps its
      arms, and every other one is checked once. `history0` holds the checks of earlier passes. */
  method SyncOnce(peers: seq<string>, sights: map<string, Sight>, states0: map<string, PeerState>, now: real,
                  ghost history0: seq<Check>)
    returns (states: map<string, PeerState>, sent: seq<Alert>, checks: seq<Check>)
    requires ArmsTell(states0, history0) && Faithful(history0)
    ensures PassOk(states0, states, peers, sights, now, history0, checks) && sent == AllAlerts(checks)
    ensures (states, checks) == PassOver(peers, sights, states0, now)
  {
    states, sent, checks := states0, [], [];
    assert history0 + checks == history0;
    for i := 0 to |peers|
      invariant PassOk(states0, states, peers[..i], sights, now, history0, checks) && sent == AllAlerts(checks)
      invariant (states, checks) == PassOver(peers[..i], sights, states0, now)
    {
      var peer := peers[i];
      assert peers[..i + 1] == peers[..i] + [peer] && peers[..i + 1][..i] == peers[..i];
      if CoolingDown(StateOf(states, peer), now) {
        PassSkips(states0, states, peers[..i], peer, sights, now, history0, checks);
        continue;
      }
      var fired;
      states, checks, fired := ReadPeer(peer, SightOf(sights, peer), states, now, checks, states0, peers[..i], sights, history0);
      sent := sent + fired;
    }
    assert peers[..|peers|] == peers;
  }

  function AllAlerts(checks: seq<Check>): seq<Alert> {
    if checks == [] then []
    else AllAlerts(checks[..|checks| - 1]) + AlertsOf(checks[|checks| - 1])
  }

  // ---------------------------------------------------------------- whole runs

  /** A disarmed arm was disarmed by a crossing that nothing re-armed since. */
  lemma {:induction false} DisarmedBy(history: seq<Check>, peer: string, t: Threshold) returns (i: nat)
    requires !ArmAfter(history, peer, t)
    ensures i < |history| && history[i].peer == peer && Crosses(history[i].reading, t)
    ensures forall j :: i < j < |history| && history[j].peer == peer ==> !Rearms(history[j].reading, t)
    decreases |history|
  {
    var n := |history| - 1;
    if history[n].peer == peer && Crosses(history[n].reading, t) {
      i := n;
    } else {
      i := DisarmedBy(history[..n], peer, t);
      forall j | i < j < |history| && history[j].peer == peer ensures !Rearms(history[j].reading, t) {
        assert j < n ==> history[..n][j] == history[j];
      }
    }
  }

  /** After a crossing a threshold stays disarmed until a reading re-arms it. */
  lemma {:induction false} DisarmedUntilRearmed(history: seq<Check>, peer: string, t: Threshold, i: nat)
    requires i < |history| && history[i].peer == peer && Crosses(history[i].reading, t)
    requires forall j :: i < j < |history| && history[j].peer == peer ==> !Rearms(history[j].reading, t)
    ensures !ArmAfter(history, peer, t)
    decreases |history|
  {
    var n := |history| - 1;
    if i < n {
      forall j | i < j < n && history[..n][j].peer == peer ensures !Rearms(history[..n][j].reading, t) {
        assert history[..n][j] == history[j];
      }
      DisarmedUntilRearmed(history[..n], peer, t, i);
    }
  }

  /** Between two alerts of one threshold for a peer, a reading re-armed it. */
  lemma RearmedBetweenAlerts(history: seq<Check>, i: nat, k: nat, t: Threshold)
    requires Faithful(history) && i < k < |history| && history[i].peer == history[k].peer
    requires t in history[i].fired && t in history[k].fired
    ensures exists j :: i < j < k && history[j].peer == history[i].peer && Rearms(history[j].reading, t)
  {
    var peer := history[i].peer;
    assert FiredRight(history, i) && FiredRight(history, k);
    if forall j :: i < j < k && history[j].peer == peer ==> !Rearms(history[j].reading, t) {
      forall j | i < j < k && history[..k][j].peer == peer ensures !Rearms(history[..k][j].reading, t) {
        assert history[..k][j] == history[j];
      }
      assert history[..k][i] == history[i];
      DisarmedUntilRearmed(history[..k], peer, t, i);
    }
  }

  /** No crossing goes unreported: a crossing reading fired its threshold, or an earlier one that
      crossed it did not get re-armed since. */
  lemma CrossingIsReported(history: seq<Check>, k: nat, t: Threshold)
    requires Faithful(history) && k < |history| && Crosses(history[k].reading, t) && t !in history[k].fired
    ensures exists i :: 0 <= i < k && history[i].peer == history[k].peer && Crosses(history[i].reading, t)
              && forall j :: i < j < k && history[j].peer == history[k].peer ==> !Rearms(history[j].reading, t)
  {
    assert FiredRight(history, k);
    var i := DisarmedBy(history[..k], history[k].peer, t);
    assert history[i] == history[..k][i];
    forall j | i < j < k && history[j].peer == history[k].peer ensures !Rearms(history[j].reading, t) {
      assert history[..k][j] == history[j];
    }
  }

  /** A peer whose 95 is disarmed has its 80 disarmed. */
  lemma {:induction false} Disarmed95Disarms80(history: seq<Check>, peer: string)
    ensures !ArmAfter(history, peer, NinetyFive) ==> !ArmAfter(history, peer, Eighty)
    decreases |history|
  {
    if history != [] {
      Disarmed95Disarms80(history[..|history| - 1], peer);
    }
  }

  /** In the saved state after any passes, too. */
  lemma SavedArmsAgree(states: map<string, PeerState>, history: seq<Check>, peer: string)
    requires ArmsTell(states, history)
    ensures !StateOf(states, peer).arms.arm95 ==> !StateOf(states, peer).arms.arm80
  {
    Disarmed95Disarms80(history, peer);
    assert ArmOf(StateOf(states, peer).arms, Eighty) == ArmAfter(history, peer, Eighty);
    assert ArmOf(StateOf(states, peer).arms, NinetyFive) == ArmAfter(history, peer, NinetyFive);
  }

  // ---------------------------------------------------------------- several passes

  /** A pass, and how many of its alerts went out when it died before its state was saved. */
  datatype Pass = Pass(peers: seq<string>, sights: map<string, Sight>, now: real, died: Option<nat>)

  /** The saved state, the checks it rests on, and the alerts sent. */
  datatype Watch = Watch(states: map<string, PeerState>, history: seq<Check>, sent: seq<Alert>)

  function ChecksBy(w: Watch, p: Pass): seq<Check> {
    PassOver(p.peers, p.sights, w.states, p.now).1
  }

  /** What a pass hands to the sender: all its alerts, or as many as it lived for. */
  function SentBy(w: Watch, p: Pass): seq<Alert> {
    var alerts := AllAlerts(ChecksBy(w, p));
    if p.died.Some? then alerts[..Min(p.died.value, |alerts|)] else alerts
  }

  function AfterPass(w: Watch, p: Pass): Watch {
    if p.died.Some? then w.(sent := w.sent + SentBy(w, p))
    else Watch(PassOver(p.peers, p.sights, w.states, p.now).0, w.history + ChecksBy(w, p), w.sent + SentBy(w, p))
  }

  function Watched(passes: seq<Pass>): Watch {
    if passes == [] then Watch(map[], [], [])
    else AfterPass(Watched(passes[..|passes| - 1]), passes[|passes| - 1])
  }

  lemma FreshStateTells()
    ensures ArmsTell(map[], []) && Faithful([])
  {
  }

  /** A pass as a function keeps what the method keeps. */
  lemma {:induction false} PassOverTells(peers: seq<string>, sights: map<string, Sight>, states0: map<string, PeerState>,
                                         now: real, history0: seq<Check>)
    requires ArmsTell(states0, history0) && Faithful(history0)
    ensures var (states, checks) := PassOver(peers, sights, states0, now);
      PassOk(states0, states, peers, sights, now, history0, checks)
    decreases |peers|
  {
    if peers == [] {
      assert history0 + [] == history0;
    } else {
      var n := |peers| - 1;
      var done, peer := peers[..n], peers[n];
      PassOverTells(done, sights, states0, now, history0);
      var (states, checks) := PassOver(done, sights, states0, now);
      assert peers == done + [peer];
      PassOverOne(done, peer, sights, states0, now, history0, states, checks);
    }
  }

  lemma PassOverOne(done: seq<string>, peer: string, sights: map<string, Sight>, states0: map<string, PeerState>,
                    now: real, history0: seq<Check>, states: map<string, PeerState>, checks: seq<Check>)
    requires (states, checks) == PassOver(done, sights, states0, now)
    requires PassOk(states0, states, done, sights, now, history0, checks)
    ensures var (next, all) := PassOver(done + [peer], sights, states0, now);
      PassOk(states0, next, done + [peer], sights, now, history0, all)
  {
    assert (done + [peer])[..|done|] == done;
    var pstate, record := StateOf(states, peer), Merge(SightOf(sights, peer));
    if CoolingDown(pstate, now) {
      PassSkips(states0, states, done, peer, sights, now, history0, checks);
    } else if record.None? {
      PassReadsNothing(states0, states, done, peer, sights, now, history0, checks);
    } else {
      var c := Check(peer, record.value, FiredBy(pstate.arms, record.value));
      PassChecks(states0, states, done, sights, now, history0, checks, c, NextArms(pstate.arms, record.value));
    }
  }

  /** After any passes from nothing saved, died ones included, the saved arms are what the saved
      checks leave, each of which fired exactly what was armed and crossed. */
  lemma {:induction false} PassesTell(passes: seq<Pass>)
    ensures var w := Watched(passes); ArmsTell(w.states, w.history) && Faithful(w.history)
    decreases |passes|
  {
    if passes == [] {
      FreshStateTells();
    } else {
      var n := |passes| - 1;
      PassesTell(passes[..n]);
      var w, p := Watched(passes[..n]), passes[n];
      PassOverTells(p.peers, p.sights, w.states, p.now, w.history);
    }
  }

  lemma AllAlertsLast(checks: seq<Check>, c: Check)
    ensures AllAlerts(checks + [c]) == AllAlerts(checks) + AlertsOf(c)
  {
    assert (checks + [c])[..|checks|] == checks;
  }

  lemma {:induction false} AllAlertsAppend(a: seq<Check>, b: seq<Check>)
    ensures AllAlerts(a + b) == AllAlerts(a) + AllAlerts(b)
    decreases |b|
  {
    if b == [] {
      assert a + b == a;
    } else {
      var n := |b| - 1;
      assert a + b == a + b[..n] + [b[n]] && b == b[..n] + [b[n]];
      AllAlertsAppend(a, b[..n]);
      AllAlertsLast(a + b[..n], b[n]);
      AllAlertsLast(b[..n], b[n]);
    }
  }

  /** While every pass is saved, the alerts sent are those of the saved checks. */
  lemma {:induction false} SentIsHistory(passes: seq<Pass>)
    requires forall k :: 0 <= k < |passes| ==> passes[k].died.None?
    ensures Watched(passes).sent == AllAlerts(Watched(passes).history)
    decreases |passes|
  {
    if passes != [] {
      var n := |passes| - 1;
      SentIsHistory(passes[..n]);
      var w, p := Watched(passes[..n]), passes[n];
      AllAlertsAppend(w.history, PassOver(p.peers, p.sights, w.states, p.now).1);
    }
  }

  /** Pass `k` hands the alert to the sender. */
  predicate Sends(passes: seq<Pass>, k: nat, peer: string, t: Threshold) {
    k < |passes| && Alert(peer, t) in SentBy(Watched(passes[..k]), passes[k])
  }

  /** Pass `k` saves a reading of the peer that re-arms the threshold. */
  ghost predicate RearmsIn(passes: seq<Pass>, k: nat, peer: string, t: Threshold) {
    && k < |passes| && passes[k].died.None?
    && exists c :: c in ChecksBy(Watched(passes[..k]), passes[k]) && c.peer == peer && Rearms(c.reading, t)
  }

  lemma {:induction false} AlertHasCheck(checks: seq<Check>, peer: string, t: Threshold)
    requires Alert(peer, t) in AllAlerts(checks)
    ensures exists n :: 0 <= n < |checks| && checks[n].peer == peer && t in checks[n].fired
    decreases |checks|
  {
    var n := |checks| - 1;
    if Alert(peer, t) in AllAlerts(checks[..n]) {
      AlertHasCheck(checks[..n], peer, t);
      var m :| 0 <= m < n && checks[..n][m].peer == peer && t in checks[..n][m].fired;
      assert checks[m] == checks[..n][m];
    } else {
      assert Alert(peer, t) in AlertsOf(checks[n]);
    }
  }

  /** Readings of other peers, or that do not re-arm, leave a disarmed threshold disarmed. */
  lemma {:induction false} StaysDisarmed(history: seq<Check>, checks: seq<Check>, peer: string, t: Threshold)
    requires !ArmAfter(history, peer, t)
    requires forall n :: 0 <= n < |checks| && checks[n].peer == peer ==> !Rearms(checks[n].reading, t)
    ensures !ArmAfter(history + checks, peer, t)
    decreases |checks|
  {
    if checks == [] {
      assert history + checks == history;
    } else {
      var n := |checks| - 1;
      StaysDisarmed(history, checks[..n], peer, t);
      assert history + checks == history + checks[..n] + [checks[n]];
      assert (history + checks[..n] + [checks[n]])[..|history| + n] == history + checks[..n];
    }
  }

  /** A pass sends only what was armed before it. */
  lemma {:induction false} SentWasArmed(passes: seq<Pass>, k: nat, peer: string, t: Threshold) returns (n: nat)
    requires Sends(passes, k, peer, t)
    ensures var w := Watched(passes[..k]);
      var checks := ChecksBy(w, passes[k]);
      && n < |checks| && checks[n].peer == peer && t in checks[n].fired && Crosses(checks[n].reading, t)
      && (forall m :: 0 <= m < |checks| && m != n ==> checks[m].peer != peer)
      && ArmAfter(w.history, peer, t)
  {
    var w, p := Watched(passes[..k]), passes[k];
    var checks := ChecksBy(w, p);
    PassesTell(passes[..k]);
    PassOverTells(p.peers, p.sights, w.states, p.now, w.history);
    AlertHasCheck(checks, peer, t);
    n :| 0 <= n < |checks| && checks[n].peer == peer && t in checks[n].fired;
    FiredWasArmed(w.history, checks, n, t);
    if !ArmAfter(w.history, peer, t) {
      StaysDisarmed(w.history, checks[..n], peer, t);
    }
  }

  lemma FiredWasArmed(history: seq<Check>, checks: seq<Check>, n: nat, t: Threshold)
    requires Faithful(history + checks) && n < |checks| && t in checks[n].fired
    ensures ArmAfter(history + checks[..n], checks[n].peer, t) && Crosses(checks[n].reading, t)
  {
    var h, m := history + checks, |history| + n;
    assert h[m] == checks[n] && h[..m] == history + checks[..n];
    assert FiredRight(h, m);
  }

  /** After a saved pass that sent it, a threshold is disarmed. */
  lemma {:induction false} SentDisarms(passes: seq<Pass>, i: nat, peer: string, t: Threshold)
    requires Sends(passes, i, peer, t) && passes[i].died.None?
    ensures !ArmAfter(Watched(passes[..i + 1]).history, peer, t)
  {
    var n := SentWasArmed(passes, i, peer, t);
    HistoryNext(passes, i);
    CrossingDisarms(Watched(passes[..i]).history, ChecksBy(Watched(passes[..i]), passes[i]), n, peer, t);
  }

  lemma CrossingDisarms(history: seq<Check>, checks: seq<Check>, n: nat, peer: string, t: Threshold)
    requires n < |checks| && checks[n].peer == peer && Crosses(checks[n].reading, t)
    requires forall j :: n < j < |checks| ==> checks[j].peer != peer
    ensures !ArmAfter(history + checks, peer, t)
  {
    var h, m := history + checks, |history| + n;
    assert h[m] == checks[n];
    forall j | m < j < |h| ensures h[j].peer != peer {
      assert h[j] == checks[j - |history|];
    }
    DisarmedUntilRearmed(h, peer, t, m);
  }

  lemma {:induction false} DisarmedThrough(passes: seq<Pass>, i: nat, k: nat, peer: string, t: Threshold)
    requires i <= k <= |passes| && !ArmAfter(Watched(passes[..i]).history, peer, t)
    requires forall j :: i <= j < k ==> !RearmsIn(passes, j, peer, t)
    ensures !ArmAfter(Watched(passes[..k]).history, peer, t)
    decreases k
  {
    if i < k {
      DisarmedThrough(passes, i, k - 1, peer, t);
      HistoryNext(passes, k - 1);
      if passes[k - 1].died.None? {
        NoRearmingCheck(passes, k - 1, peer, t);
        StaysDisarmed(Watched(passes[..k - 1]).history, ChecksBy(Watched(passes[..k - 1]), passes[k - 1]), peer, t);
      }
    }
  }

  lemma HistoryNext(passes: seq<Pass>, m: nat)
    requires m < |passes|
    ensures var w := Watched(passes[..m]);
      Watched(passes[..m + 1]).history == if passes[m].died.Some? then w.history else w.history + ChecksBy(w, passes[m])
  {
    assert passes[..m + 1][..m] == passes[..m];
  }

  lemma NoRearmingCheck(passes: seq<Pass>, m: nat, peer: string, t: Threshold)
    requires m < |passes| && passes[m].died.None? && !RearmsIn(passes, m, peer, t)
    ensures var checks := ChecksBy(Watched(passes[..m]), passes[m]);
      forall n :: 0 <= n < |checks| && checks[n].peer == peer ==> !Rearms(checks[n].reading, t)
  {
  }

  /** Whatever passes die, once a saved pass sent an alert no pass sends it again before a saved
      pass read the peer back below the threshold. */
  lemma {:induction false} PassesAlertOncePerCrossing(passes: seq<Pass>, i: nat, k: nat, peer: string, t: Threshold)
    requires i < k && Sends(passes, i, peer, t) && passes[i].died.None? && Sends(passes, k, peer, t)
    ensures exists j: nat :: i < j < k && RearmsIn(passes, j, peer, t)
  {
    SentDisarms(passes, i, peer, t);
    var n := SentWasArmed(passes, k, peer, t);
    if forall j: nat :: i < j < k ==> !RearmsIn(passes, j, peer, t) {
      DisarmedThrough(passes, i + 1, k, peer, t);
    }
  }

  // ---------------------------------------------------------------- when alerts repeat

  /** From pass `n` on, a saved pass re-arms the threshold before the last one. */
  ghost predicate IsSeparated(all: seq<Pass>, n: nat, peer: string, t: Threshold) {
    exists j: nat :: n <= j < |all| - 1 && RearmsIn(all, j, peer, t)
  }

  /** However the passes go on, before the alert is sent next a saved pass re-armed it. */
  ghost predicate NextAlertIsSeparated(passes: seq<Pass>, peer: string, t: Threshold) {
    forall all: seq<Pass> :: passes < all && Sends(all, |all| - 1, peer, t) ==> IsSeparated(all, |passes|, peer, t)
  }

  /** A pass like the last one that lives to save its state. */
  function RunAgain(passes: seq<Pass>): seq<Pass>
    requires passes != []
  {
    passes + [passes[|passes| - 1].(died := None)]
  }

  /** A pass that died with an alert sent sends it anew when it runs again, with nothing read in
      between. */
  lemma {:induction false} DiedPassAlertsAgain(passes: seq<Pass>, peer: string, t: Threshold)
    requires passes != [] && Sends(passes, |passes| - 1, peer, t) && passes[|passes| - 1].died.Some?
    ensures Sends(RunAgain(passes), |passes|, peer, t)
    ensures Watched(passes).states == Watched(passes[..|passes| - 1]).states
    ensures Watched(passes).history == Watched(passes[..|passes| - 1]).history
  {
    var n, again := |passes| - 1, RunAgain(passes);
    assert again[..|passes|] == passes;
  }

  /** An alert's repeats are separated exactly when the pass that sent it was saved. */
  lemma {:induction false} AlertsAreSeparatedExactlyWhenSaved(passes: seq<Pass>, peer: string, t: Threshold)
    requires passes != [] && Sends(passes, |passes| - 1, peer, t)
    ensures NextAlertIsSeparated(passes, peer, t) <==> passes[|passes| - 1].died.None?
  {
    if passes[|passes| - 1].died.None? {
      forall all: seq<Pass> | passes < all && Sends(all, |all| - 1, peer, t)
        ensures IsSeparated(all, |passes|, peer, t)
      {
        SavedIsSeparated(passes, all, peer, t);
      }
    } else {
      DiedPassAlertsAgain(passes, peer, t);
      var again := RunAgain(passes);
      assert passes < again && !IsSeparated(again, |passes|, peer, t);
    }
  }

  lemma {:induction false} SavedIsSeparated(passes: seq<Pass>, all: seq<Pass>, peer: string, t: Threshold)
    requires passes != [] && Sends(passes, |passes| - 1, peer, t) && passes[|passes| - 1].died.None?
    requires passes < all && Sends(all, |all| - 1, peer, t)
    ensures IsSeparated(all, |passes|, peer, t)
  {
    var n := |passes| - 1;
    assert all[..n] == passes[..n] && all[n] == passes[n];
    PassesAlertOncePerCrossing(all, n, |all| - 1, peer, t);
  }

  // ---------------------------------------------------------------- one peer at 85 percent

  const AT_85: Reading := Reading(Some(85.0), None, false)
  const DYING: Pass := Pass(["p"], map["p" := Sight(Some(AT_85), None)], 0.0, Some(1))

  /** The pass sends the alert, dies before its state is saved, runs again and sends it again. */
  lemma DiedPassAlertsTwice()
    ensures Watched([DYING]) == Watch(map[], [], [Alert("p", Eighty)])
    ensures Watched(RunAgain([DYING])).sent == [Alert("p", Eighty), Alert("p", Eighty)]
    ensures Sends([DYING], 0, "p", Eighty) && !NextAlertIsSeparated([DYING], "p", Eighty)
  {
    var nothing := Watch(map[], [], []);
    assert [DYING][..0] == [] && Watched([]) == nothing;
    OneCheckAt85();
    assert Watched([DYING]) == AfterPass(nothing, DYING);
    assert RunAgain([DYING])[..1] == [DYING];
    AlertsAreSeparatedExactlyWhenSaved([DYING], "p", Eighty);
  }

  lemma OneCheckAt85()
    ensures PassOver(DYING.peers, DYING.sights, map[], 0.0)
         == (map["p" := PeerState(Arms(false, true, true), Some(0.0))], [Check("p", AT_85, [Eighty])])
    ensures AllAlerts([Check("p", AT_85, [Eighty])]) == [Alert("p", Eighty)]
  {
    assert ["p"][..0] == [];
    assert PassOver([], DYING.sights, map[], 0.0) == (map[], []);
    assert FiredBy(ALL_ARMED, AT_85) == [Eighty];
    AllAlertsLast([], Check("p", AT_85, [Eighty]));
    assert [] + [Check("p", AT_85, [Eighty])] == [Check("p", AT_85, [Eighty])];
  }
}
