/** The quota pass in numbers: which readings cross and re-arm, whose reading counts, and when a
    peer is read. */
module QuotaExact {
  import opened Common
  import opened QuotaAlerts

  /** The reading shows `x` percent used: measured, or left open by a bound when nothing is. */
  ghost predicate Shows(r: Reading, x: real) {
    r.usedPct == Some(x) || (r.usedPct.None? && r.boundLeftPct == Some(100.0 - x))
  }

  lemma LevelIsShown(r: Reading)
    ensures EffectiveLevel(r).Some? ==> Shows(r, EffectiveLevel(r).value)
    ensures forall x :: Shows(r, x) ==> EffectiveLevel(r) == Some(x)
  {
  }

  /** 80 and 95 are crossed at that percentage and above and re-armed below it; a reading that
      shows none does neither. The limit is crossed by a block or at 100, and re-armed otherwise. */
  lemma ThresholdsAre(r: Reading)
    ensures Crosses(r, Eighty) <==> exists x :: Shows(r, x) && x >= 80.0
    ensures Rearms(r, Eighty) <==> exists x :: Shows(r, x) && x < 80.0
    ensures Crosses(r, NinetyFive) <==> exists x :: Shows(r, x) && x >= 95.0
    ensures Rearms(r, NinetyFive) <==> exists x :: Shows(r, x) && x < 95.0
    ensures Crosses(r, Limit) <==> r.blocked || exists x :: Shows(r, x) && x >= 100.0
    ensures Rearms(r, Limit) <==> !r.blocked && forall x :: Shows(r, x) ==> x < 100.0
  {
    LevelIsShown(r);
  }

  /** A block counts wherever it is seen, and the pane's own block first; otherwise the log's
      reading stands before the pane's. */
  lemma MergedReadingIs(s: Sight)
    ensures Merge(s).None? <==> s.pane.None? && s.log.None?
    ensures Merge(s).Some? ==> Merge(s) == s.pane || Merge(s) == s.log
    ensures Merge(s).Some? ==>
      (Merge(s).value.blocked <==> (s.pane.Some? && s.pane.value.blocked) || (s.log.Some? && s.log.value.blocked))
    ensures s.pane.Some? && s.pane.value.blocked ==> Merge(s) == s.pane
    ensures s.log.Some? && !(s.pane.Some? && s.pane.value.blocked) ==> Merge(s) == s.log
  {
  }

  ghost predicate IsChecked(checks: seq<Check>, peer: string) {
    exists k :: 0 <= k < |checks| && checks[k].peer == peer
  }

  ghost predicate HasReading(p: Pass, peer: string) {
    peer in p.sights && (p.sights[peer].pane.Some? || p.sights[peer].log.Some?)
  }

  function LastRead(w: Watch, peer: string): Option<real> {
    if peer in w.states then w.states[peer].lastRead else None
  }

  lemma PassChecksOnce(passes: seq<Pass>, p: Pass)
    ensures var w := Watched(passes);
      PassOk(w.states, PassOver(p.peers, p.sights, w.states, p.now).0, p.peers, p.sights, p.now, w.history, ChecksBy(w, p))
  {
    var w := Watched(passes);
    PassesTell(passes);
    PassOverTells(p.peers, p.sights, w.states, p.now, w.history);
  }

  /** A pass checks a peer exactly when it is listed, something was read of it, and its last saved
      reading is at least 300 seconds old. */
  lemma CheckedExactlyWhen(passes: seq<Pass>, p: Pass, peer: string)
    ensures var w := Watched(passes);
      IsChecked(ChecksBy(w, p), peer) <==>
        && peer in p.peers && HasReading(p, peer)
        && (LastRead(w, peer).None? || p.now - LastRead(w, peer).value >= 300.0)
  {
    var w := Watched(passes);
    PassChecksOnce(passes, p);
    var checks := ChecksBy(w, p);
    if k :| 0 <= k < |checks| && checks[k].peer == peer {
      assert ReadingOf(w.states, p.sights, peer, p.now).Some?;
    }
    if peer in p.peers && ReadingOf(w.states, p.sights, peer, p.now).Some? {
      assert HasCheck(checks, peer, ReadingOf(w.states, p.sights, peer, p.now).value);
    }
  }

  ghost predicate ClockRuns(passes: seq<Pass>) {
    forall i, k :: 0 <= i <= k < |passes| ==> passes[i].now <= passes[k].now
  }

  /** A saved pass that checked a peer leaves it read then, and later ones only later. */
  lemma {:induction false} ReadSince(passes: seq<Pass>, i: nat, k: nat, peer: string)
    requires i < k <= |passes| && ClockRuns(passes) && passes[i].died.None?
    requires IsChecked(ChecksBy(Watched(passes[..i]), passes[i]), peer)
    ensures LastRead(Watched(passes[..k]), peer).Some? && LastRead(Watched(passes[..k]), peer).value >= passes[i].now
    decreases k
  {
    assert passes[..k] == passes[..k - 1] + [passes[k - 1]];
    if i < k - 1 {
      ReadSince(passes, i, k - 1, peer);
    }
    ReadAfter(passes[..k - 1], passes[k - 1], peer);
  }

  lemma ReadAfter(passes: seq<Pass>, p: Pass, peer: string)
    ensures var w, v := Watched(passes), Watched(passes + [p]);
      && (p.died.None? && IsChecked(ChecksBy(w, p), peer) ==> LastRead(v, peer) == Some(p.now))
      && (LastRead(v, peer) == LastRead(w, peer) || LastRead(v, peer) == Some(p.now))
  {
    var w := Watched(passes);
    assert (passes + [p])[..|passes|] == passes;
    PassChecksOnce(passes, p);
    ReadByPass(w, p, peer);
    CheckedExactlyWhen(passes, p, peer);
  }

  lemma ReadByPass(w: Watch, p: Pass, peer: string)
    requires PassOk(w.states, PassOver(p.peers, p.sights, w.states, p.now).0, p.peers, p.sights, p.now, w.history, ChecksBy(w, p))
    ensures var v := AfterPass(w, p);
      && (p.died.Some? || peer !in p.peers ==> LastRead(v, peer) == LastRead(w, peer))
      && (p.died.None? && peer in p.peers ==>
            LastRead(v, peer) == if LastRead(w, peer).Some? && p.now - LastRead(w, peer).value < 300.0 then LastRead(w, peer)
                                 else Some(p.now))
  {
    var states := PassOver(p.peers, p.sights, w.states, p.now).0;
    assert StateOf(states, peer).lastRead == if peer in states then states[peer].lastRead else None;
  }

  /** While the clock runs, two checks of a peer are at least 300 seconds apart if the first pass
      was saved. */
  lemma ChecksAreSpaced(passes: seq<Pass>, i: nat, k: nat, peer: string)
    requires i < k < |passes| && ClockRuns(passes) && passes[i].died.None?
    requires IsChecked(ChecksBy(Watched(passes[..i]), passes[i]), peer)
    requires IsChecked(ChecksBy(Watched(passes[..k]), passes[k]), peer)
    ensures passes[k].now >= passes[i].now + 300.0
  {
    ReadSince(passes, i, k, peer);
    CheckedExactlyWhen(passes[..k], passes[k], peer);
  }

  /** A pass that dies hands its first alerts to the sender, and no others. */
  lemma DiedPassSendsTheFirst(w: Watch, p: Pass)
    ensures SentBy(w, p) <= AllAlerts(ChecksBy(w, p))
    ensures p.died.None? ==> SentBy(w, p) == AllAlerts(ChecksBy(w, p))
    ensures p.died.Some? ==> |SentBy(w, p)| == Min(p.died.value, |AllAlerts(ChecksBy(w, p))|)
  {
  }
}
