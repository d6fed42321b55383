/** The channel's stall clock and its alarm about foreign rows. */
module ChannelExact {
  import opened Common
  import opened ChannelSpec
  import opened ChannelSafety
  import opened ChannelRuns
  import Channel

  // ---------------------------------------------------------------- the stall clock

  ghost predicate Numbered(row: Row) {
    row.id.Some? && row.id.value >= 0
  }

  /** Some id that was pushed last or is held is at or above every numbered row. */
  ghost predicate AllCovered(rows: seq<Row>, last: Option<int>, held: seq<Held>) {
    || (last.Some? && forall j :: 0 <= j < |rows| && Numbered(rows[j]) ==> rows[j].id.value <= last.value)
    || (exists k :: 0 <= k < |held| && forall j :: 0 <= j < |rows| && Numbered(rows[j]) ==> rows[j].id.value <= held[k].id)
  }

  lemma {:induction false} NewestIs(rows: seq<Row>, bound: int)
    ensures Newest(rows).None? <==> forall j :: 0 <= j < |rows| ==> !Numbered(rows[j])
    ensures Newest(rows).Some? ==>
      (Newest(rows).value <= bound <==> forall j :: 0 <= j < |rows| && Numbered(rows[j]) ==> rows[j].id.value <= bound)
    decreases |rows|
  {
    if rows != [] {
      var n := |rows| - 1;
      NewestIs(rows[..n], bound);
      assert forall j :: 0 <= j < n ==> rows[..n][j] == rows[j];
    }
  }

  lemma {:induction false} CoveredIs(last: Option<int>, held: seq<Held>, bound: int)
    ensures Covered(last, held).None? <==> last.None? && held == []
    ensures Covered(last, held).Some? ==>
      (bound <= Covered(last, held).value
       <==> (last.Some? && bound <= last.value) || exists k :: 0 <= k < |held| && bound <= held[k].id)
    decreases |held|
  {
    if held != [] {
      var n := |held| - 1;
      CoveredIs(last, held[..n], bound);
      assert forall k :: 0 <= k < n ==> held[..n][k] == held[k];
    }
  }

  lemma CoversAll(rows: seq<Row>, last: Option<int>, held: seq<Held>)
    requires Newest(rows).Some? && Covered(last, held).Some?
    ensures Newest(rows).value <= Covered(last, held).value <==> AllCovered(rows, last, held)
  {
    var newest := Newest(rows).value;
    CoveredIs(last, held, newest);
    if last.Some? {
      NewestIs(rows, last.value);
    }
    forall k | 0 <= k < |held|
      ensures newest <= held[k].id <==> forall j :: 0 <= j < |rows| && Numbered(rows[j]) ==> rows[j].id.value <= held[k].id
    {
      NewestIs(rows, held[k].id);
    }
  }

  /** What a poll leaves, the clock aside. */
  lemma StallIs(s: State, box: Inbox, now: real, quietOn: bool)
    ensures var r := Poll(s, Some(box), now, quietOn);
      && r.state.cursor.Some?
      && var c := r.state.cursor.value;
        r.state.stallSince == Stall(s.stallSince, Newest(box.rows), Covered(c.lastPushed, HeldOf(c)), now)
  {
    var c0 := if s.cursor.None? then FirstCursor(box, now, quietOn) else s.cursor.value;
    var opening := if s.cursor.None? then [Armed(c0.lastPushed)] else [];
    var sorted := SortFresh(c0, s.foreign, box, now, quietOn);
    var r := PollSorted(s, c0, sorted, box, now, quietOn, opening);
    assert Poll(s, Some(box), now, quietOn) == r;
    if !quietOn {
      SortQuietOff(Sorted(s.foreign, HeldOf(c0), []), FreshRows(c0, box), Floor(c0.lastPushed), now);
    }
    KeptQuietOff(c0, sorted, box.rows, now, quietOn);
    assert HeldOf(r.state.cursor.value) == Kept(sorted.held, ById(box.rows), sorted.pending != [], now);
  }

  /** After a poll the stall clock is stopped exactly when some row pushed last or held is at or above
      every numbered row; otherwise it runs, from this poll unless it ran before. With no numbered
      row, or with nothing pushed or held ever, it stays as it was. */
  lemma StallTells(s: State, box: Inbox, now: real, quietOn: bool)
    ensures var r := Poll(s, Some(box), now, quietOn);
      && r.state.cursor.Some?
      && var c := r.state.cursor.value;
        if (forall j :: 0 <= j < |box.rows| ==> !Numbered(box.rows[j])) || (c.lastPushed.None? && HeldOf(c) == [])
        then r.state.stallSince == s.stallSince
        else if AllCovered(box.rows, c.lastPushed, HeldOf(c)) then r.state.stallSince == None
        else r.state.stallSince == if s.stallSince in {None, Some(0.0)} then Some(now) else s.stallSince
  {
    StallIs(s, box, now, quietOn);
    var c := Poll(s, Some(box), now, quietOn).state.cursor.value;
    NewestIs(box.rows, 0);
    CoveredIs(c.lastPushed, HeldOf(c), 0);
    if Newest(box.rows).Some? && Covered(c.lastPushed, HeldOf(c)).Some? {
      CoversAll(box.rows, c.lastPushed, HeldOf(c));
    }
  }

  /** The clock also runs when every row was pushed: a carried row is framed before the lower-numbered
      one that flushes it, and then lies above the last row pushed. */
  lemma PushedRowTripsClock(now: real)
    ensures var first := Next(AT_FOUR, Input(Some(Inbox(1, 2, [FIVE, SIX])), 0.0, true));
      && first.framed == [6, 5] && first.state.cursor.Some? && HeldOf(first.state.cursor.value) == []
      && Poll(first.state, Some(Inbox(1, 2, [FIVE, SIX])), now, true).state.stallSince.Some?
  {
    var box := Inbox(1, 2, [FIVE, SIX]);
    CarryMovesCursorBack(2);
    SixIsNotCovered(Next(AT_FOUR, Input(Some(box), 0.0, true)).state, box, now);
  }

  lemma SixIsNotCovered(s: State, box: Inbox, now: real)
    requires s.cursor == Some(Cursor(Some(5), 1, 2, false, Some([]))) && box == Inbox(1, 2, [FIVE, SIX]) && s.foreign == 0
    ensures Poll(s, Some(box), now, true).state.stallSince.Some?
  {
    NothingFresh(s, box, now);
    StallTells(s, box, now, true);
    assert Numbered(box.rows[1]) && box.rows[1].id.value == 6;
  }

  lemma NothingFresh(s: State, box: Inbox, now: real)
    requires s.cursor == Some(Cursor(Some(5), 1, 2, false, Some([]))) && box == Inbox(1, 2, [FIVE, SIX]) && s.foreign == 0
    ensures Poll(s, Some(box), now, true).state.cursor == Some(Cursor(Some(5), 1, 2, false, Some([])))
  {
    var c := s.cursor.value;
    assert FreshRows(c, box) == [];
    assert SortFresh(c, 0, box, now, true) == Sorted(0, [], []);
    assert PushedRows(Sorted(0, [], []), ById(box.rows), now) == [];
  }

  // ---------------------------------------------------------------- the cursor file

  /** With quiet wakes off a poll never gives the cursor file a hold it did not have. */
  lemma HoldKeyTells(s: State, box: Inbox, now: real, quietOn: bool)
    ensures var r := Poll(s, Some(box), now, quietOn);
      && r.state.cursor.Some?
      && (r.state.cursor.value.heldQuiet.Some? <==> quietOn || (s.cursor.Some? && s.cursor.value.heldQuiet.Some?))
      && r.state.cursor.value.inode == box.inode && r.state.cursor.value.offset == box.stat
  {
  }

  /** The ids of the held rows that go out, in the order they were held. */
  function DueIds(held: seq<Held>, flush: bool, now: real): seq<int> {
    if held == [] then []
    else
      var n := |held| - 1;
      DueIds(held[..n], flush, now) + if flush || now - held[n].at >= 21600.0 then [held[n].id] else []
  }

  lemma {:induction false} CarriedAreDue(held: seq<Held>, rows: seq<Row>, flush: bool, now: real)
    requires AllKnown(held, rows)
    ensures Ids(Carried(held, ById(rows), flush, now)) == DueIds(held, flush, now)
    decreases |held|
  {
    if held != [] {
      var n := |held| - 1;
      CarriedAreDue(held[..n], rows, flush, now);
      Channel.ByIdHasIds(rows, held[n].id);
      IdsAppend(Carried(held[..n], ById(rows), flush, now), [ById(rows)[held[n].id]]);
      assert Ids([ById(rows)[held[n].id]]) == [held[n].id];
    }
  }

  /** A poll frames the held rows that are due in the order they were held, then the urgent rows, at
      most twenty; the cursor stands at the last one framed, and where it stood when none was. */
  lemma FramesAre(w: World, p: Input)
    requires Inv(w) && p.box.Some? && Extends(w, p.box.value)
    ensures var c := w.state.cursor.value;
      var r := PollOf(w, p);
      var held := SortFresh(c, w.state.foreign, p.box.value, p.now, p.quietOn).held;
      var urgent := UrgentRows(FreshRows(c, p.box.value), Floor(c.lastPushed), p.quietOn);
      && Ids(r.pushed) == DueIds(held, urgent != [], p.now) + Ids(urgent[|urgent| - Min(20, |urgent|)..])
      && r.state.cursor.Some?
      && r.state.cursor.value.lastPushed == if r.pushed == [] then c.lastPushed else Some(Ids(r.pushed)[|r.pushed| - 1])
  {
    var c, box := w.state.cursor.value, p.box.value;
    var sorted := SortFresh(c, w.state.foreign, box, p.now, p.quietOn);
    PendingIs(w, p);
    CarriedAreDue(sorted.held, box.rows, sorted.pending != [], p.now);
    PushedIs(w, p, sorted);
    Channel.CarriedRowsHaveIds(sorted.held, box.rows, sorted.pending != [], p.now);
    LastOfIds(PollOf(w, p).pushed, c.lastPushed);
  }

  lemma PendingIs(w: World, p: Input)
    requires Inv(w) && p.box.Some? && Extends(w, p.box.value)
    ensures var c := w.state.cursor.value;
      var sorted := SortFresh(c, w.state.foreign, p.box.value, p.now, p.quietOn);
      && sorted.pending == UrgentRows(FreshRows(c, p.box.value), Floor(c.lastPushed), p.quietOn)
      && HasIds(sorted.pending) && AllKnown(sorted.held, p.box.value.rows)
  {
    var c, box := w.state.cursor.value, p.box.value;
    SortedHeldIsQuiet(w, box, p.now, p.quietOn);
    PendingIsUrgentRows(Sorted(w.state.foreign, HeldOf(c), []), FreshRows(c, box), Floor(c.lastPushed), p.quietOn, p.now);
    Channel.SortedRowsHaveIds(Sorted(w.state.foreign, HeldOf(c), []), FreshRows(c, box), Floor(c.lastPushed), p.quietOn, p.now);
  }

  lemma LastOfIds(pushed: seq<Row>, last: Option<int>)
    requires HasIds(pushed)
    ensures LastOf(pushed, last) == if pushed == [] then last else Some(Ids(pushed)[|pushed| - 1])
  {
  }

  lemma PushedIs(w: World, p: Input, sorted: Sorted)
    requires w.state.cursor.Some? && p.box.Some?
    requires sorted == SortFresh(w.state.cursor.value, w.state.foreign, p.box.value, p.now, p.quietOn)
    ensures var r := PollOf(w, p);
      var carried := Carried(sorted.held, ById(p.box.value.rows), sorted.pending != [], p.now);
      var newest := sorted.pending[|sorted.pending| - Min(20, |sorted.pending|)..];
      && r.pushed == carried + newest && Ids(r.pushed) == Ids(carried) + Ids(newest)
      && r.state.cursor.Some? && r.state.cursor.value.lastPushed == LastOf(r.pushed, w.state.cursor.value.lastPushed)
  {
    var carried := Carried(sorted.held, ById(p.box.value.rows), sorted.pending != [], p.now);
    IdsAppend(carried, sorted.pending[|sorted.pending| - Min(20, |sorted.pending|)..]);
  }

  /** The first poll announces where it starts, and no other poll does. */
  lemma ArmingTells(s: State, box: Inbox, now: real, quietOn: bool, last: Option<int>)
    ensures var r := Poll(s, Some(box), now, quietOn);
      Armed(last) in r.notes <==> s.cursor.None? && last == MaxStale(box.rows, now)
  {
    var c := if s.cursor.None? then FirstCursor(box, now, quietOn) else s.cursor.value;
    var opening := if s.cursor.None? then [Armed(c.lastPushed)] else [];
    var sorted := SortFresh(c, s.foreign, box, now, quietOn);
    var r := PollSorted(s, c, sorted, box, now, quietOn, opening);
    var more := PushNotes(sorted, ById(box.rows), now);
    var alarm := if sorted.foreign > 0 && !s.anomalySent then [ForeignRows(sorted.foreign)] else [];
    assert r.notes == opening + alarm + more;
    NotArmed(sorted, ById(box.rows), now);
  }

  lemma NotArmed(sorted: Sorted, byId: map<int, Row>, now: real)
    ensures forall last :: Armed(last) !in PushNotes(sorted, byId, now)
  {
  }

  /** A restart keeps the cursor file and forgets the rest. */
  lemma RestartKeepsCursor(s: State)
    ensures Restarted(s).cursor == s.cursor && Restarted(s).foreign == 0 && Restarted(s).stallSince == None
    ensures Restarted(s).anomalySent <==> s.cursor.Some? && s.cursor.value.anomalySent
  {
  }

  // ---------------------------------------------------------------- foreign rows

  ghost function ForeignAt(rows: seq<Row>): set<int> {
    set k | 0 <= k < |rows| && !rows[k].toCell
  }

  lemma {:induction false} ForeignCounted(acc: Sorted, rows: seq<Row>, floor: int, quietOn: bool, now: real)
    ensures SortAll(acc, rows, floor, quietOn, now).foreign == acc.foreign + |ForeignAt(rows)|
    decreases |rows|
  {
    if rows == [] {
      assert ForeignAt(rows) == {};
    } else {
      var n := |rows| - 1;
      ForeignCounted(acc, rows[..n], floor, quietOn, now);
      ForeignAtLast(rows);
    }
  }

  lemma ForeignAtLast(rows: seq<Row>)
    requires rows != []
    ensures var n := |rows| - 1;
      && n !in ForeignAt(rows[..n]) && ForeignAt(rows) == ForeignAt(rows[..n]) + if rows[n].toCell then {} else {n}
  {
    var n := |rows| - 1;
    assert forall k :: 0 <= k < n ==> rows[..n][k] == rows[k];
  }

  ghost predicate Alarms(r: Polled) {
    exists n :: ForeignRows(n) in r.notes
  }

  /** A poll counts the foreign rows it reads, reports their number exactly when there are some and
      none were ever reported, and then remembers that, in the cursor file too. */
  lemma AlarmTells(s: State, box: Inbox, now: real, quietOn: bool)
    requires s.cursor.Some?
    ensures var r := Poll(s, Some(box), now, quietOn);
      && r.state.foreign == s.foreign + |ForeignAt(FreshRows(s.cursor.value, box))|
      && (Alarms(r) <==> r.state.foreign > 0 && !s.anomalySent)
      && (Alarms(r) ==> ForeignRows(r.state.foreign) in r.notes)
      && (r.state.anomalySent <==> s.anomalySent || Alarms(r))
      && r.state.cursor.Some? && (r.state.cursor.value.anomalySent <==> s.cursor.value.anomalySent || Alarms(r))
  {
    var c := s.cursor.value;
    ForeignCounted(Sorted(s.foreign, HeldOf(c), []), FreshRows(c, box), Floor(c.lastPushed), quietOn, now);
    AlarmIs(s, c, SortFresh(c, s.foreign, box, now, quietOn), box, now, quietOn, []);
  }

  lemma AlarmIs(s: State, c: Cursor, sorted: Sorted, box: Inbox, now: real, quietOn: bool, opening: seq<Note>)
    requires forall n :: ForeignRows(n) !in opening
    ensures var r := PollSorted(s, c, sorted, box, now, quietOn, opening);
      && (Alarms(r) <==> sorted.foreign > 0 && !s.anomalySent)
      && (Alarms(r) ==> ForeignRows(sorted.foreign) in r.notes)
  {
    var r := PollSorted(s, c, sorted, box, now, quietOn, opening);
    var alarm := if sorted.foreign > 0 && !s.anomalySent then [ForeignRows(sorted.foreign)] else [];
    var more := PushNotes(sorted, ById(box.rows), now);
    assert r.notes == opening + alarm + more;
    NotForeign(sorted, ById(box.rows), now);
    if alarm != [] {
      assert r.notes[|opening|] == ForeignRows(sorted.foreign);
    }
  }

  lemma NotForeign(sorted: Sorted, byId: map<int, Row>, now: real)
    ensures forall n :: ForeignRows(n) !in PushNotes(sorted, byId, now)
  {
  }

  /** The flag in memory is the one in the file. */
  ghost predicate FlagsAgree(w: World) {
    w.state.cursor.Some? ==> (w.state.anomalySent <==> w.state.cursor.value.anomalySent)
  }

  lemma FirstAlarmTells(s: State, box: Inbox, now: real, quietOn: bool)
    requires s.cursor.None?
    ensures var r := Poll(s, Some(box), now, quietOn);
      && (Alarms(r) <==> r.state.foreign > 0 && !s.anomalySent) && (r.state.anomalySent <==> s.anomalySent || Alarms(r))
      && r.state.cursor.Some? && (r.state.cursor.value.anomalySent <==> Alarms(r))
  {
    var c := FirstCursor(box, now, quietOn);
    AlarmIs(s, c, SortFresh(c, s.foreign, box, now, quietOn), box, now, quietOn, [Armed(c.lastPushed)]);
  }

  ghost predicate AlarmsAt(w: World, e: Event) {
    (e.Polls? || e.Dies?) && e.input.box.Some? && Alarms(PollOf(w, e.input))
  }

  /** Started, or nothing reported yet. */
  ghost predicate FlagsRight(w: World) {
    FlagsAgree(w) && (w.state.cursor.None? ==> !w.state.anomalySent)
  }

  lemma FlagsStay(w: World, e: Event)
    requires FlagsRight(w)
    ensures FlagsRight(After(w, e)) && (AlarmsAt(w, e) ==> !w.state.anomalySent && After(w, e).state.anomalySent)
    ensures w.state.anomalySent ==> After(w, e).state.anomalySent
  {
    if (e.Polls? || e.Dies?) && e.input.box.Some? {
      if w.state.cursor.Some? {
        AlarmTells(w.state, e.input.box.value, e.input.now, e.input.quietOn);
      } else {
        FirstAlarmTells(w.state, e.input.box.value, e.input.now, e.input.quietOn);
      }
    }
  }

  lemma {:induction false} FlagsOver(w: World, events: seq<Event>)
    requires FlagsRight(w)
    ensures FlagsRight(Run(w, events)) && (w.state.anomalySent ==> Run(w, events).state.anomalySent)
    decreases |events|
  {
    if events != [] {
      FlagsStay(w, events[0]);
      FlagsOver(After(w, events[0]), events[1..]);
    }
  }

  /** Over any run, restarts and deaths included, foreign rows are reported by one poll at most. */
  lemma ForeignRowsAreReportedOnce(w: World, before: seq<Event>, e: Event, between: seq<Event>, f: Event)
    requires FlagsRight(w) && AlarmsAt(Run(w, before), e)
    ensures !AlarmsAt(Run(After(Run(w, before), e), between), f)
  {
    FlagsOver(w, before);
    var x := Run(w, before);
    FlagsStay(x, e);
    FlagsOver(After(x, e), between);
    FlagsStay(Run(After(x, e), between), f);
  }
}
