/** The channel's first start: which rows of an inbox that was there before are still delivered. */
module ChannelStart {
  import opened Common
  import opened ChannelSpec
  import opened ChannelSafety

  /** A row whose arrival was at most 30 seconds before `now`, or later. */
  ghost predicate Recent(row: Row, now: real) {
    row.created.Some? && row.created.value >= now - 30.0
  }

  /** A row with an id that was there before the first start. */
  ghost predicate WasThere(row: Row, now: real) {
    row.id.Some? && !Recent(row, now)
  }

  /** `id` comes after every row that was there before, or, without one, is a number from 0 on. */
  ghost predicate AfterAll(rows: seq<Row>, now: real, id: int) {
    && (forall j :: 0 <= j < |rows| && WasThere(rows[j], now) ==> rows[j].id.value < id)
    && ((forall j :: 0 <= j < |rows| ==> !WasThere(rows[j], now)) ==> id >= 0)
  }

  lemma LargerIs(best: Option<int>, id: int, v: int)
    ensures Larger(best, id).Some? && (v > Larger(best, id).value <==> v > id && (best.Some? ==> v > best.value))
  {
  }

  lemma {:induction false} FloorIsAfterAll(rows: seq<Row>, now: real, id: int)
    ensures MaxStale(rows, now).None? <==> forall j :: 0 <= j < |rows| ==> !WasThere(rows[j], now)
    ensures id > Floor(MaxStale(rows, now)) <==> AfterAll(rows, now, id)
    decreases |rows|
  {
    if rows != [] {
      var n := |rows| - 1;
      FloorIsAfterAll(rows[..n], now, id);
      AfterAllLast(rows, now, id);
      if WasThere(rows[n], now) {
        LargerIs(MaxStale(rows[..n], now), rows[n].id.value, id);
      }
    }
  }

  lemma AfterAllLast(rows: seq<Row>, now: real, id: int)
    requires rows != []
    ensures var n := |rows| - 1;
      && ((forall j :: 0 <= j < |rows| ==> !WasThere(rows[j], now))
          <==> !WasThere(rows[n], now) && forall j :: 0 <= j < n ==> !WasThere(rows[..n][j], now))
      && ((forall j :: 0 <= j < |rows| && WasThere(rows[j], now) ==> rows[j].id.value < id)
          <==> (WasThere(rows[n], now) ==> rows[n].id.value < id)
               && forall j :: 0 <= j < n && WasThere(rows[..n][j], now) ==> rows[..n][j].id.value < id)
  {
    var n := |rows| - 1;
    assert forall j :: 0 <= j < n ==> rows[..n][j] == rows[j];
  }

  // ---------------------------------------------------------------- what the first poll takes

  ghost predicate IsWanted(rows: seq<Row>, floor: int, id: int) {
    exists k :: 0 <= k < |rows| && Wanted(rows[k], floor) && rows[k].id.value == id
  }

  lemma {:induction false} SortedHas(acc: Sorted, rows: seq<Row>, floor: int, quietOn: bool, now: real, id: int)
    ensures id in Total(SortAll(acc, rows, floor, quietOn, now)) <==> id in Total(acc) || IsWanted(rows, floor, id)
    decreases |rows|
  {
    if rows != [] {
      var n := |rows| - 1;
      var before := SortAll(acc, rows[..n], floor, quietOn, now);
      SortedHas(acc, rows[..n], floor, quietOn, now, id);
      SortOneTotal(before, rows[n], floor, quietOn, now);
      IsWantedLast(rows, floor, id);
      if Wanted(rows[n], floor) && IsHeld(before.held, rows[n].id.value) {
        HeldIsTotal(before, rows[n].id.value);
      }
    }
  }

  lemma IsWantedLast(rows: seq<Row>, floor: int, id: int)
    requires rows != []
    ensures var n := |rows| - 1;
      IsWanted(rows, floor, id) <==> IsWanted(rows[..n], floor, id) || (Wanted(rows[n], floor) && rows[n].id.value == id)
  {
    var n := |rows| - 1;
    if k :| 0 <= k < n && Wanted(rows[..n][k], floor) && rows[..n][k].id.value == id {
      assert rows[k] == rows[..n][k];
    }
    if k :| 0 <= k < n && Wanted(rows[k], floor) && rows[k].id.value == id {
      assert rows[..n][k] == rows[k];
    }
  }

  lemma HeldIsTotal(acc: Sorted, id: int)
    requires IsHeld(acc.held, id)
    ensures id in Total(acc)
  {
    var k :| 0 <= k < |acc.held| && acc.held[k].id == id;
    assert HeldIds(acc.held)[k] == id;
    assert id in multiset(HeldIds(acc.held));
  }

  /** The first poll of a cell whose channel never ran. */
  function FirstPoll(s: State, box: Inbox, now: real, quietOn: bool): Polled {
    Poll(s, Some(box), now, quietOn)
  }

  lemma HeldIsKnown(foreign: nat, rows: seq<Row>, floor: int, quietOn: bool, now: real)
    ensures AllKnown(SortAll(Sorted(foreign, [], []), rows, floor, quietOn, now).held, rows)
  {
    var held := SortAll(Sorted(foreign, [], []), rows, floor, quietOn, now).held;
    forall k | 0 <= k < |held| ensures held[k].id in ById(rows) {
      HeldFrom(Sorted(foreign, [], []), rows, floor, quietOn, now, held[k].id);
      var j :| 0 <= j < |rows| && rows[j].id == Some(held[k].id);
      ByIdKnows(rows, j);
    }
  }

  /** A real row for the cell is framed, noted or held by the first poll exactly when its id comes
      after every row that was there before: rows created more than 30 seconds ago, or at no known
      time, are not, and newer ones above them are. */
  lemma FirstStartTakesExactlyWhen(s: State, box: Inbox, now: real, quietOn: bool, k: nat)
    requires s.cursor.None? && k < |box.rows| && box.rows[k].id.Some? && box.rows[k].toCell && box.rows[k].isReal
    ensures var r, id := FirstPoll(s, box, now, quietOn), box.rows[k].id.value;
      && r.state.cursor.Some?
      && (id in Ids(r.pushed) || id in Ids(r.dropped) || id in HeldIds(HeldOf(r.state.cursor.value))
          <==> AfterAll(box.rows, now, id))
  {
    var id, c := box.rows[k].id.value, FirstCursor(box, now, quietOn);
    var floor := Floor(c.lastPushed);
    var acc := Sorted(s.foreign, [], []);
    assert FreshRows(c, box) == box.rows;
    HeldIsKnown(s.foreign, box.rows, floor, quietOn, now);
    PollAccounts(s, c, box, now, quietOn, [Armed(c.lastPushed)]);
    SortedHas(acc, box.rows, floor, quietOn, now, id);
    FloorIsAfterAll(box.rows, now, id);
    assert Ids([]) == [] && HeldIds([]) == [];
    if id > floor {
      assert Wanted(box.rows[k], floor);
    }
    var r := PollWith(s, c, box, now, quietOn, [Armed(c.lastPushed)]);
    InOneOf(Ids(r.pushed), Ids(r.dropped), HeldIds(HeldOf(r.state.cursor.value)), id);
  }

  lemma InOneOf(a: seq<int>, b: seq<int>, c: seq<int>, id: int)
    ensures id in multiset(a) + multiset(b) + multiset(c) <==> id in a || id in b || id in c
  {
    assert id in multiset(a) <==> id in a;
    assert id in multiset(b) <==> id in b;
    assert id in multiset(c) <==> id in c;
  }

  /** A row that was there before is never delivered, whatever its id and its kind. */
  lemma OldRowIsNotDelivered(s: State, box: Inbox, now: real, quietOn: bool, k: nat)
    requires s.cursor.None? && k < |box.rows| && box.rows[k].id.Some?
    requires box.rows[k].created.None? || now - box.rows[k].created.value > 30.0
    ensures var r, id := FirstPoll(s, box, now, quietOn), box.rows[k].id.value;
      && r.state.cursor.Some? && id !in Ids(r.pushed) && id !in Ids(r.dropped)
      && id !in HeldIds(HeldOf(r.state.cursor.value))
  {
    var id, c := box.rows[k].id.value, FirstCursor(box, now, quietOn);
    var floor := Floor(c.lastPushed);
    assert FreshRows(c, box) == box.rows;
    HeldIsKnown(s.foreign, box.rows, floor, quietOn, now);
    PollAccounts(s, c, box, now, quietOn, [Armed(c.lastPushed)]);
    SortedHas(Sorted(s.foreign, [], []), box.rows, floor, quietOn, now, id);
    FloorIsAfterAll(box.rows, now, id);
    assert WasThere(box.rows[k], now);
    assert Ids([]) == [] && HeldIds([]) == [];
    var r := PollWith(s, c, box, now, quietOn, [Armed(c.lastPushed)]);
    InOneOf(Ids(r.pushed), Ids(r.dropped), HeldIds(HeldOf(r.state.cursor.value)), id);
  }

  /** An urgent row that arrived at most 30 seconds ago, or later, above every older one, is framed
      or counted in the backlog note, and the poll leaves nothing held. */
  lemma RecentUrgentRowIsDelivered(s: State, box: Inbox, now: real, quietOn: bool, k: nat)
    requires s.cursor.None? && k < |box.rows| && box.rows[k].id.Some? && box.rows[k].toCell && box.rows[k].isReal
    requires !(quietOn && box.rows[k].quiet) && box.rows[k].created.Some? && now - box.rows[k].created.value <= 30.0
    requires box.rows[k].id.value >= 0
    requires forall j :: 0 <= j < |box.rows| && WasThere(box.rows[j], now) ==> box.rows[j].id.value < box.rows[k].id.value
    ensures var r, id := FirstPoll(s, box, now, quietOn), box.rows[k].id.value;
      && (id in Ids(r.pushed) || id in Ids(r.dropped))
      && r.state.cursor.Some? && HeldOf(r.state.cursor.value) == []
  {
    FirstStartTakesExactlyWhen(s, box, now, quietOn, k);
    var c := FirstCursor(box, now, quietOn);
    var floor := Floor(c.lastPushed);
    assert FreshRows(c, box) == box.rows;
    FloorIsAfterAll(box.rows, now, box.rows[k].id.value);
    assert Urgent(box.rows[k], floor, quietOn);
    PendingIsUrgent(Sorted(s.foreign, [], []), box.rows, floor, quietOn, now);
    var sorted := SortFresh(c, s.foreign, box, now, quietOn);
    KeptIsHeld(sorted.held, ById(box.rows), true, now);
    if !quietOn {
      SortQuietOff(Sorted(s.foreign, [], []), box.rows, floor, now);
    }
  }
}
