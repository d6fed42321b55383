/** Conservation of the channel: a poll leaves every wanted row an inbox ever showed framed once,
    held, counted in a backlog note, or lost to a death before its note was written. */
module ChannelSafety {
  import opened Common
  import opened ChannelSpec
  import Channel

  datatype Input = Input(box: Option<Inbox>, now: real, quietOn: bool)

  /** The channel with the history of its polls: the rows read so far, the ids framed, the ids
      left to a backlog note, and those whose note was never written. `base` is the starting
      cursor. */
  datatype World = World(base: int, state: State, rows: seq<Row>, framed: seq<int>, dropped: seq<int>, lost: seq<int>)

  // ---------------------------------------------------------------- ids

  function IdOf(row: Row): int {
    if row.id.Some? then row.id.value else -1
  }

  function Ids(rows: seq<Row>): (r: seq<int>)
    ensures |r| == |rows| && forall k :: 0 <= k < |rows| ==> r[k] == IdOf(rows[k])
  {
    seq(|rows|, k requires 0 <= k < |rows| => IdOf(rows[k]))
  }

  function HeldIds(held: seq<Held>): (r: seq<int>)
    ensures |r| == |held| && forall k :: 0 <= k < |held| ==> r[k] == held[k].id
  {
    seq(|held|, k requires 0 <= k < |held| => held[k].id)
  }

  function WantedIds(rows: seq<Row>, floor: int): seq<int> {
    if rows == [] then []
    else
      var n := |rows| - 1;
      WantedIds(rows[..n], floor) + if Wanted(rows[n], floor) then [rows[n].id.value] else []
  }

  ghost predicate Ascending(rows: seq<Row>) {
    forall j, k :: 0 <= j < k < |rows| && rows[j].id.Some? && rows[k].id.Some? ==> rows[j].id.value < rows[k].id.value
  }

  lemma IdsAppend(a: seq<Row>, b: seq<Row>)
    ensures Ids(a + b) == Ids(a) + Ids(b)
  {
  }

  lemma HeldIdsAppend(a: seq<Held>, b: seq<Held>)
    ensures HeldIds(a + b) == HeldIds(a) + HeldIds(b)
  {
  }

  ghost predicate HasWanted(rows: seq<Row>, floor: int, id: int) {
    exists k :: 0 <= k < |rows| && Wanted(rows[k], floor) && rows[k].id.value == id
  }

  lemma HasWantedLast(rows: seq<Row>, floor: int, id: int)
    requires rows != []
    ensures var n := |rows| - 1;
            HasWanted(rows, floor, id) <==>
            HasWanted(rows[..n], floor, id) || (Wanted(rows[n], floor) && rows[n].id.value == id)
  {
    var n := |rows| - 1;
    if HasWanted(rows[..n], floor, id) {
      var k :| 0 <= k < n && Wanted(rows[..n][k], floor) && rows[..n][k].id.value == id;
      assert rows[k] == rows[..n][k];
    }
    if k :| 0 <= k < n && Wanted(rows[k], floor) && rows[k].id.value == id {
      assert rows[..n][k] == rows[k];
    }
  }

  lemma {:induction false} WantedIdsHave(rows: seq<Row>, floor: int, id: int)
    ensures id in WantedIds(rows, floor) <==> HasWanted(rows, floor, id)
    decreases |rows|
  {
    if rows != [] {
      WantedIdsHave(rows[..|rows| - 1], floor, id);
      HasWantedLast(rows, floor, id);
    }
  }

  lemma {:induction false} WantedOnce(rows: seq<Row>, floor: int, id: int)
    requires Ascending(rows)
    ensures multiset(WantedIds(rows, floor))[id] == if id in WantedIds(rows, floor) then 1 else 0
    decreases |rows|
  {
    if rows != [] {
      var n := |rows| - 1;
      WantedOnce(rows[..n], floor, id);
      if Wanted(rows[n], floor) && id == rows[n].id.value {
        WantedIdsHave(rows[..n], floor, id);
      }
    }
  }

  lemma {:induction false} WantedIdsAppend(a: seq<Row>, b: seq<Row>, floor: int)
    ensures WantedIds(a + b, floor) == WantedIds(a, floor) + WantedIds(b, floor)
    decreases |b|
  {
    if b == [] {
      assert a + b == a;
    } else {
      var n := |b| - 1;
      assert (a + b)[..|a| + n] == a + b[..n];
      WantedIdsAppend(a, b[..n], floor);
    }
  }

  /** The floor does not matter among rows numbered above both floors. */
  lemma {:induction false} WantedIdsFloor(rows: seq<Row>, low: int, high: int)
    requires forall k :: 0 <= k < |rows| ==> (Wanted(rows[k], low) <==> Wanted(rows[k], high))
    ensures WantedIds(rows, low) == WantedIds(rows, high)
    decreases |rows|
  {
    if rows != [] {
      WantedIdsFloor(rows[..|rows| - 1], low, high);
    }
  }

  // ---------------------------------------------------------------- sorting the fresh rows

  /** Ids a sorted batch answers for. */
  ghost function Total(acc: Sorted): multiset<int> {
    multiset(HeldIds(acc.held)) + multiset(Ids(acc.pending))
  }

  lemma {:induction false} SortAppend(acc: Sorted, a: seq<Row>, b: seq<Row>, floor: int, quietOn: bool, now: real)
    ensures SortAll(acc, a + b, floor, quietOn, now)
         == SortAll(SortAll(acc, a, floor, quietOn, now), b, floor, quietOn, now)
    decreases |b|
  {
    if b == [] {
      assert a + b == a;
    } else {
      var n := |b| - 1;
      assert (a + b)[..|a| + n] == a + b[..n];
      SortAppend(acc, a, b[..n], floor, quietOn, now);
    }
  }

  lemma SortOneTotal(acc: Sorted, row: Row, floor: int, quietOn: bool, now: real)
    ensures Total(SortOne(acc, row, floor, quietOn, now)) == Total(acc) +
            if Wanted(row, floor) && !(quietOn && row.quiet && IsHeld(acc.held, row.id.value))
            then multiset{row.id.value} else multiset{}
  {
    if Wanted(row, floor) {
      HeldIdsAppend(acc.held, [Held(row.id.value, now)]);
      assert HeldIds([Held(row.id.value, now)]) == [row.id.value];
      IdsAppend(acc.pending, [row]);
      assert Ids([row]) == [row.id.value];
    }
  }

  lemma {:induction false} HeldFrom(acc: Sorted, rows: seq<Row>, floor: int, quietOn: bool, now: real, id: int)
    requires IsHeld(SortAll(acc, rows, floor, quietOn, now).held, id)
    ensures IsHeld(acc.held, id) || exists k :: 0 <= k < |rows| && rows[k].id == Some(id) && rows[k].quiet && quietOn && Wanted(rows[k], floor)
    decreases |rows|
  {
    if rows != [] {
      var n := |rows| - 1;
      var before := SortAll(acc, rows[..n], floor, quietOn, now);
      if IsHeld(before.held, id) {
        HeldFrom(acc, rows[..n], floor, quietOn, now, id);
        if !IsHeld(acc.held, id) {
          var k :| 0 <= k < n && rows[..n][k].id == Some(id) && rows[..n][k].quiet && Wanted(rows[..n][k], floor);
          assert rows[k] == rows[..n][k];
        }
      } else {
        assert rows[n].id == Some(id);
      }
    }
  }

  /** New rows are all taken, each once. */
  lemma {:induction false} SortTakesAll(acc: Sorted, rows: seq<Row>, floor: int, quietOn: bool, now: real)
    requires Ascending(rows)
    requires forall k :: 0 <= k < |rows| && Wanted(rows[k], floor) ==> !IsHeld(acc.held, rows[k].id.value)
    ensures Total(SortAll(acc, rows, floor, quietOn, now)) == Total(acc) + multiset(WantedIds(rows, floor))
    decreases |rows|
  {
    if rows != [] {
      var n := |rows| - 1;
      SortTakesAll(acc, rows[..n], floor, quietOn, now);
      var before := SortAll(acc, rows[..n], floor, quietOn, now);
      if Wanted(rows[n], floor) {
        NotHeldBefore(acc, rows, floor, quietOn, now);
      }
      SortOneTotal(before, rows[n], floor, quietOn, now);
    }
  }

  /** Rows that are read again change nothing when each wanted one is already held. */
  lemma {:induction false} SortSkipsHeld(acc: Sorted, rows: seq<Row>, floor: int, quietOn: bool, now: real)
    requires forall k :: 0 <= k < |rows| && Wanted(rows[k], floor) ==>
               quietOn && rows[k].quiet && IsHeld(acc.held, rows[k].id.value)
    ensures var r := SortAll(acc, rows, floor, quietOn, now); r.held == acc.held && r.pending == acc.pending
    decreases |rows|
  {
    if rows != [] {
      SortSkipsHeld(acc, rows[..|rows| - 1], floor, quietOn, now);
    }
  }

  lemma {:induction false} SortGrows(acc: Sorted, rows: seq<Row>, floor: int, quietOn: bool, now: real)
    ensures Total(acc) <= Total(SortAll(acc, rows, floor, quietOn, now))
    decreases |rows|
  {
    if rows != [] {
      var n := |rows| - 1;
      SortGrows(acc, rows[..n], floor, quietOn, now);
      SortOneTotal(SortAll(acc, rows[..n], floor, quietOn, now), rows[n], floor, quietOn, now);
    }
  }

  /** A wanted row that is not held is taken, whatever comes before and after it. */
  lemma {:induction false} SortTakes(acc: Sorted, rows: seq<Row>, k: nat, floor: int, quietOn: bool, now: real)
    requires Ascending(rows) && k < |rows| && Wanted(rows[k], floor)
    requires !(quietOn && rows[k].quiet && IsHeld(acc.held, rows[k].id.value))
    ensures Total(SortAll(acc, rows, floor, quietOn, now))[rows[k].id.value] > Total(acc)[rows[k].id.value]
    decreases |rows|
  {
    var n := |rows| - 1;
    var before := SortAll(acc, rows[..n], floor, quietOn, now);
    SortOneTotal(before, rows[n], floor, quietOn, now);
    if k < n {
      SortTakes(acc, rows[..n], k, floor, quietOn, now);
    } else {
      SortTakesLast(acc, rows, floor, quietOn, now);
    }
  }

  lemma SortTakesLast(acc: Sorted, rows: seq<Row>, floor: int, quietOn: bool, now: real)
    requires Ascending(rows) && rows != [] && Wanted(rows[|rows| - 1], floor)
    requires !(quietOn && rows[|rows| - 1].quiet && IsHeld(acc.held, rows[|rows| - 1].id.value))
    ensures var id := rows[|rows| - 1].id.value;
            Total(SortAll(acc, rows, floor, quietOn, now))[id] > Total(acc)[id]
  {
    var n := |rows| - 1;
    SortOneTotal(SortAll(acc, rows[..n], floor, quietOn, now), rows[n], floor, quietOn, now);
    SortGrows(acc, rows[..n], floor, quietOn, now);
    NotHeldBefore(acc, rows, floor, quietOn, now);
  }

  /** Earlier rows of the batch do not hold the last one's id. */
  lemma NotHeldBefore(acc: Sorted, rows: seq<Row>, floor: int, quietOn: bool, now: real)
    requires Ascending(rows) && rows != [] && rows[|rows| - 1].id.Some?
    ensures var last := rows[|rows| - 1].id.value;
            IsHeld(SortAll(acc, rows[..|rows| - 1], floor, quietOn, now).held, last) ==> IsHeld(acc.held, last)
  {
    var n := |rows| - 1;
    if IsHeld(SortAll(acc, rows[..n], floor, quietOn, now).held, rows[n].id.value) {
      HeldFrom(acc, rows[..n], floor, quietOn, now, rows[n].id.value);
    }
  }

  lemma {:induction false} SortQuietOff(acc: Sorted, rows: seq<Row>, floor: int, now: real)
    ensures SortAll(acc, rows, floor, false, now).held == acc.held
    decreases |rows|
  {
    if rows != [] {
      SortQuietOff(acc, rows[..|rows| - 1], floor, now);
    }
  }

  // ---------------------------------------------------------------- carrying and pushing

  lemma {:induction false} ByIdKnows(rows: seq<Row>, k: nat)
    requires k < |rows| && rows[k].id.Some?
    ensures rows[k].id.value in ById(rows)
    decreases |rows|
  {
    if k < |rows| - 1 {
      ByIdKnows(rows[..|rows| - 1], k);
    }
  }

  ghost predicate AllKnown(held: seq<Held>, rows: seq<Row>) {
    forall k :: 0 <= k < |held| ==> held[k].id in ById(rows)
  }

  /** Holding loses nothing: what is not carried is kept. */
  lemma {:induction false} CarriedOrKept(held: seq<Held>, rows: seq<Row>, flush: bool, now: real)
    requires AllKnown(held, rows)
    ensures multiset(Ids(Carried(held, ById(rows), flush, now))) + multiset(HeldIds(Kept(held, ById(rows), flush, now)))
         == multiset(HeldIds(held))
    decreases |held|
  {
    if held != [] {
      var n := |held| - 1;
      var h := held[n];
      CarriedOrKept(held[..n], rows, flush, now);
      Channel.ByIdHasIds(rows, h.id);
      assert held == held[..n] + [h];
      HeldIdsAppend(held[..n], [h]);
      assert HeldIds([h]) == [h.id];
      IdsAppend(Carried(held[..n], ById(rows), flush, now), [ById(rows)[h.id]]);
      assert Ids([ById(rows)[h.id]]) == [h.id];
      HeldIdsAppend(Kept(held[..n], ById(rows), flush, now), [h]);
    }
  }

  lemma SplitIds(pending: seq<Row>, n: nat)
    requires n <= |pending|
    ensures multiset(Ids(pending[..n])) + multiset(Ids(pending[n..])) == multiset(Ids(pending))
  {
    assert pending == pending[..n] + pending[n..];
    IdsAppend(pending[..n], pending[n..]);
  }

  lemma KeptQuietOff(c: Cursor, sorted: Sorted, rows: seq<Row>, now: real, quietOn: bool)
    requires quietOn || sorted.held == HeldOf(c)
    ensures quietOn || c.heldQuiet.Some? || Kept(sorted.held, ById(rows), sorted.pending != [], now) == []
  {
  }

  /** A poll answers for everything it sorted: pushed, still held, or in the backlog note. */
  lemma PollAccounts(s: State, c: Cursor, box: Inbox, now: real, quietOn: bool, opening: seq<Note>)
    requires AllKnown(SortFresh(c, s.foreign, box, now, quietOn).held, box.rows)
    ensures var r := PollWith(s, c, box, now, quietOn, opening);
            && r.state.cursor.Some?
            && multiset(Ids(r.pushed)) + multiset(Ids(r.dropped)) + multiset(HeldIds(HeldOf(r.state.cursor.value)))
            == Total(SortFresh(c, s.foreign, box, now, quietOn))
  {
    var sorted := SortFresh(c, s.foreign, box, now, quietOn);
    if !quietOn {
      SortQuietOff(Sorted(s.foreign, HeldOf(c), []), FreshRows(c, box), Floor(c.lastPushed), now);
    }
    KeptQuietOff(c, sorted, box.rows, now, quietOn);
    SortedAccounts(sorted, box.rows, now);
  }

  lemma SortedAccounts(sorted: Sorted, rows: seq<Row>, now: real)
    requires AllKnown(sorted.held, rows)
    ensures var byId, flush, skipped := ById(rows), sorted.pending != [], Skipped(sorted.pending);
            multiset(Ids(PushedRows(sorted, byId, now))) + multiset(Ids(sorted.pending[..skipped]))
            + multiset(HeldIds(Kept(sorted.held, byId, flush, now))) == Total(sorted)
  {
    var skipped := Skipped(sorted.pending);
    CarriedOrKept(sorted.held, rows, sorted.pending != [], now);
    SplitIds(sorted.pending, skipped);
    IdsAppend(Carried(sorted.held, ById(rows), sorted.pending != [], now), sorted.pending[skipped..]);
  }

  // ---------------------------------------------------------------- the invariant

  function Next(w: World, p: Input): World {
    if p.box.None? then w
    else
      var r := Poll(w.state, p.box, p.now, p.quietOn);
      var base := if w.state.cursor.None? then Floor(MaxStale(p.box.value.rows, p.now)) else w.base;
      World(base, r.state, p.box.value.rows, w.framed + Ids(r.pushed), w.dropped + Ids(r.dropped),
            w.lost)
  }

  /** Every wanted row read so far is framed once, held once, dropped once or lost once, and
      nothing else is. */
  ghost predicate Conserved(w: World) {
    && w.state.cursor.Some?
    && Accounted(w) + multiset(HeldIds(HeldOf(w.state.cursor.value))) == multiset(WantedIds(w.rows, w.base))
  }

  ghost function Accounted(w: World): multiset<int> {
    multiset(w.framed) + multiset(w.dropped) + multiset(w.lost)
  }

  /** `id` belongs to a quiet row read so far. */
  ghost predicate QuietId(rows: seq<Row>, id: int) {
    exists k :: 0 <= k < |rows| && rows[k].id == Some(id) && rows[k].quiet
  }

  ghost predicate Inv(w: World) {
    && w.state.cursor.Some?
    && Ascending(w.rows)
    && w.state.cursor.value.offset <= |w.rows|
    && Conserved(w)
    && var c := w.state.cursor.value;
       && (Floor(c.lastPushed) == w.base || Floor(c.lastPushed) in WantedIds(w.rows, w.base))
       && forall k :: 0 <= k < |HeldOf(c)| ==> QuietId(w.rows, HeldOf(c)[k].id)
  }

  /** The inbox the poll reads is the one read before, possibly longer. */
  ghost predicate Extends(w: World, box: Inbox) {
    Ascending(box.rows) && w.rows <= box.rows && box.stat <= |box.rows|
  }

  /** Rows read a second time do no harm: each is below the cursor, or still held with quiet
      wakes on. */
  ghost predicate ReplaySafe(w: World, box: Inbox, quietOn: bool)
    requires w.state.cursor.Some?
  {
    var c := w.state.cursor.value;
    forall k :: StartOf(c, box) <= k < |w.rows| && Wanted(w.rows[k], Floor(c.lastPushed)) ==>
      quietOn && IsHeld(HeldOf(c), w.rows[k].id.value)
  }

  lemma FloorAtLeastBase(w: World)
    requires Inv(w)
    ensures Floor(w.state.cursor.value.lastPushed) >= w.base
  {
    WantedIdsHave(w.rows, w.base, Floor(w.state.cursor.value.lastPushed));
  }

  lemma HeldIsQuiet(w: World, id: int)
    requires Inv(w) && IsHeld(HeldOf(w.state.cursor.value), id)
    ensures QuietId(w.rows, id)
  {
  }

  /** Among the rows not read before, being above the cursor is being above the base. */
  lemma NewRowsAreAboveCursor(w: World, box: Inbox)
    requires Inv(w) && Extends(w, box)
    ensures var c := w.state.cursor.value;
            forall k :: |w.rows| <= k < |box.rows| ==>
              (Wanted(box.rows[k], w.base) <==> Wanted(box.rows[k], Floor(c.lastPushed)))
  {
    var last := Floor(w.state.cursor.value.lastPushed);
    FloorAtLeastBase(w);
    WantedIdsHave(w.rows, w.base, last);
    if last != w.base {
      var j :| 0 <= j < |w.rows| && Wanted(w.rows[j], w.base) && w.rows[j].id.value == last;
      assert w.rows[j] == box.rows[j];
    }
  }

  lemma NewRowsAreNotHeld(w: World, box: Inbox, k: nat)
    requires Inv(w) && Extends(w, box) && |w.rows| <= k < |box.rows| && box.rows[k].id.Some?
    ensures !IsHeld(HeldOf(w.state.cursor.value), box.rows[k].id.value)
  {
    var id := box.rows[k].id.value;
    forall j | 0 <= j < |w.rows| ensures w.rows[j].id != Some(id) {
      assert w.rows[j] == box.rows[j];
    }
    if IsHeld(HeldOf(w.state.cursor.value), id) {
      HeldIsQuiet(w, id);
    }
  }

  /** The fresh rows are rows read before followed by new ones. */
  lemma FreshSplits(w: World, box: Inbox)
    requires Inv(w) && Extends(w, box)
    ensures var c := w.state.cursor.value;
            var o := StartOf(c, box);
            o <= |w.rows| && FreshRows(c, box) == w.rows[o..] + box.rows[|w.rows|..]
  {
    var o := StartOf(w.state.cursor.value, box);
    assert box.rows == w.rows + box.rows[|w.rows|..];
    assert box.rows[o..] == w.rows[o..] + box.rows[|w.rows|..];
  }

  lemma SameQuietRow(rows: seq<Row>, k: nat, id: int)
    requires Ascending(rows) && k < |rows| && rows[k].id == Some(id) && QuietId(rows, id)
    ensures rows[k].quiet
  {
  }

  /** Where replay is harmless, a poll takes exactly the new wanted rows. */
  lemma SafeSortTotal(w: World, box: Inbox, now: real, quietOn: bool)
    requires Inv(w) && Extends(w, box) && ReplaySafe(w, box, quietOn)
    ensures var c := w.state.cursor.value;
            Total(SortFresh(c, w.state.foreign, box, now, quietOn))
            == multiset(HeldIds(HeldOf(c))) + multiset(WantedIds(box.rows[|w.rows|..], w.base))
  {
    var c := w.state.cursor.value;
    var floor := Floor(c.lastPushed);
    var again, news := w.rows[StartOf(c, box)..], box.rows[|w.rows|..];
    var acc := Sorted(w.state.foreign, HeldOf(c), []);
    FreshSplits(w, box);
    SortAppend(acc, again, news, floor, quietOn, now);
    AgainIsSkipped(w, box, now, quietOn);
    NewsIsTaken(w, box, SortAll(acc, again, floor, quietOn, now), now, quietOn);
  }

  lemma AgainIsSkipped(w: World, box: Inbox, now: real, quietOn: bool)
    requires Inv(w) && Extends(w, box) && ReplaySafe(w, box, quietOn)
    ensures var c := w.state.cursor.value;
            var r := SortAll(Sorted(w.state.foreign, HeldOf(c), []), w.rows[StartOf(c, box)..], Floor(c.lastPushed), quietOn, now);
            r.held == HeldOf(c) && r.pending == []
  {
    var c := w.state.cursor.value;
    var o, floor := StartOf(c, box), Floor(c.lastPushed);
    var again := w.rows[o..];
    forall k | 0 <= k < |again| && Wanted(again[k], floor)
      ensures quietOn && again[k].quiet && IsHeld(HeldOf(c), again[k].id.value)
    {
      assert again[k] == w.rows[o + k];
      HeldIsQuiet(w, again[k].id.value);
      SameQuietRow(w.rows, o + k, again[k].id.value);
    }
    SortSkipsHeld(Sorted(w.state.foreign, HeldOf(c), []), again, floor, quietOn, now);
  }

  lemma NewsIsTaken(w: World, box: Inbox, acc: Sorted, now: real, quietOn: bool)
    requires Inv(w) && Extends(w, box)
    requires acc.held == HeldOf(w.state.cursor.value) && acc.pending == []
    ensures var news := box.rows[|w.rows|..];
            Total(SortAll(acc, news, Floor(w.state.cursor.value.lastPushed), quietOn, now))
            == multiset(HeldIds(acc.held)) + multiset(WantedIds(news, w.base))
  {
    var news, floor := box.rows[|w.rows|..], Floor(w.state.cursor.value.lastPushed);
    NewRowsAreAboveCursor(w, box);
    forall k | 0 <= k < |news|
      ensures Wanted(news[k], w.base) <==> Wanted(news[k], floor)
      ensures Wanted(news[k], floor) ==> !IsHeld(acc.held, news[k].id.value)
    {
      assert news[k] == box.rows[|w.rows| + k];
      if news[k].id.Some? {
        NewRowsAreNotHeld(w, box, |w.rows| + k);
      }
    }
    AscendingTail(box.rows, |w.rows|);
    SortTakesAll(acc, news, floor, quietOn, now);
    WantedIdsFloor(news, w.base, floor);
  }

  lemma AscendingTail(rows: seq<Row>, k: nat)
    requires Ascending(rows) && k <= |rows|
    ensures Ascending(rows[k..])
  {
    forall i, j | 0 <= i < j < |rows| - k && rows[k..][i].id.Some? && rows[k..][j].id.Some?
      ensures rows[k..][i].id.value < rows[k..][j].id.value
    {
      assert rows[k..][i] == rows[k + i] && rows[k..][j] == rows[k + j];
    }
  }

  /** Every id a poll sorts as held belongs to a quiet row of the inbox it reads. */
  lemma SortedHeldIsQuiet(w: World, box: Inbox, now: real, quietOn: bool)
    requires Inv(w) && Extends(w, box)
    ensures var held := SortFresh(w.state.cursor.value, w.state.foreign, box, now, quietOn).held;
            AllKnown(held, box.rows) && forall k :: 0 <= k < |held| ==> QuietId(box.rows, held[k].id)
  {
    var c := w.state.cursor.value;
    var acc := Sorted(w.state.foreign, HeldOf(c), []);
    var unread := FreshRows(c, box);
    var held := SortFresh(c, w.state.foreign, box, now, quietOn).held;
    forall k | 0 <= k < |held| ensures QuietId(box.rows, held[k].id) && held[k].id in ById(box.rows) {
      var id := held[k].id;
      HeldFrom(acc, unread, Floor(c.lastPushed), quietOn, now, id);
      if IsHeld(acc.held, id) {
        HeldIsQuiet(w, id);
        var j :| 0 <= j < |w.rows| && w.rows[j].id == Some(id) && w.rows[j].quiet;
        assert box.rows[j] == w.rows[j];
      } else {
        var j :| 0 <= j < |unread| && unread[j].id == Some(id) && unread[j].quiet;
        assert box.rows[StartOf(c, box) + j] == unread[j];
      }
      assert QuietId(box.rows, id);
      var j :| 0 <= j < |box.rows| && box.rows[j].id == Some(id) && box.rows[j].quiet;
      ByIdKnows(box.rows, j);
    }
  }

  lemma WantedSplits(w: World, box: Inbox)
    requires w.rows <= box.rows
    ensures WantedIds(box.rows, w.base) == WantedIds(w.rows, w.base) + WantedIds(box.rows[|w.rows|..], w.base)
  {
    assert box.rows == w.rows + box.rows[|w.rows|..];
    WantedIdsAppend(w.rows, box.rows[|w.rows|..], w.base);
  }

  lemma NextAccounts(w: World, p: Input)
    requires Inv(w) && p.box.Some? && Extends(w, p.box.value)
    ensures var w' := Next(w, p);
            && w'.state.cursor.Some?
            && Accounted(w') + multiset(HeldIds(HeldOf(w'.state.cursor.value)))
            == Accounted(w)
               + Total(SortFresh(w.state.cursor.value, w.state.foreign, p.box.value, p.now, p.quietOn))
  {
    var r := PollWith(w.state, w.state.cursor.value, p.box.value, p.now, p.quietOn, []);
    SortedHeldIsQuiet(w, p.box.value, p.now, p.quietOn);
    PollAccounts(w.state, w.state.cursor.value, p.box.value, p.now, p.quietOn, []);
    assert Next(w, p) == World(w.base, r.state, p.box.value.rows, w.framed + Ids(r.pushed), w.dropped + Ids(r.dropped),
                               w.lost);
    assert multiset(w.framed + Ids(r.pushed)) == multiset(w.framed) + multiset(Ids(r.pushed));
    assert multiset(w.dropped + Ids(r.dropped)) == multiset(w.dropped) + multiset(Ids(r.dropped));
  }

  /** A poll keeps the account exactly when reading rows again is harmless. */
  lemma PollConservesExactlyWhen(w: World, p: Input)
    requires Inv(w) && p.box.Some? && Extends(w, p.box.value)
    ensures Conserved(Next(w, p)) <==> ReplaySafe(w, p.box.value, p.quietOn)
  {
    var c, box := w.state.cursor.value, p.box.value;
    if ReplaySafe(w, box, p.quietOn) {
      SafePollConserves(w, p);
    } else {
      var k :| StartOf(c, box) <= k < |w.rows| && Wanted(w.rows[k], Floor(c.lastPushed)) &&
               !(p.quietOn && IsHeld(HeldOf(c), w.rows[k].id.value));
      ReplayRepeats(w, p, k);
    }
  }

  lemma SafePollConserves(w: World, p: Input)
    requires Inv(w) && p.box.Some? && Extends(w, p.box.value) && ReplaySafe(w, p.box.value, p.quietOn)
    ensures Conserved(Next(w, p))
  {
    NextAccounts(w, p);
    WantedSplits(w, p.box.value);
    SafeSortTotal(w, p.box.value, p.now, p.quietOn);
  }

  /** Otherwise some row is answered for twice. */
  lemma ReplayRepeats(w: World, p: Input, k: nat)
    requires Inv(w) && p.box.Some? && Extends(w, p.box.value)
    requires StartOf(w.state.cursor.value, p.box.value) <= k < |w.rows|
    requires Wanted(w.rows[k], Floor(w.state.cursor.value.lastPushed))
    requires !(p.quietOn && IsHeld(HeldOf(w.state.cursor.value), w.rows[k].id.value))
    ensures !Conserved(Next(w, p))
  {
    ReplayIsTaken(w, p, k);
    IdsAreOnce(w, p.box.value, k);
    NextAccounts(w, p);
  }

  /** The row is sorted once more. */
  lemma ReplayIsTaken(w: World, p: Input, k: nat)
    requires Inv(w) && p.box.Some? && Extends(w, p.box.value)
    requires StartOf(w.state.cursor.value, p.box.value) <= k < |w.rows|
    requires Wanted(w.rows[k], Floor(w.state.cursor.value.lastPushed))
    requires !(p.quietOn && IsHeld(HeldOf(w.state.cursor.value), w.rows[k].id.value))
    ensures var c, id := w.state.cursor.value, w.rows[k].id.value;
            Total(SortFresh(c, w.state.foreign, p.box.value, p.now, p.quietOn))[id] > multiset(HeldIds(HeldOf(c)))[id]
  {
    var c, box := w.state.cursor.value, p.box.value;
    var o, unread := StartOf(c, box), FreshRows(c, box);
    var acc := Sorted(w.state.foreign, HeldOf(c), []);
    FreshSplits(w, box);
    assert unread[k - o] == w.rows[k];
    AscendingTail(box.rows, o);
    SortTakes(acc, unread, k - o, Floor(c.lastPushed), p.quietOn, p.now);
    assert Ids(acc.pending) == [];
  }

  /** A row above the cursor is accounted for once, before the poll and after it. */
  lemma IdsAreOnce(w: World, box: Inbox, k: nat)
    requires Inv(w) && Extends(w, box) && k < |w.rows| && Wanted(w.rows[k], Floor(w.state.cursor.value.lastPushed))
    ensures multiset(WantedIds(w.rows, w.base))[w.rows[k].id.value] == 1
    ensures multiset(WantedIds(box.rows, w.base))[w.rows[k].id.value] <= 1
  {
    FloorAtLeastBase(w);
    WantedIdsHave(w.rows, w.base, w.rows[k].id.value);
    WantedOnce(w.rows, w.base, w.rows[k].id.value);
    WantedOnce(box.rows, w.base, w.rows[k].id.value);
  }

  // ---------------------------------------------------------------- runs

  /** The cursor a poll leaves is the old one or the id of a row it pushed. */
  lemma LastIsPushed(w: World, p: Input)
    requires Inv(w) && p.box.Some? && Extends(w, p.box.value)
    ensures var w' := Next(w, p);
            && w'.state.cursor.Some?
            && var last := Floor(w'.state.cursor.value.lastPushed);
               last == Floor(w.state.cursor.value.lastPushed) || last in w'.framed
  {
    var r := Poll(w.state, p.box, p.now, p.quietOn);
    if r.pushed != [] {
      var row := r.pushed[|r.pushed| - 1];
      if row.id.Some? {
        assert Ids(r.pushed)[|r.pushed| - 1] == row.id.value;
      }
    }
  }

  lemma {:induction false} KeptIsHeld(held: seq<Held>, byId: map<int, Row>, flush: bool, now: real)
    ensures forall k :: 0 <= k < |Kept(held, byId, flush, now)| ==>
              Kept(held, byId, flush, now)[k] in held && !Due(Kept(held, byId, flush, now)[k], flush, now)
    decreases |held|
  {
    if held != [] {
      KeptIsHeld(held[..|held| - 1], byId, flush, now);
    }
  }

  lemma HeldStaysQuiet(w: World, p: Input)
    requires Inv(w) && p.box.Some? && Extends(w, p.box.value)
    ensures var held := HeldOf(Next(w, p).state.cursor.value);
            forall k :: 0 <= k < |held| ==> QuietId(p.box.value.rows, held[k].id)
  {
    var sorted := SortFresh(w.state.cursor.value, w.state.foreign, p.box.value, p.now, p.quietOn);
    SortedHeldIsQuiet(w, p.box.value, p.now, p.quietOn);
    KeptIsHeld(sorted.held, ById(p.box.value.rows), sorted.pending != [], p.now);
  }

  lemma PollKeepsInv(w: World, p: Input)
    requires Inv(w) && p.box.Some? && Extends(w, p.box.value) && ReplaySafe(w, p.box.value, p.quietOn)
    ensures Inv(Next(w, p))
  {
    var w' := Next(w, p);
    var last := Floor(w'.state.cursor.value.lastPushed);
    SafePollConserves(w, p);
    LastIsPushed(w, p);
    HeldStaysQuiet(w, p);
    WantedSplits(w, p.box.value);
    if last in w'.framed {
      assert last in multiset(w'.framed);
      assert last in multiset(WantedIds(w'.rows, w'.base));
    }
  }

  /** A world before the cell's first poll. */
  predicate Unstarted(w: World) {
    w.state.cursor.None? && w.rows == [] && w.framed == [] && w.dropped == [] && w.lost == []
  }

  /** The first poll reads like a later one from a cursor that has read nothing. */
  lemma FirstPollKeepsInv(w: World, p: Input)
    requires Unstarted(w) && p.box.Some? && Ascending(p.box.value.rows) && p.box.value.stat <= |p.box.value.rows|
    ensures Inv(Next(w, p))
  {
    var c := FirstCursor(p.box.value, p.now, p.quietOn);
    var armed := w.(state := w.state.(cursor := Some(c)), base := Floor(c.lastPushed));
    assert HeldIds(HeldOf(c)) == [];
    assert Inv(armed);
    PollKeepsInv(armed, p);
    var a, b := Next(w, p), Next(armed, p);
    assert a == b;
  }

  /** The offset stands at the end of what was read. */
  ghost predicate CaughtUp(w: World) {
    Unstarted(w) || (Inv(w) && w.state.cursor.value.offset == |w.rows|)
  }

  // ---------------------------------------------------------------- holding

  /** A row that may not wait. */
  predicate Urgent(row: Row, floor: int, quietOn: bool) {
    Wanted(row, floor) && !(quietOn && row.quiet)
  }

  lemma {:induction false} PendingIsUrgent(acc: Sorted, rows: seq<Row>, floor: int, quietOn: bool, now: real)
    requires acc.pending == []
    ensures var p := SortAll(acc, rows, floor, quietOn, now).pending;
            && (forall k :: 0 <= k < |p| ==> Urgent(p[k], floor, quietOn) && p[k] in rows)
            && (p == [] <==> forall k :: 0 <= k < |rows| ==> !Urgent(rows[k], floor, quietOn))
    decreases |rows|
  {
    if rows != [] {
      var n := |rows| - 1;
      PendingIsUrgent(acc, rows[..n], floor, quietOn, now);
      assert forall k :: 0 <= k < n ==> rows[..n][k] == rows[k];
    }
  }

  /** After a poll nothing is held past the cap. */
  lemma HoldIsCapped(w: World, p: Input)
    requires w.state.cursor.Some? && p.box.Some?
    ensures var held := HeldOf(Poll(w.state, p.box, p.now, p.quietOn).state.cursor.value);
            forall k :: 0 <= k < |held| ==> p.now - held[k].at < 21600.0
  {
    var sorted := SortFresh(w.state.cursor.value, w.state.foreign, p.box.value, p.now, p.quietOn);
    KeptIsHeld(sorted.held, ById(p.box.value.rows), sorted.pending != [], p.now);
  }

  /** Without an urgent row a poll frames only rows that were held, and waited out the cap. */
  lemma OnlyDueRowsArePushed(w: World, p: Input, k: nat)
    requires Inv(w) && p.box.Some? && Extends(w, p.box.value)
    requires forall j :: 0 <= j < |FreshRows(w.state.cursor.value, p.box.value)| ==>
               !Urgent(FreshRows(w.state.cursor.value, p.box.value)[j], Floor(w.state.cursor.value.lastPushed), p.quietOn)
    requires k < |Poll(w.state, p.box, p.now, p.quietOn).pushed|
    ensures exists h :: h in HeldOf(w.state.cursor.value) && p.now - h.at >= 21600.0
              && Poll(w.state, p.box, p.now, p.quietOn).pushed[k].id == Some(h.id)
  {
    var c, box := w.state.cursor.value, p.box.value;
    var acc := Sorted(w.state.foreign, HeldOf(c), []);
    var sorted := SortFresh(c, w.state.foreign, box, p.now, p.quietOn);
    PendingIsUrgent(acc, FreshRows(c, box), Floor(c.lastPushed), p.quietOn, p.now);
    assert Poll(w.state, p.box, p.now, p.quietOn).pushed == Carried(sorted.held, ById(box.rows), false, p.now);
    var h := CarriedWasDue(sorted.held, box.rows, p.now, k);
    NewHeldIsNew(acc, FreshRows(c, box), Floor(c.lastPushed), p.quietOn, p.now, h);
  }

  lemma {:induction false} CarriedWasDue(held: seq<Held>, rows: seq<Row>, now: real, k: nat) returns (h: Held)
    requires k < |Carried(held, ById(rows), false, now)|
    ensures h in held && Due(h, false, now) && Carried(held, ById(rows), false, now)[k].id == Some(h.id)
    decreases |held|
  {
    var n := |held| - 1;
    if k < |Carried(held[..n], ById(rows), false, now)| {
      h := CarriedWasDue(held[..n], rows, now, k);
    } else {
      h := held[n];
      Channel.ByIdHasIds(rows, h.id);
    }
  }

  lemma {:induction false} NewHeldIsNew(acc: Sorted, rows: seq<Row>, floor: int, quietOn: bool, now: real, h: Held)
    requires h in SortAll(acc, rows, floor, quietOn, now).held
    ensures h in acc.held || h.at == now
    decreases |rows|
  {
    if rows != [] {
      var n := |rows| - 1;
      if h in SortAll(acc, rows[..n], floor, quietOn, now).held {
        NewHeldIsNew(acc, rows[..n], floor, quietOn, now, h);
      }
    }
  }

  /** A poll that reads an urgent row leaves nothing held. */
  lemma UrgentRowFlushesHold(w: World, p: Input, k: nat)
    requires w.state.cursor.Some? && p.box.Some?
    requires StartOf(w.state.cursor.value, p.box.value) <= k < |p.box.value.rows|
    requires Urgent(p.box.value.rows[k], Floor(w.state.cursor.value.lastPushed), p.quietOn)
    ensures HeldOf(Poll(w.state, p.box, p.now, p.quietOn).state.cursor.value) == []
  {
    var c, box := w.state.cursor.value, p.box.value;
    var sorted := SortFresh(c, w.state.foreign, box, p.now, p.quietOn);
    PendingIsUrgent(Sorted(w.state.foreign, HeldOf(c), []), FreshRows(c, box), Floor(c.lastPushed), p.quietOn, p.now);
    assert FreshRows(c, box)[k - StartOf(c, box)] == box.rows[k];
    KeptIsHeld(sorted.held, ById(box.rows), true, p.now);
    if !p.quietOn && c.heldQuiet.None? {
      SortQuietOff(Sorted(w.state.foreign, [], []), FreshRows(c, box), Floor(c.lastPushed), p.now);
    }
  }

  /** The rows that may not wait, in inbox order. */
  function UrgentRows(rows: seq<Row>, floor: int, quietOn: bool): seq<Row> {
    if rows == [] then []
    else
      var n := |rows| - 1;
      UrgentRows(rows[..n], floor, quietOn) + if Urgent(rows[n], floor, quietOn) then [rows[n]] else []
  }

  lemma {:induction false} PendingIsUrgentRows(acc: Sorted, rows: seq<Row>, floor: int, quietOn: bool, now: real)
    ensures SortAll(acc, rows, floor, quietOn, now).pending == acc.pending + UrgentRows(rows, floor, quietOn)
    decreases |rows|
  {
    if rows != [] {
      PendingIsUrgentRows(acc, rows[..|rows| - 1], floor, quietOn, now);
    }
  }

  /** Held rows are never left to the backlog note. The fresh urgent rows are, in inbox order,
      those the note counts followed by the newest twenty, which end the frames. */
  lemma OnlyUrgentRowsAreDropped(w: World, p: Input)
    requires w.state.cursor.Some? && p.box.Some?
    ensures var c := w.state.cursor.value;
            var r := Poll(w.state, p.box, p.now, p.quietOn);
            var urgent := UrgentRows(FreshRows(c, p.box.value), Floor(c.lastPushed), p.quietOn);
            var framed := Min(20, |urgent|);
            && framed <= |r.pushed| && r.dropped + r.pushed[|r.pushed| - framed..] == urgent
            && (r.dropped != [] ==> OlderNotPushed(|r.dropped|) in r.notes)
  {
    var c, box := w.state.cursor.value, p.box.value;
    var acc := Sorted(w.state.foreign, HeldOf(c), []);
    PendingIsUrgentRows(acc, FreshRows(c, box), Floor(c.lastPushed), p.quietOn, p.now);
    var pending := SortFresh(c, w.state.foreign, box, p.now, p.quietOn).pending;
    assert pending == UrgentRows(FreshRows(c, box), Floor(c.lastPushed), p.quietOn);
    NewestEndTheFrames(SortFresh(c, w.state.foreign, box, p.now, p.quietOn), ById(box.rows), p.now);
  }

  lemma NewestEndTheFrames(sorted: Sorted, byId: map<int, Row>, now: real)
    ensures var pushed := PushedRows(sorted, byId, now);
            var framed := Min(20, |sorted.pending|);
            && framed <= |pushed|
            && sorted.pending[..Skipped(sorted.pending)] + pushed[|pushed| - framed..] == sorted.pending
  {
    var s := Skipped(sorted.pending);
    var carried := Carried(sorted.held, byId, sorted.pending != [], now);
    assert (carried + sorted.pending[s..])[|carried|..] == sorted.pending[s..];
    assert sorted.pending == sorted.pending[..s] + sorted.pending[s..];
  }

  // ---------------------------------------------------------------- where the account breaks

  const FIVE: Row := Row(Some(5), true, true, false, None)
  const SIX: Row := Row(Some(6), true, true, true, None)

  /** A channel that has read nothing, its cursor at 4. */
  const AT_FOUR: World := World(4, State(Some(Cursor(Some(4), 1, 0, false, None)), 0, false, None), [], [], [], [])

  /** Row 5 is urgent and row 6 waits; the push of 5 carries 6 first, so the cursor stands at 5. */
  lemma CarryMovesCursorBack(stat: nat)
    requires stat <= 2
    ensures var first := Next(AT_FOUR, Input(Some(Inbox(1, stat, [FIVE, SIX])), 0.0, true));
            && Inv(first) && first.rows == [FIVE, SIX] && first.framed == [6, 5]
            && first.state.cursor == Some(Cursor(Some(5), 1, stat, false, Some([])))
            && first.state.foreign == 0
  {
    var box := Inbox(1, stat, [FIVE, SIX]);
    SixThenFive(AT_FOUR.state, AT_FOUR.state.cursor.value, box);
    assert Ids([SIX, FIVE]) == [6, 5];
    AtFourIsGood();
    PollKeepsInv(AT_FOUR, Input(Some(box), 0.0, true));
  }

  lemma AtFourIsGood()
    ensures Inv(AT_FOUR)
  {
    assert HeldIds([]) == [];
  }

  lemma SixThenFive(s: State, c: Cursor, box: Inbox)
    requires s.cursor == Some(c) && c == Cursor(Some(4), 1, 0, false, None) && s.foreign == 0
    requires box.inode == 1 && box.rows == [FIVE, SIX]
    ensures var r := Poll(s, Some(box), 0.0, true);
            && r.pushed == [SIX, FIVE] && r.dropped == [] && r.state.foreign == 0
            && r.state.cursor == Some(Cursor(Some(5), 1, box.stat, false, Some([])))
  {
    TwoRows(4, true, 0.0);
    assert FreshRows(c, box) == [FIVE, SIX];
  }

  /** Reading both rows again with the cursor at 5 breaks the account. */
  lemma SixIsReadAgain(first: World, p: Input)
    requires Inv(first) && first.rows == [FIVE, SIX] && p.box.Some?
    requires first.state.cursor.value.lastPushed == Some(5) && HeldOf(first.state.cursor.value) == []
    requires p.box.value.rows == [FIVE, SIX] && p.box.value.stat <= 2
    requires StartOf(first.state.cursor.value, p.box.value) == 0
    ensures !Conserved(Next(first, p))
  {
    PollConservesExactlyWhen(first, p);
    assert Wanted(first.rows[1], 5);
  }

  /** After an inode change row 6 is framed again. */
  lemma RotationRepeats()
    ensures var first := Next(AT_FOUR, Input(Some(Inbox(1, 2, [FIVE, SIX])), 0.0, true));
            var second := Next(first, Input(Some(Inbox(2, 2, [FIVE, SIX])), 1.0, false));
            && Inv(AT_FOUR) && CaughtUp(first) && first.framed == [6, 5]
            && second.framed == [6, 5, 6] && !Conserved(second)
  {
    CarryMovesCursorBack(2);
    var first := Next(AT_FOUR, Input(Some(Inbox(1, 2, [FIVE, SIX])), 0.0, true));
    SixIsReadAgain(first, Input(Some(Inbox(2, 2, [FIVE, SIX])), 1.0, false));
    SixIsPushedAgain(first, Inbox(2, 2, [FIVE, SIX]));
  }

  lemma SixIsPushedAgain(first: World, again: Inbox)
    requires again == Inbox(2, 2, [FIVE, SIX]) && first.state.foreign == 0 && first.framed == [6, 5]
    requires first.state.cursor == Some(Cursor(Some(5), 1, 2, false, Some([])))
    ensures Next(first, Input(Some(again), 1.0, false)).framed == [6, 5, 6]
  {
    var c := first.state.cursor.value;
    TwoRows(5, false, 1.0);
    assert FreshRows(c, again) == [FIVE, SIX];
    var r := PollWith(first.state, c, again, 1.0, false, []);
    assert r.pushed == [SIX];
    assert Ids([SIX]) == [6];
  }

  lemma TwoRows(floor: int, quietOn: bool, now: real)
    requires (floor == 4 && quietOn) || (floor == 5 && !quietOn)
    ensures SortAll(Sorted(0, [], []), [FIVE, SIX], floor, quietOn, now)
         == if quietOn then Sorted(0, [Held(6, now)], [FIVE]) else Sorted(0, [], [SIX])
    ensures ById([FIVE, SIX]) == map[5 := FIVE, 6 := SIX]
    ensures quietOn ==> Carried([Held(6, now)], map[5 := FIVE, 6 := SIX], true, now) == [SIX]
    ensures quietOn ==> Kept([Held(6, now)], map[5 := FIVE, 6 := SIX], true, now) == []
  {
    var rows := [FIVE, SIX];
    assert rows[..1] == [FIVE] && [FIVE][..0] == [];
    assert SortAll(Sorted(0, [], []), [FIVE], floor, quietOn, now)
        == SortOne(Sorted(0, [], []), FIVE, floor, quietOn, now);
    assert ById([FIVE]) == map[5 := FIVE];
    assert [Held(6, now)][..0] == [];
  }

  /** Rows that arrive between the size check and the read break the account the same way: row
      6 was carried by this poll, and the next poll reads it again. */
  lemma LateRowRepeats(now: real, quietOn: bool)
    ensures var first := Next(AT_FOUR, Input(Some(Inbox(1, 0, [FIVE, SIX])), 0.0, true));
            Inv(first) && !Conserved(Next(first, Input(Some(Inbox(1, 2, [FIVE, SIX])), now, quietOn)))
  {
    CarryMovesCursorBack(0);
    var first := Next(AT_FOUR, Input(Some(Inbox(1, 0, [FIVE, SIX])), 0.0, true));
    SixIsReadAgain(first, Input(Some(Inbox(1, 2, [FIVE, SIX])), now, quietOn));
  }
}
