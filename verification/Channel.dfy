/** The mesh channel server's poll loop state, updated in place. */
module Channel {
  import opened Common
  import opened ChannelSpec

  class Channel {
    var cursor: Option<Cursor>
    var foreign: nat
    var anomalySent: bool
    var stallSince: Option<real>

    ghost function Contents(): State
      reads this
    {
      State(cursor, foreign, anomalySent, stallSince)
    }

    /** A process starts from the saved cursor. */
    constructor (saved: Option<Cursor>)
      ensures forall s: State :: s.cursor == saved ==> Contents() == Restarted(s)
    {
      cursor := saved;
      foreign := 0;
      anomalySent := saved.Some? && saved.value.anomalySent;
      stallSince := None;
    }

    method Scan(rows: seq<Row>, now: real) returns (newest: Option<int>, stale: Option<int>, byId: map<int, Row>)
      ensures newest == Newest(rows) && stale == MaxStale(rows, now) && byId == ById(rows)
    {
      newest, stale, byId := None, None, map[];
      for i := 0 to |rows|
        invariant newest == Newest(rows[..i]) && stale == MaxStale(rows[..i], now) && byId == ById(rows[..i])
      {
        var row := rows[i];
        assert rows[..i + 1][..i] == rows[..i];
        if row.id.Some? {
          if row.id.value >= 0 {
            newest := Larger(newest, row.id.value);
          }
          if !CreatedWithin(row, now) {
            stale := Larger(stale, row.id.value);
          }
          byId := byId[row.id.value := row];
        }
      }
      assert rows[..|rows|] == rows;
    }

    /** Sorts the unread rows into foreign, held and pending. */
    method SortRows(unread: seq<Row>, held0: seq<Held>, floor: int, quietOn: bool, now: real)
      returns (held: seq<Held>, pending: seq<Row>)
      modifies this`foreign
      ensures Sorted(foreign, held, pending) ==
              SortAll(Sorted(old(foreign), held0, []), unread, floor, quietOn, now)
    {
      held, pending := held0, [];
      ghost var start := Sorted(foreign, held0, []);
      for i := 0 to |unread|
        invariant Sorted(foreign, held, pending) == SortAll(start, unread[..i], floor, quietOn, now)
      {
        var row := unread[i];
        assert unread[..i + 1][..i] == unread[..i];
        if !row.toCell {
          foreign := foreign + 1;
          continue;
        }
        if !row.isReal || row.id.None? || row.id.value <= floor {
          continue;
        }
        if quietOn && row.quiet {
          var known := false;
          for k := 0 to |held|
            invariant known == IsHeld(held[..k], row.id.value)
          {
            if held[k].id == row.id.value {
              assert held[..k + 1][k] == held[k];
              known := true;
            } else {
              assert held[..k + 1] == held[..k] + [held[k]];
            }
          }
          assert held[..|held|] == held;
          if !known {
            held := held + [Held(row.id.value, now)];
          }
          continue;
        }
        pending := pending + [row];
      }
      assert unread[..|unread|] == unread;
    }

    /** Splits the hold into rows that go out now and rows that stay. */
    method CarryHeld(held: seq<Held>, byId: map<int, Row>, flush: bool, now: real)
      returns (carried: seq<Row>, kept: seq<Held>)
      ensures carried == Carried(held, byId, flush, now) && kept == Kept(held, byId, flush, now)
    {
      carried, kept := [], [];
      for i := 0 to |held|
        invariant carried == Carried(held[..i], byId, flush, now)
        invariant kept == Kept(held[..i], byId, flush, now)
      {
        assert held[..i + 1][..i] == held[..i];
        if held[i].id !in byId {
          continue;
        }
        if flush || now - held[i].at >= QUIET_CAP {
          carried := carried + [byId[held[i].id]];
        } else {
          kept := kept + [held[i]];
        }
      }
      assert held[..|held|] == held;
    }

    method PushFrames(rows: seq<Row>, last0: Option<int>) returns (frames: seq<Note>, last: Option<int>)
      requires HasIds(rows)
      ensures frames == Frames(rows) && last == LastOf(rows, last0)
    {
      frames, last := [], last0;
      for i := 0 to |rows|
        invariant frames == Frames(rows[..i]) && last == LastOf(rows[..i], last0)
      {
        frames := frames + [Frame(rows[i])];
        last := rows[i].id;
      }
      assert rows[..|rows|] == rows;
    }

    method CoveredBy(last: Option<int>, kept: seq<Held>) returns (covered: Option<int>)
      ensures covered == Covered(last, kept)
    {
      covered := last;
      for i := 0 to |kept|
        invariant covered == Covered(last, kept[..i])
      {
        assert kept[..i + 1][..i] == kept[..i];
        if covered.None? || kept[i].id > covered.value {
          covered := Some(kept[i].id);
        }
      }
      assert kept[..|kept|] == kept;
    }

    /** The stall clock runs while the newest row is not covered. */
    method WatchStall(newest: Option<int>, covered: Option<int>, now: real)
      modifies this`stallSince
      ensures stallSince == Stall(old(stallSince), newest, covered, now)
    {
      if newest.Some? && covered.Some? {
        if newest.value > covered.value {
          stallSince := if stallSince.Some? && stallSince.value != 0.0 then stallSince else Some(now);
        } else {
          stallSince := None;
        }
      }
    }

    /** Reports foreign rows once in the cursor's life. */
    method WarnForeign(opening: seq<Note>) returns (notes: seq<Note>, alarm: bool)
      modifies this`anomalySent
      ensures alarm == (foreign > 0 && !old(anomalySent)) && anomalySent == (old(anomalySent) || alarm)
      ensures notes == opening + if alarm then [ForeignRows(foreign)] else []
    {
      notes, alarm := opening, foreign > 0 && !anomalySent;
      if alarm {
        notes := notes + [ForeignRows(foreign)];
        anomalySent := true;
      }
    }

    /** Frames everything due, newest `BACKLOG` pending rows at most. */
    method Push(sorted: Sorted, rows: seq<Row>, byId: map<int, Row>, now: real, last0: Option<int>)
      returns (frames: seq<Note>, kept: seq<Held>, last: Option<int>)
      requires HasIds(sorted.pending) && byId == ById(rows)
      ensures kept == Kept(sorted.held, byId, sorted.pending != [], now)
      ensures last == LastOf(PushedRows(sorted, byId, now), last0)
      ensures frames == PushNotes(sorted, byId, now)
    {
      var pending := sorted.pending;
      var carried;
      carried, kept := CarryHeld(sorted.held, byId, pending != [], now);
      CarriedRowsHaveIds(sorted.held, rows, pending != [], now);
      var note: seq<Note> := [];
      if |pending| > BACKLOG {
        note := [OlderNotPushed(|pending| - BACKLOG)];
        pending := pending[|pending| - BACKLOG..];
      }
      frames, last := PushFrames(carried + pending, last0);
      frames := note + frames;
    }

    /** Pushes what is due and writes the cursor. */
    method Finish(sorted: Sorted, box: Inbox, newest: Option<int>, byId: map<int, Row>, now: real, quietOn: bool,
                  opening: seq<Note>)
      returns (notes: seq<Note>)
      requires cursor.Some? && foreign == sorted.foreign && HasIds(sorted.pending)
      requires newest == Newest(box.rows) && byId == ById(box.rows)
      modifies this
      ensures Contents() == PollSorted(old(Contents()), old(cursor.value), sorted, box, now, quietOn, opening).state
      ensures notes == PollSorted(old(Contents()), old(cursor.value), sorted, box, now, quietOn, opening).notes
    {
      var c := cursor.value;
      var alarm;
      notes, alarm := WarnForeign(opening);
      var frames, kept, last := Push(sorted, box.rows, byId, now, c.lastPushed);
      notes := notes + frames;
      c := Cursor(last, box.inode, box.stat, c.anomalySent || alarm, c.heldQuiet);
      if quietOn || c.heldQuiet.Some? {
        c := c.(heldQuiet := Some(kept));
      }
      cursor := Some(c);
      var covered := CoveredBy(last, kept);
      WatchStall(newest, covered, now);
    }

    /** One poll once a cursor exists. */
    method PollWithCursor(box: Inbox, newest: Option<int>, byId: map<int, Row>, now: real, quietOn: bool,
                          opening: seq<Note>)
      returns (notes: seq<Note>)
      requires cursor.Some? && newest == Newest(box.rows) && byId == ById(box.rows)
      modifies this
      ensures Contents() == PollWith(old(Contents()), old(cursor.value), box, now, quietOn, opening).state
      ensures notes == PollWith(old(Contents()), old(cursor.value), box, now, quietOn, opening).notes
    {
      var c := cursor.value;
      if c.inode != box.inode {
        c := c.(inode := box.inode, offset := 0);
      }
      var unread := if c.offset <= |box.rows| then box.rows[c.offset..] else [];
      assert unread == FreshRows(cursor.value, box);
      var held, pending := SortRows(unread, HeldOf(c), Floor(c.lastPushed), quietOn, now);
      SortedRowsHaveIds(Sorted(old(foreign), HeldOf(c), []), unread, Floor(c.lastPushed), quietOn, now);
      var sorted := Sorted(foreign, held, pending);
      assert sorted == SortFresh(cursor.value, old(foreign), box, now, quietOn);
      notes := Finish(sorted, box, newest, byId, now, quietOn, opening);
    }

    /** Reads the inbox once and returns the notes to send. */
    method Poll(box: Option<Inbox>, now: real, quietOn: bool) returns (notes: seq<Note>)
      modifies this
      ensures Contents() == ChannelSpec.Poll(old(Contents()), box, now, quietOn).state
      ensures notes == ChannelSpec.Poll(old(Contents()), box, now, quietOn).notes
    {
      notes := [];
      if box.None? {
        return;
      }
      var newest, stale, byId := Scan(box.value.rows, now);
      if cursor.None? {
        cursor := Some(Cursor(stale, box.value.inode, 0, false, if quietOn then Some([]) else None));
        notes := [Armed(stale)];
      }
      notes := PollWithCursor(box.value, newest, byId, now, quietOn, notes);
    }
  }

  lemma {:induction false} SortedRowsHaveIds(acc: Sorted, rows: seq<Row>, floor: int, quietOn: bool, now: real)
    requires HasIds(acc.pending)
    ensures HasIds(SortAll(acc, rows, floor, quietOn, now).pending)
    decreases |rows|
  {
    if rows != [] {
      SortedRowsHaveIds(acc, rows[..|rows| - 1], floor, quietOn, now);
    }
  }

  lemma {:induction false} ByIdHasIds(rows: seq<Row>, id: int)
    requires id in ById(rows)
    ensures ById(rows)[id].id == Some(id) && ById(rows)[id] in rows
    decreases |rows|
  {
    var n := |rows| - 1;
    if rows[n].id != Some(id) {
      ByIdHasIds(rows[..n], id);
    }
  }

  lemma {:induction false} CarriedRowsHaveIds(held: seq<Held>, rows: seq<Row>, flush: bool, now: real)
    ensures HasIds(Carried(held, ById(rows), flush, now))
    decreases |held|
  {
    if held != [] {
      var n := |held| - 1;
      CarriedRowsHaveIds(held[..n], rows, flush, now);
      if held[n].id in ById(rows) {
        ByIdHasIds(rows, held[n].id);
      }
    }
  }
}
