/** One poll of the mesh channel as a function of its durable cursor and the inbox it reads.

    The inbox is a list of whole rows, so offsets count rows. `stat` is the size noted before
    the text is read: rows that arrive in between are processed by this poll and read again
    by the next one. */
module ChannelSpec {
  import opened Common

  const BACKLOG: nat := 20
  const QUIET_CAP: real := 21600.0
  const FIRST_START_GRACE: real := 30.0

  /** An inbox row. `id` is absent when it is no integer; `quiet` is what `is_quiet_dm` says. */
  datatype Row = Row(id: Option<int>, toCell: bool, isReal: bool, quiet: bool, created: Option<real>)

  datatype Held = Held(id: int, at: real)

  datatype Cursor = Cursor(lastPushed: Option<int>, inode: int, offset: nat, anomalySent: bool,
                           heldQuiet: Option<seq<Held>>)

  datatype Inbox = Inbox(inode: int, stat: nat, rows: seq<Row>)

  datatype State = State(cursor: Option<Cursor>, foreign: nat, anomalySent: bool, stallSince: Option<real>)

  datatype Note =
    | Armed(last: Option<int>)
    | ForeignRows(count: nat)
    | OlderNotPushed(count: nat)
    | Frame(row: Row)

  /** The fresh rows, sorted into foreign, held and pending ones. */
  datatype Sorted = Sorted(foreign: nat, held: seq<Held>, pending: seq<Row>)

  /** A poll's effect. `pushed` are the frames in order, `dropped` the rows only a note counts. */
  datatype Polled = Polled(state: State, notes: seq<Note>, pushed: seq<Row>, dropped: seq<Row>)

  // ---------------------------------------------------------------- small pieces

  function CreatedWithin(row: Row, now: real): bool {
    row.created.Some? && now - row.created.value <= FIRST_START_GRACE
  }

  function Larger(best: Option<int>, id: int): Option<int> {
    if best.None? || id > best.value then Some(id) else best
  }

  /** Largest id of a row that existed before the channel's first start. */
  function MaxStale(rows: seq<Row>, now: real): Option<int> {
    if rows == [] then None
    else
      var n := |rows| - 1;
      var before := MaxStale(rows[..n], now);
      if rows[n].id.Some? && !CreatedWithin(rows[n], now) then Larger(before, rows[n].id.value) else before
  }

  function Newest(rows: seq<Row>): Option<int> {
    if rows == [] then None
    else
      var n := |rows| - 1;
      var before := Newest(rows[..n]);
      if rows[n].id.Some? && rows[n].id.value >= 0 then Larger(before, rows[n].id.value) else before
  }

  function ById(rows: seq<Row>): map<int, Row> {
    if rows == [] then map[]
    else
      var n := |rows| - 1;
      if rows[n].id.Some? then ById(rows[..n])[rows[n].id.value := rows[n]] else ById(rows[..n])
  }

  predicate IsHeld(held: seq<Held>, id: int) {
    exists k :: 0 <= k < |held| && held[k].id == id
  }

  function Floor(last: Option<int>): int {
    if last.Some? then last.value else -1
  }

  predicate HasIds(rows: seq<Row>) {
    forall k :: 0 <= k < |rows| ==> rows[k].id.Some?
  }

  /** A row the cell still wants: addressed to it, real, and numbered above `floor`. */
  predicate Wanted(row: Row, floor: int) {
    row.toCell && row.isReal && row.id.Some? && row.id.value > floor
  }

  function SortOne(acc: Sorted, row: Row, floor: int, quietOn: bool, now: real): Sorted {
    if !row.toCell then acc.(foreign := acc.foreign + 1)
    else if !Wanted(row, floor) then acc
    else if quietOn && row.quiet then
      if IsHeld(acc.held, row.id.value) then acc else acc.(held := acc.held + [Held(row.id.value, now)])
    else acc.(pending := acc.pending + [row])
  }

  function SortAll(acc: Sorted, rows: seq<Row>, floor: int, quietOn: bool, now: real): Sorted
    decreases |rows|
  {
    if rows == [] then acc
    else
      var n := |rows| - 1;
      SortOne(SortAll(acc, rows[..n], floor, quietOn, now), rows[n], floor, quietOn, now)
  }

  predicate Due(h: Held, flush: bool, now: real) {
    flush || now - h.at >= QUIET_CAP
  }

  /** Held rows that go out with this poll; an id the inbox no longer has is forgotten. */
  function Carried(held: seq<Held>, byId: map<int, Row>, flush: bool, now: real): seq<Row> {
    if held == [] then []
    else
      var n := |held| - 1;
      var before := Carried(held[..n], byId, flush, now);
      if held[n].id in byId && Due(held[n], flush, now) then before + [byId[held[n].id]] else before
  }

  function Kept(held: seq<Held>, byId: map<int, Row>, flush: bool, now: real): seq<Held> {
    if held == [] then []
    else
      var n := |held| - 1;
      var before := Kept(held[..n], byId, flush, now);
      if held[n].id in byId && !Due(held[n], flush, now) then before + [held[n]] else before
  }

  function Frames(rows: seq<Row>): (f: seq<Note>)
    ensures |f| == |rows| && forall k :: 0 <= k < |rows| ==> f[k] == Frame(rows[k])
  {
    seq(|rows|, k requires 0 <= k < |rows| => Frame(rows[k]))
  }

  /** Id of the last frame, or the old cursor when nothing is pushed. */
  function LastOf(pushed: seq<Row>, last: Option<int>): Option<int> {
    if pushed == [] then last
    else
      var row := pushed[|pushed| - 1];
      if row.id.Some? then row.id else last
  }

  function Covered(last: Option<int>, kept: seq<Held>): Option<int> {
    if kept == [] then last else Larger(Covered(last, kept[..|kept| - 1]), kept[|kept| - 1].id)
  }

  /** The stall clock: kept running while the newest id is not covered, except that a start
      time of zero reads as not running. */
  function Stall(since: Option<real>, newest: Option<int>, covered: Option<int>, now: real): Option<real> {
    if newest.None? || covered.None? then since
    else if newest.value > covered.value then
      if since.Some? && since.value != 0.0 then since else Some(now)
    else None
  }

  // ---------------------------------------------------------------- the poll

  function FirstCursor(box: Inbox, now: real, quietOn: bool): Cursor {
    Cursor(MaxStale(box.rows, now), box.inode, 0, false, if quietOn then Some([]) else None)
  }

  function HeldOf(c: Cursor): seq<Held> {
    if c.heldQuiet.Some? then c.heldQuiet.value else []
  }

  /** Where reading starts: from the top after an inode change. */
  function StartOf(c: Cursor, box: Inbox): nat {
    if c.inode != box.inode then 0 else c.offset
  }

  function FreshRows(c: Cursor, box: Inbox): seq<Row> {
    if StartOf(c, box) <= |box.rows| then box.rows[StartOf(c, box)..] else []
  }

  function SortFresh(c: Cursor, foreign: nat, box: Inbox, now: real, quietOn: bool): Sorted {
    SortAll(Sorted(foreign, HeldOf(c), []), FreshRows(c, box), Floor(c.lastPushed), quietOn, now)
  }

  function Skipped(pending: seq<Row>): nat {
    if |pending| > BACKLOG then |pending| - BACKLOG else 0
  }

  /** Frames of a poll in order: due held rows, then the newest pending ones. */
  function PushedRows(sorted: Sorted, byId: map<int, Row>, now: real): seq<Row> {
    Carried(sorted.held, byId, sorted.pending != [], now) + sorted.pending[Skipped(sorted.pending)..]
  }

  function PushNotes(sorted: Sorted, byId: map<int, Row>, now: real): seq<Note> {
    (if Skipped(sorted.pending) > 0 then [OlderNotPushed(Skipped(sorted.pending))] else [])
    + Frames(PushedRows(sorted, byId, now))
  }

  /** The rest of a poll once the fresh rows are sorted. */
  function PollSorted(s: State, c: Cursor, sorted: Sorted, box: Inbox, now: real, quietOn: bool,
                      opening: seq<Note>): Polled {
    var alarm := sorted.foreign > 0 && !s.anomalySent;
    var byId := ById(box.rows);
    var kept := Kept(sorted.held, byId, sorted.pending != [], now);
    var pushed := PushedRows(sorted, byId, now);
    var notes := opening + (if alarm then [ForeignRows(sorted.foreign)] else []) + PushNotes(sorted, byId, now);
    var c' := Cursor(LastOf(pushed, c.lastPushed), box.inode, box.stat, c.anomalySent || alarm,
                     if quietOn || c.heldQuiet.Some? then Some(kept) else None);
    var stall := Stall(s.stallSince, Newest(box.rows), Covered(c'.lastPushed, kept), now);
    Polled(State(Some(c'), sorted.foreign, s.anomalySent || alarm, stall), notes, pushed,
           sorted.pending[..Skipped(sorted.pending)])
  }

  /** A poll once a cursor exists; `opening` are the notes made so far. */
  function PollWith(s: State, c: Cursor, box: Inbox, now: real, quietOn: bool, opening: seq<Note>): Polled {
    PollSorted(s, c, SortFresh(c, s.foreign, box, now, quietOn), box, now, quietOn, opening)
  }

  function Poll(s: State, box: Option<Inbox>, now: real, quietOn: bool): Polled {
    if box.None? then Polled(s, [], [], [])
    else if s.cursor.None? then
      var c := FirstCursor(box.value, now, quietOn);
      PollWith(s, c, box.value, now, quietOn, [Armed(c.lastPushed)])
    else PollWith(s, s.cursor.value, box.value, now, quietOn, [])
  }

  /** What a new process starts from: the saved cursor and nothing else. */
  function Restarted(s: State): State {
    State(s.cursor, 0, s.cursor.Some? && s.cursor.value.anomalySent, None)
  }
}
