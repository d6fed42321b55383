/** Runs of the channel: polls on one growing inbox, restarts, and deaths at any point of a poll.
    Nothing is ever counted twice, and rows are lost exactly by a death that cuts a poll's notes
    short after its cursor was saved. */
module ChannelRuns {
  import opened Common
  import opened ChannelSpec
  import opened ChannelSafety

  /** A process that dies before it saves is one that restarts. `Arms` dies between the two saves
      of a first poll, and `Dies` after the save with only `written` notes written. */
  datatype Event = Polls(input: Input) | Restarts | Arms(input: Input) | Dies(input: Input, written: nat)

  // ---------------------------------------------------------------- a death in a poll

  /** The rows framed by the notes that were written. */
  function RowsOf(notes: seq<Note>): seq<Row> {
    if notes == [] then []
    else
      var n := |notes| - 1;
      RowsOf(notes[..n]) + if notes[n].Frame? then [notes[n].row] else []
  }

  function Written(r: Polled, n: nat): seq<Note> {
    r.notes[..Min(n, |r.notes|)]
  }

  function PollOf(w: World, p: Input): Polled {
    Poll(w.state, p.box, p.now, p.quietOn)
  }

  /** Rows only a backlog note counts, when that note was written. */
  function Told(r: Polled, n: nat): seq<Row> {
    if OlderNotPushed(|r.dropped|) in Written(r, n) then r.dropped else []
  }

  function Missed(pushed: seq<Row>, got: seq<Row>): seq<Row> {
    if |got| <= |pushed| then pushed[|got|..] else []
  }

  /** A poll whose process dies after `n` notes: what was not written is lost. */
  function CutShort(w: World, p: Input, n: nat): World {
    var r := PollOf(w, p);
    var got, told := RowsOf(Written(r, n)), Told(r, n);
    Next(w, p).(state := Restarted(r.state), framed := w.framed + Ids(got), dropped := w.dropped + Ids(told),
                lost := w.lost + Ids(Missed(r.pushed, got)) + Ids(if told == [] then r.dropped else []))
  }

  /** A death that comes when all notes are written, or framed nothing. */
  predicate Harmless(r: Polled, n: nat) {
    r.pushed == [] || n >= |r.notes|
  }

  lemma RowsOfLast(notes: seq<Note>, note: Note)
    ensures RowsOf(notes + [note]) == RowsOf(notes) + if note.Frame? then [note.row] else []
  {
    assert (notes + [note])[..|notes|] == notes;
  }

  ghost predicate NoFrames(notes: seq<Note>) {
    forall k :: 0 <= k < |notes| ==> !notes[k].Frame?
  }

  lemma {:induction false} NoRows(notes: seq<Note>)
    requires NoFrames(notes)
    ensures RowsOf(notes) == []
    decreases |notes|
  {
    if notes != [] {
      NoRows(notes[..|notes| - 1]);
    }
  }

  /** The first `n` notes of other notes followed by frames. */
  lemma {:induction false} FirstNotes(head: seq<Note>, rows: seq<Row>, n: nat)
    requires NoFrames(head) && n <= |head| + |rows|
    ensures RowsOf((head + Frames(rows))[..n]) == if n <= |head| then [] else rows[..n - |head|]
    decreases n
  {
    var all := head + Frames(rows);
    if n <= |head| {
      assert all[..n] == head[..n];
      NoRows(head[..n]);
    } else {
      var k := n - 1 - |head|;
      FirstNotes(head, rows, n - 1);
      assert all[..n] == all[..n - 1] + [Frame(rows[k])];
      RowsOfLast(all[..n - 1], Frame(rows[k]));
      assert rows[..k + 1] == rows[..k] + [rows[k]];
    }
  }

  /** A poll's notes: what it announces, the backlog note last, then a frame for each row pushed. */
  ghost predicate Shaped(r: Polled, head: seq<Note>) {
    && r.notes == head + Frames(r.pushed) && NoFrames(head)
    && (r.dropped != [] ==> r.pushed != [] && head != [] && head[|head| - 1] == OlderNotPushed(|r.dropped|))
  }

  lemma SortedShaped(s: State, c: Cursor, sorted: Sorted, box: Inbox, now: real, quietOn: bool, opening: seq<Note>)
    returns (head: seq<Note>)
    requires NoFrames(opening)
    ensures Shaped(PollSorted(s, c, sorted, box, now, quietOn, opening), head)
  {
    var r := PollSorted(s, c, sorted, box, now, quietOn, opening);
    var n := Skipped(sorted.pending);
    var before := opening + if sorted.foreign > 0 && !s.anomalySent then [ForeignRows(sorted.foreign)] else [];
    var note := if n > 0 then [OlderNotPushed(n)] else [];
    head := before + note;
    JoinNotes(before, note, Frames(r.pushed));
  }

  lemma JoinNotes(a: seq<Note>, b: seq<Note>, c: seq<Note>)
    ensures a + b + c == a + (b + c)
  {
  }

  lemma PollShaped(w: World, p: Input) returns (head: seq<Note>)
    requires p.box.Some?
    ensures Shaped(PollOf(w, p), head)
  {
    var box := p.box.value;
    if w.state.cursor.None? {
      var c := FirstCursor(box, p.now, p.quietOn);
      head := SortedShaped(w.state, c, SortFresh(c, w.state.foreign, box, p.now, p.quietOn), box, p.now, p.quietOn,
                           [Armed(c.lastPushed)]);
    } else {
      var c := w.state.cursor.value;
      head := SortedShaped(w.state, c, SortFresh(c, w.state.foreign, box, p.now, p.quietOn), box, p.now, p.quietOn, []);
    }
  }

  /** What was written and what was lost make up what the poll pushed and dropped. */
  lemma CutParts(r: Polled, n: nat, head: seq<Note>)
    requires Shaped(r, head)
    ensures var got := RowsOf(Written(r, n));
      && got <= r.pushed && r.pushed == got + Missed(r.pushed, got)
      && (Harmless(r, n) <==> Missed(r.pushed, got) == [])
      && (Harmless(r, n) ==> Told(r, n) == r.dropped)
  {
    FirstNotes(head, r.pushed, Min(n, |r.notes|));
    ToldWhole(r, n, head);
  }

  lemma ToldWhole(r: Polled, n: nat, head: seq<Note>)
    requires Shaped(r, head)
    ensures Harmless(r, n) ==> Told(r, n) == r.dropped
  {
    if Harmless(r, n) && r.dropped != [] {
      assert Written(r, n) == r.notes && r.notes[|head| - 1] == OlderNotPushed(|r.dropped|);
    }
  }

  /** A cut poll answers for the same rows as a whole one, and loses some exactly when it framed
      rows and did not get all its notes out. */
  lemma CutAccounts(w: World, p: Input, n: nat)
    requires p.box.Some?
    ensures Accounted(CutShort(w, p, n)) == Accounted(Next(w, p))
    ensures CutShort(w, p, n).lost == w.lost <==> Harmless(PollOf(w, p), n)
    ensures w.lost <= CutShort(w, p, n).lost
  {
    var r := PollOf(w, p);
    var head := PollShaped(w, p);
    CutParts(r, n, head);
    var got, told := RowsOf(Written(r, n)), Told(r, n);
    var missed, untold := Missed(r.pushed, got), if told == [] then r.dropped else [];
    IdsAppend(got, missed);
    IdsAppend(told, untold);
    assert told + untold == r.dropped;
    PartsSum(w, Ids(got), Ids(missed), Ids(told), Ids(untold));
    LostSame(w.lost, Ids(missed), Ids(untold));
  }

  lemma PartsSum(w: World, got: seq<int>, missed: seq<int>, told: seq<int>, untold: seq<int>)
    ensures multiset(w.framed + got) + multiset(w.dropped + told) + multiset(w.lost + missed + untold)
         == multiset(w.framed + (got + missed)) + multiset(w.dropped + (told + untold)) + multiset(w.lost)
  {
  }

  lemma LostSame(lost: seq<int>, missed: seq<int>, untold: seq<int>)
    ensures lost + missed + untold == lost <==> missed == [] && untold == []
    ensures lost <= lost + missed + untold
  {
    assert |lost + missed + untold| == |lost| + |missed| + |untold|;
  }

  // ---------------------------------------------------------------- runs

  /** The cursor a first poll saves before it reads. */
  function JustArmed(w: World, p: Input): World {
    if p.box.None? || w.state.cursor.Some? then w.(state := Restarted(w.state))
    else
      var c := FirstCursor(p.box.value, p.now, p.quietOn);
      w.(base := Floor(c.lastPushed), state := Restarted(w.state.(cursor := Some(c))))
  }

  function After(w: World, e: Event): World {
    match e
    case Polls(p) => Next(w, p)
    case Restarts => w.(state := Restarted(w.state))
    case Arms(p) => JustArmed(w, p)
    case Dies(p, n) => if p.box.None? then w.(state := Restarted(w.state)) else CutShort(w, p, n)
  }

  function Run(w: World, events: seq<Event>): World
    decreases |events|
  {
    if events == [] then w else Run(After(w, events[0]), events[1..])
  }

  /** The inbox file is one file that only grows, and none of it arrives between the size check
      and the read. */
  ghost predicate Steady(w: World, e: Event) {
    !e.Restarts? && e.input.box.Some? ==>
      var box := e.input.box.value;
      && Extends(w, box) && box.stat == |box.rows|
      && (w.state.cursor.Some? ==> w.state.cursor.value.inode == box.inode)
  }

  ghost predicate SteadyRun(w: World, events: seq<Event>)
    decreases |events|
  {
    events == [] || (Steady(w, events[0]) && SteadyRun(After(w, events[0]), events[1..]))
  }

  lemma NextKeepsAccount(w: World, p: Input)
    requires CaughtUp(w) && Steady(w, Polls(p)) && p.box.Some?
    ensures Inv(Next(w, p)) && Next(w, p).state.cursor.value.offset == |p.box.value.rows|
  {
    if Unstarted(w) {
      FirstPollKeepsInv(w, p);
    } else {
      PollKeepsInv(w, p);
    }
  }

  lemma EventKeepsAccount(w: World, e: Event)
    requires CaughtUp(w) && Steady(w, e)
    ensures CaughtUp(After(w, e))
  {
    match e
    case Polls(p) =>
      if p.box.Some? {
        NextKeepsAccount(w, p);
      }
    case Restarts =>
    case Arms(p) => ArmsKeepsAccount(w, p);
    case Dies(p, n) =>
      if p.box.Some? {
        NextKeepsAccount(w, p);
        DeathKeepsAccount(w, p, n);
      }
  }

  lemma ArmsKeepsAccount(w: World, p: Input)
    requires CaughtUp(w)
    ensures CaughtUp(JustArmed(w, p))
  {
    assert HeldIds([]) == [];
  }

  /** Cursor and hold are those of the whole poll. */
  lemma DeathKeepsAccount(w: World, p: Input, n: nat)
    requires p.box.Some? && Inv(Next(w, p)) && Next(w, p).state.cursor.value.offset == |p.box.value.rows|
    ensures CaughtUp(CutShort(w, p, n))
  {
    CutAccounts(w, p, n);
    SameAccount(Next(w, p), CutShort(w, p, n));
  }

  lemma SameAccount(a: World, b: World)
    requires Inv(a) && a.state.cursor == b.state.cursor && a.rows == b.rows && a.base == b.base
    requires Accounted(a) == Accounted(b)
    ensures Inv(b)
  {
  }

  /** Over any steady run, restarts and deaths included, every wanted row read is framed once, held,
      counted as not pushed, or lost to a death. */
  lemma {:induction false} RunConserves(w: World, events: seq<Event>)
    requires CaughtUp(w) && SteadyRun(w, events)
    ensures CaughtUp(Run(w, events))
    decreases |events|
  {
    if events != [] {
      EventKeepsAccount(w, events[0]);
      RunConserves(After(w, events[0]), events[1..]);
    }
  }

  /** What the account says of one row: a wanted row is in exactly one place, and a row that is
      not wanted is in none. */
  lemma EachRowIsInOnePlace(w: World, events: seq<Event>, id: int)
    requires CaughtUp(w) && SteadyRun(w, events) && Run(w, events).state.cursor.Some?
    ensures var w' := Run(w, events);
            var held := HeldIds(HeldOf(w'.state.cursor.value));
            multiset(w'.framed)[id] + multiset(held)[id] + multiset(w'.dropped)[id] + multiset(w'.lost)[id]
            == if HasWanted(w'.rows, w'.base, id) then 1 else 0
  {
    RunConserves(w, events);
    var w' := Run(w, events);
    WantedIdsHave(w'.rows, w'.base, id);
    WantedOnce(w'.rows, w'.base, id);
  }

  /** Each death of the run came when its poll's notes were out, or had framed nothing. */
  ghost predicate DeathsAreHarmless(w: World, events: seq<Event>)
    decreases |events|
  {
    events == [] ||
    (&& (events[0].Dies? && events[0].input.box.Some? ==> Harmless(PollOf(w, events[0].input), events[0].written))
     && DeathsAreHarmless(After(w, events[0]), events[1..]))
  }

  lemma LostGrows(w: World, e: Event)
    ensures w.lost <= After(w, e).lost
    ensures After(w, e).lost == w.lost
        <==> (e.Dies? && e.input.box.Some? ==> Harmless(PollOf(w, e.input), e.written))
  {
    if e.Dies? && e.input.box.Some? {
      CutAccounts(w, e.input, e.written);
    }
  }

  /** A run loses nothing exactly when each death in it was harmless; what it lost stays lost. */
  lemma {:induction false} NothingIsLostExactlyWhen(w: World, events: seq<Event>)
    ensures w.lost <= Run(w, events).lost
    ensures Run(w, events).lost == w.lost <==> DeathsAreHarmless(w, events)
    decreases |events|
  {
    if events != [] {
      LostGrows(w, events[0]);
      NothingIsLostExactlyWhen(After(w, events[0]), events[1..]);
    }
  }

  // ---------------------------------------------------------------- a held row is lost

  const SEVEN: Row := Row(Some(7), true, true, false, None)
  const HOLDING: Event := Polls(Input(Some(Inbox(1, 1, [SIX])), 0.0, true))
  const CUT: Event := Dies(Input(Some(Inbox(1, 2, [SIX, SEVEN])), 1.0, true), 0)

  lemma SortSingle(acc: Sorted, row: Row, floor: int, quietOn: bool, now: real)
    ensures SortAll(acc, [row], floor, quietOn, now) == SortOne(acc, row, floor, quietOn, now)
  {
    assert [row][..0] == [];
  }

  lemma HeldSingle(h: Held, byId: map<int, Row>, flush: bool, now: real)
    requires h.id in byId
    ensures Carried([h], byId, flush, now) == if Due(h, flush, now) then [byId[h.id]] else []
    ensures Kept([h], byId, flush, now) == if Due(h, flush, now) then [] else [h]
  {
    assert [h][..0] == [];
  }

  lemma ByIdSingle(row: Row)
    requires row.id.Some?
    ensures ById([row]) == map[row.id.value := row]
  {
    assert [row][..0] == [];
  }

  /** A channel at 4 that holds row 6 from time 0. */
  ghost predicate HoldsSix(w: World) {
    && w.rows == [SIX] && w.framed == [] && w.dropped == [] && w.lost == []
    && w.state.cursor == Some(Cursor(Some(4), 1, 1, false, Some([Held(6, 0.0)])))
  }

  lemma SixIsHeld()
    ensures HoldsSix(After(AT_FOUR, HOLDING))
  {
    var box, acc := Inbox(1, 1, [SIX]), Sorted(0, [], []);
    assert FreshRows(AT_FOUR.state.cursor.value, box) == [SIX];
    SortSingle(acc, SIX, 4, true, 0.0);
    ByIdSingle(SIX);
    HeldSingle(Held(6, 0.0), ById([SIX]), false, 0.0);
    PollPushes(AT_FOUR, HOLDING.input, Sorted(0, [Held(6, 0.0)], []));
    assert Ids([]) == [];
  }

  /** A poll in terms of what it sorted. */
  lemma PollPushes(w: World, p: Input, sorted: Sorted)
    requires w.state.cursor.Some? && p.box.Some?
    requires sorted == SortFresh(w.state.cursor.value, w.state.foreign, p.box.value, p.now, p.quietOn)
    requires |sorted.pending| <= BACKLOG
    ensures var r, byId := PollOf(w, p), ById(p.box.value.rows);
      && r.pushed == Carried(sorted.held, byId, sorted.pending != [], p.now) + sorted.pending && r.dropped == []
  {
    assert sorted.pending[0..] == sorted.pending;
  }

  lemma SixAndSeven()
    ensures 6 in ById([SIX, SEVEN]) && ById([SIX, SEVEN])[6] == SIX
  {
    assert [SIX, SEVEN][..1] == [SIX];
    ByIdSingle(SIX);
  }

  lemma SevenCarriesSix(w: World, p: Input)
    requires HoldsSix(w) && p.box == Some(Inbox(1, 2, [SIX, SEVEN])) && p.quietOn
    ensures PollOf(w, p).pushed == [SIX, SEVEN] && PollOf(w, p).dropped == []
  {
    var h := Held(6, 0.0);
    assert FreshRows(w.state.cursor.value, p.box.value) == [SEVEN];
    SortSingle(Sorted(w.state.foreign, [h], []), SEVEN, 4, true, p.now);
    SixAndSeven();
    HeldSingle(h, ById([SIX, SEVEN]), true, p.now);
    PollPushes(w, p, Sorted(w.state.foreign, [h], [SEVEN]));
  }

  lemma BothAreLost(w: World)
    requires HoldsSix(w)
    ensures After(w, CUT).framed == [] && After(w, CUT).lost == [6, 7]
  {
    SevenCarriesSix(w, CUT.input);
    NothingWritten(w, CUT.input, [SIX, SEVEN]);
    assert Ids([SIX, SEVEN]) == [6, 7];
  }

  lemma NothingWritten(w: World, p: Input, pushed: seq<Row>)
    requires p.box.Some? && PollOf(w, p).pushed == pushed && PollOf(w, p).dropped == []
    ensures CutShort(w, p, 0).framed == w.framed && CutShort(w, p, 0).lost == w.lost + Ids(pushed)
  {
    assert Written(PollOf(w, p), 0) == [] && pushed[0..] == pushed;
    assert Ids([]) == [];
  }

  /** Row 6 is held; row 7 may not wait, so the next poll carries 6 with it, saves its cursor and
      dies before it writes. Both rows are lost. */
  lemma HeldRowIsLost()
    ensures var held := After(AT_FOUR, HOLDING);
      && held.state.cursor.Some? && HeldOf(held.state.cursor.value) == [Held(6, 0.0)]
      && After(held, CUT).framed == [] && After(held, CUT).lost == [6, 7] && CaughtUp(After(held, CUT))
  {
    SixIsHeld();
    BothAreLost(After(AT_FOUR, HOLDING));
    AtFourIsGood();
    assert Extends(AT_FOUR, HOLDING.input.box.value);
    EventKeepsAccount(AT_FOUR, HOLDING);
    CutKeepsAccount(After(AT_FOUR, HOLDING));
  }

  lemma CutKeepsAccount(w: World)
    requires CaughtUp(w) && w.rows == [SIX] && w.state.cursor.Some? && w.state.cursor.value.inode == 1
    ensures CaughtUp(After(w, CUT))
  {
    assert Extends(w, CUT.input.box.value);
    EventKeepsAccount(w, CUT);
  }

  /** However a steady run goes on, what was lost is never framed. */
  lemma LostIsNeverFramed(w: World, events: seq<Event>, id: int)
    requires CaughtUp(w) && id in w.lost && SteadyRun(w, events)
    ensures id !in Run(w, events).framed
  {
    RunConserves(w, events);
    NothingIsLostExactlyWhen(w, events);
    StillLost(w.lost, Run(w, events).lost, id);
    EachRowIsInOnePlace(w, events, id);
    NotInBoth(Run(w, events).framed, Run(w, events).lost, id);
  }

  lemma StillLost(before: seq<int>, after: seq<int>, id: int)
    requires before <= after && id in before
    ensures id in after
  {
  }

  lemma NotInBoth(framed: seq<int>, lost: seq<int>, id: int)
    requires multiset(framed)[id] + multiset(lost)[id] <= 1 && id in lost
    ensures id !in framed
  {
    assert id in multiset(lost);
    assert id in framed ==> id in multiset(framed);
  }
}
