/** Typing `/clear` at a row boundary: one poll of the opted-in cell and its latch file. */
module RowClear {
  import opened Common

  datatype Mode = Off | Shadow | Live

  datatype Status = Open | Finished | Unknown

  /** An obligation row; `step` is absent when it names none, `card` when it is no integer. */
  datatype Row = Row(status: Status, step: Option<string>, card: Option<int>)

  /** A step of a card's graph; each need is its satisfied flag, absent when malformed. */
  datatype Step = Step(name: string, needs: Option<seq<Option<bool>>>)

  /** What the board answers: the cell's rows and each card's graph, absent when unreadable. */
  datatype Board = Board(rows: Option<seq<Row>>, graph: int -> Option<seq<Step>>)

  /** What typing does: the pane may take the command although the call reports failure, as on
      a timeout. */
  datatype Typing = Typing(delivered: bool, reported: bool)

  /** What becomes of a latch write: a failed or dying one leaves the file as it was, or torn. */
  datatype Writing = Written | Unwritten | Torn

  /** Everything one poll meets. `pane` is absent without a terminal target, `busy` when the pane
      cannot be judged. */
  datatype Sight = Sight(mode: Mode, optedIn: bool, board: Board, pane: bool, busy: Option<bool>, owed: bool,
                         typing: Typing, writing: Writing)

  datatype Decision =
    | IsOff | NotOptedIn | RowsUnknown | LiveRow | NoPane | Busy | UnknownPane | OwedDm
    | Latched | WouldClear | TypeFailed | Cleared

  // ---------------------------------------------------------------- rows

  predicate IsTrue(flag: Option<bool>) {
    flag.Some? && flag.value
  }

  predicate IsFalse(flag: Option<bool>) {
    flag.Some? && !flag.value
  }

  /** Every need satisfied, some need not, or no telling; the first flag that is not `true`
      decides. */
  function NeedsMet(needs: seq<Option<bool>>): Option<bool> {
    if needs == [] then Some(true)
    else if IsTrue(needs[0]) then NeedsMet(needs[1..])
    else needs[0]
  }

  function StepMet(steps: seq<Step>, name: string): Option<bool> {
    if steps == [] then None
    else if steps[0].name == name then
      if steps[0].needs.None? then None else NeedsMet(steps[0].needs.value)
    else StepMet(steps[1..], name)
  }

  /** Whether an open row's work can be done now. */
  function StepNeedsMet(board: Board, row: Row): Option<bool> {
    if row.step.None? || row.step.value == "" then Some(true)
    else if row.card.None? then None
    else
      var steps := board.graph(row.card.value);
      if steps.None? then None else StepMet(steps.value, row.step.value)
  }

  predicate Readable(board: Board, row: Row) {
    row.status == Finished || (row.status == Open && StepNeedsMet(board, row).Some?)
  }

  predicate Actionable(board: Board, row: Row) {
    row.status == Open && IsTrue(StepNeedsMet(board, row))
  }

  function CountLive(board: Board, rows: seq<Row>): nat {
    if rows == [] then 0
    else
      var n := |rows| - 1;
      CountLive(board, rows[..n]) + if Actionable(board, rows[n]) then 1 else 0
  }

  lemma {:induction false} CountLiveZero(board: Board, rows: seq<Row>)
    ensures CountLive(board, rows) == 0 <==> forall k :: 0 <= k < |rows| ==> !Actionable(board, rows[k])
    decreases |rows|
  {
    if rows != [] {
      var n := |rows| - 1;
      CountLiveZero(board, rows[..n]);
      assert forall k :: 0 <= k < n ==> rows[..n][k] == rows[k];
    }
  }

  /** Actionable rows, or nothing when any row cannot be judged. */
  method LiveRowCount(board: Board) returns (live: Option<nat>)
    ensures live.Some? <==> board.rows.Some? && forall k :: 0 <= k < |board.rows.value| ==> Readable(board, board.rows.value[k])
    ensures live.Some? ==> live.value == CountLive(board, board.rows.value)
  {
    if board.rows.None? {
      return None;
    }
    var rows := board.rows.value;
    var graphs: map<int, seq<Step>> := map[];
    var count := 0;
    for i := 0 to |rows|
      invariant count == CountLive(board, rows[..i])
      invariant forall k :: 0 <= k < i ==> Readable(board, rows[k])
      invariant forall c :: c in graphs ==> board.graph(c) == Some(graphs[c])
    {
      var row := rows[i];
      assert rows[..i + 1][..i] == rows[..i];
      if row.status == Finished {
        continue;
      }
      if row.status != Open {
        return None;
      }
      var met;
      met, graphs := RowNeedsMet(board, row, graphs);
      if met.None? {
        return None;
      }
      if met.value {
        count := count + 1;
      }
    }
    assert rows[..|rows|] == rows;
    live := Some(count);
  }

  /** Judges one open row, fetching its card's graph unless this poll already did. */
  method RowNeedsMet(board: Board, row: Row, graphs0: map<int, seq<Step>>)
    returns (met: Option<bool>, graphs: map<int, seq<Step>>)
    requires forall c :: c in graphs0 ==> board.graph(c) == Some(graphs0[c])
    ensures met == StepNeedsMet(board, row)
    ensures forall c :: c in graphs ==> board.graph(c) == Some(graphs[c])
  {
    graphs := graphs0;
    if row.step.None? || row.step.value == "" {
      return Some(true), graphs;
    }
    if row.card.None? {
      return None, graphs;
    }
    var card := row.card.value;
    if card !in graphs {
      var fetched := board.graph(card);
      if fetched.None? {
        return None, graphs;
      }
      graphs := graphs[card := fetched.value];
    }
    met := StepMet(graphs[card], row.step.value);
  }

  // ---------------------------------------------------------------- one poll

  /** A poll, and what it decided before it wrote the latch. */
  datatype Poll = Poll(sight: Sight, decision: Decision)

  predicate AllReadable(board: Board) {
    board.rows.Some? && forall k :: 0 <= k < |board.rows.value| ==> Readable(board, board.rows.value[k])
  }

  /** No live row, an idle pane and no DM owed. */
  predicate AtBoundary(s: Sight) {
    && AllReadable(s.board) && CountLive(s.board, s.board.rows.value) == 0
    && s.pane && IsFalse(s.busy) && !s.owed
  }

  function Decide(s: Sight, latch: Option<Mode>): Decision {
    if s.mode == Off then IsOff
    else if !s.optedIn then NotOptedIn
    else if !AllReadable(s.board) then RowsUnknown
    else if CountLive(s.board, s.board.rows.value) > 0 then LiveRow
    else if !s.pane then NoPane
    else if IsTrue(s.busy) then Busy
    else if s.busy.None? then UnknownPane
    else if s.owed then OwedDm
    else if latch == Some(s.mode) then Latched
    else if s.mode == Shadow then WouldClear
    else if !s.typing.reported then TypeFailed
    else Cleared
  }

  predicate Unlatches(d: Decision) {
    d.LiveRow? || d.Busy? || d.OwedDm?
  }

  predicate Writes(d: Decision) {
    Unlatches(d) || d.WouldClear? || d.Cleared?
  }

  /** The latch a poll means to leave: the mode that acted since the last unlatching. */
  function NextLatch(d: Decision, latch: Option<Mode>): Option<Mode> {
    if Unlatches(d) then None
    else if d.WouldClear? then Some(Shadow)
    else if d.Cleared? then Some(Live)
    else latch
  }

  /** The latch file it leaves. A torn file reads as no latch. */
  function LatchLeft(p: Poll, latch: Option<Mode>): Option<Mode> {
    if !Writes(p.decision) then latch
    else
      match p.sight.writing
      case Written => NextLatch(p.decision, latch)
      case Unwritten => latch
      case Torn => None
  }

  /** The poll went as far as typing. */
  predicate Types(p: Poll) {
    p.decision.Cleared? || p.decision.TypeFailed?
  }

  /** The pane took a `/clear`. */
  predicate Delivers(p: Poll) {
    Types(p) && p.sight.typing.delivered
  }

  /** The cell's monitor with its latch. */
  class Monitor {
    var latch: Option<Mode>

    constructor ()
      ensures latch == None
    {
      latch := None;
    }

    /** Writes the latch file, or fails to. */
    method WriteLatch(mode: Option<Mode>, writing: Writing) returns (alive: bool)
      modifies this
      ensures latch == match writing case Written => mode case Unwritten => old(latch) case Torn => None
      ensures alive <==> writing == Written
    {
      if writing == Written {
        latch := mode;
      } else if writing == Torn {
        latch := None;
      }
      alive := writing == Written;
    }

    /** One poll. Types at most once, and only at a boundary its latch does not cover; the latch
        is written after the keys. `decision` is absent when the latch write failed. */
    method MaybeRowclear(s: Sight) returns (decision: Option<Decision>, typed: bool)
      modifies this
      ensures var d := Decide(s, old(latch));
        && latch == LatchLeft(Poll(s, d), old(latch))
        && decision == (if Writes(d) && s.writing != Written then None else Some(d))
        && typed == Types(Poll(s, d))
        && (typed || d.WouldClear? ==> AtBoundary(s) && old(latch) != Some(s.mode))
    {
      typed := false;
      if s.mode == Off {
        return Some(IsOff), typed;
      }
      if !s.optedIn {
        return Some(NotOptedIn), typed;
      }
      var live := LiveRowCount(s.board);
      if live.None? {
        return Some(RowsUnknown), typed;
      }
      var alive;
      if live.value > 0 {
        alive := WriteLatch(None, s.writing);
        return if alive then Some(LiveRow) else None, typed;
      }
      if !s.pane {
        return Some(NoPane), typed;
      }
      if IsTrue(s.busy) {
        alive := WriteLatch(None, s.writing);
        return if alive then Some(Busy) else None, typed;
      }
      if s.busy.None? {
        return Some(UnknownPane), typed;
      }
      if s.owed {
        alive := WriteLatch(None, s.writing);
        return if alive then Some(OwedDm) else None, typed;
      }
      if latch == Some(s.mode) {
        return Some(Latched), typed;
      }
      if s.mode == Shadow {
        alive := WriteLatch(Some(s.mode), s.writing);
        return if alive then Some(WouldClear) else None, typed;
      }
      typed := true;
      if !s.typing.reported {
        return Some(TypeFailed), typed;
      }
      alive := WriteLatch(Some(s.mode), s.writing);
      decision := if alive then Some(Cleared) else None;
    }
  }

  // ---------------------------------------------------------------- whole runs

  function LatchAfter(polls: seq<Poll>): Option<Mode> {
    if polls == [] then None
    else
      var n := |polls| - 1;
      LatchLeft(polls[n], LatchAfter(polls[..n]))
  }

  /** A run of polls from an unlatched cell. */
  ghost predicate IsRun(polls: seq<Poll>) {
    forall k :: 0 <= k < |polls| ==> DecidedRight(polls, k)
  }

  ghost predicate DecidedRight(polls: seq<Poll>, k: nat)
    requires k < |polls|
  {
    polls[k].decision == Decide(polls[k].sight, LatchAfter(polls[..k]))
  }

  /** A clear that was reported and whose latch reached the file. */
  predicate Kept(p: Poll) {
    p.decision.Cleared? && p.sight.writing == Written
  }

  /** A poll that saw a live row, a busy pane or an owed DM, or acted in shadow mode. */
  predicate Moves(p: Poll) {
    Unlatches(p.decision) || p.decision.WouldClear?
  }

  /** A kept clear stays latched until a poll moves the latch. */
  lemma {:induction false} LatchHolds(polls: seq<Poll>, i: nat)
    requires IsRun(polls) && i < |polls| && Kept(polls[i])
    requires forall j :: i < j < |polls| ==> !Moves(polls[j])
    ensures LatchAfter(polls) == Some(Live)
    decreases |polls|
  {
    var n := |polls| - 1;
    RunPrefix(polls, n);
    if i < n {
      LatchHolds(polls[..n], i);
      assert DecidedRight(polls, n);
    }
  }

  lemma RunPrefix(polls: seq<Poll>, n: nat)
    requires IsRun(polls) && n <= |polls|
    ensures IsRun(polls[..n])
  {
    forall k | 0 <= k < n ensures DecidedRight(polls[..n], k) {
      assert DecidedRight(polls, k);
      assert polls[..n][..k] == polls[..k];
    }
  }

  /** After a kept clear nothing is typed before a poll saw a live row, a busy pane or an owed DM,
      or acted in shadow mode. */
  lemma BoundaryBetweenClears(polls: seq<Poll>, i: nat, k: nat)
    requires IsRun(polls) && i < k < |polls| && Kept(polls[i]) && Types(polls[k])
    ensures exists j :: i < j < k && Moves(polls[j])
  {
    assert DecidedRight(polls, k);
    if forall j :: i < j < k ==> !Moves(polls[j]) {
      RunPrefix(polls, k);
      LatchHolds(polls[..k], i);
    }
  }

  /** A poll like the last one, decided on the latch that one left. */
  function Repeated(polls: seq<Poll>): seq<Poll>
    requires polls != []
  {
    polls + [polls[|polls| - 1]]
  }

  /** A delivered clear that is not kept is delivered again by the next poll of the same sight. */
  lemma LostLatchClearsAgain(polls: seq<Poll>)
    requires IsRun(polls) && polls != [] && Delivers(polls[|polls| - 1]) && !Kept(polls[|polls| - 1])
    ensures IsRun(Repeated(polls)) && Delivers(Repeated(polls)[|polls|])
  {
    var n, all := |polls| - 1, Repeated(polls);
    assert DecidedRight(polls, n);
    forall k | 0 <= k < |all| ensures DecidedRight(all, k) {
      if k <= n {
        assert DecidedRight(polls, k);
        assert all[..k] == polls[..k];
      } else {
        assert all[..k] == polls;
      }
    }
  }

  /** However the run goes on, the next delivered clear has a poll before it that moved the
      latch. */
  ghost predicate NextClearIsSeparated(polls: seq<Poll>) {
    forall more: seq<Poll> :: more != [] && IsRun(polls + more) && Delivers((polls + more)[|polls + more| - 1]) ==>
      exists j :: 0 <= j < |more| - 1 && Moves(more[j])
  }

  /** Delivered clears are separated exactly while each is reported and its latch written. */
  lemma ClearsAreSeparatedExactlyWhenKept(polls: seq<Poll>)
    requires IsRun(polls) && polls != [] && Delivers(polls[|polls| - 1])
    ensures NextClearIsSeparated(polls) <==> Kept(polls[|polls| - 1])
  {
    var n := |polls| - 1;
    if Kept(polls[n]) {
      forall more: seq<Poll> | more != [] && IsRun(polls + more) && Delivers((polls + more)[|polls + more| - 1])
        ensures exists j :: 0 <= j < |more| - 1 && Moves(more[j])
      {
        var all := polls + more;
        BoundaryBetweenClears(all, n, |all| - 1);
        var j :| n < j < |all| - 1 && Moves(all[j]);
        assert all[j] == more[j - n - 1];
      }
    } else {
      LostLatchClearsAgain(polls);
      assert Repeated(polls) == polls + [polls[n]];
    }
  }

  const IDLE: Sight := Sight(Live, true, Board(Some([]), (c: int) => None), true, Some(false), false,
                             Typing(true, false), Written)

  /** Concretely: the pane takes `/clear`, the call times out and reports failure, and the next
      poll of the unchanged idle cell types it again. */
  lemma TimedOutClearIsTypedTwice()
    ensures var p := Poll(IDLE, TypeFailed); IsRun([p, p]) && Delivers(p)
  {
    var p := Poll(IDLE, TypeFailed);
    assert [p][..0] == [];
    assert DecidedRight([p], 0);
    LostLatchClearsAgain([p]);
    assert Repeated([p]) == [p, p];
  }

  /** What the unlatching polls saw, and what a clearing one did: `/clear` is typed only with
      every row judged, none actionable, an idle pane and no DM owed. */
  lemma DecisionsTell(polls: seq<Poll>, k: nat)
    requires IsRun(polls) && k < |polls|
    ensures var s := polls[k].sight;
            && (Types(polls[k]) ==> s.mode == Live && s.optedIn && AtBoundary(s) && AllIdle(s.board))
            && (polls[k].decision == LiveRow ==> SomeActionable(s.board))
            && (polls[k].decision == Busy ==> IsTrue(s.busy))
            && (polls[k].decision == OwedDm ==> s.owed)
  {
    assert DecidedRight(polls, k);
    var board := polls[k].sight.board;
    if AllReadable(board) {
      CountLiveZero(board, board.rows.value);
      assert forall r :: 0 <= r < |board.rows.value| ==> Readable(board, board.rows.value[r]);
    }
  }

  /** Every row is finished or waits for a need. */
  ghost predicate AllIdle(board: Board) {
    && board.rows.Some?
    && forall r :: 0 <= r < |board.rows.value| ==>
         board.rows.value[r].status == Finished || IsFalse(StepNeedsMet(board, board.rows.value[r]))
  }

  ghost predicate SomeActionable(board: Board) {
    board.rows.Some? && exists r :: 0 <= r < |board.rows.value| && Actionable(board, board.rows.value[r])
  }

  /** A boundary that lasts is cleared once: after a kept clear, live polls of an idle cell find
      the latch set. */
  lemma QuietBoundaryIsClearedOnce(polls: seq<Poll>, i: nat, k: nat)
    requires IsRun(polls) && i < k < |polls| && Kept(polls[i])
    requires forall j :: i < j <= k ==> AtBoundary(polls[j].sight) && polls[j].sight.mode == Live
    ensures polls[k].decision == Latched || polls[k].decision == NotOptedIn
  {
    forall j | i < j < k ensures !Moves(polls[j]) {
      assert DecidedRight(polls, j);
    }
    assert DecidedRight(polls, k);
    RunPrefix(polls, k);
    LatchHolds(polls[..k], i);
  }
}
