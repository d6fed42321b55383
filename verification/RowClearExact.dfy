/** When a poll types `/clear`, exactly, from the board's rows and the polls before it. */
module RowClearExact {
  import opened Common
  import opened RowClear

  // ---------------------------------------------------------------- rows

  /** Entry `k` is the first of the graph with this name. */
  ghost predicate FirstNamed(steps: seq<Step>, name: string, k: int) {
    0 <= k < |steps| && steps[k].name == name && forall j :: 0 <= j < k ==> steps[j].name != name
  }

  ghost predicate AllMet(needs: seq<Option<bool>>) {
    forall i :: 0 <= i < |needs| ==> needs[i] == Some(true)
  }

  /** Some need is unmet and every one before it is met. */
  ghost predicate FirstUnmet(needs: seq<Option<bool>>) {
    exists i :: 0 <= i < |needs| && needs[i] == Some(false) && AllMet(needs[..i])
  }

  ghost predicate HasNeeds(board: Board, row: Row, k: int) {
    && row.step.Some? && row.step.value != "" && row.card.Some? && board.graph(row.card.value).Some?
    && FirstNamed(board.graph(row.card.value).value, row.step.value, k)
    && board.graph(row.card.value).value[k].needs.Some?
  }

  ghost function NeedsAt(board: Board, row: Row, k: int): seq<Option<bool>>
    requires HasNeeds(board, row, k)
  {
    board.graph(row.card.value).value[k].needs.value
  }

  /** The row names no step, or its step's needs are all met. */
  ghost predicate IsReady(board: Board, row: Row) {
    || row.step.None? || row.step.value == ""
    || exists k :: HasNeeds(board, row, k) && AllMet(NeedsAt(board, row, k))
  }

  /** The row's step has an unmet need. */
  ghost predicate IsWaiting(board: Board, row: Row) {
    exists k :: HasNeeds(board, row, k) && FirstUnmet(NeedsAt(board, row, k))
  }

  lemma {:induction false} NeedsTell(needs: seq<Option<bool>>)
    ensures NeedsMet(needs) == Some(true) <==> AllMet(needs)
    ensures NeedsMet(needs) == Some(false) <==> FirstUnmet(needs)
    decreases |needs|
  {
    if needs != [] {
      NeedsTell(needs[1..]);
      if IsTrue(needs[0]) {
        UnmetLater(needs);
      } else {
        assert needs[0] == Some(false) ==> AllMet(needs[..0]);
        if FirstUnmet(needs) {
          var i :| 0 <= i < |needs| && needs[i] == Some(false) && AllMet(needs[..i]);
          assert i > 0 ==> needs[..i][0] == needs[0];
        }
      }
    }
  }

  lemma UnmetLater(needs: seq<Option<bool>>)
    requires needs != [] && needs[0] == Some(true)
    ensures AllMet(needs) <==> AllMet(needs[1..])
    ensures FirstUnmet(needs) <==> FirstUnmet(needs[1..])
  {
    if FirstUnmet(needs) {
      var i :| 0 <= i < |needs| && needs[i] == Some(false) && AllMet(needs[..i]);
      assert needs[1..][i - 1] == needs[i];
      MetBefore(needs, i);
    }
    if FirstUnmet(needs[1..]) {
      var i :| 0 <= i < |needs[1..]| && needs[1..][i] == Some(false) && AllMet(needs[1..][..i]);
      assert needs[i + 1] == needs[1..][i];
      MetBefore(needs, i + 1);
    }
    MetBefore(needs, |needs|);
    assert needs[..|needs|] == needs && needs[1..][..|needs| - 1] == needs[1..];
  }

  lemma MetBefore(needs: seq<Option<bool>>, i: nat)
    requires 1 <= i <= |needs| && needs[0] == Some(true)
    ensures AllMet(needs[..i]) <==> AllMet(needs[1..][..i - 1])
  {
    assert needs[..i] == [needs[0]] + needs[1..][..i - 1];
    var first, rest := needs[..i], needs[1..][..i - 1];
    if AllMet(rest) {
      forall m | 0 <= m < |first| ensures first[m] == Some(true) {
        assert m > 0 ==> first[m] == rest[m - 1];
      }
    }
    if AllMet(first) {
      forall m | 0 <= m < |rest| ensures rest[m] == Some(true) {
        assert rest[m] == first[m + 1];
      }
    }
  }

  lemma {:induction false} StepIsFirst(steps: seq<Step>, name: string) returns (k: int)
    ensures FirstNamed(steps, name, k) || (k == |steps| && forall j :: 0 <= j < |steps| ==> steps[j].name != name)
    ensures StepMet(steps, name)
         == if k == |steps| || steps[k].needs.None? then None else NeedsMet(steps[k].needs.value)
    decreases |steps|
  {
    if steps == [] || steps[0].name == name {
      k := 0;
    } else {
      k := StepIsFirst(steps[1..], name);
      k := k + 1;
    }
  }

  /** An open row is judged ready exactly when its step's needs are all met, waiting exactly when
      one is unmet and all before it are met, and otherwise cannot be judged. */
  lemma RowStands(board: Board, row: Row)
    ensures StepNeedsMet(board, row) == Some(true) <==> IsReady(board, row)
    ensures StepNeedsMet(board, row) == Some(false) <==> IsWaiting(board, row)
  {
    if row.step.Some? && row.step.value != "" && row.card.Some? && board.graph(row.card.value).Some? {
      var steps := board.graph(row.card.value).value;
      var k := StepIsFirst(steps, row.step.value);
      if k < |steps| && steps[k].needs.Some? {
        NeedsTell(steps[k].needs.value);
        assert HasNeeds(board, row, k);
        UnmetIsNotMet(steps[k].needs.value);
      }
      forall j | HasNeeds(board, row, j) ensures j == k {
        assert FirstNamed(steps, row.step.value, j);
      }
    }
  }

  lemma UnmetIsNotMet(needs: seq<Option<bool>>)
    ensures FirstUnmet(needs) ==> !AllMet(needs)
  {
    if i :| 0 <= i < |needs| && needs[i] == Some(false) && AllMet(needs[..i]) {
      assert needs[i] != Some(true);
    }
  }

  /** The rows with work to do. */
  ghost function LiveRows(board: Board, rows: seq<Row>): set<int> {
    set k | 0 <= k < |rows| && rows[k].status == Open && IsReady(board, rows[k])
  }

  ghost predicate IsJudged(board: Board, row: Row) {
    row.status == Finished || (row.status == Open && (IsReady(board, row) || IsWaiting(board, row)))
  }

  lemma {:induction false} CountIsLiveRows(board: Board, rows: seq<Row>)
    ensures CountLive(board, rows) == |LiveRows(board, rows)|
    decreases |rows|
  {
    if rows != [] {
      var n := |rows| - 1;
      CountIsLiveRows(board, rows[..n]);
      RowStands(board, rows[n]);
      LiveRowsLast(board, rows);
    }
  }

  lemma LiveRowsLast(board: Board, rows: seq<Row>)
    requires rows != []
    ensures var n := |rows| - 1;
      && n !in LiveRows(board, rows[..n])
      && LiveRows(board, rows)
         == LiveRows(board, rows[..n]) + if rows[n].status == Open && IsReady(board, rows[n]) then {n} else {}
  {
    var n := |rows| - 1;
    forall k ensures k in LiveRows(board, rows[..n]) <==> 0 <= k < n && rows[k].status == Open && IsReady(board, rows[k]) {
      assert 0 <= k < n ==> rows[..n][k] == rows[k];
    }
  }

  lemma ReadableIsJudged(board: Board, row: Row)
    ensures Readable(board, row) <==> IsJudged(board, row)
  {
    RowStands(board, row);
    var met := StepNeedsMet(board, row);
    if met.Some? {
      if met.value {
        assert met == Some(true);
      } else {
        assert met == Some(false);
      }
    }
  }

  // ---------------------------------------------------------------- one poll

  /** The rows can be read, and each is finished or waits. */
  ghost predicate NothingToDo(board: Board) {
    && board.rows.Some?
    && forall k :: 0 <= k < |board.rows.value| ==>
         board.rows.value[k].status == Finished
         || (board.rows.value[k].status == Open && IsWaiting(board, board.rows.value[k]))
  }

  /** The rows can be read, and some row has work to do. */
  ghost predicate SomethingToDo(board: Board) {
    && board.rows.Some? && (forall k :: 0 <= k < |board.rows.value| ==> IsJudged(board, board.rows.value[k]))
    && exists k :: 0 <= k < |board.rows.value| && board.rows.value[k].status == Open && IsReady(board, board.rows.value[k])
  }

  lemma NotBoth(board: Board, row: Row)
    ensures !(IsReady(board, row) && IsWaiting(board, row))
  {
    RowStands(board, row);
  }

  lemma BoardIs(board: Board)
    ensures NothingToDo(board) <==> AllReadable(board) && CountLive(board, board.rows.value) == 0
    ensures SomethingToDo(board) <==> AllReadable(board) && CountLive(board, board.rows.value) > 0
  {
    if board.rows.Some? {
      var rows := board.rows.value;
      CountIsLiveRows(board, rows);
      forall k | 0 <= k < |rows| ensures Readable(board, rows[k]) <==> IsJudged(board, rows[k]) {
        ReadableIsJudged(board, rows[k]);
      }
      forall k | 0 <= k < |rows| ensures !(IsReady(board, rows[k]) && IsWaiting(board, rows[k])) {
        NotBoth(board, rows[k]);
      }
      assert forall k :: k in LiveRows(board, rows) <==> 0 <= k < |rows| && rows[k].status == Open && IsReady(board, rows[k]);
    }
  }

  /** The cell is on and at an idle boundary: opted in, nothing to do, an idle pane, no DM owed. */
  ghost predicate IsIdle(s: Sight) {
    s.mode != Off && s.optedIn && NothingToDo(s.board) && s.pane && s.busy == Some(false) && !s.owed
  }

  /** A poll types exactly at an idle boundary in live mode that the latch does not cover, and
      shadows exactly at one in shadow mode; the latch is cleared exactly by a row with work to do,
      a busy pane or an owed DM. */
  lemma DecidesExactly(s: Sight, latch: Option<Mode>)
    ensures var d, on := Decide(s, latch), s.mode != Off && s.optedIn;
      && (d == Cleared <==> IsIdle(s) && s.mode == Live && latch != Some(Live) && s.typing.reported)
      && (d == TypeFailed <==> IsIdle(s) && s.mode == Live && latch != Some(Live) && !s.typing.reported)
      && (d == WouldClear <==> IsIdle(s) && s.mode == Shadow && latch != Some(Shadow))
      && (d == Latched <==> IsIdle(s) && latch == Some(s.mode))
      && (d == LiveRow <==> on && SomethingToDo(s.board))
      && (d == Busy <==> on && NothingToDo(s.board) && s.pane && s.busy == Some(true))
      && (d == OwedDm <==> on && NothingToDo(s.board) && s.pane && s.busy == Some(false) && s.owed)
  {
    BoardIs(s.board);
  }

  // ---------------------------------------------------------------- the latch over a run

  /** The poll leaves the latch file set to `mode`: it acted in that mode and its write went
      through. */
  ghost predicate Latches(p: Poll, mode: Mode) {
    p.sight.writing == Written && ((mode == Live && p.decision == Cleared) || (mode == Shadow && p.decision == WouldClear))
  }

  /** The poll changed the file, for better or worse. */
  ghost predicate Rewrites(p: Poll) {
    p.decision in {LiveRow, Busy, OwedDm, WouldClear, Cleared} && p.sight.writing != Unwritten
  }

  /** The latch is set to a mode exactly when a poll set it so and no later poll rewrote it. */
  lemma {:induction false} LatchTells(polls: seq<Poll>, mode: Mode)
    ensures LatchAfter(polls) == Some(mode) <==>
      exists i :: 0 <= i < |polls| && Latches(polls[i], mode) && forall j :: i < j < |polls| ==> !Rewrites(polls[j])
    decreases |polls|
  {
    if polls != [] {
      var n := |polls| - 1;
      LatchTells(polls[..n], mode);
      if i :| 0 <= i < n && Latches(polls[..n][i], mode) && forall j :: i < j < n ==> !Rewrites(polls[..n][j]) {
        assert Latches(polls[i], mode);
        if !Rewrites(polls[n]) {
          forall j | i < j < |polls| ensures !Rewrites(polls[j]) {
            assert j < n ==> polls[..n][j] == polls[j];
          }
        }
      }
      if i :| 0 <= i < n && Latches(polls[i], mode) && forall j :: i < j < |polls| ==> !Rewrites(polls[j]) {
        assert polls[..n][i] == polls[i];
        forall j | i < j < n ensures !Rewrites(polls[..n][j]) {
          assert polls[..n][j] == polls[j];
        }
      }
    }
  }

  /** In a run a poll types exactly at an idle live boundary that no earlier kept clear covers. */
  lemma TypesExactlyWhen(polls: seq<Poll>, k: nat)
    requires IsRun(polls) && k < |polls|
    ensures Types(polls[k]) <==>
      && IsIdle(polls[k].sight) && polls[k].sight.mode == Live
      && !exists i :: 0 <= i < k && Kept(polls[i]) && forall j :: i < j < k ==> !Rewrites(polls[j])
  {
    var before := polls[..k];
    assert DecidedRight(polls, k);
    DecidesExactly(polls[k].sight, LatchAfter(before));
    LatchTells(before, Live);
    if i :| 0 <= i < k && Kept(polls[i]) && forall j :: i < j < k ==> !Rewrites(polls[j]) {
      assert before[i] == polls[i] && Latches(before[i], Live);
      assert forall j :: i < j < |before| ==> before[j] == polls[j];
    }
    if i :| 0 <= i < |before| && Latches(before[i], Live) && forall j :: i < j < |before| ==> !Rewrites(before[j]) {
      assert before[i] == polls[i];
      assert forall j :: i < j < k ==> before[j] == polls[j];
    }
  }
}
