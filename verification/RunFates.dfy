/** Which rows of a benchmark run were not run and why, told from the backends' replies alone. */
module RunFates {
  import opened Common
  import opened RunSpec
  import opened RunSafety

  // ---------------------------------------------------------------- what replies call for

  /** Call `k` is the last one for its task. */
  ghost predicate Final(calls: seq<Call>, k: nat) {
    k < |calls| && (k + 1 == |calls| || calls[k + 1].arm != calls[k].arm || calls[k + 1].task != calls[k].task)
  }

  /** The reply's redacted error starts with `billing:`. */
  ghost predicate SaysBilling(env: Env, reply: Reply) {
    reply.error != "" && |env.redact(reply.error)| >= 8 && env.redact(reply.error)[..8] == "billing:"
  }

  ghost predicate SaysLimit(env: Env, reply: Reply) {
    reply.error != "" && env.redact(reply.error) == "rate_limit"
  }

  /** A task at or before task `i` of arm `a` ended with a billing reply. */
  ghost predicate BilledBy(env: Env, calls: seq<Call>, a: nat, i: nat) {
    exists k: nat :: Final(calls, k) && SaysBilling(env, env.reply(k)) && !Earlier(a, i, calls[k].arm, calls[k].task)
  }

  /** A task of arm `a` at or before task `i` ended rate limited. */
  ghost predicate LimitedBy(env: Env, calls: seq<Call>, a: nat, i: nat) {
    exists k: nat :: Final(calls, k) && SaysLimit(env, env.reply(k)) && calls[k].arm == a && calls[k].task <= i
  }

  /** What the calls for earlier tasks cost, on all arms and on arm `a`. */
  function SpentBefore(calls: seq<Call>, a: nat, i: nat): real {
    if calls == [] then 0.0
    else
      var n := |calls| - 1;
      SpentBefore(calls[..n], a, i) + if Earlier(calls[n].arm, calls[n].task, a, i) then calls[n].cost else 0.0
  }

  function ArmSpentBefore(calls: seq<Call>, a: nat, i: nat): real {
    if calls == [] then 0.0
    else
      var n := |calls| - 1;
      ArmSpentBefore(calls[..n], a, i) + if calls[n].arm == a && calls[n].task < i then calls[n].cost else 0.0
  }

  ghost predicate CapReached(env: Env, calls: seq<Call>, a: nat, i: nat) {
    || (env.maxUsd.Some? && SpentBefore(calls, a, i) >= env.maxUsd.value)
    || (env.maxUsdPerArm.Some? && ArmSpentBefore(calls, a, i) >= env.maxUsdPerArm.value)
  }

  /** Why task `i` of arm `a` does not run, if it does not. */
  ghost function Fate(env: Env, calls: seq<Call>, a: nat, i: nat): Option<string> {
    if BilledBy(env, calls, a, i) then Some("aborted")
    else if LimitedBy(env, calls, a, i) then Some("rate_limit")
    else if CapReached(env, calls, a, i) then Some("spend_cap")
    else None
  }

  // ---------------------------------------------------------------- later calls change no fate

  /** All calls are for tasks before task `m` of arm `b`. */
  ghost predicate Before(calls: seq<Call>, b: nat, m: nat) {
    forall k :: 0 <= k < |calls| ==> Earlier(calls[k].arm, calls[k].task, b, m)
  }

  ghost predicate At(calls: seq<Call>, b: nat, m: nat) {
    forall k :: 0 <= k < |calls| ==> calls[k].arm == b && calls[k].task == m
  }

  lemma FinalStays(calls: seq<Call>, added: seq<Call>, b: nat, m: nat, k: nat)
    requires Before(calls, b, m) && At(added, b, m)
    ensures k < |calls| ==> (Final(calls + added, k) <==> Final(calls, k))
    ensures k >= |calls| ==> (Final(calls + added, k) <==> k + 1 == |calls + added|)
  {
    var all := calls + added;
    assert forall j :: 0 <= j < |calls| ==> all[j] == calls[j];
    assert forall j :: |calls| <= j < |all| ==> all[j] == added[j - |calls|];
  }

  lemma {:induction false} SpentStays(calls: seq<Call>, added: seq<Call>, a: nat, i: nat)
    requires forall k :: 0 <= k < |added| ==> !Earlier(added[k].arm, added[k].task, a, i)
    ensures SpentBefore(calls + added, a, i) == SpentBefore(calls, a, i)
    ensures ArmSpentBefore(calls + added, a, i) == ArmSpentBefore(calls, a, i)
    decreases |added|
  {
    if added == [] {
      assert calls + added == calls;
    } else {
      var n := |added| - 1;
      assert (calls + added)[..|calls| + n] == calls + added[..n];
      SpentStays(calls, added[..n], a, i);
    }
  }

  /** Calls for a later task leave the fate of task `i` of arm `a` as it was. */
  lemma FateStays(env: Env, calls: seq<Call>, added: seq<Call>, a: nat, i: nat, b: nat, m: nat)
    requires Before(calls, b, m) && At(added, b, m) && Earlier(a, i, b, m)
    ensures Fate(env, calls + added, a, i) == Fate(env, calls, a, i)
  {
    BilledStays(env, calls, added, a, i, b, m);
    LimitedStays(env, calls, added, a, i, b, m);
    SpentStays(calls, added, a, i);
  }

  lemma BilledStays(env: Env, calls: seq<Call>, added: seq<Call>, a: nat, i: nat, b: nat, m: nat)
    requires Before(calls, b, m) && At(added, b, m) && Earlier(a, i, b, m)
    ensures BilledBy(env, calls + added, a, i) <==> BilledBy(env, calls, a, i)
  {
    var all := calls + added;
    if k: nat :| Final(calls, k) && SaysBilling(env, env.reply(k)) && !Earlier(a, i, calls[k].arm, calls[k].task) {
      FinalStays(calls, added, b, m, k);
      assert all[k] == calls[k];
    }
    if k: nat :| Final(all, k) && SaysBilling(env, env.reply(k)) && !Earlier(a, i, all[k].arm, all[k].task) {
      FinalStays(calls, added, b, m, k);
      assert k < |calls|;
    }
  }

  lemma LimitedStays(env: Env, calls: seq<Call>, added: seq<Call>, a: nat, i: nat, b: nat, m: nat)
    requires Before(calls, b, m) && At(added, b, m) && Earlier(a, i, b, m)
    ensures LimitedBy(env, calls + added, a, i) <==> LimitedBy(env, calls, a, i)
  {
    var all := calls + added;
    if k: nat :| Final(calls, k) && SaysLimit(env, env.reply(k)) && calls[k].arm == a && calls[k].task <= i {
      FinalStays(calls, added, b, m, k);
      assert all[k] == calls[k];
    }
    if k: nat :| Final(all, k) && SaysLimit(env, env.reply(k)) && all[k].arm == a && all[k].task <= i {
      FinalStays(calls, added, b, m, k);
      assert k < |calls|;
    }
  }

  // ---------------------------------------------------------------- the run knows

  /** The run's variables tell what the replies so far call for. */
  ghost predicate Knows(env: Env, st: State) {
    var b, m := |st.arms|, |st.rows|;
    && Before(st.calls, b, m)
    && (st.aborted <==> BilledBy(env, st.calls, b, m)) && (st.stopped <==> LimitedBy(env, st.calls, b, m))
    && st.spent == SpentBefore(st.calls, b, m) && st.armSpent == ArmSpentBefore(st.calls, b, m)
  }

  /** The calls a step adds, `n` for the current task, the last one's reply ending it. */
  ghost predicate Ends(env: Env, st: State, st': State, n: nat, c: real) {
    && st'.arms == st.arms && |st'.rows| == |st.rows| + 1
    && st'.calls == st.calls + Calls(|st.arms|, |st.rows|, st, n, c)
    && st'.spent == st.spent + c && st'.armSpent == st.armSpent + c && (n == 0 ==> c == 0.0)
    && (st'.aborted <==> st.aborted || (n > 0 && SaysBilling(env, env.reply(|st.calls| + n - 1))))
    && (st'.stopped <==> st.stopped || (n > 0 && SaysLimit(env, env.reply(|st.calls| + n - 1))))
  }

  lemma StepEnds(env: Env, spec: Spec, resumed: map<string, Row>, task: Task, st: State)
    returns (n: nat, c: real)
    ensures Ends(env, st, TaskStep(env, spec, resumed, task, st), n, c)
    ensures n == 0 <==> task.id in resumed || st.aborted || st.stopped || Capped(env, st)
    ensures n > 0 ==> n == Asks(env, |st.calls|, 0)
  {
    n, c := 0, 0.0;
    if task.id in resumed || st.aborted || st.stopped || Capped(env, st) {
      assert Calls(|st.arms|, |st.rows|, st, 0, 0.0) == [];
    } else {
      n := Asks(env, |st.calls|, 0);
      var reply := env.reply(|st.calls| + n - 1);
      BillingIsNoLimit();
      if ErrorOf(env, reply) == "" {
        c := env.cost(spec, reply);
      }
    }
  }

  lemma BillingIsNoLimit()
    ensures "rate_limit"[..8] != "billing:"
  {
    assert "rate_limit"[..8][0] == 'r' && "billing:"[0] == 'b';
  }

  lemma {:induction false} SpentOnTask(st: State, n: nat, c: real)
    requires (n == 0 ==> c == 0.0) && Before(st.calls, |st.arms|, |st.rows|)
    ensures var calls := st.calls + Calls(|st.arms|, |st.rows|, st, n, c);
      && SpentBefore(calls, |st.arms|, |st.rows| + 1) == SpentBefore(st.calls, |st.arms|, |st.rows|) + c
      && ArmSpentBefore(calls, |st.arms|, |st.rows| + 1) == ArmSpentBefore(st.calls, |st.arms|, |st.rows|) + c
    decreases n
  {
    var added := Calls(|st.arms|, |st.rows|, st, n, c);
    if n == 0 {
      assert st.calls + added == st.calls;
      AllSpent(st.calls, |st.arms|, |st.rows|);
    } else {
      assert added[..n - 1] == Calls(|st.arms|, |st.rows|, st, n - 1, 0.0);
      assert (st.calls + added)[..|st.calls| + n - 1] == st.calls + Calls(|st.arms|, |st.rows|, st, n - 1, 0.0);
      SpentOnTask(st, n - 1, 0.0);
    }
  }

  lemma {:induction false} AllSpent(calls: seq<Call>, b: nat, m: nat)
    requires Before(calls, b, m)
    ensures SpentBefore(calls, b, m + 1) == SpentBefore(calls, b, m)
    ensures ArmSpentBefore(calls, b, m + 1) == ArmSpentBefore(calls, b, m)
    decreases |calls|
  {
    if calls != [] {
      AllSpent(calls[..|calls| - 1], b, m);
    }
  }

  lemma StepKnows(env: Env, st: State, st': State, n: nat, c: real)
    requires Knows(env, st) && Ends(env, st, st', n, c)
    ensures Knows(env, st')
    ensures st'.aborted <==> BilledBy(env, st'.calls, |st.arms|, |st.rows|)
    ensures st'.stopped <==> LimitedBy(env, st'.calls, |st.arms|, |st.rows|)
  {
    var b, m := |st.arms|, |st.rows|;
    var added := Calls(b, m, st, n, c);
    SpentOnTask(st, n, c);
    StillBefore(st.calls, added, b, m);
    FlagsNow(env, st.calls, added, b, m);
  }

  lemma StillBefore(calls: seq<Call>, added: seq<Call>, b: nat, m: nat)
    requires Before(calls, b, m) && At(added, b, m)
    ensures Before(calls + added, b, m + 1)
  {
  }

  lemma FlagsNow(env: Env, calls: seq<Call>, added: seq<Call>, b: nat, m: nat)
    requires Before(calls, b, m) && At(added, b, m)
    ensures var all := calls + added;
      var billed := BilledBy(env, calls, b, m) || (added != [] && SaysBilling(env, env.reply(|all| - 1)));
      var limited := LimitedBy(env, calls, b, m) || (added != [] && SaysLimit(env, env.reply(|all| - 1)));
      && (BilledBy(env, all, b, m) <==> billed) && (BilledBy(env, all, b, m + 1) <==> billed)
      && (LimitedBy(env, all, b, m) <==> limited) && (LimitedBy(env, all, b, m + 1) <==> limited)
  {
    BilledNow(env, calls, added, b, m);
    LimitedNow(env, calls, added, b, m);
  }

  lemma BilledNow(env: Env, calls: seq<Call>, added: seq<Call>, b: nat, m: nat)
    requires Before(calls, b, m) && At(added, b, m)
    ensures var now := BilledBy(env, calls, b, m) || (added != [] && SaysBilling(env, env.reply(|calls + added| - 1)));
      && (BilledBy(env, calls + added, b, m) <==> now) && (BilledBy(env, calls + added, b, m + 1) <==> now)
  {
    BilledComes(env, calls, added, b, m);
    if BilledBy(env, calls + added, b, m) || BilledBy(env, calls + added, b, m + 1) {
      BilledCame(env, calls, added, b, m);
    }
  }

  lemma BilledComes(env: Env, calls: seq<Call>, added: seq<Call>, b: nat, m: nat)
    requires Before(calls, b, m) && At(added, b, m)
    ensures BilledBy(env, calls, b, m) || (added != [] && SaysBilling(env, env.reply(|calls + added| - 1))) ==>
      BilledBy(env, calls + added, b, m) && BilledBy(env, calls + added, b, m + 1)
  {
    var all := calls + added;
    if k: nat :| Final(calls, k) && SaysBilling(env, env.reply(k)) && !Earlier(b, m, calls[k].arm, calls[k].task) {
      FinalStays(calls, added, b, m, k);
      assert all[k] == calls[k] && !Earlier(b, m + 1, all[k].arm, all[k].task);
    }
    if added != [] && SaysBilling(env, env.reply(|all| - 1)) {
      FinalStays(calls, added, b, m, |all| - 1);
      assert all[|all| - 1] == added[|added| - 1];
    }
  }

  lemma BilledCame(env: Env, calls: seq<Call>, added: seq<Call>, b: nat, m: nat)
    requires Before(calls, b, m) && At(added, b, m)
    requires exists k: nat :: Final(calls + added, k) && SaysBilling(env, env.reply(k))
    ensures BilledBy(env, calls, b, m) || (added != [] && SaysBilling(env, env.reply(|calls + added| - 1)))
  {
    var k: nat :| Final(calls + added, k) && SaysBilling(env, env.reply(k));
    FinalStays(calls, added, b, m, k);
    if k < |calls| {
      assert !Earlier(b, m, calls[k].arm, calls[k].task);
    }
  }

  lemma LimitedNow(env: Env, calls: seq<Call>, added: seq<Call>, b: nat, m: nat)
    requires Before(calls, b, m) && At(added, b, m)
    ensures var now := LimitedBy(env, calls, b, m) || (added != [] && SaysLimit(env, env.reply(|calls + added| - 1)));
      && (LimitedBy(env, calls + added, b, m) <==> now) && (LimitedBy(env, calls + added, b, m + 1) <==> now)
  {
    var all := calls + added;
    if k: nat :| Final(calls, k) && SaysLimit(env, env.reply(k)) && calls[k].arm == b && calls[k].task <= m {
      FinalStays(calls, added, b, m, k);
      assert all[k] == calls[k];
    }
    if added != [] && SaysLimit(env, env.reply(|all| - 1)) {
      FinalStays(calls, added, b, m, |all| - 1);
      assert all[|all| - 1] == added[|added| - 1];
    }
    if k: nat :| Final(all, k) && SaysLimit(env, env.reply(k)) && all[k].arm == b {
      FinalStays(calls, added, b, m, k);
      if k < |calls| {
        assert all[k] == calls[k] && Earlier(calls[k].arm, calls[k].task, b, m);
      }
    }
  }

  // ---------------------------------------------------------------- rows of an arm

  /** A row that was not run says why and counts nothing. */
  ghost predicate SaysWhy(task: Task, row: Row) {
    && row.taskId == task.id && row.cls == task.cls && row.distance == 0.0 && row.cost == 0.0 && !row.parseOk && row.text == ""
    && match row.notRun
       case None => false
       case Some(reason) =>
         if reason == "spend_cap" then row.error == Some("not_run: spend_cap") && row.usage == Usage(0, 0, 0, 0.0, false)
         else if reason == "rate_limit" then row.error == Some("rate_limit") && row.usage == Usage(0, 0, 0, 0.0, false)
         else
           reason == "aborted" && row.error.Some?
           && ((row.error.value == "aborted" && row.usage == Usage(0, 0, 0, 0.0, false))
               || (|row.error.value| >= 8 && row.error.value[..8] == "billing:"))
  }

  /** Rows so far: those not carried have the fate the calls call for. */
  ghost predicate Fated(env: Env, resumed: map<string, Row>, tasks: seq<Task>, s: State) {
    && |s.rows| == |tasks|
    && forall i :: 0 <= i < |tasks| && tasks[i].id !in resumed ==>
         && s.rows[i].notRun == Fate(env, s.calls, |s.arms|, i) && (s.rows[i].notRun.Some? ==> SaysWhy(tasks[i], s.rows[i]))
  }

  lemma RowNow(env: Env, spec: Spec, resumed: map<string, Row>, task: Task, st: State)
    requires Knows(env, st) && task.id !in resumed
    ensures var st' := TaskStep(env, spec, resumed, task, st);
      && st'.rows[|st.rows|].notRun == Fate(env, st'.calls, |st.arms|, |st.rows|)
      && (st'.rows[|st.rows|].notRun.Some? ==> SaysWhy(task, st'.rows[|st.rows|]))
  {
    var st' := TaskStep(env, spec, resumed, task, st);
    var n, c := StepEnds(env, spec, resumed, task, st);
    RowByFlags(env, spec, resumed, task, st);
    FateByFlags(env, st, st', n, c);
  }

  lemma FateByFlags(env: Env, st: State, st': State, n: nat, c: real)
    requires Knows(env, st) && Ends(env, st, st', n, c)
    ensures Fate(env, st'.calls, |st.arms|, |st.rows|)
         == if st'.aborted then Some("aborted") else if st'.stopped then Some("rate_limit")
            else if Capped(env, st) then Some("spend_cap") else None
  {
    StepKnows(env, st, st', n, c);
    CapsAgree(env, st, Calls(|st.arms|, |st.rows|, st, n, c));
  }

  lemma CapsAgree(env: Env, st: State, added: seq<Call>)
    requires Knows(env, st) && At(added, |st.arms|, |st.rows|)
    ensures CapReached(env, st.calls + added, |st.arms|, |st.rows|) <==> Capped(env, st)
  {
    SpentStays(st.calls, added, |st.arms|, |st.rows|);
  }

  /** The new row follows the run's flags after the step, then the caps before it. */
  lemma RowByFlags(env: Env, spec: Spec, resumed: map<string, Row>, task: Task, st: State)
    requires task.id !in resumed
    ensures var st' := TaskStep(env, spec, resumed, task, st);
      && |st'.rows| == |st.rows| + 1
      && var row := st'.rows[|st.rows|];
        && row.notRun == (if st'.aborted then Some("aborted") else if st'.stopped then Some("rate_limit")
                          else if Capped(env, st) then Some("spend_cap") else None)
        && (row.notRun.Some? ==> SaysWhy(task, row))
  {
    BillingIsNoLimit();
  }

  lemma {:induction false} ArmFated(env: Env, spec: Spec, resumed: map<string, Row>, tasks: seq<Task>, st: State)
    requires Knows(env, st) && st.rows == []
    ensures var s := ArmTasks(env, spec, resumed, tasks, st);
      Knows(env, s) && Fated(env, resumed, tasks, s) && s.arms == st.arms && st.calls <= s.calls
    decreases |tasks|
  {
    if tasks != [] {
      var n := |tasks| - 1;
      ArmFated(env, spec, resumed, tasks[..n], st);
      var s := ArmTasks(env, spec, resumed, tasks[..n], st);
      FatedStep(env, spec, resumed, tasks[..n], tasks[n], s);
      assert tasks == tasks[..n] + [tasks[n]];
    }
  }

  lemma FatedStep(env: Env, spec: Spec, resumed: map<string, Row>, tasks: seq<Task>, task: Task, s: State)
    requires Knows(env, s) && Fated(env, resumed, tasks, s)
    ensures var s' := TaskStep(env, spec, resumed, task, s);
      Knows(env, s') && Fated(env, resumed, tasks + [task], s') && s'.arms == s.arms && s.calls <= s'.calls
  {
    var s' := TaskStep(env, spec, resumed, task, s);
    var n, c := StepEnds(env, spec, resumed, task, s);
    StepKnows(env, s, s', n, c);
    var added := Calls(|s.arms|, |s.rows|, s, n, c);
    forall i | 0 <= i < |tasks| + 1 && (tasks + [task])[i].id !in resumed
      ensures s'.rows[i].notRun == Fate(env, s'.calls, |s'.arms|, i)
      ensures s'.rows[i].notRun.Some? ==> SaysWhy((tasks + [task])[i], s'.rows[i])
    {
      if i < |tasks| {
        FateStays(env, s.calls, added, |s.arms|, i, |s.arms|, |s.rows|);
        OldRow(env, spec, resumed, task, s, i);
      } else {
        RowNow(env, spec, resumed, task, s);
      }
    }
  }

  lemma OldRow(env: Env, spec: Spec, resumed: map<string, Row>, task: Task, s: State, i: nat)
    requires i < |s.rows|
    ensures i < |TaskStep(env, spec, resumed, task, s).rows| && TaskStep(env, spec, resumed, task, s).rows[i] == s.rows[i]
  {
  }

  // ---------------------------------------------------------------- the whole run

  lemma NextArmKnows(env: Env, s: State)
    requires Knows(env, s)
    ensures Knows(env, ArmStart(ArmEnd(s)))
  {
    NextArmIs(s);
    NewArmSpends(s.calls, |s.arms|, |s.rows|);
    NewArmBilled(env, s.calls, |s.arms|, |s.rows|);
  }

  lemma NextArmIs(s: State)
    ensures var s' := ArmStart(ArmEnd(s));
      && s'.calls == s.calls && |s'.arms| == |s.arms| + 1 && s'.rows == []
      && s'.aborted == s.aborted && !s'.stopped && s'.spent == s.spent && s'.armSpent == 0.0
  {
  }

  lemma NewArmBilled(env: Env, calls: seq<Call>, b: nat, m: nat)
    requires Before(calls, b, m)
    ensures Before(calls, b + 1, 0) && !LimitedBy(env, calls, b + 1, 0)
    ensures BilledBy(env, calls, b + 1, 0) <==> BilledBy(env, calls, b, m)
  {
    assert forall k :: 0 <= k < |calls| ==> !Earlier(b, m, calls[k].arm, calls[k].task);
    assert forall k :: 0 <= k < |calls| ==> !Earlier(b + 1, 0, calls[k].arm, calls[k].task);
  }

  lemma {:induction false} NewArmSpends(calls: seq<Call>, b: nat, m: nat)
    requires Before(calls, b, m)
    ensures SpentBefore(calls, b + 1, 0) == SpentBefore(calls, b, m) && ArmSpentBefore(calls, b + 1, 0) == 0.0
    decreases |calls|
  {
    if calls != [] {
      NewArmSpends(calls[..|calls| - 1], b, m);
    }
  }

  lemma {:induction false} ArmKeepsFate(env: Env, spec: Spec, resumed: map<string, Row>, tasks: seq<Task>, st: State,
                                        a: nat, i: nat)
    requires Knows(env, st) && st.rows == [] && a < |st.arms|
    ensures Fate(env, ArmTasks(env, spec, resumed, tasks, st).calls, a, i) == Fate(env, st.calls, a, i)
    decreases |tasks|
  {
    if tasks != [] {
      var n := |tasks| - 1;
      ArmKeepsFate(env, spec, resumed, tasks[..n], st, a, i);
      ArmFated(env, spec, resumed, tasks[..n], st);
      var s := ArmTasks(env, spec, resumed, tasks[..n], st);
      var asked, c := StepEnds(env, spec, resumed, tasks[n], s);
      FateStays(env, s.calls, Calls(|s.arms|, |s.rows|, s, asked, c), a, i, |s.arms|, |s.rows|);
    }
  }

  lemma {:induction false} RunKnows(env: Env, specs: seq<Spec>, tasks: seq<Task>, ledger: map<string, seq<Row>>)
    ensures Knows(env, ArmStart(Arms(env, specs, tasks, ledger)))
    decreases |specs|
  {
    if specs != [] {
      var n := |specs| - 1;
      RunKnows(env, specs[..n], tasks, ledger);
      var st := ArmStart(Arms(env, specs[..n], tasks, ledger));
      var resumed := Resumed(PriorOf(ledger, specs[n].name));
      ArmFated(env, specs[n], resumed, tasks, st);
      NextArmKnows(env, ArmTasks(env, specs[n], resumed, tasks, st));
    }
  }

  lemma {:induction false} RowFate(env: Env, specs: seq<Spec>, tasks: seq<Task>, ledger: map<string, seq<Row>>,
                                   a: nat, i: nat)
    requires a < |specs| && i < |tasks| && tasks[i].id !in Resumed(PriorOf(ledger, specs[a].name))
    ensures HasFate(env, Arms(env, specs, tasks, ledger), tasks[i], a, i)
    decreases |specs|
  {
    var n := |specs| - 1;
    if a < n {
      RowFate(env, specs[..n], tasks, ledger, a, i);
    }
    RowFateLast(env, specs[..n], specs[n], tasks, ledger, a, i);
  }

  lemma RowFateLast(env: Env, specs: seq<Spec>, spec: Spec, tasks: seq<Task>, ledger: map<string, seq<Row>>, a: nat, i: nat)
    requires a <= |specs| && i < |tasks|
    requires a < |specs| ==> HasFate(env, Arms(env, specs, tasks, ledger), tasks[i], a, i)
    requires a == |specs| ==> tasks[i].id !in Resumed(PriorOf(ledger, spec.name))
    ensures HasFate(env, ArmRun(env, spec, tasks, ledger, Arms(env, specs, tasks, ledger)), tasks[i], a, i)
  {
    RunKnows(env, specs, tasks, ledger);
    OneArmPerSpec(env, specs, tasks, ledger);
    RowFateNext(env, spec, Resumed(PriorOf(ledger, spec.name)), tasks, Arms(env, specs, tasks, ledger), a, i);
  }

  ghost predicate HasFate(env: Env, s: State, task: Task, a: nat, i: nat) {
    && a < |s.arms| && i < |s.arms[a]| && s.arms[a][i].notRun == Fate(env, s.calls, a, i)
    && (s.arms[a][i].notRun.Some? ==> SaysWhy(task, s.arms[a][i]))
  }

  lemma RowFateNext(env: Env, spec: Spec, resumed: map<string, Row>, tasks: seq<Task>, before: State, a: nat, i: nat)
    requires Knows(env, ArmStart(before)) && a <= |before.arms| && i < |tasks|
    requires if a < |before.arms| then HasFate(env, before, tasks[i], a, i) else tasks[i].id !in resumed
    ensures HasFate(env, ArmEnd(ArmTasks(env, spec, resumed, tasks, ArmStart(before))), tasks[i], a, i)
  {
    ArmFated(env, spec, resumed, tasks, ArmStart(before));
    if a < |before.arms| {
      ArmKeepsFate(env, spec, resumed, tasks, ArmStart(before), a, i);
    }
  }

  // ---------------------------------------------------------------- the report

  function RowAt(r: Report, specs: seq<Spec>, a: nat, i: nat): Option<Row> {
    if a < |specs| && specs[a].name in r.detail && i < |r.detail[specs[a].name]|
    then Some(r.detail[specs[a].name][i]) else None
  }

  /** Each row that is not carried from the ledger: aborted exactly when a task at or before it
      ended with a billing reply; otherwise rate limited exactly when one of its arm ended so;
      otherwise over the cap exactly when what was spent before it reached a cap; otherwise run. */
  lemma RowsHaveTheirFate(env: Env, specs: seq<Spec>, tasks: seq<Task>, ledger: map<string, seq<Row>>, a: nat, i: nat)
    requires DistinctNames(specs) && a < |specs| && i < |tasks|
    requires tasks[i].id !in Resumed(PriorOf(ledger, specs[a].name))
    ensures var r := ReportOf(env, specs, tasks, ledger);
      var billed, limited := BilledBy(env, r.calls, a, i), LimitedBy(env, r.calls, a, i);
      && RowAt(r, specs, a, i).Some?
      && var notRun := RowAt(r, specs, a, i).value.notRun;
        && (notRun == Some("aborted") <==> billed) && (notRun == Some("rate_limit") <==> !billed && limited)
        && (notRun == Some("spend_cap") <==> !billed && !limited && CapReached(env, r.calls, a, i))
        && (notRun == None <==> !billed && !limited && !CapReached(env, r.calls, a, i))
        && (notRun.Some? ==> SaysWhy(tasks[i], RowAt(r, specs, a, i).value))
  {
    RowFate(env, specs, tasks, ledger, a, i);
    ReportRows(env, specs, tasks, ledger);
  }

  /** Every call is for a task that is not carried, and later ones are for later tasks or retries. */
  lemma CallsAreFresh(env: Env, specs: seq<Spec>, tasks: seq<Task>, ledger: map<string, seq<Row>>, k: nat)
    requires k < |ReportOf(env, specs, tasks, ledger).calls|
    ensures var calls := ReportOf(env, specs, tasks, ledger).calls;
      && CallOk(calls[k], specs, tasks, ledger)
      && forall m :: k < m < |calls| ==> !Earlier(calls[m].arm, calls[m].task, calls[k].arm, calls[k].task)
  {
    RunRows(env, specs, tasks, ledger);
    RunIsGood(env, specs, tasks, ledger);
  }

  /** A reply with a billing error ends the run: no call follows it on any arm, its row is aborted
      and the exit code is 1. */
  lemma BillingEndsTheRun(env: Env, specs: seq<Spec>, tasks: seq<Task>, ledger: map<string, seq<Row>>, k: nat)
    requires DistinctNames(specs) && Final(ReportOf(env, specs, tasks, ledger).calls, k) && SaysBilling(env, env.reply(k))
    ensures var r := ReportOf(env, specs, tasks, ledger);
      && k == |r.calls| - 1 && r.exitCode == 1
      && RowAt(r, specs, r.calls[k].arm, r.calls[k].task).Some?
      && RowAt(r, specs, r.calls[k].arm, r.calls[k].task).value.notRun == Some("aborted")
  {
    var r := ReportOf(env, specs, tasks, ledger);
    var a, i := r.calls[k].arm, r.calls[k].task;
    CallsAreFresh(env, specs, tasks, ledger, k);
    assert BilledBy(env, r.calls, a, i);
    RowsHaveTheirFate(env, specs, tasks, ledger, a, i);
    NotRunExits(env, specs, tasks, ledger, a, i);
    if k + 1 < |r.calls| {
      NoCallAfterAborted(env, specs, tasks, ledger, a, i, k + 1);
    }
  }

  lemma NotRunExits(env: Env, specs: seq<Spec>, tasks: seq<Task>, ledger: map<string, seq<Row>>, a: nat, i: nat)
    requires DistinctNames(specs)
    requires RowAt(ReportOf(env, specs, tasks, ledger), specs, a, i).Some?
    requires RowAt(ReportOf(env, specs, tasks, ledger), specs, a, i).value.notRun.Some?
    ensures ReportOf(env, specs, tasks, ledger).exitCode == 1
  {
    ExitCodeTells(env, specs, tasks, ledger);
  }

  lemma NoCallAfterAborted(env: Env, specs: seq<Spec>, tasks: seq<Task>, ledger: map<string, seq<Row>>, a: nat, i: nat,
                           m: nat)
    requires DistinctNames(specs) && m < |ReportOf(env, specs, tasks, ledger).calls| && a < |specs| && i < |tasks|
    requires var c := ReportOf(env, specs, tasks, ledger).calls[m]; Earlier(a, i, c.arm, c.task)
    ensures RowAt(ReportOf(env, specs, tasks, ledger), specs, a, i).Some?
    ensures RowAt(ReportOf(env, specs, tasks, ledger), specs, a, i).value.notRun != Some("aborted")
    ensures a == ReportOf(env, specs, tasks, ledger).calls[m].arm ==>
      RowAt(ReportOf(env, specs, tasks, ledger), specs, a, i).value.notRun != Some("rate_limit")
  {
    var c := ReportOf(env, specs, tasks, ledger).calls[m];
    var st := ArmStart(Arms(env, specs, tasks, ledger));
    RunIsGood(env, specs, tasks, ledger);
    ReportRows(env, specs, tasks, ledger);
    assert Allowed(st, c.arm, c.task);
    assert RowsOf(st, a)[i].notRun != Some("aborted");
  }

  /** A task that ends rate limited ends its arm: no later call is on it, its row is rate limited
      and the exit code is 1. */
  lemma LimitEndsTheArm(env: Env, specs: seq<Spec>, tasks: seq<Task>, ledger: map<string, seq<Row>>, k: nat)
    requires DistinctNames(specs) && Final(ReportOf(env, specs, tasks, ledger).calls, k) && SaysLimit(env, env.reply(k))
    ensures var r := ReportOf(env, specs, tasks, ledger);
      && (forall m :: k < m < |r.calls| ==> r.calls[m].arm != r.calls[k].arm) && r.exitCode == 1
      && RowAt(r, specs, r.calls[k].arm, r.calls[k].task).Some?
      && RowAt(r, specs, r.calls[k].arm, r.calls[k].task).value.notRun == Some("rate_limit")
  {
    var r := ReportOf(env, specs, tasks, ledger);
    var a, i := r.calls[k].arm, r.calls[k].task;
    CallsAreFresh(env, specs, tasks, ledger, k);
    assert LimitedBy(env, r.calls, a, i);
    NotBilled(env, specs, tasks, ledger, k);
    RowsHaveTheirFate(env, specs, tasks, ledger, a, i);
    NotRunExits(env, specs, tasks, ledger, a, i);
    forall m | k < m < |r.calls| ensures r.calls[m].arm != a {
      if r.calls[m].arm == a {
        LaterTask(env, specs, tasks, ledger, k, m);
        NoCallAfterAborted(env, specs, tasks, ledger, a, i, m);
      }
    }
  }

  lemma LaterTask(env: Env, specs: seq<Spec>, tasks: seq<Task>, ledger: map<string, seq<Row>>, k: nat, m: nat)
    requires var calls := ReportOf(env, specs, tasks, ledger).calls; Final(calls, k) && k < m < |calls|
    ensures var calls := ReportOf(env, specs, tasks, ledger).calls;
      Earlier(calls[k].arm, calls[k].task, calls[m].arm, calls[m].task)
  {
    CallsAreFresh(env, specs, tasks, ledger, k);
    CallsAreFresh(env, specs, tasks, ledger, k + 1);
  }

  lemma NotBilled(env: Env, specs: seq<Spec>, tasks: seq<Task>, ledger: map<string, seq<Row>>, k: nat)
    requires DistinctNames(specs) && Final(ReportOf(env, specs, tasks, ledger).calls, k) && SaysLimit(env, env.reply(k))
    ensures var calls := ReportOf(env, specs, tasks, ledger).calls;
      !BilledBy(env, calls, calls[k].arm, calls[k].task)
  {
    var calls := ReportOf(env, specs, tasks, ledger).calls;
    BillingIsNoLimit();
    if j: nat :| Final(calls, j) && SaysBilling(env, env.reply(j)) && !Earlier(calls[k].arm, calls[k].task, calls[j].arm, calls[j].task) {
      BillingEndsTheRun(env, specs, tasks, ledger, j);
      assert k < j;
      LaterTask(env, specs, tasks, ledger, k, j);
    }
  }

  // ---------------------------------------------------------------- retries

  ghost predicate SameTask(calls: seq<Call>, j: int, k: int) {
    0 <= j < |calls| && 0 <= k < |calls| && calls[j].arm == calls[k].arm && calls[j].task == calls[k].task
  }

  /** Every call but a task's last was rate limited, and a last one that was is the third. */
  ghost predicate Retried(env: Env, calls: seq<Call>) {
    forall k: nat :: k < |calls| ==> RetriedAt(env, calls, k)
  }

  ghost predicate RetriedAt(env: Env, calls: seq<Call>, k: nat) {
    if Final(calls, k) then env.reply(k).error == "rate_limit" ==> SameTask(calls, k - 2, k) && SameTask(calls, k - 1, k)
    else env.reply(k).error == "rate_limit"
  }

  lemma {:induction false} AskedThrice(env: Env, k: nat, hits: nat)
    requires hits <= 2
    ensures env.reply(k + Asks(env, k, hits) - 1).error == "rate_limit" ==> Asks(env, k, hits) == 3 - hits
    decreases 2 - hits
  {
    if env.reply(k).error == "rate_limit" && hits < 2 {
      AskedThrice(env, k + 1, hits + 1);
    }
  }

  lemma RetriedStep(env: Env, st: State, n: nat, c: real)
    requires Retried(env, st.calls) && Before(st.calls, |st.arms|, |st.rows|)
    requires n > 0 ==> n == Asks(env, |st.calls|, 0)
    ensures Retried(env, st.calls + Calls(|st.arms|, |st.rows|, st, n, c))
  {
    var added := Calls(|st.arms|, |st.rows|, st, n, c);
    var all := st.calls + added;
    forall k: nat | k < |all| ensures RetriedAt(env, all, k) {
      FinalStays(st.calls, added, |st.arms|, |st.rows|, k);
      if k < |st.calls| {
        assert RetriedAt(env, st.calls, k);
        assert forall j :: 0 <= j < |st.calls| ==> all[j] == st.calls[j];
      } else {
        AskedWhileLimited(env, |st.calls|, 0);
        AskedThrice(env, |st.calls|, 0);
      }
    }
  }

  lemma {:induction false} ArmRetries(env: Env, spec: Spec, resumed: map<string, Row>, tasks: seq<Task>, st: State)
    requires Knows(env, st) && st.rows == [] && Retried(env, st.calls)
    ensures Retried(env, ArmTasks(env, spec, resumed, tasks, st).calls)
    decreases |tasks|
  {
    if tasks != [] {
      var n := |tasks| - 1;
      ArmRetries(env, spec, resumed, tasks[..n], st);
      ArmFated(env, spec, resumed, tasks[..n], st);
      var s := ArmTasks(env, spec, resumed, tasks[..n], st);
      var asked, c := StepEnds(env, spec, resumed, tasks[n], s);
      RetriedStep(env, s, asked, c);
    }
  }

  /** In the whole run a task is asked again exactly while its reply is rate limited, and given up
      after its third. */
  lemma {:induction false} RetriesAreExact(env: Env, specs: seq<Spec>, tasks: seq<Task>, ledger: map<string, seq<Row>>)
    ensures Retried(env, Arms(env, specs, tasks, ledger).calls)
    decreases |specs|
  {
    if specs != [] {
      var n := |specs| - 1;
      RetriesAreExact(env, specs[..n], tasks, ledger);
      RunKnows(env, specs[..n], tasks, ledger);
      var st := ArmStart(Arms(env, specs[..n], tasks, ledger));
      ArmRetries(env, specs[n], Resumed(PriorOf(ledger, specs[n].name)), tasks, st);
    }
  }

  // ---------------------------------------------------------------- the run's flag

  ghost predicate HasRow(st: State, reason: string) {
    exists b, j :: 0 <= b && 0 <= j < |RowsOf(st, b)| && RowsOf(st, b)[j].notRun == Some(reason)
  }

  /** The run is marked aborted exactly when it is, and its mark is the reason of some row. */
  ghost predicate Marked(st: State) {
    && (st.aborted <==> st.partial == Some("aborted"))
    && (st.partial.Some? ==> st.partial.value in {"aborted", "rate_limit", "spend_cap"} && HasRow(st, st.partial.value))
  }

  lemma RowStays(st: State, row: Row, st': State, reason: string)
    requires st'.arms == st.arms && st'.rows == st.rows + [row]
    ensures HasRow(st, reason) || row.notRun == Some(reason) ==> HasRow(st', reason)
  {
    if b: nat, j: nat :| j < |RowsOf(st, b)| && RowsOf(st, b)[j].notRun == Some(reason) {
      RowsOfStep(st, row, st', b);
      assert RowsOf(st', b)[j].notRun == Some(reason);
    }
    if row.notRun == Some(reason) {
      RowsOfStep(st, row, st', |st.arms|);
      assert RowsOf(st', |st.arms|)[|st.rows|].notRun == Some(reason);
    }
  }

  lemma StepMarks(env: Env, spec: Spec, resumed: map<string, Row>, task: Task, st: State)
    requires Marked(st)
    ensures Marked(TaskStep(env, spec, resumed, task, st))
  {
    var st' := TaskStep(env, spec, resumed, task, st);
    var row := st'.rows[|st.rows|];
    assert st'.rows == st.rows + [row];
    if st'.partial.Some? {
      RowStays(st, row, st', st'.partial.value);
    }
  }

  lemma {:induction false} ArmMarks(env: Env, spec: Spec, resumed: map<string, Row>, tasks: seq<Task>, st: State)
    requires Marked(st)
    ensures Marked(ArmTasks(env, spec, resumed, tasks, st))
    decreases |tasks|
  {
    if tasks != [] {
      var n := |tasks| - 1;
      ArmMarks(env, spec, resumed, tasks[..n], st);
      StepMarks(env, spec, resumed, tasks[n], ArmTasks(env, spec, resumed, tasks[..n], st));
    }
  }

  lemma NextArmMarked(st: State)
    requires Marked(st)
    ensures Marked(ArmStart(ArmEnd(st)))
  {
    forall b: nat ensures RowsOf(ArmStart(ArmEnd(st)), b) == RowsOf(st, b) {
      RowsOfNextArm(st, b);
    }
    if st.partial.Some? {
      var b: nat, j: nat :| j < |RowsOf(st, b)| && RowsOf(st, b)[j].notRun == st.partial;
      assert RowsOf(ArmStart(ArmEnd(st)), b)[j].notRun == st.partial;
    }
  }

  lemma {:induction false} RunMarks(env: Env, specs: seq<Spec>, tasks: seq<Task>, ledger: map<string, seq<Row>>)
    ensures Marked(ArmStart(Arms(env, specs, tasks, ledger)))
    decreases |specs|
  {
    if specs != [] {
      var n := |specs| - 1;
      RunMarks(env, specs[..n], tasks, ledger);
      var st, resumed := ArmStart(Arms(env, specs[..n], tasks, ledger)), Resumed(PriorOf(ledger, specs[n].name));
      ArmMarks(env, specs[n], resumed, tasks, st);
      NextArmMarked(ArmTasks(env, specs[n], resumed, tasks, st));
    }
  }

  /** The report is marked `aborted` exactly when some task ended with a billing reply; any mark it has
      is the reason why some row was not run. */
  lemma AbortedExactlyWhenBilled(env: Env, specs: seq<Spec>, tasks: seq<Task>, ledger: map<string, seq<Row>>)
    ensures var r := ReportOf(env, specs, tasks, ledger);
      && (r.partial == Some("aborted") <==> exists k: nat :: Final(r.calls, k) && SaysBilling(env, env.reply(k)))
      && (r.partial.Some? ==> HasRow(ArmStart(Arms(env, specs, tasks, ledger)), r.partial.value))
  {
    RunMarks(env, specs, tasks, ledger);
    RunKnows(env, specs, tasks, ledger);
    var st := ArmStart(Arms(env, specs, tasks, ledger));
    if k: nat :| Final(st.calls, k) && SaysBilling(env, env.reply(k)) {
      assert !Earlier(|st.arms|, 0, st.calls[k].arm, st.calls[k].task);
    }
  }
}
