/** What a benchmark run promises over all replies: one row per task per arm, bounded calls,
    spend caps, stops that hold, an exit code that tells, and a ledger that is resumed. */
module RunSafety {
  import opened Common
  import opened RunSpec

  // ---------------------------------------------------------------- one step, seen from outside

  /** A step adds one row and the `n` calls it made; calls cost `c` together. */
  ghost predicate Shape(env: Env, task: Task, st: State, row: Row, n: nat, c: real, st': State) {
    && st'.arms == st.arms && st'.rows == st.rows + [row] && row.taskId == task.id
    && n <= RETRIES + 1 && st'.calls == st.calls + Calls(|st.arms|, |st.rows|, st, n, c)
    && (n > 0 ==> !st.aborted && !st.stopped && !Capped(env, st))
    && (n == 0 ==> c == 0.0) && st'.spent == st.spent + c && st'.armSpent == st.armSpent + c
    && (st.aborted ==> st'.aborted) && (st.stopped ==> st'.stopped)
    && (row.notRun == Some("aborted") ==> st'.aborted)
    && (row.notRun == Some("rate_limit") ==> st'.stopped)
    && (st'.aborted && !st.aborted ==> st'.partial.Some?) && (st'.stopped && !st.stopped ==> st'.partial.Some?)
    && (row.notRun.None? ==> st'.partial == st.partial)
    && (row.notRun.Some? ==> st'.partial.Some? || (st.aborted || st.stopped))
    && (st.partial.Some? ==> st'.partial.Some?)
  }

  ghost predicate ResumedOk(resumed: map<string, Row>) {
    forall id :: id in resumed ==> Completed(resumed[id]) && resumed[id].taskId == id
  }

  lemma {:induction false} ResumedIsCompleted(prior: seq<Row>)
    ensures ResumedOk(Resumed(prior))
    decreases |prior|
  {
    if prior != [] {
      ResumedIsCompleted(prior[..|prior| - 1]);
    }
  }

  lemma AnsweredShape(env: Env, spec: Spec, task: Task, reply: Reply, n: nat, st: State)
    returns (row: Row, c: real)
    requires 1 <= n <= RETRIES + 1 && !st.aborted && !st.stopped && !Capped(env, st)
    ensures Shape(env, task, st, row, n, c, Answered(env, spec, task, reply, |st.arms|, n, st)) && row.cost == c
  {
    var st' := Answered(env, spec, task, reply, |st.arms|, n, st);
    row := st'.rows[|st.rows|];
    c := if ErrorOf(env, reply) == "" then env.cost(spec, reply) else 0.0;
  }

  lemma TaskShape(env: Env, spec: Spec, resumed: map<string, Row>, task: Task, st: State)
    returns (row: Row, n: nat, c: real)
    requires ResumedOk(resumed)
    ensures Shape(env, task, st, row, n, c, TaskStep(env, spec, resumed, task, st))
    ensures task.id in resumed ==> n == 0 && row == resumed[task.id]
    ensures task.id !in resumed ==> row.cost == c
  {
    var st' := TaskStep(env, spec, resumed, task, st);
    if task.id in resumed || st.aborted || st.stopped || Capped(env, st) {
      row, n, c := st'.rows[|st.rows|], 0, 0.0;
      assert Calls(|st.arms|, |st.rows|, st, 0, 0.0) == [];
    } else {
      n := Asks(env, |st.calls|, 0);
      row, c := AnsweredShape(env, spec, task, env.reply(|st.calls| + n - 1), n, st);
    }
  }

  // ---------------------------------------------------------------- the invariant

  function Sum(calls: seq<Call>): real {
    if calls == [] then 0.0 else Sum(calls[..|calls| - 1]) + calls[|calls| - 1].cost
  }

  function SumArm(calls: seq<Call>, arm: nat): real {
    if calls == [] then 0.0
    else
      var n := |calls| - 1;
      SumArm(calls[..n], arm) + if calls[n].arm == arm then calls[n].cost else 0.0
  }

  /** Every call records what was spent before it, and was made below both caps. */
  ghost predicate Spending(env: Env, st: State) {
    && (forall k :: 0 <= k < |st.calls| ==> UnderCaps(env, st.calls, k))
    && st.spent == Sum(st.calls) && st.armSpent == SumArm(st.calls, |st.arms|)
  }

  ghost predicate UnderCaps(env: Env, calls: seq<Call>, k: nat)
    requires k < |calls|
  {
    && calls[k].spent == Sum(calls[..k]) && calls[k].armSpent == SumArm(calls[..k], calls[k].arm)
    && (env.maxUsd.Some? ==> Sum(calls[..k]) < env.maxUsd.value)
    && (env.maxUsdPerArm.Some? ==> SumArm(calls[..k], calls[k].arm) < env.maxUsdPerArm.value)
  }

  predicate Earlier(a: nat, i: nat, b: nat, j: nat) {
    a < b || (a == b && i < j)
  }

  /** Calls go through arms and tasks in order, at most three for one task. */
  ghost predicate InOrder(st: State) {
    && (forall j, k :: 0 <= j < k < |st.calls| ==>
          !Earlier(st.calls[k].arm, st.calls[k].task, st.calls[j].arm, st.calls[j].task))
    && (forall j, k :: 0 <= j && j + 3 <= k < |st.calls| ==>
          Earlier(st.calls[j].arm, st.calls[j].task, st.calls[k].arm, st.calls[k].task))
    && (forall k :: 0 <= k < |st.calls| ==>
          Earlier(st.calls[k].arm, st.calls[k].task, |st.arms|, |st.rows|))
  }

  function RowsOf(st: State, a: nat): seq<Row> {
    if a < |st.arms| then st.arms[a] else if a == |st.arms| then st.rows else []
  }

  /** No earlier row of the arm was rate limited and no earlier row of any arm was aborted. */
  ghost predicate Allowed(st: State, a: nat, i: nat) {
    && (forall j :: 0 <= j < i && j < |RowsOf(st, a)| ==> RowsOf(st, a)[j].notRun != Some("rate_limit"))
    && (forall b, j :: 0 <= b && 0 <= j < |RowsOf(st, b)| && Earlier(b, j, a, i) ==>
          RowsOf(st, b)[j].notRun != Some("aborted"))
  }

  ghost predicate StopsHold(st: State) {
    && (forall k :: 0 <= k < |st.calls| ==> Allowed(st, st.calls[k].arm, st.calls[k].task))
    && (!st.stopped ==> forall j :: 0 <= j < |st.rows| ==> st.rows[j].notRun != Some("rate_limit"))
    && (!st.aborted ==> forall b, j :: 0 <= b && 0 <= j < |RowsOf(st, b)| ==>
          RowsOf(st, b)[j].notRun != Some("aborted"))
  }

  ghost predicate SomeNotRun(st: State) {
    exists b, j :: 0 <= b && 0 <= j < |RowsOf(st, b)| && RowsOf(st, b)[j].notRun.Some?
  }

  ghost predicate Telling(st: State) {
    && (st.partial.Some? <==> SomeNotRun(st))
    && (st.aborted || st.stopped ==> st.partial.Some?)
  }

  ghost predicate Good(env: Env, st: State) {
    Spending(env, st) && InOrder(st) && StopsHold(st) && Telling(st)
  }

  // ---------------------------------------------------------------- each step keeps it

  lemma {:induction false} SumOfCalls(calls: seq<Call>, arm: nat, task: nat, st: State, n: nat, c: real)
    requires n == 0 ==> c == 0.0
    ensures Sum(calls + Calls(arm, task, st, n, c)) == Sum(calls) + c
    ensures SumArm(calls + Calls(arm, task, st, n, c), arm) == SumArm(calls, arm) + c
    decreases n
  {
    var added := Calls(arm, task, st, n, c);
    if n == 0 {
      assert calls + added == calls;
    } else {
      assert (calls + added)[..|calls| + n - 1] == calls + Calls(arm, task, st, n - 1, 0.0) by {
        assert added[..n - 1] == Calls(arm, task, st, n - 1, 0.0);
      }
      SumOfCalls(calls, arm, task, st, n - 1, 0.0);
    }
  }

  lemma SpendingKept(env: Env, task: Task, st: State, row: Row, n: nat, c: real, st': State)
    requires Shape(env, task, st, row, n, c, st') && Spending(env, st)
    ensures Spending(env, st')
  {
    SumOfCalls(st.calls, |st.arms|, |st.rows|, st, n, c);
    forall k | 0 <= k < |st'.calls| ensures UnderCaps(env, st'.calls, k) {
      if k < |st.calls| {
        assert UnderCaps(env, st.calls, k);
        assert st'.calls[..k] == st.calls[..k];
      } else {
        var m := k - |st.calls|;
        var before := Calls(|st.arms|, |st.rows|, st, m, 0.0);
        assert st'.calls[..k] == st.calls + before;
        SumOfCalls(st.calls, |st.arms|, |st.rows|, st, m, 0.0);
      }
    }
  }

  lemma InOrderKept(env: Env, task: Task, st: State, row: Row, n: nat, c: real, st': State)
    requires Shape(env, task, st, row, n, c, st') && InOrder(st)
    ensures InOrder(st')
  {
    forall k | |st.calls| <= k < |st'.calls|
      ensures st'.calls[k].arm == |st.arms| && st'.calls[k].task == |st.rows|
    {
    }
  }

  lemma RowsOfStep(st: State, row: Row, st': State, b: nat)
    requires st'.arms == st.arms && st'.rows == st.rows + [row]
    ensures RowsOf(st', b) == if b == |st.arms| then RowsOf(st, b) + [row] else RowsOf(st, b)
  {
  }

  lemma AllowedKept(st: State, row: Row, st': State, a: nat, i: nat)
    requires st'.arms == st.arms && st'.rows == st.rows + [row]
    requires Allowed(st, a, i) && !Earlier(|st.arms|, |st.rows|, a, i)
    ensures Allowed(st', a, i)
  {
    forall b ensures RowsOf(st', b) == if b == |st.arms| then RowsOf(st, b) + [row] else RowsOf(st, b) {
      RowsOfStep(st, row, st', b);
    }
  }

  lemma StopsKept(env: Env, task: Task, st: State, row: Row, n: nat, c: real, st': State)
    requires Shape(env, task, st, row, n, c, st') && StopsHold(st) && InOrder(st)
    ensures StopsHold(st')
  {
    forall k | 0 <= k < |st'.calls| ensures Allowed(st', st'.calls[k].arm, st'.calls[k].task) {
      if k < |st.calls| {
        assert Earlier(st.calls[k].arm, st.calls[k].task, |st.arms|, |st.rows|);
        AllowedKept(st, row, st', st.calls[k].arm, st.calls[k].task);
      } else {
        assert Allowed(st, |st.arms|, |st.rows|);
        AllowedKept(st, row, st', |st.arms|, |st.rows|);
      }
    }
    forall b, j | 0 <= b && 0 <= j < |RowsOf(st', b)| && !st'.aborted
      ensures RowsOf(st', b)[j].notRun != Some("aborted")
    {
      RowsOfStep(st, row, st', b);
    }
  }

  lemma TellingKept(env: Env, task: Task, st: State, row: Row, n: nat, c: real, st': State)
    requires Shape(env, task, st, row, n, c, st') && Telling(st)
    ensures Telling(st')
  {
    if SomeNotRun(st) {
      var b, j :| 0 <= b && 0 <= j < |RowsOf(st, b)| && RowsOf(st, b)[j].notRun.Some?;
      RowsOfStep(st, row, st', b);
      assert RowsOf(st', b)[j].notRun.Some?;
    }
    if row.notRun.Some? {
      RowsOfStep(st, row, st', |st.arms|);
      assert RowsOf(st', |st.arms|)[|st.rows|].notRun.Some?;
    } else if SomeNotRun(st') {
      var b, j :| 0 <= b && 0 <= j < |RowsOf(st', b)| && RowsOf(st', b)[j].notRun.Some?;
      RowsOfStep(st, row, st', b);
      assert RowsOf(st, b)[j].notRun.Some?;
    }
  }

  lemma TaskKeepsGood(env: Env, spec: Spec, resumed: map<string, Row>, task: Task, st: State)
    requires ResumedOk(resumed) && Good(env, st)
    ensures Good(env, TaskStep(env, spec, resumed, task, st))
  {
    var row, n, c := TaskShape(env, spec, resumed, task, st);
    var st' := TaskStep(env, spec, resumed, task, st);
    SpendingKept(env, task, st, row, n, c, st');
    InOrderKept(env, task, st, row, n, c, st');
    StopsKept(env, task, st, row, n, c, st');
    TellingKept(env, task, st, row, n, c, st');
  }

  // ---------------------------------------------------------------- arms

  lemma {:induction false} TasksKeepGood(env: Env, spec: Spec, resumed: map<string, Row>, tasks: seq<Task>, st: State)
    requires ResumedOk(resumed) && Good(env, st)
    ensures Good(env, ArmTasks(env, spec, resumed, tasks, st))
    decreases |tasks|
  {
    if tasks != [] {
      var n := |tasks| - 1;
      TasksKeepGood(env, spec, resumed, tasks[..n], st);
      TaskKeepsGood(env, spec, resumed, tasks[n], ArmTasks(env, spec, resumed, tasks[..n], st));
    }
  }

  lemma {:induction false} NothingSpentOnNewArm(calls: seq<Call>, arm: nat)
    requires forall k :: 0 <= k < |calls| ==> calls[k].arm < arm
    ensures SumArm(calls, arm) == 0.0
    decreases |calls|
  {
    if calls != [] {
      NothingSpentOnNewArm(calls[..|calls| - 1], arm);
    }
  }

  lemma RowsOfNextArm(st: State, b: nat)
    ensures RowsOf(ArmStart(ArmEnd(st)), b) == RowsOf(st, b)
  {
  }

  lemma NextArmIsGood(env: Env, st: State)
    requires Good(env, st)
    ensures Good(env, ArmStart(ArmEnd(st)))
  {
    var st' := ArmStart(ArmEnd(st));
    NothingSpentOnNewArm(st.calls, |st'.arms|);
    forall b: nat ensures RowsOf(st', b) == RowsOf(st, b) {
      RowsOfNextArm(st, b);
    }
    forall k | 0 <= k < |st.calls| ensures UnderCaps(env, st'.calls, k) && Allowed(st', st.calls[k].arm, st.calls[k].task) {
      assert UnderCaps(env, st.calls, k);
      assert Allowed(st, st.calls[k].arm, st.calls[k].task);
    }
    SomeNotRunSame(st, st');
  }

  lemma SomeNotRunSame(st: State, st': State)
    requires forall b: nat :: RowsOf(st', b) == RowsOf(st, b)
    ensures SomeNotRun(st) == SomeNotRun(st')
  {
    if SomeNotRun(st) {
      var b, j :| 0 <= b && 0 <= j < |RowsOf(st, b)| && RowsOf(st, b)[j].notRun.Some?;
      assert RowsOf(st', b)[j].notRun.Some?;
    }
    if SomeNotRun(st') {
      var b, j :| 0 <= b && 0 <= j < |RowsOf(st', b)| && RowsOf(st', b)[j].notRun.Some?;
      assert RowsOf(st, b)[j].notRun.Some?;
    }
  }

  /** The invariant of the whole run, whatever the backends reply. */
  lemma {:induction false} RunIsGood(env: Env, specs: seq<Spec>, tasks: seq<Task>, ledger: map<string, seq<Row>>)
    ensures Good(env, ArmStart(Arms(env, specs, tasks, ledger)))
    decreases |specs|
  {
    if specs != [] {
      var n := |specs| - 1;
      RunIsGood(env, specs[..n], tasks, ledger);
      var st := ArmStart(Arms(env, specs[..n], tasks, ledger));
      var resumed := Resumed(PriorOf(ledger, specs[n].name));
      ResumedIsCompleted(PriorOf(ledger, specs[n].name));
      TasksKeepGood(env, specs[n], resumed, tasks, st);
      NextArmIsGood(env, ArmTasks(env, specs[n], resumed, tasks, st));
    }
  }

  /** Rows of an arm so far: in task order, resumed rows unchanged, no call for a resumed task. */
  ghost predicate ArmSoFar(st: State, s: State, resumed: map<string, Row>, tasks: seq<Task>) {
    && |s.rows| == |tasks| && s.arms == st.arms && st.calls <= s.calls
    && (forall i :: 0 <= i < |tasks| ==> RowFits(s.rows[i], tasks[i], resumed))
    && (forall k :: |st.calls| <= k < |s.calls| ==>
          s.calls[k].arm == |st.arms| && s.calls[k].task < |tasks| && tasks[s.calls[k].task].id !in resumed)
  }

  ghost predicate RowFits(row: Row, task: Task, resumed: map<string, Row>) {
    row.taskId == task.id && (task.id in resumed ==> row == resumed[task.id])
  }

  lemma ArmSoFarStep(env: Env, st: State, s: State, resumed: map<string, Row>, tasks: seq<Task>, task: Task, row: Row,
                     n: nat, c: real, s': State)
    requires ArmSoFar(st, s, resumed, tasks) && Shape(env, task, s, row, n, c, s') && RowFits(row, task, resumed)
    requires task.id in resumed ==> n == 0
    ensures ArmSoFar(st, s', resumed, tasks + [task])
  {
    forall k | |s.calls| <= k < |s'.calls| ensures s'.calls[k].arm == |st.arms| && s'.calls[k].task == |tasks| {
    }
  }

  lemma {:induction false} ArmRows(env: Env, spec: Spec, resumed: map<string, Row>, tasks: seq<Task>, st: State)
    requires ResumedOk(resumed) && st.rows == []
    ensures ArmSoFar(st, ArmTasks(env, spec, resumed, tasks, st), resumed, tasks)
    decreases |tasks|
  {
    if tasks != [] {
      var n := |tasks| - 1;
      ArmRows(env, spec, resumed, tasks[..n], st);
      var before := ArmTasks(env, spec, resumed, tasks[..n], st);
      var row, c, d := TaskShape(env, spec, resumed, tasks[n], before);
      ArmSoFarStep(env, st, before, resumed, tasks[..n], tasks[n], row, c, d,
                   TaskStep(env, spec, resumed, tasks[n], before));
      assert tasks == tasks[..n] + [tasks[n]];
    }
  }

  /** Every arm's rows are in order and carried where they can be, and no call was for a resumed
      task. */
  ghost predicate RunRowsOk(s: State, specs: seq<Spec>, tasks: seq<Task>, ledger: map<string, seq<Row>>) {
    && |s.arms| == |specs| && s.rows == []
    && (forall a :: 0 <= a < |specs| ==> ArmRowsOk(s, a, specs[a], tasks, ledger))
    && (forall k :: 0 <= k < |s.calls| ==> CallOk(s.calls[k], specs, tasks, ledger))
  }

  lemma {:induction false} RunRows(env: Env, specs: seq<Spec>, tasks: seq<Task>, ledger: map<string, seq<Row>>)
    ensures RunRowsOk(Arms(env, specs, tasks, ledger), specs, tasks, ledger)
    decreases |specs|
  {
    if specs != [] {
      var n := |specs| - 1;
      RunRows(env, specs[..n], tasks, ledger);
      var before := Arms(env, specs[..n], tasks, ledger);
      var resumed := Resumed(PriorOf(ledger, specs[n].name));
      ResumedIsCompleted(PriorOf(ledger, specs[n].name));
      ArmRows(env, specs[n], resumed, tasks, ArmStart(before));
      RunRowsStep(specs, tasks, ledger, before, ArmTasks(env, specs[n], resumed, tasks, ArmStart(before)));
    }
  }

  lemma RunRowsStep(specs: seq<Spec>, tasks: seq<Task>, ledger: map<string, seq<Row>>, before: State, done: State)
    requires specs != [] && RunRowsOk(before, specs[..|specs| - 1], tasks, ledger)
    requires ArmSoFar(ArmStart(before), done, Resumed(PriorOf(ledger, specs[|specs| - 1].name)), tasks)
    ensures RunRowsOk(ArmEnd(done), specs, tasks, ledger)
  {
    var s := ArmEnd(done);
    forall a | 0 <= a < |specs| ensures ArmRowsOk(s, a, specs[a], tasks, ledger) {
      if a < |specs| - 1 {
        assert ArmRowsOk(before, a, specs[..|specs| - 1][a], tasks, ledger);
      }
    }
    forall k | 0 <= k < |s.calls| ensures CallOk(s.calls[k], specs, tasks, ledger) {
      if k < |before.calls| {
        assert CallOk(before.calls[k], specs[..|specs| - 1], tasks, ledger);
      }
    }
  }

  ghost predicate ArmRowsOk(s: State, a: nat, spec: Spec, tasks: seq<Task>, ledger: map<string, seq<Row>>)
    requires a < |s.arms|
  {
    var resumed := Resumed(PriorOf(ledger, spec.name));
    && |s.arms[a]| == |tasks|
    && forall i :: 0 <= i < |tasks| ==> RowFits(s.arms[a][i], tasks[i], resumed)
  }

  ghost predicate CallOk(c: Call, specs: seq<Spec>, tasks: seq<Task>, ledger: map<string, seq<Row>>) {
    && c.arm < |specs| && c.task < |tasks|
    && tasks[c.task].id !in Resumed(PriorOf(ledger, specs[c.arm].name))
  }

  // ---------------------------------------------------------------- the report

  ghost predicate DistinctNames(specs: seq<Spec>) {
    forall a, b :: 0 <= a < b < |specs| ==> specs[a].name != specs[b].name
  }

  ghost predicate DistinctTasks(tasks: seq<Task>) {
    && (forall i, j :: 0 <= i < j < |tasks| ==> tasks[i].id != tasks[j].id)
    && (forall i :: 0 <= i < |tasks| ==> tasks[i].id != "")
  }

  lemma {:induction false} DetailHas(specs: seq<Spec>, arms: seq<seq<Row>>)
    requires |specs| == |arms| && DistinctNames(specs)
    ensures forall a :: 0 <= a < |specs| ==> specs[a].name in Detail(specs, arms) && Detail(specs, arms)[specs[a].name] == arms[a]
    ensures forall name :: name in Detail(specs, arms) ==> exists a :: 0 <= a < |specs| && specs[a].name == name
    decreases |specs|
  {
    if specs != [] {
      var n := |specs| - 1;
      DetailHas(specs[..n], arms[..n]);
      forall a | 0 <= a < n
        ensures specs[a].name in Detail(specs, arms) && Detail(specs, arms)[specs[a].name] == arms[a]
      {
        assert specs[..n][a] == specs[a] && arms[..n][a] == arms[a];
      }
      forall name | name in Detail(specs, arms) ensures exists a: int :: 0 <= a < |specs| && specs[a].name == name {
        if name in Detail(specs[..n], arms[..n]) {
          var a :| 0 <= a < n && specs[..n][a].name == name;
          assert specs[a].name == name;
        } else {
          assert specs[n].name == name;
        }
      }
    }
  }

  /** One row per task per arm, in task order. */
  lemma OneRowPerTask(env: Env, specs: seq<Spec>, tasks: seq<Task>, ledger: map<string, seq<Row>>, a: nat)
    requires DistinctNames(specs) && a < |specs|
    ensures var detail: map<string, seq<Row>> := ReportOf(env, specs, tasks, ledger).detail;
            && specs[a].name in detail && |detail[specs[a].name]| == |tasks|
            && forall i :: 0 <= i < |tasks| ==> detail[specs[a].name][i].taskId == tasks[i].id
  {
    OneArmPerSpec(env, specs, tasks, ledger);
    RunRows(env, specs, tasks, ledger);
    DetailHas(specs, Arms(env, specs, tasks, ledger).arms);
  }

  /** The exit code is 1 exactly when some row of the report was not run. */
  lemma ExitCodeTells(env: Env, specs: seq<Spec>, tasks: seq<Task>, ledger: map<string, seq<Row>>)
    requires DistinctNames(specs)
    ensures var r := ReportOf(env, specs, tasks, ledger);
            && (r.exitCode == 0 || r.exitCode == 1)
            && (r.exitCode == 1 <==> exists name, i :: name in r.detail && 0 <= i < |r.detail[name]| && r.detail[name][i].notRun.Some?)
  {
    var st: State := Arms(env, specs, tasks, ledger);
    var detail: map<string, seq<Row>> := ReportOf(env, specs, tasks, ledger).detail;
    OneArmPerSpec(env, specs, tasks, ledger);
    RunIsGood(env, specs, tasks, ledger);
    DetailHas(specs, st.arms);
    if SomeNotRun(ArmStart(st)) {
      var b: nat, j: nat :| j < |RowsOf(ArmStart(st), b)| && RowsOf(ArmStart(st), b)[j].notRun.Some?;
      assert specs[b].name in detail && detail[specs[b].name][j].notRun.Some?;
    }
    forall name: string, i: nat | name in detail && i < |detail[name]| && detail[name][i].notRun.Some?
      ensures SomeNotRun(ArmStart(st))
    {
      var a: nat :| a < |specs| && specs[a].name == name;
      assert RowsOf(ArmStart(st), a)[i].notRun.Some?;
    }
  }

  /** Money: the report's spend is the sum over its calls, every call was made below the cap,
      so taking away the last call leaves the spend below the cap. */
  lemma SpendOvershootsByOneCall(env: Env, specs: seq<Spec>, tasks: seq<Task>, ledger: map<string, seq<Row>>)
    ensures var r := ReportOf(env, specs, tasks, ledger);
            && r.spent == Sum(r.calls)
            && (r.calls == [] ==> r.spent == 0.0)
            && (r.calls != [] && env.maxUsd.Some? ==> r.spent - r.calls[|r.calls| - 1].cost < env.maxUsd.value)
  {
    RunIsGood(env, specs, tasks, ledger);
    var calls := Arms(env, specs, tasks, ledger).calls;
    if calls != [] {
      assert UnderCaps(env, calls, |calls| - 1);
    }
  }

  function CallsFor(calls: seq<Call>, a: nat, i: nat): nat {
    if calls == [] then 0
    else
      var n := |calls| - 1;
      CallsFor(calls[..n], a, i) + if calls[n].arm == a && calls[n].task == i then 1 else 0
  }

  lemma {:induction false} CallsForNone(calls: seq<Call>, a: nat, i: nat)
    requires forall k :: 0 <= k < |calls| ==> !(calls[k].arm == a && calls[k].task == i)
    ensures CallsFor(calls, a, i) == 0
    decreases |calls|
  {
    if calls != [] {
      CallsForNone(calls[..|calls| - 1], a, i);
    }
  }

  lemma {:induction false} ThreeApart(calls: seq<Call>, a: nat, i: nat)
    requires forall j, k :: 0 <= j && j + 3 <= k < |calls| ==> Earlier(calls[j].arm, calls[j].task, calls[k].arm, calls[k].task)
    ensures CallsFor(calls, a, i) <= 3
    decreases |calls|
  {
    if calls != [] {
      var n := |calls| - 1;
      if calls[n].arm == a && calls[n].task == i && n >= 3 {
        var p, q := calls[..n], calls[..n - 1];
        assert p[..n - 1] == q && q[..n - 2] == calls[..n - 2];
        CallsForNone(calls[..n - 2], a, i);
        assert CallsFor(q, a, i) <= 1 && CallsFor(p, a, i) <= CallsFor(q, a, i) + 1;
      } else {
        ThreeApart(calls[..n], a, i);
        CallsForSmall(calls[..n], a, i);
      }
    }
  }

  lemma {:induction false} CallsForSmall(calls: seq<Call>, a: nat, i: nat)
    ensures CallsFor(calls, a, i) <= |calls|
    decreases |calls|
  {
    if calls != [] {
      CallsForSmall(calls[..|calls| - 1], a, i);
    }
  }

  /** At most three calls per task and arm; none for a task after the arm was rate limited, and
      none on any arm after a row was aborted. */
  lemma CallsAreBounded(env: Env, specs: seq<Spec>, tasks: seq<Task>, ledger: map<string, seq<Row>>, a: nat, i: nat)
    requires DistinctNames(specs) && a < |specs| && i < |tasks|
    ensures var r := ReportOf(env, specs, tasks, ledger);
            && CallsFor(r.calls, a, i) <= 3
            && (forall b, j :: 0 <= b < |specs| && 0 <= j < |tasks| && Earlier(b, j, a, i) && NotRunFor(r, specs, b, j, "aborted")
                  ==> CallsFor(r.calls, a, i) == 0)
            && (forall j :: 0 <= j < i && NotRunFor(r, specs, a, j, "rate_limit") ==> CallsFor(r.calls, a, i) == 0)
  {
    var r := ReportOf(env, specs, tasks, ledger);
    ReportRows(env, specs, tasks, ledger);
    RunIsGood(env, specs, tasks, ledger);
    ThreeApart(r.calls, a, i);
    if k :| 0 <= k < |r.calls| && r.calls[k].arm == a && r.calls[k].task == i {
      assert Allowed(ArmStart(Arms(env, specs, tasks, ledger)), a, i);
    } else {
      CallsForNone(r.calls, a, i);
    }
  }

  lemma ReportRows(env: Env, specs: seq<Spec>, tasks: seq<Task>, ledger: map<string, seq<Row>>)
    requires DistinctNames(specs)
    ensures var r := ReportOf(env, specs, tasks, ledger);
            var st := ArmStart(Arms(env, specs, tasks, ledger));
            forall b :: 0 <= b < |specs| ==>
              && specs[b].name in r.detail && RowsOf(st, b) == r.detail[specs[b].name] && |RowsOf(st, b)| == |tasks|
  {
    var s := Arms(env, specs, tasks, ledger);
    OneArmPerSpec(env, specs, tasks, ledger);
    RunRows(env, specs, tasks, ledger);
    DetailHas(specs, s.arms);
    forall b | 0 <= b < |specs| ensures |RowsOf(ArmStart(s), b)| == |tasks| {
      assert ArmRowsOk(s, b, specs[b], tasks, ledger);
    }
  }

  ghost predicate NotRunFor(r: Report, specs: seq<Spec>, a: nat, i: nat, reason: string) {
    a < |specs| && specs[a].name in r.detail && i < |r.detail[specs[a].name]|
    && r.detail[specs[a].name][i].notRun == Some(reason)
  }

  // ---------------------------------------------------------------- rows and replies

  /** Cost shown by the rows that were not carried from the ledger. */
  function FreshCost(tasks: seq<Task>, rows: seq<Row>, resumed: map<string, Row>): real
    requires |rows| == |tasks|
  {
    if tasks == [] then 0.0
    else
      var n := |tasks| - 1;
      FreshCost(tasks[..n], rows[..n], resumed) + if tasks[n].id in resumed then 0.0 else rows[n].cost
  }

  lemma {:induction false} ArmCost(env: Env, spec: Spec, resumed: map<string, Row>, tasks: seq<Task>, st: State)
    requires ResumedOk(resumed) && st.rows == []
    ensures var s := ArmTasks(env, spec, resumed, tasks, st);
            && |s.rows| == |tasks| && s.spent == st.spent + FreshCost(tasks, s.rows, resumed)
    decreases |tasks|
  {
    if tasks != [] {
      var n := |tasks| - 1;
      ArmCost(env, spec, resumed, tasks[..n], st);
      var before := ArmTasks(env, spec, resumed, tasks[..n], st);
      var row, c, d := TaskShape(env, spec, resumed, tasks[n], before);
      assert ArmTasks(env, spec, resumed, tasks, st).rows[..n] == before.rows;
    }
  }

  /** Cost shown by all arms' fresh rows. */
  function ReportCost(specs: seq<Spec>, tasks: seq<Task>, ledger: map<string, seq<Row>>, arms: seq<seq<Row>>): real
    requires |arms| == |specs| && forall a :: 0 <= a < |arms| ==> |arms[a]| == |tasks|
    decreases |specs|
  {
    if specs == [] then 0.0
    else
      var n := |specs| - 1;
      ReportCost(specs[..n], tasks, ledger, arms[..n])
      + FreshCost(tasks, arms[n], Resumed(PriorOf(ledger, specs[n].name)))
  }

  /** No money is lost: the spend is what the fresh rows show as their cost. */
  lemma {:induction false} SpendIsRowCosts(env: Env, specs: seq<Spec>, tasks: seq<Task>, ledger: map<string, seq<Row>>)
    ensures var s := Arms(env, specs, tasks, ledger);
            && |s.arms| == |specs| && (forall a :: 0 <= a < |s.arms| ==> |s.arms[a]| == |tasks|)
            && s.spent == ReportCost(specs, tasks, ledger, s.arms)
    decreases |specs|
  {
    if specs != [] {
      var n := |specs| - 1;
      SpendIsRowCosts(env, specs[..n], tasks, ledger);
      var before := Arms(env, specs[..n], tasks, ledger);
      var resumed := Resumed(PriorOf(ledger, specs[n].name));
      ResumedIsCompleted(PriorOf(ledger, specs[n].name));
      ArmCost(env, specs[n], resumed, tasks, ArmStart(before));
      ArmRows(env, specs[n], resumed, tasks, ArmStart(before));
      assert Arms(env, specs, tasks, ledger).arms[..n] == before.arms;
    }
  }

  /** A row that was answered tells its reply: the redacted error at the worst distance with the
      reply's latency and nothing else, or the text with its score, its usage and its cost. */
  ghost predicate Tells(env: Env, spec: Spec, task: Task, row: Row, reply: Reply) {
    && row.taskId == task.id && row.cls == task.cls && row.notRun.None?
    && if reply.error != "" && env.redact(reply.error) != "" then
         && row.error == Some(env.redact(reply.error)) && row.distance == 1.0 && row.cost == 0.0 && !row.parseOk
         && row.text == "" && row.usage == Usage(0, 0, 0, reply.usage.latency, reply.usage.estimated)
       else
         && row.error.None? && row.text == reply.text && row.cost == env.cost(spec, reply)
         && row.distance == env.score(task, reply.text).distance && row.parseOk == env.score(task, reply.text).parseOk
         && row.usage.tokensIn == reply.usage.tokensIn && row.usage.tokensThought == reply.usage.tokensThought
         && row.usage.tokensOut == reply.usage.tokensOut && row.usage.latency == reply.usage.latency
         && (row.usage.estimated <==> reply.usage.estimated || env.unpriced(spec, reply))
  }

  /** Call `k` of the log is the last one made for its task, and those before it for the same
      task were rate limited. */
  ghost predicate LastCall(env: Env, calls: seq<Call>, k: nat, a: nat, i: nat) {
    && k < |calls| && calls[k].arm == a && calls[k].task == i
    && forall j :: 0 <= j < |calls| && calls[j].arm == a && calls[j].task == i && j != k ==>
         j < k && env.reply(j).error == "rate_limit"
  }

  /** Every row that was run tells the reply to the last call made for it. */
  ghost predicate Answers(env: Env, spec: Spec, resumed: map<string, Row>, tasks: seq<Task>, s: State, a: nat) {
    && |s.rows| == |tasks|
    && forall i :: 0 <= i < |tasks| && tasks[i].id !in resumed && s.rows[i].notRun.None? ==>
         exists k :: LastCall(env, s.calls, k, a, i) && Tells(env, spec, tasks[i], s.rows[i], env.reply(k))
  }

  lemma {:induction false} AskedWhileLimited(env: Env, k: nat, hits: nat)
    requires hits <= RETRIES
    ensures forall j :: k <= j < k + Asks(env, k, hits) - 1 ==> env.reply(j).error == "rate_limit"
    decreases RETRIES - hits
  {
    if env.reply(k).error == "rate_limit" && hits < RETRIES {
      AskedWhileLimited(env, k + 1, hits + 1);
    }
  }

  lemma LastCallStays(env: Env, calls: seq<Call>, added: seq<Call>, k: nat, a: nat, i: nat)
    requires LastCall(env, calls, k, a, i)
    requires forall m :: 0 <= m < |added| ==> added[m].arm != a || added[m].task != i
    ensures LastCall(env, calls + added, k, a, i)
  {
  }

  lemma NewLastCall(env: Env, st: State, n: nat, c: real)
    requires n == Asks(env, |st.calls|, 0) && InOrder(st)
    ensures LastCall(env, st.calls + Calls(|st.arms|, |st.rows|, st, n, c), |st.calls| + n - 1, |st.arms|, |st.rows|)
  {
    AskedWhileLimited(env, |st.calls|, 0);
    forall j | 0 <= j < |st.calls| ensures st.calls[j].arm != |st.arms| || st.calls[j].task != |st.rows| {
      assert Earlier(st.calls[j].arm, st.calls[j].task, |st.arms|, |st.rows|);
    }
  }

  lemma {:induction false} ArmAnswers(env: Env, spec: Spec, resumed: map<string, Row>, tasks: seq<Task>, st: State)
    requires ResumedOk(resumed) && st.rows == [] && Good(env, st)
    ensures Answers(env, spec, resumed, tasks, ArmTasks(env, spec, resumed, tasks, st), |st.arms|)
    decreases |tasks|
  {
    if tasks != [] {
      var n := |tasks| - 1;
      ArmAnswers(env, spec, resumed, tasks[..n], st);
      ArmRows(env, spec, resumed, tasks[..n], st);
      TasksKeepGood(env, spec, resumed, tasks[..n], st);
      assert tasks == tasks[..n] + [tasks[n]];
      AnswersStep(env, spec, resumed, tasks[..n], tasks[n], ArmTasks(env, spec, resumed, tasks[..n], st));
    }
  }

  lemma AnswersStep(env: Env, spec: Spec, resumed: map<string, Row>, tasks: seq<Task>, task: Task, s: State)
    requires ResumedOk(resumed) && InOrder(s) && Answers(env, spec, resumed, tasks, s, |s.arms|)
    ensures Answers(env, spec, resumed, tasks + [task], TaskStep(env, spec, resumed, task, s), |s.arms|)
  {
    var s' := TaskStep(env, spec, resumed, task, s);
    var row, n, c := TaskShape(env, spec, resumed, task, s);
    var added := Calls(|s.arms|, |s.rows|, s, n, c);
    forall i | 0 <= i <= |tasks| && (tasks + [task])[i].id !in resumed && s'.rows[i].notRun.None?
      ensures exists k :: LastCall(env, s'.calls, k, |s.arms|, i) && Tells(env, spec, (tasks + [task])[i], s'.rows[i], env.reply(k))
    {
      if i < |tasks| {
        var k :| LastCall(env, s.calls, k, |s.arms|, i) && Tells(env, spec, tasks[i], s.rows[i], env.reply(k));
        LastCallStays(env, s.calls, added, k, |s.arms|, i);
      } else {
        var k := FreshRowTells(env, spec, resumed, task, s);
      }
    }
  }

  lemma FreshRowTells(env: Env, spec: Spec, resumed: map<string, Row>, task: Task, s: State) returns (k: nat)
    requires InOrder(s) && task.id !in resumed && TaskStep(env, spec, resumed, task, s).rows[|s.rows|].notRun.None?
    ensures var s' := TaskStep(env, spec, resumed, task, s);
            LastCall(env, s'.calls, k, |s.arms|, |s.rows|) && Tells(env, spec, task, s'.rows[|s.rows|], env.reply(k))
  {
    var n := Asks(env, |s.calls|, 0);
    k := |s.calls| + n - 1;
    NewLastCall(env, s, n, if ErrorOf(env, env.reply(k)) == "" then env.cost(spec, env.reply(k)) else 0.0);
  }

  ghost predicate RowTold(env: Env, spec: Spec, task: Task, s: State, a: nat, i: nat) {
    && a < |s.arms| && i < |s.arms[a]|
    && (s.arms[a][i].notRun.None? ==>
          exists k :: LastCall(env, s.calls, k, a, i) && Tells(env, spec, task, s.arms[a][i], env.reply(k)))
  }

  lemma RowToldStays(env: Env, spec: Spec, task: Task, before: State, done: State, resumed: map<string, Row>,
                     tasks: seq<Task>, a: nat, i: nat)
    requires RowTold(env, spec, task, before, a, i)
    requires ArmSoFar(ArmStart(before), done, resumed, tasks)
    ensures RowTold(env, spec, task, ArmEnd(done), a, i)
  {
    if before.arms[a][i].notRun.None? {
      var k :| LastCall(env, before.calls, k, a, i) && Tells(env, spec, task, before.arms[a][i], env.reply(k));
      LastCallStays(env, before.calls, done.calls[|before.calls|..], k, a, i);
      assert done.calls == before.calls + done.calls[|before.calls|..];
    }
  }

  lemma RowToldStep(env: Env, spec: Spec, resumed: map<string, Row>, tasks: seq<Task>, before: State, owner: Spec,
                    a: nat, i: nat)
    requires ResumedOk(resumed) && Good(env, ArmStart(before)) && i < |tasks| && a <= |before.arms|
    requires a < |before.arms| ==> RowTold(env, owner, tasks[i], before, a, i)
    requires a == |before.arms| ==> owner == spec && tasks[i].id !in resumed
    ensures RowTold(env, owner, tasks[i], ArmEnd(ArmTasks(env, spec, resumed, tasks, ArmStart(before))), a, i)
  {
    var done := ArmTasks(env, spec, resumed, tasks, ArmStart(before));
    ArmRows(env, spec, resumed, tasks, ArmStart(before));
    if a < |before.arms| {
      RowToldStays(env, owner, tasks[i], before, done, resumed, tasks, a, i);
    } else {
      ArmAnswers(env, spec, resumed, tasks, ArmStart(before));
    }
  }

  /** In the whole report: a fresh row that was run tells the reply to its task's last call, and
      earlier calls for it were rate limited. */
  lemma {:induction false} RowsTellReplies(env: Env, specs: seq<Spec>, tasks: seq<Task>, ledger: map<string, seq<Row>>,
                                           a: nat, i: nat)
    requires a < |specs| && i < |tasks| && tasks[i].id !in Resumed(PriorOf(ledger, specs[a].name))
    ensures RowTold(env, specs[a], tasks[i], Arms(env, specs, tasks, ledger), a, i)
    decreases |specs|
  {
    var n := |specs| - 1;
    if a < n {
      RowsTellReplies(env, specs[..n], tasks, ledger, a, i);
    }
    NextArmTells(env, specs[..n], specs[n], tasks, ledger, specs[a], a, i);
  }

  lemma NextArmTells(env: Env, specs: seq<Spec>, spec: Spec, tasks: seq<Task>, ledger: map<string, seq<Row>>, owner: Spec,
                     a: nat, i: nat)
    requires i < |tasks| && a <= |specs|
    requires a < |specs| ==> RowTold(env, owner, tasks[i], Arms(env, specs, tasks, ledger), a, i)
    requires a == |specs| ==> owner == spec && tasks[i].id !in Resumed(PriorOf(ledger, spec.name))
    ensures RowTold(env, owner, tasks[i], ArmRun(env, spec, tasks, ledger, Arms(env, specs, tasks, ledger)), a, i)
  {
    OneArmPerSpec(env, specs, tasks, ledger);
    RunIsGood(env, specs, tasks, ledger);
    LastArmTells(env, spec, tasks, ledger, Arms(env, specs, tasks, ledger), owner, a, i);
  }

  lemma LastArmTells(env: Env, spec: Spec, tasks: seq<Task>, ledger: map<string, seq<Row>>, before: State, owner: Spec,
                     a: nat, i: nat)
    requires Good(env, ArmStart(before)) && i < |tasks| && a <= |before.arms|
    requires a < |before.arms| ==> RowTold(env, owner, tasks[i], before, a, i)
    requires a == |before.arms| ==> owner == spec && tasks[i].id !in Resumed(PriorOf(ledger, spec.name))
    ensures RowTold(env, owner, tasks[i], ArmRun(env, spec, tasks, ledger, before), a, i)
  {
    ResumedIsCompleted(PriorOf(ledger, spec.name));
    RowToldStep(env, spec, Resumed(PriorOf(ledger, spec.name)), tasks, before, owner, a, i);
  }

  // ---------------------------------------------------------------- resuming

  /** Row `m` is the last completed one of row `i`'s task id. */
  predicate LastCompleted(prior: seq<Row>, i: nat, m: nat) {
    && i <= m < |prior| && Completed(prior[m]) && prior[m].taskId == prior[i].taskId
    && forall k :: m < k < |prior| && Completed(prior[k]) ==> prior[k].taskId != prior[i].taskId
  }

  lemma {:induction false} ResumedFinds(prior: seq<Row>, i: nat) returns (m: nat)
    requires i < |prior| && Completed(prior[i])
    ensures prior[i].taskId in Resumed(prior) && LastCompleted(prior, i, m)
    ensures Resumed(prior)[prior[i].taskId] == prior[m]
    decreases |prior|
  {
    var n := |prior| - 1;
    if Completed(prior[n]) && prior[n].taskId == prior[i].taskId {
      m := n;
    } else {
      m := ResumedFinds(prior[..n], i);
    }
  }

  /** The rows a run reports for arm `a`. */
  function ArmReport(env: Env, specs: seq<Spec>, tasks: seq<Task>, ledger: map<string, seq<Row>>, a: nat): (rows: seq<Row>)
    requires DistinctNames(specs) && a < |specs|
    ensures |rows| == |tasks| && forall i :: 0 <= i < |tasks| ==> rows[i].taskId == tasks[i].id
  {
    OneRowPerTask(env, specs, tasks, ledger, a);
    ReportOf(env, specs, tasks, ledger).detail[specs[a].name]
  }

  /** A run on the ledger of an earlier one makes no call for a completed row and carries the last
      completed row of its task id, whatever the backends now reply and whatever the caps now
      are. With distinct task ids that is the row itself. */
  lemma ResumeKeepsCompletedRows(env: Env, again: Env, specs: seq<Spec>, tasks: seq<Task>, ledger: map<string, seq<Row>>,
                                 a: nat, i: nat) returns (m: nat)
    requires DistinctNames(specs) && a < |specs| && i < |tasks|
    requires Completed(ArmReport(env, specs, tasks, ledger, a)[i])
    ensures var first := ReportOf(env, specs, tasks, ledger);
            var rows := ArmReport(env, specs, tasks, ledger, a);
            && LastCompleted(rows, i, m)
            && ArmReport(again, specs, tasks, first.detail, a)[i] == rows[m]
            && CallsFor(ReportOf(again, specs, tasks, first.detail).calls, a, i) == 0
            && (DistinctTasks(tasks) ==> m == i)
  {
    var first, rows := ReportOf(env, specs, tasks, ledger), ArmReport(env, specs, tasks, ledger, a);
    OneRowPerTask(env, specs, tasks, ledger, a);
    m := ResumedFinds(rows, i);
    CarriedUnchanged(again, specs, tasks, first.detail, a, i, rows[m]);
  }

  /** A row is carried unchanged exactly when the last completed row of its task id is the same. */
  lemma RowIsCarriedExactlyWhen(env: Env, again: Env, specs: seq<Spec>, tasks: seq<Task>, ledger: map<string, seq<Row>>,
                                a: nat, i: nat)
    requires DistinctNames(specs) && a < |specs| && i < |tasks|
    requires Completed(ArmReport(env, specs, tasks, ledger, a)[i])
    ensures var rows := ArmReport(env, specs, tasks, ledger, a);
            ArmReport(again, specs, tasks, ReportOf(env, specs, tasks, ledger).detail, a)[i] == rows[i]
            <==> forall m: nat :: LastCompleted(rows, i, m) ==> rows[m] == rows[i]
  {
    var rows := ArmReport(env, specs, tasks, ledger, a);
    var m := ResumeKeepsCompletedRows(env, again, specs, tasks, ledger, a, i);
    forall n: nat | LastCompleted(rows, i, n) ensures n == m {
      LastIsOne(rows, i, m, n);
    }
  }

  lemma LastIsOne(rows: seq<Row>, i: nat, m: nat, n: nat)
    requires LastCompleted(rows, i, m) && LastCompleted(rows, i, n)
    ensures m == n
  {
  }

  lemma CarriedUnchanged(env: Env, specs: seq<Spec>, tasks: seq<Task>, ledger: map<string, seq<Row>>, a: nat, i: nat, row: Row)
    requires DistinctNames(specs) && a < |specs| && i < |tasks|
    requires tasks[i].id in Resumed(PriorOf(ledger, specs[a].name))
    requires Resumed(PriorOf(ledger, specs[a].name))[tasks[i].id] == row
    ensures var r := ReportOf(env, specs, tasks, ledger);
            && specs[a].name in r.detail && |r.detail[specs[a].name]| == |tasks|
            && r.detail[specs[a].name][i] == row && CallsFor(r.calls, a, i) == 0
  {
    var s := Arms(env, specs, tasks, ledger);
    OneArmPerSpec(env, specs, tasks, ledger);
    RunRows(env, specs, tasks, ledger);
    DetailHas(specs, s.arms);
    assert ArmRowsOk(s, a, specs[a], tasks, ledger);
    forall k | 0 <= k < |s.calls| ensures !(s.calls[k].arm == a && s.calls[k].task == i) {
      assert CallOk(s.calls[k], specs, tasks, ledger);
    }
    CallsForNone(s.calls, a, i);
  }

  // ---------------------------------------------------------------- a repeated task id

  const ONE_ARM: seq<Spec> := [Spec("m", "m", true)]
  const TWINS: seq<Task> := [Task("x", "c", "one"), Task("x", "c", "two")]

  /** Backends that answer `first` and then `second`, uncapped. */
  const ANSWERS: Env := Env(None, None, (k: nat) => Reply("", if k == 0 then "first" else "second", NO_USAGE),
                            (t: Task, s: string) => Score(0.0, true), (s: Spec, r: Reply) => 0.0,
                            (s: Spec, r: Reply) => false, (s: string) => s)

  function Answer(k: nat): Row {
    ScoredRow(ANSWERS, ONE_ARM[0], TWINS[0], ANSWERS.reply(k))
  }

  lemma TwinRows()
    ensures ArmReport(ANSWERS, ONE_ARM, TWINS, map[], 0) == [Answer(0), Answer(1)]
  {
    var start := State([], [], [], 0.0, 0.0, None, false, false);
    assert ONE_ARM[..0] == [] && Arms(ANSWERS, ONE_ARM[..0], TWINS, map[]) == start;
    OneAnswer(ArmStart(start), TWINS[0]);
    var first := TaskStep(ANSWERS, ONE_ARM[0], map[], TWINS[0], ArmStart(start));
    OneAnswer(first, TWINS[1]);
    var second := TaskStep(ANSWERS, ONE_ARM[0], map[], TWINS[1], first);
    TwoTasks(ANSWERS, ONE_ARM[0], TWINS, ArmStart(start));
    assert Arms(ANSWERS, ONE_ARM, TWINS, map[]) == ArmEnd(second);
    OneArmDetail(ONE_ARM, [second.rows]);
  }

  lemma OneAnswer(st: State, task: Task)
    requires !st.aborted && !st.stopped && task in TWINS
    ensures var x := TaskStep(ANSWERS, ONE_ARM[0], map[], task, st);
            && x.rows == st.rows + [Answer(|st.calls|)] && |x.calls| == |st.calls| + 1 && x.arms == st.arms
            && !x.aborted && !x.stopped
  {
    assert Asks(ANSWERS, |st.calls|, 0) == 1;
  }

  lemma TwoTasks(env: Env, spec: Spec, tasks: seq<Task>, st: State)
    requires |tasks| == 2
    ensures ArmTasks(env, spec, map[], tasks, st)
         == TaskStep(env, spec, map[], tasks[1], TaskStep(env, spec, map[], tasks[0], st))
  {
    assert tasks[..1][..0] == [];
    assert ArmTasks(env, spec, map[], tasks[..1], st) == TaskStep(env, spec, map[], tasks[0], st);
  }

  lemma OneArmDetail(specs: seq<Spec>, arms: seq<seq<Row>>)
    requires |specs| == 1 == |arms|
    ensures Detail(specs, arms) == map[specs[0].name := arms[0]]
  {
    assert specs[..0] == [] && Detail(specs[..0], arms[..0]) == map[];
  }

  /** With two tasks of one id the second run reports the second task's row for the first. */
  lemma RepeatedIdTakesTheLastRow(again: Env)
    ensures var first := ReportOf(ANSWERS, ONE_ARM, TWINS, map[]);
            var rows := ArmReport(ANSWERS, ONE_ARM, TWINS, map[], 0);
            && Completed(rows[0]) && rows[0].text == "first" && rows[1].text == "second"
            && ArmReport(again, ONE_ARM, TWINS, first.detail, 0)[0] == rows[1] != rows[0]
  {
    TwinRows();
    var rows := ArmReport(ANSWERS, ONE_ARM, TWINS, map[], 0);
    assert rows[0].taskId == "x" && rows[1].taskId == "x";
    var m := ResumeKeepsCompletedRows(ANSWERS, again, ONE_ARM, TWINS, map[], 0, 0);
    assert m == 1;
  }
}
