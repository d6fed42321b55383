/** The benchmark's dispatch loop. */
module RunPack {
  import opened Common
  import opened RunSpec

  method CompletedRows(prior: seq<Row>) returns (resumed: map<string, Row>)
    ensures resumed == Resumed(prior)
  {
    resumed := map[];
    for i := 0 to |prior|
      invariant resumed == Resumed(prior[..i])
    {
      assert prior[..i + 1][..i] == prior[..i];
      if Completed(prior[i]) {
        resumed := resumed[prior[i].taskId := prior[i]];
      }
    }
    assert prior[..|prior|] == prior;
  }

  /** Calls the backend, twice more while it is rate limited. `made` numbers the run's calls. */
  method Dispatch(env: Env, made: nat) returns (reply: Reply, n: nat)
    ensures n == Asks(env, made, 0) && reply == env.reply(made + n - 1)
  {
    reply, n := env.reply(made), 1;
    var hits := 0;
    while reply.error == "rate_limit" && hits < RETRIES
      invariant 0 <= hits <= RETRIES && n == hits + 1 && reply == env.reply(made + hits)
      invariant Asks(env, made, 0) == hits + Asks(env, made + hits, hits)
    {
      hits := hits + 1;
      reply, n := env.reply(made + hits), n + 1;
    }
  }

  /** Books a task's last reply. */
  method Settle(env: Env, spec: Spec, task: Task, reply: Reply, n: nat, st0: State) returns (st: State)
    ensures st == Answered(env, spec, task, reply, |st0.arms|, n, st0)
  {
    st := st0;
    var arm, i := |st0.arms|, |st0.rows|;
    var error := reply.error;
    if error != "" {
      error := env.redact(error);
    }
    if error != "" && IsBilling(error) {
      st := st.(partial := Some("aborted"), aborted := true);
      st := st.(rows := st.rows + [BillingRow(task, reply, error)], calls := st.calls + Calls(arm, i, st0, n, 0.0));
      return;
    }
    if error == "rate_limit" {
      st := st.(partial := Some("rate_limit"), stopped := true);
      st := st.(rows := st.rows + [Skipped(task, "rate_limit")], calls := st.calls + Calls(arm, i, st0, n, 0.0));
      return;
    }
    if error != "" {
      st := st.(rows := st.rows + [FailedRow(task, reply, error)], calls := st.calls + Calls(arm, i, st0, n, 0.0));
      return;
    }
    var usd := env.cost(spec, reply);
    st := st.(spent := st.spent + usd, armSpent := st.armSpent + usd);
    st := st.(rows := st.rows + [ScoredRow(env, spec, task, reply)], calls := st.calls + Calls(arm, i, st0, n, usd));
  }

  /** One task of an arm: carried from the ledger, skipped, capped or asked. */
  method RunTask(env: Env, spec: Spec, resumed: map<string, Row>, task: Task, st0: State) returns (st: State)
    ensures st == TaskStep(env, spec, resumed, task, st0)
  {
    st := st0;
    if task.id in resumed {
      st := st.(rows := st.rows + [resumed[task.id]]);
      return;
    }
    if st.aborted {
      st := st.(rows := st.rows + [Skipped(task, "aborted")]);
      return;
    }
    if st.stopped {
      st := st.(rows := st.rows + [Skipped(task, "rate_limit")]);
      return;
    }
    if Capped(env, st) {
      st := st.(rows := st.rows + [CappedRow(task)], partial := Some("spend_cap"));
      return;
    }
    var reply, n := Dispatch(env, |st.calls|);
    st := Settle(env, spec, task, reply, n, st);
  }

  /** One arm over all tasks, in order. */
  method RunArm(env: Env, spec: Spec, resumed: map<string, Row>, tasks: seq<Task>, st0: State) returns (st: State)
    ensures st == ArmTasks(env, spec, resumed, tasks, st0)
  {
    st := st0;
    for i := 0 to |tasks|
      invariant st == ArmTasks(env, spec, resumed, tasks[..i], st0)
    {
      assert tasks[..i + 1][..i] == tasks[..i];
      st := RunTask(env, spec, resumed, tasks[i], st);
    }
    assert tasks[..|tasks|] == tasks;
  }

  /** One arm, resuming its completed rows. */
  method RunSpecArm(env: Env, spec: Spec, tasks: seq<Task>, ledger: map<string, seq<Row>>, st0: State)
    returns (rows: seq<Row>, st: State)
    ensures st == ArmRun(env, spec, tasks, ledger, st0) && st.arms == st0.arms + [rows]
  {
    var resumed := CompletedRows(PriorOf(ledger, spec.name));
    st := RunArm(env, spec, resumed, tasks, ArmStart(st0));
    ArmsAreArms(env, spec, resumed, tasks, ArmStart(st0));
    rows := st.rows;
    st := ArmEnd(st);
  }

  /** Runs every arm. The first one without a backend ends the run with an error. */
  method Run(env: Env, specs: seq<Spec>, tasks: seq<Task>, ledger: map<string, seq<Row>>)
    returns (r: Result<Report, string>)
    ensures r.Ok? <==> forall k :: 0 <= k < |specs| ==> specs[k].bound
    ensures r.Err? ==>
      exists k :: 0 <= k < |specs| && !specs[k].bound && r.error == specs[k].name
                  && forall j :: 0 <= j < k ==> specs[j].bound
    ensures r.Ok? ==> r.value == ReportOf(env, specs, tasks, ledger)
  {
    var st := State([], [], [], 0.0, 0.0, None, false, false);
    var detail: map<string, seq<Row>> := map[];
    for a := 0 to |specs|
      invariant forall k :: 0 <= k < a ==> specs[k].bound
      invariant Done(env, specs[..a], tasks, ledger, st, detail)
    {
      if !specs[a].bound {
        return Err(specs[a].name);
      }
      var rows, next := RunSpecArm(env, specs[a], tasks, ledger, st);
      OneMoreArm(env, specs, a, tasks, ledger, st, detail, rows);
      st, detail := next, detail[specs[a].name := rows];
    }
    assert specs[..|specs|] == specs;
    ReportIs(env, specs, tasks, ledger, st, detail);
    r := Ok(Report(detail, st.partial, if st.partial.Some? then 1 else 0, st.spent, st.calls));
  }

  /** The arms of `specs` were run, with these rows by label. */
  ghost predicate Done(env: Env, specs: seq<Spec>, tasks: seq<Task>, ledger: map<string, seq<Row>>, st: State,
                       detail: map<string, seq<Row>>) {
    st == Arms(env, specs, tasks, ledger) && |st.arms| == |specs| && detail == Detail(specs, st.arms)
  }

  lemma OneMoreArm(env: Env, specs: seq<Spec>, a: nat, tasks: seq<Task>, ledger: map<string, seq<Row>>, st: State,
                   detail: map<string, seq<Row>>, rows: seq<Row>)
    requires a < |specs| && Done(env, specs[..a], tasks, ledger, st, detail)
    requires ArmRun(env, specs[a], tasks, ledger, st).arms == st.arms + [rows]
    ensures Done(env, specs[..a + 1], tasks, ledger, ArmRun(env, specs[a], tasks, ledger, st), detail[specs[a].name := rows])
  {
    DetailGrows(specs[..a], st.arms, specs[a], rows);
    ArmsGrow(env, specs, a, tasks, ledger);
  }

  lemma ReportIs(env: Env, specs: seq<Spec>, tasks: seq<Task>, ledger: map<string, seq<Row>>, st: State,
                 detail: map<string, seq<Row>>)
    requires Done(env, specs, tasks, ledger, st, detail)
    ensures ReportOf(env, specs, tasks, ledger)
         == Report(detail, st.partial, if st.partial.Some? then 1 else 0, st.spent, st.calls)
  {
  }

  lemma DetailGrows(specs: seq<Spec>, arms: seq<seq<Row>>, spec: Spec, rows: seq<Row>)
    requires |specs| == |arms|
    ensures Detail(specs + [spec], arms + [rows]) == Detail(specs, arms)[spec.name := rows]
  {
    assert (specs + [spec])[..|specs|] == specs && (arms + [rows])[..|arms|] == arms;
  }

  lemma ArmsGrow(env: Env, specs: seq<Spec>, a: nat, tasks: seq<Task>, ledger: map<string, seq<Row>>)
    requires a < |specs|
    ensures specs[..a + 1] == specs[..a] + [specs[a]]
    ensures Arms(env, specs[..a + 1], tasks, ledger)
         == ArmRun(env, specs[a], tasks, ledger, Arms(env, specs[..a], tasks, ledger))
  {
    assert specs[..a + 1][..a] == specs[..a];
  }
}
