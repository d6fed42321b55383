/** A benchmark run: every model answers every task, under spend caps, rate limits and a
    run-wide stop on a billing leak. The backends' replies are numbered in the order they are
    made and arbitrary; scoring, pricing and redaction are functions of the environment. */
module RunSpec {
  import opened Common

  datatype Spec = Spec(name: string, id: string, bound: bool)

  datatype Task = Task(id: string, cls: string, prompt: string)

  datatype Usage = Usage(tokensIn: int, tokensThought: int, tokensOut: int, latency: real, estimated: bool)

  /** A backend result; an empty error means success. */
  datatype Reply = Reply(error: string, text: string, usage: Usage)

  datatype Score = Score(distance: real, parseOk: bool)

  datatype Row = Row(taskId: string, cls: string, distance: real, parseOk: bool, usage: Usage, cost: real,
                     error: Option<string>, notRun: Option<string>, text: string)

  datatype Env = Env(maxUsd: Option<real>, maxUsdPerArm: Option<real>, reply: nat -> Reply,
                     score: (Task, string) -> Score, cost: (Spec, Reply) -> real, unpriced: (Spec, Reply) -> bool,
                     redact: string -> string)

  /** One backend call: for which arm and task, what was spent before it and what it added. */
  datatype Call = Call(arm: nat, task: nat, spent: real, armSpent: real, cost: real)

  /** The run's variables: finished arms, the rows of the current arm, and the counters. */
  datatype State = State(arms: seq<seq<Row>>, rows: seq<Row>, calls: seq<Call>, spent: real, armSpent: real,
                         partial: Option<string>, aborted: bool, stopped: bool)

  const RETRIES: nat := 2
  const NO_USAGE: Usage := Usage(0, 0, 0, 0.0, false)

  // ---------------------------------------------------------------- rows

  function Skipped(task: Task, reason: string): Row {
    Row(task.id, task.cls, 0.0, false, NO_USAGE, 0.0, Some(reason), Some(reason), "")
  }

  function CappedRow(task: Task): Row {
    Row(task.id, task.cls, 0.0, false, NO_USAGE, 0.0, Some("not_run: spend_cap"), Some("spend_cap"), "")
  }

  function BillingRow(task: Task, reply: Reply, error: string): Row {
    Row(task.id, task.cls, 0.0, false, reply.usage, 0.0, Some(error), Some("aborted"), "")
  }

  function FailedRow(task: Task, reply: Reply, error: string): Row {
    Row(task.id, task.cls, 1.0, false, Usage(0, 0, 0, reply.usage.latency, reply.usage.estimated), 0.0,
        Some(error), None, "")
  }

  function ScoredRow(env: Env, spec: Spec, task: Task, reply: Reply): Row {
    var s := env.score(task, reply.text);
    var estimated := reply.usage.estimated || env.unpriced(spec, reply);
    Row(task.id, task.cls, s.distance, s.parseOk, reply.usage.(estimated := estimated), env.cost(spec, reply),
        None, None, reply.text)
  }

  predicate Completed(row: Row) {
    row.taskId != "" && row.error.None? && row.notRun.None?
  }

  /** The completed rows of an earlier ledger, by task. */
  function Resumed(prior: seq<Row>): map<string, Row> {
    if prior == [] then map[]
    else
      var n := |prior| - 1;
      if Completed(prior[n]) then Resumed(prior[..n])[prior[n].taskId := prior[n]] else Resumed(prior[..n])
  }

  function PriorOf(ledger: map<string, seq<Row>>, name: string): seq<Row> {
    if name in ledger then ledger[name] else []
  }

  // ---------------------------------------------------------------- one task

  predicate IsBilling(error: string) {
    |error| >= 8 && error[..8] == "billing:"
  }

  predicate Capped(env: Env, st: State) {
    || (env.maxUsd.Some? && st.spent >= env.maxUsd.value)
    || (env.maxUsdPerArm.Some? && st.armSpent >= env.maxUsdPerArm.value)
  }

  /** Calls made for one task, the first being call number `k`. */
  function Asks(env: Env, k: nat, hits: nat): (n: nat)
    requires hits <= RETRIES
    ensures 1 <= n <= RETRIES + 1 - hits
    decreases RETRIES - hits
  {
    if env.reply(k).error == "rate_limit" && hits < RETRIES then 1 + Asks(env, k + 1, hits + 1) else 1
  }

  function Calls(arm: nat, task: nat, st: State, n: nat, cost: real): (r: seq<Call>)
    ensures |r| == n
  {
    seq(n, k => Call(arm, task, st.spent, st.armSpent, if k + 1 == n then cost else 0.0))
  }

  /** The error a task ends with. */
  function ErrorOf(env: Env, reply: Reply): string {
    if reply.error == "" then "" else env.redact(reply.error)
  }

  function Answered(env: Env, spec: Spec, task: Task, reply: Reply, arm: nat, n: nat, st: State): State {
    var error, i := ErrorOf(env, reply), |st.rows|;
    if error != "" && IsBilling(error) then
      st.(rows := st.rows + [BillingRow(task, reply, error)], calls := st.calls + Calls(arm, i, st, n, 0.0),
          partial := Some("aborted"), aborted := true)
    else if error == "rate_limit" then
      st.(rows := st.rows + [Skipped(task, "rate_limit")], calls := st.calls + Calls(arm, i, st, n, 0.0),
          partial := Some("rate_limit"), stopped := true)
    else if error != "" then
      st.(rows := st.rows + [FailedRow(task, reply, error)], calls := st.calls + Calls(arm, i, st, n, 0.0))
    else
      var usd := env.cost(spec, reply);
      st.(rows := st.rows + [ScoredRow(env, spec, task, reply)], calls := st.calls + Calls(arm, i, st, n, usd),
          spent := st.spent + usd, armSpent := st.armSpent + usd)
  }

  function TaskStep(env: Env, spec: Spec, resumed: map<string, Row>, task: Task, st: State): State {
    if task.id in resumed then st.(rows := st.rows + [resumed[task.id]])
    else if st.aborted then st.(rows := st.rows + [Skipped(task, "aborted")])
    else if st.stopped then st.(rows := st.rows + [Skipped(task, "rate_limit")])
    else if Capped(env, st) then st.(rows := st.rows + [CappedRow(task)], partial := Some("spend_cap"))
    else
      var n := Asks(env, |st.calls|, 0);
      Answered(env, spec, task, env.reply(|st.calls| + n - 1), |st.arms|, n, st)
  }

  // ---------------------------------------------------------------- arms and the run

  function ArmTasks(env: Env, spec: Spec, resumed: map<string, Row>, tasks: seq<Task>, st: State): State
    decreases |tasks|
  {
    if tasks == [] then st
    else
      var n := |tasks| - 1;
      TaskStep(env, spec, resumed, tasks[n], ArmTasks(env, spec, resumed, tasks[..n], st))
  }

  function ArmStart(st: State): State {
    st.(rows := [], armSpent := 0.0, stopped := false)
  }

  function ArmEnd(st: State): State {
    st.(arms := st.arms + [st.rows], rows := [])
  }

  function ArmRun(env: Env, spec: Spec, tasks: seq<Task>, ledger: map<string, seq<Row>>, st: State): State {
    ArmEnd(ArmTasks(env, spec, Resumed(PriorOf(ledger, spec.name)), tasks, ArmStart(st)))
  }

  function Arms(env: Env, specs: seq<Spec>, tasks: seq<Task>, ledger: map<string, seq<Row>>): State
    decreases |specs|
  {
    if specs == [] then State([], [], [], 0.0, 0.0, None, false, false)
    else
      var n := |specs| - 1;
      ArmRun(env, specs[n], tasks, ledger, Arms(env, specs[..n], tasks, ledger))
  }

  /** Rows by label (`name`): a repeated one keeps the last arm's rows. */
  function Detail(specs: seq<Spec>, arms: seq<seq<Row>>): map<string, seq<Row>>
    requires |specs| == |arms|
  {
    if specs == [] then map[]
    else
      var n := |specs| - 1;
      Detail(specs[..n], arms[..n])[specs[n].name := arms[n]]
  }

  datatype Report = Report(detail: map<string, seq<Row>>, partial: Option<string>, exitCode: int, spent: real,
                           calls: seq<Call>)

  lemma {:induction false} ArmsAreArms(env: Env, spec: Spec, resumed: map<string, Row>, tasks: seq<Task>, st: State)
    ensures var s := ArmTasks(env, spec, resumed, tasks, st); s.arms == st.arms && |s.rows| == |st.rows| + |tasks|
    decreases |tasks|
  {
    if tasks != [] {
      ArmsAreArms(env, spec, resumed, tasks[..|tasks| - 1], st);
    }
  }

  lemma {:induction false} OneArmPerSpec(env: Env, specs: seq<Spec>, tasks: seq<Task>, ledger: map<string, seq<Row>>)
    ensures |Arms(env, specs, tasks, ledger).arms| == |specs|
    decreases |specs|
  {
    if specs != [] {
      var n := |specs| - 1;
      OneArmPerSpec(env, specs[..n], tasks, ledger);
      var st := ArmStart(Arms(env, specs[..n], tasks, ledger));
      ArmsAreArms(env, specs[n], Resumed(PriorOf(ledger, specs[n].name)), tasks, st);
    }
  }

  function ReportOf(env: Env, specs: seq<Spec>, tasks: seq<Task>, ledger: map<string, seq<Row>>): Report {
    OneArmPerSpec(env, specs, tasks, ledger);
    var st := Arms(env, specs, tasks, ledger);
    Report(Detail(specs, st.arms), st.partial, if st.partial.Some? then 1 else 0, st.spent, st.calls)
  }
}
