/** The orphan reaper: process tree walks and the signals sent for a scan's orphans.

    The process table changes under the reaper, so it is an arbitrary sequence of tables, one
    per observation. Each walk and each identity snapshot reads one table. */
module OrphanDaemons {
  import opened Common
  import opened Sorting

  datatype Identity = Identity(pid: int, starttime: Option<int>, cmdline: string, scope: Option<string>)

  datatype Proc = Proc(ppid: Option<int>, starttime: Option<int>, cmdline: string, scope: Option<string>)

  /** `entries` is the directory listing, `procs` what can be read of each process. */
  datatype Table = Table(entries: seq<int>, procs: map<int, Proc>)

  function ReadPpid(t: Table, pid: int): Option<int> {
    if pid in t.procs then t.procs[pid].ppid else None
  }

  function Snapshot(t: Table, pid: int): Option<Identity> {
    if pid in t.procs then
      var p := t.procs[pid];
      Some(Identity(pid, p.starttime, p.cmdline, p.scope))
    else None
  }

  /** Two looks show one process exactly when they show the same start time, command line and scope
      for the pid. */
  lemma IdentityIs(t: Table, ident: Identity)
    ensures Snapshot(t, ident.pid) == Some(ident) <==>
      && ident.pid in t.procs && t.procs[ident.pid].starttime == ident.starttime
      && t.procs[ident.pid].cmdline == ident.cmdline && t.procs[ident.pid].scope == ident.scope
  {
  }

  // ---------------------------------------------------------------- the walk down

  predicate IsChild(t: Table, child: int, parent: int) {
    child in t.entries && ReadPpid(t, child) == Some(parent)
  }

  /** A child is a listed process whose own entry names the parent. */
  lemma ChildIs(t: Table, child: int, parent: int)
    ensures IsChild(t, child, parent) <==>
      (exists k :: 0 <= k < |t.entries| && t.entries[k] == child) && child in t.procs && t.procs[child].ppid == Some(parent)
  {
  }

  /** `pid` is reached from `root` by `n` child steps. */
  ghost predicate Below(t: Table, root: int, pid: int, n: nat)
    decreases n
  {
    if n == 0 then false
    else if n == 1 then IsChild(t, pid, root)
    else exists via :: Below(t, root, via, n - 1) && IsChild(t, pid, via)
  }

  ghost predicate Descendant(t: Table, root: int, pid: int) {
    exists n: nat :: Below(t, root, pid, n)
  }

  method ListChildren(t: Table, pid: int) returns (children: seq<int>)
    ensures forall c :: c in children <==> IsChild(t, c, pid)
  {
    children := [];
    for i := 0 to |t.entries|
      invariant forall c :: c in children <==> c in t.entries[..i] && ReadPpid(t, c) == Some(pid)
    {
      if ReadPpid(t, t.entries[i]) == Some(pid) {
        children := children + [t.entries[i]];
      }
    }
  }

  lemma BelowStep(t: Table, root: int, via: int, pid: int)
    requires Descendant(t, root, via) && IsChild(t, pid, via)
    ensures Descendant(t, root, pid)
  {
    var n: nat :| Below(t, root, via, n);
    assert Below(t, root, pid, n + 1);
  }

  ghost predicate Closed(t: Table, root: int, seen: set<int>) {
    forall c, p :: (p == root || p in seen) && IsChild(t, c, p) ==> c == root || c in seen
  }

  lemma {:induction false} ClosedHasAll(t: Table, root: int, seen: set<int>, pid: int, n: nat)
    requires Closed(t, root, seen) && Below(t, root, pid, n)
    ensures pid == root || pid in seen
    decreases n
  {
    if n > 1 {
      var via :| Below(t, root, via, n - 1) && IsChild(t, pid, via);
      ClosedHasAll(t, root, seen, via, n - 1);
    }
  }

  function SetOf(s: seq<int>): set<int> {
    set x | x in s
  }

  /** Breadth-first descendants of `root`: proper ones only, at most `limit`, and all of them
      when there are fewer, whatever cycles the table holds. */
  method ProcessTree(t: Table, root: int, limit: nat) returns (tree: seq<int>)
    ensures Ascending(tree) && |tree| <= limit
    ensures forall pid :: pid in tree ==> pid != root && Descendant(t, root, pid)
    ensures |tree| < limit ==> forall pid :: Descendant(t, root, pid) ==> pid == root || pid in tree
  {
    var seen: set<int> := {};
    var queue := ListChildren(t, root);
    ghost var all := SetOf(t.entries);
    forall c | c in queue ensures Descendant(t, root, c) {
      assert Below(t, root, c, 1);
    }
    while queue != [] && |seen| < limit
      invariant |seen| <= limit && seen <= all && root !in seen
      invariant forall c :: c in queue ==> c in all && Descendant(t, root, c)
      invariant forall c :: c in seen ==> Descendant(t, root, c)
      invariant forall c, p :: (p == root || p in seen) && IsChild(t, c, p) ==> c == root || c in seen || c in queue
      decreases |all - seen|, |queue|
    {
      var cur := queue[0];
      ghost var was := queue;
      queue := queue[1..];
      assert was == [cur] + queue;
      if cur in seen || cur == root {
        continue;
      }
      ghost var before := seen;
      seen := seen + {cur};
      assert all - before == (all - seen) + {cur};
      var children := ListChildren(t, cur);
      forall c | c in children ensures Descendant(t, root, c) {
        BelowStep(t, root, cur, c);
      }
      queue := queue + children;
    }
    tree := SortSet(seen);
    if |tree| < limit {
      assert Closed(t, root, seen);
      forall pid | Descendant(t, root, pid) ensures pid == root || pid in tree {
        var n: nat :| Below(t, root, pid, n);
        ClosedHasAll(t, root, seen, pid, n);
      }
    }
  }

  // ---------------------------------------------------------------- the walk up

  const MAX_DEPTH: nat := 40

  /** The parent a walk up goes on to. */
  function Up(t: Table, pid: int): Option<int> {
    var p := ReadPpid(t, pid);
    if p.Some? && p.value > 0 then p else None
  }

  /** The `k`-th ancestor, `pid` itself being the first. */
  function Ancestor(t: Table, pid: int, k: nat): Option<int> {
    if k == 0 then (if pid > 0 then Some(pid) else None)
    else
      var below := Ancestor(t, pid, k - 1);
      if below.None? then None else Up(t, below.value)
  }

  lemma {:induction false} AncestorsStayIn(t: Table, pid: int, out: set<int>, k: nat)
    requires pid <= 0 || pid in out
    requires forall c :: c in out && Up(t, c).Some? ==> Up(t, c).value in out
    ensures Ancestor(t, pid, k).Some? ==> Ancestor(t, pid, k).value in out
    decreases k
  {
    if k > 0 {
      AncestorsStayIn(t, pid, out, k - 1);
    }
  }

  lemma AllAncestorsIn(t: Table, pid: int, out: set<int>)
    requires pid <= 0 || pid in out
    requires forall c :: c in out && Up(t, c).Some? ==> Up(t, c).value in out
    ensures forall k: nat :: Ancestor(t, pid, k).Some? ==> Ancestor(t, pid, k).value in out
  {
    forall k: nat ensures Ancestor(t, pid, k).Some? ==> Ancestor(t, pid, k).value in out {
      AncestorsStayIn(t, pid, out, k);
    }
  }

  ghost predicate IsAncestor(t: Table, pid: int, q: int, depth: nat) {
    exists k :: 0 <= k < depth && Ancestor(t, pid, k) == Some(q)
  }

  /** The walk up after `depth` steps, about to look at `cur`. */
  ghost predicate WalkedUp(t: Table, pid: int, out: set<int>, cur: int, depth: nat) {
    && Ancestor(t, pid, depth) == (if cur > 0 then Some(cur) else None)
    && (forall q :: q in out ==> IsAncestor(t, pid, q, depth))
    && (forall k :: 0 <= k < depth && Ancestor(t, pid, k).Some? ==> Ancestor(t, pid, k).value in out)
    && (forall c :: c in out && Up(t, c).Some? ==> Up(t, c).value in out || Up(t, c).value == cur)
    && (if depth == 0 then cur == pid else pid > 0 && pid in out)
  }

  lemma WalksOn(t: Table, pid: int, out: set<int>, cur: int, depth: nat, next: int)
    requires WalkedUp(t, pid, out, cur, depth) && cur > 0 && ReadPpid(t, cur) == Some(next)
    ensures WalkedUp(t, pid, out + {cur}, next, depth + 1)
  {
    OneDeeper(t, pid, out, cur, depth);
  }

  lemma OneDeeper(t: Table, pid: int, out: set<int>, cur: int, depth: nat)
    requires cur > 0 && Ancestor(t, pid, depth) == Some(cur)
    requires forall q :: q in out ==> IsAncestor(t, pid, q, depth)
    ensures forall q :: q in out + {cur} ==> IsAncestor(t, pid, q, depth + 1)
  {
    var next := depth + 1;
    forall q | q in out + {cur} ensures IsAncestor(t, pid, q, next) {
      if q in out {
        var k :| 0 <= k < depth && Ancestor(t, pid, k) == Some(q);
      }
    }
  }

  /** A walk that stops has every ancestor: it met a pid again, or one without a parent. */
  lemma WalkEnds(t: Table, pid: int, out: set<int>, cur: int, depth: nat)
    requires WalkedUp(t, pid, out, cur, depth) && (cur in out || cur <= 0)
    ensures forall k: nat :: Ancestor(t, pid, k).Some? ==> Ancestor(t, pid, k).value in out
  {
    forall c | c in out && Up(t, c).Some? ensures Up(t, c).value in out {
      assert Up(t, c).value > 0;
    }
    AllAncestorsIn(t, pid, out);
  }

  lemma WalkEndsAt(t: Table, pid: int, out: set<int>, cur: int, depth: nat)
    requires WalkedUp(t, pid, out, cur, depth) && cur > 0 && ReadPpid(t, cur) in {None, Some(cur)}
    ensures forall k: nat :: Ancestor(t, pid, k).Some? ==> Ancestor(t, pid, k).value in out + {cur}
    ensures forall q :: q in out + {cur} ==> IsAncestor(t, pid, q, depth + 1)
  {
    OneDeeper(t, pid, out, cur, depth);
    AllAncestorsIn(t, pid, out + {cur});
  }

  /** `pid` and its ancestors, as far as forty steps go. */
  method AncestryPids(t: Table, pid: int) returns (out: set<int>)
    ensures forall q :: q in out <==> IsAncestor(t, pid, q, 40)
  {
    out := {};
    var cur := pid;
    for depth := 0 to MAX_DEPTH
      invariant WalkedUp(t, pid, out, cur, depth)
    {
      if cur in out || cur <= 0 {
        WalkEnds(t, pid, out, cur, depth);
        return;
      }
      var ppid := ReadPpid(t, cur);
      if ppid.None? || ppid.value == cur {
        WalkEndsAt(t, pid, out, cur, depth);
        out := out + {cur};
        return;
      }
      WalksOn(t, pid, out, cur, depth, ppid.value);
      out := out + {cur};
      cur := ppid.value;
    }
  }

  // ---------------------------------------------------------------- signals

  datatype Kind = Term | Kill

  /** Why a pid may be signalled: the orphan whose scan identity held in table `verified`, and,
      for another pid than the orphan's, the table `chained` in which its parents led there and
      the table `known` its identity was noted in. */
  datatype Warrant = Warrant(orphan: nat, verified: nat, chained: nat, known: nat, ident: Identity)

  /** A signal sent right after table `at` showed the identity of its warrant. */
  datatype Signal = Signal(pid: int, kind: Kind, at: nat, warrant: Warrant)

  datatype Action = Termed | Killed | Skipped | AlreadyGone | Survived

  datatype Report = Report(pid: int, action: Action)

  /** The process tables in the order they are read, whether a signal finds its process gone,
      and how often a wait polls before its deadline. */
  datatype Env = Env(table: nat -> Table, gone: nat -> bool, polls: nat -> nat)

  predicate Holds(env: Env, ident: Identity, at: nat) {
    Snapshot(env.table(at), ident.pid) == Some(ident)
  }

  /** Every poll of a wait that starts at look `from` still shows the identity. */
  ghost predicate StillThere(env: Env, ident: Identity, from: nat) {
    forall k :: from <= k <= from + env.polls(from) ==> Holds(env, ident, k)
  }

  /** True when a poll no longer shows the identity, false when every poll still does. */
  method WaitGone(env: Env, ident: Identity, tick0: nat) returns (gone: bool, tick: nat)
    ensures tick > tick0 && (gone <==> !StillThere(env, ident, tick0))
    ensures gone <==> !Holds(env, ident, tick - 1)
    ensures forall k :: tick0 <= k < tick - 1 ==> Holds(env, ident, k)
    ensures !gone ==> tick == tick0 + env.polls(tick0) + 1
  {
    tick := tick0;
    var left := env.polls(tick0);
    while true
      invariant tick0 <= tick && tick + left == tick0 + env.polls(tick0)
      invariant forall k :: tick0 <= k < tick ==> Holds(env, ident, k)
      decreases left
    {
      var now := Snapshot(env.table(tick), ident.pid);
      tick := tick + 1;
      if now != Some(ident) {
        assert !Holds(env, ident, tick - 1);
        return true, tick;
      }
      if left == 0 {
        return false, tick;
      }
      left := left - 1;
    }
  }

  /** Signals of one warrant: none, a SIGTERM, or a SIGTERM and then a SIGKILL, each right after a
      table that still showed the identity. */
  ghost predicate OneBurst(env: Env, w: Warrant, sent: seq<Signal>, from: nat) {
    && |sent| <= 2
    && (|sent| > 0 ==> sent[0].kind == Term)
    && (|sent| > 1 ==> sent[1].kind == Kill && sent[0].at < sent[1].at)
    && forall k :: 0 <= k < |sent| ==>
         sent[k].pid == w.ident.pid && sent[k].warrant == w && from <= sent[k].at && Holds(env, w.ident, sent[k].at)
  }

  /** Signals follow looks that go forward, all before look `tick`. */
  ghost predicate InTime(sent: seq<Signal>, tick: nat) {
    && (forall i, j :: 0 <= i < j < |sent| ==> sent[i].at < sent[j].at)
    && (forall k :: 0 <= k < |sent| ==> sent[k].at < tick)
  }

  lemma InTimeJoins(sent: seq<Signal>, burst: seq<Signal>, tick: nat, next: nat)
    requires InTime(sent, tick) && InTime(burst, next) && tick <= next
    requires forall k :: 0 <= k < |burst| ==> tick <= burst[k].at
    ensures InTime(sent + burst, next)
  {
  }

  predicate WasSent(sent: seq<Signal>, pid: int) {
    exists k :: 0 <= k < |sent| && sent[k].pid == pid
  }

  /** A skipped pid was sent nothing; a terminated, killed or surviving one was sent something. */
  predicate Told(report: Report, sent: seq<Signal>) {
    && (report.action == Skipped ==> !WasSent(sent, report.pid))
    && (report.action in {Termed, Killed, Survived} ==> WasSent(sent, report.pid))
  }

  /** The last look of the first wait, after a SIGTERM at look `at`. */
  function KillLook(env: Env, at: nat): nat {
    at + 1 + env.polls(at + 1)
  }

  /** A SIGKILL follows the SIGTERM sent at look `at`: that one found the process, and the first
      wait saw it to the end. */
  ghost predicate KillDue(env: Env, ident: Identity, at: nat) {
    !env.gone(at) && StillThere(env, ident, at + 1)
  }

  /** What becomes of a process that look `at` showed and that was sent a SIGTERM then. */
  ghost function ActionAt(env: Env, ident: Identity, at: nat): Action {
    if env.gone(at) then AlreadyGone
    else if !StillThere(env, ident, at + 1) || env.gone(KillLook(env, at)) then Termed
    else if StillThere(env, ident, KillLook(env, at) + 1) then Survived
    else Killed
  }

  /** The signals sent to one process, and its report, are those the looks call for. */
  ghost predicate Answers(env: Env, report: Report, sent: seq<Signal>) {
    sent != [] ==>
      var ident, at := sent[0].warrant.ident, sent[0].at;
      && report.action == ActionAt(env, ident, at) && (|sent| == 2 <==> KillDue(env, ident, at))
      && (|sent| == 2 ==> sent[1].at == KillLook(env, at))
  }

  method SignalOne(env: Env, w: Warrant, tick0: nat) returns (report: Report, sent: seq<Signal>, tick: nat)
    ensures tick > tick0 && OneBurst(env, w, sent, tick0) && InTime(sent, tick)
    ensures report.pid == w.ident.pid
    ensures report.action == Skipped <==> exists other :: Snapshot(env.table(tick0), w.ident.pid) == Some(other) && other != w.ident
    ensures sent != [] <==> Holds(env, w.ident, tick0)
    ensures sent != [] ==> sent[0].at == tick0
    ensures Answers(env, report, sent)
    ensures sent == [] ==> report.action == if Snapshot(env.table(tick0), w.ident.pid).None? then AlreadyGone else Skipped
    ensures report.action in {Killed, Survived} ==> |sent| == 2
    ensures Told(report, sent)
    ensures report.action == Survived ==> Holds(env, w.ident, tick - 1)
    ensures report.action == Killed ==> !Holds(env, w.ident, tick - 1)
  {
    var ident := w.ident;
    var now := Snapshot(env.table(tick0), ident.pid);
    tick, sent := tick0 + 1, [];
    if now.None? {
      return Report(ident.pid, AlreadyGone), sent, tick;
    }
    if now != Some(ident) {
      assert now == Some(now.value) && now.value != ident;
      return Report(ident.pid, Skipped), sent, tick;
    }
    sent := [Signal(ident.pid, Term, tick0, w)];
    assert sent[0].pid == ident.pid;
    if env.gone(tick0) {
      return Report(ident.pid, AlreadyGone), sent, tick;
    }
    var left;
    left, tick := WaitGone(env, ident, tick);
    if left {
      return Report(ident.pid, Termed), sent, tick;
    }
    sent := sent + [Signal(ident.pid, Kill, tick - 1, w)];
    if env.gone(tick - 1) {
      return Report(ident.pid, Termed), sent, tick;
    }
    left, tick := WaitGone(env, ident, tick);
    report := Report(ident.pid, if left then Killed else Survived);
  }

  // ---------------------------------------------------------------- reaping

  const TREE_LIMIT: nat := 256

  ghost predicate Reaches(t: Table, pid: int, root: int) {
    IsAncestor(t, pid, root, 40)
  }

  /** The orphan's scan identity still held, and the signalled pid is the orphan or had parents
      leading to it afterwards. */
  ghost predicate Warranted(env: Env, orphans: seq<Identity>, w: Warrant) {
    && w.orphan < |orphans| && Holds(env, orphans[w.orphan], w.verified)
    && (w.ident.pid == orphans[w.orphan].pid ==> w.ident == orphans[w.orphan])
    && (w.ident.pid != orphans[w.orphan].pid ==>
          && w.verified < w.chained < w.known && Holds(env, w.ident, w.known)
          && Reaches(env.table(w.chained), w.ident.pid, orphans[w.orphan].pid))
  }

  /** From look `tick` on the orphan's pid, or one below it, is due a signal: the orphan's scan
      identity holds, or the pid's parents lead to the orphan's pid and the next two looks show
      one identity. */
  ghost predicate SignalDue(env: Env, orphan: Identity, pid: int, tick: nat) {
    if pid == orphan.pid then Holds(env, orphan, tick)
    else
      && Reaches(env.table(tick), pid, orphan.pid) && Snapshot(env.table(tick + 1), pid).Some?
      && Snapshot(env.table(tick + 2), pid) == Snapshot(env.table(tick + 1), pid)
  }

  /** The verdict on a pid that is not due a signal. */
  ghost function Unsent(env: Env, orphan: Identity, pid: int, tick: nat): Action {
    if pid == orphan.pid then (if Snapshot(env.table(tick), pid).None? then AlreadyGone else Skipped)
    else if !Reaches(env.table(tick), pid, orphan.pid) then Skipped
    else if Snapshot(env.table(tick + 1), pid).None? || Snapshot(env.table(tick + 2), pid).None? then AlreadyGone
    else Skipped
  }

  /** The parents of `pid` lead to the very process that the scan saw. */
  ghost predicate LeadsToProcess(t: Table, pid: int, ident: Identity) {
    exists q :: Reaches(t, pid, q) && Snapshot(t, q) == Some(ident)
  }

  /** A pid signalled as a child descends from the verified daemon itself exactly when the
      daemon's scan identity still held at the look at its parents. */
  lemma ChildOfDaemonExactlyWhen(env: Env, orphans: seq<Identity>, w: Warrant)
    requires Warranted(env, orphans, w) && w.ident.pid != orphans[w.orphan].pid
    ensures LeadsToProcess(env.table(w.chained), w.ident.pid, orphans[w.orphan])
        <==> Holds(env, orphans[w.orphan], w.chained)
  {
    var t, orphan := env.table(w.chained), orphans[w.orphan];
    if q :| Reaches(t, w.ident.pid, q) && Snapshot(t, q) == Some(orphan) {
      assert q == orphan.pid;
    }
  }

  /** A pid is sent at most one SIGTERM and, right after it, at most one SIGKILL. */
  ghost predicate OncePerPid(sent: seq<Signal>) {
    && (forall i, j :: 0 <= i < j < |sent| && sent[i].pid == sent[j].pid ==>
          j == i + 1 && sent[i].kind == Term && sent[j].kind == Kill)
    && (forall j :: 0 <= j < |sent| && sent[j].kind == Kill ==> j > 0 && sent[j - 1].pid == sent[j].pid)
  }

  predicate IsOrphan(orphans: seq<Identity>, s: Signal) {
    s.warrant.orphan < |orphans| && s.pid == orphans[s.warrant.orphan].pid
  }

  /** On one orphan's warrant nothing else is signalled once the orphan itself is. */
  ghost predicate OrphanLast(orphans: seq<Identity>, sent: seq<Signal>) {
    forall i, j :: 0 <= i < j < |sent| && sent[i].warrant.orphan == sent[j].warrant.orphan ==>
      (IsOrphan(orphans, sent[i]) ==> sent[j].pid == sent[i].pid)
  }

  ghost predicate AllWarranted(env: Env, orphans: seq<Identity>, sent: seq<Signal>, upTo: nat) {
    forall k :: 0 <= k < |sent| ==>
      && Warranted(env, orphans, sent[k].warrant) && sent[k].warrant.orphan <= upTo
      && sent[k].pid == sent[k].warrant.ident.pid && Holds(env, sent[k].warrant.ident, sent[k].at)
      && sent[k].warrant.verified < sent[k].at
  }

  predicate HasReport(reports: seq<Report>, pid: int) {
    exists k :: 0 <= k < |reports| && reports[k].pid == pid
  }

  /** Pids already decided: each has one report, and only they were signalled. */
  ghost predicate Decided(seen: set<int>, reports: seq<Report>, sent: seq<Signal>) {
    && (forall p :: p in seen <==> HasReport(reports, p))
    && (forall i, j :: 0 <= i < j < |reports| ==> reports[i].pid != reports[j].pid)
    && (forall k :: 0 <= k < |sent| ==> sent[k].pid in seen)
    && (forall k :: 0 <= k < |reports| ==> Told(reports[k], sent))
  }

  /** A SIGTERM's report tells what became of its process, and a SIGKILL follows it exactly when
      one is due. */
  ghost predicate TermTold(env: Env, reports: seq<Report>, sent: seq<Signal>, j: nat)
    requires j < |sent|
  {
    var ident, at := sent[j].warrant.ident, sent[j].at;
    && (exists k :: 0 <= k < |reports| && reports[k] == Report(sent[j].pid, ActionAt(env, ident, at)))
    && (KillDue(env, ident, at) <==> j + 1 < |sent| && sent[j + 1].pid == sent[j].pid && sent[j + 1].kind == Kill)
    && (KillDue(env, ident, at) ==> sent[j + 1].at == KillLook(env, at))
  }

  ghost predicate TermsTold(env: Env, reports: seq<Report>, sent: seq<Signal>) {
    forall j :: 0 <= j < |sent| && sent[j].kind == Term ==> TermTold(env, reports, sent, j)
  }

  lemma BurstTold(env: Env, reports: seq<Report>, sent: seq<Signal>, report: Report, burst: seq<Signal>, w: Warrant,
                  from: nat)
    requires TermsTold(env, reports, sent) && OneBurst(env, w, burst, from) && Answers(env, report, burst)
    requires burst != [] ==> report.pid == w.ident.pid
    ensures TermsTold(env, reports + [report], sent + burst)
  {
    var all := sent + burst;
    forall j | 0 <= j < |all| && all[j].kind == Term ensures TermTold(env, reports + [report], all, j) {
      if j < |sent| {
        OldTermTold(env, reports, sent, report, burst, j);
      } else {
        assert j == |sent| && all[j] == burst[0];
        assert (reports + [report])[|reports|] == report;
        assert |burst| == 2 ==> all[j + 1] == burst[1];
      }
    }
  }

  lemma NewReportTold(env: Env, reports: seq<Report>, sent: seq<Signal>, report: Report)
    requires TermsTold(env, reports, sent)
    ensures TermsTold(env, reports + [report], sent)
  {
    forall j | 0 <= j < |sent| && sent[j].kind == Term ensures TermTold(env, reports + [report], sent, j) {
      OldTermTold(env, reports, sent, report, [], j);
      assert sent + [] == sent;
    }
  }

  lemma OldTermTold(env: Env, reports: seq<Report>, sent: seq<Signal>, report: Report, burst: seq<Signal>, j: nat)
    requires j < |sent| && TermTold(env, reports, sent, j) && (burst != [] ==> burst[0].kind == Term)
    ensures TermTold(env, reports + [report], sent + burst, j)
  {
    var k :| 0 <= k < |reports| && reports[k] == Report(sent[j].pid, ActionAt(env, sent[j].warrant.ident, sent[j].at));
    assert (reports + [report])[k] == reports[k];
    assert j + 1 < |sent| ==> (sent + burst)[j + 1] == sent[j + 1];
    assert j + 1 == |sent| && burst != [] ==> (sent + burst)[j + 1] == burst[0];
  }

  /** Everything the reaper promises about what it sent while working on orphan `g`. */
  ghost predicate Sound(env: Env, orphans: seq<Identity>, seen: set<int>, reports: seq<Report>, sent: seq<Signal>,
                        upTo: nat) {
    && Decided(seen, reports, sent) && OncePerPid(sent) && OrphanLast(orphans, sent)
    && AllWarranted(env, orphans, sent, upTo) && TermsTold(env, reports, sent)
  }

  lemma BurstKeepsSound(env: Env, orphans: seq<Identity>, seen: set<int>, reports: seq<Report>, sent: seq<Signal>,
                        g: nat, w: Warrant, report: Report, burst: seq<Signal>, from: nat)
    requires Sound(env, orphans, seen, reports, sent, g) && w.orphan == g && Warranted(env, orphans, w)
    requires w.ident.pid !in seen && report.pid == w.ident.pid && OneBurst(env, w, burst, from) && w.verified < from
    requires Told(report, burst) && Answers(env, report, burst)
    requires orphans[g].pid !in seen
    ensures Sound(env, orphans, seen + {w.ident.pid}, reports + [report], sent + burst, g)
  {
    ReportKeepsDecided(seen, reports, sent, w.ident.pid, report, burst);
    BurstTold(env, reports, sent, report, burst, w, from);
    assert forall k :: 0 <= k < |burst| ==> burst[k].pid !in seen && (sent + burst)[|sent| + k] == burst[k];
  }

  lemma ReportKeepsDecided(seen: set<int>, reports: seq<Report>, sent: seq<Signal>, pid: int, report: Report,
                           burst: seq<Signal>)
    requires Decided(seen, reports, sent) && pid !in seen && report.pid == pid && Told(report, burst)
    requires forall k :: 0 <= k < |burst| ==> burst[k].pid == pid
    ensures Decided(seen + {pid}, reports + [report], sent + burst)
  {
    var all := reports + [report];
    forall p ensures p in seen + {pid} <==> HasReport(all, p) {
      if p in seen {
        var k :| 0 <= k < |reports| && reports[k].pid == p;
        assert all[k].pid == p;
      }
      if p == pid {
        assert all[|reports|].pid == p;
      }
    }
    forall k | 0 <= k < |all| ensures Told(all[k], sent + burst) {
      if k < |reports| {
        assert HasReport(reports, reports[k].pid);
      }
      SentTogether(sent, burst, all[k].pid);
    }
  }

  lemma SentTogether(sent: seq<Signal>, burst: seq<Signal>, pid: int)
    ensures WasSent(sent + burst, pid) <==> WasSent(sent, pid) || WasSent(burst, pid)
  {
    if WasSent(sent, pid) {
      var k :| 0 <= k < |sent| && sent[k].pid == pid;
      assert (sent + burst)[k].pid == pid;
    }
    if WasSent(burst, pid) {
      var k :| 0 <= k < |burst| && burst[k].pid == pid;
      assert (sent + burst)[|sent| + k].pid == pid;
    }
  }

  /** Proper descendants in descending pid order, then the orphan; all of them below the limit. */
  ghost predicate IsReapOrder(t: Table, root: int, order: seq<int>) {
    && |order| > 0 && order[|order| - 1] == root
    && (forall i, j :: 0 <= i < j < |order| - 1 ==> order[i] > order[j])
    && (forall k :: 0 <= k < |order| - 1 ==> order[k] != root && Descendant(t, root, order[k]))
    && |order| <= 257 && (|order| <= 256 ==> forall pid :: Descendant(t, root, pid) ==> pid in order)
  }

  /** Each listed child comes before its listed parent. */
  ghost predicate ChildrenFirst(t: Table, order: seq<int>) {
    forall i, j :: 0 <= i < |order| && 0 <= j < |order| && i != j && IsChild(t, order[i], order[j]) ==> i < j
  }

  /** Below the orphan, pids increase from listed parent to listed child, and the orphan is not
      itself a child down there. */
  ghost predicate PidsIncrease(t: Table, root: int, order: seq<int>) {
    forall c, p :: c in order && p in order && c != p && p != root && IsChild(t, c, p) ==> c != root && p < c
  }

  /** Children come first exactly when pids increase down the listed tree: the order is one of
      pids, not of depth. */
  lemma ChildrenFirstExactlyWhen(t: Table, root: int, order: seq<int>)
    requires IsReapOrder(t, root, order)
    ensures ChildrenFirst(t, order) <==> PidsIncrease(t, root, order)
  {
    var n := |order| - 1;
    if ChildrenFirst(t, order) {
      forall c, p | c in order && p in order && c != p && p != root && IsChild(t, c, p) ensures c != root && p < c {
        var i :| 0 <= i < |order| && order[i] == c;
        var j :| 0 <= j < |order| && order[j] == p;
        assert i < j && j < n;
      }
    }
    if PidsIncrease(t, root, order) {
      forall i, j | 0 <= i < |order| && 0 <= j < |order| && i != j && IsChild(t, order[i], order[j]) ensures i < j {
        if j < n {
          assert order[j] != root;
          assert i < n ==> order[i] != order[j];
          assert order[i] != order[j] ==> order[i] != root && order[j] < order[i];
        }
      }
    }
  }

  /** After pids wrapped around: 30 is a child of the daemon 10, and 20 a child of 30. */
  const WRAPPED: Table := Table([30, 20], map[30 := Proc(Some(10), None, "", None), 20 := Proc(Some(30), None, "", None)])

  /** There the parent 30 is signalled before its child 20. */
  lemma WrappedParentGoesFirst(order: seq<int>)
    requires IsReapOrder(WRAPPED, 10, order)
    ensures order == [30, 20, 10] && !ChildrenFirst(WRAPPED, order) && IsChild(WRAPPED, order[1], order[0])
  {
    WrappedDescendants(20);
    WrappedDescendants(30);
    forall k | 0 <= k < |order| - 1 ensures order[k] in {20, 30} {
      WrappedDescendants(order[k]);
    }
    FirstThreeDescend(order, |order| - 1);
    assert |order| <= 3;
    assert 20 in order && 30 in order;
    assert order == [30, 20, 10];
  }

  lemma FirstThreeDescend(s: seq<int>, n: int)
    requires n <= |s| && forall i, j :: 0 <= i < j < n ==> s[i] > s[j]
    ensures n > 2 ==> s[0] > s[1] > s[2]
  {
  }

  lemma WrappedDescendants(pid: int)
    ensures Descendant(WRAPPED, 10, pid) <==> pid in {20, 30}
  {
    assert Below(WRAPPED, 10, 30, 1);
    assert IsChild(WRAPPED, 20, 30);
    assert Below(WRAPPED, 10, 20, 2);
    if Descendant(WRAPPED, 10, pid) {
      var n: nat :| Below(WRAPPED, 10, pid, n);
      assert pid in WRAPPED.entries;
    }
  }

  /** Children in descending pid order, then the orphan. */
  method ReapOrder(t: Table, root: int) returns (order: seq<int>)
    ensures IsReapOrder(t, root, order)
    ensures ChildrenFirst(t, order) <==> PidsIncrease(t, root, order)
  {
    var tree := ProcessTree(t, root, TREE_LIMIT);
    order := [];
    for i := 0 to |tree|
      invariant |order| == i && forall k :: 0 <= k < i ==> order[k] == tree[i - 1 - k]
    {
      order := [tree[i]] + order;
    }
    forall p | p in tree ensures p in order {
      var k :| 0 <= k < |tree| && tree[k] == p;
      assert order[|tree| - 1 - k] == p;
    }
    forall k | 0 <= k < |order| ensures order[k] in tree {
      assert order[k] == tree[|tree| - 1 - k];
    }
    order := order + [root];
    ChildrenFirstExactlyWhen(t, root, order);
  }

  /** One pid of a verified orphan's order. */
  method ReapPid(env: Env, orphans: seq<Identity>, g: nat, verified: nat, pid: int, tick0: nat)
    returns (report: Report, sent: seq<Signal>, tick: nat, ghost w: Warrant)
    requires g < |orphans| && verified < tick0 && Holds(env, orphans[g], verified)
    ensures tick >= tick0 && report.pid == pid && Told(report, sent)
    ensures InTime(sent, tick) && forall k :: 0 <= k < |sent| ==> tick0 <= sent[k].at
    ensures sent != [] <==> SignalDue(env, orphans[g], pid, tick0)
    ensures Answers(env, report, sent)
    ensures sent == [] ==> report.action == Unsent(env, orphans[g], pid, tick0)
    ensures sent != [] ==> w.orphan == g && w.ident.pid == pid && w.verified == verified
    ensures sent != [] ==> Warranted(env, orphans, w) && OneBurst(env, w, sent, tick0)
  {
    var orphan := orphans[g];
    tick, sent := tick0, [];
    w := Warrant(g, verified, tick0, tick0, orphan);
    var warrant := Warrant(g, verified, tick0, tick0, orphan);
    if pid != orphan.pid {
      var up := AncestryPids(env.table(tick), pid);
      tick := tick + 1;
      if orphan.pid !in up {
        return Report(pid, Skipped), sent, tick, w;
      }
      var ident := Snapshot(env.table(tick), pid);
      tick := tick + 1;
      if ident.None? {
        return Report(pid, AlreadyGone), sent, tick, w;
      }
      warrant := Warrant(g, verified, tick0, tick0 + 1, ident.value);
    }
    w := warrant;
    report, sent, tick := SignalOne(env, warrant, tick);
  }

  // ---------------------------------------------------------------- nobody is left out

  /** A pid of a tree is looked at after its orphan was verified at look `at`. */
  predicate ItsLook(orphan: Identity, pid: int, at: nat, tick: nat) {
    if pid == orphan.pid then at <= tick else at < tick
  }

  ghost predicate Spared(env: Env, orphan: Identity, pid: int, at: nat) {
    exists tick: nat :: ItsLook(orphan, pid, at, tick) && !SignalDue(env, orphan, pid, tick)
  }

  ghost predicate SparedBySome(env: Env, orphans: seq<Identity>, at: seq<nat>, pid: int) {
    exists g :: 0 <= g < |at| && g < |orphans| && Spared(env, orphans[g], pid, at[g])
  }

  /** The tree walked for an orphan that came up at look `at` has the pid. */
  ghost predicate TreeHas(env: Env, orphan: Identity, at: nat, pid: int) {
    pid == orphan.pid || Descendant(env.table(at + 1), orphan.pid, pid)
  }

  ghost predicate SomeTreeHas(env: Env, orphans: seq<Identity>, at: seq<nat>, pid: int) {
    exists g :: 0 <= g < |at| && g < |orphans| && TreeHas(env, orphans[g], at[g], pid)
  }

  /** Only pids of the orphans' trees were decided, each unsignalled one was spared by a look, and
      `at` has the looks that verified the orphans. */
  ghost predicate Accounted(env: Env, orphans: seq<Identity>, at: seq<nat>, seen: set<int>, sent: seq<Signal>) {
    && |at| <= |orphans|
    && (forall p :: p in seen ==> SomeTreeHas(env, orphans, at, p))
    && (forall p :: p in seen ==> WasSent(sent, p) || SparedBySome(env, orphans, at, p))
    && (forall k :: 0 <= k < |sent| ==>
          sent[k].warrant.orphan < |at| && sent[k].warrant.verified == at[sent[k].warrant.orphan])
  }

  lemma PidAccounted(env: Env, orphans: seq<Identity>, at: seq<nat>, g: nat, seen: set<int>, sent: seq<Signal>,
                     pid: int, burst: seq<Signal>, tick: nat)
    requires Accounted(env, orphans, at, seen, sent) && g < |at| && ItsLook(orphans[g], pid, at[g], tick)
    requires TreeHas(env, orphans[g], at[g], pid) && (burst != [] <==> SignalDue(env, orphans[g], pid, tick))
    requires forall k :: 0 <= k < |burst| ==>
      burst[k].pid == pid && burst[k].warrant.orphan == g && burst[k].warrant.verified == at[g]
    ensures Accounted(env, orphans, at, seen + {pid}, sent + burst)
  {
    if burst != [] {
      assert burst[0].pid == pid;
    }
    forall p | p in seen + {pid} ensures WasSent(sent + burst, p) || SparedBySome(env, orphans, at, p) {
      SentTogether(sent, burst, p);
    }
  }

  lemma OneMoreOrphan(env: Env, orphans: seq<Identity>, at: seq<nat>, seen: set<int>, sent: seq<Signal>, tick: nat)
    requires Accounted(env, orphans, at, seen, sent) && |at| < |orphans|
    ensures Accounted(env, orphans, at + [tick], seen, sent)
  {
    var more := at + [tick];
    assert forall g :: 0 <= g < |at| ==> more[g] == at[g];
    forall p | p in seen ensures SomeTreeHas(env, orphans, more, p) {
      var g :| 0 <= g < |at| && g < |orphans| && TreeHas(env, orphans[g], at[g], p);
      assert more[g] == at[g];
    }
    forall p | p in seen ensures WasSent(sent, p) || SparedBySome(env, orphans, more, p) {
      if !WasSent(sent, p) {
        var g :| 0 <= g < |at| && g < |orphans| && Spared(env, orphans[g], p, at[g]);
        assert more[g] == at[g];
      }
    }
  }

  /** Every pid of a reap order of the table is decided. */
  ghost predicate AllDecided(t: Table, root: int, seen: set<int>) {
    exists order :: IsReapOrder(t, root, order) && forall p :: p in order ==> p in seen
  }

  /** An orphan was in an earlier orphan's tree, or its own tree was decided if its identity held. */
  ghost predicate Visited(env: Env, orphans: seq<Identity>, at: seq<nat>, g: nat, seen: set<int>)
    requires g < |at| <= |orphans|
  {
    || SomeTreeHas(env, orphans, at[..g], orphans[g].pid)
    || (Holds(env, orphans[g], at[g]) ==> AllDecided(env.table(at[g] + 1), orphans[g].pid, seen))
  }

  ghost predicate AllVisited(env: Env, orphans: seq<Identity>, at: seq<nat>, seen: set<int>) {
    |at| <= |orphans| && forall g :: 0 <= g < |at| ==> orphans[g].pid in seen && Visited(env, orphans, at, g, seen)
  }

  lemma OneMoreVisited(env: Env, orphans: seq<Identity>, came: seq<nat>, at: seq<nat>, before: set<int>, seen: set<int>)
    requires |came| < |orphans| && |at| == |came| + 1 && at[..|came|] == came && before <= seen
    requires AllVisited(env, orphans, came, before)
    requires orphans[|came|].pid in seen && Visited(env, orphans, at, |came|, seen)
    ensures AllVisited(env, orphans, at, seen)
  {
    forall g | 0 <= g < |came| ensures Visited(env, orphans, at, g, seen) {
      VisitedStays(env, orphans, came, at, before, seen, g);
    }
  }

  lemma VisitedStays(env: Env, orphans: seq<Identity>, came: seq<nat>, at: seq<nat>, before: set<int>, seen: set<int>,
                     g: nat)
    requires g < |came| < |orphans| && |at| == |came| + 1 && at[..|came|] == came && before <= seen
    requires Visited(env, orphans, came, g, before)
    ensures Visited(env, orphans, at, g, seen)
  {
    assert at[..g] == came[..g] && at[g] == came[g];
  }

  lemma PidReaped(env: Env, orphans: seq<Identity>, at: seq<nat>, g: nat, seen: set<int>, reports: seq<Report>,
                  sent: seq<Signal>, pid: int, w: Warrant, report: Report, burst: seq<Signal>, tick: nat)
    requires Sound(env, orphans, seen, reports, sent, g) && Accounted(env, orphans, at, seen, sent)
    requires g < |at| && at[g] < tick && TreeHas(env, orphans[g], at[g], pid)
    requires pid !in seen && orphans[g].pid !in seen && report.pid == pid && Told(report, burst)
    requires Answers(env, report, burst)
    requires burst != [] <==> SignalDue(env, orphans[g], pid, tick)
    requires burst != [] ==> w.orphan == g && w.ident.pid == pid && w.verified == at[g]
    requires burst != [] ==> Warranted(env, orphans, w) && OneBurst(env, w, burst, tick)
    ensures Sound(env, orphans, seen + {pid}, reports + [report], sent + burst, g)
    ensures Accounted(env, orphans, at, seen + {pid}, sent + burst)
  {
    if burst == [] {
      ReportKeepsDecided(seen, reports, sent, pid, report, burst);
      BurstTold(env, reports, sent, report, burst, w, tick);
      assert sent + burst == sent;
    } else {
      BurstKeepsSound(env, orphans, seen, reports, sent, g, w, report, burst, tick);
    }
    PidAccounted(env, orphans, at, g, seen, sent, pid, burst, tick);
  }

  /** Goes through one verified orphan's order. */
  method ReapTree(env: Env, orphans: seq<Identity>, g: nat, verified: nat, order: seq<int>, ghost at: seq<nat>,
                  seen0: set<int>, reports0: seq<Report>, sent0: seq<Signal>, tick0: nat)
    returns (seen: set<int>, reports: seq<Report>, sent: seq<Signal>, tick: nat)
    requires g < |orphans| && verified < tick0 && Holds(env, orphans[g], verified)
    requires |order| > 0 && order[|order| - 1] == orphans[g].pid && orphans[g].pid !in seen0
    requires forall k :: 0 <= k < |order| - 1 ==> order[k] != orphans[g].pid
    requires Sound(env, orphans, seen0, reports0, sent0, g)
    requires Accounted(env, orphans, at, seen0, sent0) && g < |at| && at[g] == verified
    requires forall k :: 0 <= k < |order| ==> TreeHas(env, orphans[g], at[g], order[k])
    requires InTime(sent0, tick0)
    ensures InTime(sent, tick) && tick >= tick0
    ensures Sound(env, orphans, seen, reports, sent, g) && Accounted(env, orphans, at, seen, sent)
    ensures seen0 <= seen && forall p :: p in order ==> p in seen
  {
    seen, reports, sent, tick := seen0, reports0, sent0, tick0;
    for k := 0 to |order|
      invariant Sound(env, orphans, seen, reports, sent, g) && tick >= tick0 && seen0 <= seen
      invariant Accounted(env, orphans, at, seen, sent) && InTime(sent, tick)
      invariant orphans[g].pid in seen <==> k == |order|
      invariant forall j :: 0 <= j < k ==> order[j] in seen
    {
      var pid := order[k];
      if pid in seen {
        continue;
      }
      ghost var w;
      var report, burst, next;
      report, burst, next, w := ReapPid(env, orphans, g, verified, pid, tick);
      PidReaped(env, orphans, at, g, seen, reports, sent, pid, w, report, burst, tick);
      InTimeJoins(sent, burst, tick, next);
      seen := seen + {pid};
      reports := reports + [report];
      sent := sent + burst;
      tick := next;
    }
  }

  /** Verifies an orphan's scan identity at look `tick0` and goes through its tree. */
  method ReapOrphan(env: Env, orphans: seq<Identity>, g: nat, ghost at: seq<nat>,
                    seen0: set<int>, reports0: seq<Report>, sent0: seq<Signal>, tick0: nat)
    returns (seen: set<int>, reports: seq<Report>, sent: seq<Signal>, tick: nat)
    requires g < |orphans| && orphans[g].pid !in seen0 && Sound(env, orphans, seen0, reports0, sent0, g)
    requires Accounted(env, orphans, at, seen0, sent0) && g < |at| && at[g] == tick0
    requires InTime(sent0, tick0)
    ensures InTime(sent, tick) && tick > tick0
    ensures Sound(env, orphans, seen, reports, sent, g) && Accounted(env, orphans, at, seen, sent)
    ensures seen0 <= seen && orphans[g].pid in seen && Visited(env, orphans, at, g, seen)
  {
    var orphan := orphans[g];
    var now := Snapshot(env.table(tick0), orphan.pid);
    if now != Some(orphan) {
      ReportKeepsDecided(seen0, reports0, sent0, orphan.pid, Report(orphan.pid, Skipped), []);
      NewReportTold(env, reports0, sent0, Report(orphan.pid, Skipped));
      PidAccounted(env, orphans, at, g, seen0, sent0, orphan.pid, [], tick0);
      assert sent0 + [] == sent0;
      return seen0 + {orphan.pid}, reports0 + [Report(orphan.pid, Skipped)], sent0, tick0 + 1;
    }
    var order := ReapOrder(env.table(tick0 + 1), orphan.pid);
    seen, reports, sent, tick := ReapTree(env, orphans, g, tick0, order, at, seen0, reports0, sent0, tick0 + 2);
  }

  /** The next orphan, unless an earlier tree had its pid. */
  method NextOrphan(env: Env, orphans: seq<Identity>, g: nat, ghost at: seq<nat>,
                    seen0: set<int>, reports0: seq<Report>, sent0: seq<Signal>, tick0: nat)
    returns (seen: set<int>, reports: seq<Report>, sent: seq<Signal>, tick: nat)
    requires g == |at| < |orphans| && Reaped(env, orphans, at, seen0, reports0, sent0) && InTime(sent0, tick0)
    ensures InTime(sent, tick) && tick >= tick0
    ensures Reaped(env, orphans, at + [tick0], seen, reports, sent)
  {
    OneMoreOrphan(env, orphans, at, seen0, sent0, tick0);
    seen, reports, sent, tick := seen0, reports0, sent0, tick0;
    if orphans[g].pid in seen {
      TreeHadIt(env, orphans, at, at + [tick0], orphans[g].pid, seen, sent);
    } else {
      seen, reports, sent, tick := ReapOrphan(env, orphans, g, at + [tick0], seen, reports, sent, tick);
    }
    OrphanReaped(env, orphans, at, at + [tick0], seen0, seen, reports, sent);
  }

  /** Signals the orphans of a scan and their trees. Only warranted pids are signalled, each once,
      and an orphan after its tree; every pid of the trees gets a verdict, and one that was sent
      nothing was spared by a look. */
  method ReapOrphans(env: Env, orphans: seq<Identity>)
    returns (reports: seq<Report>, sent: seq<Signal>, ghost at: seq<nat>)
    ensures OncePerPid(sent) && OrphanLast(orphans, sent) && AllWarranted(env, orphans, sent, |orphans|)
    ensures TermsTold(env, reports, sent)
    ensures forall i, j :: 0 <= i < j < |sent| ==> sent[i].at < sent[j].at
    ensures forall i, j :: 0 <= i < j < |reports| ==> reports[i].pid != reports[j].pid
    ensures forall k :: 0 <= k < |reports| ==> Told(reports[k], sent)
    ensures forall g :: 0 <= g < |orphans| ==> HasReport(reports, orphans[g].pid)
    ensures forall k :: 0 <= k < |sent| ==> HasReport(reports, sent[k].pid)
    ensures |at| == |orphans| && (orphans != [] ==> at[0] == 0)
    ensures Accounted(env, orphans, at, Reported(reports), sent)
    ensures AllVisited(env, orphans, at, Reported(reports))
  {
    var seen: set<int> := {};
    var tick := 0;
    reports, sent, at := [], [], [];
    NothingReaped(env, orphans);
    for g := 0 to |orphans|
      invariant |at| == g && (if g == 0 then tick == 0 else at[0] == 0)
      invariant Reaped(env, orphans, at, seen, reports, sent) && InTime(sent, tick)
    {
      ghost var before := tick;
      seen, reports, sent, tick := NextOrphan(env, orphans, g, at, seen, reports, sent, tick);
      at := at + [before];
    }
    ReapedTells(env, orphans, at, seen, reports, sent);
  }

  /** What holds once the orphans that came up at the looks `at` were worked on. */
  ghost predicate Reaped(env: Env, orphans: seq<Identity>, at: seq<nat>, seen: set<int>, reports: seq<Report>,
                         sent: seq<Signal>) {
    && Sound(env, orphans, seen, reports, sent, |at|) && Accounted(env, orphans, at, seen, sent)
    && AllVisited(env, orphans, at, seen)
  }

  lemma NothingReaped(env: Env, orphans: seq<Identity>)
    ensures Reaped(env, orphans, [], {}, [], [])
  {
  }

  lemma TreeHadIt(env: Env, orphans: seq<Identity>, came: seq<nat>, at: seq<nat>, pid: int, seen: set<int>,
                  sent: seq<Signal>)
    requires Accounted(env, orphans, came, seen, sent) && pid in seen
    requires |came| < |orphans| && |at| == |came| + 1 && at[..|came|] == came && orphans[|came|].pid == pid
    ensures Visited(env, orphans, at, |came|, seen)
  {
  }

  lemma OrphanReaped(env: Env, orphans: seq<Identity>, came: seq<nat>, at: seq<nat>, before: set<int>, seen: set<int>,
                     reports: seq<Report>, sent: seq<Signal>)
    requires |came| < |orphans| && |at| == |came| + 1 && at[..|came|] == came && before <= seen
    requires Sound(env, orphans, seen, reports, sent, |came|) && Accounted(env, orphans, at, seen, sent)
    requires AllVisited(env, orphans, came, before)
    requires orphans[|came|].pid in seen && Visited(env, orphans, at, |came|, seen)
    ensures Reaped(env, orphans, at, seen, reports, sent)
  {
    SoundFurther(env, orphans, seen, reports, sent, |came|, |at|);
    OneMoreVisited(env, orphans, came, at, before, seen);
  }

  lemma SoundFurther(env: Env, orphans: seq<Identity>, seen: set<int>, reports: seq<Report>, sent: seq<Signal>,
                     g: nat, h: nat)
    requires Sound(env, orphans, seen, reports, sent, g) && g <= h
    ensures Sound(env, orphans, seen, reports, sent, h)
  {
  }

  lemma ReapedTells(env: Env, orphans: seq<Identity>, at: seq<nat>, seen: set<int>, reports: seq<Report>,
                    sent: seq<Signal>)
    requires Reaped(env, orphans, at, seen, reports, sent) && |at| == |orphans|
    ensures OncePerPid(sent) && OrphanLast(orphans, sent) && AllWarranted(env, orphans, sent, |orphans|)
    ensures TermsTold(env, reports, sent)
    ensures forall i, j :: 0 <= i < j < |reports| ==> reports[i].pid != reports[j].pid
    ensures forall k :: 0 <= k < |reports| ==> Told(reports[k], sent)
    ensures forall g :: 0 <= g < |orphans| ==> HasReport(reports, orphans[g].pid)
    ensures forall k :: 0 <= k < |sent| ==> HasReport(reports, sent[k].pid)
    ensures Accounted(env, orphans, at, Reported(reports), sent) && AllVisited(env, orphans, at, Reported(reports))
  {
    ReportedIsSeen(seen, reports, sent);
    forall k | 0 <= k < |sent| ensures HasReport(reports, sent[k].pid) {
      assert sent[k].pid in seen;
    }
  }

  function Reported(reports: seq<Report>): set<int> {
    set k | 0 <= k < |reports| :: reports[k].pid
  }

  lemma ReportedIsSeen(seen: set<int>, reports: seq<Report>, sent: seq<Signal>)
    requires Decided(seen, reports, sent)
    ensures Reported(reports) == seen
    ensures forall p :: p in seen ==> HasReport(reports, p)
  {
    forall p ensures p in Reported(reports) <==> p in seen {
      if HasReport(reports, p) {
        var k :| 0 <= k < |reports| && reports[k].pid == p;
      }
    }
  }

  // ---------------------------------------------------------------- a recycled daemon

  const DAEMON: Identity := Identity(10, Some(1), "daemon", None)
  const STRANGER: Proc := Proc(None, Some(2), "shell", None)

  /** The daemon is there when it is verified; from the next look on its pid is another process,
      which has the child 20. */
  const RECYCLED: Env := Env(
    (k: nat) =>
      if k == 0 then Table([10], map[10 := Proc(None, Some(1), "daemon", None)])
      else Table([10, 20], map[10 := STRANGER, 20 := Proc(Some(10), Some(3), "", None)]),
    (k: nat) => false, (k: nat) => 0)

  /** The stranger's child is signalled. */
  method StrangersChildIsSignalled() returns (sent: seq<Signal>)
    ensures exists k :: 0 <= k < |sent| && IsStrangersChild(sent[k])
  {
    var reports;
    ghost var at;
    reports, sent, at := ReapOrphans(RECYCLED, [DAEMON]);
    TwentyIsSent(at, Reported(reports), sent);
    var k :| 0 <= k < |sent| && sent[k].pid == 20;
    NotOfTheDaemon(sent[k]);
  }

  lemma TwentyIsSent(at: seq<nat>, seen: set<int>, sent: seq<Signal>)
    requires |at| == 1 && at[0] == 0 && Accounted(RECYCLED, [DAEMON], at, seen, sent)
    requires AllVisited(RECYCLED, [DAEMON], at, seen)
    ensures WasSent(sent, 20)
  {
    RecycledOrder();
    assert Visited(RECYCLED, [DAEMON], at, 0, seen) && !SomeTreeHas(RECYCLED, [DAEMON], [], 10);
    assert at[..0] == [];
    assert 20 in seen;
    NeverSpared(at);
  }

  lemma NeverSpared(at: seq<nat>)
    requires |at| == 1
    ensures !SparedBySome(RECYCLED, [DAEMON], at, 20)
  {
    forall tick: nat | tick > 0 ensures SignalDue(RECYCLED, DAEMON, 20, tick) {
      RecycledChildIsDue(tick);
    }
  }

  lemma NotOfTheDaemon(s: Signal)
    requires s.pid == 20 && s.warrant.ident.pid == 20 && Warranted(RECYCLED, [DAEMON], s.warrant)
    ensures IsStrangersChild(s)
  {
    ChildOfDaemonExactlyWhen(RECYCLED, [DAEMON], s.warrant);
  }

  /** A signal to 20 although its parents did not lead to the daemon. */
  ghost predicate IsStrangersChild(s: Signal) {
    s.pid == 20 && s.warrant.ident.pid == 20 && Warranted(RECYCLED, [DAEMON], s.warrant)
    && !LeadsToProcess(RECYCLED.table(s.warrant.chained), 20, DAEMON)
  }

  lemma RecycledChildIsDue(tick: nat)
    requires tick > 0
    ensures SignalDue(RECYCLED, DAEMON, 20, tick)
  {
    var after := RECYCLED.table(tick);
    assert Ancestor(after, 20, 0) == Some(20) && Ancestor(after, 20, 1) == Some(10);
    assert IsAncestor(after, 20, 10, 40);
  }

  lemma RecycledOrder()
    ensures Holds(RECYCLED, DAEMON, 0) && forall order :: IsReapOrder(RECYCLED.table(1), 10, order) ==> 20 in order
  {
    var after := RECYCLED.table(1);
    assert Below(after, 10, 20, 1);
    forall order | IsReapOrder(after, 10, order) ensures 20 in order {
      assert |order| > 2 ==> order[0] > order[1];
      forall k | 0 <= k < |order| - 1 ensures order[k] == 20 {
        var n: nat :| Below(after, 10, order[k], n);
        assert order[k] in after.entries;
      }
    }
  }
}
