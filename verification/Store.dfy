/** The tables of the control store, and what each transaction commits (store.py). Money and time are exact. */
module Tables {
  import opened Common
  import opened Authority
  import Paths

  datatype Task = Task(repository: string, baseSha: string, status: string, revision: nat, paths: seq<string>,
                       allotted: Amount, spent: real, resultHead: Option<string>, governed: bool)

  datatype Lease = Lease(worktree: string, ownerRun: string, epoch: nat, expiresAt: real, released: bool,
                         head: string, reserved: real)

  datatype Run = Run(taskId: string, attempt: nat, epoch: nat, runtime: string, status: string)

  datatype Happening =
    | Created
    | Claimed(epoch: nat, worktree: string, head: string, reserved: real)
    | Heartbeaten(epoch: nat, head: string)
    | Released(epoch: nat, outcome: string, head: string)

  datatype Event = Event(taskId: string, runId: string, what: Happening, version: nat)

  datatype Database = Database(tasks: map<string, Task>, leases: map<string, Lease>, runs: map<string, Run>,
                               events: seq<Event>)

  const EMPTY := Database(map[], map[], map[], [])

  /** The requests that change the store; `now` is the clock read once the write lock is held. */
  datatype Op =
    | Create(now: real, taskId: string, repository: string, baseSha: string, paths: seq<string>,
             allotted: Amount, governed: bool)
    | Claim(now: real, taskId: string, runId: string, worktree: string, head: string, ttl: Amount,
            runtime: string, budget: Amount)
    | Beat(now: real, taskId: string, runId: string, epoch: int, ttl: Amount, newHead: Option<string>,
           expected: Option<string>)
    | Release(now: real, taskId: string, runId: string, epoch: int, newHead: Option<string>, outcome: string,
              expected: Option<string>)

  // ---- When a request commits ----

  predicate Live(lease: Lease, now: real) {
    !lease.released && lease.expiresAt > now
  }

  /** The pair holds the task's lease at this moment: what `assert_writer` tests. */
  predicate Holds(db: Database, taskId: string, runId: string, epoch: int, now: real) {
    && taskId in db.leases
    && db.leases[taskId].ownerRun == runId && db.leases[taskId].epoch == epoch
    && Live(db.leases[taskId], now)
  }

  /** The head a claimant must present; the empty string waives the test. */
  function ExpectedHead(db: Database, taskId: string): string
    requires taskId in db.tasks
  {
    var task := db.tasks[taskId];
    if taskId in db.leases then db.leases[taskId].head
    else if task.resultHead.Some? && task.resultHead.value != "" then task.resultHead.value
    else task.baseSha
  }

  /** The two tasks write to the same repository at the same base. */
  predicate SameTree(a: Task, b: Task) {
    && RepositoryIdentity(a.repository) == RepositoryIdentity(b.repository)
    && GitObjectId(a.baseSha) == GitObjectId(b.baseSha)
  }

  /** Holding `worktree` for `a` would collide with task `b` holding `other`. */
  predicate Collide(a: Task, worktree: string, b: Task, other: string) {
    || WorktreeIdentity(worktree) == WorktreeIdentity(other)
    || (SameTree(a, b) && ScopeOverlap(Authorities(a.paths), Authorities(b.paths)))
  }

  ghost predicate CollidesLive(db: Database, taskId: string, worktree: string, now: real)
    requires taskId in db.tasks
  {
    exists other :: other in db.leases && other in db.tasks && other != taskId && Live(db.leases[other], now)
                    && Collide(db.tasks[taskId], worktree, db.tasks[other], db.leases[other].worktree)
  }

  ghost predicate HeadAgrees(db: Database, taskId: string, expected: Option<string>)
    requires taskId in db.leases
  {
    expected.Some? ==> db.leases[taskId].head == expected.value
  }

  /** Exactly when a request commits. */
  ghost predicate Commits(db: Database, op: Op) {
    match op
    case Create(_, taskId, repository, baseSha, paths, allotted, _) =>
      && ValidScope(paths) && RepositoryIdentity(repository).Some? && GitObjectId(baseSha).Some?
      && !allotted.NotANumber? && taskId !in db.tasks
    case Claim(now, taskId, runId, worktree, head, ttl, _, budget) =>
      && IsDuration(ttl)
      && taskId in db.tasks
      && !(taskId in db.leases && Live(db.leases[taskId], now))
      && (ExpectedHead(db, taskId) == "" || head == ExpectedHead(db, taskId))
      && WorktreeIdentity(worktree).Some?
      && !CollidesLive(db, taskId, worktree, now)
      && BudgetAllows(db.tasks[taskId].allotted, db.tasks[taskId].spent, budget)
      && runId !in db.runs
    case Beat(now, taskId, runId, epoch, ttl, _, expected) =>
      IsDuration(ttl) && Holds(db, taskId, runId, epoch, now) && HeadAgrees(db, taskId, expected)
    case Release(now, taskId, runId, epoch, _, _, expected) =>
      && Holds(db, taskId, runId, epoch, now) && HeadAgrees(db, taskId, expected)
      && taskId in db.tasks && runId in db.runs
  }

  // ---- What a request commits ----

  /** `MAX(attempt)` over the runs of a task, zero when it has none. */
  ghost predicate IsTopAttempt(runs: map<string, Run>, taskId: string, m: nat) {
    && (forall r :: r in runs && runs[r].taskId == taskId ==> runs[r].attempt <= m)
    && (m == 0 || exists r :: r in runs && runs[r].taskId == taskId && runs[r].attempt == m)
  }

  lemma {:induction false} TopAttemptExists(runs: map<string, Run>, taskId: string) returns (m: nat)
    ensures IsTopAttempt(runs, taskId, m)
    decreases |runs|
  {
    m := 0;
    if r :| r in runs {
      var fewer := runs - {r};
      var k := TopAttemptExists(fewer, taskId);
      m := if runs[r].taskId == taskId && runs[r].attempt > k then runs[r].attempt else k;
      if m == k && m != 0 {
        var s :| s in fewer && fewer[s].taskId == taskId && fewer[s].attempt == k;
        assert s in runs && runs[s] == fewer[s];
      }
      forall s | s in runs && runs[s].taskId == taskId ensures runs[s].attempt <= m {
        assert s == r || s in fewer;
      }
    }
  }

  ghost function TopAttempt(runs: map<string, Run>, taskId: string): (m: nat)
    ensures IsTopAttempt(runs, taskId, m)
  {
    assert exists m: nat :: IsTopAttempt(runs, taskId, m) by {
      var m := TopAttemptExists(runs, taskId);
    }
    var m: nat :| IsTopAttempt(runs, taskId, m);
    m
  }

  lemma TopAttemptUnique(runs: map<string, Run>, taskId: string, m: nat)
    requires IsTopAttempt(runs, taskId, m)
    ensures m == TopAttempt(runs, taskId)
  {
  }

  function NextEpoch(db: Database, taskId: string): nat {
    if taskId in db.leases then db.leases[taskId].epoch + 1 else 1
  }

  /** The event appended at the end of the log; versions count up. */
  function Logged(db: Database, taskId: string, runId: string, what: Happening): seq<Event> {
    db.events + [Event(taskId, runId, what, |db.events| + 1)]
  }

  function AfterCreate(db: Database, taskId: string, task: Task): Database {
    db.(tasks := db.tasks[taskId := task], events := Logged(db, taskId, "", Created))
  }

  /** The reservation is charged, the lease taken over under the next epoch, and a run recorded. */
  function AfterClaim(db: Database, taskId: string, runId: string, worktree: string, head: string, expiry: real,
                      runtime: string, attempt: nat, reserved: real): Database
    requires taskId in db.tasks
  {
    var task, epoch := db.tasks[taskId], NextEpoch(db, taskId);
    Database(
      db.tasks[taskId := task.(spent := task.spent + reserved, status := "running", revision := task.revision + 1)],
      db.leases[taskId := Lease(worktree, runId, epoch, expiry, false, head, reserved)],
      db.runs[runId := Run(taskId, attempt, epoch, runtime, "running")],
      Logged(db, taskId, runId, Claimed(epoch, worktree, head, reserved)))
  }

  function AfterBeat(db: Database, taskId: string, runId: string, expiry: real, head: string): Database
    requires taskId in db.leases
  {
    var lease := db.leases[taskId];
    db.(leases := db.leases[taskId := lease.(expiresAt := expiry, head := head)],
        events := Logged(db, taskId, runId, Heartbeaten(lease.epoch, head)))
  }

  /** The lease and its run end, and the task takes the outcome and the result; the charge stays. */
  function AfterRelease(db: Database, taskId: string, runId: string, head: string, outcome: string): Database
    requires taskId in db.leases && taskId in db.tasks && runId in db.runs
  {
    var task, lease := db.tasks[taskId], db.leases[taskId];
    Database(
      db.tasks[taskId := task.(status := outcome, revision := task.revision + 1, resultHead := Some(head))],
      db.leases[taskId := lease.(released := true, head := head)],
      db.runs[runId := db.runs[runId].(status := outcome)],
      Logged(db, taskId, runId, Released(lease.epoch, outcome, head)))
  }

  /** The head a heartbeat or a release leaves behind. */
  function HeadOr(newHead: Option<string>, current: string): string {
    if newHead.Some? then newHead.value else current
  }

  ghost function Committed(db: Database, op: Op): Database
    requires Commits(db, op)
  {
    match op
    case Create(_, taskId, repository, baseSha, paths, allotted, governed) =>
      AfterCreate(db, taskId, Task(repository, GitObjectId(baseSha).value, "queued", 1, paths, allotted, 0.0, None,
                                   governed))
    case Claim(now, taskId, runId, worktree, head, ttl, runtime, budget) =>
      AfterClaim(db, taskId, runId, worktree, head, now + ttl.value, runtime, TopAttempt(db.runs, taskId) + 1,
                 budget.value)
    case Beat(now, taskId, runId, _, ttl, newHead, _) =>
      AfterBeat(db, taskId, runId, now + ttl.value, HeadOr(newHead, db.leases[taskId].head))
    case Release(_, taskId, runId, _, newHead, outcome, _) =>
      AfterRelease(db, taskId, runId, HeadOr(newHead, db.leases[taskId].head), outcome)
  }

  /** One transaction: everything or nothing. */
  ghost function Step(db: Database, op: Op): Database {
    if Commits(db, op) then Committed(db, op) else db
  }

  // ---- Invariants of the tables ----

  ghost predicate TaskOk(task: Task) {
    ValidScope(task.paths) && RepositoryIdentity(task.repository).Some? && GitObjectId(task.baseSha).Some?
  }

  ghost predicate TablesOk(db: Database) {
    && (forall id :: id in db.tasks ==> TaskOk(db.tasks[id]))
    && (forall id :: id in db.tasks && id !in db.leases ==> db.tasks[id].resultHead == None)
    && (forall id :: id in db.leases ==>
          id in db.tasks && WorktreeIdentity(db.leases[id].worktree).Some?)
  }

  ghost predicate HasRun(db: Database, id: string, e: int) {
    exists r :: r in db.runs && db.runs[r].taskId == id && db.runs[r].epoch == e
  }

  /** Every run is numbered by the owner epoch it was given, one of those its task has reached. */
  ghost predicate RunsNumbered(db: Database) {
    forall r :: r in db.runs ==>
      && db.runs[r].taskId in db.leases
      && db.runs[r].attempt == db.runs[r].epoch
      && 1 <= db.runs[r].epoch <= db.leases[db.runs[r].taskId].epoch
  }

  ghost predicate RunsDistinct(db: Database) {
    forall r, s | r in db.runs && s in db.runs && r != s ::
      db.runs[r].taskId != db.runs[s].taskId || db.runs[r].epoch != db.runs[s].epoch
  }

  ghost predicate EpochsCovered(db: Database) {
    forall id, e :: id in db.leases && 1 <= e <= db.leases[id].epoch ==> HasRun(db, id, e)
  }

  /** The owner of a lease is a run of its task and epoch; until release both run and task are running. */
  ghost predicate OwnerRuns(db: Database, id: string)
    requires id in db.leases
  {
    var lease := db.leases[id];
    && id in db.tasks && lease.ownerRun in db.runs
    && db.runs[lease.ownerRun].taskId == id && db.runs[lease.ownerRun].epoch == lease.epoch
    && (!lease.released ==> db.runs[lease.ownerRun].status == "running" && db.tasks[id].status == "running")
  }

  ghost predicate RunsOk(db: Database) {
    && RunsNumbered(db) && RunsDistinct(db) && EpochsCovered(db)
    && forall id :: id in db.leases ==> OwnerRuns(db, id)
  }

  lemma FoldIdempotentHex(s: string)
    requires GitObjectId(s).Some?
    ensures GitObjectId(GitObjectId(s).value) == GitObjectId(s) && GitObjectId(s).value != ""
  {
    Paths.FoldIdempotent(s);
    var f := Paths.Fold(s);
    forall i | 0 <= i < |f| ensures IsHex(f[i]) {
      assert IsHex(s[i]);
    }
  }

  /** The numbering of runs and leases is untouched; statuses, expiries and heads may differ. */
  ghost predicate SameNumbering(db: Database, db': Database) {
    && db'.runs.Keys == db.runs.Keys && db'.leases.Keys == db.leases.Keys
    && (forall r :: r in db.runs ==>
          && db'.runs[r].taskId == db.runs[r].taskId && db'.runs[r].attempt == db.runs[r].attempt
          && db'.runs[r].epoch == db.runs[r].epoch)
    && (forall id :: id in db.leases ==> db'.leases[id].epoch == db.leases[id].epoch)
  }

  lemma NumberingCovers(db: Database, db': Database)
    requires EpochsCovered(db) && SameNumbering(db, db')
    ensures EpochsCovered(db')
  {
    forall i, e | i in db'.leases && 1 <= e <= db'.leases[i].epoch ensures HasRun(db', i, e) {
      assert HasRun(db, i, e);
      var r :| r in db.runs && db.runs[r].taskId == i && db.runs[r].epoch == e;
      assert r in db'.runs;
    }
  }

  lemma NumberingKeeps(db: Database, db': Database)
    requires RunsNumbered(db) && RunsDistinct(db) && EpochsCovered(db) && SameNumbering(db, db')
    ensures RunsNumbered(db') && RunsDistinct(db') && EpochsCovered(db')
  {
    hide EpochsCovered;
    NumberingCovers(db, db');
  }

  /** The next attempt number is the next owner epoch. */
  lemma NextAttemptIsEpoch(db: Database, id: string)
    requires RunsOk(db)
    ensures TopAttempt(db.runs, id) + 1 == NextEpoch(db, id)
  {
    if id in db.leases && db.leases[id].epoch >= 1 {
      assert HasRun(db, id, db.leases[id].epoch);
    }
  }

  /** One more run under the next epoch of its task. */
  ghost predicate NewNumber(db: Database, db': Database, id: string, run: string) {
    && db'.runs.Keys == db.runs.Keys + {run} && db'.leases.Keys == db.leases.Keys + {id}
    && (forall r :: r in db.runs ==> db'.runs[r] == db.runs[r])
    && (forall i :: i in db.leases && i != id ==> db'.leases[i] == db.leases[i])
    && db'.runs[run].taskId == id
    && db'.runs[run].attempt == db'.runs[run].epoch == db'.leases[id].epoch == NextEpoch(db, id)
  }

  lemma NewNumberCovers(db: Database, db': Database, id: string, run: string)
    requires EpochsCovered(db) && run !in db.runs && NewNumber(db, db', id, run)
    ensures EpochsCovered(db')
  {
    forall i, e | i in db'.leases && 1 <= e <= db'.leases[i].epoch ensures HasRun(db', i, e) {
      if i == id && e == NextEpoch(db, id) {
        assert db'.runs[run].taskId == i && db'.runs[run].epoch == e;
      } else {
        assert HasRun(db, i, e);
        var r :| r in db.runs && db.runs[r].taskId == i && db.runs[r].epoch == e;
        assert r in db'.runs && db'.runs[r] == db.runs[r];
      }
    }
  }

  lemma NewNumberDistinct(db: Database, db': Database, id: string, run: string)
    requires RunsNumbered(db) && RunsDistinct(db) && run !in db.runs && NewNumber(db, db', id, run)
    ensures RunsNumbered(db') && RunsDistinct(db')
  {
    forall r | r in db'.runs && r != run ensures r in db.runs {
    }
  }

  lemma ClaimKeepsOwner(db: Database, id: string, run: string, worktree: string, head: string, expiry: real,
                        runtime: string, attempt: nat, reserved: real, i: string)
    requires id in db.tasks && run !in db.runs && (i == id || (i in db.leases && OwnerRuns(db, i)))
    ensures OwnerRuns(AfterClaim(db, id, run, worktree, head, expiry, runtime, attempt, reserved), i)
  {
  }

  lemma ClaimNumbers(db: Database, id: string, run: string, worktree: string, head: string, expiry: real,
                     runtime: string, attempt: nat, reserved: real)
    requires id in db.tasks && run !in db.runs && attempt == NextEpoch(db, id)
    ensures NewNumber(db, AfterClaim(db, id, run, worktree, head, expiry, runtime, attempt, reserved), id, run)
  {
  }

  lemma ClaimKeepsRuns(db: Database, id: string, run: string, worktree: string, head: string, expiry: real,
                       runtime: string, reserved: real)
    requires RunsOk(db) && id in db.tasks && run !in db.runs
    ensures RunsOk(AfterClaim(db, id, run, worktree, head, expiry, runtime, TopAttempt(db.runs, id) + 1, reserved))
  {
    hide RunsNumbered, RunsDistinct, EpochsCovered, OwnerRuns, NewNumber, TopAttempt;
    var attempt := TopAttempt(db.runs, id) + 1;
    var db' := AfterClaim(db, id, run, worktree, head, expiry, runtime, attempt, reserved);
    NextAttemptIsEpoch(db, id);
    ClaimNumbers(db, id, run, worktree, head, expiry, runtime, attempt, reserved);
    NewNumberCovers(db, db', id, run);
    NewNumberDistinct(db, db', id, run);
    forall i | i in db'.leases ensures OwnerRuns(db', i) {
      ClaimKeepsOwner(db, id, run, worktree, head, expiry, runtime, attempt, reserved, i);
    }
  }

  lemma CreateKeepsRuns(db: Database, id: string, task: Task)
    requires RunsOk(db) && id !in db.tasks
    ensures RunsOk(AfterCreate(db, id, task))
  {
    var db' := AfterCreate(db, id, task);
    assert RunsNumbered(db') && RunsDistinct(db') && EpochsCovered(db') by {
      NumberingKeeps(db, db');
    }
    hide RunsNumbered, RunsDistinct, EpochsCovered;
    forall i | i in db'.leases ensures OwnerRuns(db', i) {
      assert OwnerRuns(db, i);
    }
  }

  lemma BeatKeepsRuns(db: Database, id: string, run: string, expiry: real, head: string)
    requires RunsOk(db) && id in db.leases
    ensures RunsOk(AfterBeat(db, id, run, expiry, head))
  {
    var db' := AfterBeat(db, id, run, expiry, head);
    assert RunsNumbered(db') && RunsDistinct(db') && EpochsCovered(db') by {
      NumberingKeeps(db, db');
    }
    hide RunsNumbered, RunsDistinct, EpochsCovered;
    forall i | i in db'.leases ensures OwnerRuns(db', i) {
      assert OwnerRuns(db, i);
    }
  }

  lemma ReleaseKeepsOwner(db: Database, id: string, run: string, head: string, outcome: string, i: string)
    requires id in db.leases && id in db.tasks && run in db.runs && run == db.leases[id].ownerRun
    requires i in db.leases && OwnerRuns(db, i) && OwnerRuns(db, id)
    ensures OwnerRuns(AfterRelease(db, id, run, head, outcome), i)
  {
  }

  lemma ReleaseKeepsRuns(db: Database, id: string, run: string, head: string, outcome: string)
    requires RunsOk(db) && id in db.leases && id in db.tasks && run in db.runs && run == db.leases[id].ownerRun
    ensures RunsOk(AfterRelease(db, id, run, head, outcome))
  {
    hide RunsNumbered, RunsDistinct, EpochsCovered, OwnerRuns;
    var db' := AfterRelease(db, id, run, head, outcome);
    NumberingKeeps(db, db');
    forall i | i in db'.leases ensures OwnerRuns(db', i) {
      ReleaseKeepsOwner(db, id, run, head, outcome, i);
    }
  }

  lemma RunsKeptByCreate(db: Database, op: Op)
    requires RunsOk(db) && op.Create? && Commits(db, op)
    ensures RunsOk(Committed(db, op))
  {
    hide RunsOk;
    CreateKeepsRuns(db, op.taskId, Committed(db, op).tasks[op.taskId]);
  }

  lemma RunsKeptByClaim(db: Database, op: Op)
    requires RunsOk(db) && op.Claim? && Commits(db, op)
    ensures RunsOk(Committed(db, op))
  {
    hide RunsOk;
    ClaimKeepsRuns(db, op.taskId, op.runId, op.worktree, op.head, op.now + op.ttl.value, op.runtime, op.budget.value);
  }

  lemma RunsKeptByBeat(db: Database, op: Op)
    requires RunsOk(db) && op.Beat? && Commits(db, op)
    ensures RunsOk(Committed(db, op))
  {
    hide RunsOk;
    BeatKeepsRuns(db, op.taskId, op.runId, op.now + op.ttl.value, HeadOr(op.newHead, db.leases[op.taskId].head));
  }

  lemma RunsKeptByRelease(db: Database, op: Op)
    requires RunsOk(db) && op.Release? && Commits(db, op)
    ensures RunsOk(Committed(db, op))
  {
    hide RunsOk;
    ReleaseKeepsRuns(db, op.taskId, op.runId, HeadOr(op.newHead, db.leases[op.taskId].head), op.outcome);
  }

  /** Every transaction keeps the runs numbered by epoch and owned as they should be. */
  lemma RunsKept(db: Database, op: Op)
    requires RunsOk(db)
    ensures RunsOk(Step(db, op))
  {
    if Commits(db, op) {
      if op.Create? { RunsKeptByCreate(db, op); }
      if op.Claim? { RunsKeptByClaim(db, op); }
      if op.Beat? { RunsKeptByBeat(db, op); }
      if op.Release? { RunsKeptByRelease(db, op); }
    }
  }

  lemma CreateKeepsTables(db: Database, op: Op)
    requires TablesOk(db) && op.Create? && Commits(db, op)
    ensures TablesOk(Committed(db, op))
  {
    FoldIdempotentHex(op.baseSha);
    var db' := Committed(db, op);
    assert TaskOk(db'.tasks[op.taskId]);
  }

  lemma UpdateKeepsTables(db: Database, db': Database)
    requires TablesOk(db)
    requires db'.tasks.Keys == db.tasks.Keys
    requires forall id :: id in db.tasks ==>
               && db'.tasks[id].paths == db.tasks[id].paths && db'.tasks[id].repository == db.tasks[id].repository
               && db'.tasks[id].baseSha == db.tasks[id].baseSha
               && (id !in db'.leases ==> db'.tasks[id].resultHead == db.tasks[id].resultHead)
    requires forall id :: id in db.leases ==> id in db'.leases
    requires forall id :: id in db'.leases ==>
               && id in db.tasks
               && ((id in db.leases && db'.leases[id].worktree == db.leases[id].worktree)
                   || WorktreeIdentity(db'.leases[id].worktree).Some?)
    ensures TablesOk(db')
  {
    forall i | i in db'.tasks ensures TaskOk(db'.tasks[i]) {
      assert TaskOk(db.tasks[i]);
    }
  }

  lemma ClaimKeepsTables(db: Database, op: Op)
    requires TablesOk(db) && op.Claim? && Commits(db, op)
    ensures TablesOk(Committed(db, op))
  {
    hide TaskOk, CollidesLive, BudgetAllows, WorktreeIdentity, TopAttempt, ExpectedHead;
    UpdateKeepsTables(db, Committed(db, op));
  }

  lemma BeatKeepsTables(db: Database, op: Op)
    requires TablesOk(db) && op.Beat? && Commits(db, op)
    ensures TablesOk(Committed(db, op))
  {
    hide TaskOk, WorktreeIdentity;
    UpdateKeepsTables(db, Committed(db, op));
  }

  lemma ReleaseKeepsTables(db: Database, op: Op)
    requires TablesOk(db) && op.Release? && Commits(db, op)
    ensures TablesOk(Committed(db, op))
  {
    hide TaskOk, WorktreeIdentity;
    UpdateKeepsTables(db, Committed(db, op));
  }

  /** Every transaction keeps tasks well-formed and leases on existing tasks. */
  lemma TablesKept(db: Database, op: Op)
    requires TablesOk(db)
    ensures TablesOk(Step(db, op))
  {
    hide TablesOk, Commits, Committed;
    if Commits(db, op) {
      if op.Create? { CreateKeepsTables(db, op); }
      if op.Claim? { ClaimKeepsTables(db, op); }
      if op.Beat? { BeatKeepsTables(db, op); }
      if op.Release? { ReleaseKeepsTables(db, op); }
    }
  }
}
