/** The control store as an object whose methods update its tables row by row inside a transaction (store.py).
    Every method is one transaction of the history: it commits exactly when `Commits` says so, leaves exactly the
    database `Step` describes, and a refusal, however late, leaves every table as it was. */
module ControlStores {
  import opened Common
  import opened Paths
  import opened Authority
  import opened Tables
  import opened EventLog
  import opened Histories
  import opened StoreEffects

  datatype Refusal =
    | TaskInvalid | TaskExists | TtlInvalid | TaskMissing | LeaseActive | HeadMismatch | WorktreeEmpty
    | WorktreeCollision | ScopeCollision | BudgetStateInvalid | BudgetInvalid | BudgetExceeded | RunExists
    | AuthorityLost | LeaseExpired | HeadLost

  /** The refusal tells the truth about the budget: the books are unsound, the request is no sum of money, or it
      exceeds what remains. */
  predicate ExplainsBudget(task: Task, requested: Amount, why: Refusal) {
    || (why == BudgetStateInvalid && !(IsMoney(task.allotted) && 0.0 <= task.spent <= task.allotted.value))
    || (why == BudgetInvalid && !IsMoney(requested))
    || (why == BudgetExceeded && IsMoney(requested) && IsMoney(task.allotted)
        && requested.value > task.allotted.value - task.spent)
  }

  /** The refusal tells the truth about the request. */
  ghost predicate Explains(db: Database, op: Op, why: Refusal) {
    match why
    case TaskInvalid =>
      op.Create? && !(ValidScope(op.paths) && RepositoryIdentity(op.repository).Some? && GitObjectId(op.baseSha).Some?
                      && !op.allotted.NotANumber?)
    case TaskExists => op.Create? && op.taskId in db.tasks
    case TtlInvalid => (op.Claim? || op.Beat?) && !IsDuration(op.ttl)
    case TaskMissing => op.Claim? && op.taskId !in db.tasks
    case LeaseActive => op.Claim? && op.taskId in db.leases && Live(db.leases[op.taskId], op.now)
    case HeadMismatch =>
      op.Claim? && op.taskId in db.tasks && ExpectedHead(db, op.taskId) != "" && op.head != ExpectedHead(db, op.taskId)
    case WorktreeEmpty => op.Claim? && WorktreeIdentity(op.worktree).None?
    case WorktreeCollision =>
      op.Claim? && exists other :: other in db.leases && other != op.taskId && Live(db.leases[other], op.now)
                                   && WorktreeIdentity(db.leases[other].worktree) == WorktreeIdentity(op.worktree)
    case ScopeCollision =>
      op.Claim? && op.taskId in db.tasks
      && exists other :: other in db.leases && other in db.tasks && other != op.taskId
                         && Live(db.leases[other], op.now) && SameTree(db.tasks[op.taskId], db.tasks[other])
                         && ScopeOverlap(Authorities(db.tasks[op.taskId].paths), Authorities(db.tasks[other].paths))
    case BudgetStateInvalid | BudgetInvalid | BudgetExceeded =>
      op.Claim? && op.taskId in db.tasks && ExplainsBudget(db.tasks[op.taskId], op.budget, why)
    case RunExists => op.Claim? && op.runId in db.runs
    case AuthorityLost =>
      (op.Beat? || op.Release?)
      && !(op.taskId in db.leases && db.leases[op.taskId].ownerRun == op.runId && db.leases[op.taskId].epoch == op.epoch
           && !db.leases[op.taskId].released)
    case LeaseExpired =>
      (op.Beat? || op.Release?) && op.taskId in db.leases && db.leases[op.taskId].expiresAt <= op.now
    case HeadLost =>
      (op.Beat? || op.Release?) && op.taskId in db.leases && op.expected.Some?
      && db.leases[op.taskId].head != op.expected.value
  }

  // What being reachable gives the transactions.

  lemma VersionsOfReachable(db: Database)
    requires Reachable(db)
    ensures Versioned(db)
  {
    hide TablesOk, RunsOk, Reachable;
    TablesOfReachable(db);
  }

  lemma TaskOfReachable(db: Database, id: string)
    requires Reachable(db) && id in db.tasks
    ensures TaskOk(db.tasks[id])
  {
    hide RunsOk, LogOk, Reachable;
    TablesOfReachable(db);
  }

  lemma LeasesOfReachable(db: Database)
    requires Reachable(db)
    ensures forall id :: id in db.leases ==> id in db.tasks
  {
    hide RunsOk, LogOk, Reachable;
    TablesOfReachable(db);
  }

  lemma OwnerOfReachable(db: Database, id: string)
    requires Reachable(db) && id in db.leases
    ensures OwnerRuns(db, id)
  {
    hide TablesOk, LogOk, RunsNumbered, RunsDistinct, EpochsCovered, Reachable;
    TablesOfReachable(db);
  }

  /** A claim passes every check that is made before anything is written. */
  ghost predicate Claimable(db: Database, op: Op)
    requires op.Claim?
  {
    && IsDuration(op.ttl)
    && op.taskId in db.tasks
    && !(op.taskId in db.leases && Live(db.leases[op.taskId], op.now))
    && (ExpectedHead(db, op.taskId) == "" || op.head == ExpectedHead(db, op.taskId))
    && WorktreeIdentity(op.worktree).Some?
    && !CollidesLive(db, op.taskId, op.worktree, op.now)
    && BudgetAllows(db.tasks[op.taskId].allotted, db.tasks[op.taskId].spent, op.budget)
  }

  lemma ClaimCommits(db: Database, op: Op)
    requires op.Claim?
    ensures Commits(db, op) <==> Claimable(db, op) && op.runId !in db.runs
  {
    hide CollidesLive, WorktreeIdentity, BudgetAllows, ExpectedHead;
  }

  lemma ClaimableTask(db: Database, op: Op)
    requires op.Claim? && Claimable(db, op)
    ensures op.taskId in db.tasks && IsDuration(op.ttl)
  {
    hide CollidesLive, WorktreeIdentity, BudgetAllows, ExpectedHead;
  }

  lemma ClaimCommitted(db: Database, op: Op)
    requires op.Claim? && Commits(db, op)
    ensures Committed(db, op) == AfterClaim(db, op.taskId, op.runId, op.worktree, op.head, op.now + op.ttl.value,
                                            op.runtime, TopAttempt(db.runs, op.taskId) + 1, op.budget.value)
  {
    hide CollidesLive, WorktreeIdentity, BudgetAllows, TopAttempt, AfterClaim, ExpectedHead;
  }

  lemma SoundOfReachable(db: Database)
    requires Reachable(db)
    ensures TablesOk(db) && RunsOk(db)
  {
    hide Reachable, TablesOk, RunsOk, LogOk;
    TablesOfReachable(db);
  }

  lemma ClaimMeaning(db: Database, op: Op)
    requires Reachable(db) && op.Claim?
    ensures Commits(db, op) <==> ClaimPossible(db, op)
    ensures Commits(db, op) ==> ClaimWritten(db, Step(db, op), op)
  {
    hide Reachable, TablesOk, RunsOk, Commits, Committed, ClaimPossible, ClaimWritten, Step;
    SoundOfReachable(db);
    ClaimCommitsIff(db, op);
    if Commits(db, op) {
      ClaimWrites(db, op);
    }
  }

  lemma BeatMeaning(db: Database, op: Op)
    requires Reachable(db) && op.Beat?
    ensures Commits(db, op) <==> HolderActs(db, op)
    ensures Commits(db, op) ==> BeatWritten(db, Step(db, op), op)
  {
    hide Reachable, TablesOk, RunsOk, Commits, Committed, HolderActs, BeatWritten, Step;
    SoundOfReachable(db);
    HolderCommitsIff(db, op);
    if Commits(db, op) {
      BeatWrites(db, op);
    }
  }

  lemma ReleaseMeaning(db: Database, op: Op)
    requires Reachable(db) && op.Release?
    ensures Commits(db, op) <==> HolderActs(db, op)
    ensures Commits(db, op) ==> ReleaseWritten(db, Step(db, op), op)
  {
    hide Reachable, TablesOk, RunsOk, Commits, Committed, HolderActs, ReleaseWritten, Step;
    SoundOfReachable(db);
    HolderCommitsIff(db, op);
    if Commits(db, op) {
      ReleaseWrites(db, op);
    }
  }

  class ControlStore {
    var tasks: map<string, Task>
    var leases: map<string, Lease>
    var runs: map<string, Run>
    var events: seq<Event>

    ghost function Db(): Database
      reads this
    {
      Database(tasks, leases, runs, events)
    }

    /** The tables are the outcome of some history of requests. */
    ghost predicate Valid()
      reads this
    {
      Reachable(Db())
    }

    constructor ()
      ensures Valid() && Db() == EMPTY
    {
      tasks, leases, runs, events := map[], map[], map[], [];
      new;
      hide Reachable;
      EmptyReachable();
    }

    /** `_state_version`: one more than the largest version in the log. */
    method StateVersion() returns (version: nat)
      requires Valid()
      ensures version == |events| + 1
    {
      hide Reachable;
      VersionsOfReachable(Db());
      var largest := 0;
      for i := 0 to |events|
        invariant largest == i
      {
        if events[i].version > largest {
          largest := events[i].version;
        }
      }
      version := largest + 1;
    }

    /** One more than the largest attempt number among the runs of the task. */
    method NextAttempt(taskId: string) returns (attempt: nat)
      ensures attempt == TopAttempt(runs, taskId) + 1
    {
      var top: nat := 0;
      var todo := runs.Keys;
      while todo != {}
        invariant todo <= runs.Keys
        invariant forall r :: r in runs && r !in todo && runs[r].taskId == taskId ==> runs[r].attempt <= top
        invariant top == 0 || exists r :: r in runs && runs[r].taskId == taskId && runs[r].attempt == top
        decreases todo
      {
        var r :| r in todo;
        todo := todo - {r};
        if runs[r].taskId == taskId && runs[r].attempt > top {
          top := runs[r].attempt;
        }
      }
      TopAttemptUnique(runs, taskId, top);
      attempt := top + 1;
    }

    /** `create_task`. */
    method CreateTask(now: real, taskId: string, repository: string, baseSha: string, paths: seq<string>,
                      allotted: Amount, governed: bool) returns (r: Result<Task, Refusal>)
      requires Valid()
      modifies this
      ensures Valid()
      ensures var op := Create(now, taskId, repository, baseSha, paths, allotted, governed);
              && Db() == Step(old(Db()), op)
              && (r.Success? <==> Commits(old(Db()), op))
              && (r.Failure? ==> Explains(old(Db()), op, r.error))
      ensures r.Success? ==> taskId in tasks && r.value == tasks[taskId]
      // when it succeeds, and what the task then holds
      ensures r.Success? <==>
                && (forall i :: 0 <= i < |paths| ==> !IsBlank(paths[i]) && Components(paths[i]) != [])
                && RepositoryIdentity(repository).Some?
                && (|baseSha| == 40 || |baseSha| == 64) && Hexadecimal(baseSha)
                && !allotted.NotANumber?
                && taskId !in old(tasks)
      ensures r.Success? ==>
                && r.value.repository == repository && LowerCase(baseSha, r.value.baseSha)
                && r.value.paths == paths && r.value.allotted == allotted && r.value.governed == governed
                && r.value.status == "queued" && r.value.revision == 1 && r.value.spent == 0.0
                && r.value.resultHead == None
                && tasks == old(tasks)[taskId := r.value] && leases == old(leases) && runs == old(runs)
                && events == old(events) + [Event(taskId, "", Created, |old(events)| + 1)]
      ensures r.Failure? ==> Db() == old(Db())
    {
      hide Reachable, RepositoryIdentity, GitObjectId, IsAuthority, CollidesLive, BudgetAllows, ScopeOverlap,
           WorktreeIdentity, ExpectedHead, SameTree, IsBlank, Components, LowerCase, Hexadecimal;
      ghost var op := Create(now, taskId, repository, baseSha, paths, allotted, governed);
      ghost var before := Db();
      StepReachable(before, op);
      CreateCommitsIff(before, op);
      if Commits(before, op) {
        CreateWrites(before, op);
      }
      var version := StateVersion();
      var scope := ScopeAuthorities(paths);
      if scope.None? || RepositoryIdentity(repository).None? || GitObjectId(baseSha).None? || allotted.NotANumber? {
        return Failure(TaskInvalid);
      }
      if taskId in tasks {
        return Failure(TaskExists);
      }
      tasks := tasks[taskId := Task(repository, GitObjectId(baseSha).value, "queued", 1, paths, allotted, 0.0, None,
                                    governed)];
      events := events + [Event(taskId, "", Created, version)];
      assert Db() == Committed(before, op);
      r := Success(tasks[taskId]);
    }

    /** `_live_cross_task_conflicts_locked`. */
    method LiveCrossTaskConflicts(taskId: string, worktree: string, scope: seq<string>, now: real, ghost op: Op)
        returns (why: Option<Refusal>)
      requires Valid() && taskId in tasks && scope == Authorities(tasks[taskId].paths)
      requires op.Claim? && op.taskId == taskId && op.worktree == worktree && op.now == now
      ensures why.None? <==> WorktreeIdentity(worktree).Some? && !CollidesLive(Db(), taskId, worktree, now)
      ensures why.Some? ==> why.value in {WorktreeEmpty, WorktreeCollision, ScopeCollision}
                            && Explains(Db(), op, why.value)
    {
      hide Reachable, RepositoryIdentity, GitObjectId, WorktreeIdentity, ValidScope, ScopeOverlap;
      LeasesOfReachable(Db());
      var identity := WorktreeIdentity(worktree);
      if identity.None? {
        return Some(WorktreeEmpty);
      }
      var task := tasks[taskId];
      var rows := set id | id in leases.Keys && id != taskId && Live(leases[id], now);
      while rows != {}
        invariant forall id :: id in rows ==> id in leases && id != taskId && Live(leases[id], now)
        invariant forall id :: id in leases && id in tasks && id != taskId && Live(leases[id], now) && id !in rows ==>
                    !Collide(task, worktree, tasks[id], leases[id].worktree)
        decreases rows
      {
        var other :| other in rows;
        rows := rows - {other};
        var row := tasks[other];
        TaskOfReachable(Db(), other);
        if WorktreeIdentity(leases[other].worktree) == identity {
          return Some(WorktreeCollision);
        }
        if RepositoryIdentity(row.repository) != RepositoryIdentity(task.repository)
           || GitObjectId(row.baseSha) != GitObjectId(task.baseSha) {
          continue;
        }
        var theirs := ScopeAuthorities(row.paths);
        if ScopeOverlap(scope, theirs.value) {
          return Some(ScopeCollision);
        }
      }
      why := None;
    }

    /** `_validated_budget_request`: the reservation, or why it cannot be made. */
    static method ValidatedBudgetRequest(task: Task, requested: Amount) returns (r: Result<real, Refusal>)
      ensures r.Success? <==> BudgetAllows(task.allotted, task.spent, requested)
      ensures r.Success? ==> requested == Finite(r.value)
      ensures r.Failure? ==> ExplainsBudget(task, requested, r.error)
    {
      if !IsMoney(task.allotted) || task.spent < 0.0 || task.spent > task.allotted.value {
        return Failure(BudgetStateInvalid);
      }
      if !IsMoney(requested) {
        return Failure(BudgetInvalid);
      }
      var remaining := task.allotted.value - task.spent;
      if requested.value > remaining {
        return Failure(BudgetExceeded);
      }
      r := Success(requested.value);
    }

    /** The writes of a claim. The row-count guards on the two updates of the task never fire; the primary key of
        the runs is checked only after the lease has been written, and its failure undoes lease and charge. */
    method WriteClaim(taskId: string, runId: string, worktree: string, head: string, expiry: real, runtime: string,
                      epoch: nat, reserved: real, version: nat) returns (inserted: bool)
      requires taskId in tasks && epoch == NextEpoch(Db(), taskId) && version == |events| + 1
      modifies this
      ensures inserted <==> runId !in old(runs)
      ensures Db() == if inserted
                      then AfterClaim(old(Db()), taskId, runId, worktree, head, expiry, runtime,
                                      TopAttempt(old(runs), taskId) + 1, reserved)
                      else old(Db())
    {
      hide TopAttempt, IsTopAttempt;
      var task := tasks[taskId];
      var savedTasks, savedLeases := tasks, leases;
      if tasks[taskId].revision != task.revision {
        assert false;
      }
      tasks := tasks[taskId := tasks[taskId].(spent := task.spent + reserved)];
      var attempt := NextAttempt(taskId);
      leases := leases[taskId := Lease(worktree, runId, epoch, expiry, false, head, reserved)];
      if runId in runs {
        tasks, leases := savedTasks, savedLeases;
        return false;
      }
      runs := runs[runId := Run(taskId, attempt, epoch, runtime, "running")];
      if tasks[taskId].revision != task.revision {
        assert false;
      }
      tasks := tasks[taskId := tasks[taskId].(status := "running", revision := task.revision + 1)];
      events := events + [Event(taskId, runId, Claimed(epoch, worktree, head, reserved), version)];
      inserted := true;
    }

    /** The checks of a claim before anything is written: the reservation, or the first refusal. */
    method CheckClaim(ghost op: Op, now: real, taskId: string, worktree: string, head: string, ttl: Amount, budget: Amount)
        returns (r: Result<real, Refusal>)
      requires Valid() && op.Claim? && op.now == now && op.taskId == taskId && op.worktree == worktree && op.head == head
      requires op.ttl == ttl && op.budget == budget
      ensures r.Success? <==> Claimable(Db(), op)
      ensures r.Success? ==> budget == Finite(r.value)
      ensures r.Failure? ==> Explains(Db(), op, r.error)
    {
      hide Reachable, CollidesLive, WorktreeIdentity, BudgetAllows, RepositoryIdentity, GitObjectId, ScopeOverlap,
           ValidScope, SameTree, Authorities, ExplainsBudget;
      if !IsDuration(ttl) {
        return Failure(TtlInvalid);
      }
      if taskId !in tasks {
        return Failure(TaskMissing);
      }
      var task := tasks[taskId];
      TaskOfReachable(Db(), taskId);
      var scope := ScopeAuthorities(task.paths);
      if taskId in leases && !leases[taskId].released && leases[taskId].expiresAt > now {
        return Failure(LeaseActive);
      }
      var expectedHead :=
        if taskId in leases then leases[taskId].head
        else if task.resultHead.Some? && task.resultHead.value != "" then task.resultHead.value
        else task.baseSha;
      if expectedHead != "" && head != expectedHead {
        return Failure(HeadMismatch);
      }
      var collision := LiveCrossTaskConflicts(taskId, worktree, scope.value, now, op);
      if collision.Some? {
        return Failure(collision.value);
      }
      r := ValidatedBudgetRequest(task, budget);
    }

    /** `claim_workspace`. */
    method ClaimWorkspace(now: real, taskId: string, runId: string, worktree: string, head: string, ttl: Amount,
                          runtime: string, budget: Amount) returns (r: Result<Lease, Refusal>)
      requires Valid()
      modifies this
      ensures Valid()
      ensures var op := Claim(now, taskId, runId, worktree, head, ttl, runtime, budget);
              && Db() == Step(old(Db()), op)
              && (r.Success? <==> Commits(old(Db()), op))
              && (r.Failure? ==> Explains(old(Db()), op, r.error))
      ensures r.Success? ==> taskId in leases && r.value == leases[taskId]
      // when it succeeds, and what it then writes
      ensures var op := Claim(now, taskId, runId, worktree, head, ttl, runtime, budget);
              && (r.Success? <==> ClaimPossible(old(Db()), op))
              && (r.Success? ==> ClaimWritten(old(Db()), Db(), op))
              && (r.Failure? ==> Db() == old(Db()))
      ensures r == Failure(LeaseActive) ==>
                taskId in old(leases) && !old(leases)[taskId].released && now < old(leases)[taskId].expiresAt
    {
      hide Reachable, Commits, Committed, Claimable, TopAttempt, IsTopAttempt, ClaimPossible, ClaimWritten;
      ghost var op := Claim(now, taskId, runId, worktree, head, ttl, runtime, budget);
      ghost var before := Db();
      StepReachable(before, op);
      ClaimMeaning(before, op);
      ClaimCommits(before, op);
      var version := StateVersion();
      var reserved := CheckClaim(op, now, taskId, worktree, head, ttl, budget);
      if reserved.Failure? {
        return Failure(reserved.error);
      }
      ClaimableTask(before, op);
      var epoch := if taskId in leases then leases[taskId].epoch + 1 else 1;
      var inserted := WriteClaim(taskId, runId, worktree, head, now + ttl.value, runtime, epoch, reserved.value, version);
      if !inserted {
        return Failure(RunExists);
      }
      ClaimCommitted(before, op);
      r := Success(leases[taskId]);
    }

    /** `assert_writer`: an empty or missing expected head is not compared. */
    method AssertWriter(now: real, taskId: string, runId: string, epoch: int, expected: Option<string>)
        returns (ok: bool)
      ensures ok <==> && Holds(Db(), taskId, runId, epoch, now)
                      && (expected.Some? && expected.value != "" ==> leases[taskId].head == expected.value)
      ensures ok <==>
                && taskId in leases && leases[taskId].ownerRun == runId && leases[taskId].epoch == epoch
                && !leases[taskId].released && now < leases[taskId].expiresAt
                && (expected == None || expected == Some("") || expected == Some(leases[taskId].head))
    {
      if taskId !in leases || leases[taskId].ownerRun != runId || leases[taskId].epoch != epoch
         || leases[taskId].released {
        return false;
      }
      var row := leases[taskId];
      if row.expiresAt <= now {
        return false;
      }
      ok := !(expected.Some? && expected.value != "" && row.head != expected.value);
    }

    /** `heartbeat`. The row-count guard on the update never fires. */
    method Heartbeat(now: real, taskId: string, runId: string, epoch: int, ttl: Amount, newHead: Option<string>,
                     expected: Option<string>) returns (r: Result<Lease, Refusal>)
      requires Valid()
      modifies this
      ensures Valid()
      ensures var op := Beat(now, taskId, runId, epoch, ttl, newHead, expected);
              && Db() == Step(old(Db()), op)
              && (r.Success? <==> Commits(old(Db()), op))
              && (r.Failure? ==> Explains(old(Db()), op, r.error))
      ensures r.Success? ==> taskId in leases && r.value == leases[taskId]
      // when it succeeds, and what it then writes
      ensures var op := Beat(now, taskId, runId, epoch, ttl, newHead, expected);
              && (r.Success? <==> HolderActs(old(Db()), op))
              && (r.Success? ==> BeatWritten(old(Db()), Db(), op))
              && (r.Failure? ==> Db() == old(Db()))
    {
      hide Reachable, ValidScope, CollidesLive, BudgetAllows, RepositoryIdentity, GitObjectId, ScopeOverlap, WorktreeIdentity,
           ExpectedHead, SameTree, HolderActs, BeatWritten;
      ghost var op := Beat(now, taskId, runId, epoch, ttl, newHead, expected);
      ghost var before := Db();
      StepReachable(before, op);
      BeatMeaning(before, op);
      var version := StateVersion();
      if !IsDuration(ttl) {
        return Failure(TtlInvalid);
      }
      if taskId !in leases || leases[taskId].ownerRun != runId || leases[taskId].epoch != epoch
         || leases[taskId].released {
        return Failure(AuthorityLost);
      }
      var row := leases[taskId];
      if row.expiresAt <= now {
        return Failure(LeaseExpired);
      }
      if expected.Some? && row.head != expected.value {
        return Failure(HeadLost);
      }
      var head := if newHead.None? then row.head else newHead.value;
      if leases[taskId].released || leases[taskId].expiresAt <= now || leases[taskId].head != row.head {
        assert false;
      }
      leases := leases[taskId := row.(expiresAt := now + ttl.value, head := head)];
      events := events + [Event(taskId, runId, Heartbeaten(row.epoch, head), version)];
      assert Db() == Committed(before, op);
      r := Success(leases[taskId]);
    }

    /** `release`. None of the row-count guards on lease, run and task ever fires. */
    method Release(now: real, taskId: string, runId: string, epoch: int, newHead: Option<string>, outcome: string,
                   expected: Option<string>) returns (r: Result<(), Refusal>)
      requires Valid()
      modifies this
      ensures Valid()
      ensures var op := Op.Release(now, taskId, runId, epoch, newHead, outcome, expected);
              && Db() == Step(old(Db()), op)
              && (r.Success? <==> Commits(old(Db()), op))
              && (r.Failure? ==> Explains(old(Db()), op, r.error))
      // when it succeeds, and what it then writes
      ensures var op := Op.Release(now, taskId, runId, epoch, newHead, outcome, expected);
              && (r.Success? <==> HolderActs(old(Db()), op))
              && (r.Success? ==> ReleaseWritten(old(Db()), Db(), op))
              && (r.Failure? ==> Db() == old(Db()))
    {
      hide Reachable, ValidScope, CollidesLive, BudgetAllows, RepositoryIdentity, GitObjectId, ScopeOverlap, WorktreeIdentity,
           ExpectedHead, SameTree, HolderActs, ReleaseWritten;
      ghost var op := Op.Release(now, taskId, runId, epoch, newHead, outcome, expected);
      ghost var before := Db();
      StepReachable(before, op);
      ReleaseMeaning(before, op);
      var version := StateVersion();
      if taskId in leases {
        OwnerOfReachable(before, taskId);
      }
      if taskId !in leases || leases[taskId].ownerRun != runId || leases[taskId].epoch != epoch
         || leases[taskId].released {
        return Failure(AuthorityLost);
      }
      var row := leases[taskId];
      if row.expiresAt <= now {
        return Failure(LeaseExpired);
      }
      if expected.Some? && row.head != expected.value {
        return Failure(HeadLost);
      }
      var head := if newHead.None? then row.head else newHead.value;
      if leases[taskId].released || leases[taskId].expiresAt <= now || leases[taskId].head != row.head {
        assert false;
      }
      leases := leases[taskId := row.(released := true, head := head)];
      if runId !in runs || runs[runId].taskId != taskId || runs[runId].epoch != epoch || runs[runId].status != "running" {
        assert false;
      }
      runs := runs[runId := runs[runId].(status := outcome)];
      if taskId !in tasks || tasks[taskId].status != "running" {
        assert false;
      }
      tasks := tasks[taskId := tasks[taskId].(status := outcome, revision := tasks[taskId].revision + 1,
                                              resultHead := Some(head))];
      events := events + [Event(taskId, runId, Released(row.epoch, outcome, head), version)];
      assert Db() == Committed(before, op);
      r := Success(());
    }
  }
}
