/** Safety of the control store over every history of requests under a clock that never goes back (store.py). */
module Histories {
  import opened Common
  import opened Authority
  import opened Tables
  import opened EventLog

  /** The database after a history of requests, each one a transaction that commits or changes nothing. */
  ghost function After(ops: seq<Op>): Database {
    if ops == [] then EMPTY else Step(After(ops[..|ops| - 1]), ops[|ops| - 1])
  }

  /** The write lock serialises requests in clock order. */
  ghost predicate Clocked(ops: seq<Op>) {
    forall i, j :: 0 <= i < j < |ops| ==> ops[i].now <= ops[j].now
  }

  /** `t` is a moment after the first `n` requests and before the next. */
  ghost predicate Moment(ops: seq<Op>, n: nat, t: real) {
    && n <= |ops|
    && (n > 0 ==> ops[n - 1].now <= t)
    && (n < |ops| ==> t <= ops[n].now)
  }

  ghost predicate Consistent(db: Database) {
    TablesOk(db) && RunsOk(db) && LogOk(db)
  }

  lemma AfterNext(ops: seq<Op>, n: nat)
    requires n < |ops|
    ensures After(ops[..n + 1]) == Step(After(ops[..n]), ops[n])
  {
    assert ops[..n + 1][..n] == ops[..n];
  }

  lemma StepConsistent(db: Database, op: Op)
    requires Consistent(db)
    ensures Consistent(Step(db, op))
  {
    hide TablesOk, RunsOk, LogOk, Step;
    TablesKept(db, op);
    RunsKept(db, op);
    LogKept(db, op);
  }

  lemma EmptyTables()
    ensures TablesOk(EMPTY) && RunsOk(EMPTY)
  {
  }

  lemma EmptyLog()
    ensures LogOk(EMPTY)
  {
    assert forall id :: Replay([], id) == None && LastHead([], id) == None && TotalReserved([], id) == 0.0;
  }

  lemma EmptyConsistent()
    ensures Consistent(EMPTY)
  {
    hide TablesOk, RunsOk, LogOk;
    EmptyTables();
    EmptyLog();
  }

  /** Every reachable database is consistent. */
  lemma {:induction false} ReachableConsistent(ops: seq<Op>)
    ensures Consistent(After(ops))
  {
    if ops == [] {
      EmptyConsistent();
    } else {
      hide Consistent, Step;
      ReachableConsistent(ops[..|ops| - 1]);
      StepConsistent(After(ops[..|ops| - 1]), ops[|ops| - 1]);
    }
  }

  // ---- No two live leases collide ----

  ghost predicate LivePair(db: Database, a: string, b: string, now: real) {
    && a in db.leases && b in db.leases && a in db.tasks && b in db.tasks && a != b
    && Live(db.leases[a], now) && Live(db.leases[b], now)
  }

  ghost predicate Exclusive(db: Database, now: real) {
    forall a, b :: LivePair(db, a, b, now) ==>
      !Collide(db.tasks[a], db.leases[a].worktree, db.tasks[b], db.leases[b].worktree)
  }

  lemma CollideSymmetric(a: Task, v: string, b: Task, w: string)
    ensures Collide(a, v, b, w) <==> Collide(b, w, a, v)
  {
    hide RepositoryIdentity, GitObjectId, WorktreeIdentity;
    var x, y := Authorities(a.paths), Authorities(b.paths);
    if ScopeOverlap(x, y) {
      var p, q :| p in x && q in y && Entangled(p, q);
      assert Entangled(q, p);
    }
    if ScopeOverlap(y, x) {
      var p, q :| p in y && q in x && Entangled(p, q);
      assert Entangled(q, p);
    }
  }

  /** Time alone only ends leases. */
  lemma ExclusiveLater(db: Database, t: real, t': real)
    requires Exclusive(db, t) && t <= t'
    ensures Exclusive(db, t')
  {
    hide Collide;
    forall a, b | LivePair(db, a, b, t')
      ensures !Collide(db.tasks[a], db.leases[a].worktree, db.tasks[b], db.leases[b].worktree)
    {
      assert LivePair(db, a, b, t);
    }
  }

  lemma ExclusiveKept(db: Database, op: Op, t: real)
    requires Exclusive(db, t) && t <= op.now && TablesOk(db)
    ensures Exclusive(Step(db, op), op.now)
  {
    ExclusiveLater(db, t, op.now);
    if Commits(db, op) {
      var db' := Step(db, op);
      forall a, b | LivePair(db', a, b, op.now)
        ensures !Collide(db'.tasks[a], db'.leases[a].worktree, db'.tasks[b], db'.leases[b].worktree)
      {
        PairKept(db, op, a, b);
      }
    }
  }

  lemma PairKept(db: Database, op: Op, a: string, b: string)
    requires Exclusive(db, op.now) && TablesOk(db) && Commits(db, op)
    requires LivePair(Committed(db, op), a, b, op.now)
    ensures var db' := Committed(db, op);
            !Collide(db'.tasks[a], db'.leases[a].worktree, db'.tasks[b], db'.leases[b].worktree)
  {
    hide Exclusive, TablesOk, Commits, Committed, Collide;
    var db' := Committed(db, op);
    PairBefore(db, op, a, b);
    if op.Claim? && (a == op.taskId || b == op.taskId) {
      ClaimAvoids(db, op, if a == op.taskId then b else a);
      ClaimedWorktree(db, op);
      CollideSymmetric(db'.tasks[a], db'.leases[a].worktree, db'.tasks[b], db'.leases[b].worktree);
    } else {
      PairExcluded(db, op.now, a, b);
    }
  }

  lemma PairExcluded(db: Database, now: real, a: string, b: string)
    requires Exclusive(db, now) && LivePair(db, a, b, now)
    ensures !Collide(db.tasks[a], db.leases[a].worktree, db.tasks[b], db.leases[b].worktree)
  {
  }

  lemma ClaimedWorktree(db: Database, op: Op)
    requires op.Claim? && Commits(db, op)
    ensures op.taskId in Committed(db, op).leases && Committed(db, op).leases[op.taskId].worktree == op.worktree
  {
    hide CollidesLive, BudgetAllows, WorktreeIdentity, ExpectedHead, TopAttempt;
  }

  /** Of two tasks with live leases after a request, one that was not just claimed had its lease before, and collisions
      are judged as before. */
  lemma PairBefore(db: Database, op: Op, a: string, b: string)
    requires TablesOk(db) && Commits(db, op)
    requires LivePair(Committed(db, op), a, b, op.now)
    ensures a in db.tasks && b in db.tasks
    ensures forall x :: x in {a, b} && !(op.Claim? && x == op.taskId) ==>
              x in db.leases && Live(db.leases[x], op.now) && Committed(db, op).leases[x].worktree == db.leases[x].worktree
    ensures var db' := Committed(db, op);
            forall v, w :: Collide(db'.tasks[a], v, db'.tasks[b], w) <==> Collide(db.tasks[a], v, db.tasks[b], w)
    ensures var db' := Committed(db, op);
            forall v, w :: Collide(db'.tasks[b], v, db'.tasks[a], w) <==> Collide(db.tasks[b], v, db.tasks[a], w)
  {
    hide Collide, ValidScope, CollidesLive, RepositoryIdentity, GitObjectId, BudgetAllows, ExpectedHead, TopAttempt, TaskOk;
    SameCollisions(db, Committed(db, op), a, b);
  }

  /** A committed claim collides with no other live lease. */
  lemma ClaimAvoids(db: Database, op: Op, other: string)
    requires op.Claim? && Commits(db, op)
    requires other in db.leases && other in db.tasks && other != op.taskId && Live(db.leases[other], op.now)
    ensures !Collide(db.tasks[op.taskId], op.worktree, db.tasks[other], db.leases[other].worktree)
  {
    hide Collide, BudgetAllows, WorktreeIdentity, ExpectedHead;
  }

  /** Collisions depend on nothing a transaction changes about an existing task, except the claimed worktree. */
  lemma SameCollisions(db: Database, db': Database, a: string, b: string)
    requires a in db.tasks && b in db.tasks && a in db'.tasks && b in db'.tasks
    requires db'.tasks[a].paths == db.tasks[a].paths && db'.tasks[a].repository == db.tasks[a].repository
             && db'.tasks[a].baseSha == db.tasks[a].baseSha
    requires db'.tasks[b].paths == db.tasks[b].paths && db'.tasks[b].repository == db.tasks[b].repository
             && db'.tasks[b].baseSha == db.tasks[b].baseSha
    ensures forall v, w :: Collide(db'.tasks[a], v, db'.tasks[b], w) <==> Collide(db.tasks[a], v, db.tasks[b], w)
    ensures forall v, w :: Collide(db'.tasks[b], v, db'.tasks[a], w) <==> Collide(db.tasks[b], v, db.tasks[a], w)
  {
  }

  lemma {:induction false} ReachableExclusive(ops: seq<Op>, now: real)
    requires Clocked(ops) && Moment(ops, |ops|, now)
    ensures Exclusive(After(ops), now)
  {
    if ops != [] {
      hide Exclusive, Step, TablesOk, Consistent;
      var init, op := ops[..|ops| - 1], ops[|ops| - 1];
      var t := if init == [] then op.now else init[|init| - 1].now;
      ReachableExclusive(init, t);
      assert TablesOk(After(init)) by {
        ReachableConsistent(init);
        ReachableTables(init);
      }
      ExclusiveKept(After(init), op, t);
      ExclusiveLater(After(ops), op.now, now);
    }
  }

  /** Some history of requests leads to this database. */
  ghost predicate Reachable(db: Database) {
    exists ops: seq<Op> :: After(ops) == db
  }

  lemma StepReachable(db: Database, op: Op)
    requires Reachable(db)
    ensures Reachable(Step(db, op))
  {
    hide Step;
    var ops: seq<Op> :| After(ops) == db;
    assert (ops + [op])[..|ops|] == ops;
    assert After(ops + [op]) == Step(db, op);
  }

  lemma EmptyReachable()
    ensures Reachable(EMPTY)
  {
    assert After([]) == EMPTY;
  }

  lemma TablesOfReachable(db: Database)
    requires Reachable(db)
    ensures TablesOk(db) && RunsOk(db) && LogOk(db)
  {
    hide TablesOk, RunsOk, LogOk;
    var ops: seq<Op> :| After(ops) == db;
    ReachableTables(ops);
  }

  lemma ReachableTables(ops: seq<Op>)
    ensures TablesOk(After(ops)) && RunsOk(After(ops)) && LogOk(After(ops))
  {
    hide TablesOk, RunsOk, LogOk;
    ReachableConsistent(ops);
  }

  /** Two tasks that hold unreleased, unexpired leases never share a physical worktree, and when they write to
      the same repository at the same base no path lies under the scopes of both. */
  lemma NoTwoWriters(ops: seq<Op>, now: real, a: string, b: string)
    requires Clocked(ops) && Moment(ops, |ops|, now)
    requires LivePair(After(ops), a, b, now)
    ensures var db := After(ops);
            && WorktreeIdentity(db.leases[a].worktree) != WorktreeIdentity(db.leases[b].worktree)
            && (SameTree(db.tasks[a], db.tasks[b]) ==> !CommonPath(db.tasks[a].paths, db.tasks[b].paths))
  {
    var db := After(ops);
    ReachableExclusive(ops, now);
    ReachableTables(ops);
    assert TaskOk(db.tasks[a]) && TaskOk(db.tasks[b]);
    OverlapIffCommonPath(db.tasks[a].paths, db.tasks[b].paths);
  }

  // ---- Fencing ----

  /** The pair's epoch has been reached. */
  ghost predicate Reached(db: Database, id: string, e: int) {
    id in db.leases && e <= db.leases[id].epoch
  }

  lemma FencedStep(db: Database, op: Op, t: real, id: string, run: string, e: int)
    requires Reached(db, id, e) && !Holds(db, id, run, e, t) && t <= op.now
    ensures Reached(Step(db, op), id, e) && !Holds(Step(db, op), id, run, e, op.now)
  {
    hide ValidScope, CollidesLive, RepositoryIdentity, GitObjectId, BudgetAllows, WorktreeIdentity, ExpectedHead;
  }

  /** A moment just before the last of `p` requests, not before `tn`. */
  lemma EarlierMoment(ops: seq<Op>, n: nat, tn: real, p: nat, tp: real) returns (t: real)
    requires Clocked(ops) && Moment(ops, n, tn) && Moment(ops, p, tp) && n < p
    ensures Moment(ops, p - 1, t) && tn <= t <= ops[p - 1].now
  {
    t := if n < p - 1 then ops[p - 2].now else tn;
  }

  lemma NotHeldLater(db: Database, id: string, run: string, e: int, t: real, t': real)
    requires !Holds(db, id, run, e, t) && t <= t'
    ensures !Holds(db, id, run, e, t')
  {
  }

  lemma {:induction false} FencedRun(ops: seq<Op>, n: nat, tn: real, p: nat, tp: real, id: string, run: string, e: int)
    requires Clocked(ops) && Moment(ops, n, tn) && Moment(ops, p, tp) && n <= p && tn <= tp
    requires Reached(After(ops[..n]), id, e) && !Holds(After(ops[..n]), id, run, e, tn)
    ensures Reached(After(ops[..p]), id, e) && !Holds(After(ops[..p]), id, run, e, tp)
    decreases p
  {
    hide Step, Holds, Reached, After, Clocked;
    if n < p {
      var t := EarlierMoment(ops, n, tn, p, tp);
      FencedRun(ops, n, tn, p - 1, t, id, run, e);
      AfterNext(ops, p - 1);
      FencedStep(After(ops[..p - 1]), ops[p - 1], t, id, run, e);
      NotHeldLater(After(ops[..p]), id, run, e, ops[p - 1].now, tp);
    } else {
      NotHeldLater(After(ops[..p]), id, run, e, tn, tp);
    }
  }

  lemma EpochStep(db: Database, op: Op, id: string, e: int)
    requires Reached(db, id, e)
    ensures Reached(Step(db, op), id, e)
  {
    hide ValidScope, CollidesLive, RepositoryIdentity, GitObjectId, BudgetAllows, WorktreeIdentity, ExpectedHead;
  }

  lemma {:induction false} EpochRun(ops: seq<Op>, m: nat, n: nat, id: string, e: int)
    requires m <= n <= |ops| && Reached(After(ops[..m]), id, e)
    ensures Reached(After(ops[..n]), id, e)
    decreases n
  {
    hide Step, Reached, After;
    if m < n {
      EpochRun(ops, m, n - 1, id, e);
      AfterNext(ops, n - 1);
      EpochStep(After(ops[..n - 1]), ops[n - 1], id, e);
    }
  }

  /** A run and epoch that once held a task and later do not, whether released, expired or taken over, never
      hold it again: no later assertion of authority succeeds, and no later heartbeat or release commits. */
  lemma AuthorityNeverReturns(ops: seq<Op>, m: nat, tm: real, n: nat, tn: real, p: nat, tp: real,
                              id: string, run: string, e: int)
    requires Clocked(ops) && m <= n <= p
    requires Moment(ops, m, tm) && Moment(ops, n, tn) && Moment(ops, p, tp) && tn <= tp
    requires Holds(After(ops[..m]), id, run, e, tm)
    requires !Holds(After(ops[..n]), id, run, e, tn)
    ensures !Holds(After(ops[..p]), id, run, e, tp)
    ensures p < |ops| && (ops[p].Beat? || ops[p].Release?) && tp == ops[p].now
            && ops[p].taskId == id && ops[p].runId == run && ops[p].epoch == e
            ==> !Commits(After(ops[..p]), ops[p])
  {
    EpochRun(ops, m, n, id, e);
    FencedRun(ops, n, tn, p, tp, id, run, e);
  }

  /** At any moment a task has at most one writer. */
  lemma OneWriter(db: Database, id: string, now: real, r: string, e: int, r': string, e': int)
    requires Holds(db, id, r, e, now) && Holds(db, id, r', e', now)
    ensures r == r' && e == e'
  {
  }

  /** Every run carries attempt = owner epoch, one of the epochs its task has reached. */
  lemma AttemptIsEpoch(ops: seq<Op>, r: string)
    requires r in After(ops).runs
    ensures var db := After(ops);
            && db.runs[r].attempt == db.runs[r].epoch && db.runs[r].taskId in db.leases
            && 1 <= db.runs[r].epoch <= db.leases[db.runs[r].taskId].epoch
  {
    hide TablesOk, LogOk, RunsDistinct, EpochsCovered, OwnerRuns;
    ReachableTables(ops);
  }

  /** Each epoch a task has reached was given to one run and no other. */
  lemma EpochHasOneRun(ops: seq<Op>, id: string, e: int)
    requires id in After(ops).leases && 1 <= e <= After(ops).leases[id].epoch
    ensures exists r :: OnlyRun(After(ops), id, e, r)
  {
    hide TablesOk, LogOk, RunsNumbered, OwnerRuns;
    ReachableTables(ops);
    var db := After(ops);
    assert HasRun(db, id, e);
    var r :| r in db.runs && db.runs[r].taskId == id && db.runs[r].epoch == e;
    assert OnlyRun(db, id, e, r);
  }

  ghost predicate OnlyRun(db: Database, id: string, e: int, r: string) {
    && r in db.runs && db.runs[r].taskId == id && db.runs[r].epoch == e
    && forall s :: s in db.runs && db.runs[s].taskId == id && db.runs[s].epoch == e ==> s == r
  }

  // ---- Log, custody and budget ----

  /** The events of a task alone reproduce its status, revision, charge and result, and its lease. */
  lemma EventsReproduceTables(ops: seq<Op>, id: string)
    ensures Replay(After(ops).events, id) == View(After(ops), id)
  {
    hide Replay, View, TablesOk, RunsOk;
    ReachableTables(ops);
    assert Replays(After(ops));
  }

  /** State versions count 1, 2, 3 and so on. */
  lemma VersionsCount(ops: seq<Op>, i: nat)
    requires i < |After(ops).events|
    ensures After(ops).events[i].version == i + 1
  {
    hide TablesOk, RunsOk;
    ReachableTables(ops);
    assert Versioned(After(ops));
  }

  /** Every claim in the log took over the head its task had last recorded. */
  lemma CustodyOfHeads(ops: seq<Op>, i: nat)
    requires i < |After(ops).events| && After(ops).events[i].what.Claimed?
    ensures CustodyAt(After(ops), i)
  {
    hide TablesOk, RunsOk;
    ReachableTables(ops);
    assert Custody(After(ops));
  }

  /** What a task has been charged is the sum of every reservation it was ever granted, and never leaves its
      budget; nothing is charged to a task whose budget is not a sum of money. */
  lemma BudgetConserved(ops: seq<Op>, id: string)
    requires id in After(ops).tasks
    ensures var task := After(ops).tasks[id];
            task.spent == TotalReserved(After(ops).events, id) && 0.0 <= task.spent <= Cap(task.allotted)
  {
    hide TablesOk, RunsOk;
    ReachableTables(ops);
    assert Budgeted(After(ops));
  }
}
