/** What the requests of a history are worth over all of it: tasks stay what they were created as, and leases last as
    long as they were granted for (store.py). */
module StoreLaws {
  import opened Common
  import opened Paths
  import opened Authority
  import opened Tables
  import opened EventLog
  import opened Histories
  import opened StoreEffects

  // ---- Tasks are what was asked for ----

  /** The task has the repository, base, writable paths, budget and governance of the request. */
  ghost predicate AsAsked(db: Database, id: string, op: Op) {
    && op.Create? && op.taskId == id && id in db.tasks
    && db.tasks[id].repository == op.repository && LowerCase(op.baseSha, db.tasks[id].baseSha)
    && db.tasks[id].paths == op.paths && db.tasks[id].allotted == op.allotted && db.tasks[id].governed == op.governed
  }

  lemma AskedKept(db: Database, op: Op, id: string, asked: Op)
    requires AsAsked(db, id, asked)
    ensures AsAsked(Step(db, op), id, asked)
  {
    hide ValidScope, CollidesLive, RepositoryIdentity, GitObjectId, BudgetAllows, WorktreeIdentity, ExpectedHead, TopAttempt,
         LowerCase;
  }

  lemma NewTask(db: Database, op: Op, id: string)
    requires id !in db.tasks && id in Step(db, op).tasks
    ensures op.Create? && op.taskId == id && Commits(db, op) && AsAsked(Step(db, op), id, op)
  {
    if Commits(db, op) {
      hide ValidScope, CollidesLive, RepositoryIdentity, BudgetAllows, WorktreeIdentity, ExpectedHead, TopAttempt, LowerCase;
      if op.Create? {
        CreateWrites(db, op);
      }
    }
  }

  /** Every task goes back to the one request that created it, and is what that request asked for. */
  lemma {:induction false} TaskAsAsked(ops: seq<Op>, id: string) returns (i: nat)
    requires id in After(ops).tasks
    ensures i < |ops| && id !in After(ops[..i]).tasks && Commits(After(ops[..i]), ops[i])
    ensures AsAsked(After(ops), id, ops[i])
  {
    hide Step, Commits, AsAsked;
    var n := |ops| - 1;
    if id in After(ops[..n]).tasks {
      i := TaskAsAsked(ops[..n], id);
      assert ops[..n][..i] == ops[..i];
      AskedKept(After(ops[..n]), ops[n], id, ops[i]);
    } else {
      i := n;
      NewTask(After(ops[..n]), ops[n], id);
    }
  }

  lemma SameBase(a: string, b: string, x: string, y: string)
    requires LowerCase(a, x) && LowerCase(b, y) && SameLetters(a, b)
    ensures x == y
  {
    SameLettersFold(a, x);
    SameLettersFold(b, y);
    SameLettersFold(a, b);
    assert Fold(x) == x && Fold(y) == y;
  }

  /** Two tasks with live leases never share a worktree; and when the requests that created them named the same
      repository and base, the writable paths that they asked for have no path in common. */
  lemma NoTwoWritersAsked(ops: seq<Op>, now: real, a: string, b: string) returns (i: nat, j: nat)
    requires Clocked(ops) && Moment(ops, |ops|, now)
    requires var db := After(ops); a in db.leases && b in db.leases && a != b
    requires var l := After(ops).leases[a]; !l.released && now < l.expiresAt
    requires var l := After(ops).leases[b]; !l.released && now < l.expiresAt
    ensures i < |ops| && ops[i].Create? && ops[i].taskId == a && j < |ops| && ops[j].Create? && ops[j].taskId == b
    ensures Components(After(ops).leases[a].worktree) != Components(After(ops).leases[b].worktree)
    ensures SameLetters(Slashes(ops[i].repository), Slashes(ops[j].repository))
            && SameLetters(ops[i].baseSha, ops[j].baseSha)
            ==> !CommonPath(ops[i].paths, ops[j].paths)
  {
    hide Clocked, Moment, CommonPath, RepositoryIdentity, GitObjectId, Components, Canonical, SameLetters, LowerCase, Slashes,
         RunsOk, LogOk, After;
    var db := After(ops);
    ReachableTables(ops);
    NoTwoWriters(ops, now, a, b);
    i := TaskAsAsked(ops, a);
    j := TaskAsAsked(ops, b);
    CanonicalInjective(db.leases[a].worktree, db.leases[b].worktree);
    assert TaskOk(db.tasks[a]) && TaskOk(db.tasks[b]);
    if SameLetters(Slashes(ops[i].repository), Slashes(ops[j].repository)) && SameLetters(ops[i].baseSha, ops[j].baseSha) {
      SameRepository(ops[i].repository, ops[j].repository);
      SameBase(ops[i].baseSha, ops[j].baseSha, db.tasks[a].baseSha, db.tasks[b].baseSha);
    }
  }

  // ---- Leases last as long as they were granted for ----

  /** A heartbeat or a release of the task's lease that commits. */
  ghost predicate OwnMove(db: Database, op: Op, id: string) {
    (op.Beat? || op.Release?) && op.taskId == id && Commits(db, op)
  }

  /** Nothing but the holder's own heartbeat or release touches a live lease. */
  lemma LiveRowStays(db: Database, op: Op, id: string)
    requires id in db.leases && !db.leases[id].released && op.now < db.leases[id].expiresAt
    requires !OwnMove(db, op, id)
    ensures id in Step(db, op).leases && Step(db, op).leases[id] == db.leases[id]
  {
    hide ValidScope, CollidesLive, RepositoryIdentity, GitObjectId, BudgetAllows, WorktreeIdentity, ExpectedHead, TopAttempt;
  }

  /** The lease as the claim or heartbeat at `m` has left it. */
  ghost predicate Granted(db: Database, op: Op) {
    && (op.Claim? || op.Beat?) && op.taskId in db.leases && op.ttl.Finite?
    && db.leases[op.taskId].ownerRun == op.runId && !db.leases[op.taskId].released
    && db.leases[op.taskId].expiresAt == op.now + op.ttl.value
  }

  lemma CommitGrants(db: Database, op: Op)
    requires (op.Claim? || op.Beat?) && Commits(db, op)
    ensures Granted(Step(db, op), op)
    ensures op.Beat? ==> Step(db, op).leases[op.taskId].epoch == op.epoch
  {
    hide ValidScope, CollidesLive, RepositoryIdentity, GitObjectId, BudgetAllows, WorktreeIdentity, ExpectedHead, TopAttempt;
  }

  lemma {:induction false} RowLasts(ops: seq<Op>, m: nat, n: nat, tn: real)
    requires Clocked(ops) && Moment(ops, n, tn) && m < n
    requires (ops[m].Claim? || ops[m].Beat?) && Commits(After(ops[..m]), ops[m])
    requires tn < ops[m].now + ops[m].ttl.value
    requires forall k :: m < k < n ==> !OwnMove(After(ops[..k]), ops[k], ops[m].taskId)
    ensures Granted(After(ops[..m + 1]), ops[m]) && Granted(After(ops[..n]), ops[m])
    ensures After(ops[..n]).leases[ops[m].taskId] == After(ops[..m + 1]).leases[ops[m].taskId]
    decreases n
  {
    hide Step, After, Clocked, OwnMove;
    if n == m + 1 {
      AfterNext(ops, m);
      CommitGrants(After(ops[..m]), ops[m]);
    } else {
      LaterMoment(ops, m, n, tn);
      var t := EarlierMoment(ops, m + 1, ops[m].now, n, tn);
      RowLasts(ops, m, n - 1, t);
      AfterNext(ops, n - 1);
      LiveRowStays(After(ops[..n - 1]), ops[n - 1], ops[m].taskId);
    }
  }

  lemma LaterMoment(ops: seq<Op>, m: nat, n: nat, tn: real)
    requires Clocked(ops) && Moment(ops, n, tn) && m < n
    ensures Moment(ops, m + 1, ops[m].now) && ops[m].now <= tn
  {
  }

  /** After a claim or heartbeat at `t` for `d` seconds the run holds its task, under the epoch it was given, at every
      moment before `t + d`, unless a heartbeat or release of its own intervenes. */
  lemma HoldsUntilExpiry(ops: seq<Op>, m: nat, n: nat, tn: real)
    requires Clocked(ops) && Moment(ops, n, tn) && m < n
    requires (ops[m].Claim? || ops[m].Beat?) && Commits(After(ops[..m]), ops[m])
    requires tn < ops[m].now + ops[m].ttl.value
    requires forall k :: m < k < n ==> !OwnMove(After(ops[..k]), ops[k], ops[m].taskId)
    ensures ops[m].taskId in After(ops[..m + 1]).leases
    ensures Holds(After(ops[..n]), ops[m].taskId, ops[m].runId, After(ops[..m + 1]).leases[ops[m].taskId].epoch, tn)
    ensures ops[m].Beat? ==> After(ops[..m + 1]).leases[ops[m].taskId].epoch == ops[m].epoch
  {
    hide After, OwnMove, Commits;
    RowLasts(ops, m, n, tn);
    AfterNext(ops, m);
    CommitGrants(After(ops[..m]), ops[m]);
  }

  /** A claim or heartbeat on the task that commits. */
  ghost predicate Renewal(db: Database, op: Op, id: string) {
    (op.Claim? || op.Beat?) && op.taskId == id && Commits(db, op)
  }

  /** Only claims and heartbeats prolong a lease, and only a claim reopens it. */
  lemma ExpiryStays(db: Database, op: Op, id: string)
    requires id in db.leases && !Renewal(db, op, id)
    ensures id in Step(db, op).leases && Step(db, op).leases[id].expiresAt == db.leases[id].expiresAt
  {
    hide ValidScope, CollidesLive, RepositoryIdentity, GitObjectId, BudgetAllows, WorktreeIdentity, ExpectedHead, TopAttempt;
  }

  /** From `t + d` on the lease is expired, unless it was renewed: the task may be claimed again. */
  lemma {:induction false} FreeAfterExpiry(ops: seq<Op>, m: nat, n: nat)
    requires m < n <= |ops|
    requires (ops[m].Claim? || ops[m].Beat?) && Commits(After(ops[..m]), ops[m])
    requires forall k :: m < k < n ==> !Renewal(After(ops[..k]), ops[k], ops[m].taskId)
    ensures var db, id := After(ops[..n]), ops[m].taskId;
            id in db.leases && ops[m].ttl.Finite? && db.leases[id].expiresAt == ops[m].now + ops[m].ttl.value
    decreases n
  {
    hide Step, After, Renewal;
    AfterNext(ops, n - 1);
    if n == m + 1 {
      CommitGrants(After(ops[..m]), ops[m]);
    } else {
      FreeAfterExpiry(ops, m, n - 1);
      ExpiryStays(After(ops[..n - 1]), ops[n - 1], ops[m].taskId);
    }
  }
}
