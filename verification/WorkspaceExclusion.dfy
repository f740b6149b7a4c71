/** Workers of governed launches and the leases they run under (daemon.py over store.py): while their leases are live,
    two workers never share a physical worktree. This is why the host launcher need not guard against a second launch
    on its workspace. */
module WorkspaceExclusion {
  import opened Common
  import opened Authority
  import opened Tables
  import opened Histories
  import opened GovernedLaunch

  /** The launch goes by a lease row that its claim returned. */
  predicate Goes(l: Launch) {
    (l.Recording? && l.outcome.Granted?) || l.Leased? || l.Admitted? || l.Working?
  }

  function RowOf(l: Launch): Lease
    requires Goes(l)
  {
    if l.Recording? then l.outcome.lease else l.lease
  }

  /** The row is one the task's lease has had: until the next claim the lease has its owner and worktree. */
  ghost predicate HadLease(db: Database, id: string, run: string, row: Lease) {
    && id in db.leases && row.epoch <= db.leases[id].epoch
    && (db.leases[id].epoch == row.epoch ==> db.leases[id].ownerRun == run && db.leases[id].worktree == row.worktree)
  }

  ghost predicate RowsOk(s: State) {
    forall c :: c in s.calls && Goes(s.calls[c]) ==>
      HadLease(s.db, s.calls[c].taskId, s.calls[c].runId, RowOf(s.calls[c]))
  }

  lemma HadLeaseKept(db: Database, op: Op, id: string, run: string, row: Lease)
    requires HadLease(db, id, run, row)
    ensures HadLease(Step(db, op), id, run, row)
  {
    hide ValidScope, CollidesLive, RepositoryIdentity, GitObjectId, BudgetAllows, WorktreeIdentity, ExpectedHead, TopAttempt;
  }

  lemma ClaimGivesLease(db: Database, op: Op)
    requires op.Claim? && Commits(db, op)
    ensures HadLease(Step(db, op), op.taskId, op.runId, ClaimedLease(db, op))
  {
    hide ValidScope, CollidesLive, RepositoryIdentity, GitObjectId, BudgetAllows, WorktreeIdentity, ExpectedHead, TopAttempt;
  }

  /** The transaction a step makes, if any. */
  function OpOf(a: Act): Option<Op> {
    match a
    case CommitClaim(_, op, _) => Some(op)
    case ReleaseLease(_, op) => Some(op)
    case Other(op) => Some(op)
    case _ => None
  }

  lemma DbAfter(s: State, a: Act)
    requires Enabled(s, a)
    ensures Do(s, a).db == if OpOf(a).Some? then Step(s.db, OpOf(a).value) else s.db
  {
    hide Step, Commits;
  }

  /** The launches that make no step keep their state, and one that goes on keeps its row. */
  lemma RowCarried(s: State, a: Act, d: nat)
    requires Inv(s) && Enabled(s, a) && d in Do(s, a).calls && Goes(Do(s, a).calls[d])
    requires !(a.CommitClaim? && d == a.c)
    ensures d in s.calls && Goes(s.calls[d]) && RowOf(Do(s, a).calls[d]) == RowOf(s.calls[d])
    ensures Do(s, a).calls[d].taskId == s.calls[d].taskId && Do(s, a).calls[d].runId == s.calls[d].runId
  {
    hide Step, Commits, Reachable, WorkersOk, OnePerRun, EntriesOk, NoWorker, Charged;
    NoWake(s, a);
    if a.OpenClaim? {
      assert CallOk(s, a.c);
    }
  }

  lemma RowsKept(s: State, a: Act)
    requires Inv(s) && RowsOk(s) && Enabled(s, a)
    ensures RowsOk(Do(s, a))
  {
    hide Inv, Enabled, Do, HadLease, Step, Commits;
    var s' := Do(s, a);
    DbAfter(s, a);
    forall d | d in s'.calls && Goes(s'.calls[d])
      ensures HadLease(s'.db, s'.calls[d].taskId, s'.calls[d].runId, RowOf(s'.calls[d]))
    {
      if a.CommitClaim? && d == a.c {
        ClaimRow(s, a);
      } else {
        RowCarried(s, a, d);
        if OpOf(a).Some? {
          HadLeaseKept(s.db, OpOf(a).value, s.calls[d].taskId, s.calls[d].runId, RowOf(s.calls[d]));
        }
      }
    }
  }

  lemma ClaimRow(s: State, a: Act)
    requires Enabled(s, a) && a.CommitClaim? && Goes(Do(s, a).calls[a.c])
    ensures var l := Do(s, a).calls[a.c]; HadLease(Do(s, a).db, l.taskId, l.runId, RowOf(l))
  {
    hide HadLease, Step, ValidScope, CollidesLive, RepositoryIdentity, GitObjectId, WorktreeIdentity, ExpectedHead, NextEpoch;
    ClaimGivesLease(s.db, a.op);
  }

  // ---- The store's history ----

  /** The transactions of a run, in order. */
  function OpsOf(acts: seq<Act>): seq<Op> {
    if acts == [] then []
    else
      var before, last := OpsOf(acts[..|acts| - 1]), OpOf(acts[|acts| - 1]);
      if last.Some? then before + [last.value] else before
  }

  lemma {:induction false} StoreFollows(ss: seq<State>, acts: seq<Act>, n: nat)
    requires Interleaving(ss, acts) && n < |ss|
    ensures ss[n].db == After(OpsOf(acts[..n])) && Inv(ss[n]) && RowsOk(ss[n])
  {
    hide Inv, RowsOk, Enabled, Do, Step;
    InterleavingKeeps(ss, acts, n);
    if n == 0 {
      NoRows();
    } else {
      StoreFollows(ss, acts, n - 1);
      assert Follows(ss[n - 1], acts[n - 1], ss[n]);
      RowsKept(ss[n - 1], acts[n - 1]);
      DbAfter(ss[n - 1], acts[n - 1]);
      assert acts[..n][..n - 1] == acts[..n - 1];
      var before := OpsOf(acts[..n - 1]);
      if OpOf(acts[n - 1]).Some? {
        assert (before + [OpOf(acts[n - 1]).value])[..|before|] == before;
      }
    }
  }

  lemma NoRows()
    ensures RowsOk(START)
  {
  }

  /** Two workers whose leases are both live run in different physical worktrees, provided the clock never goes back;
      and they run in the worktrees that their leases name. */
  lemma WorkersApart(ss: seq<State>, acts: seq<Act>, n: nat, now: real, c: nat, d: nat)
    requires Interleaving(ss, acts) && n < |ss|
    requires var ops := OpsOf(acts[..n]); Clocked(ops) && Moment(ops, |ops|, now)
    requires c in ss[n].calls && d in ss[n].calls && c != d
    requires ss[n].calls[c].Working? && ss[n].calls[d].Working?
    requires var l := ss[n].calls[c]; Holds(ss[n].db, l.taskId, l.runId, l.lease.epoch, now)
    requires var l := ss[n].calls[d]; Holds(ss[n].db, l.taskId, l.runId, l.lease.epoch, now)
    ensures WorktreeIdentity(ss[n].calls[c].lease.worktree) != WorktreeIdentity(ss[n].calls[d].lease.worktree)
    ensures var l := ss[n].calls[c]; ss[n].db.leases[l.taskId].worktree == l.lease.worktree
  {
    hide WorktreeIdentity, Clocked, Moment;
    StoreFollows(ss, acts, n);
    var s := ss[n];
    var k, l := s.calls[c], s.calls[d];
    DifferentTasks(s, c, d, now);
    assert HadLease(s.db, k.taskId, k.runId, k.lease) && HadLease(s.db, l.taskId, l.runId, l.lease);
    TasksLeased(s.db);
    NoTwoWriters(OpsOf(acts[..n]), now, k.taskId, l.taskId);
  }

  lemma TasksLeased(db: Database)
    requires Reachable(db)
    ensures forall id :: id in db.leases ==> id in db.tasks
  {
    hide Reachable, RunsOk;
    TablesOfReachable(db);
  }

  lemma DifferentTasks(s: State, c: nat, d: nat, now: real)
    requires Inv(s) && c in s.calls && d in s.calls && c != d && s.calls[c].Working? && s.calls[d].Working?
    requires Holds(s.db, s.calls[c].taskId, s.calls[c].runId, s.calls[c].lease.epoch, now)
    requires Holds(s.db, s.calls[d].taskId, s.calls[d].runId, s.calls[d].lease.epoch, now)
    ensures s.calls[c].taskId != s.calls[d].taskId && Reachable(s.db)
  {
    hide Reachable, EntriesOk, WorkersOk, CallOk;
    assert OnePerRun(s);
  }

  // ---- Launches that return in time ----

  predicate Governed(db: Database, id: string) {
    id in db.tasks && db.tasks[id].governed
  }

  /** Governed tasks stay governed, and every launch is of one. */
  ghost predicate CallsGoverned(s: State) {
    forall c :: c in s.calls && !s.calls[c].Over? ==> Governed(s.db, s.calls[c].taskId)
  }

  lemma GovernedKept(db: Database, op: Op, id: string)
    requires Governed(db, id)
    ensures Governed(Step(db, op), id)
  {
    hide ValidScope, CollidesLive, RepositoryIdentity, GitObjectId, BudgetAllows, WorktreeIdentity, ExpectedHead, TopAttempt;
  }

  lemma CallsGovernedKept(s: State, a: Act)
    requires CallsGoverned(s) && Enabled(s, a)
    ensures CallsGoverned(Do(s, a))
  {
    hide Step, Commits, Governed;
    var s' := Do(s, a);
    DbAfter(s, a);
    forall d | d in s'.calls && !s'.calls[d].Over? ensures Governed(s'.db, s'.calls[d].taskId) {
      if d in s.calls {
        assert s'.calls[d].taskId == s.calls[d].taskId;
        if OpOf(a).Some? {
          GovernedKept(s.db, OpOf(a).value, s.calls[d].taskId);
        }
      } else {
        BeginsGoverned(s, a);
      }
    }
  }

  lemma BeginsGoverned(s: State, a: Act)
    requires Enabled(s, a) && a.Begin?
    ensures Governed(s.db, a.taskId)
  {
  }

  /** The row is the lease, as it stands in the tables. */
  ghost predicate Current(db: Database, id: string, run: string, row: Lease) {
    id in db.leases && db.leases[id] == row && row.ownerRun == run && !row.released
  }

  ghost predicate RowsCurrent(s: State) {
    forall c :: c in s.calls && Goes(s.calls[c]) ==>
      Current(s.db, s.calls[c].taskId, s.calls[c].runId, RowOf(s.calls[c]))
  }

  lemma ClaimCurrent(db: Database, op: Op)
    requires op.Claim? && Commits(db, op)
    ensures Current(Step(db, op), op.taskId, op.runId, ClaimedLease(db, op))
  {
    hide ValidScope, CollidesLive, RepositoryIdentity, GitObjectId, BudgetAllows, WorktreeIdentity, ExpectedHead, TopAttempt;
  }

  /** A request on another task leaves a lease alone, and so does one that would take over or release a live lease of
      another run. */
  lemma CurrentKept(db: Database, op: Op, id: string, run: string, row: Lease)
    requires Current(db, id, run, row) && op.now < row.expiresAt
    requires op.Create? || op.taskId != id || op.Claim? || (op.Release? && op.runId != run)
    ensures Current(Step(db, op), id, run, row)
  {
    hide ValidScope, CollidesLive, RepositoryIdentity, GitObjectId, BudgetAllows, WorktreeIdentity, ExpectedHead, TopAttempt;
  }

  /** The steps that are taken while a launch goes by its lease come before the lease expires. */
  ghost predicate OnTime(s: State, now: real) {
    forall c :: c in s.calls && Goes(s.calls[c]) ==> now < RowOf(s.calls[c]).expiresAt
  }

  lemma OpHarmless(s: State, a: Act, d: nat)
    requires Inv(s) && CallsGoverned(s) && Enabled(s, a) && OpOf(a).Some?
    requires d in s.calls && Goes(s.calls[d]) && !(a.CommitClaim? && d == a.c)
    ensures var op, l := OpOf(a).value, s.calls[d];
            op.Create? || op.taskId != l.taskId || op.Claim? || (op.Release? && op.runId != l.runId)
  {
    hide Step, Commits, Reachable, WorkersOk, EntriesOk, CallOk;
    assert OnePerRun(s);
    assert Governed(s.db, s.calls[d].taskId);
  }

  lemma CurrentStep(s: State, a: Act, now: real)
    requires Inv(s) && CallsGoverned(s) && RowsCurrent(s) && Enabled(s, a)
    requires OnTime(s, now) && (OpOf(a).Some? ==> OpOf(a).value.now == now)
    ensures RowsCurrent(Do(s, a))
  {
    hide Inv, Enabled, Do, Current, Step, Commits, CallsGoverned;
    var s' := Do(s, a);
    DbAfter(s, a);
    forall d | d in s'.calls && Goes(s'.calls[d])
      ensures Current(s'.db, s'.calls[d].taskId, s'.calls[d].runId, RowOf(s'.calls[d]))
    {
      if a.CommitClaim? && d == a.c {
        ClaimRowCurrent(s, a);
      } else {
        RowCarried(s, a, d);
        if OpOf(a).Some? {
          OpHarmless(s, a, d);
          CurrentKept(s.db, OpOf(a).value, s.calls[d].taskId, s.calls[d].runId, RowOf(s.calls[d]));
        }
      }
    }
  }

  lemma ClaimRowCurrent(s: State, a: Act)
    requires Enabled(s, a) && a.CommitClaim? && Goes(Do(s, a).calls[a.c])
    ensures var l := Do(s, a).calls[a.c]; Current(Do(s, a).db, l.taskId, l.runId, RowOf(l))
  {
    hide Current, Step, ValidScope, CollidesLive, RepositoryIdentity, GitObjectId, WorktreeIdentity, ExpectedHead, NextEpoch;
    ClaimCurrent(s.db, a.op);
  }

  /** When each step happens: the clock never goes back, transactions read it, and launches return in time. */
  ghost predicate Timely(ss: seq<State>, acts: seq<Act>, times: seq<real>) {
    && |times| == |acts| && |ss| == |acts| + 1
    && (forall i, j :: 0 <= i < j < |times| ==> times[i] <= times[j])
    && (forall i :: 0 <= i < |acts| ==>
          OnTime(ss[i], times[i]) && (OpOf(acts[i]).Some? ==> OpOf(acts[i]).value.now == times[i]))
  }

  lemma {:induction false} TimelyCurrent(ss: seq<State>, acts: seq<Act>, times: seq<real>, n: nat)
    requires Interleaving(ss, acts) && Timely(ss, acts, times) && n < |ss|
    ensures CallsGoverned(ss[n]) && RowsCurrent(ss[n])
  {
    hide Inv, RowsCurrent, CallsGoverned, Enabled, Do, OnTime;
    if n == 0 {
      NoCalls();
    } else {
      TimelyCurrent(ss, acts, times, n - 1);
      InterleavingKeeps(ss, acts, n - 1);
      assert Follows(ss[n - 1], acts[n - 1], ss[n]);
      CallsGovernedKept(ss[n - 1], acts[n - 1]);
      CurrentStep(ss[n - 1], acts[n - 1], times[n - 1]);
    }
  }

  lemma NoCalls()
    ensures RowsCurrent(START) && CallsGoverned(START)
  {
  }

  /** The transactions of a timely run come in clock order, and the time of its last step is a moment after them. */
  lemma {:induction false} OpsClocked(ss: seq<State>, acts: seq<Act>, times: seq<real>, n: nat, now: real)
    requires Timely(ss, acts, times) && n <= |acts| && (n > 0 ==> times[n - 1] <= now)
    ensures var ops := OpsOf(acts[..n]);
            Clocked(ops) && Moment(ops, |ops|, now) && forall i :: 0 <= i < |ops| ==> ops[i].now <= now
  {
    hide OnTime;
    if n > 0 {
      OpsClocked(ss, acts, times, n - 1, times[n - 1]);
      assert acts[..n][..n - 1] == acts[..n - 1];
    }
  }

  /** Two launches in the worker never share a physical worktree, if launches return before their leases expire. */
  lemma TimelyWorkersApart(ss: seq<State>, acts: seq<Act>, times: seq<real>, n: nat, now: real, c: nat, d: nat)
    requires Interleaving(ss, acts) && Timely(ss, acts, times) && n < |ss|
    requires (n > 0 ==> times[n - 1] <= now) && OnTime(ss[n], now)
    requires c in ss[n].calls && d in ss[n].calls && c != d
    requires ss[n].calls[c].Working? && ss[n].calls[d].Working?
    ensures WorktreeIdentity(ss[n].calls[c].lease.worktree) != WorktreeIdentity(ss[n].calls[d].lease.worktree)
  {
    hide WorktreeIdentity, Inv, Clocked, Moment;
    TimelyCurrent(ss, acts, times, n);
    OpsClocked(ss, acts, times, n, now);
    WorkersApart(ss, acts, n, now, c, d);
  }

  /** A launch is in the worker from its spawn until it returns. */
  lemma {:induction false} WorksUntilReturn(ss: seq<State>, acts: seq<Act>, i: nat, n: nat)
    requires Interleaving(ss, acts) && i < n < |ss| && acts[i].Spawn?
    requires forall k :: i < k < n ==> !(acts[k].Return? && acts[k].c == acts[i].c)
    ensures var c := acts[i].c;
            && c in ss[i].calls && ss[i].calls[c].Admitted?
            && c in ss[n].calls && ss[n].calls[c].Working? && ss[n].calls[c].lease == ss[i].calls[c].lease
  {
    assert Follows(ss[n - 1], acts[n - 1], ss[n]);
    if n > i + 1 {
      WorksUntilReturn(ss, acts, i, n - 1);
    }
  }

  lemma SpawnOnTime(s: State, a: Act, now: real)
    requires Inv(s) && Enabled(s, a) && a.Spawn? && OnTime(s, now)
    ensures OnTime(Do(s, a), now)
  {
    hide Inv, Enabled, Do;
    forall d | d in Do(s, a).calls && Goes(Do(s, a).calls[d]) ensures now < RowOf(Do(s, a).calls[d]).expiresAt {
      RowCarried(s, a, d);
    }
  }

  /** The launches that the host runs on one physical worktree come one after the other: before the second worker is
      spawned the first launch has returned. */
  lemma LaunchesDoNotOverlap(ss: seq<State>, acts: seq<Act>, times: seq<real>, i: nat, j: nat)
    requires Interleaving(ss, acts) && Timely(ss, acts, times) && i < j < |acts|
    requires acts[i].Spawn? && acts[j].Spawn?
    requires acts[i].c in ss[i].calls && ss[i].calls[acts[i].c].Admitted?
    requires acts[j].c in ss[j].calls && ss[j].calls[acts[j].c].Admitted?
    requires WorktreeIdentity(ss[i].calls[acts[i].c].lease.worktree)
             == WorktreeIdentity(ss[j].calls[acts[j].c].lease.worktree)
    ensures exists k :: i < k < j && acts[k].Return? && acts[k].c == acts[i].c
  {
    hide WorktreeIdentity, OnTime, Inv;
    if forall k :: i < k < j ==> !(acts[k].Return? && acts[k].c == acts[i].c) {
      WorksUntilReturn(ss, acts, i, j);
      WorksUntilReturn(ss, acts, i, j + 1);
      WorksUntilReturn(ss, acts, j, j + 1);
      InterleavingKeeps(ss, acts, j);
      assert Follows(ss[j], acts[j], ss[j + 1]);
      SpawnOnTime(ss[j], acts[j], times[j]);
      TimelyWorkersApart(ss, acts, times, j + 1, times[j], acts[i].c, acts[j].c);
      assert false;
    }
  }
}
