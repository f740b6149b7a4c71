/** Governed launches (`run.launch_governed`, daemon.py), as the interleaving of the steps of any number of launch
    requests between lock regions and store transactions, with any other traffic on tasks that are not governed.

    The request-level idempotency of `_idem` only removes executions of the launch body, so the steps below, which
    let any number of bodies run with any parameters, cover every choice of idempotency keys. The internal claim runs
    under a key derived from the daemon's capability and the run id, which no client can name; its table entries are
    modelled, one per run id, and may be evicted once finished. */
module GovernedLaunch {
  import opened Common
  import opened Authority
  import opened Tables
  import opened EventLog
  import opened Histories

  /** What the internal claim gives its caller: the row of the lease, or an error. */
  datatype ClaimOutcome = Granted(lease: Lease) | Refused

  datatype ClaimEntry = ClaimEntry(digest: nat, owner: nat, outcome: Option<ClaimOutcome>)

  /** How far a launch body has come. */
  datatype Launch =
    | Loaded(taskId: string, runId: string)                                // the task was read and is governed
    | Launching(taskId: string, runId: string)                             // the run id is registered as active
    | Approved(taskId: string, runId: string, budget: real)                // all checks on the request passed
    | Claiming(taskId: string, runId: string, budget: real)                // owns the internal claim
    | Recording(taskId: string, runId: string, budget: real, outcome: ClaimOutcome)
    | Awaiting(taskId: string, runId: string, budget: real, on: nat)       // the claim is pending elsewhere
    | Leased(taskId: string, runId: string, budget: real, lease: Lease)
    | Admitted(taskId: string, runId: string, budget: real, lease: Lease)
    | Working(taskId: string, runId: string, budget: real, lease: Lease)   // inside run_governed_worker
    | Releasing(taskId: string, runId: string, epoch: nat)                 // the worker ended release-safe
    | Leaving(taskId: string, runId: string)
    | Over

  datatype Worker = Worker(taskId: string, runId: string, budget: real, worktree: string)

  datatype State = State(db: Database, entries: map<string, ClaimEntry>, active: set<string>,
                         calls: map<nat, Launch>, workers: seq<Worker>)

  const START := State(EMPTY, map[], {}, map[], [])

  datatype Act =
    | Begin(c: nat, taskId: string, runId: string)
    | Register(c: nat)
    | Approve(c: nat, budget: real)
    | Fail(c: nat)
    | OpenClaim(c: nat, digest: nat)
    | CommitClaim(c: nat, op: Op, raises: bool)   // after a commit, signing the envelope may still fail
    | RefuseClaim(c: nat)
    | RecordClaim(c: nat)
    | WakeClaim(c: nat)
    | Admit(c: nat)
    | Spawn(c: nat)
    | Return(c: nat, releaseSafe: bool)
    | ReleaseLease(c: nat, op: Op)
    | Leave(c: nat)
    | EvictClaims(gone: set<string>)
    | Other(op: Op)

  /** The clients' own requests: new tasks, and claims, heartbeats and releases of tasks that are not governed. */
  predicate Unprivileged(db: Database, op: Op) {
    op.Create? || (op.taskId in db.tasks && !db.tasks[op.taskId].governed)
  }

  ghost predicate Enabled(s: State, a: Act) {
    match a
    case Begin(c, taskId, _) => c !in s.calls && taskId in s.db.tasks && s.db.tasks[taskId].governed
    case Register(c) => c in s.calls && s.calls[c].Loaded?
    case Approve(c, budget) => c in s.calls && s.calls[c].Launching? && budget > 0.0
    case Fail(c) => c in s.calls && (s.calls[c].Launching? || s.calls[c].Approved? || s.calls[c].Leased?)
    case OpenClaim(c, _) => c in s.calls && s.calls[c].Approved?
    case CommitClaim(c, op, _) =>
      && c in s.calls && s.calls[c].Claiming?
      && op.Claim? && op.taskId == s.calls[c].taskId && op.runId == s.calls[c].runId
      && op.budget == Finite(s.calls[c].budget)
    case RefuseClaim(c) => c in s.calls && s.calls[c].Claiming?
    case RecordClaim(c) => c in s.calls && s.calls[c].Recording? && s.calls[c].runId in s.entries
    case WakeClaim(c) =>
      && c in s.calls && s.calls[c].Awaiting?
      && !(s.calls[c].runId in s.entries && s.entries[s.calls[c].runId].outcome.None?
           && s.entries[s.calls[c].runId].owner == s.calls[c].on)
    case Admit(c) => c in s.calls && s.calls[c].Leased?
    case Spawn(c) => c in s.calls && s.calls[c].Admitted?
    case Return(c, _) => c in s.calls && s.calls[c].Working?
    case ReleaseLease(c, op) =>
      && c in s.calls && s.calls[c].Releasing?
      && op.Release? && op.taskId == s.calls[c].taskId && op.runId == s.calls[c].runId && op.epoch == s.calls[c].epoch
    case Leave(c) => c in s.calls && s.calls[c].Leaving?
    case EvictClaims(gone) => forall r :: r in gone && r in s.entries ==> s.entries[r].outcome.Some?
    case Other(op) => Unprivileged(s.db, op)
  }

  /** The row that a committed claim writes and returns. */
  function ClaimedLease(db: Database, op: Op): Lease
    requires op.Claim? && IsDuration(op.ttl) && IsMoney(op.budget)
  {
    Lease(op.worktree, op.runId, NextEpoch(db, op.taskId), op.now + op.ttl.value, false, op.head, op.budget.value)
  }

  function Moved(s: State, c: nat, to: Launch): State {
    s.(calls := s.calls[c := to])
  }

  ghost function Do(s: State, a: Act): State
    requires Enabled(s, a)
  {
    match a
    case Begin(c, taskId, runId) => Moved(s, c, Loaded(taskId, runId))
    case Register(c) =>
      var Loaded(taskId, runId) := s.calls[c];
      if runId in s.db.runs || runId in s.active then Moved(s, c, Over)
      else Moved(s, c, Launching(taskId, runId)).(active := s.active + {runId})
    case Approve(c, budget) => Moved(s, c, Approved(s.calls[c].taskId, s.calls[c].runId, budget))
    case Fail(c) => Moved(s, c, Leaving(s.calls[c].taskId, s.calls[c].runId))
    case OpenClaim(c, digest) =>
      var Approved(taskId, runId, budget) := s.calls[c];
      if runId !in s.entries then
        Moved(s, c, Claiming(taskId, runId, budget)).(entries := s.entries[runId := ClaimEntry(digest, c, None)])
      else
        var entry := s.entries[runId];
        if entry.digest != digest then Moved(s, c, Leaving(taskId, runId))
        else if entry.outcome.None? then Moved(s, c, Awaiting(taskId, runId, budget, entry.owner))
        else Moved(s, c, Answered(taskId, runId, budget, entry.outcome.value))
    case CommitClaim(c, op, raises) =>
      var Claiming(taskId, runId, budget) := s.calls[c];
      Moved(s, c, Recording(taskId, runId, budget,
                            if Commits(s.db, op) && !raises then Granted(ClaimedLease(s.db, op)) else Refused))
        .(db := Step(s.db, op))
    case RefuseClaim(c) =>
      var Claiming(taskId, runId, budget) := s.calls[c];
      Moved(s, c, Recording(taskId, runId, budget, Refused))
    case RecordClaim(c) =>
      var Recording(taskId, runId, budget, outcome) := s.calls[c];
      Moved(s, c, Answered(taskId, runId, budget, outcome))
        .(entries := s.entries[runId := s.entries[runId].(outcome := Some(outcome))])
    case WakeClaim(c) =>
      var Awaiting(taskId, runId, budget, _) := s.calls[c];
      Moved(s, c, if runId in s.entries && s.entries[runId].outcome.Some?
                  then Answered(taskId, runId, budget, s.entries[runId].outcome.value)
                  else Leaving(taskId, runId))
    case Admit(c) =>
      var Leased(taskId, runId, budget, lease) := s.calls[c];
      Moved(s, c, Admitted(taskId, runId, budget, lease))
    case Spawn(c) =>
      var Admitted(taskId, runId, budget, lease) := s.calls[c];
      Moved(s, c, Working(taskId, runId, budget, lease))
        .(workers := s.workers + [Worker(taskId, runId, budget, lease.worktree)])
    case Return(c, releaseSafe) =>
      var Working(taskId, runId, _, lease) := s.calls[c];
      Moved(s, c, if releaseSafe then Releasing(taskId, runId, lease.epoch) else Leaving(taskId, runId))
    case ReleaseLease(c, op) =>
      Moved(s, c, Leaving(s.calls[c].taskId, s.calls[c].runId)).(db := Step(s.db, op))
    case Leave(c) => Moved(s, c, Over).(active := s.active - {s.calls[c].runId})
    case EvictClaims(gone) => s.(entries := s.entries - gone)
    case Other(op) => s.(db := Step(s.db, op))
  }

  /** What the caller of the internal claim goes on to do with its outcome. */
  function Answered(taskId: string, runId: string, budget: real, outcome: ClaimOutcome): Launch {
    match outcome
    case Granted(lease) => Leased(taskId, runId, budget, lease)
    case Refused => Leaving(taskId, runId)
  }

  ghost predicate Follows(s: State, a: Act, s': State) {
    Enabled(s, a) && s' == Do(s, a)
  }

  ghost predicate Interleaving(ss: seq<State>, acts: seq<Act>) {
    && |ss| == |acts| + 1 && ss[0] == START
    && forall i :: 0 <= i < |acts| ==> Follows(ss[i], acts[i], ss[i + 1])
  }

  // ---- The invariant ----

  /** The run id is registered on behalf of this launch. */
  predicate Registered(l: Launch) {
    !l.Loaded? && !l.Over?
  }

  /** The claim of this launch has not been granted yet. */
  predicate Unclaimed(l: Launch) {
    l.Launching? || l.Approved? || l.Claiming? || (l.Recording? && l.outcome.Refused?)
  }

  /** The claim was granted and the worker has not been started. */
  predicate Unspent(l: Launch) {
    (l.Recording? && l.outcome.Granted?) || l.Leased? || l.Admitted?
  }

  /** The log holds a claim of the task by this run for this amount. */
  ghost predicate Charged(db: Database, taskId: string, runId: string, budget: real) {
    exists i :: 0 <= i < |db.events| && ChargedAt(db.events[i], taskId, runId, budget)
  }

  predicate ChargedAt(e: Event, taskId: string, runId: string, budget: real) {
    e.taskId == taskId && e.runId == runId && e.what.Claimed? && e.what.reserved == budget
  }

  ghost predicate NoWorker(s: State, runId: string) {
    forall i :: 0 <= i < |s.workers| ==> s.workers[i].runId != runId
  }

  ghost predicate GrantedEntry(s: State, runId: string) {
    runId in s.entries && s.entries[runId].outcome.Some? && s.entries[runId].outcome.value.Granted?
  }

  ghost predicate CallOk(s: State, c: nat)
    requires c in s.calls
  {
    var l := s.calls[c];
    && !l.Awaiting?
    && (Registered(l) ==> l.runId in s.active)
    && (Unclaimed(l) ==> NoWorker(s, l.runId) && !GrantedEntry(s, l.runId))
    && (Unspent(l) ==> NoWorker(s, l.runId) && Charged(s.db, l.taskId, l.runId, l.budget))
  }

  ghost predicate OnePerRun(s: State) {
    forall c, d | c in s.calls && d in s.calls && c != d && Registered(s.calls[c]) && Registered(s.calls[d]) ::
      s.calls[c].runId != s.calls[d].runId
  }

  ghost predicate EntriesOk(s: State) {
    forall r :: r in s.entries ==>
      && (s.entries[r].outcome.None? ==>
           && s.entries[r].owner in s.calls
           && (s.calls[s.entries[r].owner].Claiming? || s.calls[s.entries[r].owner].Recording?)
           && s.calls[s.entries[r].owner].runId == r)
      && (GrantedEntry(s, r) ==> r in s.db.runs)
  }

  ghost predicate WorkersOk(s: State) {
    && (forall i :: 0 <= i < |s.workers| ==>
          && s.workers[i].runId in s.db.runs
          && Charged(s.db, s.workers[i].taskId, s.workers[i].runId, s.workers[i].budget))
    && (forall i, j :: 0 <= i < j < |s.workers| ==> s.workers[i].runId != s.workers[j].runId)
  }

  ghost predicate Inv(s: State) {
    && Reachable(s.db)
    && OnePerRun(s) && EntriesOk(s) && WorkersOk(s)
    && forall c :: c in s.calls ==> CallOk(s, c)
  }

  // ---- One step ----

  /** Transactions only add to the log and to the runs. */
  lemma StepGrows(db: Database, op: Op)
    ensures db.runs.Keys <= Step(db, op).runs.Keys && db.events <= Step(db, op).events
  {
    hide ValidScope, CollidesLive, RepositoryIdentity, GitObjectId, BudgetAllows, TopAttempt;
  }

  lemma ChargedGrows(db: Database, db': Database, taskId: string, runId: string, budget: real)
    requires db.events <= db'.events && Charged(db, taskId, runId, budget)
    ensures Charged(db', taskId, runId, budget)
  {
    var i :| 0 <= i < |db.events| && ChargedAt(db.events[i], taskId, runId, budget);
    assert db'.events[i] == db.events[i];
  }

  /** The launches other than `c`, and the table, after a step of `c` that leaves them alone. */
  ghost predicate OthersKept(s: State, c: nat, s': State) {
    && s'.calls.Keys == s.calls.Keys + {c}
    && (forall d :: d in s.calls && d != c ==> s'.calls[d] == s.calls[d])
    && s.db.runs.Keys <= s'.db.runs.Keys && s.db.events <= s'.db.events
  }

  /** Launches of other runs are unaffected by what a step does to its own run. */
  lemma OtherCallOk(s: State, c: nat, s': State, d: nat, run: string)
    requires Inv(s) && OthersKept(s, c, s') && d in s.calls && d != c
    requires Registered(s.calls[d]) ==> s.calls[d].runId != run
    requires forall r :: r in s.active && r != run ==> r in s'.active
    requires forall r :: r != run && GrantedEntry(s', r) ==> GrantedEntry(s, r)
    requires s'.workers == s.workers || exists w: Worker :: w.runId == run && s'.workers == s.workers + [w]
    ensures CallOk(s', d)
  {
    hide Reachable, EntriesOk, WorkersOk, OnePerRun, Charged;
    assert CallOk(s, d);
    var l := s.calls[d];
    if Unspent(l) {
      ChargedGrows(s.db, s'.db, l.taskId, l.runId, l.budget);
    }
  }

  lemma WorkersKept(s: State, s': State)
    requires WorkersOk(s) && s'.workers == s.workers
    requires s.db.runs.Keys <= s'.db.runs.Keys && s.db.events <= s'.db.events
    ensures WorkersOk(s')
  {
    hide Charged;
    forall i | 0 <= i < |s'.workers|
      ensures s'.workers[i].runId in s'.db.runs
              && Charged(s'.db, s'.workers[i].taskId, s'.workers[i].runId, s'.workers[i].budget)
    {
      var w := s.workers[i];
      ChargedGrows(s.db, s'.db, w.taskId, w.runId, w.budget);
    }
  }

  /** No other launch has registered this run. */
  ghost predicate Mine(s: State, c: nat, run: string) {
    forall d :: d in s.calls && d != c && Registered(s.calls[d]) ==> s.calls[d].runId != run
  }

  /** A step of one launch keeps the invariant when it does so for its own run. */
  lemma OwnStep(s: State, c: nat, s': State, run: string)
    requires Inv(s) && OthersKept(s, c, s') && Mine(s, c, run)
    requires forall r :: r in s.active && r != run ==> r in s'.active
    requires forall r :: r != run && GrantedEntry(s', r) ==> GrantedEntry(s, r)
    requires s'.workers == s.workers || exists w: Worker :: w.runId == run && s'.workers == s.workers + [w]
    requires Registered(s'.calls[c]) ==> s'.calls[c].runId == run
    requires Reachable(s'.db) && CallOk(s', c) && EntriesOk(s') && WorkersOk(s')
    ensures Inv(s')
  {
    hide Reachable, EntriesOk, WorkersOk, CallOk, GrantedEntry;
    forall d | d in s'.calls ensures CallOk(s', d) {
      if d != c {
        OtherCallOk(s, c, s', d, run);
      }
    }
  }

  /** Entries survive steps that leave the table and the claiming launches alone. */
  lemma EntriesKept(s: State, c: nat, s': State)
    requires EntriesOk(s) && OthersKept(s, c, s') && s'.entries == s.entries
    requires c in s.calls && (s.calls[c].Claiming? || s.calls[c].Recording?) ==>
               (s'.calls[c].Claiming? || s'.calls[c].Recording?) && s'.calls[c].runId == s.calls[c].runId
    ensures EntriesOk(s')
  {
  }

  lemma MineWhenRegistered(s: State, c: nat)
    requires OnePerRun(s) && c in s.calls && Registered(s.calls[c])
    ensures Mine(s, c, s.calls[c].runId)
  {
  }

  lemma BeginKeeps(s: State, a: Act)
    requires Inv(s) && Enabled(s, a) && a.Begin?
    ensures Inv(Do(s, a))
  {
    hide Reachable, WorkersOk, Charged;
    var s' := Do(s, a);
    EntriesKept(s, a.c, s');
    WorkersKept(s, s');
    forall d | d in s'.calls ensures CallOk(s', d) {
      assert d in s.calls ==> CallOk(s, d);
    }
  }

  lemma RegisterKeeps(s: State, a: Act)
    requires Inv(s) && Enabled(s, a) && a.Register?
    ensures Inv(Do(s, a))
  {
    hide Reachable, Charged;
    var s' := Do(s, a);
    var run := s.calls[a.c].runId;
    EntriesKept(s, a.c, s');
    WorkersKept(s, s');
    if s'.calls[a.c].Over? {
      forall d | d in s'.calls ensures CallOk(s', d) {
        assert CallOk(s, d);
      }
    } else {
      assert Mine(s, a.c, run) by {
        forall d | d in s.calls && Registered(s.calls[d]) ensures s.calls[d].runId != run {
          assert CallOk(s, d);
        }
      }
      OwnStep(s, a.c, s', run);
    }
  }

  /** Approve, Fail, Admit, Return: the launch moves on and nothing else changes. */
  lemma MoveKeeps(s: State, a: Act)
    requires Inv(s) && Enabled(s, a) && (a.Approve? || a.Fail? || a.Admit? || a.Return?)
    ensures Inv(Do(s, a))
  {
    hide Reachable, Charged, GrantedEntry, NoWorker;
    var s' := Do(s, a);
    assert CallOk(s, a.c);
    MineWhenRegistered(s, a.c);
    EntriesKept(s, a.c, s');
    WorkersKept(s, s');
    SameCallFacts(s, s', a.c);
    OwnStep(s, a.c, s', s.calls[a.c].runId);
  }

  lemma SameCallFacts(s: State, s': State, c: nat)
    requires s'.workers == s.workers && s'.entries == s.entries && s'.db == s.db
    ensures forall r :: NoWorker(s', r) <==> NoWorker(s, r)
    ensures forall r :: GrantedEntry(s', r) <==> GrantedEntry(s, r)
  {
  }

  lemma OpenKeeps(s: State, a: Act)
    requires Inv(s) && Enabled(s, a) && a.OpenClaim?
    ensures Inv(Do(s, a))
  {
    hide Reachable, Charged;
    var s' := Do(s, a);
    var run := s.calls[a.c].runId;
    assert CallOk(s, a.c);
    MineWhenRegistered(s, a.c);
    WorkersKept(s, s');
    if run in s.entries && s.entries[run].outcome.None? {
      // a pending entry belongs to a registered launch of the run, and that could only be this one
      assert false;
    }
    OwnStep(s, a.c, s', run);
  }

  lemma CommitKeeps(s: State, a: Act)
    requires Inv(s) && Enabled(s, a) && a.CommitClaim?
    ensures Inv(Do(s, a))
  {
    hide Reachable, Step, NextEpoch, ValidScope, RepositoryIdentity, GitObjectId, CollidesLive, ExpectedHead, WorktreeIdentity;
    var s' := Do(s, a);
    var l := s.calls[a.c];
    assert CallOk(s, a.c);
    MineWhenRegistered(s, a.c);
    StepReachable(s.db, a.op);
    StepGrows(s.db, a.op);
    EntriesKept(s, a.c, s');
    WorkersKept(s, s');
    if Commits(s.db, a.op) {
      ClaimCharges(s.db, a.op, l.budget);
    }
    OwnStep(s, a.c, s', l.runId);
  }

  lemma ClaimCharges(db: Database, op: Op, budget: real)
    requires op.Claim? && Commits(db, op) && op.budget == Finite(budget)
    ensures Charged(Step(db, op), op.taskId, op.runId, budget)
    ensures op.runId in Step(db, op).runs
  {
    hide ValidScope, CollidesLive, RepositoryIdentity, GitObjectId, BudgetAllows, TopAttempt;
    var db' := Step(db, op);
    assert ChargedAt(db'.events[|db.events|], op.taskId, op.runId, budget);
  }

  lemma RefuseKeeps(s: State, a: Act)
    requires Inv(s) && Enabled(s, a) && a.RefuseClaim?
    ensures Inv(Do(s, a))
  {
    hide Reachable, Charged, NoWorker;
    var s' := Do(s, a);
    assert CallOk(s, a.c);
    MineWhenRegistered(s, a.c);
    EntriesKept(s, a.c, s');
    WorkersKept(s, s');
    SameCallFacts(s, s', a.c);
    OwnStep(s, a.c, s', s.calls[a.c].runId);
  }

  lemma RecordKeeps(s: State, a: Act)
    requires Inv(s) && Enabled(s, a) && a.RecordClaim?
    ensures Inv(Do(s, a))
  {
    hide Reachable;
    var s' := Do(s, a);
    var l := s.calls[a.c];
    assert CallOk(s, a.c);
    MineWhenRegistered(s, a.c);
    WorkersKept(s, s');
    if l.outcome.Granted? {
      ChargedRuns(s.db, l.taskId, l.runId, l.budget);
    }
    OwnStep(s, a.c, s', l.runId);
  }

  lemma ChargedRuns(db: Database, taskId: string, runId: string, budget: real)
    requires Reachable(db) && Charged(db, taskId, runId, budget)
    ensures runId in db.runs
  {
    hide Reachable, TablesOk, RunsOk;
    TablesOfReachable(db);
    assert ClaimsDistinct(db);
  }

  lemma SpawnKeeps(s: State, a: Act)
    requires Inv(s) && Enabled(s, a) && a.Spawn?
    ensures Inv(Do(s, a))
  {
    hide Reachable;
    var s' := Do(s, a);
    var l := s.calls[a.c];
    assert CallOk(s, a.c);
    MineWhenRegistered(s, a.c);
    EntriesKept(s, a.c, s');
    ChargedRuns(s.db, l.taskId, l.runId, l.budget);
    OwnStep(s, a.c, s', l.runId);
  }

  lemma ReleaseKeeps(s: State, a: Act)
    requires Inv(s) && Enabled(s, a) && a.ReleaseLease?
    ensures Inv(Do(s, a))
  {
    hide Reachable, Step, Commits, Charged;
    var s' := Do(s, a);
    assert CallOk(s, a.c);
    MineWhenRegistered(s, a.c);
    StepReachable(s.db, a.op);
    StepGrows(s.db, a.op);
    EntriesKept(s, a.c, s');
    WorkersKept(s, s');
    OwnStep(s, a.c, s', s.calls[a.c].runId);
  }

  lemma LeaveKeeps(s: State, a: Act)
    requires Inv(s) && Enabled(s, a) && a.Leave?
    ensures Inv(Do(s, a))
  {
    hide Reachable, Charged;
    var s' := Do(s, a);
    assert CallOk(s, a.c);
    MineWhenRegistered(s, a.c);
    EntriesKept(s, a.c, s');
    WorkersKept(s, s');
    OwnStep(s, a.c, s', s.calls[a.c].runId);
  }

  lemma EvictKeeps(s: State, a: Act)
    requires Inv(s) && Enabled(s, a) && a.EvictClaims?
    ensures Inv(Do(s, a))
  {
    hide Reachable, Charged;
    var s' := Do(s, a);
    WorkersKept(s, s');
    forall d | d in s'.calls ensures CallOk(s', d) {
      assert CallOk(s, d);
    }
  }

  lemma OtherKeeps(s: State, a: Act)
    requires Inv(s) && Enabled(s, a) && a.Other?
    ensures Inv(Do(s, a))
  {
    hide Reachable, Step, Commits, Charged;
    var s' := Do(s, a);
    StepReachable(s.db, a.op);
    StepGrows(s.db, a.op);
    WorkersKept(s, s');
    forall d | d in s'.calls ensures CallOk(s', d) {
      assert CallOk(s, d);
      var l := s.calls[d];
      if Unspent(l) {
        ChargedGrows(s.db, s'.db, l.taskId, l.runId, l.budget);
      }
    }
  }

  /** No launch ever waits for the internal claim of another: the registration of its run id keeps them apart. */
  lemma NoWake(s: State, a: Act)
    requires Inv(s) && Enabled(s, a)
    ensures !a.WakeClaim?
  {
    hide Reachable, WorkersOk, EntriesOk, OnePerRun;
    assert a.WakeClaim? ==> CallOk(s, a.c);
  }

  lemma StepKeeps(s: State, a: Act)
    requires Inv(s) && Enabled(s, a)
    ensures Inv(Do(s, a))
  {
    hide Inv, Do, Enabled;
    NoWake(s, a);
    match a
    case Begin(_, _, _) => BeginKeeps(s, a);
    case Register(_) => RegisterKeeps(s, a);
    case Approve(_, _) => MoveKeeps(s, a);
    case Fail(_) => MoveKeeps(s, a);
    case OpenClaim(_, _) => OpenKeeps(s, a);
    case CommitClaim(_, _, _) => CommitKeeps(s, a);
    case RefuseClaim(_) => RefuseKeeps(s, a);
    case RecordClaim(_) => RecordKeeps(s, a);
    case Admit(_) => MoveKeeps(s, a);
    case Spawn(_) => SpawnKeeps(s, a);
    case Return(_, _) => MoveKeeps(s, a);
    case ReleaseLease(_, _) => ReleaseKeeps(s, a);
    case Leave(_) => LeaveKeeps(s, a);
    case EvictClaims(_) => EvictKeeps(s, a);
    case Other(_) => OtherKeeps(s, a);
  }

  lemma StartOk()
    ensures Inv(START)
  {
    hide Reachable;
    EmptyReachable();
  }

  lemma {:induction false} InterleavingKeeps(ss: seq<State>, acts: seq<Act>, n: nat)
    requires Interleaving(ss, acts) && n < |ss|
    ensures Inv(ss[n])
  {
    hide Inv, Do, Enabled;
    if n == 0 {
      StartOk();
    } else {
      InterleavingKeeps(ss, acts, n - 1);
      assert Follows(ss[n - 1], acts[n - 1], ss[n]);
      StepKeeps(ss[n - 1], acts[n - 1]);
    }
  }

  // ---- What every interleaving guarantees ----

  /** The budgets handed to the workers of a task. */
  function Spent(workers: seq<Worker>, taskId: string): real {
    if workers == [] then 0.0
    else
      var w := workers[|workers| - 1];
      Spent(workers[..|workers| - 1], taskId) + if w.taskId == taskId then w.budget else 0.0
  }

  /** A worker is started at most once per run id. */
  lemma WorkerOncePerRun(ss: seq<State>, acts: seq<Act>, n: nat, i: nat, j: nat)
    requires Interleaving(ss, acts) && n < |ss|
    requires i < j < |ss[n].workers|
    ensures ss[n].workers[i].runId != ss[n].workers[j].runId
  {
    hide Reachable, Charged;
    InterleavingKeeps(ss, acts, n);
  }

  /** While a launch has its run id registered no other launch has, so none ever waits for another's claim. */
  lemma LaunchesApart(ss: seq<State>, acts: seq<Act>, n: nat, c: nat, d: nat)
    requires Interleaving(ss, acts) && n < |ss| && c in ss[n].calls && d in ss[n].calls && c != d
    ensures !ss[n].calls[c].Awaiting?
    ensures Registered(ss[n].calls[c]) && Registered(ss[n].calls[d]) ==> ss[n].calls[c].runId != ss[n].calls[d].runId
  {
    hide Reachable, Charged, EntriesOk, WorkersOk;
    InterleavingKeeps(ss, acts, n);
    assert CallOk(ss[n], c);
  }

  ghost predicate OneWorkerPerRun(workers: seq<Worker>) {
    forall i, j :: 0 <= i < j < |workers| ==> workers[i].runId != workers[j].runId
  }

  ghost predicate Backed(events: seq<Event>, w: Worker) {
    exists i :: 0 <= i < |events| && ChargedAt(events[i], w.taskId, w.runId, w.budget)
  }

  /** Claims name each run once and reserve no negative amount. */
  ghost predicate ClaimLog(events: seq<Event>) {
    && (forall i :: 0 <= i < |events| && events[i].what.Claimed? ==> events[i].what.reserved >= 0.0)
    && (forall i, j :: 0 <= i < j < |events| && events[i].what.Claimed? && events[j].what.Claimed? ==>
          events[i].runId != events[j].runId)
  }

  lemma SpentOneMore(workers: seq<Worker>, w: Worker, taskId: string)
    ensures Spent(workers + [w], taskId) == Spent(workers, taskId) + if w.taskId == taskId then w.budget else 0.0
  {
    assert (workers + [w])[..|workers|] == workers;
  }

  lemma {:induction false} SpentWithout(before: seq<Worker>, w: Worker, after: seq<Worker>, taskId: string)
    ensures Spent(before + [w] + after, taskId)
            == Spent(before + after, taskId) + if w.taskId == taskId then w.budget else 0.0
    decreases |after|
  {
    if after == [] {
      assert before + [w] + after == before + [w] && before + after == before;
      SpentOneMore(before, w, taskId);
    } else {
      var init, last := after[..|after| - 1], after[|after| - 1];
      assert before + [w] + after == (before + [w] + init) + [last] && before + after == (before + init) + [last];
      SpentWithout(before, w, init, taskId);
      SpentOneMore(before + [w] + init, last, taskId);
      SpentOneMore(before + init, last, taskId);
    }
  }

  /** The worker that the last claim of the log backs, taken out: the others are backed by the rest of the log. */
  lemma TakeOut(workers: seq<Worker>, events: seq<Event>, taskId: string, k: nat) returns (rest: seq<Worker>)
    requires OneWorkerPerRun(workers) && k < |workers| && workers[k].taskId == taskId
    requires forall m :: 0 <= m < |workers| && workers[m].taskId == taskId ==> Backed(events, workers[m])
    requires events != [] && ChargedAt(events[|events| - 1], taskId, workers[k].runId, workers[k].budget)
    ensures OneWorkerPerRun(rest) && Spent(workers, taskId) == Spent(rest, taskId) + workers[k].budget
    ensures forall m :: 0 <= m < |rest| && rest[m].taskId == taskId ==> Backed(events[..|events| - 1], rest[m])
  {
    hide Spent, Backed;
    rest := workers[..k] + workers[k + 1..];
    assert workers == workers[..k] + [workers[k]] + workers[k + 1..];
    SpentWithout(workers[..k], workers[k], workers[k + 1..], taskId);
    forall m | 0 <= m < |rest| && rest[m].taskId == taskId ensures Backed(events[..|events| - 1], rest[m]) {
      var m' := if m < k then m else m + 1;
      assert rest[m] == workers[m'];
      BackedBefore(events, workers[m']);
    }
  }

  /** Workers with distinct run ids, each backed by a claim in the log, spend no more than the log reserves. */
  lemma {:induction false} SpentWithinReserved(workers: seq<Worker>, events: seq<Event>, taskId: string)
    requires OneWorkerPerRun(workers) && ClaimLog(events)
    requires forall k :: 0 <= k < |workers| && workers[k].taskId == taskId ==> Backed(events, workers[k])
    ensures Spent(workers, taskId) <= TotalReserved(events, taskId)
    decreases |events|
  {
    hide Spent, Backed;
    if events == [] {
      NothingBacked(workers, taskId);
    } else {
      var init, e := events[..|events| - 1], events[|events| - 1];
      assert ClaimLog(init);
      if k :| 0 <= k < |workers| && workers[k].taskId == taskId && ChargedAt(e, taskId, workers[k].runId, workers[k].budget) {
        var rest := TakeOut(workers, events, taskId, k);
        SpentWithinReserved(rest, init, taskId);
      } else {
        forall m | 0 <= m < |workers| && workers[m].taskId == taskId ensures Backed(init, workers[m]) {
          BackedBefore(events, workers[m]);
        }
        SpentWithinReserved(workers, init, taskId);
      }
    }
  }

  lemma NothingBacked(workers: seq<Worker>, taskId: string)
    requires forall k :: 0 <= k < |workers| && workers[k].taskId == taskId ==> Backed([], workers[k])
    ensures Spent(workers, taskId) == 0.0
  {
    NothingSpent(workers, taskId);
  }

  lemma BackedBefore(events: seq<Event>, w: Worker)
    requires events != [] && Backed(events, w)
    requires !ChargedAt(events[|events| - 1], w.taskId, w.runId, w.budget)
    ensures Backed(events[..|events| - 1], w)
  {
    var i :| 0 <= i < |events| && ChargedAt(events[i], w.taskId, w.runId, w.budget);
    assert events[..|events| - 1][i] == events[i];
  }

  lemma {:induction false} NothingSpent(workers: seq<Worker>, taskId: string)
    requires forall k :: 0 <= k < |workers| ==> workers[k].taskId != taskId
    ensures Spent(workers, taskId) == 0.0
  {
    if workers != [] {
      NothingSpent(workers[..|workers| - 1], taskId);
    }
  }

  /** The budgets handed to all workers of a task sum to no more than it has been charged, hence to no more than
      the budget it was given. */
  lemma WorkersWithinBudget(ss: seq<State>, acts: seq<Act>, n: nat, taskId: string)
    requires Interleaving(ss, acts) && n < |ss| && taskId in ss[n].db.tasks
    ensures var task := ss[n].db.tasks[taskId];
            Spent(ss[n].workers, taskId) <= task.spent <= Cap(task.allotted)
  {
    hide Reachable, TablesOk, RunsOk;
    var s := ss[n];
    InterleavingKeeps(ss, acts, n);
    TablesOfReachable(s.db);
    assert ClaimsDistinct(s.db) && Budgeted(s.db);
    assert WorkersOk(s);
    forall k | 0 <= k < |s.workers| ensures Backed(s.db.events, s.workers[k]) {
      var w := s.workers[k];
      assert Charged(s.db, w.taskId, w.runId, w.budget);
    }
    SpentWithinReserved(s.workers, s.db.events, taskId);
  }
}
