/** What the transactions of the store mean, field by field and moment by moment (store.py). */
module StoreEffects {
  import opened Common
  import opened Paths
  import opened Authority
  import opened Tables

  // ---- Identities ----

  /** A repository is identified by its owner and name, without regard to case and to the kind of slash. */
  lemma RepositoryNamed(repository: string)
    requires RepositoryIdentity(repository).Some?
    ensures RepositoryIdentity(repository).value == Fold(Slashes(repository))
  {
    var s := Slashes(repository);
    var parts := Split(s);
    JoinOfSplit(s);
    assert parts == [parts[0], parts[1]];
    assert s == parts[0] + "/" + parts[1] by {
      assert parts[1..] == [parts[1]];
    }
    assert Fold(s) == Fold(parts[0]) + "/" + Fold(parts[1]);
  }

  lemma {:induction false} JoinOfSplit(s: string)
    ensures Join(Split(s)) == s
  {
    if s != "" {
      JoinOfSplit(s[1..]);
      var rest := Split(s[1..]);
      if s[0] == '/' {
        assert ([""] + rest)[1..] == rest;
      } else {
        var parts := Split(s);
        assert parts == [[s[0]] + rest[0]] + rest[1..];
        assert parts[1..] == rest[1..];
      }
    }
  }

  lemma SameRepository(a: string, b: string)
    requires RepositoryIdentity(a).Some? && RepositoryIdentity(b).Some?
    ensures RepositoryIdentity(a) == RepositoryIdentity(b) <==> SameLetters(Slashes(a), Slashes(b))
  {
    RepositoryNamed(a);
    RepositoryNamed(b);
    SameLettersFold(Slashes(a), Slashes(b));
  }

  ghost predicate Hexadecimal(s: string) {
    forall i :: 0 <= i < |s| ==> '0' <= s[i] <= '9' || 'a' <= s[i] <= 'f' || 'A' <= s[i] <= 'F'
  }

  /** A base is 40 or 64 hexadecimal digits, kept in lower case. */
  lemma BaseNamed(sha: string)
    ensures GitObjectId(sha).Some? <==> (|sha| == 40 || |sha| == 64) && Hexadecimal(sha)
    ensures GitObjectId(sha).Some? ==> LowerCase(sha, GitObjectId(sha).value)
  {
  }

  ghost predicate LowerCase(s: string, lower: string) {
    SameLetters(s, lower) && forall i :: 0 <= i < |lower| ==> !('A' <= lower[i] <= 'Z')
  }

  /** Exactly when a task is created: its writable paths, repository and base make sense, and it is new. */
  lemma CreateCommitsIff(db: Database, op: Op)
    requires op.Create?
    ensures Commits(db, op) <==>
              && (forall i :: 0 <= i < |op.paths| ==> !IsBlank(op.paths[i]) && Components(op.paths[i]) != [])
              && RepositoryIdentity(op.repository).Some?
              && (|op.baseSha| == 40 || |op.baseSha| == 64) && Hexadecimal(op.baseSha)
              && !op.allotted.NotANumber?
              && op.taskId !in db.tasks
  {
    hide IsBlank, Components, RepositoryIdentity, Hexadecimal, GitObjectId, WorktreeIdentity, Canonical;
    BaseNamed(op.baseSha);
    forall i | 0 <= i < |op.paths| ensures Canonical(op.paths[i]) != "" <==> Components(op.paths[i]) != [] {
      CanonicalNotEmpty(op.paths[i]);
    }
  }

  lemma CanonicalNotEmpty(path: string)
    ensures Canonical(path) != "" <==> Components(path) != []
  {
    hide Components, Canonical;
    WorktreeNamed(path);
  }

  // ---- When a claim commits ----

  /** The two tasks may write to a common path of one repository at one base. */
  ghost predicate ShareWrites(a: Task, b: Task) {
    SameLetters(Slashes(a.repository), Slashes(b.repository)) && SameLetters(a.baseSha, b.baseSha)
    && CommonPath(a.paths, b.paths)
  }

  /** Another task holds an unreleased, unexpired lease on the same worktree, or one that shares writes. */
  ghost predicate Blocked(db: Database, id: string, worktree: string, now: real)
    requires id in db.tasks
  {
    exists other :: other in db.leases && other in db.tasks && other != id
                    && !db.leases[other].released && now < db.leases[other].expiresAt
                    && (Components(db.leases[other].worktree) == Components(worktree)
                        || ShareWrites(db.tasks[id], db.tasks[other]))
  }

  lemma CollideMeans(a: Task, v: string, b: Task, w: string)
    requires TaskOk(a) && TaskOk(b) && WorktreeIdentity(v).Some?
    ensures Collide(a, v, b, w) <==> Components(v) == Components(w) || ShareWrites(a, b)
  {
    hide Canonical, Components, ScopeOverlap, CommonPath, RepositoryIdentity;
    CanonicalInjective(v, w);
    SameRepository(a.repository, b.repository);
    SameLettersFold(a.baseSha, b.baseSha);
    OverlapIffCommonPath(a.paths, b.paths);
  }

  lemma BlockedMeans(db: Database, id: string, worktree: string, now: real)
    requires TablesOk(db) && id in db.tasks && WorktreeIdentity(worktree).Some?
    ensures CollidesLive(db, id, worktree, now) <==> Blocked(db, id, worktree, now)
  {
    hide Collide, ShareWrites, TaskOk, WorktreeIdentity, Components;
    forall other | other in db.leases && other in db.tasks
      ensures Collide(db.tasks[id], worktree, db.tasks[other], db.leases[other].worktree)
              <==> Components(db.leases[other].worktree) == Components(worktree)
                   || ShareWrites(db.tasks[id], db.tasks[other])
    {
      CollideMeans(db.tasks[id], worktree, db.tasks[other], db.leases[other].worktree);
    }
  }

  /** A claim is made for a positive time, on an existing task without a live lease, with the head last recorded, in a
      worktree that nothing live collides with, for money that is left, by a new run. */
  ghost predicate ClaimPossible(db: Database, op: Op)
    requires op.Claim?
  {
    && op.ttl.Finite? && op.ttl.value > 0.0
    && op.taskId in db.tasks
    && (op.taskId in db.leases ==> db.leases[op.taskId].released || db.leases[op.taskId].expiresAt <= op.now)
    && (if op.taskId in db.leases then db.leases[op.taskId].head == "" || op.head == db.leases[op.taskId].head
        else op.head == db.tasks[op.taskId].baseSha)
    && Components(op.worktree) != []
    && !Blocked(db, op.taskId, op.worktree, op.now)
    && (var task := db.tasks[op.taskId];
        && task.allotted.Finite? && 0.0 <= task.spent <= task.allotted.value
        && op.budget.Finite? && 0.0 <= op.budget.value <= task.allotted.value - task.spent)
    && op.runId !in db.runs
  }

  /** Exactly when a claim commits, in the store's own terms. */
  lemma ClaimCommitsIff(db: Database, op: Op)
    requires TablesOk(db) && op.Claim?
    ensures Commits(db, op) <==> ClaimPossible(db, op)
  {
    hide CollidesLive, Blocked, Components, RepositoryIdentity, ValidScope;
    WorktreeNamed(op.worktree);
    if op.taskId in db.tasks {
      assert TaskOk(db.tasks[op.taskId]);
      BaseNotEmpty(db.tasks[op.taskId].baseSha);
      if WorktreeIdentity(op.worktree).Some? {
        BlockedMeans(db, op.taskId, op.worktree, op.now);
      }
    }
  }

  lemma BaseNotEmpty(sha: string)
    requires GitObjectId(sha).Some?
    ensures sha != ""
  {
  }

  lemma WorktreeNamed(worktree: string)
    ensures WorktreeIdentity(worktree).Some? <==> Components(worktree) != []
  {
    ComponentsCanonical(worktree);
    CanonicalInjective(worktree, "");
    assert Canonical("") == "" && Components("") == [] by {
      assert Split(Slashes("")) == [""];
    }
  }

  /** The run holds the unreleased, unexpired lease under this epoch, with the head it expects, if it expects one; a
      heartbeat is for a positive time. */
  ghost predicate HolderActs(db: Database, op: Op)
    requires op.Beat? || op.Release?
  {
    && (op.Beat? ==> op.ttl.Finite? && op.ttl.value > 0.0)
    && op.taskId in db.leases
    && db.leases[op.taskId].ownerRun == op.runId && db.leases[op.taskId].epoch == op.epoch
    && !db.leases[op.taskId].released && op.now < db.leases[op.taskId].expiresAt
    && (op.expected.Some? ==> db.leases[op.taskId].head == op.expected.value)
  }

  /** Exactly when a heartbeat or a release commits. */
  lemma HolderCommitsIff(db: Database, op: Op)
    requires RunsOk(db) && (op.Beat? || op.Release?)
    ensures Commits(db, op) <==> HolderActs(db, op)
  {
    hide RunsNumbered, RunsDistinct, EpochsCovered;
    if op.taskId in db.leases {
      assert OwnerRuns(db, op.taskId);
    }
  }

  // ---- What each transaction writes ----

  lemma CreateWrites(db: Database, op: Op)
    requires op.Create? && Commits(db, op)
    ensures var db' := Step(db, op);
            && op.taskId !in db.tasks && op.taskId in db'.tasks
            && (var task := db'.tasks[op.taskId];
                && task.repository == op.repository && LowerCase(op.baseSha, task.baseSha)
                && task.paths == op.paths && task.allotted == op.allotted && task.governed == op.governed
                && task.status == "queued" && task.revision == 1 && task.spent == 0.0 && task.resultHead == None)
            && db'.tasks == db.tasks[op.taskId := db'.tasks[op.taskId]]
            && db'.leases == db.leases && db'.runs == db.runs
            && db'.events == db.events + [Event(op.taskId, "", Created, |db.events| + 1)]
  {
    hide ValidScope, RepositoryIdentity;
    BaseNamed(op.baseSha);
  }

  /** The lease is the claimant's under the next epoch until `ttl` from now, the run is recorded under that epoch, and
      the task is charged; nothing else changes, and one event is appended. */
  ghost predicate ClaimWritten(db: Database, db': Database, op: Op)
    requires op.Claim?
  {
    var epoch := if op.taskId in db.leases then db.leases[op.taskId].epoch + 1 else 1;
    && op.taskId in db.tasks && op.ttl.Finite? && op.budget.Finite?
    && db'.leases == db.leases[op.taskId := Lease(op.worktree, op.runId, epoch, op.now + op.ttl.value, false, op.head,
                                                  op.budget.value)]
    && db'.runs == db.runs[op.runId := Run(op.taskId, epoch, epoch, op.runtime, "running")]
    && (var task := db.tasks[op.taskId];
        db'.tasks == db.tasks[op.taskId := task.(spent := task.spent + op.budget.value, status := "running",
                                                 revision := task.revision + 1)])
    && db'.events == db.events + [Event(op.taskId, op.runId, Claimed(epoch, op.worktree, op.head, op.budget.value),
                                      |db.events| + 1)]
  }

  lemma ClaimWrites(db: Database, op: Op)
    requires RunsOk(db) && op.Claim? && Commits(db, op)
    ensures ClaimWritten(db, Step(db, op), op)
  {
    hide ValidScope, RepositoryIdentity, GitObjectId, CollidesLive, WorktreeIdentity, ExpectedHead, TopAttempt,
         RunsNumbered, RunsDistinct, EpochsCovered, OwnerRuns;
    NextAttemptIsEpoch(db, op.taskId);
  }

  /** The lease runs until `ttl` from now and takes the new head, if there is one; nothing else changes. */
  ghost predicate BeatWritten(db: Database, db': Database, op: Op)
    requires op.Beat?
  {
    && op.taskId in db.leases && op.ttl.Finite?
    && (var row := db.leases[op.taskId];
        db'.leases == db.leases[op.taskId :=
          row.(expiresAt := op.now + op.ttl.value, head := if op.newHead.Some? then op.newHead.value else row.head)])
    && db'.tasks == db.tasks && db'.runs == db.runs
    && (var row := db'.leases[op.taskId];
        db'.events == db.events + [Event(op.taskId, op.runId, Heartbeaten(row.epoch, row.head), |db.events| + 1)])
  }

  lemma BeatWrites(db: Database, op: Op)
    requires op.Beat? && Commits(db, op)
    ensures BeatWritten(db, Step(db, op), op)
  {
  }

  /** Lease, run and task end with the outcome and the resulting head; nothing else changes, the charge included. */
  ghost predicate ReleaseWritten(db: Database, db': Database, op: Op)
    requires op.Release?
  {
    && op.taskId in db.leases && op.taskId in db.tasks && op.runId in db.runs
    && (var row, task, run := db.leases[op.taskId], db.tasks[op.taskId], db.runs[op.runId];
        var head := if op.newHead.Some? then op.newHead.value else row.head;
        && db'.leases == db.leases[op.taskId := row.(released := true, head := head)]
        && db'.runs == db.runs[op.runId := run.(status := op.outcome)]
        && db'.tasks == db.tasks[op.taskId := task.(status := op.outcome, revision := task.revision + 1,
                                                    resultHead := Some(head))])
    && (var row := db'.leases[op.taskId];
        db'.events == db.events + [Event(op.taskId, op.runId, Released(row.epoch, op.outcome, row.head), |db.events| + 1)])
  }

  lemma ReleaseWrites(db: Database, op: Op)
    requires op.Release? && Commits(db, op)
    ensures ReleaseWritten(db, Step(db, op), op)
  {
  }
}
