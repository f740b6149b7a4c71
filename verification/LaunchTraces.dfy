/** What comes before what in the interleavings of governed launches (daemon.py): no worker without a claim of its own
    launch, and no release without a safe return. */
module LaunchTraces {
  import opened Common
  import opened Authority
  import opened Tables
  import opened Histories
  import opened GovernedLaunch
  import opened WorkspaceExclusion

  /** The launch that makes the step, if it is one. */
  function Caller(a: Act): Option<nat> {
    match a
    case EvictClaims(_) => None
    case Other(_) => None
    case _ => Some(a.c)
  }

  lemma OthersStay(s: State, a: Act, d: nat)
    requires Enabled(s, a) && d in s.calls && Caller(a) != Some(d)
    ensures d in Do(s, a).calls && Do(s, a).calls[d] == s.calls[d]
  {
    hide Step, Commits;
  }

  // ---- Claims ----

  /** The step commits a claim of this launch for this task and run, and hands the lease to the launch. */
  ghost predicate Grants(s: State, a: Act, c: nat) {
    && a.CommitClaim? && a.c == c && !a.raises && a.op.Claim? && Commits(s.db, a.op)
    && c in s.calls && s.calls[c].Claiming? && a.op.taskId == s.calls[c].taskId && a.op.runId == s.calls[c].runId
  }

  /** The launch has the task, run, worktree and budget of the claim, and the lease that the claim wrote. */
  ghost predicate GoesBy(l: Launch, op: Op, lease: Lease) {
    && Goes(l) && op.Claim? && l.taskId == op.taskId && l.runId == op.runId && op.budget == Finite(l.budget)
    && RowOf(l) == lease && lease.worktree == op.worktree && lease.ownerRun == op.runId && !lease.released
  }

  lemma GrantStep(s: State, a: Act)
    requires Enabled(s, a) && a.CommitClaim? && Goes(Do(s, a).calls[a.c])
    ensures Grants(s, a, a.c)
    ensures var db' := Do(s, a).db;
            a.op.taskId in db'.leases && GoesBy(Do(s, a).calls[a.c], a.op, db'.leases[a.op.taskId])
  {
    hide ValidScope, RepositoryIdentity, GitObjectId, WorktreeIdentity, CollidesLive, ExpectedHead, TopAttempt, BudgetAllows;
  }

  lemma BudgetCarried(s: State, a: Act, d: nat)
    requires Inv(s) && Enabled(s, a) && d in Do(s, a).calls && Goes(Do(s, a).calls[d])
    requires !(a.CommitClaim? && d == a.c)
    ensures d in s.calls && Goes(s.calls[d]) && Do(s, a).calls[d].budget == s.calls[d].budget
  {
    hide Step, Commits, Reachable, WorkersOk, OnePerRun, EntriesOk, NoWorker, Charged;
    RowCarried(s, a, d);
  }

  /** The claim that gave a launch its lease. */
  lemma {:induction false} ClaimBehind(ss: seq<State>, acts: seq<Act>, n: nat, c: nat) returns (i: nat)
    requires Interleaving(ss, acts) && n < |ss| && c in ss[n].calls && Goes(ss[n].calls[c])
    ensures i < n && Grants(ss[i], acts[i], c)
    ensures var id := acts[i].op.taskId;
            id in ss[i + 1].db.leases && GoesBy(ss[n].calls[c], acts[i].op, ss[i + 1].db.leases[id])
    decreases n
  {
    hide Inv, Enabled, Do, Commits, Grants;
    assert n > 0;
    var s, a := ss[n - 1], acts[n - 1];
    assert Follows(s, a, ss[n]);
    InterleavingKeeps(ss, acts, n - 1);
    if a.CommitClaim? && a.c == c {
      i := n - 1;
      GrantStep(s, a);
    } else {
      RowCarried(s, a, c);
      BudgetCarried(s, a, c);
      i := ClaimBehind(ss, acts, n - 1, c);
    }
  }

  /** Every worker was started by a launch whose own claim had committed, with the task, run, worktree and budget of
      that claim. */
  lemma WorkerClaimed(ss: seq<State>, acts: seq<Act>, j: nat) returns (i: nat)
    requires Interleaving(ss, acts) && j < |acts| && acts[j].Spawn?
    ensures i < j && Grants(ss[i], acts[i], acts[j].c)
    ensures ss[j + 1].workers == ss[j].workers
              + [Worker(acts[i].op.taskId, acts[i].op.runId, acts[i].op.budget.value, acts[i].op.worktree)]
  {
    hide Inv, Grants, Commits;
    assert Follows(ss[j], acts[j], ss[j + 1]);
    i := ClaimBehind(ss, acts, j, acts[j].c);
  }

  /** Only spawning a worker adds one. */
  lemma OnlySpawns(ss: seq<State>, acts: seq<Act>, j: nat)
    requires Interleaving(ss, acts) && j < |acts| && !acts[j].Spawn?
    ensures ss[j + 1].workers == ss[j].workers
  {
    hide Step, Commits;
    assert Follows(ss[j], acts[j], ss[j + 1]);
  }

  // ---- Releases ----

  /** A launch about to release came out of its worker safely, and releases the lease it went by. */
  lemma {:induction false} ReturnBehind(ss: seq<State>, acts: seq<Act>, n: nat, c: nat) returns (i: nat)
    requires Interleaving(ss, acts) && n < |ss| && c in ss[n].calls && ss[n].calls[c].Releasing?
    ensures i < n && acts[i] == Return(c, true) && c in ss[i].calls && ss[i].calls[c].Working?
    ensures ss[n].calls[c] == Releasing(ss[i].calls[c].taskId, ss[i].calls[c].runId, ss[i].calls[c].lease.epoch)
    ensures forall k :: i < k < n ==> Caller(acts[k]) != Some(c)
    decreases n
  {
    assert n > 0;
    var s, a := ss[n - 1], acts[n - 1];
    assert Follows(s, a, ss[n]);
    if Caller(a) == Some(c) {
      i := n - 1;
      OnlyReturns(s, a);
    } else {
      NewcomerLoads(s, a, c);
      OthersStay(s, a, c);
      i := ReturnBehind(ss, acts, n - 1, c);
    }
  }

  lemma OnlyReturns(s: State, a: Act)
    requires Enabled(s, a) && Caller(a).Some? && a.c in Do(s, a).calls && Do(s, a).calls[a.c].Releasing?
    ensures a.Return? && a.releaseSafe && a.c in s.calls && s.calls[a.c].Working?
    ensures var l := s.calls[a.c]; Do(s, a).calls[a.c] == Releasing(l.taskId, l.runId, l.lease.epoch)
  {
    hide Step, Commits;
  }

  lemma NewcomerLoads(s: State, a: Act, c: nat)
    requires Enabled(s, a) && Caller(a) != Some(c) && c in Do(s, a).calls
    ensures c in s.calls
  {
    hide Step, Commits;
  }

  /** Every release of a lease follows a safe return of the same launch, and is for the task, run and epoch of the
      lease that the launch's own claim was given. */
  lemma ReleasesOwnLease(ss: seq<State>, acts: seq<Act>, j: nat) returns (i: nat, k: nat)
    requires Interleaving(ss, acts) && j < |acts| && acts[j].ReleaseLease?
    ensures i < k < j && acts[k] == Return(acts[j].c, true) && Grants(ss[i], acts[i], acts[j].c)
    ensures var op, id := acts[j].op, acts[i].op.taskId;
            && op.Release? && op.taskId == id && op.runId == acts[i].op.runId
            && id in ss[i + 1].db.leases && op.epoch == ss[i + 1].db.leases[id].epoch
  {
    hide Inv, Grants, Commits, Step;
    assert Follows(ss[j], acts[j], ss[j + 1]);
    k := ReturnBehind(ss, acts, j, acts[j].c);
    i := ClaimBehind(ss, acts, k, acts[j].c);
  }

  /** The launch is done, but for taking its run id off the list. */
  predicate Done(l: Launch) {
    l.Leaving? || l.Over?
  }

  lemma DoneStays(s: State, a: Act, c: nat)
    requires Enabled(s, a) && c in s.calls && Done(s.calls[c])
    ensures c in Do(s, a).calls && Done(Do(s, a).calls[c]) && !(a.ReleaseLease? && a.c == c)
  {
    hide Step, Commits;
    if Caller(a) != Some(c) {
      OthersStay(s, a, c);
    }
  }

  /** After an unsafe return the launch never releases its lease. */
  lemma {:induction false} UnsafeNeverReleases(ss: seq<State>, acts: seq<Act>, i: nat, j: nat)
    requires Interleaving(ss, acts) && i < j < |ss| && acts[i].Return? && !acts[i].releaseSafe
    ensures acts[i].c in ss[j].calls && Done(ss[j].calls[acts[i].c])
    ensures j < |acts| ==> !(acts[j].ReleaseLease? && acts[j].c == acts[i].c)
    decreases j
  {
    hide Enabled, Do;
    assert Follows(ss[j - 1], acts[j - 1], ss[j]);
    if i < j - 1 {
      UnsafeNeverReleases(ss, acts, i, j - 1);
      DoneStays(ss[j - 1], acts[j - 1], acts[i].c);
    } else {
      UnsafeDone(ss[i], acts[i]);
    }
    if j < |acts| {
      assert Follows(ss[j], acts[j], ss[j + 1]);
      DoneStays(ss[j], acts[j], acts[i].c);
    }
  }

  lemma UnsafeDone(s: State, a: Act)
    requires Enabled(s, a) && a.Return? && !a.releaseSafe
    ensures a.c in Do(s, a).calls && Done(Do(s, a).calls[a.c])
  {
  }

  /** After a safe return the launch waits for its release. */
  lemma {:induction false} SafeWaits(ss: seq<State>, acts: seq<Act>, i: nat, j: nat)
    requires Interleaving(ss, acts) && i < j < |ss| && acts[i].Return? && acts[i].releaseSafe
    requires forall k :: i < k < j ==> !(acts[k].ReleaseLease? && acts[k].c == acts[i].c)
    ensures acts[i].c in ss[j].calls && ss[j].calls[acts[i].c].Releasing?
    decreases j
  {
    hide Enabled, Do;
    assert Follows(ss[j - 1], acts[j - 1], ss[j]);
    if i < j - 1 {
      SafeWaits(ss, acts, i, j - 1);
    }
    SafeStep(ss[j - 1], acts[j - 1], acts[i].c);
  }

  lemma SafeStep(s: State, a: Act, c: nat)
    requires Enabled(s, a)
    requires (a == Return(c, true)) || (c in s.calls && s.calls[c].Releasing? && !(a.ReleaseLease? && a.c == c))
    ensures c in Do(s, a).calls && Do(s, a).calls[c].Releasing?
  {
    hide Step, Commits;
    if Caller(a) != Some(c) {
      OthersStay(s, a, c);
    }
  }

  /** Between its return from the worker and its end a launch asks for the release of its lease exactly when it
      returned safely. */
  lemma ReleasesIffSafe(ss: seq<State>, acts: seq<Act>, i: nat, j: nat)
    requires Interleaving(ss, acts) && i < j < |acts| && acts[i].Return? && acts[j] == Leave(acts[i].c)
    ensures (exists k :: i < k < j && acts[k].ReleaseLease? && acts[k].c == acts[i].c) <==> acts[i].releaseSafe
  {
    hide Do;
    assert Follows(ss[j], acts[j], ss[j + 1]);
    if !acts[i].releaseSafe {
      forall k | i < k < j ensures !(acts[k].ReleaseLease? && acts[k].c == acts[i].c) {
        UnsafeNeverReleases(ss, acts, i, k);
      }
    } else if forall k :: i < k < j ==> !(acts[k].ReleaseLease? && acts[k].c == acts[i].c) {
      SafeWaits(ss, acts, i, j);
    }
  }
}
