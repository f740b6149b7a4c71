/** The executor lease guard (executor_guard.py): tree differences, and the one-shot paid authority under the
    workspace fence, as the interleaving of any number of verify, paid-start and postflight jobs with arbitrary
    changes to the workspaces. File trees, Git metadata and envelope checks are oracles. */
module ExecutorGuard {
  import opened Common
  import opened Ordering
  import opened Paths

  datatype Node = File(sha256: string, size: nat) | Link(target: string)

  type Tree = map<string, Node>
  type Metadata = map<string, string>

  // ---- changed ----

  function Lookup<V(==)>(m: map<string, V>, k: string): Option<V> {
    if k in m then Some(m[k]) else None
  }

  function Differences<V(==)>(a: map<string, V>, b: map<string, V>): set<string> {
    set k | k in a.Keys + b.Keys && Lookup(a, k) != Lookup(b, k)
  }

  /** No differences means the same map. */
  lemma NoDifferences<V>(a: map<string, V>, b: map<string, V>)
    ensures Differences(a, b) == {} <==> a == b
  {
    if Differences(a, b) == {} {
      forall k ensures k in a <==> k in b {
        assert k !in Differences(a, b);
      }
      forall k | k in a ensures a[k] == b[k] {
        assert k !in Differences(a, b);
      }
    }
  }

  ghost predicate Ascending(s: seq<string>) {
    forall i, j :: 0 <= i < j < |s| ==> StrLe(s[i], s[j]) && s[i] != s[j]
  }

  /** `changed`: the differing keys, each once, in order. */
  method Changed<V(==)>(a: map<string, V>, b: map<string, V>) returns (keys: seq<string>)
    ensures forall k :: k in keys <==> k in Differences(a, b)
    ensures Ascending(keys)
  {
    var found: seq<string> := [];
    var todo := a.Keys + b.Keys;
    while todo != {}
      invariant todo <= a.Keys + b.Keys
      invariant forall k :: k in found <==> k in Differences(a, b) - todo
      invariant Distinct(found)
      decreases todo
    {
      var k :| k in todo;
      assert k !in found;
      todo := todo - {k};
      if Lookup(a, k) != Lookup(b, k) {
        found := found + [k];
      }
    }
    keys := Sort(StrLe, found);
    SortedKeys(found);
  }

  lemma SortedKeys(found: seq<string>)
    requires Distinct(found)
    ensures Ascending(Sort(StrLe, found))
    ensures forall k :: k in Sort(StrLe, found) <==> k in found
  {
    StrOrders();
    SortSorts(StrLe, found);
    SameElements(found, Sort(StrLe, found));
  }

  // ---- Leases and jobs ----

  datatype LeaseFile = LeaseFile(executor: string, workspace: string, packet: string, token: string,
                                 allowedFiles: seq<string>, expiresAt: real, baseline: Tree, gitMetadata: Metadata,
                                 paidConsumed: bool)

  datatype Job = Verify | PaidStart | Postflight

  datatype Thread =
    | Outside(job: Job, path: string, work: string)
    | Fenced(job: Job, path: string, work: string)
    | Read(job: Job, path: string, work: string, lease: LeaseFile)
    | TreeSeen(job: Job, path: string, work: string, lease: LeaseFile, tree: Tree)
    | Verified(job: Job, path: string, work: string, lease: LeaseFile, tree: Tree, meta: Metadata)
    | Written(path: string, work: string, lease: LeaseFile, tree: Tree, meta: Metadata)
    | Between(path: string, work: string, lease: LeaseFile)       // postflight, between its two fences
    | Judging(path: string, work: string, lease: LeaseFile)       // postflight, inside the second fence
    | MetaJudged(path: string, work: string, lease: LeaseFile, meta: Metadata)
    | Ended

  /** A paid start and the tree and Git metadata it saw. */
  datatype Grant = Grant(path: string, tree: Tree, meta: Metadata)

  /** A postflight that accepted the tree and Git metadata it saw. */
  datatype Acceptance = Acceptance(path: string, tree: Tree, meta: Metadata)

  datatype State = State(leases: map<string, LeaseFile>, fences: map<string, nat>, threads: map<nat, Thread>,
                         trees: map<string, Tree>, metas: map<string, Metadata>,
                         grants: seq<Grant>, acceptances: seq<Acceptance>)

  datatype Act =
    | Issue(path: string, lease: LeaseFile)
    | Start(t: nat, job: Job, path: string, work: string)
    | Acquire(t: nat)
    | ReadLease(t: nat, now: real, executor: string, packet: string, token: string)
    | SeeTree(t: nat)
    | SeeMeta(t: nat)
    | Consume(t: nat)
    | GrantPaid(t: nat)
    | JudgeMeta(t: nat)
    | JudgeTree(t: nat)
    | Quit(t: nat)      // the job ends, well or with an exception, and its fence is left
    | Disturb(work: string, tree: Tree, meta: Metadata)

  const START := State(map[], map[], map[], map[], map[], [], [])

  function TreeAt(s: State, work: string): Tree {
    if work in s.trees then s.trees[work] else map[]
  }

  function MetaAt(s: State, work: string): Metadata {
    if work in s.metas then s.metas[work] else map[]
  }

  /** The job is inside the fence of its workspace. */
  predicate Inside(th: Thread) {
    th.Fenced? || th.Read? || th.TreeSeen? || th.Verified? || th.Written? || th.Judging? || th.MetaJudged?
  }

  /** What `_verify_unlocked` compares before it looks at the workspace. */
  predicate Matches(lease: LeaseFile, now: real, executor: string, work: string, packet: string, token: string) {
    && now <= lease.expiresAt
    && lease.executor == executor && lease.workspace == work && lease.packet == packet && lease.token == token
  }

  /** Every differing path is an allowed path up to case folding, and none of them is a link now. */
  predicate InScope(lease: LeaseFile, after: Tree) {
    var ch := Differences(lease.baseline, after);
    && (forall p :: p in ch ==> exists x | x in lease.allowedFiles :: Fold(p) == Fold(x))
    && (forall p :: p in ch ==> !(p in after && after[p].Link?))
  }

  ghost predicate Enabled(s: State, a: Act) {
    match a
    case Issue(path, lease) => path !in s.leases && !lease.paidConsumed
    case Start(t, _, _, _) => t !in s.threads
    case Acquire(t) =>
      t in s.threads && (s.threads[t].Outside? || s.threads[t].Between?) && s.threads[t].work !in s.fences
    case ReadLease(t, now, executor, packet, token) =>
      && t in s.threads && s.threads[t].Fenced? && s.threads[t].path in s.leases
      && Matches(s.leases[s.threads[t].path], now, executor, s.threads[t].work, packet, token)
    case SeeTree(t) =>
      && t in s.threads && s.threads[t].Read?
      && (s.threads[t].job.Postflight?   // allow_source_changes
          || Differences(s.threads[t].lease.baseline, TreeAt(s, s.threads[t].work)) == {})
    case SeeMeta(t) =>
      && t in s.threads && s.threads[t].TreeSeen?
      && Differences(s.threads[t].lease.gitMetadata, MetaAt(s, s.threads[t].work)) == {}
    case Consume(t) =>
      && t in s.threads && s.threads[t].Verified? && s.threads[t].job.PaidStart?
      && !s.threads[t].lease.paidConsumed
      && Differences(s.threads[t].lease.gitMetadata, MetaAt(s, s.threads[t].work)) == {}
    case GrantPaid(t) => t in s.threads && s.threads[t].Written?
    case JudgeMeta(t) =>
      && t in s.threads && s.threads[t].Judging?
      && Differences(s.threads[t].lease.gitMetadata, MetaAt(s, s.threads[t].work)) == {}
    case JudgeTree(t) =>
      t in s.threads && s.threads[t].MetaJudged? && InScope(s.threads[t].lease, TreeAt(s, s.threads[t].work))
    case Quit(t) => t in s.threads && Inside(s.threads[t])
    case Disturb(_, _, _) => true
  }

  function Moved(s: State, t: nat, to: Thread): State {
    s.(threads := s.threads[t := to])
  }

  ghost function Do(s: State, a: Act): State
    requires Enabled(s, a)
  {
    match a
    case Issue(path, lease) => s.(leases := s.leases[path := lease])
    case Start(t, job, path, work) => Moved(s, t, Outside(job, path, work))
    case Acquire(t) =>
      var th := s.threads[t];
      Moved(s, t, if th.Outside? then Fenced(th.job, th.path, th.work) else Judging(th.path, th.work, th.lease))
        .(fences := s.fences[th.work := t])
    case ReadLease(t, _, _, _, _) =>
      var Fenced(job, path, work) := s.threads[t];
      Moved(s, t, Read(job, path, work, s.leases[path]))
    case SeeTree(t) =>
      var Read(job, path, work, lease) := s.threads[t];
      Moved(s, t, TreeSeen(job, path, work, lease, TreeAt(s, work)))
    case SeeMeta(t) =>
      var TreeSeen(job, path, work, lease, tree) := s.threads[t];
      Moved(s, t, Verified(job, path, work, lease, tree, MetaAt(s, work)))
    case Consume(t) =>
      var Verified(_, path, work, lease, tree, _) := s.threads[t];
      Moved(s, t, Written(path, work, lease, tree, MetaAt(s, work)))
        .(leases := s.leases[path := lease.(paidConsumed := true)])
    case GrantPaid(t) =>
      var Written(path, work, _, tree, meta) := s.threads[t];
      Moved(s, t, Ended).(grants := s.grants + [Grant(path, tree, meta)], fences := s.fences - {work})
    case JudgeMeta(t) =>
      var Judging(path, work, lease) := s.threads[t];
      Moved(s, t, MetaJudged(path, work, lease, MetaAt(s, work)))
    case JudgeTree(t) =>
      var MetaJudged(path, work, lease, meta) := s.threads[t];
      Moved(s, t, Ended).(acceptances := s.acceptances + [Acceptance(path, TreeAt(s, work), meta)],
                          fences := s.fences - {work})
    case Quit(t) =>
      var th := s.threads[t];
      Moved(s, t, if th.Verified? && th.job.Postflight? then Between(th.path, th.work, th.lease) else Ended)
        .(fences := s.fences - {th.work})
    case Disturb(work, tree, meta) => s.(trees := s.trees[work := tree], metas := s.metas[work := meta])
  }

  ghost predicate Follows(s: State, a: Act, s': State) {
    Enabled(s, a) && s' == Do(s, a)
  }

  ghost predicate Interleaving(ss: seq<State>, acts: seq<Act>) {
    && |ss| == |acts| + 1 && ss[0] == START
    && forall i :: 0 <= i < |acts| ==> Follows(ss[i], acts[i], ss[i + 1])
  }

  // ---- The invariant ----

  /** The same lease, up to whether its paid authority has been consumed. */
  ghost predicate SameLease(a: LeaseFile, b: LeaseFile) {
    a.(paidConsumed := b.paidConsumed) == b
  }

  ghost predicate GrantedFor(s: State, path: string) {
    exists i :: 0 <= i < |s.grants| && s.grants[i].path == path
  }

  predicate HasLease(th: Thread) {
    th.Read? || th.TreeSeen? || th.Verified? || th.Written? || th.Between? || th.Judging? || th.MetaJudged?
  }

  /** What a job in the middle of verification or of a paid start knows. */
  ghost predicate ThreadOk(s: State, t: nat)
    requires t in s.threads
  {
    var th := s.threads[t];
    && (Inside(th) ==> th.work in s.fences && s.fences[th.work] == t)
    && (HasLease(th) ==>
          th.path in s.leases && SameLease(th.lease, s.leases[th.path]) && th.lease.workspace == th.work)
    // inside the fence the copy is current until this job itself writes
    && (th.Read? || th.TreeSeen? || th.Verified? ==> s.leases[th.path] == th.lease)
    && ((th.TreeSeen? || th.Verified?) && !th.job.Postflight? ==> th.tree == th.lease.baseline)
    && (th.Written? ==> th.tree == th.lease.baseline && th.meta == th.lease.gitMetadata
                        && s.leases[th.path].paidConsumed && !GrantedFor(s, th.path))
    && (th.MetaJudged? ==> th.meta == th.lease.gitMetadata)
  }

  ghost predicate GrantsOk(s: State) {
    && (forall i :: 0 <= i < |s.grants| ==>
          && s.grants[i].path in s.leases && s.leases[s.grants[i].path].paidConsumed
          && s.grants[i].tree == s.leases[s.grants[i].path].baseline
          && s.grants[i].meta == s.leases[s.grants[i].path].gitMetadata)
    && (forall i, j :: 0 <= i < j < |s.grants| ==> s.grants[i].path != s.grants[j].path)
  }

  ghost predicate AcceptancesOk(s: State) {
    forall i :: 0 <= i < |s.acceptances| ==>
      && s.acceptances[i].path in s.leases
      && InScope(s.leases[s.acceptances[i].path], s.acceptances[i].tree)
      && s.acceptances[i].meta == s.leases[s.acceptances[i].path].gitMetadata
  }

  ghost predicate Inv(s: State) {
    && GrantsOk(s) && AcceptancesOk(s)
    && forall t :: t in s.threads ==> ThreadOk(s, t)
  }

  // ---- One step ----

  lemma IssueKeeps(s: State, a: Act)
    requires Inv(s) && Enabled(s, a) && a.Issue?
    ensures Inv(Do(s, a))
  {
    hide InScope;
    var s' := Do(s, a);
    forall t | t in s'.threads ensures ThreadOk(s', t) {
      assert ThreadOk(s, t);
    }
  }

  /** A step that touches neither leases nor grants nor the fences of others. */
  lemma QuietStep(s: State, t: nat, s': State)
    requires Inv(s) && s'.threads.Keys == s.threads.Keys + {t}
    requires forall u :: u in s.threads && u != t ==> s'.threads[u] == s.threads[u]
    requires s'.leases == s.leases && s'.grants == s.grants
    requires forall w :: w in s.fences && s.fences[w] != t ==> w in s'.fences && s'.fences[w] == s.fences[w]
    requires ThreadOk(s', t) && AcceptancesOk(s')
    ensures Inv(s')
  {
    hide InScope, AcceptancesOk, SameLease;
    forall u | u in s'.threads ensures ThreadOk(s', u) {
      if u != t {
        assert ThreadOk(s, u);
        assert forall p :: GrantedFor(s', p) ==> GrantedFor(s, p);
      }
    }
  }

  lemma StartKeeps(s: State, a: Act)
    requires Inv(s) && Enabled(s, a) && a.Start?
    ensures Inv(Do(s, a))
  {
    hide InScope;
    QuietStep(s, a.t, Do(s, a));
  }

  lemma AcquireKeeps(s: State, a: Act)
    requires Inv(s) && Enabled(s, a) && a.Acquire?
    ensures Inv(Do(s, a))
  {
    hide InScope;
    assert ThreadOk(s, a.t);
    QuietStep(s, a.t, Do(s, a));
  }

  lemma ReadKeeps(s: State, a: Act)
    requires Inv(s) && Enabled(s, a) && a.ReadLease?
    ensures Inv(Do(s, a))
  {
    hide InScope;
    assert ThreadOk(s, a.t);
    QuietStep(s, a.t, Do(s, a));
  }

  /** The observations: a passed comparison means the observed map is the recorded one. */
  lemma SeeKeeps(s: State, a: Act)
    requires Inv(s) && Enabled(s, a) && (a.SeeTree? || a.SeeMeta? || a.JudgeMeta?)
    ensures Inv(Do(s, a))
  {
    hide InScope, Differences;
    assert ThreadOk(s, a.t);
    var th := s.threads[a.t];
    if a.SeeTree? {
      NoDifferences(th.lease.baseline, TreeAt(s, th.work));
    } else {
      NoDifferences(th.lease.gitMetadata, MetaAt(s, th.work));
    }
    QuietStep(s, a.t, Do(s, a));
  }

  /** Only one job at a time is inside the fence of a workspace, hence at work on a lease. */
  lemma FenceExcludes(s: State, t: nat, u: nat)
    requires t in s.threads && u in s.threads && ThreadOk(s, t) && ThreadOk(s, u)
    ensures Inside(s.threads[t]) && Inside(s.threads[u]) && s.threads[t].work == s.threads[u].work ==> t == u
    ensures Inside(s.threads[t]) && HasLease(s.threads[t]) && Inside(s.threads[u]) && HasLease(s.threads[u]) ==>
              s.threads[t].path == s.threads[u].path ==> t == u
  {
  }

  lemma ConsumeKeeps(s: State, a: Act)
    requires Inv(s) && Enabled(s, a) && a.Consume?
    ensures Inv(Do(s, a))
  {
    hide InScope, Differences;
    var s' := Do(s, a);
    var th := s.threads[a.t];
    assert ThreadOk(s, a.t);
    NoDifferences(th.lease.gitMetadata, MetaAt(s, th.work));
    assert !GrantedFor(s, th.path);
    forall u | u in s'.threads ensures ThreadOk(s', u) {
      assert ThreadOk(s, u);
      FenceExcludes(s, a.t, u);
    }
    SameScopes(s, s');
  }

  /** Acceptances depend only on what consuming a lease leaves alone. */
  lemma SameScopes(s: State, s': State)
    requires AcceptancesOk(s) && s'.acceptances == s.acceptances
    requires forall p :: p in s.leases ==> p in s'.leases && SameLease(s.leases[p], s'.leases[p])
    ensures AcceptancesOk(s')
  {
    forall i | 0 <= i < |s'.acceptances|
      ensures InScope(s'.leases[s'.acceptances[i].path], s'.acceptances[i].tree)
    {
      var p := s.acceptances[i].path;
      assert s'.leases[p].baseline == s.leases[p].baseline && s'.leases[p].allowedFiles == s.leases[p].allowedFiles;
      assert InScope(s.leases[p], s.acceptances[i].tree);
    }
  }

  lemma GrantKeeps(s: State, a: Act)
    requires Inv(s) && Enabled(s, a) && a.GrantPaid?
    ensures Inv(Do(s, a))
  {
    hide InScope, AcceptancesOk;
    var s' := Do(s, a);
    var th := s.threads[a.t];
    assert ThreadOk(s, a.t);
    assert AcceptancesOk(s') by {
      SameScopes(s, s');
    }
    forall u | u in s'.threads ensures ThreadOk(s', u) {
      assert ThreadOk(s, u);
      FenceExcludes(s, a.t, u);
    }
  }

  lemma JudgeTreeKeeps(s: State, a: Act)
    requires Inv(s) && Enabled(s, a) && a.JudgeTree?
    ensures Inv(Do(s, a))
  {
    hide InScope;
    assert ThreadOk(s, a.t);
    var th := s.threads[a.t];
    SameScope(th.lease, s.leases[th.path], TreeAt(s, th.work));
    QuietStep(s, a.t, Do(s, a));
  }

  lemma SameScope(a: LeaseFile, b: LeaseFile, after: Tree)
    requires SameLease(a, b) && InScope(a, after)
    ensures InScope(b, after) && a.gitMetadata == b.gitMetadata
  {
    assert a.baseline == b.baseline && a.allowedFiles == b.allowedFiles;
  }

  lemma QuitKeeps(s: State, a: Act)
    requires Inv(s) && Enabled(s, a) && a.Quit?
    ensures Inv(Do(s, a))
  {
    hide InScope;
    assert ThreadOk(s, a.t);
    QuietStep(s, a.t, Do(s, a));
  }

  lemma DisturbKeeps(s: State, a: Act)
    requires Inv(s) && Enabled(s, a) && a.Disturb?
    ensures Inv(Do(s, a))
  {
    hide InScope;
    var s' := Do(s, a);
    forall t | t in s'.threads ensures ThreadOk(s', t) {
      assert ThreadOk(s, t);
    }
  }

  lemma StepKeeps(s: State, a: Act)
    requires Inv(s) && Enabled(s, a)
    ensures Inv(Do(s, a))
  {
    hide Inv, Do, Enabled;
    match a
    case Issue(_, _) => IssueKeeps(s, a);
    case Start(_, _, _, _) => StartKeeps(s, a);
    case Acquire(_) => AcquireKeeps(s, a);
    case ReadLease(_, _, _, _, _) => ReadKeeps(s, a);
    case SeeTree(_) => SeeKeeps(s, a);
    case SeeMeta(_) => SeeKeeps(s, a);
    case Consume(_) => ConsumeKeeps(s, a);
    case GrantPaid(_) => GrantKeeps(s, a);
    case JudgeMeta(_) => SeeKeeps(s, a);
    case JudgeTree(_) => JudgeTreeKeeps(s, a);
    case Quit(_) => QuitKeeps(s, a);
    case Disturb(_, _, _) => DisturbKeeps(s, a);
  }

  lemma {:induction false} InterleavingKeeps(ss: seq<State>, acts: seq<Act>, n: nat)
    requires Interleaving(ss, acts) && n < |ss|
    ensures Inv(ss[n])
  {
    if n > 0 {
      hide Inv, Do, Enabled;
      InterleavingKeeps(ss, acts, n - 1);
      assert Follows(ss[n - 1], acts[n - 1], ss[n]);
      StepKeeps(ss[n - 1], acts[n - 1]);
    }
  }

  // ---- What every interleaving guarantees ----

  /** The fences hold: no two jobs are inside the fence of one workspace, and none has read a lease that another job
      inside a fence has read too. */
  lemma FencesHold(ss: seq<State>, acts: seq<Act>, n: nat, t: nat, u: nat)
    requires Interleaving(ss, acts) && n < |ss|
    requires t in ss[n].threads && u in ss[n].threads && t != u
    requires Inside(ss[n].threads[t]) && Inside(ss[n].threads[u])
    ensures ss[n].threads[t].work != ss[n].threads[u].work
    ensures HasLease(ss[n].threads[t]) && HasLease(ss[n].threads[u]) ==> ss[n].threads[t].path != ss[n].threads[u].path
  {
    hide ThreadOk, GrantsOk, AcceptancesOk;
    InterleavingKeeps(ss, acts, n);
    FenceExcludes(ss[n], t, u);
  }

  /** A lease file grants paid authority at most once. */
  lemma PaidAuthorityOnce(ss: seq<State>, acts: seq<Act>, n: nat, i: nat, j: nat)
    requires Interleaving(ss, acts) && n < |ss| && i < j < |ss[n].grants|
    ensures ss[n].grants[i].path != ss[n].grants[j].path
  {
    hide InScope, ThreadOk;
    InterleavingKeeps(ss, acts, n);
    assert GrantsOk(ss[n]);
  }

  /** When postflight accepts under a lease that granted a paid start, every path that differs from the tree at
      the paid start is an allowed path, no such path is a link, and the Git metadata is what it was. */
  lemma PostflightConfinesPaidRun(ss: seq<State>, acts: seq<Act>, n: nat, i: nat, j: nat)
    requires Interleaving(ss, acts) && n < |ss| && i < |ss[n].grants| && j < |ss[n].acceptances|
    requires ss[n].grants[i].path == ss[n].acceptances[j].path
    ensures var g, acc := ss[n].grants[i], ss[n].acceptances[j];
            && acc.path in ss[n].leases
            && (forall p :: Lookup(g.tree, p) != Lookup(acc.tree, p) ==>
                 && (exists x :: x in ss[n].leases[acc.path].allowedFiles && Fold(p) == Fold(x))
                 && !(p in acc.tree && acc.tree[p].Link?))
            && acc.meta == g.meta
  {
    hide ThreadOk;
    InterleavingKeeps(ss, acts, n);
    assert GrantsOk(ss[n]) && AcceptancesOk(ss[n]);
    var g, acc := ss[n].grants[i], ss[n].acceptances[j];
    forall p | Lookup(g.tree, p) != Lookup(acc.tree, p)
      ensures (exists x :: x in ss[n].leases[acc.path].allowedFiles && Fold(p) == Fold(x))
              && !(p in acc.tree && acc.tree[p].Link?)
    {
      assert p in Differences(g.tree, acc.tree);
    }
  }

  // ---- Nothing without the right papers ----

  /** At step `r` this job read the lease file at this path, inside the fence of the workspace that the lease names,
      not after its expiry, and presented its executor, packet and token. */
  ghost predicate Presented(ss: seq<State>, acts: seq<Act>, r: nat, t: nat, path: string, lease: LeaseFile) {
    && r < |acts| && |ss| == |acts| + 1
    && acts[r].ReadLease? && acts[r].t == t
    && acts[r].executor == lease.executor && acts[r].packet == lease.packet && acts[r].token == lease.token
    && acts[r].now <= lease.expiresAt
    && t in ss[r].threads && ss[r].threads[t].Fenced?
    && ss[r].threads[t].path == path && ss[r].threads[t].work == lease.workspace
    && path in ss[r].leases && ss[r].leases[path] == lease
  }

  lemma ReadPresents(ss: seq<State>, acts: seq<Act>, r: nat)
    requires Interleaving(ss, acts) && r < |acts| && acts[r].ReadLease?
    ensures var s, t := ss[r], acts[r].t;
            && t in s.threads && s.threads[t].Fenced? && s.threads[t].path in s.leases
            && Presented(ss, acts, r, t, s.threads[t].path, s.leases[s.threads[t].path])
  {
    assert Follows(ss[r], acts[r], ss[r + 1]);
  }

  /** A job keeps the path and the lease that it has read. */
  lemma LeaseCarried(s: State, a: Act, t: nat)
    requires Enabled(s, a) && t in Do(s, a).threads && HasLease(Do(s, a).threads[t])
    requires !(a.ReadLease? && a.t == t)
    ensures t in s.threads && HasLease(s.threads[t])
    ensures Do(s, a).threads[t].path == s.threads[t].path && Do(s, a).threads[t].lease == s.threads[t].lease
  {
    hide InScope, Differences, Matches;
  }

  /** Whoever has a lease has presented what it asks for. */
  lemma {:induction false} HolderPresented(ss: seq<State>, acts: seq<Act>, n: nat, t: nat) returns (r: nat)
    requires Interleaving(ss, acts) && n < |ss|
    requires t in ss[n].threads && HasLease(ss[n].threads[t])
    ensures r < n && Presented(ss, acts, r, t, ss[n].threads[t].path, ss[n].threads[t].lease)
  {
    hide Enabled, Do, Presented;
    NoThreads();
    assert Follows(ss[n - 1], acts[n - 1], ss[n]);
    if acts[n - 1].ReadLease? && acts[n - 1].t == t {
      r := n - 1;
      ReadPresents(ss, acts, r);
      ReadGives(ss[r], acts[r]);
    } else {
      LeaseCarried(ss[n - 1], acts[n - 1], t);
      r := HolderPresented(ss, acts, n - 1, t);
    }
  }

  lemma NoThreads()
    ensures START.threads == map[]
  {
  }

  lemma ReadGives(s: State, a: Act)
    requires Enabled(s, a) && a.ReadLease?
    ensures var s' := Do(s, a);
            && a.t in s.threads && a.t in s'.threads && HasLease(s'.threads[a.t]) && s.threads[a.t].path in s.leases
            && s'.threads[a.t].path == s.threads[a.t].path && s'.threads[a.t].lease == s.leases[s.threads[a.t].path]
  {
    hide Matches;
  }

  lemma {:induction false} GrantedBy(ss: seq<State>, acts: seq<Act>, n: nat, i: nat) returns (p: nat)
    requires Interleaving(ss, acts) && n < |ss| && i < |ss[n].grants|
    ensures p < n && acts[p].GrantPaid? && acts[p].t in ss[p].threads && ss[p].threads[acts[p].t].Written?
    ensures ss[p].threads[acts[p].t].path == ss[n].grants[i].path
  {
    assert n > 0;
    assert Follows(ss[n - 1], acts[n - 1], ss[n]);
    if i < |ss[n - 1].grants| {
      p := GrantedBy(ss, acts, n - 1, i);
      assert ss[n].grants[i] == ss[n - 1].grants[i];
    } else {
      p := n - 1;
    }
  }

  lemma {:induction false} AcceptedBy(ss: seq<State>, acts: seq<Act>, n: nat, i: nat) returns (p: nat)
    requires Interleaving(ss, acts) && n < |ss| && i < |ss[n].acceptances|
    ensures p < n && acts[p].JudgeTree? && acts[p].t in ss[p].threads && ss[p].threads[acts[p].t].MetaJudged?
    ensures ss[p].threads[acts[p].t].path == ss[n].acceptances[i].path
  {
    assert n > 0;
    assert Follows(ss[n - 1], acts[n - 1], ss[n]);
    if i < |ss[n - 1].acceptances| {
      p := AcceptedBy(ss, acts, n - 1, i);
      assert ss[n].acceptances[i] == ss[n - 1].acceptances[i];
    } else {
      p := n - 1;
    }
  }

  /** Every paid authority was granted at some step to a job that, at an earlier step, had presented the lease's own
      executor, packet and token on its own workspace, not after its expiry. */
  lemma GrantNeedsPapers(ss: seq<State>, acts: seq<Act>, n: nat, i: nat) returns (r: nat, p: nat, lease: LeaseFile)
    requires Interleaving(ss, acts) && n < |ss| && i < |ss[n].grants|
    ensures r < p < n && acts[r].ReadLease? && acts[p] == GrantPaid(acts[r].t)
    ensures Presented(ss, acts, r, acts[r].t, ss[n].grants[i].path, lease)
    ensures !lease.paidConsumed && ss[n].grants[i].tree == lease.baseline && ss[n].grants[i].meta == lease.gitMetadata
  {
    hide Presented, Enabled, Do, ThreadOk, InScope;
    p := GrantedBy(ss, acts, n, i);
    var t := acts[p].t;
    r := HolderPresented(ss, acts, p, t);
    PresentedJob(ss, acts, r, t, ss[p].threads[t].path, ss[p].threads[t].lease);
    lease := ss[p].threads[t].lease;
    InterleavingKeeps(ss, acts, p);
    InterleavingKeeps(ss, acts, n);
    WrittenUnconsumed(ss, acts, p, t);
    CopyCurrent(ss[p], t);
    LeaseStays(ss, acts, p, n, ss[p].threads[t].path);
    GrantsMatch(ss[n], i);
  }

  lemma PresentedJob(ss: seq<State>, acts: seq<Act>, r: nat, t: nat, path: string, lease: LeaseFile)
    requires Presented(ss, acts, r, t, path, lease)
    ensures acts[r].ReadLease? && acts[r].t == t
  {
  }

  lemma GrantsMatch(s: State, i: nat)
    requires Inv(s) && i < |s.grants|
    ensures var g := s.grants[i];
            g.path in s.leases && g.tree == s.leases[g.path].baseline && g.meta == s.leases[g.path].gitMetadata
  {
    hide ThreadOk, AcceptancesOk;
  }

  lemma CopyCurrent(s: State, t: nat)
    requires Inv(s) && t in s.threads && HasLease(s.threads[t])
    ensures s.threads[t].path in s.leases && SameLease(s.threads[t].lease, s.leases[s.threads[t].path])
  {
    hide GrantsOk, AcceptancesOk;
    assert ThreadOk(s, t);
  }

  /** A lease file keeps everything but the mark of consumption. */
  lemma {:induction false} LeaseStays(ss: seq<State>, acts: seq<Act>, m: nat, n: nat, path: string)
    requires Interleaving(ss, acts) && m <= n < |ss| && path in ss[m].leases
    ensures path in ss[n].leases && SameLease(ss[m].leases[path], ss[n].leases[path])
    decreases n
  {
    if m < n {
      LeaseStays(ss, acts, m, n - 1, path);
      assert Follows(ss[n - 1], acts[n - 1], ss[n]);
      InterleavingKeeps(ss, acts, n - 1);
      hide Inv;
      LeaseStep(ss[n - 1], acts[n - 1], path);
    }
  }

  lemma LeaseStep(s: State, a: Act, path: string)
    requires Inv(s) && Enabled(s, a) && path in s.leases
    ensures path in Do(s, a).leases && SameLease(s.leases[path], Do(s, a).leases[path])
  {
    hide GrantsOk, AcceptancesOk, InScope, Differences, Matches;
    if a.Consume? {
      assert ThreadOk(s, a.t);
    }
  }

  lemma WrittenFrom(s: State, a: Act, t: nat)
    requires Enabled(s, a) && t in Do(s, a).threads && Do(s, a).threads[t].Written?
    ensures !Do(s, a).threads[t].lease.paidConsumed || (t in s.threads && s.threads[t] == Do(s, a).threads[t])
  {
    hide InScope, Differences, Matches;
  }

  /** The copy with which a job writes the mark had none. */
  lemma {:induction false} WrittenUnconsumed(ss: seq<State>, acts: seq<Act>, n: nat, t: nat)
    requires Interleaving(ss, acts) && n < |ss| && t in ss[n].threads && ss[n].threads[t].Written?
    ensures !ss[n].threads[t].lease.paidConsumed
  {
    hide Enabled, Do;
    NoThreads();
    assert Follows(ss[n - 1], acts[n - 1], ss[n]);
    WrittenFrom(ss[n - 1], acts[n - 1], t);
    if ss[n].threads[t].lease.paidConsumed {
      WrittenUnconsumed(ss, acts, n - 1, t);
    }
  }

  /** And so was every acceptance. */
  lemma AcceptanceNeedsPapers(ss: seq<State>, acts: seq<Act>, n: nat, i: nat)
      returns (r: nat, p: nat, lease: LeaseFile)
    requires Interleaving(ss, acts) && n < |ss| && i < |ss[n].acceptances|
    ensures r < p < n && acts[r].ReadLease? && acts[p] == JudgeTree(acts[r].t)
    ensures Presented(ss, acts, r, acts[r].t, ss[n].acceptances[i].path, lease)
  {
    hide Presented, Enabled, Do;
    p := AcceptedBy(ss, acts, n, i);
    var t := acts[p].t;
    r := HolderPresented(ss, acts, p, t);
    PresentedJob(ss, acts, r, t, ss[p].threads[t].path, ss[p].threads[t].lease);
    lease := ss[p].threads[t].lease;
  }

  // ---- When a job goes on ----

  /** A job inside its fence may read the lease exactly when it has not expired and names the presented executor,
      packet and token and the fenced workspace. */
  lemma ReadsExactly(s: State, t: nat, now: real, executor: string, packet: string, token: string)
    requires t in s.threads && s.threads[t].Fenced? && s.threads[t].path in s.leases
    ensures var lease := s.leases[s.threads[t].path];
            Enabled(s, ReadLease(t, now, executor, packet, token))
            <==> && now <= lease.expiresAt && executor == lease.executor && packet == lease.packet && token == lease.token
                 && s.threads[t].work == lease.workspace
  {
  }

  /** With the lease read, verification passes exactly when the workspace has the recorded files, unless this is a
      postflight, and then the recorded Git metadata. */
  lemma VerifiesExactly(s: State, t: nat)
    requires t in s.threads
    ensures s.threads[t].Read? ==>
              (Enabled(s, SeeTree(t))
               <==> s.threads[t].job == Postflight || s.threads[t].lease.baseline == TreeAt(s, s.threads[t].work))
    ensures s.threads[t].TreeSeen? ==>
              (Enabled(s, SeeMeta(t)) <==> s.threads[t].lease.gitMetadata == MetaAt(s, s.threads[t].work))
  {
    hide Differences;
    if s.threads[t].Read? {
      NoDifferences(s.threads[t].lease.baseline, TreeAt(s, s.threads[t].work));
    }
    if s.threads[t].TreeSeen? {
      NoDifferences(s.threads[t].lease.gitMetadata, MetaAt(s, s.threads[t].work));
    }
  }

  /** A verified job consumes the lease exactly when it is a paid start, the lease is not consumed yet and the Git
      metadata is still the recorded one. A postflight in its second fence accepts exactly when the metadata is that
      and every path that differs from the recorded tree is an allowed one, up to case, and no link. */
  lemma EndsExactly(s: State, t: nat)
    requires t in s.threads
    ensures s.threads[t].Verified? ==>
              (Enabled(s, Consume(t))
               <==> s.threads[t].job == PaidStart && !s.threads[t].lease.paidConsumed
                    && s.threads[t].lease.gitMetadata == MetaAt(s, s.threads[t].work))
    ensures s.threads[t].Judging? ==>
              (Enabled(s, JudgeMeta(t)) <==> s.threads[t].lease.gitMetadata == MetaAt(s, s.threads[t].work))
    ensures s.threads[t].MetaJudged? ==>
              var lease, after := s.threads[t].lease, TreeAt(s, s.threads[t].work);
              (Enabled(s, JudgeTree(t))
               <==> forall p :: Lookup(lease.baseline, p) != Lookup(after, p) ==>
                      && (exists x :: x in lease.allowedFiles && SameLetters(p, x))
                      && !(p in after && after[p].Link?))
  {
    hide Fold, SameLetters;
    var th := s.threads[t];
    if th.Verified? || th.Judging? {
      hide Differences;
      NoDifferences(th.lease.gitMetadata, MetaAt(s, th.work));
    }
    if th.MetaJudged? {
      ScopeExactly(th.lease, TreeAt(s, th.work));
    }
  }

  lemma ScopeExactly(lease: LeaseFile, after: Tree)
    ensures InScope(lease, after)
            <==> forall p :: Lookup(lease.baseline, p) != Lookup(after, p) ==>
                   && (exists x :: x in lease.allowedFiles && SameLetters(p, x))
                   && !(p in after && after[p].Link?)
  {
    hide Fold, SameLetters;
    forall p, x ensures SameLetters(p, x) <==> Fold(p) == Fold(x) {
      SameLettersFold(p, x);
    }
    var ch := Differences(lease.baseline, after);
    forall p ensures p in ch <==> Lookup(lease.baseline, p) != Lookup(after, p) {
    }
    hide Differences, Lookup;
  }
}
