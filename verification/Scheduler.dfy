/** Greedy batching of queue positions under an arbitrary conflict relation: the heart of
    `smart_parallel_batches` (scheduler.py), apart from what the items are. */
module Greedy {
  import opened Ordering

  type Relation = (nat, nat) -> bool

  predicate Clashes(adj: Relation, x: nat, batch: seq<nat>) {
    exists z | z in batch :: adj(x, z)
  }

  /** One pass over the remaining positions: those that join the batch. */
  function Admitted(adj: Relation, rest: seq<nat>, width: int, batch: seq<nat>): seq<nat>
    decreases rest
  {
    if rest == [] then batch
    else if |batch| >= width || Clashes(adj, rest[0], batch) then Admitted(adj, rest[1..], width, batch)
    else Admitted(adj, rest[1..], width, batch + [rest[0]])
  }

  /** One pass over the remaining positions: those put off. */
  function Deferred(adj: Relation, rest: seq<nat>, width: int, batch: seq<nat>): (d: seq<nat>)
    ensures |d| + |Admitted(adj, rest, width, batch)| == |rest| + |batch|
    decreases rest
  {
    if rest == [] then []
    else if |batch| >= width || Clashes(adj, rest[0], batch) then [rest[0]] + Deferred(adj, rest[1..], width, batch)
    else Deferred(adj, rest[1..], width, batch + [rest[0]])
  }

  /** The batch cut from `rest`; when nothing may join, the first position alone. */
  function Batch(adj: Relation, rest: seq<nat>, width: int): seq<nat>
    requires rest != []
  {
    var batch := Admitted(adj, rest, width, []);
    if batch == [] then [rest[0]] else batch
  }

  function Leftover(adj: Relation, rest: seq<nat>, width: int): (d: seq<nat>)
    requires rest != []
    ensures |d| < |rest|
  {
    if Admitted(adj, rest, width, []) == [] then rest[1..] else Deferred(adj, rest, width, [])
  }

  function Batches(adj: Relation, rest: seq<nat>, width: int): seq<seq<nat>>
    decreases |rest|
  {
    if rest == [] then [] else [Batch(adj, rest, width)] + Batches(adj, Leftover(adj, rest, width), width)
  }

  function Positions(n: nat): (s: seq<nat>)
    ensures |s| == n && forall i :: 0 <= i < n ==> s[i] == i
  {
    seq(n, i => i)
  }

  ghost predicate Increasing(s: seq<nat>) {
    forall i, j :: 0 <= i < j < |s| ==> s[i] < s[j]
  }

  ghost predicate Independent(adj: Relation, batch: seq<nat>) {
    forall i, j :: 0 <= i < j < |batch| ==> !adj(batch[j], batch[i])
  }

  // ---- One pass ----

  /** The situation in the middle of a pass. */
  ghost predicate Passing(adj: Relation, rest: seq<nat>, batch: seq<nat>) {
    && Increasing(rest) && Increasing(batch) && Independent(adj, batch)
    && forall i, j :: 0 <= i < |batch| && 0 <= j < |rest| ==> batch[i] < rest[j]
  }

  lemma PassingNext(adj: Relation, rest: seq<nat>, batch: seq<nat>)
    requires Passing(adj, rest, batch) && rest != []
    ensures Passing(adj, rest[1..], batch)
    ensures !Clashes(adj, rest[0], batch) ==> Passing(adj, rest[1..], batch + [rest[0]])
    ensures forall y :: y in rest[1..] ==> rest[0] < y
    ensures forall y :: y in rest <==> y == rest[0] || y in rest[1..]
  {
    assert rest == [rest[0]] + rest[1..];
    assert forall i :: 0 <= i < |batch| ==> batch[i] in batch;
  }

  /** A pass loses no position and adds none. */
  lemma {:induction false} PassSplits(adj: Relation, rest: seq<nat>, width: int, batch: seq<nat>)
    ensures multiset(Admitted(adj, rest, width, batch)) + multiset(Deferred(adj, rest, width, batch))
            == multiset(batch) + multiset(rest)
    decreases rest
  {
    if rest != [] {
      var x, t := rest[0], rest[1..];
      assert rest == [x] + t;
      var ms := multiset(batch) + multiset(rest);
      assert ms == multiset(batch) + multiset{x} + multiset(t);
      if |batch| >= width || Clashes(adj, x, batch) {
        PassSplits(adj, t, width, batch);
        var a, d := Admitted(adj, t, width, batch), Deferred(adj, t, width, batch);
        assert multiset(a) + multiset([x] + d) == multiset(a) + multiset(d) + multiset{x} == ms;
      } else {
        PassSplits(adj, t, width, batch + [x]);
        assert multiset(batch + [x]) + multiset(t) == ms;
      }
    }
  }

  /** A pass keeps the order, respects the width and admits no conflicting pair. */
  lemma {:induction false} PassOrders(adj: Relation, rest: seq<nat>, width: int, batch: seq<nat>)
    requires Passing(adj, rest, batch)
    ensures Increasing(Admitted(adj, rest, width, batch)) && Increasing(Deferred(adj, rest, width, batch))
    ensures Independent(adj, Admitted(adj, rest, width, batch))
    ensures |Admitted(adj, rest, width, batch)| <= if |batch| >= width then |batch| else width
    ensures forall d :: d in Deferred(adj, rest, width, batch) ==> d in rest
    decreases rest
  {
    if rest != [] {
      PassingNext(adj, rest, batch);
      if |batch| >= width || Clashes(adj, rest[0], batch) {
        PassOrders(adj, rest[1..], width, batch);
        var d := Deferred(adj, rest[1..], width, batch);
        forall i | 0 <= i < |d| ensures rest[0] < d[i] {
          assert d[i] in rest[1..];
        }
      } else {
        PassOrders(adj, rest[1..], width, batch + [rest[0]]);
      }
    }
  }

  /** The batch only grows, and stands still once it is full. */
  lemma {:induction false} PassGrows(adj: Relation, rest: seq<nat>, width: int, batch: seq<nat>)
    ensures batch <= Admitted(adj, rest, width, batch)
    ensures |batch| >= width ==> Admitted(adj, rest, width, batch) == batch
    decreases rest
  {
    if rest != [] {
      PassGrows(adj, rest[1..], width, batch);
      PassGrows(adj, rest[1..], width, batch + [rest[0]]);
    }
  }

  /** Some member of `batch` other than `x` stands in the way of `x`. */
  ghost predicate Blocked(adj: Relation, x: nat, batch: seq<nat>) {
    exists z :: z in batch && z < x && adj(x, z)
  }

  /** A position is put off because of an earlier member of the batch, unless the batch was full by then:
      that cannot be when a later position was still admitted, or when there was room for everybody. */
  lemma {:induction false} PutOff(adj: Relation, rest: seq<nat>, width: int, batch: seq<nat>, x: nat, y: nat)
    requires Passing(adj, rest, batch)
    requires x in Deferred(adj, rest, width, batch)
    requires (y in Admitted(adj, rest, width, batch) && x < y) || |batch| + |rest| <= width
    ensures Blocked(adj, x, Admitted(adj, rest, width, batch))
    decreases rest
  {
    PassingNext(adj, rest, batch);
    PassGrows(adj, rest, width, batch);
    if |batch| >= width || Clashes(adj, rest[0], batch) {
      if x == rest[0] {
        assert x in rest;
        assert |batch| < width;
        var z :| z in batch && adj(x, z);
        assert z in Admitted(adj, rest, width, batch);
      } else {
        PutOff(adj, rest[1..], width, batch, x, y);
      }
    } else {
      PutOff(adj, rest[1..], width, batch + [rest[0]], x, y);
    }
  }

  /** The batch is full, and all its members stand before `x`. */
  ghost predicate FullBefore(batch: seq<nat>, width: int, x: nat) {
    |batch| >= width && forall i :: 0 <= i < |batch| ==> batch[i] < x
  }

  /** Why a position is put off: an earlier member stands in its way, or the batch is full of earlier ones. */
  lemma {:induction false} PutOffWhy(adj: Relation, rest: seq<nat>, width: int, batch: seq<nat>, x: nat)
    requires Passing(adj, rest, batch)
    requires x in Deferred(adj, rest, width, batch)
    ensures var b := Admitted(adj, rest, width, batch); Blocked(adj, x, b) || FullBefore(b, width, x)
    decreases rest
  {
    PassingNext(adj, rest, batch);
    PassGrows(adj, rest, width, batch);
    if |batch| >= width || Clashes(adj, rest[0], batch) {
      if x == rest[0] {
        assert x in rest;
        if |batch| < width {
          var z :| z in batch && adj(x, z);
          assert z in Admitted(adj, rest, width, batch);
        }
      } else {
        PutOffWhy(adj, rest[1..], width, batch, x);
      }
    } else {
      PutOffWhy(adj, rest[1..], width, batch + [rest[0]], x);
    }
  }

  // ---- One cut ----

  lemma Cut(adj: Relation, rest: seq<nat>, width: int)
    requires Increasing(rest) && rest != []
    ensures var b, d := Batch(adj, rest, width), Leftover(adj, rest, width);
            && multiset(b) + multiset(d) == multiset(rest)
            && Increasing(b) && Increasing(d) && Independent(adj, b)
            && 1 <= |b| <= (if width >= 1 then width else 1)
  {
    PassSplits(adj, rest, width, []);
    PassOrders(adj, rest, width, []);
    assert rest == [rest[0]] + rest[1..];
  }

  /** A remaining position is in the batch or left over, never both. */
  lemma CutMembers(adj: Relation, rest: seq<nat>, width: int, x: nat)
    requires Increasing(rest) && rest != []
    ensures x in rest <==> x in Batch(adj, rest, width) || x in Leftover(adj, rest, width)
    ensures !(x in Batch(adj, rest, width) && x in Leftover(adj, rest, width))
  {
    Cut(adj, rest, width);
    OccursOnce(rest, x);
    var b, d := multiset(Batch(adj, rest, width)), multiset(Leftover(adj, rest, width));
    assert x in b <==> x in Batch(adj, rest, width);
    assert x in d <==> x in Leftover(adj, rest, width);
    assert x in multiset(rest) <==> x in rest;
    assert (b + d)[x] == b[x] + d[x];
  }

  lemma CutPutOff(adj: Relation, rest: seq<nat>, width: int, x: nat, y: nat)
    requires Increasing(rest) && rest != [] && x in Leftover(adj, rest, width)
    requires (y in Batch(adj, rest, width) && x < y) || |rest| <= width
    ensures Blocked(adj, x, Batch(adj, rest, width))
  {
    PassingNext(adj, rest, []);
    if width <= 0 {
      PassGrows(adj, rest, width, []);
    } else {
      PassGrows(adj, rest[1..], width, [] + [rest[0]]);
      PutOff(adj, rest, width, [], x, y);
    }
  }

  // ---- All batches ----

  function Flatten<T>(bs: seq<seq<T>>): seq<T> {
    if bs == [] then [] else bs[0] + Flatten(bs[1..])
  }

  /** Every position lands in exactly one batch; batches are non-empty, no wider than allowed, in queue order
      and free of conflicts. */
  lemma {:induction false} BatchesSound(adj: Relation, rest: seq<nat>, width: int)
    requires Increasing(rest)
    ensures var bs := Batches(adj, rest, width);
            && multiset(Flatten(bs)) == multiset(rest)
            && forall k :: 0 <= k < |bs| ==>
                 && 1 <= |bs[k]| <= (if width >= 1 then width else 1)
                 && Increasing(bs[k]) && Independent(adj, bs[k])
    decreases |rest|
  {
    hide Batch, Leftover;
    if rest != [] {
      Cut(adj, rest, width);
      BatchesSound(adj, Leftover(adj, rest, width), width);
    }
  }

  lemma {:induction false} BatchMember(adj: Relation, rest: seq<nat>, width: int, k: nat, x: nat)
    requires Increasing(rest)
    requires k < |Batches(adj, rest, width)| && x in Batches(adj, rest, width)[k]
    ensures x in rest
    decreases |rest|
  {
    Cut(adj, rest, width);
    CutMembers(adj, rest, width, x);
    if k > 0 {
      BatchMember(adj, Leftover(adj, rest, width), width, k - 1, x);
    }
  }

  lemma CutWhy(adj: Relation, rest: seq<nat>, width: int, x: nat)
    requires Increasing(rest) && rest != [] && x in Leftover(adj, rest, width)
    ensures var b := Batch(adj, rest, width); Blocked(adj, x, b) || FullBefore(b, if width >= 1 then width else 1, x)
  {
    if Admitted(adj, rest, width, []) == [] {
      PassGrows(adj, rest[1..], width, [] + [rest[0]]);
      assert width < 1;
      var i :| 0 <= i < |rest[1..]| && rest[1..][i] == x;
      assert rest[i + 1] == x;
    } else {
      PutOffWhy(adj, rest, width, [], x);
      PassOrders(adj, rest, width, []);
    }
  }

  /** Whoever lands in a later batch conflicts with an earlier member of this one, or found it full of earlier ones. */
  lemma {:induction false} LaterWhy(adj: Relation, rest: seq<nat>, width: int, k: nat, m: nat, x: nat)
    requires Increasing(rest)
    requires k < m < |Batches(adj, rest, width)| && x in Batches(adj, rest, width)[m]
    ensures var b := Batches(adj, rest, width)[k];
            Blocked(adj, x, b) || FullBefore(b, if width >= 1 then width else 1, x)
    decreases |rest|
  {
    hide Blocked, FullBefore;
    Cut(adj, rest, width);
    var b, d := Batch(adj, rest, width), Leftover(adj, rest, width);
    var later := Batches(adj, d, width);
    assert Batches(adj, rest, width) == [b] + later;
    assert x in later[m - 1];
    if k == 0 {
      BatchMember(adj, d, width, m - 1, x);
      CutWhy(adj, rest, width, x);
    } else {
      LaterWhy(adj, d, width, k - 1, m - 1, x);
    }
  }

  /** Whoever lands in a later batch than someone behind it in the queue conflicts with a member of that
      earlier batch that stands before it. */
  lemma {:induction false} InversionOnlyByConflict(adj: Relation, rest: seq<nat>, width: int, i: nat, j: nat, x: nat, y: nat)
    requires Increasing(rest)
    requires i < j < |Batches(adj, rest, width)|
    requires y in Batches(adj, rest, width)[i] && x in Batches(adj, rest, width)[j]
    requires x < y
    ensures Blocked(adj, x, Batches(adj, rest, width)[i])
    decreases |rest|
  {
    Cut(adj, rest, width);
    var b, d := Batch(adj, rest, width), Leftover(adj, rest, width);
    var later := Batches(adj, d, width);
    assert Batches(adj, rest, width) == [b] + later;
    assert x in later[j - 1];
    if i == 0 {
      BatchMember(adj, d, width, j - 1, x);
      CutPutOff(adj, rest, width, x, y);
    } else {
      assert y in later[i - 1];
      InversionOnlyByConflict(adj, d, width, i - 1, j - 1, x, y);
    }
  }

  /** With room for everybody, a member of batch `k` conflicts with a position in each of the `k` batches before. */
  lemma {:induction false} BlockerPerBatch(adj: Relation, rest: seq<nat>, width: int, k: nat, x: nat)
      returns (zs: set<nat>)
    requires Increasing(rest) && |rest| <= width
    requires k < |Batches(adj, rest, width)| && x in Batches(adj, rest, width)[k]
    ensures |zs| == k
    ensures forall z :: z in zs ==> z in rest && z != x && adj(x, z)
    decreases |rest|
  {
    zs := {};
    if k > 0 {
      Cut(adj, rest, width);
      var b, d := Batch(adj, rest, width), Leftover(adj, rest, width);
      BatchMember(adj, d, width, k - 1, x);
      var rec := BlockerPerBatch(adj, d, width, k - 1, x);
      CutPutOff(adj, rest, width, x, x);
      var z :| z in b && z < x && adj(x, z);
      CutMembers(adj, rest, width, z);
      forall w | w in rec ensures w in rest {
        CutMembers(adj, rest, width, w);
      }
      zs := rec + {z};
    }
  }
}

/** Conflict test and greedy batching of work items (scheduler.py). */
module Scheduler {
  import opened Common
  import opened Ordering
  import opened Paths
  import opened Greedy

  datatype WorkItem = WorkItem(taskId: string, files: set<string>, writeRoots: set<string>, cost: real, priority: int)

  // ---- The conflict test ----

  /** `conflicts`. */
  predicate Conflicts(a: WorkItem, b: WorkItem) {
    var aFiles := set f | f in a.files :: Canonical(f);
    var bFiles := set f | f in b.files :: Canonical(f);
    var aRoots := set r | r in a.writeRoots :: Canonical(r);
    var bRoots := set r | r in b.writeRoots :: Canonical(r);
    || aFiles * bFiles != {}
    || (exists f, r | f in aFiles && r in bRoots :: Contains(r, f))
    || (exists f, r | f in bFiles && r in aRoots :: Contains(r, f))
    || (exists x, y | x in aRoots && y in bRoots :: Contains(x, y) || Contains(y, x))
  }

  /** What an item may write: its files, and everything at or under its roots, as component sequences. */
  ghost predicate Writable(item: WorkItem, p: seq<string>) {
    || (exists f :: f in item.files && Components(f) == p)
    || (exists r :: r in item.writeRoots && Components(r) <= p)
  }

  ghost predicate SharePath(a: WorkItem, b: WorkItem) {
    exists p :: Writable(a, p) && Writable(b, p)
  }

  lemma ConflictsShare(a: WorkItem, b: WorkItem)
    requires Conflicts(a, b)
    ensures SharePath(a, b)
  {
    var aFiles := set f | f in a.files :: Canonical(f);
    var bFiles := set f | f in b.files :: Canonical(f);
    var aRoots := set r | r in a.writeRoots :: Canonical(r);
    var bRoots := set r | r in b.writeRoots :: Canonical(r);
    var p: seq<string>;
    if aFiles * bFiles != {} {
      var c :| c in aFiles * bFiles;
      var f :| f in a.files && Canonical(f) == c;
      var g :| g in b.files && Canonical(g) == c;
      CanonicalInjective(f, g);
      p := Components(f);
    } else if exists f, r | f in aFiles && r in bRoots :: Contains(r, f) {
      var cf, cr :| cf in aFiles && cr in bRoots && Contains(cr, cf);
      var f :| f in a.files && Canonical(f) == cf;
      var r :| r in b.writeRoots && Canonical(r) == cr;
      ContainsIsTree(r, f);
      p := Components(f);
    } else if exists f, r | f in bFiles && r in aRoots :: Contains(r, f) {
      var cf, cr :| cf in bFiles && cr in aRoots && Contains(cr, cf);
      var f :| f in b.files && Canonical(f) == cf;
      var r :| r in a.writeRoots && Canonical(r) == cr;
      ContainsIsTree(r, f);
      p := Components(f);
    } else {
      var cx, cy :| cx in aRoots && cy in bRoots && (Contains(cx, cy) || Contains(cy, cx));
      var x :| x in a.writeRoots && Canonical(x) == cx;
      var y :| y in b.writeRoots && Canonical(y) == cy;
      ContainsIsTree(x, y);
      ContainsIsTree(y, x);
      p := if Contains(cx, cy) then Components(y) else Components(x);
    }
    assert Writable(a, p) && Writable(b, p);
  }

  lemma PrefixesComparable<T>(a: seq<T>, b: seq<T>, p: seq<T>)
    requires a <= p && b <= p
    ensures a <= b || b <= a
  {
    assert a == p[..|a|] && b == p[..|b|];
  }

  lemma ShareConflicts(a: WorkItem, b: WorkItem, p: seq<string>)
    requires Writable(a, p) && Writable(b, p)
    ensures Conflicts(a, b)
  {
    var aFiles := set f | f in a.files :: Canonical(f);
    var bFiles := set f | f in b.files :: Canonical(f);
    if x :| x in a.files && Components(x) == p {
      if y :| y in b.files && Components(y) == p {
        CanonicalInjective(x, y);
        assert Canonical(x) in aFiles * bFiles;
      } else {
        var y :| y in b.writeRoots && Components(y) <= p;
        ContainsIsTree(y, x);
        assert Canonical(x) in aFiles;
      }
    } else {
      var x :| x in a.writeRoots && Components(x) <= p;
      if y :| y in b.files && Components(y) == p {
        ContainsIsTree(x, y);
        assert Canonical(y) in bFiles;
      } else {
        var y :| y in b.writeRoots && Components(y) <= p;
        PrefixesComparable(Components(x), Components(y), p);
        ContainsIsTree(x, y);
        ContainsIsTree(y, x);
      }
    }
  }

  /** Two items conflict exactly when some path is writable by both. */
  lemma ConflictsIffShare(a: WorkItem, b: WorkItem)
    ensures Conflicts(a, b) <==> SharePath(a, b)
  {
    if Conflicts(a, b) {
      ConflictsShare(a, b);
    }
    if SharePath(a, b) {
      var p :| Writable(a, p) && Writable(b, p);
      ShareConflicts(a, b, p);
    }
  }

  lemma ConflictsSymmetric(a: WorkItem, b: WorkItem)
    ensures Conflicts(a, b) <==> Conflicts(b, a)
  {
    ConflictsIffShare(a, b);
    ConflictsIffShare(b, a);
    assert SharePath(a, b) <==> SharePath(b, a);
  }

  // ---- The sorted queue ----

  /** Order by priority, then estimated cost, then task id. */
  predicate Before(a: WorkItem, b: WorkItem) {
    a.priority < b.priority
    || (a.priority == b.priority && (a.cost < b.cost || (a.cost == b.cost && StrLe(a.taskId, b.taskId))))
  }

  lemma BeforeOrders()
    ensures Total(Before) && Transitive(Before)
  {
    forall a, b ensures Before(a, b) || Before(b, a) {
      StrTotal(a.taskId, b.taskId);
    }
    forall a, b, c | Before(a, b) && Before(b, c) ensures Before(a, c) {
      if StrLe(a.taskId, b.taskId) && StrLe(b.taskId, c.taskId) {
        StrTransitive(a.taskId, b.taskId, c.taskId);
      }
    }
  }

  /** The queue the batches are cut from holds the given items in priority order. */
  lemma QueueSorted(items: seq<WorkItem>)
    ensures SortedBy(Before, Sort(Before, items))
    ensures multiset(Sort(Before, items)) == multiset(items)
  {
    BeforeOrders();
    SortSorts(Before, items);
  }

  /** The items with the priority, cost and task id of `x`, in their order. */
  function Peers(x: WorkItem, items: seq<WorkItem>): seq<WorkItem> {
    if items == [] then []
    else
      var y := items[0];
      (if y.priority == x.priority && y.cost == x.cost && y.taskId == x.taskId then [y] else []) + Peers(x, items[1..])
  }

  lemma {:induction false} PeersTie(x: WorkItem, items: seq<WorkItem>)
    ensures Peers(x, items) == Ties(Before, x, items)
  {
    if items != [] {
      PeersTie(x, items[1..]);
      var y := items[0];
      if StrLe(x.taskId, y.taskId) && StrLe(y.taskId, x.taskId) {
        StrAntisymmetric(x.taskId, y.taskId);
      }
      StrTotal(x.taskId, x.taskId);
    }
  }

  /** The queue keeps items that agree in priority, cost and task id in the order they were given. */
  lemma QueueStable(items: seq<WorkItem>, x: WorkItem)
    ensures Peers(x, Sort(Before, items)) == Peers(x, items)
  {
    hide Sort, Before, Ties;
    BeforeOrders();
    SortStable(Before, x, items);
    PeersTie(x, items);
    PeersTie(x, Sort(Before, items));
  }

  // ---- Batches of items ----

  /** The conflict relation between the positions of a queue. */
  function Adjacent(q: seq<WorkItem>): Relation {
    (i: nat, j: nat) => i < |q| && j < |q| && Conflicts(q[i], q[j])
  }

  /** The greedy batches of the positions of the sorted queue. */
  function Plan(q: seq<WorkItem>, maxWorkers: int): seq<seq<nat>> {
    Batches(Adjacent(q), Positions(|q|), maxWorkers)
  }

  predicate Within(positions: seq<nat>, n: nat) {
    forall i :: 0 <= i < |positions| ==> positions[i] < n
  }

  /** The items standing at the given positions. */
  function At(q: seq<WorkItem>, positions: seq<nat>): seq<WorkItem>
    requires Within(positions, |q|)
  {
    seq(|positions|, i requires 0 <= i < |positions| => q[positions[i]])
  }

  lemma PositionsIncrease(n: nat)
    ensures Increasing(Positions(n)) && Within(Positions(n), n)
  {
  }

  lemma PlanInQueue(q: seq<WorkItem>, maxWorkers: int)
    ensures forall k :: 0 <= k < |Plan(q, maxWorkers)| ==> Within(Plan(q, maxWorkers)[k], |q|)
  {
    PositionsIncrease(|q|);
    forall k, i | 0 <= k < |Plan(q, maxWorkers)| && 0 <= i < |Plan(q, maxWorkers)[k]|
      ensures Plan(q, maxWorkers)[k][i] < |q|
    {
      BatchMember(Adjacent(q), Positions(|q|), maxWorkers, k, Plan(q, maxWorkers)[k][i]);
    }
  }

  /** For every number of workers, zero and negative ones included: the plan uses every position once; each batch
      is non-empty, at most max(1, maxWorkers) wide, in queue order and pairwise free of conflicts. */
  lemma PlanSound(q: seq<WorkItem>, maxWorkers: int)
    ensures var plan := Plan(q, maxWorkers);
            && multiset(Flatten(plan)) == multiset(Positions(|q|))
            && forall k :: 0 <= k < |plan| ==>
                 && 1 <= |plan[k]| <= (if maxWorkers >= 1 then maxWorkers else 1)
                 && Increasing(plan[k])
                 && (forall i, j :: 0 <= i < |plan[k]| && 0 <= j < |plan[k]| && i != j ==>
                      plan[k][i] < |q| && plan[k][j] < |q| && !Conflicts(q[plan[k][i]], q[plan[k][j]]))
  {
    PositionsIncrease(|q|);
    BatchesSound(Adjacent(q), Positions(|q|), maxWorkers);
    PlanInQueue(q, maxWorkers);
    var plan := Plan(q, maxWorkers);
    forall k, i, j | 0 <= k < |plan| && 0 <= i < |plan[k]| && 0 <= j < |plan[k]| && i != j
      ensures plan[k][i] < |q| && plan[k][j] < |q| && !Conflicts(q[plan[k][i]], q[plan[k][j]])
    {
      var x, y := plan[k][i], plan[k][j];
      assert x in plan[k] && y in plan[k];
      assert Independent(Adjacent(q), plan[k]);
      ConflictsSymmetric(q[x], q[y]);
      if i < j {
        assert !Adjacent(q)(y, x);
      } else {
        assert !Adjacent(q)(x, y);
      }
    }
  }

  /** An item lands in a later batch than one behind it in the queue only because it conflicts with an item of
      that batch that stands before both. */
  lemma PriorityInversion(q: seq<WorkItem>, maxWorkers: int, i: nat, j: nat, x: nat, y: nat)
    requires i < j < |Plan(q, maxWorkers)|
    requires y in Plan(q, maxWorkers)[i] && x in Plan(q, maxWorkers)[j] && x < y
    ensures exists z :: z in Plan(q, maxWorkers)[i] && z < x < |q| && Conflicts(q[x], q[z])
  {
    PositionsIncrease(|q|);
    InversionOnlyByConflict(Adjacent(q), Positions(|q|), maxWorkers, i, j, x, y);
    var z :| z in Plan(q, maxWorkers)[i] && z < x && Adjacent(q)(x, z);
  }

  /** The other positions an item conflicts with. */
  ghost function Neighbours(q: seq<WorkItem>, x: nat): set<nat>
    requires x < |q|
  {
    set z: nat | z < |q| && z != x && Conflicts(q[x], q[z])
  }

  /** With at least as many workers as items there are at most one more batches than the largest number of
      other items any item conflicts with. */
  lemma ColouringBound(q: seq<WorkItem>, maxWorkers: int, degree: nat)
    requires |q| <= maxWorkers
    requires forall x :: 0 <= x < |q| ==> |Neighbours(q, x)| <= degree
    ensures |Plan(q, maxWorkers)| <= 1 + degree
  {
    var rest, plan := Positions(|q|), Plan(q, maxWorkers);
    PositionsIncrease(|q|);
    BatchesSound(Adjacent(q), rest, maxWorkers);
    if plan != [] {
      var k := |plan| - 1;
      var x := plan[k][0];
      BatchMember(Adjacent(q), rest, maxWorkers, k, x);
      var zs := BlockerPerBatch(Adjacent(q), rest, maxWorkers, k, x);
      assert zs <= Neighbours(q, x) by {
        forall z | z in zs ensures z in Neighbours(q, x) {
          assert Adjacent(q)(x, z);
        }
      }
      SubsetSize(zs, Neighbours(q, x));
    }
  }

  lemma AtAppend(q: seq<WorkItem>, s: seq<nat>, x: nat)
    requires Within(s, |q|) && x < |q|
    ensures Within(s + [x], |q|) && At(q, s + [x]) == At(q, s) + [q[x]]
  {
  }

  /** Where the next position goes. */
  lemma PassStep(adj: Relation, todo: seq<nat>, width: int, b: seq<nat>)
    ensures todo == [] ==> Admitted(adj, todo, width, b) == b && Deferred(adj, todo, width, b) == []
    ensures todo != [] ==>
            if |b| >= width || Clashes(adj, todo[0], b)
            then && Admitted(adj, todo, width, b) == Admitted(adj, todo[1..], width, b)
                 && Deferred(adj, todo, width, b) == [todo[0]] + Deferred(adj, todo[1..], width, b)
            else && Admitted(adj, todo, width, b) == Admitted(adj, todo[1..], width, b + [todo[0]])
                 && Deferred(adj, todo, width, b) == Deferred(adj, todo[1..], width, b + [todo[0]])
  {
  }

  /** One pass over the remaining items, as the inner loop runs it. */
  method Pass(q: seq<WorkItem>, remaining: seq<WorkItem>, ghost rest: seq<nat>, maxWorkers: int)
      returns (batch: seq<WorkItem>, deferred: seq<WorkItem>)
    requires Within(rest, |q|) && remaining == At(q, rest)
    ensures Within(Admitted(Adjacent(q), rest, maxWorkers, []), |q|)
    ensures Within(Deferred(Adjacent(q), rest, maxWorkers, []), |q|)
    ensures batch == At(q, Admitted(Adjacent(q), rest, maxWorkers, []))
    ensures deferred == At(q, Deferred(Adjacent(q), rest, maxWorkers, []))
  {
    hide Conflicts, Clashes, Admitted, Deferred;
    batch, deferred := [], [];
    ghost var adj, todo := Adjacent(q), rest;
    ghost var b: seq<nat>, d: seq<nat> := [], [];
    ghost var a, l := Admitted(adj, rest, maxWorkers, []), Deferred(adj, rest, maxWorkers, []);
    for i := 0 to |remaining|
      invariant Within(todo, |q|) && remaining[i..] == At(q, todo)
      invariant Within(b, |q|) && Within(d, |q|)
      invariant batch == At(q, b) && deferred == At(q, d)
      invariant a == Admitted(adj, todo, maxWorkers, b) && l == d + Deferred(adj, todo, maxWorkers, b)
    {
      var item := remaining[i];
      assert item == remaining[i..][0] == q[todo[0]];
      PassStep(adj, todo, maxWorkers, b);
      var clash := AnyConflict(q, item, batch, todo[0], b);
      if |batch| >= maxWorkers || clash {
        AtAppend(q, d, todo[0]);
        deferred := deferred + [item];
        d := d + [todo[0]];
      } else {
        AtAppend(q, b, todo[0]);
        batch := batch + [item];
        b := b + [todo[0]];
      }
      assert remaining[i + 1..] == remaining[i..][1..];
      todo := todo[1..];
    }
    assert todo == [];
    PassStep(adj, todo, maxWorkers, b);
  }

  /** Whether the item conflicts with a member of the batch. */
  method AnyConflict(q: seq<WorkItem>, item: WorkItem, batch: seq<WorkItem>, ghost x: nat, ghost b: seq<nat>)
      returns (clash: bool)
    requires x < |q| && item == q[x]
    requires Within(b, |q|) && batch == At(q, b)
    ensures clash <==> Clashes(Adjacent(q), x, b)
  {
    clash := false;
    for k := 0 to |batch|
      invariant clash <==> exists j :: 0 <= j < k && Conflicts(item, batch[j])
    {
      if Conflicts(item, batch[k]) {
        clash := true;
      }
    }
    if clash {
      var j :| 0 <= j < |batch| && Conflicts(item, batch[j]);
      assert b[j] in b && Adjacent(q)(x, b[j]);
    }
    if Clashes(Adjacent(q), x, b) {
      var z :| z in b && Adjacent(q)(x, z);
      var j :| 0 <= j < |b| && b[j] == z;
      assert Conflicts(item, batch[j]);
    }
  }

  /** Each batch holds the items at the planned positions. */
  ghost predicate Holds(q: seq<WorkItem>, plan: seq<seq<nat>>, batches: seq<seq<WorkItem>>) {
    && |batches| == |plan|
    && forall k :: 0 <= k < |plan| ==> Within(plan[k], |q|) && batches[k] == At(q, plan[k])
  }

  function Dropped<T>(t: seq<T>, j: nat): seq<T>
    requires j < |t|
  {
    t[..j] + t[j + 1..]
  }

  lemma DroppedCounts<T>(t: seq<T>, j: nat)
    requires j < |t|
    ensures multiset(t) == multiset(Dropped(t, j)) + multiset{t[j]}
    ensures multiset(Dropped(t, j)) == multiset(t) - multiset{t[j]}
  {
    assert t == t[..j] + [t[j]] + t[j + 1..];
  }

  lemma AtDropped(q: seq<WorkItem>, t: seq<nat>, j: nat)
    requires Within(t, |q|) && j < |t|
    ensures Within(Dropped(t, j), |q|) && At(q, Dropped(t, j)) == Dropped(At(q, t), j)
  {
  }

  lemma {:induction false} AtPermutes(q: seq<WorkItem>, s: seq<nat>, t: seq<nat>)
    requires Within(s, |q|) && Within(t, |q|) && multiset(s) == multiset(t)
    ensures multiset(At(q, s)) == multiset(At(q, t))
    decreases |s|
  {
    if s == [] {
      assert |multiset(t)| == |multiset(s)| == 0;
    } else {
      hide At, Dropped;
      assert s[0] in multiset(s);
      var j :| 0 <= j < |t| && t[j] == s[0];
      DroppedCounts(s, 0);
      DroppedCounts(t, j);
      AtDropped(q, s, 0);
      AtDropped(q, t, j);
      assert |Dropped(s, 0)| < |s| by { DroppedShorter(s, 0); }
      AtPermutes(q, Dropped(s, 0), Dropped(t, j));
      AtIndex(q, s, 0);
      AtIndex(q, t, j);
      DroppedCounts(At(q, s), 0);
      DroppedCounts(At(q, t), j);
    }
  }

  lemma DroppedShorter<T>(t: seq<T>, j: nat)
    requires j < |t|
    ensures |Dropped(t, j)| == |t| - 1
  {
  }

  lemma AtIndex(q: seq<WorkItem>, t: seq<nat>, j: nat)
    requires Within(t, |q|) && j < |t|
    ensures |At(q, t)| == |t| && At(q, t)[j] == q[t[j]]
  {
  }

  lemma AtConcat(q: seq<WorkItem>, s: seq<nat>, t: seq<nat>)
    requires Within(s, |q|) && Within(t, |q|)
    ensures Within(s + t, |q|) && At(q, s + t) == At(q, s) + At(q, t)
  {
  }

  lemma {:induction false} FlattenAt(q: seq<WorkItem>, plan: seq<seq<nat>>, batches: seq<seq<WorkItem>>)
    requires Holds(q, plan, batches)
    ensures Within(Flatten(plan), |q|) && Flatten(batches) == At(q, Flatten(plan))
  {
    hide Within, At;
    if plan == [] {
      AtNothing(q);
    } else {
      FlattenAt(q, plan[1..], batches[1..]);
      AtConcat(q, plan[0], Flatten(plan[1..]));
    }
  }

  lemma AtNothing(q: seq<WorkItem>)
    ensures Within([], |q|) && At(q, []) == []
  {
  }

  lemma AtPositions(q: seq<WorkItem>)
    ensures Within(Positions(|q|), |q|) && At(q, Positions(|q|)) == q
  {
    PositionsIncrease(|q|);
  }

  lemma BatchOrdered(q: seq<WorkItem>, positions: seq<nat>)
    requires SortedBy(Before, q) && Within(positions, |q|) && Increasing(positions)
    ensures SortedBy(Before, At(q, positions))
  {
    hide Before;
  }

  /** The batches hold the given items, each once; each batch is non-empty, at most max(1, maxWorkers) wide, in
      order and pairwise free of conflicts. */
  lemma BatchesOfItems(items: seq<WorkItem>, maxWorkers: int, batches: seq<seq<WorkItem>>)
    requires Holds(Sort(Before, items), Plan(Sort(Before, items), maxWorkers), batches)
    ensures multiset(Flatten(batches)) == multiset(items)
    ensures forall k :: 0 <= k < |batches| ==>
              && 1 <= |batches[k]| <= (if maxWorkers >= 1 then maxWorkers else 1)
              && SortedBy(Before, batches[k])
              && forall i, j :: 0 <= i < |batches[k]| && 0 <= j < |batches[k]| && i != j ==>
                   !Conflicts(batches[k][i], batches[k][j])
  {
    hide Conflicts, Before, Plan, Positions, Sort;
    var q := Sort(Before, items);
    var plan := Plan(q, maxWorkers);
    QueueSorted(items);
    PlanSound(q, maxWorkers);
    FlattenAt(q, plan, batches);
    AtPositions(q);
    AtPermutes(q, Flatten(plan), Positions(|q|));
    forall k | 0 <= k < |batches|
      ensures SortedBy(Before, batches[k])
    {
      BatchOrdered(q, plan[k]);
    }
  }

  // ---- What a schedule is ----

  /** The queue holds the items by priority, then estimated cost, then task id; ties keep their order. */
  ghost predicate Queued(items: seq<WorkItem>, queue: seq<WorkItem>) {
    && multiset(queue) == multiset(items)
    && (forall i, j :: 0 <= i < j < |queue| ==>
          var a, b := queue[i], queue[j];
          || a.priority < b.priority
          || (a.priority == b.priority && a.cost < b.cost)
          || (a.priority == b.priority && a.cost == b.cost && StrLe(a.taskId, b.taskId)))
    && forall x: WorkItem :: Peers(x, queue) == Peers(x, items)
  }

  /** Every place in the queue is in one batch, and in each batch the items stand in the order of their places. */
  ghost predicate Placed(queue: seq<WorkItem>, places: seq<seq<nat>>, batches: seq<seq<WorkItem>>) {
    && |places| == |batches|
    && multiset(Flatten(places)) == multiset(seq(|queue|, i => i))
    && forall k :: 0 <= k < |places| ==>
         && |places[k]| == |batches[k]|
         && (forall i :: 0 <= i < |places[k]| ==> places[k][i] < |queue| && batches[k][i] == queue[places[k][i]])
         && (forall i, j :: 0 <= i < j < |places[k]| ==> places[k][i] < places[k][j])
  }

  /** The `i`th item of batch `m` could not join batch `k`: it conflicts with an item there that has an earlier place,
      or all workers of that batch are taken by items with earlier places. */
  ghost predicate KeptOut(queue: seq<WorkItem>, places: seq<seq<nat>>, maxWorkers: int, k: nat, m: nat, i: nat)
    requires k < m < |places| && i < |places[m]| && places[m][i] < |queue|
    requires forall j :: 0 <= j < |places[k]| ==> places[k][j] < |queue|
  {
    var x := places[m][i];
    || (exists j :: 0 <= j < |places[k]| && places[k][j] < x && Conflicts(queue[x], queue[places[k][j]]))
    || (|places[k]| == (if maxWorkers >= 1 then maxWorkers else 1) && forall j :: 0 <= j < |places[k]| ==> places[k][j] < x)
  }

  lemma QueuedByKeys(items: seq<WorkItem>)
    ensures Queued(items, Sort(Before, items))
  {
    hide Sort, Peers;
    QueueSorted(items);
    var q := Sort(Before, items);
    forall x: WorkItem ensures Peers(x, q) == Peers(x, items) {
      QueueStable(items, x);
    }
    forall i, j | 0 <= i < j < |q| ensures Before(q[i], q[j]) {
    }
  }

  lemma PlanPlaced(q: seq<WorkItem>, maxWorkers: int, batches: seq<seq<WorkItem>>)
    requires Holds(q, Plan(q, maxWorkers), batches)
    ensures Placed(q, Plan(q, maxWorkers), batches)
  {
    hide Conflicts, Plan;
    PlanSound(q, maxWorkers);
    assert Positions(|q|) == seq(|q|, i => i);
  }

  lemma PlanKeepsOut(q: seq<WorkItem>, maxWorkers: int, k: nat, m: nat, i: nat)
    requires k < m < |Plan(q, maxWorkers)| && i < |Plan(q, maxWorkers)[m]|
    ensures Plan(q, maxWorkers)[m][i] < |q| && forall j :: 0 <= j < |Plan(q, maxWorkers)[k]| ==> Plan(q, maxWorkers)[k][j] < |q|
    ensures KeptOut(q, Plan(q, maxWorkers), maxWorkers, k, m, i)
  {
    hide Conflicts, Batches, Blocked;
    PlanInQueue(q, maxWorkers);
    PositionsIncrease(|q|);
    PlanSound(q, maxWorkers);
    var plan := Plan(q, maxWorkers);
    var x := plan[m][i];
    LaterWhy(Adjacent(q), Positions(|q|), maxWorkers, k, m, x);
    if Blocked(Adjacent(q), x, plan[k]) {
      BlockedAt(Adjacent(q), x, plan[k]);
    }
  }

  lemma BlockedAt(adj: Relation, x: nat, batch: seq<nat>)
    requires Blocked(adj, x, batch)
    ensures exists j :: 0 <= j < |batch| && batch[j] < x && adj(x, batch[j])
  {
    var z :| z in batch && z < x && adj(x, z);
    var j :| 0 <= j < |batch| && batch[j] == z;
  }

  /** The batches of a schedule: there is a queue of the items in order of priority, cost and task id, every item of
      which stands in one batch; and an item stands in a later batch than another exactly for want of a place there:
      it conflicts with someone before it, or the workers are taken by items before it. */
  lemma ScheduleFills(items: seq<WorkItem>, maxWorkers: int, batches: seq<seq<WorkItem>>)
      returns (queue: seq<WorkItem>, places: seq<seq<nat>>)
    requires Holds(Sort(Before, items), Plan(Sort(Before, items), maxWorkers), batches)
    ensures Queued(items, queue) && Placed(queue, places, batches)
    ensures forall k, m, i :: 0 <= k < m < |places| && 0 <= i < |places[m]| ==>
              KeptOut(queue, places, maxWorkers, k, m, i)
  {
    hide Sort, Conflicts, Plan, Before, KeptOut;
    queue := Sort(Before, items);
    places := Plan(queue, maxWorkers);
    QueuedByKeys(items);
    PlanPlaced(queue, maxWorkers, batches);
    forall k: nat, m: nat, i: nat | 0 <= k < m < |places| && 0 <= i < |places[m]|
      ensures KeptOut(queue, places, maxWorkers, k, m, i)
    {
      PlanKeepsOut(queue, maxWorkers, k, m, i);
    }
  }

  /** One round of the outer loop: the batch, and what is left of the queue. */
  method Round(q: seq<WorkItem>, remaining: seq<WorkItem>, ghost rest: seq<nat>, maxWorkers: int)
      returns (batch: seq<WorkItem>, deferred: seq<WorkItem>)
    requires Within(rest, |q|) && remaining == At(q, rest) && rest != []
    ensures Within(Batch(Adjacent(q), rest, maxWorkers), |q|)
    ensures Within(Leftover(Adjacent(q), rest, maxWorkers), |q|)
    ensures batch == At(q, Batch(Adjacent(q), rest, maxWorkers))
    ensures deferred == At(q, Leftover(Adjacent(q), rest, maxWorkers))
  {
    hide Conflicts, Clashes;
    batch, deferred := Pass(q, remaining, rest, maxWorkers);
    if batch == [] {
      batch := [remaining[0]];
      deferred := remaining[1..];
    }
  }

  /** `smart_parallel_batches`: the items standing at the planned positions of the sorted queue. */
  method SmartParallelBatches(items: seq<WorkItem>, maxWorkers: int)
      returns (batches: seq<seq<WorkItem>>, ghost queue: seq<WorkItem>, ghost places: seq<seq<nat>>)
    ensures var q := Sort(Before, items); Holds(q, Plan(q, maxWorkers), batches)
    ensures multiset(Flatten(batches)) == multiset(items)
    ensures Queued(items, queue) && Placed(queue, places, batches)
    ensures forall k, m, i :: 0 <= k < m < |places| && 0 <= i < |places[m]| ==>
              KeptOut(queue, places, maxWorkers, k, m, i)
    ensures forall k :: 0 <= k < |batches| ==>
              && 1 <= |batches[k]| <= (if maxWorkers >= 1 then maxWorkers else 1)
              && forall i, j :: 0 <= i < |batches[k]| && 0 <= j < |batches[k]| && i != j ==>
                   !Conflicts(batches[k][i], batches[k][j])
  {
    hide Conflicts, Before, Batch, Leftover, Admitted, Queued, Placed, KeptOut;
    var q := Sort(Before, items);
    ghost var adj := Adjacent(q);
    var remaining := q;
    ghost var rest: seq<nat> := Positions(|q|);
    ghost var done: seq<seq<nat>> := [];
    batches := [];
    while remaining != []
      invariant Within(rest, |q|) && remaining == At(q, rest)
      invariant Plan(q, maxWorkers) == done + Batches(adj, rest, maxWorkers)
      invariant Holds(q, done, batches)
      decreases |remaining|
    {
      var batch, deferred := Round(q, remaining, rest, maxWorkers);
      ghost var b, d := Batch(adj, rest, maxWorkers), Leftover(adj, rest, maxWorkers);
      assert done + ([b] + Batches(adj, d, maxWorkers)) == (done + [b]) + Batches(adj, d, maxWorkers);
      batches := batches + [batch];
      done := done + [b];
      remaining := deferred;
      rest := d;
    }
    assert done == Plan(q, maxWorkers);
    BatchesOfItems(items, maxWorkers, batches);
    queue, places := ScheduleFills(items, maxWorkers, batches);
  }
}
