/** Evidence for files, and the bounded search along imports that gathers it (scope.js). */
module ImportClosure {
  import opened Common
  import opened NodePaths
  import opened Ordering
  import opened Selection

  /** Why a file is in scope. */
  datatype Reason =
    | ConfiguredSeed
    | RegressionSeed
    | RepairDiff
    | Grep(term: string)
    | ImportedBy(file: string)
    | References(stem: string)

  /** The files of a commit, and the import specifiers found in each; none when the file cannot be read. */
  datatype Repo = Repo(inventory: set<string>, imports: string -> seq<string>)

  predicate StartsWith(s: string, prefix: string) {
    |s| >= |prefix| && s[..|prefix|] == prefix
  }

  predicate EndsWith(s: string, suffix: string) {
    |s| >= |suffix| && s[|s| - |suffix|..] == suffix
  }

  predicate InTree(f: string) {
    StartsWith(f, "src/") || StartsWith(f, "tests/")
  }

  // ---- Import steps ----

  ghost predicate Imports(repo: Repo, f: string, g: string) {
    exists k :: 0 <= k < |repo.imports(f)| && ResolveImport(f, repo.imports(f)[k], repo.inventory) == Some(g)
  }

  ghost function Targets(repo: Repo, from: set<string>): set<string> {
    set g | g in repo.inventory && exists f :: f in from && Imports(repo, f, g)
  }

  /** The files within `n` import steps of the seeds. */
  ghost function Reach(repo: Repo, seeds: set<string>, n: nat): set<string> {
    if n == 0 then seeds
    else
      var near := Reach(repo, seeds, n - 1);
      near + Targets(repo, near)
  }

  /** The files whose imports are followed by `n` rounds. */
  ghost function Expanded(repo: Repo, seeds: set<string>, n: int): set<string> {
    if n <= 0 then {} else Reach(repo, seeds, n - 1)
  }

  lemma {:induction false} ReachGrows(repo: Repo, seeds: set<string>, m: nat, n: nat)
    requires m <= n
    ensures Reach(repo, seeds, m) <= Reach(repo, seeds, n)
  {
    hide Targets;
    if m < n {
      ReachGrows(repo, seeds, m, n - 1);
    }
  }

  /** Once a round adds nothing, no later one does. */
  lemma {:induction false} ReachStops(repo: Repo, seeds: set<string>, m: nat, n: nat)
    requires m <= n && Targets(repo, Reach(repo, seeds, m)) <= Reach(repo, seeds, m)
    ensures Reach(repo, seeds, n) == Reach(repo, seeds, m)
  {
    hide Targets;
    if m < n {
      ReachStops(repo, seeds, m, n - 1);
    }
  }

  /** Some round within the depth adds nothing. */
  ghost predicate Stops(repo: Repo, seeds: set<string>, depth: int) {
    exists d: nat :: 0 < d <= depth && Reach(repo, seeds, d) == Reach(repo, seeds, d - 1)
  }

  /** Every file that can be reached, over any number of imports, has its own imports followed. */
  ghost predicate FollowsAll(repo: Repo, seeds: set<string>, depth: int) {
    forall n: nat :: Reach(repo, seeds, n) <= Expanded(repo, seeds, depth)
  }

  lemma StopsNever(repo: Repo, seeds: set<string>, depth: int)
    ensures depth <= 0 ==> !Stops(repo, seeds, depth)
    ensures !Stops(repo, seeds, 0)
  {
  }

  lemma StopsNext(repo: Repo, seeds: set<string>, d: nat)
    ensures Stops(repo, seeds, d + 1) <==> Stops(repo, seeds, d) || Reach(repo, seeds, d + 1) == Reach(repo, seeds, d)
  {
    hide Reach;
    if Reach(repo, seeds, d + 1) == Reach(repo, seeds, d) {
      var e: nat := d + 1;
      assert Reach(repo, seeds, e) == Reach(repo, seeds, e - 1);
    }
  }

  lemma StopsLater(repo: Repo, seeds: set<string>, d: nat, depth: nat)
    requires d <= depth && Stops(repo, seeds, d)
    ensures Stops(repo, seeds, depth)
  {
    hide Reach;
  }

  /** The search stops early exactly when it follows the imports of everything that can be reached. */
  lemma StopsIffFollowsAll(repo: Repo, seeds: set<string>, depth: int)
    ensures Stops(repo, seeds, depth) <==> depth > 0 && FollowsAll(repo, seeds, depth)
  {
    hide Reach, Targets;
    if Stops(repo, seeds, depth) {
      var d: nat :| 0 < d <= depth && Reach(repo, seeds, d) == Reach(repo, seeds, d - 1);
      forall n: nat ensures Reach(repo, seeds, n) <= Expanded(repo, seeds, depth) {
        Unchanging(repo, seeds, d - 1);
        if n < d {
          ReachGrows(repo, seeds, n, depth - 1);
        } else {
          ReachStops(repo, seeds, d - 1, n);
          ReachGrows(repo, seeds, d - 1, depth - 1);
        }
      }
    }
    if depth > 0 && FollowsAll(repo, seeds, depth) {
      var e: nat := depth;
      assert Reach(repo, seeds, e) <= Expanded(repo, seeds, depth);
      ReachGrows(repo, seeds, e - 1, e);
      assert Reach(repo, seeds, e) == Reach(repo, seeds, e - 1);
    }
  }

  lemma Unchanging(repo: Repo, seeds: set<string>, d: nat)
    requires Reach(repo, seeds, d + 1) == Reach(repo, seeds, d)
    ensures Targets(repo, Reach(repo, seeds, d)) <= Reach(repo, seeds, d)
  {
    hide Targets;
  }

  /** A walk along imports. */
  ghost predicate IsWalk(repo: Repo, p: seq<string>) {
    p != [] && forall i :: 0 < i < |p| ==> Imports(repo, p[i - 1], p[i])
  }

  lemma TargetStep(repo: Repo, from: set<string>, f: string, g: string)
    requires f in from && Imports(repo, f, g)
    ensures g in Targets(repo, from)
  {
    hide ResolveImport;
  }

  lemma TargetSource(repo: Repo, from: set<string>, g: string) returns (f: string)
    requires g in Targets(repo, from)
    ensures f in from && Imports(repo, f, g)
  {
    hide Imports;
    f :| f in from && Imports(repo, f, g);
  }

  lemma {:induction false} WalkReaches(repo: Repo, seeds: set<string>, n: nat, p: seq<string>)
    requires IsWalk(repo, p) && p[0] in seeds && |p| <= n + 1
    ensures p[|p| - 1] in Reach(repo, seeds, n)
    decreases |p|
  {
    hide Imports, Targets;
    if |p| == 1 {
      ReachGrows(repo, seeds, 0, n);
    } else {
      var m := |p| - 1;
      assert forall i :: 0 < i < m ==> Imports(repo, p[..m][i - 1], p[..m][i]);
      WalkReaches(repo, seeds, n - 1, p[..m]);
      TargetStep(repo, Reach(repo, seeds, n - 1), p[m - 1], p[m]);
    }
  }

  lemma {:induction false} ReachedByWalk(repo: Repo, seeds: set<string>, n: nat, g: string) returns (p: seq<string>)
    requires g in Reach(repo, seeds, n)
    ensures IsWalk(repo, p) && p[0] in seeds && |p| <= n + 1 && p[|p| - 1] == g
  {
    hide Imports, Targets;
    if n == 0 {
      p := [g];
    } else if g in Reach(repo, seeds, n - 1) {
      p := ReachedByWalk(repo, seeds, n - 1, g);
    } else {
      var f := TargetSource(repo, Reach(repo, seeds, n - 1), g);
      var q := ReachedByWalk(repo, seeds, n - 1, f);
      p := q + [g];
    }
  }

  /** What is reached are the ends of walks along at most `n` imports that start in a seed. */
  lemma ReachIffWalk(repo: Repo, seeds: set<string>, n: nat, g: string)
    ensures g in Reach(repo, seeds, n)
            <==> exists p :: IsWalk(repo, p) && p[0] in seeds && |p| <= n + 1 && p[|p| - 1] == g
  {
    hide Imports, Targets;
    if g in Reach(repo, seeds, n) {
      var p := ReachedByWalk(repo, seeds, n, g);
    }
    if exists p :: IsWalk(repo, p) && p[0] in seeds && |p| <= n + 1 && p[|p| - 1] == g {
      var p :| IsWalk(repo, p) && p[0] in seeds && |p| <= n + 1 && p[|p| - 1] == g;
      WalkReaches(repo, seeds, n, p);
    }
  }

  ghost function Elements(s: seq<string>): set<string> {
    set x | x in s
  }

  lemma TargetsUnion(repo: Repo, a: set<string>, b: set<string>)
    ensures Targets(repo, a + b) == Targets(repo, a) + Targets(repo, b)
  {
  }

  /** Following only the imports of the files that the last round added is enough. */
  lemma FrontierSuffices(repo: Repo, seeds: set<string>, n: nat, frontier: set<string>)
    requires Reach(repo, seeds, n) == Expanded(repo, seeds, n) + frontier
    ensures Reach(repo, seeds, n + 1) == Reach(repo, seeds, n) + Targets(repo, frontier)
  {
    TargetsUnion(repo, Expanded(repo, seeds, n), frontier);
    if n > 0 {
      assert Targets(repo, Reach(repo, seeds, n - 1)) <= Reach(repo, seeds, n);
    } else {
      assert Targets(repo, {}) == {};
    }
  }

  // ---- One file's imports, read one after the other ----

  ghost function FirstTargets(repo: Repo, f: string, n: nat): set<string> {
    set g | g in repo.inventory
            && exists k :: 0 <= k < n && k < |repo.imports(f)|
                           && ResolveImport(f, repo.imports(f)[k], repo.inventory) == Some(g)
  }

  lemma NoTargets(repo: Repo, f: string)
    ensures FirstTargets(repo, f, 0) == {}
  {
  }

  lemma NextTarget(repo: Repo, f: string, n: nat)
    requires n < |repo.imports(f)|
    ensures var dep := ResolveImport(f, repo.imports(f)[n], repo.inventory);
            FirstTargets(repo, f, n + 1) == FirstTargets(repo, f, n) + (if dep.Some? then {dep.value} else {})
  {
    hide FirstIn;
  }

  lemma AllTargets(repo: Repo, f: string)
    ensures FirstTargets(repo, f, |repo.imports(f)|) == Targets(repo, {f})
  {
    hide ResolveImport;
    forall g ensures g in FirstTargets(repo, f, |repo.imports(f)|) <==> g in Targets(repo, {f}) {
      if Imports(repo, f, g) {
        TargetStep(repo, {f}, f, g);
      }
    }
  }

  /** What importing adds: a reason for every imported file under src/ or tests/. */
  ghost function Marks(f: string, found: set<string>): set<(string, Reason)> {
    set g | g in found && InTree(g) :: (g, ImportedBy(f))
  }

  ghost function Edges(repo: Repo, from: set<string>): set<(string, Reason)> {
    set f, g | f in from && g in Targets(repo, {f}) && InTree(g) :: (g, ImportedBy(f))
  }

  lemma EdgesOfOne(repo: Repo, f: string)
    ensures Edges(repo, {f}) == Marks(f, Targets(repo, {f}))
  {
    hide Targets, InTree;
  }

  lemma EdgesUnion(repo: Repo, a: set<string>, b: set<string>)
    ensures Edges(repo, a + b) == Edges(repo, a) + Edges(repo, b)
  {
    hide Targets, InTree;
  }

  lemma MarksNext(f: string, found: set<string>, g: string)
    ensures Marks(f, found + {g}) == Marks(f, found) + (if InTree(g) then {(g, ImportedBy(f))} else {})
  {
    hide InTree;
  }

  lemma ElementsNext(s: seq<string>, i: nat)
    requires i < |s|
    ensures Elements(s[..i + 1]) == Elements(s[..i]) + {s[i]}
  {
    assert s[..i + 1] == s[..i] + [s[i]];
  }

  lemma ElementsAppend(s: seq<string>, x: string)
    ensures Elements(s + [x]) == Elements(s) + {x}
  {
  }

  ghost function Facts(reasons: map<string, seq<Reason>>): set<(string, Reason)> {
    set f, i | f in reasons && 0 <= i < |reasons[f]| :: (f, reasons[f][i])
  }

  lemma FactsAdd(reasons: map<string, seq<Reason>>, f: string, r: Reason)
    ensures Facts(reasons[f := (if f in reasons then reasons[f] else []) + [r]]) == Facts(reasons) + {(f, r)}
  {
    var old' := if f in reasons then reasons[f] else [];
    var next := reasons[f := old' + [r]];
    forall g, s ensures (g, s) in Facts(next) <==> (g, s) in Facts(reasons) + {(f, r)} {
      if (g, s) in Facts(reasons) {
        var i :| g in reasons && 0 <= i < |reasons[g]| && reasons[g][i] == s;
        assert next[g][i] == s;
      }
      if g == f && s == r {
        assert next[f][|old'|] == r;
      }
    }
  }

  lemma FactKnown(reasons: map<string, seq<Reason>>, f: string, r: Reason)
    requires f in reasons && r in reasons[f]
    ensures (f, r) in Facts(reasons)
  {
    var i :| 0 <= i < |reasons[f]| && reasons[f][i] == r;
    assert (f, reasons[f][i]) == (f, r);
  }

  /** One reason for every one of the files that can be recorded. */
  ghost function Listed(repo: Repo, fs: set<string>, r: Reason): set<(string, Reason)> {
    set f | f in fs && f in repo.inventory && InTree(f) :: (f, r)
  }

  lemma ListedNext(repo: Repo, fs: set<string>, f: string, r: Reason)
    ensures Listed(repo, fs + {f}, r)
            == Listed(repo, fs, r) + (if f in repo.inventory && InTree(f) then {(f, r)} else {})
  {
    hide InTree;
  }

  lemma ListedNone(repo: Repo, r: Reason)
    ensures Listed(repo, Elements([]), r) == {}
  {
    hide InTree;
  }

  lemma MarksNone(f: string)
    ensures Marks(f, {}) == {}
  {
  }

  lemma NothingFrom(repo: Repo)
    ensures Elements([]) == {} && Targets(repo, {}) == {} && Edges(repo, {}) == {}
  {
  }

  lemma ElementsFirst(s: seq<string>)
    requires s != []
    ensures s[0] in Elements(s)
  {
  }

  lemma ElementsMeans(s: seq<string>)
    ensures Elements(s) == set x | x in s
  {
  }

  lemma ReachStart(repo: Repo, seeds: set<string>)
    ensures Reach(repo, seeds, 0) == seeds
  {
  }

  /** When a round finds nothing new, everything reachable was found. */
  lemma ReachDone(repo: Repo, seeds: set<string>, d: nat, depth: nat)
    requires 0 < d <= depth && Reach(repo, seeds, d) == Reach(repo, seeds, d - 1)
    ensures Reach(repo, seeds, d) == Reach(repo, seeds, depth)
    ensures Expanded(repo, seeds, d) == Expanded(repo, seeds, depth)
    ensures forall n: nat :: Reach(repo, seeds, n) <= Reach(repo, seeds, d)
  {
    hide Targets;
    forall n: nat ensures Reach(repo, seeds, n) <= Reach(repo, seeds, d) {
      if n < d {
        ReachGrows(repo, seeds, n, d);
      } else {
        ReachStops(repo, seeds, d - 1, n);
      }
    }
    ReachStops(repo, seeds, d - 1, depth);
    ReachStops(repo, seeds, d - 1, depth - 1);
  }

  /** The files with evidence, each of the inventory and under src/ or tests/, and their reasons. */
  ghost predicate Recorded(repo: Repo, files: seq<string>, reasons: map<string, seq<Reason>>) {
    && Distinct(files)
    && (forall f :: f in files <==> f in reasons)
    && (forall f :: f in reasons ==> f in repo.inventory && InTree(f) && reasons[f] != [] && Distinct(reasons[f]))
  }

  class Evidence {
    const repo: Repo
    /** The keys of `reasons`, in the order they were added. */
    var files: seq<string>
    var reasons: map<string, seq<Reason>>

    ghost predicate Valid()
      reads this
    {
      Recorded(repo, files, reasons)
    }

    constructor (repo: Repo)
      ensures Valid() && this.repo == repo && files == [] && Facts(reasons) == {}
    {
      this.repo := repo;
      files, reasons := [], map[];
    }

    /** Records a reason for a file of the inventory under src/ or tests/; ignores other files. */
    method Add(f: string, r: Reason)
      requires Valid()
      modifies this
      ensures Valid() && old(files) <= files
      ensures Facts(reasons) ==
              old(Facts(reasons)) + (if f in repo.inventory && InTree(f) then {(f, r)} else {})
    {
      hide InTree, Facts;
      if f !in repo.inventory || !InTree(f) {
        return;
      }
      if f !in reasons {
        FactsAdd(reasons, f, r);
        assert [] + [r] == [r];
        reasons := reasons[f := [r]];
        files := files + [f];
      } else if r !in reasons[f] {
        FactsAdd(reasons, f, r);
        reasons := reasons[f := reasons[f] + [r]];
      } else {
        FactKnown(reasons, f, r);
      }
    }

    /** Records one reason for each of the files. */
    method AddAll(fs: seq<string>, r: Reason)
      requires Valid()
      modifies this
      ensures Valid() && old(files) <= files
      ensures Facts(reasons) == old(Facts(reasons)) + Listed(repo, Elements(fs), r)
    {
      hide InTree, Facts, Recorded, Listed, Elements;
      assert fs[..0] == [];
      ListedNone(repo, r);
      for i := 0 to |fs|
        invariant Valid() && old(files) <= files
        invariant Facts(reasons) == old(Facts(reasons)) + Listed(repo, Elements(fs[..i]), r)
      {
        Add(fs[i], r);
        ElementsNext(fs, i);
        ListedNext(repo, Elements(fs[..i]), fs[i], r);
      }
      assert fs[..|fs|] == fs;
    }

    /** Follows the imports of one file. */
    method Expand(f: string, seen: set<string>, next: seq<string>) returns (seen': set<string>, next': seq<string>)
      requires Valid()
      modifies this
      ensures Valid() && old(files) <= files
      ensures seen' == seen + Targets(repo, {f})
      ensures Elements(next') == Elements(next) + (Targets(repo, {f}) - seen)
      ensures Facts(reasons) == old(Facts(reasons)) + Edges(repo, {f})
    {
      hide Targets, Edges, Marks, Facts, Recorded, Elements, FirstTargets, InTree, ResolveImport;
      seen', next' := seen, next;
      var specs := repo.imports(f);
      ghost var found := FirstTargets(repo, f, 0);
      NoTargets(repo, f);
      MarksNone(f);
      for i := 0 to |specs|
        invariant Valid() && old(files) <= files
        invariant found == FirstTargets(repo, f, i)
        invariant seen' == seen + found
        invariant Elements(next') == Elements(next) + (found - seen)
        invariant Facts(reasons) == old(Facts(reasons)) + Marks(f, found)
      {
        NextTarget(repo, f, i);
        var dep := ResolveImport(f, specs[i], repo.inventory);
        if dep.Some? {
          Add(dep.value, ImportedBy(f));
          MarksNext(f, found, dep.value);
          ElementsAppend(next', dep.value);
          if dep.value !in seen' {
            seen' := seen' + {dep.value};
            next' := next' + [dep.value];
          }
          found := found + {dep.value};
        }
      }
      AllTargets(repo, f);
      EdgesOfOne(repo, f);
    }

    /** Follows the imports of every file on the frontier. */
    method Round(frontier: seq<string>, seen: set<string>) returns (seen': set<string>, next: seq<string>)
      requires Valid()
      modifies this
      ensures Valid() && old(files) <= files
      ensures seen' == seen + Targets(repo, Elements(frontier))
      ensures Elements(next) == Targets(repo, Elements(frontier)) - seen
      ensures Facts(reasons) == old(Facts(reasons)) + Edges(repo, Elements(frontier))
    {
      hide Targets, Edges, Facts, Recorded, Elements;
      seen', next := seen, [];
      assert frontier[..0] == [];
      NothingFrom(repo);
      for i := 0 to |frontier|
        invariant Valid() && old(files) <= files
        invariant seen' == seen + Targets(repo, Elements(frontier[..i]))
        invariant Elements(next) == Targets(repo, Elements(frontier[..i])) - seen
        invariant Facts(reasons) == old(Facts(reasons)) + Edges(repo, Elements(frontier[..i]))
      {
        ElementsNext(frontier, i);
        TargetsUnion(repo, Elements(frontier[..i]), {frontier[i]});
        EdgesUnion(repo, Elements(frontier[..i]), {frontier[i]});
        seen', next := Expand(frontier[i], seen', next);
      }
      assert frontier[..|frontier|] == frontier;
    }

    /** The frontier loop. It visits exactly the files within `depth` import steps of the files that have a reason
        already, and follows the imports of exactly those within `depth - 1` steps. `complete` tells whether it
        stopped because there was nothing left to follow: that is when some round adds nothing, and, the other way
        round, when the imports of every file that can be reached were followed. */
    method Close(depth: int) returns (ghost seen: set<string>, ghost complete: bool)
      requires Valid()
      modifies this
      ensures Valid() && old(files) <= files
      ensures seen == Reach(repo, Elements(old(files)), if depth < 0 then 0 else depth)
      ensures complete <==> Stops(repo, Elements(old(files)), depth)
      ensures complete <==> depth > 0 && FollowsAll(repo, Elements(old(files)), depth)
      ensures complete ==> forall n: nat :: Reach(repo, Elements(old(files)), n) <= seen
      ensures Facts(reasons) == old(Facts(reasons)) + Edges(repo, Expanded(repo, Elements(old(files)), depth))
    {
      hide Targets, Edges, Facts, Recorded, Elements, Reach, Stops, FollowsAll;
      ghost var seeds := Elements(files);
      var frontier, visited, d := files, set f | f in files, 0;
      assert visited == seeds by { ElementsMeans(files); }
      NothingFrom(repo);
      ReachStart(repo, seeds);
      StopsNever(repo, seeds, depth);
      complete := false;
      while d < depth
        invariant 0 <= d && (depth >= 0 ==> d <= depth) && (depth < 0 ==> d == 0)
        invariant Valid() && old(files) <= files
        invariant visited == Reach(repo, seeds, d)
        invariant visited == Expanded(repo, seeds, d) + Elements(frontier)
        invariant !Stops(repo, seeds, d)
        invariant Facts(reasons) == old(Facts(reasons)) + Edges(repo, Expanded(repo, seeds, d))
      {
        FrontierSuffices(repo, seeds, d, Elements(frontier));
        EdgesUnion(repo, Expanded(repo, seeds, d), Elements(frontier));
        ghost var earlier := visited;
        visited, frontier := Round(frontier, visited);
        d := d + 1;
        if frontier == [] {
          NothingFrom(repo);
          assert visited == earlier + Elements(frontier) == earlier;
          StopsNext(repo, seeds, d - 1);
          StopsLater(repo, seeds, d, depth);
          ReachDone(repo, seeds, d, depth);
          complete := true;
          break;
        }
        ElementsFirst(frontier);
        assert frontier[0] in visited && frontier[0] !in earlier;
        StopsNext(repo, seeds, d - 1);
      }
      StopsIffFollowsAll(repo, seeds, depth);
      seen := visited;
    }
  }
}
