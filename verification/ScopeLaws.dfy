/** The evidence and the scores of a repair scope in plain terms (scope.js). */
module ScopeLaws {
  import opened Common
  import opened ImportClosure
  import opened Ordering
  import opened ScopeEvidence
  import opened ScopeFacts
  import opened ScopeBuilder
  import opened Selection

  // ---- Evidence ----

  /** A file of the commit under src/ or tests/. */
  ghost predicate InScope(repo: Repo, f: string) {
    f in repo.inventory && ((|f| >= 4 && f[..4] == "src/") || (|f| >= 6 && f[..6] == "tests/"))
  }

  /** The file is configured, one of the regression tests, changed by the pull request, or mentions a searched term. */
  ghost predicate IsSeedFile(cfg: Config, repo: Repo, git: Git, f: string) {
    && InScope(repo, f)
    && (f in cfg.seedPaths || f in REGRESSION || f in git.diff
        || exists i :: 0 <= i < |TERMS| && f in git.grep(TERMS[i]))
  }

  /** The imports of `g` are followed: fewer than `depth` imports lead to it from a seed. */
  ghost predicate Follows(cfg: Config, repo: Repo, git: Git, g: string) {
    var depth := if cfg.maxDependencyDepth == None || cfg.maxDependencyDepth == Some(0) then 4
                 else cfg.maxDependencyDepth.value;
    exists p :: IsWalk(repo, p) && IsSeedFile(cfg, repo, git, p[0]) && p[|p| - 1] == g && |p| <= depth
  }

  /** The file is a seed, or imported by a file whose imports are followed. */
  ghost predicate IsFound(cfg: Config, repo: Repo, git: Git, f: string) {
    IsSeedFile(cfg, repo, git, f) || (InScope(repo, f) && exists g :: Imports(repo, g, f) && Follows(cfg, repo, git, g))
  }

  /** Why a file of the commit under src/ or tests/ has this reason. */
  ghost predicate Warranted(cfg: Config, repo: Repo, git: Git, f: string, r: Reason) {
    match r
    case ConfiguredSeed => f in cfg.seedPaths
    case RegressionSeed => f in REGRESSION
    case RepairDiff => f in git.diff
    case Grep(term) => term in TERMS && f in git.grep(term)
    case ImportedBy(g) => Imports(repo, g, f) && Follows(cfg, repo, git, g)
    case References(stem) =>
      |stem| >= 5 && f in git.grep(stem) && exists g :: IsFound(cfg, repo, git, g) && Stem(g) == stem
  }

  lemma ListedMeans(repo: Repo, fs: set<string>, r: Reason, f: string, s: Reason)
    ensures (f, s) in Listed(repo, fs, r) <==> s == r && f in fs && InScope(repo, f)
  {
  }

  lemma {:induction false} GreppedMeans(repo: Repo, git: Git, n: nat, f: string, s: Reason)
    requires n <= |TERMS|
    ensures (f, s) in Grepped(repo, git, n)
            <==> InScope(repo, f) && s.Grep? && exists i :: 0 <= i < n && TERMS[i] == s.term && f in git.grep(s.term)
  {
    hide Listed, InScope;
    if n > 0 {
      GreppedMeans(repo, git, n - 1, f, s);
      ListedMeans(repo, Elements(git.grep(TERMS[n - 1])), Grep(TERMS[n - 1]), f, s);
    }
  }

  lemma SeededMeans(cfg: Config, repo: Repo, git: Git, f: string, s: Reason)
    ensures (f, s) in Seeded(cfg, repo, git)
            <==> InScope(repo, f) && !s.ImportedBy? && !s.References? && Warranted(cfg, repo, git, f, s)
  {
    hide Listed, InScope, Grepped, Follows, IsFound, Imports;
    GreppedMeans(repo, git, |TERMS|, f, s);
    ListedMeans(repo, Elements(cfg.seedPaths), ConfiguredSeed, f, s);
    ListedMeans(repo, Elements(REGRESSION), RegressionSeed, f, s);
    ListedMeans(repo, Elements(git.diff), RepairDiff, f, s);
  }

  lemma FilesMeans(facts: FactSet, f: string)
    ensures f in Files(facts) <==> exists r :: (f, r) in facts
  {
    if r :| (f, r) in facts {
      assert (f, r).0 == f;
    }
    if f in Files(facts) {
      var p :| p in facts && p.0 == f;
      assert (f, p.1) in facts;
    }
  }

  lemma SeedFiles(cfg: Config, repo: Repo, git: Git, f: string)
    ensures f in Files(Seeded(cfg, repo, git)) <==> IsSeedFile(cfg, repo, git, f)
  {
    hide Seeded, Files, InScope;
    FilesMeans(Seeded(cfg, repo, git), f);
    SeededMeans(cfg, repo, git, f, ConfiguredSeed);
    SeededMeans(cfg, repo, git, f, RegressionSeed);
    SeededMeans(cfg, repo, git, f, RepairDiff);
    if r :| (f, r) in Seeded(cfg, repo, git) {
      SeededMeans(cfg, repo, git, f, r);
    }
    if IsSeedFile(cfg, repo, git, f) {
      if i :| 0 <= i < |TERMS| && f in git.grep(TERMS[i]) {
        SeededMeans(cfg, repo, git, f, Grep(TERMS[i]));
      }
    }
  }

  lemma FollowsMeans(cfg: Config, repo: Repo, git: Git, g: string)
    ensures g in Expanded(repo, Files(Seeded(cfg, repo, git)), Limit(cfg.maxDependencyDepth, 4))
            <==> Follows(cfg, repo, git, g)
  {
    hide Seeded, Files, IsSeedFile, Imports, Targets, Reach;
    var seeds, depth := Files(Seeded(cfg, repo, git)), Limit(cfg.maxDependencyDepth, 4);
    if depth > 0 {
      ReachIffWalk(repo, seeds, depth - 1, g);
    }
    forall f ensures f in seeds <==> IsSeedFile(cfg, repo, git, f) {
      SeedFiles(cfg, repo, git, f);
    }
  }

  lemma TargetsOfOne(repo: Repo, g: string, f: string)
    ensures f in Targets(repo, {g}) <==> Imports(repo, g, f)
    ensures Imports(repo, g, f) ==> f in repo.inventory
  {
    hide Imports;
    if Imports(repo, g, f) {
      TargetStep(repo, {g}, g, f);
    }
    if f in Targets(repo, {g}) {
      var h := TargetSource(repo, {g}, f);
    }
  }

  lemma EdgesMeans(repo: Repo, from: set<string>, f: string, s: Reason)
    ensures (f, s) in Edges(repo, from) <==> InScope(repo, f) && s.ImportedBy? && s.file in from && Imports(repo, s.file, f)
  {
    hide Imports, Targets;
    if s.ImportedBy? {
      TargetsOfOne(repo, s.file, f);
      if (f, s) in Edges(repo, from) {
        var g, h :| g in from && h in Targets(repo, {g}) && InTree(h) && (h, ImportedBy(g)) == (f, s);
        assert InScope(repo, f);
      }
      if InScope(repo, f) && s.file in from && f in Targets(repo, {s.file}) {
        assert InTree(f) && (f, ImportedBy(s.file)) in Edges(repo, from);
      }
    }
  }

  lemma SearchedMeans(cfg: Config, repo: Repo, git: Git, f: string, s: Reason)
    ensures (f, s) in Searched(cfg, repo, git)
            <==> InScope(repo, f) && !s.References? && Warranted(cfg, repo, git, f, s)
  {
    hide Seeded, Edges, Follows, IsFound, Imports, InScope, Files;
    SeededMeans(cfg, repo, git, f, s);
    var from := Expanded(repo, Files(Seeded(cfg, repo, git)), Limit(cfg.maxDependencyDepth, 4));
    EdgesMeans(repo, from, f, s);
    if s.ImportedBy? {
      FollowsMeans(cfg, repo, git, s.file);
    }
  }

  lemma FoundFiles(cfg: Config, repo: Repo, git: Git, f: string)
    ensures f in Files(Searched(cfg, repo, git)) <==> IsFound(cfg, repo, git, f)
  {
    hide Seeded, Searched, Files, InScope, Follows, Imports;
    FilesMeans(Searched(cfg, repo, git), f);
    FilesMeans(Seeded(cfg, repo, git), f);
    SeedFiles(cfg, repo, git, f);
    if r :| (f, r) in Searched(cfg, repo, git) {
      SearchedMeans(cfg, repo, git, f, r);
      SeededMeans(cfg, repo, git, f, r);
    }
    if r :| (f, r) in Seeded(cfg, repo, git) {
      SearchedMeans(cfg, repo, git, f, r);
      SeededMeans(cfg, repo, git, f, r);
    }
    if InScope(repo, f) {
      if g :| Imports(repo, g, f) && Follows(cfg, repo, git, g) {
        SearchedMeans(cfg, repo, git, f, ImportedBy(g));
      }
    }
  }

  lemma MentionedMeans(repo: Repo, git: Git, fs: set<string>, f: string, s: Reason)
    ensures (f, s) in Mentioned(repo, git, fs)
            <==> InScope(repo, f) && s.References? && |s.stem| >= 5 && f in git.grep(s.stem)
                 && exists g :: g in fs && Stem(g) == s.stem
  {
    hide Listed, InScope, Stem;
    forall g | g in fs
      ensures (f, s) in Mentions(repo, git, g)
              <==> InScope(repo, f) && s == References(Stem(g)) && |Stem(g)| >= 5 && f in git.grep(Stem(g))
    {
      ListedMeans(repo, Elements(git.grep(Stem(g))), References(Stem(g)), f, s);
    }
    hide Mentions;
  }

  /** The evidence that is gathered: a file has a reason exactly when it is a file of the commit under src/ or tests/
      and the reason is warranted. */
  lemma GatheredExactly(cfg: Config, repo: Repo, git: Git, f: string, r: Reason)
    ensures (f, r) in Gathered(cfg, repo, git) <==> InScope(repo, f) && Warranted(cfg, repo, git, f, r)
  {
    hide Searched, Mentioned, Files, InScope, Follows, Imports, IsFound, Stem;
    SearchedMeans(cfg, repo, git, f, r);
    var found := Files(Searched(cfg, repo, git));
    MentionedMeans(repo, git, found, f, r);
    forall g ensures g in found <==> IsFound(cfg, repo, git, g) {
      FoundFiles(cfg, repo, git, g);
    }
  }

  // ---- Scores ----

  /** The kinds of evidence that count once for every reason. */
  datatype Kind = Transactions | Invitations | Conflicts | Imported | Referenced

  predicate OfKind(r: Reason, kind: Kind) {
    match kind
    case Transactions => r.Grep? && r.term in TRANSACTION_TERMS
    case Invitations => r.Grep? && r.term in INVITATION_TERMS
    case Conflicts => r.Grep? && r.term in CONFLICT_TERMS
    case Imported => r.ImportedBy?
    case Referenced => r.References?
  }

  ghost function Count(rs: set<Reason>, kind: Kind): nat {
    |set r | r in rs && OfKind(r, kind)|
  }

  lemma CountWithout(rs: set<Reason>, r: Reason, kind: Kind)
    requires r in rs
    ensures Count(rs, kind) == Count(rs - {r}, kind) + (if OfKind(r, kind) then 1 else 0)
  {
    var all, fewer := set x | x in rs && OfKind(x, kind), set x | x in rs - {r} && OfKind(x, kind);
    if OfKind(r, kind) {
      assert all == fewer + {r};
    } else {
      assert all == fewer;
    }
  }

  /** What the evidence for writing a file is worth: changed by the pull request, regression test, configured; then the
      searched terms in three classes; then each import and each mention. */
  lemma {:induction false} WeightByKind(rs: set<Reason>)
    ensures SetWeight(rs)
            == (if RepairDiff in rs then 250 else 0) + (if RegressionSeed in rs then 240 else 0)
               + (if ConfiguredSeed in rs then 200 else 0)
               + 180 * Count(rs, Transactions) + 140 * Count(rs, Invitations) + 100 * Count(rs, Conflicts)
               + 70 * Count(rs, Imported) + 50 * Count(rs, Referenced)
  {
    hide Count, OfKind;
    if rs == {} {
      NothingCounted();
    } else {
      var r :| r in rs && SetWeight(rs) == Weight(r) + SetWeight(rs - {r});
      hide SetWeight;
      WeightByKind(rs - {r});
      CountWithout(rs, r, Transactions);
      CountWithout(rs, r, Invitations);
      CountWithout(rs, r, Conflicts);
      CountWithout(rs, r, Imported);
      CountWithout(rs, r, Referenced);
      WeightOfOne(r);
    }
  }

  lemma NothingCounted()
    ensures forall kind :: Count({}, kind) == 0
  {
    forall kind ensures Count({}, kind) == 0 {
      assert (set r: Reason | r in {} && OfKind(r, kind)) == {};
    }
  }

  function One(b: bool): nat {
    if b then 1 else 0
  }

  lemma WeightOfOne(r: Reason)
    ensures Weight(r) == (if r == RepairDiff then 250 else 0) + (if r == RegressionSeed then 240 else 0)
                         + (if r == ConfiguredSeed then 200 else 0)
                         + 180 * One(OfKind(r, Transactions)) + 140 * One(OfKind(r, Invitations))
                         + 100 * One(OfKind(r, Conflicts)) + 70 * One(OfKind(r, Imported)) + 50 * One(OfKind(r, Referenced))
  {
  }

  lemma SizeWithout(rs: set<Reason>, part: set<Reason>)
    requires part <= rs
    ensures |rs| == |part| + |rs - part|
  {
  }

  lemma SeedsSize(rs: set<Reason>)
    requires forall r :: r in rs ==> r in {RepairDiff, RegressionSeed, ConfiguredSeed}
    ensures |rs| == One(RepairDiff in rs) + One(RegressionSeed in rs) + One(ConfiguredSeed in rs)
  {
    SizeWithout(rs, rs * {RepairDiff});
    var rest := rs - rs * {RepairDiff};
    SizeWithout(rest, rest * {RegressionSeed});
    var last := rest - rest * {RegressionSeed};
    assert rs * {RepairDiff} == if RepairDiff in rs then {RepairDiff} else {};
    assert rest * {RegressionSeed} == if RegressionSeed in rs then {RegressionSeed} else {};
    assert last == if ConfiguredSeed in rs then {ConfiguredSeed} else {};
  }

  lemma SizeByKind(rs: set<Reason>)
    ensures |rs| == One(RepairDiff in rs) + One(RegressionSeed in rs) + One(ConfiguredSeed in rs)
                    + |set r | r in rs && r.Grep?| + |set r | r in rs && r.ImportedBy?| + |set r | r in rs && r.References?|
  {
    var greps, imports := set r | r in rs && r.Grep?, set r | r in rs && r.ImportedBy?;
    var mentions := set r | r in rs && r.References?;
    SizeWithout(rs, greps);
    SizeWithout(rs - greps, imports);
    SizeWithout(rs - greps - imports, mentions);
    SeedsSize(rs - greps - imports - mentions);
  }

  /** What the gathered evidence for reading a file is worth: 6 when the pull request changes it, 21 for a regression
      test, 11 when it is configured, one for every searched term, import and mention, and one more under src/. */
  lemma SourceMeritExactly(cfg: Config, repo: Repo, git: Git, f: string)
    requires InScope(repo, f)
    ensures var facts := Gathered(cfg, repo, git);
            var rs := ReasonsOf(facts, f);
            SourceMerit(facts, git, f)
            == 6 * One(f in git.diff) + 21 * One(f in REGRESSION) + 11 * One(f in cfg.seedPaths)
               + |set r | r in rs && r.Grep?| + |set r | r in rs && r.ImportedBy?| + |set r | r in rs && r.References?|
               + 1 + One(|f| >= 4 && f[..4] == "src/")
  {
    hide Gathered, InScope;
    var facts := Gathered(cfg, repo, git);
    var rs := ReasonsOf(facts, f);
    SizeByKind(rs);
    SeedReason(cfg, repo, git, f, RepairDiff);
    SeedReason(cfg, repo, git, f, RegressionSeed);
    SeedReason(cfg, repo, git, f, ConfiguredSeed);
  }

  lemma SeedReason(cfg: Config, repo: Repo, git: Git, f: string, r: Reason)
    requires InScope(repo, f) && (r.RepairDiff? || r.RegressionSeed? || r.ConfiguredSeed?)
    ensures r in ReasonsOf(Gathered(cfg, repo, git), f)
            <==> if r.RepairDiff? then f in git.diff else if r.RegressionSeed? then f in REGRESSION else f in cfg.seedPaths
  {
    hide Gathered, InScope;
    GatheredExactly(cfg, repo, git, f, r);
    var facts := Gathered(cfg, repo, git);
    if (f, r) in facts {
      assert (f, r).0 == f && (f, r).1 == r;
    }
  }

  // ---- Files ----

  lemma {:induction false} BasenameOf(d: string, base: string)
    requires '/' !in base
    ensures Basename(d + "/" + base) == base
  {
    var f := d + "/" + base;
    if base != "" {
      var init, last := base[..|base| - 1], base[|base| - 1];
      assert base == init + [last] && last in base;
      assert f[..|f| - 1] == d + "/" + init && f[|f| - 1] == last;
      BasenameOf(d, init);
    } else {
      assert f[|f| - 1] == '/';
    }
  }

  lemma NoSuffix(name: string, ending: string, suffix: string)
    requires '.' !in name && suffix != "" && suffix[0] == '.' && |ending| < |suffix|
    ensures !EndsWith(name + ending, suffix)
  {
    var f := name + ending;
    if |f| >= |suffix| {
      var at := |f| - |suffix|;
      assert f[at..][0] == f[at] == name[at] && name[at] in name;
    }
  }

  lemma Stripped(name: string, suffix: string)
    ensures EndsWith(name + suffix, suffix) && Without(name + suffix, suffix) == name
  {
    var f := name + suffix;
    assert f[|f| - |suffix|..] == suffix && f[..|f| - |suffix|] == name;
  }

  /** The stem of a script or a test is its name. */
  lemma StemOf(d: string, name: string)
    requires '/' !in name && '.' !in name
    ensures Stem(d + "/" + (name + ".js")) == name
    ensures Stem(d + "/" + (name + ".test.js")) == name
    ensures Stem(d + "/" + (name + ".integration.test.js")) == name
  {
    hide EndsWith, Basename;
    BasenameOf(d, name + ".js");
    BasenameOf(d, name + ".test.js");
    BasenameOf(d, name + ".integration.test.js");
    NoSuffix(name, ".js", ".test.js");
    NoSuffix(name, ".js", ".integration.test.js");
    NoSuffix(name, ".test.js", ".integration.test.js");
    NoSuffix(name, "", ".js");
    assert name + "" == name;
    Stripped(name, ".js");
    Stripped(name, ".test.js");
    Stripped(name, ".integration.test.js");
  }

  ghost predicate Between(f: string, prefix: string, suffix: string) {
    exists m: string :: f == prefix + m + suffix
  }

  /** Which files may be written: scripts under src/ and test scripts under tests/. */
  lemma WritableExactly(f: string)
    ensures Writable(f)
            <==> Between(f, "src/", ".js") || Between(f, "src/", ".mjs") || Between(f, "src/", ".cjs")
                 || Between(f, "tests/", ".test.js")
  {
    hide StartsWith, EndsWith, Between;
    BetweenMeans(f, "src/", ".js");
    BetweenMeans(f, "src/", ".mjs");
    BetweenMeans(f, "src/", ".cjs");
    BetweenMeans(f, "tests/", ".test.js");
  }

  lemma BetweenMeans(f: string, prefix: string, suffix: string)
    requires suffix != "" && suffix[0] !in prefix
    ensures Between(f, prefix, suffix) <==> StartsWith(f, prefix) && EndsWith(f, suffix)
  {
    if StartsWith(f, prefix) && EndsWith(f, suffix) {
      var n := |f| - |suffix|;
      assert f[n] == suffix[0];
      assert forall k :: 0 <= k < |prefix| ==> f[k] == f[..|prefix|][k] && prefix[k] in prefix;
      assert f == prefix + f[|prefix|..n] + suffix;
    }
    if Between(f, prefix, suffix) {
      var m: string :| f == prefix + m + suffix;
      assert f[..|prefix|] == prefix && f[|f| - |suffix|..] == suffix;
    }
  }

  lemma BestSize(paths: seq<string>, score: string -> int, cap: int, chosen: seq<string>)
    requires IsBest(paths, score, cap, chosen) && cap >= 0
    ensures |chosen| == if |paths| <= cap then |paths| else cap
  {
    hide Better, Distinct, SortedBy;
  }

  /** As many files are read and written as there are, up to the limits: 48 and 24 unless configured. */
  lemma SizesExactly(cfg: Config, git: Git, files: seq<string>, reasons: map<string, seq<Reason>>, s: Scope)
    requires Draws(cfg, git, files, reasons, s)
    requires cfg.maxSourceFiles.Some? ==> cfg.maxSourceFiles.value >= 0
    requires cfg.maxWriteFiles.Some? ==> cfg.maxWriteFiles.value >= 0
    ensures var most := if cfg.maxSourceFiles == None || cfg.maxSourceFiles == Some(0) then 48 else cfg.maxSourceFiles.value;
            |s.source| == if |files| <= most then |files| else most
    ensures var most := if cfg.maxWriteFiles == None || cfg.maxWriteFiles == Some(0) then 24 else cfg.maxWriteFiles.value;
            |s.write| == if |Writables(s.source)| <= most then |Writables(s.source)| else most
  {
    hide SourceScoring, WriteScoring, Writables, IsBest, MustWrite;
    var candidates := Writables(s.source);
    BestSize(files, SourceScoring(reasons, git.diff), Limit(cfg.maxSourceFiles, 48), s.source);
    BestSize(candidates, WriteScoring(reasons, MustWrite(cfg, candidates)), Limit(cfg.maxWriteFiles, 24), s.write);
  }
}
