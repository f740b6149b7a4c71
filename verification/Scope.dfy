/** The evidence for the files of a repair scope, and what it is worth (scope.js). `git grep` and `git diff` are
    arbitrary. */
module ScopeEvidence {
  import opened Common
  import opened ImportClosure
  import opened Ordering
  import opened Selection

  datatype Config = Config(
    seedPaths: seq<string>,
    maxDependencyDepth: Option<int>,
    maxSourceFiles: Option<int>,
    maxWriteFiles: Option<int>,
    mustWritePaths: seq<string>)

  /** What Git reports: the files a pattern occurs in, and the files changed by the pull request under repair. */
  datatype Git = Git(grep: string -> seq<string>, diff: seq<string>)

  const REGRESSION: seq<string> := [
    "tests/postgresTransactionTimeout.integration.test.js",
    "tests/postgresTransactionTimeouts.integration.test.js",
    "tests/postgresBusinessInvitations.integration.test.js",
    "tests/postgresBusinessMemberships.integration.test.js",
    "tests/postgresMembershipAuthentication.integration.test.js",
    "tests/postgresProductionHttp.integration.test.js",
    "tests/postgresTravisIntake.integration.test.js"]

  const TRANSACTION_TERMS: seq<string> := [
    "withTransaction", "SERIALIZABLE", "40001", "40P01", "retry", "statement_timeout", "lock_timeout",
    "idle_in_transaction_session_timeout", "transaction timeout", "timeout"]

  const INVITATION_TERMS: seq<string> := [
    "invitation", "Invitation", "businessInvitations", "membership", "Membership", "businessMemberships",
    "acceptInvitation", "business invitation", "invitation membership", "recordQualification"]

  const CONFLICT_TERMS: seq<string> := ["INTAKE_CONVERSION_CONFLICT", "Trade pack fencing"]

  const TERMS: seq<string> := TRANSACTION_TERMS + INVITATION_TERMS + CONFLICT_TERMS

  /** A configured limit; absent or zero means the default. */
  function Limit(configured: Option<int>, default: int): int {
    if configured.None? || configured.value == 0 then default else configured.value
  }

  // ---- Gathering evidence ----

  function Basename(f: string): string {
    if f == "" then ""
    else if f[|f| - 1] == '/' then ""
    else Basename(f[..|f| - 1]) + [f[|f| - 1]]
  }

  function Without(s: string, suffix: string): string {
    if EndsWith(s, suffix) then s[..|s| - |suffix|] else s
  }

  /** The name of a file without its test and script suffixes. */
  function Stem(f: string): string {
    var base := Basename(f);
    var untested := if EndsWith(base, ".integration.test.js") then Without(base, ".integration.test.js")
                    else Without(base, ".test.js");
    Without(untested, ".js")
  }

  ghost function Grepped(repo: Repo, git: Git, n: nat): set<(string, Reason)>
    requires n <= |TERMS|
  {
    if n == 0 then {}
    else Grepped(repo, git, n - 1) + Listed(repo, Elements(git.grep(TERMS[n - 1])), Grep(TERMS[n - 1]))
  }

  /** The evidence that starts the search. */
  ghost function Seeded(cfg: Config, repo: Repo, git: Git): set<(string, Reason)> {
    Listed(repo, Elements(cfg.seedPaths), ConfiguredSeed) + Listed(repo, Elements(REGRESSION), RegressionSeed)
    + Listed(repo, Elements(git.diff), RepairDiff) + Grepped(repo, git, |TERMS|)
  }

  ghost function Files(facts: set<(string, Reason)>): set<string> {
    set p | p in facts :: p.0
  }

  ghost function Searched(cfg: Config, repo: Repo, git: Git): set<(string, Reason)> {
    var seeded := Seeded(cfg, repo, git);
    seeded + Edges(repo, Expanded(repo, Files(seeded), Limit(cfg.maxDependencyDepth, 4)))
  }

  /** The files that mention the stem of `f`. */
  ghost function Mentions(repo: Repo, git: Git, f: string): set<(string, Reason)> {
    if |Stem(f)| < 5 then {} else Listed(repo, Elements(git.grep(Stem(f))), References(Stem(f)))
  }

  ghost function Mentioned(repo: Repo, git: Git, fs: set<string>): set<(string, Reason)> {
    set f, p | f in fs && p in Mentions(repo, git, f) :: p
  }

  /** All the evidence: seeds, what they import within the depth, and what mentions any of these. */
  ghost function Gathered(cfg: Config, repo: Repo, git: Git): set<(string, Reason)> {
    var searched := Searched(cfg, repo, git);
    searched + Mentioned(repo, git, Files(searched))
  }

  lemma FilesOfFacts(repo: Repo, files: seq<string>, reasons: map<string, seq<Reason>>)
    requires Recorded(repo, files, reasons)
    ensures Files(Facts(reasons)) == Elements(files)
  {
    forall f ensures f in Files(Facts(reasons)) <==> f in Elements(files) {
      if f in reasons {
        assert (f, reasons[f][0]) in Facts(reasons);
      }
    }
  }

  lemma MentionedNext(repo: Repo, git: Git, fs: set<string>, f: string)
    ensures Mentioned(repo, git, fs + {f}) == Mentioned(repo, git, fs) + Mentions(repo, git, f)
  {
    hide Mentions;
  }

  lemma MentionsMeans(repo: Repo, git: Git, f: string)
    ensures Mentions(repo, git, f) ==
            if |Stem(f)| < 5 then {} else Listed(repo, Elements(git.grep(Stem(f))), References(Stem(f)))
  {
  }

  lemma MentionedNone(repo: Repo, git: Git)
    ensures Mentioned(repo, git, Elements([])) == {}
  {
    hide Mentions;
  }

  /** Only lines that are paths under src/ or tests/ count: when every line of `git grep` has something in front of
      its path, such as the commit, then neither the searched terms nor the stems are evidence for any file. */
  lemma PrefixedLinesIgnored(cfg: Config, repo: Repo, git: Git)
    requires forall pattern: string, line :: line in git.grep(pattern) ==> !InTree(line)
    ensures forall p :: p in Gathered(cfg, repo, git) ==> !p.1.Grep? && !p.1.References?
  {
    hide InTree, Targets, Expanded, Stem;
    GreppedNothing(repo, git, |TERMS|);
    hide Grepped;
    forall f ensures Mentions(repo, git, f) == {} {
      assert forall line :: line in Elements(git.grep(Stem(f))) ==> !InTree(line);
    }
    hide Mentions;
    assert Mentioned(repo, git, Files(Searched(cfg, repo, git))) == {};
  }

  lemma {:induction false} GreppedNothing(repo: Repo, git: Git, n: nat)
    requires n <= |TERMS|
    requires forall pattern: string, line :: line in git.grep(pattern) ==> !InTree(line)
    ensures Grepped(repo, git, n) == {}
  {
    hide InTree;
    if n > 0 {
      GreppedNothing(repo, git, n - 1);
      assert forall line :: line in Elements(git.grep(TERMS[n - 1])) ==> !InTree(line);
    }
  }

  lemma GreppedNext(repo: Repo, git: Git, n: nat)
    requires n < |TERMS|
    ensures Grepped(repo, git, n + 1)
            == Grepped(repo, git, n) + Listed(repo, Elements(git.grep(TERMS[n])), Grep(TERMS[n]))
  {
  }

  /** Adds the files of every searched term. */
  method GrepTerms(e: Evidence, git: Git)
    requires e.Valid()
    modifies e
    ensures e.Valid() && Facts(e.reasons) == old(Facts(e.reasons)) + Grepped(e.repo, git, |TERMS|)
  {
    hide Facts, Listed, Elements, Recorded;
    for i := 0 to |TERMS|
      invariant e.Valid()
      invariant Facts(e.reasons) == old(Facts(e.reasons)) + Grepped(e.repo, git, i)
    {
      hide Grepped;
      GreppedNext(e.repo, git, i);
      e.AddAll(git.grep(TERMS[i]), Grep(TERMS[i]));
    }
  }

  /** Adds the files that mention the stem of a file with evidence. */
  method MentionStems(e: Evidence, git: Git)
    requires e.Valid()
    modifies e
    ensures e.Valid() && Facts(e.reasons) == old(Facts(e.reasons)) + Mentioned(e.repo, git, Elements(old(e.files)))
  {
    hide Facts, Listed, Elements, Recorded, Mentions, Mentioned, Stem;
    var found := e.files;
    assert found[..0] == [];
    MentionedNone(e.repo, git);
    for i := 0 to |found|
      invariant e.Valid()
      invariant Facts(e.reasons) == old(Facts(e.reasons)) + Mentioned(e.repo, git, Elements(found[..i]))
    {
      ElementsNext(found, i);
      MentionedNext(e.repo, git, Elements(found[..i]), found[i]);
      MentionsMeans(e.repo, git, found[i]);
      var stem := Stem(found[i]);
      if |stem| >= 5 {
        e.AddAll(git.grep(stem), References(stem));
      }
    }
    assert found[..|found|] == found;
  }

  /** The search follows the imports of every file that can be reached from the seeds, however far. */
  ghost predicate SearchesAll(cfg: Config, repo: Repo, git: Git) {
    var depth := Limit(cfg.maxDependencyDepth, 4);
    depth > 0 && FollowsAll(repo, Files(Seeded(cfg, repo, git)), depth)
  }

  lemma EdgeListed(repo: Repo, from: set<string>, f: string, g: string)
    requires f in from && Imports(repo, f, g) && InTree(g)
    ensures (g, ImportedBy(f)) in Edges(repo, from)
  {
    hide InTree, Imports, Targets;
    TargetStep(repo, {f}, f, g);
  }

  /** Then every import at the end of a walk from a seed is evidence, however long the walk. */
  lemma EveryImportGathered(cfg: Config, repo: Repo, git: Git, p: seq<string>, g: string)
    requires SearchesAll(cfg, repo, git)
    requires IsWalk(repo, p) && p[0] in Files(Seeded(cfg, repo, git))
    requires Imports(repo, p[|p| - 1], g) && InTree(g)
    ensures (g, ImportedBy(p[|p| - 1])) in Gathered(cfg, repo, git)
  {
    hide InTree, Imports, Reach, Seeded, Edges, Mentioned, Expanded, Files, Targets;
    var seeds := Files(Seeded(cfg, repo, git));
    WalkReaches(repo, seeds, |p|, p);
    assert Reach(repo, seeds, |p|) <= Expanded(repo, seeds, Limit(cfg.maxDependencyDepth, 4));
    EdgeListed(repo, Expanded(repo, seeds, Limit(cfg.maxDependencyDepth, 4)), p[|p| - 1], g);
  }

  /** Collects the reasons of all files in scope. `complete` tells whether the search stopped early. */
  method Gather(cfg: Config, repo: Repo, git: Git)
      returns (files: seq<string>, reasons: map<string, seq<Reason>>, ghost complete: bool)
    ensures Recorded(repo, files, reasons) && Facts(reasons) == Gathered(cfg, repo, git)
    ensures complete <==> SearchesAll(cfg, repo, git)
  {
    hide Facts, Listed, Elements, Edges, Expanded, Mentioned, Files, Reach, Recorded, Grepped, FollowsAll, Stops;
    var e := new Evidence(repo);
    e.AddAll(cfg.seedPaths, ConfiguredSeed);
    e.AddAll(REGRESSION, RegressionSeed);
    e.AddAll(git.diff, RepairDiff);
    GrepTerms(e, git);
    assert Facts(e.reasons) == Seeded(cfg, repo, git);
    FilesOfFacts(repo, e.files, e.reasons);
    ghost var seen;
    seen, complete := e.Close(Limit(cfg.maxDependencyDepth, 4));
    assert Facts(e.reasons) == Searched(cfg, repo, git);
    FilesOfFacts(repo, e.files, e.reasons);
    MentionStems(e, git);
    files, reasons := e.files, e.reasons;
  }

  // ---- Scores ----

  function SourceScore(reasons: map<string, seq<Reason>>, diff: seq<string>, f: string): int {
    var rs := if f in reasons then reasons[f] else [];
    |rs| + (if StartsWith(f, "src/") then 2 else 1) + (if f in diff then 5 else 0)
    + (if RegressionSeed in rs then 20 else 0) + (if ConfiguredSeed in rs then 10 else 0)
  }

  function SourceScoring(reasons: map<string, seq<Reason>>, diff: seq<string>): string -> int {
    f => SourceScore(reasons, diff, f)
  }

  function Weight(r: Reason): int {
    match r
    case RepairDiff => 250
    case ConfiguredSeed => 200
    case RegressionSeed => 240
    case Grep(term) =>
      (if term in TRANSACTION_TERMS then 180 else 0) + (if term in INVITATION_TERMS then 140 else 0)
      + (if term in CONFLICT_TERMS then 100 else 0)
    case ImportedBy(_) => 70
    case References(_) => 50
  }

  function TotalWeight(rs: seq<Reason>): int {
    if rs == [] then 0 else TotalWeight(rs[..|rs| - 1]) + Weight(rs[|rs| - 1])
  }

  /** What the file itself is worth, whatever the evidence. */
  function Standing(must: bool, f: string): int {
    (if must then 1000 else 0) + (if StartsWith(f, "src/") then 20 else 0) + (if StartsWith(f, "tests/") then 10 else 0)
    + (if EndsWith(f, "src/persistence/postgres.js") || EndsWith(f, "src/persistence/postgresApplicationServices.js")
          || EndsWith(f, "src/persistence/platformStore.js") then 300 else 0)
    + (if f == "src/travis/conversation.js" then 300 else 0)
    + (if f == "src/intake/postgresApplication.js" then 250 else 0)
  }

  function WriteScoring(reasons: map<string, seq<Reason>>, must: set<string>): string -> int {
    f => Standing(f in must, f) + TotalWeight(if f in reasons then reasons[f] else [])
  }

  predicate IsSeed(r: Reason) {
    r.RepairDiff? || r.ConfiguredSeed? || r.RegressionSeed?
  }

  /** The part of the score that is added once for each kind of seed. */
  function SeedWeight(rs: seq<Reason>): int {
    (if RepairDiff in rs then 250 else 0) + (if ConfiguredSeed in rs then 200 else 0)
    + (if RegressionSeed in rs then 240 else 0)
  }

  function OtherWeight(rs: seq<Reason>): int {
    if rs == [] then 0
    else
      var last := rs[|rs| - 1];
      OtherWeight(rs[..|rs| - 1]) + (if IsSeed(last) then 0 else Weight(last))
  }

  /** As no reason occurs twice, the two parts together weigh every reason once. */
  lemma {:induction false} WeightsAddUp(rs: seq<Reason>)
    requires Distinct(rs)
    ensures SeedWeight(rs) + OtherWeight(rs) == TotalWeight(rs)
  {
    if rs != [] {
      var n := |rs| - 1;
      WeightsAddUp(rs[..n]);
      assert rs[n] !in rs[..n];
      assert forall r :: r in rs <==> r in rs[..n] || r == rs[n];
    }
  }

  lemma NoOther()
    ensures OtherWeight([]) == 0
  {
  }

  lemma OtherNext(rs: seq<Reason>, i: nat)
    requires i < |rs|
    ensures OtherWeight(rs[..i + 1]) == OtherWeight(rs[..i]) + (if IsSeed(rs[i]) then 0 else Weight(rs[i]))
  {
    hide IsSeed, Weight;
    assert rs[..i + 1][..i] == rs[..i];
  }

  /** `writeScore`. */
  method WriteScore(f: string, rs: seq<Reason>, must: bool) returns (score: int)
    requires Distinct(rs)
    ensures score == Standing(must, f) + TotalWeight(rs)
  {
    hide Weight, IsSeed, StartsWith, EndsWith, TotalWeight, OtherWeight, Distinct;
    WeightsAddUp(rs);
    assert rs[..0] == [];
    NoOther();
    score := 0;
    score := score + (if must then 1000 else 0);
    score := score + (if RepairDiff in rs then 250 else 0);
    score := score + (if ConfiguredSeed in rs then 200 else 0);
    score := score + (if RegressionSeed in rs then 240 else 0);
    ghost var fixed := score;
    for i := 0 to |rs|
      invariant score == fixed + OtherWeight(rs[..i])
    {
      OtherNext(rs, i);
      var more := LoopScore(rs[i]);
      score := score + more;
    }
    assert rs[..|rs|] == rs;
    score := score + (if StartsWith(f, "src/") then 20 else 0);
    score := score + (if StartsWith(f, "tests/") then 10 else 0);
    score := score + (if EndsWith(f, "src/persistence/postgres.js")
                          || EndsWith(f, "src/persistence/postgresApplicationServices.js")
                          || EndsWith(f, "src/persistence/platformStore.js") then 300 else 0);
    score := score + (if f == "src/travis/conversation.js" then 300 else 0);
    score := score + (if f == "src/intake/postgresApplication.js" then 250 else 0);
  }

  /** What one reason adds in the loop. */
  method LoopScore(r: Reason) returns (score: int)
    ensures score == if IsSeed(r) then 0 else Weight(r)
  {
    score := 0;
    if r.Grep? && r.term in TRANSACTION_TERMS { score := score + 180; }
    if r.Grep? && r.term in INVITATION_TERMS { score := score + 140; }
    if r.Grep? && r.term in CONFLICT_TERMS { score := score + 100; }
    if r.ImportedBy? { score := score + 70; }
    if r.References? { score := score + 50; }
  }

  predicate Writable(f: string) {
    || (StartsWith(f, "src/") && (EndsWith(f, ".js") || EndsWith(f, ".mjs") || EndsWith(f, ".cjs")))
    || (StartsWith(f, "tests/") && EndsWith(f, ".test.js"))
  }
}
