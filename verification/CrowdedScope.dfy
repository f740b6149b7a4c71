/** A repair scope that is refused although only one path must be written and there is room for one (scope.js): the
    other file was changed by the pull request and is imported so often that it ranks above the must-write one. The
    evidence is made of seeds, the diff and imports; `git grep` finds nothing. */
module CrowdedScope {
  import opened Common
  import opened ImportClosure
  import opened NodePaths
  import opened Ordering
  import opened Paths
  import opened ScopeBuilder
  import opened ScopeEvidence
  import opened ScopeFacts
  import opened Selection

  const MUST := "src/a.js"
  const OTHER := "src/travis/conversation.js"
  const IMPORT := "./conversation.js"

  /** How many files import the other one. */
  const IMPORTERS: nat := 7

  /** The importing files lie beside the other one: m.js, mm.js, mmm.js and so on. */
  function Name(i: nat): string {
    seq(i + 1, _ => 'm') + ".js"
  }

  function Importer(i: nat): string {
    "src/travis/" + Name(i)
  }

  function Importers(n: nat): seq<string> {
    seq(n, i requires 0 <= i < n => Importer(i))
  }

  /** All files are configured seeds, one must be written, and one may be. */
  const CONFIG := Config([MUST, OTHER] + Importers(IMPORTERS), None, None, Some(1), [MUST])

  function Specs(f: string): seq<string> {
    if f in Importers(IMPORTERS) then [IMPORT] else []
  }

  const REPO := Repo((set f | f in [MUST, OTHER] + Importers(IMPORTERS)), Specs)

  function NoHits(pattern: string): seq<string> {
    []
  }

  /** The pull request under repair changed the other file. */
  const GIT := Git(NoHits, [OTHER])

  // ---- The files ----

  lemma Names()
    ensures MUST != OTHER && InTree(MUST) && InTree(OTHER) && Writable(MUST) && Writable(OTHER)
    ensures MUST !in Importers(IMPORTERS) && OTHER !in Importers(IMPORTERS)
  {
    assert |MUST| == 8 && |OTHER| == 26;
    assert MUST[..4] == "src/" && OTHER[..4] == "src/";
    assert MUST[5..] == ".js" && OTHER[23..] == ".js";
    forall i: nat | i < IMPORTERS ensures |Importer(i)| == 15 + i {
      assert |Name(i)| == i + 4;
    }
  }

  lemma InInventory()
    ensures MUST in REPO.inventory && OTHER in REPO.inventory
    ensures forall i: nat :: i < IMPORTERS ==> Importer(i) in REPO.inventory && Importer(i) in Importers(IMPORTERS)
  {
    var all := [MUST, OTHER] + Importers(IMPORTERS);
    assert all[0] == MUST && all[1] == OTHER;
    forall i: nat | i < IMPORTERS ensures Importer(i) in REPO.inventory && Importer(i) in Importers(IMPORTERS) {
      assert Importers(IMPORTERS)[i] == Importer(i);
      assert all[i + 2] == Importer(i);
    }
  }

  lemma FewFiles()
    ensures |REPO.inventory| <= 9
  {
    ElementsSize([MUST, OTHER] + Importers(IMPORTERS));
    assert REPO.inventory == Elements([MUST, OTHER] + Importers(IMPORTERS));
  }

  lemma {:induction false} ElementsSize(s: seq<string>)
    ensures |Elements(s)| <= |s|
  {
    if s != [] {
      ElementsSize(s[1..]);
      assert Elements(s) == {s[0]} + Elements(s[1..]);
    } else {
      assert Elements(s) == {};
    }
  }

  // ---- The imports ----

  lemma PlainName(i: nat)
    ensures '/' !in Name(i) && Name(i) != ""
  {
  }

  lemma SplitPair(a: string, b: string)
    requires '/' !in a && '/' !in b
    ensures Split(a + "/" + b) == [a, b]
  {
    SplitWhole(a);
    SplitWhole(b);
    SplitAppend(a, b);
  }

  lemma ReducePair(parts: seq<string>, a: string, b: string)
    ensures Reduce(parts, [a, b], false) == Climb(Climb(parts, a, false), b, false)
  {
    hide Climb;
    var x := Climb(parts, a, false);
    assert [a, b][1..] == [b] && [b][1..] == [];
    assert Reduce(parts, [a, b], false) == Reduce(x, [b], false);
    assert Reduce(x, [b], false) == Reduce(Climb(x, b, false), [], false);
  }

  lemma JoinThree(a: string, b: string, c: string)
    ensures Join([a, b, c]) == a + "/" + (b + "/" + c)
  {
    assert [a, b, c][1..] == [b, c] && [b, c][1..] == [c];
    assert Join([b, c]) == b + "/" + Join([c]);
    assert Join([a, b, c]) == a + "/" + Join([b, c]);
  }

  predicate Plain(name: string) {
    name != "" && name != "." && name != ".." && '/' !in name
  }

  /** Walking "./name" from the directory a/b. */
  lemma WalkBeside(a: string, b: string, name: string)
    requires Plain(a) && Plain(b) && Plain(name)
    ensures Spell(Reduce(Reduce([], Split(a + "/" + b), false), Split("." + "/" + name), false), false, false)
            == a + "/" + (b + "/" + name)
  {
    hide Split, Reduce, Join;
    SplitPair(a, b);
    SplitPair(".", name);
    ReducePair([], a, b);
    assert Climb(Climb([], a, false), b, false) == [a, b];
    ReducePair([a, b], ".", name);
    assert Climb(Climb([a, b], ".", false), name, false) == [a, b, name];
    JoinThree(a, b, name);
    var path := a + "/" + (b + "/" + name);
    assert Spell([a, b, name], false, false) == "" + path + "" == path;
  }

  lemma PlainNames()
    ensures Plain("src") && Plain("travis") && Plain("conversation.js")
  {
  }

  lemma BaseOfImport()
    ensures Spell(Reduce(Reduce([], Split("src/travis"), false), Split(IMPORT), false), false, false) == OTHER
  {
    hide Split, Reduce, Spell, Plain;
    var a, b, name := "src", "travis", "conversation.js";
    PlainNames();
    WalkBeside(a, b, name);
    assert a + "/" + b == "src/travis";
    assert "." + "/" + name == IMPORT;
    assert a + "/" + (b + "/" + name) == OTHER;
  }

  /** Every importing file imports the other file. */
  lemma ImportsOther(i: nat)
    ensures ResolveImport(Importer(i), IMPORT, REPO.inventory) == Some(OTHER)
  {
    hide Split, Reduce, Spell, Directory;
    PlainName(i);
    assert Importer(i) == "src/travis" + "/" + Name(i);
    DirectoryOf("src/travis", Name(i));
    ImportWalks(Importer(i), IMPORT);
    BaseOfImport();
    InInventory();
    FirstOfAll(NodePaths.Candidates(Importer(i), IMPORT), REPO.inventory);
  }

  lemma FirstOfAll(candidates: seq<string>, inventory: set<string>)
    requires candidates != [] && candidates[0] in inventory
    ensures FirstIn(candidates, inventory) == Some(candidates[0])
  {
  }

  lemma OnlyOtherImported(f: string, g: string)
    requires Imports(REPO, f, g)
    ensures g == OTHER && f in Importers(IMPORTERS)
  {
    hide ResolveImport;
    var k :| 0 <= k < |Specs(f)| && ResolveImport(f, Specs(f)[k], REPO.inventory) == Some(g);
    var i :| 0 <= i < IMPORTERS && Importers(IMPORTERS)[i] == f;
    ImportsOther(i);
  }

  // ---- The evidence ----

  /** Facts are about these files, and the must-write path is nothing but a seed. */
  predicate Expected(p: (string, Reason)) {
    p.0 == MUST ==> p.1 == ConfiguredSeed
  }

  lemma {:induction false} NothingGrepped(n: nat)
    requires n <= |TERMS|
    ensures Grepped(REPO, GIT, n) == {}
  {
    hide InTree;
    GreppedNothing(REPO, GIT, n);
  }

  lemma NotRegression()
    ensures MUST !in REGRESSION
  {
    assert |MUST| == 8;
    assert forall i :: 0 <= i < |REGRESSION| ==> |REGRESSION[i]| > 8;
  }

  lemma SeededHas()
    ensures (MUST, ConfiguredSeed) in Seeded(CONFIG, REPO, GIT)
    ensures (OTHER, ConfiguredSeed) in Seeded(CONFIG, REPO, GIT) && (OTHER, RepairDiff) in Seeded(CONFIG, REPO, GIT)
    ensures forall i: nat :: i < IMPORTERS ==> Importer(i) in Files(Seeded(CONFIG, REPO, GIT))
    ensures forall p :: p in Seeded(CONFIG, REPO, GIT) ==> Expected(p)
  {
    hide InTree, Grepped;
    Names();
    InInventory();
    NothingGrepped(|TERMS|);
    NotRegression();
    assert CONFIG.seedPaths[0] == MUST && CONFIG.seedPaths[1] == OTHER;
    assert OTHER in Elements(GIT.diff);
    forall i: nat | i < IMPORTERS ensures Importer(i) in Files(Seeded(CONFIG, REPO, GIT)) {
      assert CONFIG.seedPaths[i + 2] == Importers(IMPORTERS)[i] == Importer(i);
      ImporterInTree(i);
      assert (Importer(i), ConfiguredSeed) in Seeded(CONFIG, REPO, GIT);
    }
  }

  lemma ImporterInTree(i: nat)
    ensures InTree(Importer(i))
  {
    assert Importer(i)[..4] == "src/";
  }

  lemma ExpandedHas(i: nat)
    requires i < IMPORTERS
    ensures Importer(i) in Expanded(REPO, Files(Seeded(CONFIG, REPO, GIT)), 4)
  {
    hide Seeded, Targets;
    SeededHas();
    ReachGrows(REPO, Files(Seeded(CONFIG, REPO, GIT)), 0, 3);
  }

  lemma EdgesExpected(from: set<string>)
    ensures forall p :: p in Edges(REPO, from) ==> Expected(p)
  {
    hide InTree, Imports;
    Names();
    forall p | p in Edges(REPO, from) ensures Expected(p) {
      var f, g :| f in from && g in Targets(REPO, {f}) && InTree(g) && p == (g, ImportedBy(f));
      var h := TargetSource(REPO, {f}, g);
      OnlyOtherImported(h, g);
    }
  }

  lemma NothingMentioned(fs: set<string>)
    ensures Mentioned(REPO, GIT, fs) == {}
  {
    hide Stem, InTree;
    forall f ensures Mentions(REPO, GIT, f) == {} {
      assert forall line :: line in Elements(NoHits(Stem(f))) ==> false;
    }
  }

  /** The evidence of this repository. */
  lemma WhatIsGathered()
    ensures var facts := Gathered(CONFIG, REPO, GIT);
            && (forall p :: p in facts ==> Expected(p))
            && (MUST, ConfiguredSeed) in facts && (OTHER, ConfiguredSeed) in facts && (OTHER, RepairDiff) in facts
            && (forall i: nat :: i < IMPORTERS ==> (OTHER, ImportedBy(Importer(i))) in facts)
            && Files(facts) <= REPO.inventory
  {
    hide Seeded, Edges, Expanded, Mentioned, Expected, InTree, Files;
    SeededHas();
    var seeds := Files(Seeded(CONFIG, REPO, GIT));
    var from := Expanded(REPO, seeds, 4);
    EdgesExpected(from);
    NothingMentioned(Files(Searched(CONFIG, REPO, GIT)));
    Names();
    InInventory();
    forall i: nat | i < IMPORTERS ensures (OTHER, ImportedBy(Importer(i))) in Gathered(CONFIG, REPO, GIT) {
      ExpandedHas(i);
      ImporterImports(i);
      EdgeListed(REPO, from, Importer(i), OTHER);
    }
    FilesInInventory();
  }

  lemma ImporterImports(i: nat)
    requires i < IMPORTERS
    ensures Imports(REPO, Importer(i), OTHER)
  {
    hide ResolveImport;
    InInventory();
    ImportsOther(i);
    assert Specs(Importer(i))[0] == IMPORT;
  }

  lemma FilesInInventory()
    ensures Files(Gathered(CONFIG, REPO, GIT)) <= REPO.inventory
  {
    hide InTree, Stem, Reach, Imports, Grepped;
    NothingGrepped(|TERMS|);
    NothingMentioned(Files(Searched(CONFIG, REPO, GIT)));
    hide Mentioned;
  }

  // ---- The merits ----

  lemma WeightNonNegative(r: Reason)
    ensures Weight(r) >= 0
  {
  }

  lemma {:induction false} MoreWeighsMore(a: set<Reason>, b: set<Reason>)
    requires a <= b
    ensures SetWeight(a) <= SetWeight(b)
    decreases |b|
  {
    hide Weight;
    if r :| r in b && r !in a {
      SetWeightAny(b, r);
      WeightNonNegative(r);
      MoreWeighsMore(a, b - {r});
    } else {
      assert a == b;
    }
  }

  lemma OneMore(rs: set<Reason>, r: Reason)
    requires r !in rs
    ensures SetWeight(rs + {r}) == SetWeight(rs) + Weight(r)
  {
    hide Weight;
    SetWeightAny(rs + {r}, r);
    assert rs + {r} - {r} == rs;
  }

  /** The first `n` importers as reasons. */
  ghost function Imported(n: nat): set<Reason> {
    set i: nat | i < n :: ImportedBy(Importer(i))
  }

  lemma ImportersDiffer(n: nat)
    ensures forall i: nat :: i < n ==> Importer(i) != Importer(n)
  {
    forall i: nat | i < n ensures Importer(i) != Importer(n) {
      assert |Importer(i)| == 15 + i && |Importer(n)| == 15 + n;
    }
  }

  lemma {:induction false} ImportedWeigh(n: nat)
    ensures SetWeight(Imported(n)) == 70 * n
  {
    hide SetWeight, Importer;
    if n == 0 {
      assert Imported(0) == {};
      NothingWeighs();
    } else {
      ImportedWeigh(n - 1);
      ImportersDiffer(n - 1);
      OneMore(Imported(n - 1), ImportedBy(Importer(n - 1)));
      assert Imported(n) == Imported(n - 1) + {ImportedBy(Importer(n - 1))};
    }
  }

  lemma StandingOfMust()
    ensures Standing(false, MUST) == 20
  {
    assert |MUST| == 8 && MUST[0] == 's' && "tests/"[0] == 't' && MUST[..4] == "src/";
    assert |"src/persistence/postgres.js"| > 8 && |"src/persistence/platformStore.js"| > 8;
  }

  lemma StandingOfOther()
    ensures Standing(false, OTHER) >= 320
  {
    assert OTHER[..4] == "src/";
  }

  /** The other file is worth more than the must-write one with its bonus. */
  lemma OtherOutdoes(facts: FactSet)
    requires forall p :: p in facts ==> Expected(p)
    requires (MUST, ConfiguredSeed) in facts && (OTHER, ConfiguredSeed) in facts && (OTHER, RepairDiff) in facts
    requires forall i: nat :: i < IMPORTERS ==> (OTHER, ImportedBy(Importer(i))) in facts
    ensures Merit(facts, MUST) == 220 && Merit(facts, OTHER) >= 1260
  {
    hide SetWeight, Standing, Importer;
    StandingOfMust();
    StandingOfOther();
    assert ReasonsOf(facts, MUST) == {ConfiguredSeed} by {
      assert (MUST, ConfiguredSeed).1 in ReasonsOf(facts, MUST);
    }
    OneMore({}, ConfiguredSeed);
    assert {} + {ConfiguredSeed} == {ConfiguredSeed};
    NothingWeighs();
    var some := Imported(IMPORTERS) + {ConfiguredSeed} + {RepairDiff};
    ImportedWeigh(IMPORTERS);
    OneMore(Imported(IMPORTERS), ConfiguredSeed);
    OneMore(Imported(IMPORTERS) + {ConfiguredSeed}, RepairDiff);
    forall r | r in some ensures r in ReasonsOf(facts, OTHER) {
      assert (OTHER, r) in facts;
    }
    MoreWeighsMore(some, ReasonsOf(facts, OTHER));
  }

  lemma NothingWeighs()
    ensures SetWeight({}) == 0
  {
  }

  // ---- The refusal ----

  /** All files may be read, so both are candidates for writing. */
  lemma BothCandidates(facts: FactSet)
    requires Files(facts) <= REPO.inventory && MUST in Files(facts) && OTHER in Files(facts)
    ensures MUST in ScopeFacts.Candidates(CONFIG, GIT, facts) && OTHER in ScopeFacts.Candidates(CONFIG, GIT, facts)
    ensures Musts(CONFIG, GIT, facts) == {MUST}
  {
    hide Writable, SourceMerits, Above, Top;
    Names();
    FewFiles();
    SubsetSize(Files(facts), REPO.inventory);
    TopAll(Files(facts), SourceMerits(facts, GIT), 48);
  }

  /** The scope is refused. */
  lemma CrowdedOut()
    ensures Refuses(CONFIG, GIT, Gathered(CONFIG, REPO, GIT))
    ensures Musts(CONFIG, GIT, Gathered(CONFIG, REPO, GIT)) == {MUST}
    ensures MUST !in Writes(CONFIG, GIT, Gathered(CONFIG, REPO, GIT))
  {
    hide Gathered, Merit, MustRivals, Writes, ScopeFacts.Candidates, Musts, Refuses, Importer;
    var facts := Gathered(CONFIG, REPO, GIT);
    WhatIsGathered();
    OtherOutdoes(facts);
    assert (MUST, ConfiguredSeed).0 in Files(facts) && (OTHER, ConfiguredSeed).0 in Files(facts);
    BothCandidates(facts);
    Names();
    assert OTHER in Intruders(CONFIG, GIT, facts, MUST);
    SubsetSize({OTHER}, Intruders(CONFIG, GIT, facts, MUST));
    MustWriteDroppedIff(CONFIG, GIT, facts, MUST);
    assert MUST in Musts(CONFIG, GIT, facts) - Writes(CONFIG, GIT, facts);
    RefusesIffDropped(CONFIG, GIT, facts);
  }

  /** However the scope is drawn, the must-write path is a candidate and is not among the files to write. */
  lemma MustWriteCanBeDropped(files: seq<string>, reasons: map<string, seq<Reason>>, drawn: Scope)
    requires Recorded(REPO, files, reasons) && Facts(reasons) == Gathered(CONFIG, REPO, GIT)
    requires Draws(CONFIG, GIT, files, reasons, drawn)
    ensures MUST in CONFIG.mustWritePaths && MUST in Writables(drawn.source) && MUST !in drawn.write
    ensures |drawn.write| <= 1
  {
    hide Gathered, Facts, Recorded, Draws, Writes, ScopeFacts.Candidates, Musts, Writables, MustWrite;
    CrowdedOut();
    DrawnFromFacts(CONFIG, REPO, GIT, files, reasons, drawn);
    DrawnSafe(CONFIG, REPO, GIT, files, reasons, drawn);
    assert MUST in MustWrite(CONFIG, Writables(drawn.source));
    MustWriteMeans(CONFIG, Writables(drawn.source), MUST);
    assert MUST !in Elements(drawn.write);
  }

  lemma MustWriteMeans(cfg: Config, candidates: seq<string>, f: string)
    ensures f in MustWrite(cfg, candidates) <==> f in cfg.mustWritePaths && f in candidates
  {
  }

  /** Building the scope of this repository is refused over the must-write path. */
  method BuildCrowded() returns (r: Result<Scope, set<string>>)
    ensures r == Failure({MUST})
  {
    hide Gathered, Facts, Recorded, Draws, Writes, ScopeFacts.Candidates, Musts, Refuses, Sources, Safe;
    CrowdedOut();
    ghost var files, reasons, drawn;
    r, files, reasons, drawn := BuildScope(CONFIG, REPO, GIT);
    assert {MUST} - Writes(CONFIG, GIT, Gathered(CONFIG, REPO, GIT)) == {MUST};
  }
}
