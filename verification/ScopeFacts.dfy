/** What decides a repair scope, read off the evidence alone: the merit of a file is a sum over the set of its
    reasons (scope.js). */
module ScopeFacts {
  import opened Common
  import opened ImportClosure
  import opened Ordering
  import opened ScopeEvidence
  import opened Selection

  type FactSet = set<(string, Reason)>

  const BONUS := 1000

  ghost function ReasonsOf(facts: FactSet, f: string): set<Reason> {
    set p | p in facts && p.0 == f :: p.1
  }

  ghost function SetWeight(rs: set<Reason>): int {
    if rs == {} then 0
    else
      var r :| r in rs;
      Weight(r) + SetWeight(rs - {r})
  }

  /** What a file is worth for writing, without the bonus for must-write paths. */
  ghost function Merit(facts: FactSet, f: string): int {
    Standing(false, f) + SetWeight(ReasonsOf(facts, f))
  }

  ghost function SourceMerit(facts: FactSet, git: Git, f: string): int {
    var rs := ReasonsOf(facts, f);
    |rs| + (if StartsWith(f, "src/") then 2 else 1) + (if f in git.diff then 5 else 0)
    + (if RegressionSeed in rs then 20 else 0) + (if ConfiguredSeed in rs then 10 else 0)
  }

  ghost function SourceMerits(facts: FactSet, git: Git): string -> int {
    f => SourceMerit(facts, git, f)
  }

  ghost function Merits(facts: FactSet, musts: set<string>): string -> int {
    f => Merit(facts, f) + (if f in musts then BONUS else 0)
  }

  /** The files that may be read. */
  ghost function Sources(cfg: Config, git: Git, facts: FactSet): set<string> {
    Top(Files(facts), SourceMerits(facts, git), Limit(cfg.maxSourceFiles, 48))
  }

  ghost function Candidates(cfg: Config, git: Git, facts: FactSet): set<string> {
    set f | f in Sources(cfg, git, facts) && Writable(f)
  }

  ghost function Musts(cfg: Config, git: Git, facts: FactSet): set<string> {
    set f | f in cfg.mustWritePaths && f in Candidates(cfg, git, facts)
  }

  /** The files that may be written. */
  ghost function Writes(cfg: Config, git: Git, facts: FactSet): set<string> {
    Top(Candidates(cfg, git, facts), Merits(facts, Musts(cfg, git, facts)), Limit(cfg.maxWriteFiles, 24))
  }

  // ---- When a scope is refused ----

  /** `g` beats `f` even with a handicap. */
  ghost predicate Outdoes(facts: FactSet, g: string, f: string, handicap: int) {
    Merit(facts, g) > Merit(facts, f) + handicap || (Merit(facts, g) == Merit(facts, f) + handicap && StrLe(g, f))
  }

  /** The other must-write candidates that beat `f`. */
  ghost function MustRivals(cfg: Config, git: Git, facts: FactSet, f: string): set<string> {
    set g | g in Musts(cfg, git, facts) && g != f && Outdoes(facts, g, f, 0)
  }

  /** The candidates that need not be written and beat `f` in spite of its bonus. */
  ghost function Intruders(cfg: Config, git: Git, facts: FactSet, f: string): set<string> {
    set g | g in Candidates(cfg, git, facts) && g !in Musts(cfg, git, facts) && Outdoes(facts, g, f, BONUS)
  }

  /** Some must-write candidate has as many rivals as there is room. */
  ghost predicate Refuses(cfg: Config, git: Git, facts: FactSet) {
    exists f :: f in Musts(cfg, git, facts)
                && |MustRivals(cfg, git, facts, f)| + |Intruders(cfg, git, facts, f)|
                   >= Room(|Candidates(cfg, git, facts)|, Limit(cfg.maxWriteFiles, 24))
  }

  lemma RivalsAreAhead(cfg: Config, git: Git, facts: FactSet, f: string)
    requires f in Musts(cfg, git, facts)
    ensures |Ahead(Candidates(cfg, git, facts), Merits(facts, Musts(cfg, git, facts)), f)|
            == |MustRivals(cfg, git, facts, f)| + |Intruders(cfg, git, facts, f)|
  {
    hide Sources, Merit, Writable;
    var all := Ahead(Candidates(cfg, git, facts), Merits(facts, Musts(cfg, git, facts)), f);
    var rivals, intruders := MustRivals(cfg, git, facts, f), Intruders(cfg, git, facts, f);
    assert all == rivals + intruders;
    assert rivals !! intruders;
  }

  /** A must-write candidate is dropped exactly when its rivals, must-write ones that beat it and others that beat it
      in spite of its bonus, leave no room. */
  lemma MustWriteDroppedIff(cfg: Config, git: Git, facts: FactSet, f: string)
    requires f in Musts(cfg, git, facts)
    ensures f !in Writes(cfg, git, facts)
            <==> |MustRivals(cfg, git, facts, f)| + |Intruders(cfg, git, facts, f)|
                 >= Room(|Candidates(cfg, git, facts)|, Limit(cfg.maxWriteFiles, 24))
  {
    hide Sources, Merits, Ahead, MustRivals, Intruders, Writable;
    RivalsAreAhead(cfg, git, facts, f);
  }

  /** The scope is refused exactly when some must-write candidate is not among the files that may be written. */
  lemma RefusesIffDropped(cfg: Config, git: Git, facts: FactSet)
    ensures Refuses(cfg, git, facts) <==> Musts(cfg, git, facts) - Writes(cfg, git, facts) != {}
  {
    hide Musts, Candidates, Writes, MustRivals, Intruders;
    if Refuses(cfg, git, facts) {
      var f :| f in Musts(cfg, git, facts)
               && |MustRivals(cfg, git, facts, f)| + |Intruders(cfg, git, facts, f)|
                  >= Room(|Candidates(cfg, git, facts)|, Limit(cfg.maxWriteFiles, 24));
      MustWriteDroppedIff(cfg, git, facts, f);
      assert f in Musts(cfg, git, facts) - Writes(cfg, git, facts);
    }
    if f :| f in Musts(cfg, git, facts) - Writes(cfg, git, facts) {
      MustWriteDroppedIff(cfg, git, facts, f);
    }
  }

  /** No more paths are configured as must-write than fit, and no other candidate exceeds a must-write one by the
      bonus: then the scope is not refused. */
  lemma EnoughRoom(cfg: Config, git: Git, facts: FactSet)
    requires |set f | f in cfg.mustWritePaths| <= Limit(cfg.maxWriteFiles, 24)
    requires forall f, g :: f in Musts(cfg, git, facts) && g in Candidates(cfg, git, facts) - Musts(cfg, git, facts) ==>
               Merit(facts, g) < Merit(facts, f) + BONUS
    ensures !Refuses(cfg, git, facts)
  {
    hide Sources, Merit, Writable;
    var musts, candidates := Musts(cfg, git, facts), Candidates(cfg, git, facts);
    forall f | f in musts
      ensures |MustRivals(cfg, git, facts, f)| + |Intruders(cfg, git, facts, f)|
              < Room(|candidates|, Limit(cfg.maxWriteFiles, 24))
    {
      assert Intruders(cfg, git, facts, f) == {};
      SubsetSize(MustRivals(cfg, git, facts, f), musts - {f});
      SubsetSize(musts, set f | f in cfg.mustWritePaths);
      SubsetSize(musts, candidates);
    }
  }

  // ---- The scores of recorded reasons ----

  lemma {:induction false} SetWeightAny(rs: set<Reason>, x: Reason)
    requires x in rs
    ensures SetWeight(rs) == Weight(x) + SetWeight(rs - {x})
  {
    hide Weight;
    var r :| r in rs && SetWeight(rs) == Weight(r) + SetWeight(rs - {r});
    if r != x {
      SetWeightAny(rs - {r}, x);
      SetWeightAny(rs - {x}, r);
      assert rs - {r} - {x} == rs - {x} - {r};
    }
  }

  /** The weight of reasons listed without duplicates is that of the set. */
  lemma {:induction false} WeightOfDistinct(rs: seq<Reason>)
    requires Distinct(rs)
    ensures TotalWeight(rs) == SetWeight(set r | r in rs)
  {
    hide Weight;
    if rs == [] {
      assert (set r | r in rs) == {};
    } else {
      var init, last := rs[..|rs| - 1], rs[|rs| - 1];
      WeightOfDistinct(init);
      assert rs == init + [last];
      assert last !in init;
      assert (set r | r in rs) - {last} == set r | r in init;
      SetWeightAny((set r | r in rs), last);
    }
  }

  function Recollect(reasons: map<string, seq<Reason>>, f: string): seq<Reason> {
    if f in reasons then reasons[f] else []
  }

  lemma ReasonsOfRecorded(reasons: map<string, seq<Reason>>, f: string)
    ensures ReasonsOf(Facts(reasons), f) == set r | r in Recollect(reasons, f)
  {
    forall r ensures r in ReasonsOf(Facts(reasons), f) <==> r in Recollect(reasons, f) {
      if r in Recollect(reasons, f) {
        FactKnown(reasons, f, r);
        assert (f, r) in Facts(reasons);
      }
      if r in ReasonsOf(Facts(reasons), f) {
        assert (f, r) in Facts(reasons);
      }
    }
  }

  lemma StandingSplits(must: bool, f: string)
    ensures Standing(must, f) == Standing(false, f) + (if must then BONUS else 0)
  {
  }

  /** The scores computed from recorded reasons are the merits of the facts. */
  lemma ScoresAgree(repo: Repo, git: Git, files: seq<string>, reasons: map<string, seq<Reason>>, musts: set<string>,
                    f: string)
    requires Recorded(repo, files, reasons)
    ensures SourceScoring(reasons, git.diff)(f) == SourceMerits(Facts(reasons), git)(f)
    ensures WriteScoring(reasons, musts)(f) == Merits(Facts(reasons), musts)(f)
  {
    hide Standing, TotalWeight, StartsWith, InTree, Facts;
    var rs := Recollect(reasons, f);
    ReasonsOfRecorded(reasons, f);
    DistinctSize(rs);
    WeightOfDistinct(rs);
    StandingSplits(f in musts, f);
  }
}
