/** The scope of a repair: bounded lists of files to read and to write, or a refusal (scope.js). */
module ScopeBuilder {
  import opened Common
  import opened ImportClosure
  import opened Ordering
  import opened ScopeEvidence
  import opened ScopeFacts
  import opened Selection

  /** `must` and `ranked` report how the writable files were chosen. */
  datatype Scope = Scope(source: seq<string>, write: seq<string>, why: map<string, seq<Reason>>, must: seq<string>,
                         ranked: seq<string>)

  /** A reason as it is written out. */
  function Text(r: Reason): string {
    match r
    case ConfiguredSeed => "configured-seed"
    case RegressionSeed => "regression-seed"
    case RepairDiff => "repair-pr-diff"
    case Grep(term) => "grep:" + term
    case ImportedBy(file) => "imported-by:" + file
    case References(stem) => "references:" + stem
  }

  function ByText(): (Reason, Reason) -> bool {
    (a, b) => StrLe(Text(a), Text(b))
  }

  lemma ByTextSorts(rs: seq<Reason>)
    ensures SortedBy(ByText(), Sort(ByText(), rs)) && multiset(Sort(ByText(), rs)) == multiset(rs)
  {
    hide Text;
    StrOrders();
    forall a: Reason, b: Reason ensures ByText()(a, b) || ByText()(b, a) {
      assert StrLe(Text(a), Text(b)) || StrLe(Text(b), Text(a));
    }
    forall a: Reason, b: Reason, c: Reason | ByText()(a, b) && ByText()(b, c) ensures ByText()(a, c) {
      assert StrLe(Text(a), Text(b)) && StrLe(Text(b), Text(c));
    }
    SortSorts(ByText(), rs);
  }

  lemma SortedFiles(files: seq<string>)
    requires Distinct(files)
    ensures var sorted := Sort(StrLe, files);
            Distinct(sorted) && |sorted| == |files| && forall f :: f in sorted <==> f in files
  {
    StrOrders();
    SortSorts(StrLe, files);
    SameElements(files, Sort(StrLe, files));
  }

  lemma BestIsBest(paths: seq<string>, score: string -> int, cap: int)
    requires Distinct(paths)
    ensures IsBest(paths, score, cap, Best(paths, score, cap))
  {
    BestExact(paths, score, cap);
  }

  lemma IsBestMeans(paths: seq<string>, score: string -> int, cap: int, chosen: seq<string>)
    requires IsBest(paths, score, cap, chosen)
    ensures Distinct(chosen) && forall x :: x in chosen ==> x in paths
  {
  }

  function Writables(fs: seq<string>): (ws: seq<string>)
    ensures forall f :: f in ws <==> f in fs && Writable(f)
  {
    if fs == [] then [] else (if Writable(fs[0]) then [fs[0]] else []) + Writables(fs[1..])
  }

  lemma {:induction false} WritablesDistinct(fs: seq<string>)
    requires Distinct(fs)
    ensures Distinct(Writables(fs))
  {
    if fs != [] {
      WritablesDistinct(fs[1..]);
      assert fs[0] !in fs[1..];
      assert fs[0] !in Writables(fs[1..]);
    }
  }

  /** The configured paths that must be writable, as far as they are candidates. */
  function MustWrite(cfg: Config, candidates: seq<string>): set<string> {
    set f | f in cfg.mustWritePaths && f in candidates
  }

  /** How the scope follows from the evidence. */
  ghost predicate Draws(cfg: Config, git: Git, files: seq<string>, reasons: map<string, seq<Reason>>, s: Scope) {
    var candidates := Writables(s.source);
    && IsBest(files, SourceScoring(reasons, git.diff), Limit(cfg.maxSourceFiles, 48), s.source)
    && IsBest(candidates, WriteScoring(reasons, MustWrite(cfg, candidates)), Limit(cfg.maxWriteFiles, 24), s.write)
    && s.why.Keys == Elements(s.source)
    && (forall f :: f in s.why ==>
          f in reasons && SortedBy(ByText(), s.why[f]) && multiset(s.why[f]) == multiset(reasons[f]))
    && SortedBy(StrLe, s.must) && Distinct(s.must) && Elements(s.must) == MustWrite(cfg, candidates)
    && SortedBy(ByScore(WriteScoring(reasons, MustWrite(cfg, candidates))), s.ranked)
    && multiset(s.ranked) == multiset(candidates)
  }

  lemma DroppedIff(cfg: Config, candidates: seq<string>, write: seq<string>)
    ensures MustWrite(cfg, candidates) - Elements(write) != {}
            <==> exists f :: f in cfg.mustWritePaths && f in candidates && f !in write
  {
    if f :| f in cfg.mustWritePaths && f in candidates && f !in write {
      assert f in MustWrite(cfg, candidates) - Elements(write);
    }
    if f :| f in MustWrite(cfg, candidates) - Elements(write) {
      assert f in cfg.mustWritePaths && f in candidates && f !in write;
    }
  }

  /** The scores of all candidates. */
  method ScoreAll(candidates: seq<string>, reasons: map<string, seq<Reason>>, must: set<string>)
      returns (scores: map<string, int>)
    requires forall f :: f in reasons ==> Distinct(reasons[f])
    ensures forall f :: f in candidates ==> f in scores && scores[f] == WriteScoring(reasons, must)(f)
  {
    hide Standing, TotalWeight;
    scores := map[];
    for i := 0 to |candidates|
      invariant forall k :: 0 <= k < i ==>
        candidates[k] in scores && scores[candidates[k]] == WriteScoring(reasons, must)(candidates[k])
    {
      var f := candidates[i];
      var score := WriteScore(f, if f in reasons then reasons[f] else [], f in must);
      scores := scores[f := score];
    }
  }

  function Lookup(scores: map<string, int>): string -> int {
    f => if f in scores then scores[f] else 0
  }

  /** The configured must-write paths that are candidates, each once, in order. */
  method MustList(cfg: Config, candidates: seq<string>) returns (must: seq<string>)
    ensures SortedBy(StrLe, must) && Distinct(must) && Elements(must) == MustWrite(cfg, candidates)
  {
    var found: seq<string> := [];
    var paths := cfg.mustWritePaths;
    for i := 0 to |paths|
      invariant Distinct(found)
      invariant forall f :: f in found <==> f in paths[..i] && f in candidates
    {
      assert paths[..i + 1] == paths[..i] + [paths[i]];
      if paths[i] in candidates && paths[i] !in found {
        found := found + [paths[i]];
      }
    }
    assert paths[..|paths|] == paths;
    must := Sort(StrLe, found);
    StrOrders();
    SortSorts(StrLe, found);
    SameElements(found, must);
  }

  lemma RankedByScore(candidates: seq<string>, score: string -> int, other: string -> int)
    requires forall f :: f in candidates ==> score(f) == other(f)
    ensures SortedBy(ByScore(other), Ranking(candidates, score))
    ensures multiset(Ranking(candidates, score)) == multiset(candidates)
  {
    var ranked := Ranking(candidates, score);
    ByScoreOrders(score);
    SortSorts(ByScore(score), candidates);
    forall i, j | 0 <= i < j < |ranked| ensures ByScore(other)(ranked[i], ranked[j]) {
      assert ByScore(score)(ranked[i], ranked[j]);
      assert ranked[i] in multiset(ranked) && ranked[j] in multiset(ranked);
    }
  }

  /** The reasons of every source file, in order. */
  method Explain(source: seq<string>, reasons: map<string, seq<Reason>>) returns (why: map<string, seq<Reason>>)
    requires forall f :: f in source ==> f in reasons
    ensures why.Keys == Elements(source)
    ensures forall f :: f in why ==>
              f in reasons && SortedBy(ByText(), why[f]) && multiset(why[f]) == multiset(reasons[f])
  {
    hide ByText, Sort;
    why := map[];
    for i := 0 to |source|
      invariant why.Keys == Elements(source[..i])
      invariant forall f :: f in why ==>
        f in reasons && SortedBy(ByText(), why[f]) && multiset(why[f]) == multiset(reasons[f])
    {
      ElementsNext(source, i);
      ByTextSorts(reasons[source[i]]);
      why := why[source[i] := Sort(ByText(), reasons[source[i]])];
    }
    assert source[..|source|] == source;
  }

  /** The files to read: all with evidence, or the best-scored of them. */
  method DrawSource(cfg: Config, git: Git, files: seq<string>, reasons: map<string, seq<Reason>>)
      returns (source: seq<string>)
    requires Distinct(files)
    ensures IsBest(files, SourceScoring(reasons, git.diff), Limit(cfg.maxSourceFiles, 48), source)
  {
    hide SourceScoring, IsBest, Best, Slice, Limit, Sort;
    source := Sort(StrLe, files);
    var cap := Limit(cfg.maxSourceFiles, 48);
    SortedFiles(files);
    if |source| > cap {
      var scoring := SourceScoring(reasons, git.diff);
      BestIsBest(source, scoring, cap);
      source := Best(source, scoring, cap);
      IsBestAgrees(Sort(StrLe, files), scoring, files, scoring, cap, source);
    } else {
      NothingDropped(files, SourceScoring(reasons, git.diff), cap);
    }
  }

  /** The files to write: the best-scored candidates; and the whole ranking. */
  method DrawWrite(cfg: Config, candidates: seq<string>, reasons: map<string, seq<Reason>>, must: set<string>)
      returns (write: seq<string>, ranked: seq<string>)
    requires Distinct(candidates) && forall f :: f in reasons ==> Distinct(reasons[f])
    ensures IsBest(candidates, WriteScoring(reasons, must), Limit(cfg.maxWriteFiles, 24), write)
    ensures SortedBy(ByScore(WriteScoring(reasons, must)), ranked) && multiset(ranked) == multiset(candidates)
  {
    hide WriteScoring, IsBest, Best, Slice, Limit, Ranking, SortedBy, Distinct;
    var scores := ScoreAll(candidates, reasons, must);
    write := Best(candidates, Lookup(scores), Limit(cfg.maxWriteFiles, 24));
    BestIsBest(candidates, Lookup(scores), Limit(cfg.maxWriteFiles, 24));
    IsBestAgrees(candidates, Lookup(scores), candidates, WriteScoring(reasons, must), Limit(cfg.maxWriteFiles, 24), write);
    ranked := Ranking(candidates, Lookup(scores));
    RankedByScore(candidates, Lookup(scores), WriteScoring(reasons, must));
  }

  /** `buildScope`, from the evidence on: bounded lists, or the must-write paths that the write limit drops. */
  method Select(cfg: Config, git: Git, files: seq<string>, reasons: map<string, seq<Reason>>)
      returns (r: Result<Scope, set<string>>, ghost drawn: Scope)
    requires Distinct(files) && (forall f :: f in files <==> f in reasons)
    requires forall f :: f in reasons ==> Distinct(reasons[f])
    ensures Draws(cfg, git, files, reasons, drawn)
    ensures r.Success? ==> r.value == drawn
    ensures r.Failure? ==> r.error == MustWrite(cfg, Writables(drawn.source)) - Elements(drawn.write)
    ensures r.Failure? <==> exists f :: f in cfg.mustWritePaths && f in Writables(drawn.source) && f !in drawn.write
  {
    hide WriteScoring, SourceScoring, IsBest, Writable, Limit, Distinct, Writables, SortedBy, ByText, MustWrite;
    var source := DrawSource(cfg, git, files, reasons);
    IsBestMeans(files, SourceScoring(reasons, git.diff), Limit(cfg.maxSourceFiles, 48), source);
    var candidates := Writables(source);
    WritablesDistinct(source);
    var must := MustWrite(cfg, candidates);
    var write, ranked := DrawWrite(cfg, candidates, reasons, must);
    DroppedIff(cfg, candidates, write);
    var dropped := set f | f in must && f !in write;
    assert dropped == must - Elements(write);
    var why := Explain(source, reasons);
    var list := MustList(cfg, candidates);
    var scope := Scope(source, write, why, list, ranked);
    drawn := scope;
    r := if dropped != {} then Failure(dropped) else Success(scope);
  }

  /** `buildScope` after the target is known. */
  method BuildScope(cfg: Config, repo: Repo, git: Git)
      returns (r: Result<Scope, set<string>>, ghost files: seq<string>, ghost reasons: map<string, seq<Reason>>,
               ghost drawn: Scope)
    ensures Recorded(repo, files, reasons) && Facts(reasons) == Gathered(cfg, repo, git)
    ensures Draws(cfg, git, files, reasons, drawn)
    ensures r.Success? ==> r.value == drawn
    ensures r.Success? <==> forall f :: f in cfg.mustWritePaths && f in Writables(drawn.source) ==> f in drawn.write
    ensures r.Success? ==> Safe(cfg, repo, r.value)
    // the outcome and both lists follow from the evidence alone
    ensures r.Failure? <==> Refuses(cfg, git, Gathered(cfg, repo, git))
    ensures r.Success? ==> Elements(r.value.source) == Sources(cfg, git, Gathered(cfg, repo, git))
                           && Elements(r.value.write) == Writes(cfg, git, Gathered(cfg, repo, git))
    ensures r.Failure? ==> r.error == Musts(cfg, git, Gathered(cfg, repo, git)) - Writes(cfg, git, Gathered(cfg, repo, git))
  {
    hide Facts, Gathered, Draws, InTree, Safe, Refuses, Sources, Writes, Musts, Elements, MustWrite, Writables;
    var fs, rs, complete := Gather(cfg, repo, git);
    files, reasons := fs, rs;
    r, drawn := Select(cfg, git, fs, rs);
    DrawnSafe(cfg, repo, git, files, reasons, drawn);
    DrawnFromFacts(cfg, repo, git, files, reasons, drawn);
    RefusesIffDropped(cfg, git, Facts(rs));
    DroppedIff(cfg, Writables(drawn.source), drawn.write);
  }

  lemma SourcesDrawn(cfg: Config, repo: Repo, git: Git, files: seq<string>, reasons: map<string, seq<Reason>>, s: Scope)
    requires Recorded(repo, files, reasons) && Draws(cfg, git, files, reasons, s)
    ensures Elements(s.source) == Sources(cfg, git, Facts(reasons))
  {
    hide InTree, Writable, SourceScoring, SourceMerits, WriteScoring, Merits, Facts, Files, Top, IsBest, Limit;
    FilesOfFacts(repo, files, reasons);
    forall f | f in Elements(files) ensures SourceScoring(reasons, git.diff)(f) == SourceMerits(Facts(reasons), git)(f) {
      ScoresAgree(repo, git, files, reasons, {}, f);
    }
    TopOfBest(files, SourceScoring(reasons, git.diff), Limit(cfg.maxSourceFiles, 48), s.source, Elements(files),
              SourceMerits(Facts(reasons), git));
  }

  /** The lists of a scope are determined by the evidence as a set. */
  lemma DrawnFromFacts(cfg: Config, repo: Repo, git: Git, files: seq<string>, reasons: map<string, seq<Reason>>, s: Scope)
    requires Recorded(repo, files, reasons) && Draws(cfg, git, files, reasons, s)
    ensures Elements(s.source) == Sources(cfg, git, Facts(reasons))
    ensures Elements(Writables(s.source)) == Candidates(cfg, git, Facts(reasons))
    ensures MustWrite(cfg, Writables(s.source)) == Musts(cfg, git, Facts(reasons))
    ensures Elements(s.write) == Writes(cfg, git, Facts(reasons))
  {
    hide InTree, Writable, SourceScoring, SourceMerits, WriteScoring, Merits, Facts, Files, Top, IsBest, Sources, Limit;
    SourcesDrawn(cfg, repo, git, files, reasons, s);
    var candidates := Writables(s.source);
    IsBestMeans(files, SourceScoring(reasons, git.diff), Limit(cfg.maxSourceFiles, 48), s.source);
    WritablesDistinct(s.source);
    forall f ensures f in Elements(candidates) <==> f in Candidates(cfg, git, Facts(reasons)) {
      assert f in s.source <==> f in Elements(s.source);
    }
    var must := MustWrite(cfg, candidates);
    forall f ensures f in must <==> f in Musts(cfg, git, Facts(reasons)) {
      assert f in candidates <==> f in Elements(candidates);
    }
    forall f | f in Elements(candidates) ensures WriteScoring(reasons, must)(f) == Merits(Facts(reasons), must)(f) {
      ScoresAgree(repo, git, files, reasons, must, f);
    }
    TopOfBest(candidates, WriteScoring(reasons, must), Limit(cfg.maxWriteFiles, 24), s.write, Elements(candidates),
              Merits(Facts(reasons), must));
  }

  /** The writable files are among the source files, these are files of the commit under src/ or tests/, and the
      limits hold. Every source file has a reason. */
  ghost predicate Safe(cfg: Config, repo: Repo, s: Scope) {
    && Distinct(s.source) && SortedBy(StrLe, s.source) && Distinct(s.write) && SortedBy(StrLe, s.write)
    && (forall f :: f in s.write ==> f in s.source && Writable(f))
    && (forall f :: f in s.source ==> f in repo.inventory && InTree(f) && f in s.why && s.why[f] != [])
    && (Limit(cfg.maxSourceFiles, 48) >= 0 ==> |s.source| <= Limit(cfg.maxSourceFiles, 48))
    && (Limit(cfg.maxWriteFiles, 24) >= 0 ==> |s.write| <= Limit(cfg.maxWriteFiles, 24))
  }

  lemma DrawnSafe(cfg: Config, repo: Repo, git: Git, files: seq<string>, reasons: map<string, seq<Reason>>, s: Scope)
    requires Recorded(repo, files, reasons) && Draws(cfg, git, files, reasons, s)
    ensures Safe(cfg, repo, s)
  {
    hide InTree, Writable, SourceScoring, WriteScoring, Better, Limit;
    assert forall f :: f in s.source ==> f in Elements(s.source);
  }

  /** Every candidate that the write limit drops ranks strictly below every one it keeps. */
  lemma WriteOutranks(cfg: Config, git: Git, files: seq<string>, reasons: map<string, seq<Reason>>, s: Scope,
                      kept: string, dropped: string)
    requires Distinct(files) && Draws(cfg, git, files, reasons, s)
    requires kept in s.write && dropped in s.source && Writable(dropped) && dropped !in s.write
    ensures var scoring := WriteScoring(reasons, MustWrite(cfg, Writables(s.source)));
            scoring(kept) > scoring(dropped) || (scoring(kept) == scoring(dropped) && StrLe(kept, dropped) && kept != dropped)
  {
    hide WriteScoring, SourceScoring, Writable, Limit;
    var candidates := Writables(s.source);
    WritablesDistinct(s.source);
    ChosenOutrank(candidates, WriteScoring(reasons, MustWrite(cfg, candidates)), Limit(cfg.maxWriteFiles, 24), s.write,
                  kept, dropped);
  }
}
