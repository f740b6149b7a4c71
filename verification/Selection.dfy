/** The best-scored paths of a list, as the scope builder selects them (scope.js). */
module Selection {
  import opened Common
  import opened Ordering

  /** `slice(0, end)`: a negative end counts from the back. */
  function Slice<T>(s: seq<T>, end: int): seq<T> {
    if end >= |s| then s
    else if end >= 0 then s[..end]
    else if |s| + end >= 0 then s[..|s| + end]
    else []
  }

  /** The higher score comes first, and among equal scores the smaller path. */
  predicate Above(score: string -> int, a: string, b: string) {
    score(a) > score(b) || (score(a) == score(b) && StrLe(a, b))
  }

  function ByScore(score: string -> int): (string, string) -> bool {
    (a, b) => Above(score, a, b)
  }

  function Ranking(paths: seq<string>, score: string -> int): seq<string> {
    Sort(ByScore(score), paths)
  }

  /** The first `cap` of the ranking, in the order of their names. */
  function Best(paths: seq<string>, score: string -> int, cap: int): seq<string> {
    Sort(StrLe, Slice(Ranking(paths, score), cap))
  }

  /** The paths that come before `x` in the ranking. */
  ghost function Better(paths: seq<string>, score: string -> int, x: string): set<string> {
    set y | y in paths && y != x && Above(score, y, x)
  }

  lemma ByScoreOrders(score: string -> int)
    ensures Total(ByScore(score)) && Transitive(ByScore(score))
  {
    forall a: string, b: string ensures Above(score, a, b) || Above(score, b, a) {
      StrTotal(a, b);
    }
    forall a: string, b: string, c: string | Above(score, a, b) && Above(score, b, c) ensures Above(score, a, c) {
      if StrLe(a, b) && StrLe(b, c) {
        StrTransitive(a, b, c);
      }
    }
  }

  lemma AboveAntisymmetric(score: string -> int, a: string, b: string)
    requires Above(score, a, b) && Above(score, b, a)
    ensures a == b
  {
    StrAntisymmetric(a, b);
  }

  /** In the ranking exactly the better paths precede a path. */
  lemma RankIsPosition(paths: seq<string>, score: string -> int, i: nat)
    requires Distinct(paths) && i < |Ranking(paths, score)|
    ensures |Better(paths, score, Ranking(paths, score)[i])| == i
  {
    var r := Ranking(paths, score);
    ByScoreOrders(score);
    SortSorts(ByScore(score), paths);
    SameElements(paths, r);
    var x := r[i];
    forall y ensures y in Better(paths, score, x) <==> y in r[..i] {
      if y in r[..i] {
        var k :| 0 <= k < i && r[k] == y;
        assert ByScore(score)(r[k], r[i]);
      }
      if y in Better(paths, score, x) {
        var k :| 0 <= k < |r| && r[k] == y;
        if k > i {
          assert ByScore(score)(r[i], r[k]);
          AboveAntisymmetric(score, x, y);
        }
      }
    }
    assert Better(paths, score, x) == set y | y in r[..i];
    DistinctSize(r[..i]);
  }

  /** A path is selected exactly when fewer than the cap are better. The selection has no duplicates, is in the order
      of names, and has as many paths as the cap allows. */
  lemma BestExact(paths: seq<string>, score: string -> int, cap: int)
    requires Distinct(paths)
    ensures var best := Best(paths, score, cap);
            && Distinct(best) && SortedBy(StrLe, best)
            && |best| == |Slice(paths, cap)|
            && forall x :: x in best <==> x in paths && |Better(paths, score, x)| < |Slice(paths, cap)|
  {
    var r := Ranking(paths, score);
    var n := |Slice(paths, cap)|;
    ByScoreOrders(score);
    SortSorts(ByScore(score), paths);
    SameElements(paths, r);
    assert Slice(r, cap) == r[..n];
    StrOrders();
    SortSorts(StrLe, r[..n]);
    SameElements(r[..n], Best(paths, score, cap));
    forall x ensures x in r[..n] <==> x in paths && |Better(paths, score, x)| < n {
      if x in paths {
        var i :| 0 <= i < |r| && r[i] == x;
        RankIsPosition(paths, score, i);
        assert i < n ==> r[..n][i] == x;
      }
    }
  }

  /** Everything selected ranks strictly above everything dropped. */
  lemma BestOutranks(paths: seq<string>, score: string -> int, cap: int, kept: string, dropped: string)
    requires Distinct(paths)
    requires kept in Best(paths, score, cap) && dropped in paths && dropped !in Best(paths, score, cap)
    ensures Above(score, kept, dropped) && !Above(score, dropped, kept)
  {
    BestExact(paths, score, cap);
    if Above(score, dropped, kept) {
      var rest := Better(paths, score, dropped);
      forall y | y in rest ensures y in Better(paths, score, kept) {
        ByScoreOrders(score);
        assert ByScore(score)(y, dropped) && ByScore(score)(dropped, kept);
        assert ByScore(score)(y, kept);
        if y == kept {
          AboveAntisymmetric(score, kept, dropped);
        }
      }
      SubsetSize(rest, Better(paths, score, kept));
      assert false;
    }
    ByScoreOrders(score);
    assert ByScore(score)(kept, dropped) || ByScore(score)(dropped, kept);
  }

  /** `chosen` are the paths that fewer than the cap outrank, without duplicates and in the order of names. */
  ghost predicate IsBest(paths: seq<string>, score: string -> int, cap: int, chosen: seq<string>) {
    && Distinct(chosen) && SortedBy(StrLe, chosen)
    && |chosen| == |Slice(paths, cap)|
    && forall x :: x in chosen <==> x in paths && |Better(paths, score, x)| < |Slice(paths, cap)|
  }

  /** Only the paths as a set, and their scores, matter. */
  lemma IsBestAgrees(paths: seq<string>, score: string -> int, others: seq<string>, other: string -> int, cap: int,
                     chosen: seq<string>)
    requires IsBest(paths, score, cap, chosen) && |paths| == |others|
    requires forall x :: x in paths <==> x in others
    requires forall x :: x in paths ==> score(x) == other(x)
    ensures IsBest(others, other, cap, chosen)
  {
    forall x | x in paths ensures Better(paths, score, x) == Better(others, other, x) {
      forall y ensures y in Better(paths, score, x) <==> y in Better(others, other, x) {
        assert y in paths ==> Above(score, y, x) == Above(other, y, x);
      }
    }
  }

  /** A limit that is not exceeded drops nothing. */
  lemma NothingDropped(paths: seq<string>, score: string -> int, cap: int)
    requires Distinct(paths) && |paths| <= cap
    ensures IsBest(paths, score, cap, Sort(StrLe, paths))
  {
    StrOrders();
    SortSorts(StrLe, paths);
    SameElements(paths, Sort(StrLe, paths));
    forall x | x in paths ensures |Better(paths, score, x)| < |paths| {
      var all := set y | y in paths;
      DistinctSize(paths);
      SubsetSize(Better(paths, score, x), all - {x});
    }
  }

  lemma ChosenOutrank(paths: seq<string>, score: string -> int, cap: int, chosen: seq<string>, kept: string, dropped: string)
    requires Distinct(paths) && IsBest(paths, score, cap, chosen)
    requires kept in chosen && dropped in paths && dropped !in chosen
    ensures Above(score, kept, dropped) && !Above(score, dropped, kept)
  {
    BestExact(paths, score, cap);
    BestOutranks(paths, score, cap, kept, dropped);
  }

  // ---- The same on sets ----

  /** How many of `n` paths a limit leaves. */
  function Room(n: nat, cap: int): (room: nat)
    ensures room <= n
  {
    if cap >= n then n else if cap >= 0 then cap else if n + cap >= 0 then n + cap else 0
  }

  ghost function Ahead(s: set<string>, score: string -> int, x: string): set<string> {
    set y | y in s && y != x && Above(score, y, x)
  }

  /** Those that fewer than the limit rank above. */
  ghost function Top(s: set<string>, score: string -> int, cap: int): set<string> {
    set x | x in s && |Ahead(s, score, x)| < Room(|s|, cap)
  }

  /** What is selected depends on the set of paths and on their scores alone. */
  lemma TopOfBest(paths: seq<string>, score: string -> int, cap: int, chosen: seq<string>, s: set<string>,
                  other: string -> int)
    requires Distinct(paths) && IsBest(paths, score, cap, chosen)
    requires forall x :: x in s <==> x in paths
    requires forall x :: x in s ==> score(x) == other(x)
    ensures |s| == |paths| && forall x :: x in chosen <==> x in Top(s, other, cap)
  {
    DistinctSize(paths);
    assert s == set x | x in paths;
    assert |Slice(paths, cap)| == Room(|s|, cap);
    forall x | x in s ensures Better(paths, score, x) == Ahead(s, other, x) {
      forall y ensures y in Better(paths, score, x) <==> y in Ahead(s, other, x) {
        assert y in s ==> Above(score, y, x) == Above(other, y, x);
      }
    }
  }

  /** A limit that is not exceeded leaves everything. */
  lemma TopAll(s: set<string>, score: string -> int, cap: int)
    requires |s| <= cap
    ensures Top(s, score, cap) == s
  {
    forall x | x in s ensures |Ahead(s, score, x)| < Room(|s|, cap) {
      SubsetSize(Ahead(s, score, x), s - {x});
    }
  }
}
